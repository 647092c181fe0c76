/**
 * Assignments of a professional to a patient: created active (and principal
 * unless stated otherwise), switched off by deactivation, and queried for
 * "is there an active assignment for this pair".
 */
module AsignacionService {
  import opened Common

  /** A row of ASIGNACION_PROFESIONAL_PACIENTE. */
  datatype Asignacion = Asignacion(
    idAsignacion: int,
    profesional: int,
    paciente: int,
    esPrincipal: bool,
    fechaAsignacion: Instant,
    activo: bool,
    fechaUltimaModificacion: Instant)

  /** Java `int` range, which `Math.toIntExact` demands of a `long`. */
  predicate EnRangoInt(x: int) { -0x8000_0000 <= x < 0x8000_0000 }

  /** `existeAsignacionActiva`: some active assignment links the pair. */
  predicate ExisteActiva(asignaciones: map<int, Asignacion>, profesional: int, paciente: int)
  {
    exists k :: k in asignaciones && asignaciones[k].profesional == profesional &&
      asignaciones[k].paciente == paciente && asignaciones[k].activo
  }

  /**
   * The store after `deactivateAsignacion(id)`: the assignment is inactive;
   * it is stamped only if it was active, since an unchanged row is not
   * updated.
   */
  function Desactivada(asignaciones: map<int, Asignacion>, id: int, ahora: Instant)
    : (r: map<int, Asignacion>)
    requires id in asignaciones
    ensures r.Keys == asignaciones.Keys && !r[id].activo
    ensures forall k :: k in asignaciones && k != id ==> r[k] == asignaciones[k]
    ensures r[id].(activo := asignaciones[id].activo,
                   fechaUltimaModificacion := asignaciones[id].fechaUltimaModificacion) ==
            asignaciones[id]
    ensures !asignaciones[id].activo ==> r == asignaciones
  {
    var a := asignaciones[id];
    if a.activo then asignaciones[id := a.(activo := false, fechaUltimaModificacion := ahora)]
    else asignaciones
  }

  /**
   * Deactivating one assignment leaves the pair active exactly when another
   * active assignment links it; other pairs are unaffected.
   */
  lemma DesactivarPareja(asignaciones: map<int, Asignacion>, id: int, ahora: Instant,
                         profesional: int, paciente: int)
    requires id in asignaciones
    ensures ExisteActiva(Desactivada(asignaciones, id, ahora), profesional, paciente) <==>
      exists k :: k in asignaciones && k != id && asignaciones[k].profesional == profesional &&
        asignaciones[k].paciente == paciente && asignaciones[k].activo
  {
    var r := Desactivada(asignaciones, id, ahora);
    if ExisteActiva(r, profesional, paciente) {
      var k :| k in r && r[k].profesional == profesional && r[k].paciente == paciente && r[k].activo;
      assert k != id;
      assert asignaciones[k] == r[k];
    }
  }

  class AsignacionProfesionalPacienteServiceImpl {
    /** The assignment repository, by id. */
    var asignaciones: map<int, Asignacion>
    /** Ids in the professional and patient repositories. */
    var profesionales: set<int>
    var pacientes: set<int>
    /** The next identity value of the table. */
    var siguienteId: int

    ghost predicate Valid()
      reads this
    {
      forall k :: k in asignaciones ==> asignaciones[k].idAsignacion == k && k < siguienteId
    }

    constructor (profesionales: set<int>, pacientes: set<int>)
      ensures Valid() && asignaciones == map[]
      ensures this.profesionales == profesionales && this.pacientes == pacientes
    {
      asignaciones := map[];
      this.profesionales := profesionales;
      this.pacientes := pacientes;
      siguienteId := 1;
    }

    /**
     * `save`: both ids are required and must exist; the new assignment is
     * active, principal unless the request says otherwise, and stamped now.
     */
    method Save(idProfesional: Option<int>, idPaciente: Option<int>, esPrincipal: Option<bool>,
                ahora: Instant)
      returns (r: Result<Asignacion>)
      requires Valid()
      modifies this
      ensures Valid()
      ensures profesionales == old(profesionales) && pacientes == old(pacientes)
      ensures r.Success? <==>
        idProfesional.Some? && idPaciente.Some? &&
        idProfesional.value in profesionales && idPaciente.value in pacientes
      ensures r.Failure? ==> asignaciones == old(asignaciones) && siguienteId == old(siguienteId)
      ensures r.Success? ==>
        r.value.idAsignacion !in old(asignaciones) &&
        asignaciones == old(asignaciones)[r.value.idAsignacion := r.value] &&
        r.value == Asignacion(r.value.idAsignacion, idProfesional.value, idPaciente.value,
                              OrElse(esPrincipal, true), ahora, true, ahora) &&
        ExisteActiva(asignaciones, idProfesional.value, idPaciente.value)
    {
      if idProfesional.None? {
        return Failure("El ID del profesional es obligatorio");
      }
      if idPaciente.None? {
        return Failure("El ID del paciente es obligatorio");
      }
      if idProfesional.value !in profesionales {
        return Failure("Profesional no encontrado");
      }
      if idPaciente.value !in pacientes {
        return Failure("Paciente no encontrado");
      }
      var principal := if esPrincipal.Some? then esPrincipal.value else true;
      var nueva := Asignacion(siguienteId, idProfesional.value, idPaciente.value, principal,
                              ahora, true, ahora);
      asignaciones := asignaciones[siguienteId := nueva];
      siguienteId := siguienteId + 1;
      assert asignaciones[nueva.idAsignacion] == nueva;
      r := Success(nueva);
    }

    /** `deactivateAsignacion`: an unknown id fails; otherwise `Desactivada`. */
    method DeactivateAsignacion(id: int, ahora: Instant) returns (r: Result<Asignacion>)
      requires Valid()
      modifies this
      ensures Valid()
      ensures siguienteId == old(siguienteId)
      ensures r.Success? <==> id in old(asignaciones)
      ensures r.Failure? ==> asignaciones == old(asignaciones)
      ensures r.Success? ==>
        asignaciones == Desactivada(old(asignaciones), id, ahora) && r.value == asignaciones[id]
    {
      if id !in asignaciones {
        return Failure("Asignación no encontrada");
      }
      var a := asignaciones[id];
      if a.activo {
        a := a.(activo := false, fechaUltimaModificacion := ahora);
        asignaciones := asignaciones[id := a];
      }
      r := Success(a);
    }

    /**
     * `isAsignacionActiva`: false when either id is null; a `long` outside
     * the `int` range makes `Math.toIntExact` throw.
     */
    function IsAsignacionActiva(idProfesional: Option<int>, idPaciente: Option<int>)
      : (r: Result<bool>)
      reads this
      ensures idProfesional.None? || idPaciente.None? ==> r == Success(false)
      ensures r.Failure? <==>
        idProfesional.Some? && idPaciente.Some? &&
        !(EnRangoInt(idProfesional.value) && EnRangoInt(idPaciente.value))
      ensures r == Success(true) <==>
        idProfesional.Some? && idPaciente.Some? &&
        EnRangoInt(idProfesional.value) && EnRangoInt(idPaciente.value) &&
        ExisteActiva(asignaciones, idProfesional.value, idPaciente.value)
    {
      if idProfesional.None? || idPaciente.None? then Success(false)
      else if !EnRangoInt(idProfesional.value) || !EnRangoInt(idPaciente.value) then
        Failure("ArithmeticException: integer overflow")
      else Success(ExisteActiva(asignaciones, idProfesional.value, idPaciente.value))
    }
  }
}
