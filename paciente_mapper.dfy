/**
 * The patient entity and its mapper: two read-only views (the response with
 * the nested user, and the flat DTO) and `applyUpdates`, which copies the
 * present fields of a request, the health card only when it is non-empty.
 */
module PacienteMapper {
  import opened Common
  import opened UsuarioMapper

  /** The patient's own columns (its user is a separate object). */
  datatype PacienteDatos = PacienteDatos(
    id: Option<int>,
    tarjetaSanitaria: Option<string>,
    fechaNacimiento: Option<Day>,
    genero: Option<string>)

  datatype PacienteResponseDTO = PacienteResponseDTO(
    id: Option<int>,
    usuario: Option<UsuarioResponseDTO>,
    tarjetaSanitaria: Option<string>,
    fechaNacimiento: Option<Day>,
    genero: Option<string>)

  datatype PacienteDTO = PacienteDTO(
    id: Option<int>,
    nombre: Option<string>,
    apellidos: Option<string>,
    email: Option<string>,
    fechaNacimiento: Option<Day>)

  /** `PacienteUpdateRequestDTO`. */
  datatype PacienteUpdateRequest = PacienteUpdateRequest(
    fechaNacimiento: Option<Day>,
    genero: Option<string>,
    tarjetaSanitaria: Option<string>)

  /** The health card is written only when the request has a non-empty one. */
  predicate TarjetaUtil(t: Option<string>) { t.Some? && t.value != [] }

  /**
   * The patient after `applyUpdates` with a non-null request: birth date and
   * gender taken when present, the health card when present and non-empty,
   * the id untouched.
   */
  function Aplicado(d: PacienteDatos, u: PacienteUpdateRequest): (r: PacienteDatos)
    ensures r.id == d.id
    ensures r.fechaNacimiento == Si(u.fechaNacimiento, d.fechaNacimiento)
    ensures r.genero == Si(u.genero, d.genero)
    ensures r.tarjetaSanitaria == (if TarjetaUtil(u.tarjetaSanitaria) then u.tarjetaSanitaria
                                   else d.tarjetaSanitaria)
  {
    PacienteDatos(d.id,
                  if TarjetaUtil(u.tarjetaSanitaria) then u.tarjetaSanitaria else d.tarjetaSanitaria,
                  Si(u.fechaNacimiento, d.fechaNacimiento), Si(u.genero, d.genero))
  }

  /** An update never blanks the health card, and repeating it changes nothing more. */
  lemma AplicadoTarjeta(d: PacienteDatos, u: PacienteUpdateRequest)
    ensures Aplicado(d, u).tarjetaSanitaria == Some([]) ==> d.tarjetaSanitaria == Some([])
    ensures Aplicado(d, u).tarjetaSanitaria.None? ==> d.tarjetaSanitaria.None?
    ensures Aplicado(Aplicado(d, u), u) == Aplicado(d, u)
  {
  }

  /** A request with no useful value leaves the patient as it was. */
  lemma AplicadoNeutro(d: PacienteDatos, t: Option<string>)
    requires !TarjetaUtil(t)
    ensures Aplicado(d, PacienteUpdateRequest(None, None, t)) == d
  {
  }

  class Paciente {
    var id: Option<int>
    var usuario: Usuario?
    var tarjetaSanitaria: Option<string>
    var fechaNacimiento: Option<Day>
    var genero: Option<string>

    function Datos(): PacienteDatos
      reads this
    {
      PacienteDatos(id, tarjetaSanitaria, fechaNacimiento, genero)
    }

    constructor (d: PacienteDatos, usuario: Usuario?)
      ensures Datos() == d && this.usuario == usuario
    {
      id, tarjetaSanitaria, fechaNacimiento, genero := d.id, d.tarjetaSanitaria, d.fechaNacimiento, d.genero;
      this.usuario := usuario;
    }
  }

  /** `toResponse`: null for null; the nested user goes through `UsuarioMapper.toResponse`. */
  function ToResponse(paciente: Paciente?): (r: Option<PacienteResponseDTO>)
    reads paciente, if paciente != null then paciente.usuario else null
    ensures r.None? <==> paciente == null
    ensures paciente != null ==>
      r.value.id == paciente.id && r.value.tarjetaSanitaria == paciente.tarjetaSanitaria &&
      r.value.fechaNacimiento == paciente.fechaNacimiento && r.value.genero == paciente.genero &&
      r.value.usuario == UsuarioMapper.ToResponse(paciente.usuario)
    ensures paciente != null ==> (r.value.usuario.None? <==> paciente.usuario == null)
  {
    if paciente == null then None
    else Some(PacienteResponseDTO(paciente.id, UsuarioMapper.ToResponse(paciente.usuario),
                                  paciente.tarjetaSanitaria, paciente.fechaNacimiento,
                                  paciente.genero))
  }

  /** `toPacienteDTO`: null for null; the user's name and email only when it has a user. */
  function ToPacienteDTO(paciente: Paciente?): (r: Option<PacienteDTO>)
    reads paciente, if paciente != null then paciente.usuario else null
    ensures r.None? <==> paciente == null
    ensures paciente != null ==>
      r.value.id == paciente.id && r.value.fechaNacimiento == paciente.fechaNacimiento
    ensures paciente != null && paciente.usuario == null ==>
      r.value.nombre.None? && r.value.apellidos.None? && r.value.email.None?
    ensures paciente != null && paciente.usuario != null ==>
      r.value.nombre == paciente.usuario.nombre && r.value.apellidos == paciente.usuario.apellidos &&
      r.value.email == paciente.usuario.email
  {
    if paciente == null then None
    else if paciente.usuario == null then
      Some(PacienteDTO(paciente.id, None, None, None, paciente.fechaNacimiento))
    else
      Some(PacienteDTO(paciente.id, paciente.usuario.nombre, paciente.usuario.apellidos,
                       paciente.usuario.email, paciente.fechaNacimiento))
  }

  /** The flat DTO agrees with the response on everything they share. */
  lemma VistasCoinciden(paciente: Paciente?)
    ensures ToPacienteDTO(paciente).None? <==> ToResponse(paciente).None?
    ensures paciente != null && paciente.usuario != null ==>
      ToPacienteDTO(paciente).value.nombre == ToResponse(paciente).value.usuario.value.nombre &&
      ToPacienteDTO(paciente).value.email == ToResponse(paciente).value.usuario.value.email &&
      ToPacienteDTO(paciente).value.fechaNacimiento == ToResponse(paciente).value.fechaNacimiento
  {
  }

  /**
   * `applyUpdates`: nothing happens when either argument is null; otherwise
   * the patient's columns become `Aplicado` and its user is untouched.
   */
  method ApplyUpdates(paciente: Paciente?, update: Option<PacienteUpdateRequest>)
    modifies paciente
    ensures paciente != null ==> paciente.usuario == old(paciente.usuario)
    ensures paciente != null && update.None? ==> paciente.Datos() == old(paciente.Datos())
    ensures paciente != null && update.Some? ==>
      paciente.Datos() == Aplicado(old(paciente.Datos()), update.value)
  {
    if paciente == null || update.None? {
      return;
    }
    var u := update.value;
    if u.fechaNacimiento.Some? {
      paciente.fechaNacimiento := u.fechaNacimiento;
    }
    if u.genero.Some? {
      paciente.genero := u.genero;
    }
    if u.tarjetaSanitaria.Some? && u.tarjetaSanitaria.value != [] {
      paciente.tarjetaSanitaria := u.tarjetaSanitaria;
    }
  }
}
