/**
 * A patient's daily goal (META_DIARIA) and its persistence hooks. The
 * entity's one rule is kept by the update hook: a goal carries a completion
 * instant exactly when its state is COMPLETADA.
 */
module MetaDiariaEntity {
  import opened Common

  /** Goal states, as the service names them. */
  datatype EstadoMeta = PENDIENTE | COMPLETADA | CANCELADA

  /** Every column of a goal, as one value. */
  datatype MetaDatos = MetaDatos(
    id: int,
    paciente: int,
    textoMeta: string,
    fechaAsignada: Day,
    estado: Option<EstadoMeta>,
    notas: Option<string>,
    fechaCompletada: Option<Instant>,
    fechaCreacion: Option<Instant>,
    fechaUltimaModificacion: Option<Instant>)

  /** The entity's invariant: a completion instant iff the goal is COMPLETADA. */
  predicate Coherente(d: MetaDatos)
  {
    d.fechaCompletada.Some? <==> d.estado == Some(COMPLETADA)
  }

  /**
   * The completion instant `onUpdate` leaves: the old one kept while
   * COMPLETADA, now if COMPLETADA had none, cleared otherwise.
   */
  function FechaCompletadaTras(estado: Option<EstadoMeta>, fecha: Option<Instant>,
                               ahora: Instant): (r: Option<Instant>)
    ensures r.Some? <==> estado == Some(COMPLETADA)
    ensures estado == Some(COMPLETADA) && fecha.Some? ==> r == fecha
  {
    if estado == Some(COMPLETADA) && fecha.None? then Some(ahora)
    else if estado != Some(COMPLETADA) then None
    else fecha
  }

  /**
   * The goal after `onUpdate` at `ahora`: stamped, and coherent whatever it
   * was before; a coherent goal keeps its completion instant.
   */
  function AlActualizar(d: MetaDatos, ahora: Instant): (r: MetaDatos)
    ensures Coherente(r)
    ensures r.fechaUltimaModificacion == Some(ahora)
    ensures Coherente(d) ==> r.fechaCompletada == d.fechaCompletada
    ensures r.(fechaCompletada := d.fechaCompletada,
               fechaUltimaModificacion := d.fechaUltimaModificacion) == d
  {
    d.(fechaCompletada := FechaCompletadaTras(d.estado, d.fechaCompletada, ahora),
       fechaUltimaModificacion := Some(ahora))
  }

  /** Running the update hook twice is running it once, up to the stamp. */
  lemma AlActualizarIdempotente(d: MetaDatos, t1: Instant, t2: Instant)
    ensures AlActualizar(AlActualizar(d, t1), t2) == AlActualizar(d, t1).(fechaUltimaModificacion := Some(t2))
  {
  }

  class MetaDiaria {
    var id: int
    var paciente: int
    var textoMeta: string
    var fechaAsignada: Day
    var estado: Option<EstadoMeta>
    var notas: Option<string>
    var fechaCompletada: Option<Instant>
    var fechaCreacion: Option<Instant>
    var fechaUltimaModificacion: Option<Instant>

    /** The goal's columns. */
    function Datos(): MetaDatos
      reads this
    {
      MetaDatos(id, paciente, textoMeta, fechaAsignada, estado, notas, fechaCompletada,
                fechaCreacion, fechaUltimaModificacion)
    }

    /**
     * A new goal with its required columns set: PENDIENTE by default, not
     * completed, not yet stamped.
     */
    constructor (id: int, paciente: int, textoMeta: string, fechaAsignada: Day,
                 notas: Option<string>)
      ensures Datos() == MetaDatos(id, paciente, textoMeta, fechaAsignada, Some(PENDIENTE),
                                   notas, None, None, None)
      ensures Coherente(Datos())
    {
      this.id := id;
      this.paciente := paciente;
      this.textoMeta := textoMeta;
      this.fechaAsignada := fechaAsignada;
      estado := Some(PENDIENTE);
      this.notas := notas;
      fechaCompletada := None;
      fechaCreacion := None;
      fechaUltimaModificacion := None;
    }

    /** `@PrePersist`: both stamps become `ahora`. */
    method OnCreate(ahora: Instant)
      modifies this
      ensures Datos() == old(Datos()).(fechaCreacion := Some(ahora),
                                       fechaUltimaModificacion := Some(ahora))
    {
      fechaCreacion := Some(ahora);
      fechaUltimaModificacion := Some(ahora);
    }

    /** `@PreUpdate`: stamp the row and keep the completion instant coherent. */
    method OnUpdate(ahora: Instant)
      modifies this
      ensures Datos() == AlActualizar(old(Datos()), ahora)
    {
      fechaUltimaModificacion := Some(ahora);
      if estado == Some(COMPLETADA) && fechaCompletada.None? {
        fechaCompletada := Some(ahora);
      } else if estado != Some(COMPLETADA) {
        fechaCompletada := None;
      }
    }
  }
}
