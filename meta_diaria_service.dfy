/**
 * The daily-goal service: create a goal (refusing a near-identical one for
 * the same patient and day), complete it, cancel it, set its state, or edit
 * its text, day and notes. Every update goes through the entity's
 * `onUpdate` hook, so the stored completion instant stays coherent with the
 * state; the goal each update answers with is built before that hook runs.
 */
module MetaDiariaService {
  import opened Common
  import opened Text
  import opened MetaDiariaEntity

  // ---------------------------------------------------------------------
  // The transitions, on values
  // ---------------------------------------------------------------------

  /** `notas` when present, the goal's own notes otherwise. */
  function NotasTras(d: MetaDatos, notas: Option<string>): (r: Option<string>)
    ensures notas.Some? ==> r == notas
    ensures notas.None? ==> r == d.notas
  {
    if notas.Some? then notas else d.notas
  }

  /*
   * Each update builds its response from the entity as the service's setters
   * leave it: `save` on a managed entity does not flush, so the `@PreUpdate`
   * hook runs only at commit, after the response exists. The stored goal is
   * the hook applied to that in-memory state.
   */

  /** The goal as `completarMeta`'s setters leave it. */
  function CompletadaEnMemoria(d: MetaDatos, notas: Option<string>, ahora: Instant): (r: MetaDatos)
    ensures r.estado == Some(COMPLETADA) && r.fechaCompletada == Some(ahora)
    ensures r.notas == NotasTras(d, notas)
    ensures r.(estado := d.estado, fechaCompletada := d.fechaCompletada, notas := d.notas) == d
  {
    d.(estado := Some(COMPLETADA), fechaCompletada := Some(ahora), notas := NotasTras(d, notas))
  }

  /** The goal as `cancelarMeta`'s setters leave it: the completion instant is not touched. */
  function CanceladaEnMemoria(d: MetaDatos, notas: Option<string>): (r: MetaDatos)
    ensures r.estado == Some(CANCELADA) && r.notas == NotasTras(d, notas)
    ensures r.(estado := d.estado, notas := d.notas) == d
  {
    d.(estado := Some(CANCELADA), notas := NotasTras(d, notas))
  }

  /** The goal as `actualizarEstadoMeta`'s setters leave it. */
  function ConEstadoEnMemoria(d: MetaDatos, estado: Option<EstadoMeta>, notas: Option<string>)
    : (r: MetaDatos)
    ensures r.estado == estado && r.notas == NotasTras(d, notas)
    ensures r.(estado := d.estado, notas := d.notas) == d
  {
    d.(estado := estado, notas := NotasTras(d, notas))
  }

  /** The goal as `actualizarMeta`'s setters leave it. */
  function EditadaEnMemoria(d: MetaDatos, texto: Option<string>, fecha: Option<Day>,
                            notas: Option<string>): (r: MetaDatos)
    ensures r.textoMeta == (if texto.Some? then texto.value else d.textoMeta)
    ensures r.fechaAsignada == (if fecha.Some? then fecha.value else d.fechaAsignada)
    ensures r.notas == NotasTras(d, notas)
    ensures r.(textoMeta := d.textoMeta, fechaAsignada := d.fechaAsignada, notas := d.notas) == d
  {
    var d' := if texto.Some? then d.(textoMeta := texto.value) else d;
    var d' := if fecha.Some? then d'.(fechaAsignada := fecha.value) else d';
    d'.(notas := NotasTras(d, notas))
  }

  /** `completarMeta`: COMPLETADA, completed now, notes replaced when given. */
  function Completada(d: MetaDatos, notas: Option<string>, ahora: Instant): (r: MetaDatos)
    ensures Coherente(r)
    ensures r.estado == Some(COMPLETADA) && r.fechaCompletada == Some(ahora)
    ensures r.notas == NotasTras(d, notas) && r.fechaUltimaModificacion == Some(ahora)
    ensures r.(estado := d.estado, fechaCompletada := d.fechaCompletada, notas := d.notas,
               fechaUltimaModificacion := d.fechaUltimaModificacion) == d
  {
    AlActualizar(CompletadaEnMemoria(d, notas, ahora), ahora)
  }

  /** `cancelarMeta`: CANCELADA from any state, which clears the completion instant. */
  function Cancelada(d: MetaDatos, notas: Option<string>, ahora: Instant): (r: MetaDatos)
    ensures Coherente(r)
    ensures r.estado == Some(CANCELADA) && r.fechaCompletada == None
    ensures r.notas == NotasTras(d, notas) && r.fechaUltimaModificacion == Some(ahora)
    ensures r.(estado := d.estado, fechaCompletada := d.fechaCompletada, notas := d.notas,
               fechaUltimaModificacion := d.fechaUltimaModificacion) == d
  {
    AlActualizar(CanceladaEnMemoria(d, notas), ahora)
  }

  /**
   * `actualizarEstadoMeta`: any requested state (even none), with no guard.
   * A goal already COMPLETADA that is set COMPLETADA again keeps its
   * completion instant.
   */
  function ConEstado(d: MetaDatos, estado: Option<EstadoMeta>, notas: Option<string>,
                     ahora: Instant): (r: MetaDatos)
    ensures Coherente(r)
    ensures r.estado == estado
    ensures Coherente(d) && d.estado == Some(COMPLETADA) && estado == Some(COMPLETADA) ==>
      r.fechaCompletada == d.fechaCompletada
    ensures r.notas == NotasTras(d, notas) && r.fechaUltimaModificacion == Some(ahora)
    ensures r.(estado := d.estado, fechaCompletada := d.fechaCompletada, notas := d.notas,
               fechaUltimaModificacion := d.fechaUltimaModificacion) == d
  {
    AlActualizar(ConEstadoEnMemoria(d, estado, notas), ahora)
  }

  /**
   * `actualizarMeta`: text, day and notes replaced only where the request
   * has them; the state and, on a coherent goal, the completion instant are
   * untouched.
   */
  function Editada(d: MetaDatos, texto: Option<string>, fecha: Option<Day>,
                   notas: Option<string>, ahora: Instant): (r: MetaDatos)
    ensures Coherente(r) && r.estado == d.estado
    ensures Coherente(d) ==> r.fechaCompletada == d.fechaCompletada
    ensures r.textoMeta == (if texto.Some? then texto.value else d.textoMeta)
    ensures r.fechaAsignada == (if fecha.Some? then fecha.value else d.fechaAsignada)
    ensures r.notas == NotasTras(d, notas) && r.fechaUltimaModificacion == Some(ahora)
    ensures r.(textoMeta := d.textoMeta, fechaAsignada := d.fechaAsignada, notas := d.notas,
               fechaCompletada := d.fechaCompletada,
               fechaUltimaModificacion := d.fechaUltimaModificacion) == d
  {
    AlActualizar(EditadaEnMemoria(d, texto, fecha, notas), ahora)
  }

  /**
   * The response and the stored goal differ only in the two fields the hook
   * writes. Setting a PENDIENTE goal COMPLETADA answers with no completion
   * instant although one is stored, and cancelling a completed goal answers
   * with the old instant although none is stored.
   */
  lemma RespuestaAntesDelGancho(d: MetaDatos, estado: Option<EstadoMeta>, notas: Option<string>,
                                ahora: Instant)
    requires Coherente(d)
    ensures ConEstado(d, estado, notas, ahora) ==
      AlActualizar(ConEstadoEnMemoria(d, estado, notas), ahora)
    ensures Cancelada(d, notas, ahora) == AlActualizar(CanceladaEnMemoria(d, notas), ahora)
    ensures d.estado == Some(PENDIENTE) && estado == Some(COMPLETADA) ==>
      ConEstadoEnMemoria(d, estado, notas).fechaCompletada.None? &&
      ConEstado(d, estado, notas, ahora).fechaCompletada == Some(ahora)
    ensures d.estado == Some(COMPLETADA) ==>
      CanceladaEnMemoria(d, notas).fechaCompletada == d.fechaCompletada != None &&
      Cancelada(d, notas, ahora).fechaCompletada == None
  {
  }

  // ---------------------------------------------------------------------
  // Duplicates
  // ---------------------------------------------------------------------

  /** SQL `TRIM` with no character list strips spaces. */
  predicate IsSqlBlank(c: char) { c == ' ' }

  /** The text key the duplicate query compares: `UPPER(TRIM(text))`. */
  function ClaveTexto(t: string): (k: string)
    ensures |k| <= |t|
  {
    Upper(Trim(t, IsSqlBlank))
  }

  /**
   * `findMetaDuplicada` matches a goal of the same patient and day whose text
   * has the same key and whose state is set and not CANCELADA.
   */
  predicate Similar(d: MetaDatos, paciente: int, fecha: Day, texto: string)
  {
    d.paciente == paciente && d.fechaAsignada == fecha &&
    ClaveTexto(d.textoMeta) == ClaveTexto(texto) &&
    d.estado.Some? && d.estado.value != CANCELADA
  }

  /** Spaces put around a goal text do not change its key. */
  lemma ClaveTextoIgnoraEspacios(pre: string, t: string, post: string)
    requires forall i :: 0 <= i < |pre| ==> pre[i] == ' '
    requires forall i :: 0 <= i < |post| ==> post[i] == ' '
    ensures ClaveTexto(pre + t + post) == ClaveTexto(t)
  {
    TrimSurrounding(pre, t, post, IsSqlBlank);
  }

  /** Upper-casing a goal text does not change its key. */
  lemma ClaveTextoIgnoraMayusculas(t: string)
    ensures ClaveTexto(Upper(t)) == ClaveTexto(t)
  {
    var k := Trim(t, IsSqlBlank);
    calc {
      ClaveTexto(Upper(t));
      Upper(TrimEnd(TrimStart(Upper(t), IsSqlBlank), IsSqlBlank));
      { TrimStartUpper(t); }
      Upper(TrimEnd(Upper(TrimStart(t, IsSqlBlank)), IsSqlBlank));
      { TrimEndUpper(TrimStart(t, IsSqlBlank)); }
      Upper(Upper(k));
      { UpperIdempotent(k); }
      Upper(k);
    }
  }

  /** The space is the only character that upper-cases to a space. */
  lemma {:induction false} TrimStartUpper(s: string)
    ensures TrimStart(Upper(s), IsSqlBlank) == Upper(TrimStart(s, IsSqlBlank))
  {
    if s != [] {
      assert Upper(s)[0] == ToUpper(s[0]);
      if IsSqlBlank(s[0]) {
        assert Upper(s)[1..] == Upper(s[1..]);
        TrimStartUpper(s[1..]);
      }
    }
  }

  lemma {:induction false} TrimEndUpper(s: string)
    ensures TrimEnd(Upper(s), IsSqlBlank) == Upper(TrimEnd(s, IsSqlBlank))
  {
    if s != [] {
      assert Upper(s)[|s| - 1] == ToUpper(s[|s| - 1]);
      if IsSqlBlank(s[|s| - 1]) {
        assert Upper(s)[..|s| - 1] == Upper(s[..|s| - 1]);
        TrimEndUpper(s[..|s| - 1]);
      }
    }
  }

  /**
   * Surrounding spaces and letter case do not tell two goal texts apart:
   * a text similar to a goal stays similar when padded or upper-cased.
   */
  lemma SimilarIgnoraEspacios(d: MetaDatos, texto: string, pre: string, post: string)
    requires Similar(d, d.paciente, d.fechaAsignada, texto)
    requires forall i :: 0 <= i < |pre| ==> pre[i] == ' '
    requires forall i :: 0 <= i < |post| ==> post[i] == ' '
    ensures Similar(d, d.paciente, d.fechaAsignada, pre + texto + post)
    ensures Similar(d, d.paciente, d.fechaAsignada, Upper(texto))
  {
    ClaveTextoIgnoraEspacios(pre, texto, post);
    ClaveTextoIgnoraMayusculas(texto);
  }

  /** A cancelled goal never blocks a new one. */
  lemma CanceladaNoBloquea(d: MetaDatos, notas: Option<string>, ahora: Instant,
                           paciente: int, fecha: Day, texto: string)
    ensures !Similar(Cancelada(d, notas, ahora), paciente, fecha, texto)
  {
  }

  // ---------------------------------------------------------------------
  // The service
  // ---------------------------------------------------------------------

  class MetaDiariaServiceImpl {
    /** The goal repository, by id. */
    var metas: map<int, MetaDiaria>
    /** Ids present in the patient repository. */
    var pacientes: set<int>
    /** The next identity value the goal table hands out. */
    var siguienteId: int

    ghost predicate Valid()
      reads this, metas.Values
    {
      forall k :: k in metas ==>
        metas[k].id == k && k < siguienteId && Coherente(metas[k].Datos())
    }

    /** The duplicate query finds at least one goal. */
    predicate Duplicada(paciente: int, fecha: Day, texto: string)
      reads this, metas.Values
    {
      exists k :: k in metas && Similar(metas[k].Datos(), paciente, fecha, texto)
    }

    constructor (pacientes: set<int>)
      ensures Valid() && metas == map[] && this.pacientes == pacientes
    {
      metas := map[];
      this.pacientes := pacientes;
      siguienteId := 1;
    }

    /**
     * `crearMeta`: the patient must exist; the day defaults to today; a
     * similar goal makes the call fail; a null text fails at insertion. The
     * new goal is PENDIENTE and stamped now, and blocks a second identical
     * request.
     */
    method CrearMeta(idPaciente: Option<int>, textoMeta: Option<string>,
                     fechaAsignada: Option<Day>, notas: Option<string>,
                     hoy: Day, ahora: Instant)
      returns (r: Result<MetaDatos>)
      requires Valid()
      modifies this
      ensures Valid() && pacientes == old(pacientes)
      ensures r.Success? <==>
        (idPaciente.Some? && idPaciente.value in pacientes && textoMeta.Some? &&
         !old(Duplicada(idPaciente.value, OrElse(fechaAsignada, hoy), textoMeta.value)))
      ensures r.Failure? ==> metas == old(metas) && siguienteId == old(siguienteId)
      ensures r.Success? ==>
        r.value.id !in old(metas) && r.value.id in metas && fresh(metas[r.value.id]) &&
        metas == old(metas)[r.value.id := metas[r.value.id]] &&
        metas[r.value.id].Datos() == r.value &&
        r.value == MetaDatos(r.value.id, idPaciente.value, textoMeta.value,
                             OrElse(fechaAsignada, hoy), Some(PENDIENTE), notas,
                             None, Some(ahora), Some(ahora))
      ensures r.Success? ==>
        Duplicada(idPaciente.value, OrElse(fechaAsignada, hoy), textoMeta.value)
    {
      if idPaciente.None? || idPaciente.value !in pacientes {
        return Failure("Paciente no encontrado");
      }
      var fecha := if fechaAsignada.Some? then fechaAsignada.value else hoy;
      if textoMeta.Some? && Duplicada(idPaciente.value, fecha, textoMeta.value) {
        return Failure("Ya existe una meta similar para esta fecha");
      }
      if textoMeta.None? {
        return Failure("TEXTO_META no admite nulos");
      }
      var meta := new MetaDiaria(siguienteId, idPaciente.value, textoMeta.value, fecha, notas);
      meta.OnCreate(ahora);
      metas := metas[siguienteId := meta];
      siguienteId := siguienteId + 1;
      forall k | k in metas
        ensures metas[k].id == k && k < siguienteId && Coherente(metas[k].Datos())
      {
        if k != meta.id {
          assert metas[k] == old(metas[k]);
        }
      }
      assert Similar(metas[meta.id].Datos(), idPaciente.value, fecha, textoMeta.value);
      r := Success(meta.Datos());
    }

    /** `completarMeta`: refused on an unknown or already COMPLETADA goal. */
    method CompletarMeta(idMeta: int, notas: Option<string>, ahora: Instant)
      returns (r: Result<MetaDatos>)
      requires Valid()
      modifies if idMeta in metas then {metas[idMeta]} else {}
      ensures Valid()
      ensures r.Success? <==> idMeta in metas && old(metas[idMeta].estado) != Some(COMPLETADA)
      ensures r.Failure? && idMeta in metas ==> metas[idMeta].Datos() == old(metas[idMeta].Datos())
      ensures r.Success? ==>
        metas[idMeta].Datos() == Completada(old(metas[idMeta].Datos()), notas, ahora) &&
        r.value == CompletadaEnMemoria(old(metas[idMeta].Datos()), notas, ahora)
    {
      if idMeta !in metas {
        return Failure("Meta no encontrada");
      }
      var meta := metas[idMeta];
      if meta.estado == Some(COMPLETADA) {
        return Failure("La meta ya está completada");
      }
      assert forall k :: k in metas && k != idMeta ==> metas[k] != meta;
      meta.estado := Some(COMPLETADA);
      meta.fechaCompletada := Some(ahora);
      if notas.Some? {
        meta.notas := notas;
      }
      var respuesta := meta.Datos();
      meta.OnUpdate(ahora);
      r := Success(respuesta);
    }

    /** `cancelarMeta`: any known goal becomes CANCELADA. */
    method CancelarMeta(idMeta: int, notas: Option<string>, ahora: Instant)
      returns (r: Result<MetaDatos>)
      requires Valid()
      modifies if idMeta in metas then {metas[idMeta]} else {}
      ensures Valid()
      ensures r.Success? <==> idMeta in metas
      ensures r.Success? ==>
        metas[idMeta].Datos() == Cancelada(old(metas[idMeta].Datos()), notas, ahora) &&
        r.value == CanceladaEnMemoria(old(metas[idMeta].Datos()), notas)
    {
      if idMeta !in metas {
        return Failure("Meta no encontrada");
      }
      var meta := metas[idMeta];
      assert forall k :: k in metas && k != idMeta ==> metas[k] != meta;
      meta.estado := Some(CANCELADA);
      if notas.Some? {
        meta.notas := notas;
      }
      var respuesta := meta.Datos();
      meta.OnUpdate(ahora);
      r := Success(respuesta);
    }

    /** `actualizarEstadoMeta`: the requested state, whatever the current one. */
    method ActualizarEstadoMeta(idMeta: Option<int>, estado: Option<EstadoMeta>,
                                notas: Option<string>, ahora: Instant)
      returns (r: Result<MetaDatos>)
      requires Valid()
      modifies if idMeta.Some? && idMeta.value in metas then {metas[idMeta.value]} else {}
      ensures Valid()
      ensures r.Success? <==> idMeta.Some? && idMeta.value in metas
      ensures r.Success? ==>
        metas[idMeta.value].Datos() ==
          ConEstado(old(metas[idMeta.value].Datos()), estado, notas, ahora) &&
        r.value == ConEstadoEnMemoria(old(metas[idMeta.value].Datos()), estado, notas)
    {
      if idMeta.None? || idMeta.value !in metas {
        return Failure("Meta no encontrada");
      }
      var meta := metas[idMeta.value];
      assert forall k :: k in metas && k != idMeta.value ==> metas[k] != meta;
      meta.estado := estado;
      if notas.Some? {
        meta.notas := notas;
      }
      var respuesta := meta.Datos();
      meta.OnUpdate(ahora);
      r := Success(respuesta);
    }

    /** `actualizarMeta`: text, day and notes, each only when the request has it. */
    method ActualizarMeta(id: int, textoMeta: Option<string>, fechaAsignada: Option<Day>,
                          notas: Option<string>, ahora: Instant)
      returns (r: Result<MetaDatos>)
      requires Valid()
      modifies if id in metas then {metas[id]} else {}
      ensures Valid()
      ensures r.Success? <==> id in metas
      ensures r.Success? ==>
        metas[id].Datos() == Editada(old(metas[id].Datos()), textoMeta, fechaAsignada, notas, ahora) &&
        r.value == EditadaEnMemoria(old(metas[id].Datos()), textoMeta, fechaAsignada, notas)
    {
      if id !in metas {
        return Failure("Meta no encontrada");
      }
      var meta := metas[id];
      assert forall k :: k in metas && k != id ==> metas[k] != meta;
      if textoMeta.Some? {
        meta.textoMeta := textoMeta.value;
      }
      if fechaAsignada.Some? {
        meta.fechaAsignada := fechaAsignada.value;
      }
      if notas.Some? {
        meta.notas := notas;
      }
      var respuesta := meta.Datos();
      meta.OnUpdate(ahora);
      r := Success(respuesta);
    }
  }
}
