/**
 * The AI-assistant conversation service: a patient opens a session, sends
 * messages (each answered by a simulated assistant reply carrying a
 * keyword-based sentiment) and the session is closed. Sessions and messages
 * live in two abstract stores; the store of messages is what the 100-message
 * cap counts.
 */
module IAService {
  import opened Common
  import opened Text

  /**
   * Session states. The service only names ACTIVA and FINALIZADA; any other
   * constant the enumeration may declare is `OtroEstadoSesion`.
   */
  datatype EstadoSesion = ACTIVA | FINALIZADA | OtroEstadoSesion(nombre: string)

  /** Session kinds: CONVERSACION is the default, the rest are opaque. */
  datatype TipoSesion = CONVERSACION | OtroTipoSesion(nombre: string)

  datatype RolMensajeIA = USUARIO | ASISTENTE

  datatype SentimientoDetectado = POSITIVO | NEGATIVO | MUY_NEGATIVO | NEUTRO

  /** A row of SESION_INTERACCION (topics, alerts and audit stamps left out). */
  datatype SesionInteraccion = SesionInteraccion(
    id: int,
    paciente: int,
    profesional: Option<int>,
    tipoSesion: TipoSesion,
    estado: EstadoSesion,
    numeroMensajes: int,
    fechaInicio: Instant,
    fechaFin: Option<Instant>,
    duracionSegundos: Option<int>,
    satisfaccion: Option<int>,
    estadoEmocionalDetectado: Option<string>,
    notasProfesional: Option<string>)

  /** A stored chat line, tied to its session by id. */
  datatype MensajeIA = MensajeIA(
    sesion: int,
    rol: RolMensajeIA,
    mensaje: Option<string>,
    sentimientoDetectado: Option<SentimientoDetectado>,
    timestampMensaje: Instant)

  /** The fixed reply the service stores until a real model is wired in. */
  const RespuestaSimulada: string :=
    "Gracias por compartir eso conmigo. Entiendo que estás pasando por un momento difícil. " +
    "¿Podrías contarme más sobre cómo te has sentido últimamente?"

  // ---------------------------------------------------------------------
  // Sentiment keywords
  // ---------------------------------------------------------------------

  predicate Positivo(t: string)
  {
    Contains(t, "feliz") || Contains(t, "bien") || Contains(t, "mejor")
  }

  predicate Negativo(t: string)
  {
    Contains(t, "triste") || Contains(t, "mal") || Contains(t, "dolor") || Contains(t, "sufr")
  }

  predicate MuyNegativo(t: string)
  {
    Contains(t, "muy mal") || Contains(t, "horrible") || Contains(t, "terrible")
  }

  /**
   * The classifier as written: positive keywords first, then negative ones,
   * then the "very negative" ones. Since "mal" is tested before "muy mal",
   * the second test shadows part of the third.
   */
  function SentimientoTal(mensaje: string): (r: SentimientoDetectado)
    ensures r == POSITIVO <==> Positivo(Lower(mensaje))
  {
    var t := Lower(mensaje);
    if Positivo(t) then POSITIVO
    else if Negativo(t) then NEGATIVO
    else if MuyNegativo(t) then MUY_NEGATIVO
    else NEUTRO
  }

  /**
   * The classifier with the very negative keywords tested before the
   * negative ones, so that "muy mal" is reachable. The service uses it.
   */
  function AnalizarSentimiento(mensaje: string): (r: SentimientoDetectado)
    ensures r == POSITIVO <==> Positivo(Lower(mensaje))
  {
    var t := Lower(mensaje);
    if Positivo(t) then POSITIVO
    else if MuyNegativo(t) then MUY_NEGATIVO
    else if Negativo(t) then NEGATIVO
    else NEUTRO
  }

  /** Any text containing `a + b` contains `b`. */
  lemma ContainsSuffix(s: string, a: string, b: string)
    requires Contains(s, a + b)
    ensures Contains(s, b)
  {
    var i :| 0 <= i <= |s| - |a + b| && OccursAt(s, a + b, i);
    assert s[i + |a|..i + |a| + |b|] == (a + b)[|a|..];
    assert OccursAt(s, b, i + |a|);
  }

  /** Every text holding "muy mal" holds "mal". */
  lemma MuyMalEsMal(t: string)
    requires Contains(t, "muy mal")
    ensures Negativo(t)
  {
    assert "muy mal" == "muy " + "mal";
    ContainsSuffix(t, "muy ", "mal");
  }

  /**
   * As written, "muy mal" never yields MUY_NEGATIVO: a text with "muy mal"
   * and no positive keyword is classified NEGATIVO.
   */
  lemma MuyMalTal(mensaje: string)
    requires Contains(Lower(mensaje), "muy mal")
    requires !Positivo(Lower(mensaje))
    ensures SentimientoTal(mensaje) == NEGATIVO
  {
    MuyMalEsMal(Lower(mensaje));
  }

  /**
   * As written, MUY_NEGATIVO is produced exactly for "horrible" or
   * "terrible" without any positive or negative keyword: the "muy mal"
   * alternative plays no part.
   */
  lemma SentimientoTalMuyNegativo(mensaje: string)
    ensures var t := Lower(mensaje);
      SentimientoTal(mensaje) == MUY_NEGATIVO <==>
      (!Positivo(t) && !Negativo(t) && (Contains(t, "horrible") || Contains(t, "terrible")))
  {
    var t := Lower(mensaje);
    if Contains(t, "muy mal") {
      MuyMalEsMal(t);
    }
  }

  /** Corrected: "muy mal" without a positive keyword gives MUY_NEGATIVO. */
  lemma MuyMalCorregido(mensaje: string)
    requires Contains(Lower(mensaje), "muy mal")
    requires !Positivo(Lower(mensaje))
    ensures AnalizarSentimiento(mensaje) == MUY_NEGATIVO
  {
  }

  /**
   * The corrected classifier refines the written one: the two agree except
   * where the written one says NEGATIVO for a very negative text.
   */
  lemma SentimientoCorregidoRefina(mensaje: string)
    ensures var t := Lower(mensaje);
      AnalizarSentimiento(mensaje) == SentimientoTal(mensaje) ||
      (SentimientoTal(mensaje) == NEGATIVO && AnalizarSentimiento(mensaje) == MUY_NEGATIVO &&
       MuyNegativo(t))
    ensures AnalizarSentimiento(mensaje) == MUY_NEGATIVO <==>
      (!Positivo(Lower(mensaje)) && MuyNegativo(Lower(mensaje)))
    ensures AnalizarSentimiento(mensaje) == NEGATIVO <==>
      (!Positivo(Lower(mensaje)) && !MuyNegativo(Lower(mensaje)) && Negativo(Lower(mensaje)))
  {
  }

  // ---------------------------------------------------------------------
  // The message store and its counts
  // ---------------------------------------------------------------------

  /** `countBySesionId`: how many stored messages belong to session `id`. */
  function MensajesDe(ms: seq<MensajeIA>, id: int): (n: nat)
    ensures n <= |ms|
  {
    if ms == [] then 0
    else MensajesDe(ms[..|ms| - 1], id) + (if ms[|ms| - 1].sesion == id then 1 else 0)
  }

  /** Appending one message counts it for its own session only. */
  lemma MensajesDeAppend(ms: seq<MensajeIA>, m: MensajeIA, id: int)
    ensures MensajesDe(ms + [m], id) == MensajesDe(ms, id) + (if m.sesion == id then 1 else 0)
  {
    assert (ms + [m])[..|ms + [m]| - 1] == ms;
  }

  /** A session that no stored message names has no messages. */
  lemma {:induction false} SinMensajes(ms: seq<MensajeIA>, id: int)
    requires forall i :: 0 <= i < |ms| ==> ms[i].sesion != id
    ensures MensajesDe(ms, id) == 0
  {
    if ms != [] {
      SinMensajes(ms[..|ms| - 1], id);
    }
  }

  /**
   * The invariant of the two stores: every session is keyed by its id, its
   * counter equals the number of stored messages, that number is even and
   * never above 100, and every message belongs to a stored session.
   */
  ghost predicate Coherente(sesiones: map<int, SesionInteraccion>, mensajes: seq<MensajeIA>)
  {
    (forall k :: k in sesiones ==>
       sesiones[k].id == k &&
       sesiones[k].numeroMensajes == MensajesDe(mensajes, k) &&
       MensajesDe(mensajes, k) % 2 == 0 && MensajesDe(mensajes, k) <= 100) &&
    (forall i :: 0 <= i < |mensajes| ==> mensajes[i].sesion in sesiones)
  }

  /** The guards of `enviarMensaje`, in the order the service checks them. */
  predicate EnvioAdmitido(sesiones: map<int, SesionInteraccion>, mensajes: seq<MensajeIA>,
                          id: int, mensaje: Option<string>)
  {
    id in sesiones && sesiones[id].estado == ACTIVA && MensajesDe(mensajes, id) < 100 &&
    mensaje.Some?
  }

  /** The reply stored for `mensaje` in session `id`. */
  function Respuesta(id: int, mensaje: string, ahora: Instant): (m: MensajeIA)
    ensures m.sesion == id && m.rol == ASISTENTE
    ensures m.sentimientoDetectado == Some(AnalizarSentimiento(mensaje))
  {
    MensajeIA(id, ASISTENTE, Some(RespuestaSimulada), Some(AnalizarSentimiento(mensaje)), ahora)
  }

  /**
   * Storing a user message and its reply for an admitted session, and adding
   * 2 to its counter, keeps the stores coherent; in particular the counter
   * can never pass 100.
   */
  lemma EnvioConserva(sesiones: map<int, SesionInteraccion>, mensajes: seq<MensajeIA>,
                      id: int, u: MensajeIA, a: MensajeIA)
    requires Coherente(sesiones, mensajes)
    requires id in sesiones && MensajesDe(mensajes, id) < 100
    requires u.sesion == id && a.sesion == id
    ensures var s := sesiones[id];
      Coherente(sesiones[id := s.(numeroMensajes := s.numeroMensajes + 2)], mensajes + [u, a])
    ensures MensajesDe(mensajes + [u, a], id) == MensajesDe(mensajes, id) + 2 <= 100
  {
    var nuevos := mensajes + [u, a];
    assert nuevos == (mensajes + [u]) + [a];
    forall k | k in sesiones
      ensures MensajesDe(nuevos, k) == MensajesDe(mensajes, k) + (if k == id then 2 else 0)
    {
      MensajesDeAppend(mensajes, u, k);
      MensajesDeAppend(mensajes + [u], a, k);
    }
  }

  /** Adding a session no message names, with a zero counter, keeps the stores coherent. */
  lemma AltaConserva(sesiones: map<int, SesionInteraccion>, mensajes: seq<MensajeIA>,
                     s: SesionInteraccion)
    requires Coherente(sesiones, mensajes)
    requires s.id !in sesiones && s.numeroMensajes == 0
    ensures Coherente(sesiones[s.id := s], mensajes)
  {
    SinMensajes(mensajes, s.id);
  }

  // ---------------------------------------------------------------------
  // Closing a session
  // ---------------------------------------------------------------------

  /** `(int)` on a `long`: keep the low 32 bits, as a signed value. */
  function ToInt(x: int): (r: int)
    ensures -0x8000_0000 <= r < 0x8000_0000
    ensures -0x8000_0000 <= x < 0x8000_0000 ==> r == x
    ensures (x - r) % 0x1_0000_0000 == 0
  {
    (x + 0x8000_0000) % 0x1_0000_0000 - 0x8000_0000
  }

  /**
   * The session after `finalizarSesion`: FINALIZADA, closed now, its length
   * in seconds, and each of the three request fields copied only when present.
   */
  function Finalizada(s: SesionInteraccion, satisfaccion: Option<int>,
                      estadoEmocional: Option<string>, notas: Option<string>,
                      ahora: Instant): (f: SesionInteraccion)
    ensures f.estado == FINALIZADA && f.fechaFin == Some(ahora)
    ensures f.duracionSegundos == Some(ToInt(ahora - s.fechaInicio))
    ensures f.satisfaccion == (if satisfaccion.Some? then satisfaccion else s.satisfaccion)
    ensures f.estadoEmocionalDetectado ==
      (if estadoEmocional.Some? then estadoEmocional else s.estadoEmocionalDetectado)
    ensures f.notasProfesional == (if notas.Some? then notas else s.notasProfesional)
    ensures f.(estado := s.estado, fechaFin := s.fechaFin, duracionSegundos := s.duracionSegundos,
               satisfaccion := s.satisfaccion, estadoEmocionalDetectado := s.estadoEmocionalDetectado,
               notasProfesional := s.notasProfesional) == s
  {
    var f := s.(estado := FINALIZADA, fechaFin := Some(ahora),
                duracionSegundos := Some(ToInt(ahora - s.fechaInicio)));
    var f := if satisfaccion.Some? then f.(satisfaccion := satisfaccion) else f;
    var f := if estadoEmocional.Some? then f.(estadoEmocionalDetectado := estadoEmocional) else f;
    if notas.Some? then f.(notasProfesional := notas) else f
  }

  /** A closed session admits neither another message nor another closing. */
  lemma FinalizadaCerrada(sesiones: map<int, SesionInteraccion>, mensajes: seq<MensajeIA>,
                          id: int, satisfaccion: Option<int>, estadoEmocional: Option<string>,
                          notas: Option<string>, ahora: Instant, mensaje: Option<string>)
    requires id in sesiones
    ensures var cerradas := sesiones[id := Finalizada(sesiones[id], satisfaccion, estadoEmocional,
                                                     notas, ahora)];
      !EnvioAdmitido(cerradas, mensajes, id, mensaje) && cerradas[id].estado != ACTIVA
  {
  }

  /** Closing a session keeps the stores coherent: its id and counter are untouched. */
  lemma FinalizarConserva(sesiones: map<int, SesionInteraccion>, mensajes: seq<MensajeIA>,
                          id: int, satisfaccion: Option<int>, estadoEmocional: Option<string>,
                          notas: Option<string>, ahora: Instant)
    requires Coherente(sesiones, mensajes) && id in sesiones
    ensures Coherente(sesiones[id := Finalizada(sesiones[id], satisfaccion, estadoEmocional,
                                                notas, ahora)], mensajes)
  {
  }

  // ---------------------------------------------------------------------
  // The service
  // ---------------------------------------------------------------------

  class IAServiceImpl {
    /** The session repository, by id. */
    var sesiones: map<int, SesionInteraccion>
    /** The message repository, in insertion order. */
    var mensajes: seq<MensajeIA>
    /** Ids present in the patient and professional repositories. */
    var pacientes: set<int>
    var profesionales: set<int>
    /** The next identity value the session table hands out. */
    var siguienteId: int

    ghost predicate Valid()
      reads this
    {
      Coherente(sesiones, mensajes) && forall k :: k in sesiones ==> k < siguienteId
    }

    constructor (pacientes: set<int>, profesionales: set<int>)
      ensures Valid()
      ensures sesiones == map[] && mensajes == []
      ensures this.pacientes == pacientes && this.profesionales == profesionales
    {
      sesiones := map[];
      mensajes := [];
      this.pacientes := pacientes;
      this.profesionales := profesionales;
      siguienteId := 1;
    }

    /**
     * `iniciarSesion`: the patient must exist, and so must the professional
     * when one is given; the new session is ACTIVA, of the requested kind or
     * CONVERSACION, with no messages, started now.
     */
    method IniciarSesion(idPaciente: Option<int>, idProfesional: Option<int>,
                         tipoSesion: Option<TipoSesion>, ahora: Instant)
      returns (r: Result<SesionInteraccion>)
      requires Valid()
      modifies this
      ensures Valid()
      ensures pacientes == old(pacientes) && profesionales == old(profesionales)
      ensures mensajes == old(mensajes)
      ensures r.Success? <==>
        (idPaciente.Some? && idPaciente.value in pacientes &&
         (idProfesional.Some? ==> idProfesional.value in profesionales))
      ensures r.Failure? ==> sesiones == old(sesiones) && siguienteId == old(siguienteId)
      ensures r.Success? ==>
        r.value.id !in old(sesiones) && sesiones == old(sesiones)[r.value.id := r.value] &&
        r.value == SesionInteraccion(r.value.id, idPaciente.value, idProfesional,
                                     OrElse(tipoSesion, CONVERSACION), ACTIVA, 0, ahora,
                                     None, None, None, None, None)
    {
      if idPaciente.None? || idPaciente.value !in pacientes {
        return Failure("Paciente no encontrado");
      }
      var tipo := if tipoSesion.Some? then tipoSesion.value else CONVERSACION;
      if idProfesional.Some? && idProfesional.value !in profesionales {
        return Failure("Profesional no encontrado");
      }
      var sesion := SesionInteraccion(siguienteId, idPaciente.value, idProfesional, tipo, ACTIVA,
                                      0, ahora, None, None, None, None, None);
      AltaConserva(sesiones, mensajes, sesion);
      sesiones := sesiones[siguienteId := sesion];
      siguienteId := siguienteId + 1;
      r := Success(sesion);
    }

    /**
     * `enviarMensaje`: the session must exist, be ACTIVA and hold fewer than
     * 100 stored messages; the user's line and then the assistant's reply are
     * stored and the counter grows by 2. A null text fails in the sentiment
     * analysis, which rolls the whole call back.
     */
    method EnviarMensaje(idSesion: int, mensaje: Option<string>, ahora: Instant)
      returns (r: Result<MensajeIA>)
      requires Valid()
      modifies this
      ensures Valid()
      ensures pacientes == old(pacientes) && profesionales == old(profesionales)
      ensures siguienteId == old(siguienteId)
      ensures r.Success? <==> EnvioAdmitido(old(sesiones), old(mensajes), idSesion, mensaje)
      ensures r.Failure? ==> sesiones == old(sesiones) && mensajes == old(mensajes)
      ensures r.Success? ==>
        r.value == Respuesta(idSesion, mensaje.value, ahora) &&
        mensajes == old(mensajes) + [MensajeIA(idSesion, USUARIO, mensaje, None, ahora), r.value] &&
        sesiones == old(sesiones)[idSesion := old(sesiones)[idSesion].(
                      numeroMensajes := old(sesiones)[idSesion].numeroMensajes + 2)]
    {
      if idSesion !in sesiones {
        return Failure("Sesión no encontrada");
      }
      var sesion := sesiones[idSesion];
      if sesion.estado != ACTIVA {
        return Failure("La sesión no está activa");
      }
      var contador := MensajesDe(mensajes, idSesion);
      if contador >= 100 {
        return Failure("Se ha alcanzado el límite de 100 mensajes por sesión");
      }
      if mensaje.None? {
        return Failure("NullPointerException");
      }
      var usuario := MensajeIA(idSesion, USUARIO, mensaje, None, ahora);
      var asistente := Respuesta(idSesion, mensaje.value, ahora);
      EnvioConserva(sesiones, mensajes, idSesion, usuario, asistente);
      mensajes := mensajes + [usuario, asistente];
      sesiones := sesiones[idSesion := sesion.(numeroMensajes := sesion.numeroMensajes + 2)];
      r := Success(asistente);
    }

    /**
     * `finalizarSesion`: an unknown or no longer ACTIVA session fails;
     * otherwise the session becomes `Finalizada` with the request's values.
     */
    method FinalizarSesion(idSesion: int, satisfaccion: Option<int>,
                           estadoEmocional: Option<string>, notas: Option<string>,
                           ahora: Instant)
      returns (r: Result<SesionInteraccion>)
      requires Valid()
      modifies this
      ensures Valid()
      ensures pacientes == old(pacientes) && profesionales == old(profesionales)
      ensures siguienteId == old(siguienteId) && mensajes == old(mensajes)
      ensures r.Success? <==> idSesion in old(sesiones) && old(sesiones)[idSesion].estado == ACTIVA
      ensures r.Failure? ==> sesiones == old(sesiones)
      ensures r.Success? ==>
        r.value == Finalizada(old(sesiones)[idSesion], satisfaccion, estadoEmocional, notas, ahora) &&
        sesiones == old(sesiones)[idSesion := r.value]
    {
      if idSesion !in sesiones {
        return Failure("Sesión no encontrada");
      }
      var sesion := sesiones[idSesion];
      if sesion.estado != ACTIVA {
        return Failure("La sesión ya ha sido finalizada");
      }
      var cerrada := sesion.(estado := FINALIZADA, fechaFin := Some(ahora));
      cerrada := cerrada.(duracionSegundos := Some(ToInt(ahora - cerrada.fechaInicio)));
      if satisfaccion.Some? {
        cerrada := cerrada.(satisfaccion := satisfaccion);
      }
      if estadoEmocional.Some? {
        cerrada := cerrada.(estadoEmocionalDetectado := estadoEmocional);
      }
      if notas.Some? {
        cerrada := cerrada.(notasProfesional := notas);
      }
      FinalizarConserva(sesiones, mensajes, idSesion, satisfaccion, estadoEmocional, notas, ahora);
      sesiones := sesiones[idSesion := cerrada];
      r := Success(cerrada);
    }
  }
}
