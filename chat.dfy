/**
 * Patient–professional chat: one conversation per pair is ACTIVA at a time
 * and is reused on every request to open one; sessions are archived, messages
 * are appended unread, and the recipient marks them read.
 */
module ChatService {
  import opened Common

  /** Chat session states: ACTIVA and ARCHIVADA are the ones the service sets. */
  datatype EstadoSesionChat = ACTIVA | ARCHIVADA | OtroEstadoChat(nombre: string)

  /** A row of SESION_CHAT. */
  datatype SesionChat = SesionChat(
    id: int,
    paciente: int,
    profesional: int,
    fechaCreacion: Instant,
    ultimaActividad: Instant,
    estado: EstadoSesionChat)

  /** A row of MENSAJE_CHAT. */
  datatype MensajeChat = MensajeChat(
    id: int,
    sesionChat: int,
    remitente: int,
    mensaje: string,
    fechaEnvio: Instant,
    leido: bool,
    fechaLectura: Option<Instant>)

  /** The session is the ACTIVA one of the pair (paciente, profesional). */
  predicate ActivaDe(s: SesionChat, paciente: int, profesional: int)
  {
    s.paciente == paciente && s.profesional == profesional && s.estado == ACTIVA
  }

  /** No pair has two ACTIVA sessions: the single-result lookup cannot fail. */
  ghost predicate UnaActivaPorPareja(sesiones: map<int, SesionChat>)
  {
    forall k1, k2 ::
      (k1 in sesiones && k2 in sesiones &&
       sesiones[k1].estado == ACTIVA && sesiones[k2].estado == ACTIVA &&
       sesiones[k1].paciente == sesiones[k2].paciente &&
       sesiones[k1].profesional == sesiones[k2].profesional) ==> k1 == k2
  }

  /** Adding an ACTIVA session to a pair that has none keeps the pairs unique. */
  lemma AltaUnica(sesiones: map<int, SesionChat>, s: SesionChat)
    requires UnaActivaPorPareja(sesiones)
    requires s.id !in sesiones
    requires forall k :: k in sesiones ==> !ActivaDe(sesiones[k], s.paciente, s.profesional)
    ensures UnaActivaPorPareja(sesiones[s.id := s])
  {
  }

  /** Archiving a session keeps the pairs unique. */
  lemma ArchivoUnico(sesiones: map<int, SesionChat>, id: int)
    requires UnaActivaPorPareja(sesiones) && id in sesiones
    ensures UnaActivaPorPareja(sesiones[id := sesiones[id].(estado := ARCHIVADA)])
  {
  }

  // ---------------------------------------------------------------------
  // Unread messages
  // ---------------------------------------------------------------------

  /** `findMensajesNoLeidosPorDestinatario`: unread, in the session, sent by someone else. */
  predicate PendientePara(m: MensajeChat, sesion: int, usuario: int)
  {
    m.sesionChat == sesion && m.remitente != usuario && !m.leido
  }

  /** The message after the marking loop has visited it. */
  function Marcado(m: MensajeChat, sesion: int, usuario: int, ahora: Instant): (r: MensajeChat)
    ensures !PendientePara(r, sesion, usuario)
    ensures PendientePara(m, sesion, usuario) ==> r == m.(leido := true, fechaLectura := Some(ahora))
    ensures !PendientePara(m, sesion, usuario) ==> r == m
  {
    if PendientePara(m, sesion, usuario) then m.(leido := true, fechaLectura := Some(ahora)) else m
  }

  /** `marcarMensajesComoLeidos` applied to the whole store. */
  function MarcarLeidos(ms: seq<MensajeChat>, sesion: int, usuario: int, ahora: Instant)
    : (r: seq<MensajeChat>)
    ensures |r| == |ms|
    ensures forall i :: 0 <= i < |ms| ==> r[i] == Marcado(ms[i], sesion, usuario, ahora)
  {
    seq(|ms|, i requires 0 <= i < |ms| => Marcado(ms[i], sesion, usuario, ahora))
  }

  /**
   * After marking, nothing is pending for that reader; everything else,
   * including every message of other sessions, is as it was.
   */
  lemma MarcarLeidosEfecto(ms: seq<MensajeChat>, sesion: int, usuario: int, ahora: Instant)
    ensures var r := MarcarLeidos(ms, sesion, usuario, ahora);
      (forall i :: 0 <= i < |r| ==> !PendientePara(r[i], sesion, usuario)) &&
      (forall i :: 0 <= i < |r| && ms[i].sesionChat != sesion ==> r[i] == ms[i]) &&
      (forall i :: 0 <= i < |r| ==> r[i].leido || r[i] == ms[i]) &&
      (forall i :: 0 <= i < |r| ==>
         r[i].(leido := ms[i].leido, fechaLectura := ms[i].fechaLectura) == ms[i])
  {
  }

  /** Marking twice marks nothing new. */
  lemma MarcarLeidosIdempotente(ms: seq<MensajeChat>, sesion: int, usuario: int,
                                t1: Instant, t2: Instant)
    ensures MarcarLeidos(MarcarLeidos(ms, sesion, usuario, t1), sesion, usuario, t2) ==
            MarcarLeidos(ms, sesion, usuario, t1)
  {
  }

  /** `countMensajesNoLeidos`: unread messages of a session, whoever sent them. */
  function NoLeidos(ms: seq<MensajeChat>, sesion: int): (n: nat)
    ensures n <= |ms|
  {
    if ms == [] then 0
    else NoLeidos(ms[..|ms| - 1], sesion) +
         (if ms[|ms| - 1].sesionChat == sesion && !ms[|ms| - 1].leido then 1 else 0)
  }

  /** Unread messages of a session sent by `usuario`. */
  function NoLeidosDe(ms: seq<MensajeChat>, sesion: int, usuario: int): (n: nat)
    ensures n <= NoLeidos(ms, sesion)
  {
    if ms == [] then 0
    else NoLeidosDe(ms[..|ms| - 1], sesion, usuario) +
         (if ms[|ms| - 1].sesionChat == sesion && !ms[|ms| - 1].leido &&
             ms[|ms| - 1].remitente == usuario then 1 else 0)
  }

  /**
   * Once `usuario` has marked the session read, the session's unread count
   * is exactly what `usuario` sent that is still unread.
   */
  lemma {:induction false} NoLeidosTrasMarcar(ms: seq<MensajeChat>, sesion: int, usuario: int,
                                              ahora: Instant)
    ensures NoLeidos(MarcarLeidos(ms, sesion, usuario, ahora), sesion) == NoLeidosDe(ms, sesion, usuario)
  {
    if ms != [] {
      var r := MarcarLeidos(ms, sesion, usuario, ahora);
      var ini := ms[..|ms| - 1];
      assert r[..|r| - 1] == MarcarLeidos(ini, sesion, usuario, ahora);
      NoLeidosTrasMarcar(ini, sesion, usuario, ahora);
    }
  }

  // ---------------------------------------------------------------------
  // The service
  // ---------------------------------------------------------------------

  class ChatServiceImpl {
    /** The session repository, by id. */
    var sesiones: map<int, SesionChat>
    /** The message repository, in insertion order. */
    var mensajes: seq<MensajeChat>
    /** Ids in the patient, professional and user repositories. */
    var pacientes: set<int>
    var profesionales: set<int>
    var usuarios: set<int>
    /** The next identity values of the two tables. */
    var siguienteSesion: int
    var siguienteMensaje: int

    ghost predicate Valid()
      reads this
    {
      (forall k :: k in sesiones ==> sesiones[k].id == k && k < siguienteSesion) &&
      UnaActivaPorPareja(sesiones) &&
      (forall i :: 0 <= i < |mensajes| ==> mensajes[i].id < siguienteMensaje) &&
      (forall i, j :: 0 <= i < j < |mensajes| ==> mensajes[i].id < mensajes[j].id)
    }

    constructor (pacientes: set<int>, profesionales: set<int>, usuarios: set<int>)
      ensures Valid() && sesiones == map[] && mensajes == []
      ensures this.pacientes == pacientes && this.profesionales == profesionales
      ensures this.usuarios == usuarios
    {
      sesiones := map[];
      mensajes := [];
      this.pacientes := pacientes;
      this.profesionales := profesionales;
      this.usuarios := usuarios;
      siguienteSesion := 1;
      siguienteMensaje := 1;
    }

    /**
     * `iniciarSesionChat`: patient and professional must exist; the pair's
     * ACTIVA session is returned when there is one, and otherwise exactly
     * one new ACTIVA session is created.
     */
    method IniciarSesionChat(idPaciente: Option<int>, idProfesional: Option<int>, ahora: Instant)
      returns (r: Result<SesionChat>)
      requires Valid()
      modifies this
      ensures Valid()
      ensures mensajes == old(mensajes) && siguienteMensaje == old(siguienteMensaje)
      ensures pacientes == old(pacientes) && profesionales == old(profesionales)
      ensures usuarios == old(usuarios)
      ensures r.Success? <==>
        idPaciente.Some? && idPaciente.value in pacientes &&
        idProfesional.Some? && idProfesional.value in profesionales
      ensures r.Success? ==>
        r.value.id in sesiones && sesiones[r.value.id] == r.value &&
        ActivaDe(r.value, idPaciente.value, idProfesional.value)
      ensures r.Success? && (exists k :: k in old(sesiones) &&
                              ActivaDe(old(sesiones)[k], idPaciente.value, idProfesional.value)) ==>
        sesiones == old(sesiones) && siguienteSesion == old(siguienteSesion)
      ensures r.Success? && !(exists k :: k in old(sesiones) &&
                               ActivaDe(old(sesiones)[k], idPaciente.value, idProfesional.value)) ==>
        r.value.id !in old(sesiones) && sesiones == old(sesiones)[r.value.id := r.value] &&
        r.value == SesionChat(r.value.id, idPaciente.value, idProfesional.value, ahora, ahora, ACTIVA)
      ensures r.Failure? ==> sesiones == old(sesiones) && siguienteSesion == old(siguienteSesion)
    {
      if idPaciente.None? || idPaciente.value !in pacientes {
        return Failure("Paciente no encontrado");
      }
      if idProfesional.None? || idProfesional.value !in profesionales {
        return Failure("Profesional no encontrado");
      }
      var paciente, profesional := idPaciente.value, idProfesional.value;
      if exists k :: k in sesiones && ActivaDe(sesiones[k], paciente, profesional) {
        var k :| k in sesiones && ActivaDe(sesiones[k], paciente, profesional);
        return Success(sesiones[k]);
      }
      var sesion := SesionChat(siguienteSesion, paciente, profesional, ahora, ahora, ACTIVA);
      AltaUnica(sesiones, sesion);
      sesiones := sesiones[siguienteSesion := sesion];
      siguienteSesion := siguienteSesion + 1;
      r := Success(sesion);
    }

    /**
     * `obtenerOCrearSesionActiva`: the pair's ACTIVA session without any
     * existence check, or else what `iniciarSesionChat` does.
     */
    method ObtenerOCrearSesionActiva(idPaciente: int, idProfesional: int, ahora: Instant)
      returns (r: Result<SesionChat>)
      requires Valid()
      modifies this
      ensures Valid()
      ensures mensajes == old(mensajes) && siguienteMensaje == old(siguienteMensaje)
      ensures pacientes == old(pacientes) && profesionales == old(profesionales)
      ensures usuarios == old(usuarios)
      ensures (exists k :: k in old(sesiones) && ActivaDe(old(sesiones)[k], idPaciente, idProfesional)) ==>
        r.Success? && sesiones == old(sesiones) && siguienteSesion == old(siguienteSesion) &&
        r.value.id in old(sesiones) && old(sesiones)[r.value.id] == r.value &&
        ActivaDe(r.value, idPaciente, idProfesional)
      ensures r.Success? && !(exists k :: k in old(sesiones) &&
                               ActivaDe(old(sesiones)[k], idPaciente, idProfesional)) ==>
        r.value.id !in old(sesiones) && sesiones == old(sesiones)[r.value.id := r.value] &&
        r.value == SesionChat(r.value.id, idPaciente, idProfesional, ahora, ahora, ACTIVA)
      ensures r.Failure? ==> sesiones == old(sesiones) && siguienteSesion == old(siguienteSesion)
      ensures r.Success? <==>
        (exists k :: k in old(sesiones) && ActivaDe(old(sesiones)[k], idPaciente, idProfesional)) ||
        (idPaciente in old(pacientes) && idProfesional in old(profesionales))
      ensures r.Success? ==> r.value.id in sesiones && ActivaDe(sesiones[r.value.id], idPaciente, idProfesional)
    {
      if exists k :: k in sesiones && ActivaDe(sesiones[k], idPaciente, idProfesional) {
        var k :| k in sesiones && ActivaDe(sesiones[k], idPaciente, idProfesional);
        return Success(sesiones[k]);
      }
      r := IniciarSesionChat(Some(idPaciente), Some(idProfesional), ahora);
    }

    /** `archivarSesion`: ARCHIVADA from any state; an unknown id fails. */
    method ArchivarSesion(id: int) returns (r: Result<SesionChat>)
      requires Valid()
      modifies this
      ensures Valid()
      ensures mensajes == old(mensajes) && siguienteSesion == old(siguienteSesion)
      ensures r.Success? <==> id in old(sesiones)
      ensures r.Failure? ==> sesiones == old(sesiones)
      ensures r.Success? ==>
        r.value == old(sesiones)[id].(estado := ARCHIVADA) && sesiones == old(sesiones)[id := r.value]
    {
      if id !in sesiones {
        return Failure("Sesión de chat no encontrada");
      }
      ArchivoUnico(sesiones, id);
      var sesion := sesiones[id].(estado := ARCHIVADA);
      sesiones := sesiones[id := sesion];
      r := Success(sesion);
    }

    /**
     * `enviarMensaje`: the session and the sender must exist (the session's
     * state is not checked); the text is stored unread, and the session's
     * last activity becomes now. A null text fails at insertion.
     */
    method EnviarMensaje(idSesionChat: Option<int>, mensaje: Option<string>, idRemitente: int,
                         ahora: Instant)
      returns (r: Result<MensajeChat>)
      requires Valid()
      modifies this
      ensures Valid()
      ensures siguienteSesion == old(siguienteSesion)
      ensures r.Success? <==>
        idSesionChat.Some? && idSesionChat.value in old(sesiones) && idRemitente in usuarios &&
        mensaje.Some?
      ensures r.Failure? ==> sesiones == old(sesiones) && mensajes == old(mensajes)
      ensures r.Success? ==>
        r.value == MensajeChat(r.value.id, idSesionChat.value, idRemitente, mensaje.value, ahora,
                               false, None) &&
        (forall i :: 0 <= i < |old(mensajes)| ==> old(mensajes)[i].id < r.value.id) &&
        mensajes == old(mensajes) + [r.value] &&
        sesiones == old(sesiones)[idSesionChat.value :=
                                  old(sesiones)[idSesionChat.value].(ultimaActividad := ahora)]
    {
      if idSesionChat.None? || idSesionChat.value !in sesiones {
        return Failure("Sesión de chat no encontrada");
      }
      if idRemitente !in usuarios {
        return Failure("Usuario remitente no encontrado");
      }
      if mensaje.None? {
        return Failure("MENSAJE no admite nulos");
      }
      var nuevo := MensajeChat(siguienteMensaje, idSesionChat.value, idRemitente, mensaje.value,
                               ahora, false, None);
      mensajes := mensajes + [nuevo];
      siguienteMensaje := siguienteMensaje + 1;
      var sesion := sesiones[idSesionChat.value];
      sesiones := sesiones[idSesionChat.value := sesion.(ultimaActividad := ahora)];
      r := Success(nuevo);
    }

    /** `marcarMensajeComoLeido`: read now, even if it was read before. */
    method MarcarMensajeComoLeido(idMensaje: int, ahora: Instant) returns (r: Result<MensajeChat>)
      requires Valid()
      modifies this
      ensures Valid()
      ensures sesiones == old(sesiones)
      ensures r.Success? <==> exists i :: 0 <= i < |old(mensajes)| && old(mensajes)[i].id == idMensaje
      ensures r.Failure? ==> mensajes == old(mensajes)
      ensures r.Success? ==>
        exists i :: (0 <= i < |old(mensajes)| && old(mensajes)[i].id == idMensaje &&
                     r.value == old(mensajes)[i].(leido := true, fechaLectura := Some(ahora)) &&
                     mensajes == old(mensajes)[i := r.value])
    {
      if !exists i :: 0 <= i < |mensajes| && mensajes[i].id == idMensaje {
        return Failure("Mensaje no encontrado");
      }
      var i :| 0 <= i < |mensajes| && mensajes[i].id == idMensaje;
      var leido := mensajes[i].(leido := true, fechaLectura := Some(ahora));
      mensajes := mensajes[i := leido];
      r := Success(leido);
    }

    /**
     * `marcarMensajesComoLeidos`: every unread message of the session sent
     * by someone other than `idUsuario` is marked read now.
     */
    method MarcarMensajesComoLeidos(idSesionChat: int, idUsuario: int, ahora: Instant)
      requires Valid()
      modifies this
      ensures Valid()
      ensures sesiones == old(sesiones)
      ensures mensajes == MarcarLeidos(old(mensajes), idSesionChat, idUsuario, ahora)
    {
      var ms := mensajes;
      var i := 0;
      while i < |ms|
        invariant 0 <= i <= |ms| && |ms| == |mensajes|
        invariant forall j :: 0 <= j < i ==> ms[j] == Marcado(mensajes[j], idSesionChat, idUsuario, ahora)
        invariant forall j :: i <= j < |ms| ==> ms[j] == mensajes[j]
      {
        if PendientePara(ms[i], idSesionChat, idUsuario) {
          ms := ms[i := ms[i].(leido := true, fechaLectura := Some(ahora))];
        }
        i := i + 1;
      }
      mensajes := ms;
    }
  }
}
