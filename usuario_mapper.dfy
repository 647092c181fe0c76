/**
 * The user entity and its mapper: `toResponse` copies a user into the
 * response DTO with null flags read as false, and `updateEntity` copies onto
 * the entity exactly the request fields that are present.
 */
module UsuarioMapper {
  import opened Common

  /** The columns of a user the mapper touches, as one value. */
  datatype UsuarioDatos = UsuarioDatos(
    id: Option<int>,
    dni: Option<string>,
    email: Option<string>,
    nombre: Option<string>,
    apellidos: Option<string>,
    telefono: Option<string>,
    tipoUsuario: Option<string>,
    organizacion: Option<int>,
    activo: Option<bool>,
    fechaRegistro: Option<Instant>,
    ultimoAcceso: Option<Instant>,
    passwordTemporal: Option<bool>,
    cargo: Option<string>,
    documentoCargoUrl: Option<string>)

  /** `UsuarioResponseDTO`: the two flags are primitive booleans. */
  datatype UsuarioResponseDTO = UsuarioResponseDTO(
    id: Option<int>,
    dni: Option<string>,
    email: Option<string>,
    nombre: Option<string>,
    apellidos: Option<string>,
    telefono: Option<string>,
    tipoUsuario: Option<string>,
    organizacion: Option<int>,
    activo: bool,
    fechaRegistro: Option<Instant>,
    ultimoAcceso: Option<Instant>,
    passwordTemporal: bool,
    cargo: Option<string>,
    documentoCargoUrl: Option<string>)

  /** `UsuarioUpdateRequestDTO`: every field may be null. */
  datatype UsuarioUpdateRequest = UsuarioUpdateRequest(
    dni: Option<string>,
    email: Option<string>,
    nombre: Option<string>,
    apellidos: Option<string>,
    telefono: Option<string>,
    cargo: Option<string>,
    documentoCargoUrl: Option<string>,
    activo: Option<bool>)

  /** `Boolean.TRUE.equals(b)`: only a present `true` is true. */
  predicate EsTrue(b: Option<bool>) { b == Some(true) }

  /** `o` when present, the current value otherwise. */
  function Si<T>(o: Option<T>, actual: Option<T>): (r: Option<T>)
    ensures o.Some? ==> r == o
    ensures o.None? ==> r == actual
  {
    if o.Some? then o else actual
  }

  /** The response for a (non-null) user: every column copied, flags made total. */
  function Respuesta(d: UsuarioDatos): (r: UsuarioResponseDTO)
    ensures r.activo <==> d.activo == Some(true)
    ensures r.passwordTemporal <==> d.passwordTemporal == Some(true)
    ensures r.id == d.id && r.dni == d.dni && r.email == d.email && r.nombre == d.nombre
    ensures r.apellidos == d.apellidos && r.telefono == d.telefono
    ensures r.tipoUsuario == d.tipoUsuario && r.organizacion == d.organizacion
    ensures r.fechaRegistro == d.fechaRegistro && r.ultimoAcceso == d.ultimoAcceso
    ensures r.cargo == d.cargo && r.documentoCargoUrl == d.documentoCargoUrl
  {
    UsuarioResponseDTO(d.id, d.dni, d.email, d.nombre, d.apellidos, d.telefono, d.tipoUsuario,
                       d.organizacion, EsTrue(d.activo), d.fechaRegistro, d.ultimoAcceso,
                       EsTrue(d.passwordTemporal), d.cargo, d.documentoCargoUrl)
  }

  /**
   * The user after `updateEntity` with a non-null request: each of the eight
   * updatable columns takes the request's value when it is present; every
   * other column is unchanged.
   */
  function Actualizado(d: UsuarioDatos, q: UsuarioUpdateRequest): (r: UsuarioDatos)
    ensures r.dni == Si(q.dni, d.dni) && r.email == Si(q.email, d.email)
    ensures r.nombre == Si(q.nombre, d.nombre) && r.apellidos == Si(q.apellidos, d.apellidos)
    ensures r.telefono == Si(q.telefono, d.telefono) && r.cargo == Si(q.cargo, d.cargo)
    ensures r.documentoCargoUrl == Si(q.documentoCargoUrl, d.documentoCargoUrl)
    ensures r.activo == Si(q.activo, d.activo)
    ensures r.(dni := d.dni, email := d.email, nombre := d.nombre, apellidos := d.apellidos,
               telefono := d.telefono, cargo := d.cargo, documentoCargoUrl := d.documentoCargoUrl,
               activo := d.activo) == d
  {
    d.(dni := Si(q.dni, d.dni), email := Si(q.email, d.email), nombre := Si(q.nombre, d.nombre),
       apellidos := Si(q.apellidos, d.apellidos), telefono := Si(q.telefono, d.telefono),
       cargo := Si(q.cargo, d.cargo), documentoCargoUrl := Si(q.documentoCargoUrl, d.documentoCargoUrl),
       activo := Si(q.activo, d.activo))
  }

  /** The request with no field set. */
  const SinCambios := UsuarioUpdateRequest(None, None, None, None, None, None, None, None)

  /** Two requests in a row, as one: the later one wins where it has a value. */
  function Seguidas(q1: UsuarioUpdateRequest, q2: UsuarioUpdateRequest): UsuarioUpdateRequest
  {
    UsuarioUpdateRequest(Si(q2.dni, q1.dni), Si(q2.email, q1.email), Si(q2.nombre, q1.nombre),
                         Si(q2.apellidos, q1.apellidos), Si(q2.telefono, q1.telefono),
                         Si(q2.cargo, q1.cargo), Si(q2.documentoCargoUrl, q1.documentoCargoUrl),
                         Si(q2.activo, q1.activo))
  }

  /** An empty request changes nothing, and a repeated request changes nothing more. */
  lemma ActualizadoNeutroEIdempotente(d: UsuarioDatos, q: UsuarioUpdateRequest)
    ensures Actualizado(d, SinCambios) == d
    ensures Actualizado(Actualizado(d, q), q) == Actualizado(d, q)
  {
  }

  /** Two updates compose into the update by the merged request. */
  lemma ActualizadoCompone(d: UsuarioDatos, q1: UsuarioUpdateRequest, q2: UsuarioUpdateRequest)
    ensures Actualizado(Actualizado(d, q1), q2) == Actualizado(d, Seguidas(q1, q2))
  {
  }

  /**
   * After an update the response shows the user active exactly when the
   * request said so, or said nothing and the user already was.
   */
  lemma RespuestaTrasActualizar(d: UsuarioDatos, q: UsuarioUpdateRequest)
    ensures Respuesta(Actualizado(d, q)).activo <==>
      q.activo == Some(true) || (q.activo.None? && d.activo == Some(true))
    ensures Respuesta(Actualizado(d, q)).passwordTemporal == Respuesta(d).passwordTemporal
  {
  }

  class Usuario {
    var id: Option<int>
    var dni: Option<string>
    var email: Option<string>
    var nombre: Option<string>
    var apellidos: Option<string>
    var telefono: Option<string>
    var tipoUsuario: Option<string>
    /** The organization, by id (its summary mapping is not part of this model). */
    var organizacion: Option<int>
    var activo: Option<bool>
    var fechaRegistro: Option<Instant>
    var ultimoAcceso: Option<Instant>
    var passwordTemporal: Option<bool>
    var cargo: Option<string>
    var documentoCargoUrl: Option<string>

    function Datos(): UsuarioDatos
      reads this
    {
      UsuarioDatos(id, dni, email, nombre, apellidos, telefono, tipoUsuario, organizacion, activo,
                   fechaRegistro, ultimoAcceso, passwordTemporal, cargo, documentoCargoUrl)
    }

    constructor (d: UsuarioDatos)
      ensures Datos() == d
    {
      id, dni, email, nombre, apellidos := d.id, d.dni, d.email, d.nombre, d.apellidos;
      telefono, tipoUsuario, organizacion, activo := d.telefono, d.tipoUsuario, d.organizacion, d.activo;
      fechaRegistro, ultimoAcceso, passwordTemporal := d.fechaRegistro, d.ultimoAcceso, d.passwordTemporal;
      cargo, documentoCargoUrl := d.cargo, d.documentoCargoUrl;
    }
  }

  /** `toResponse`: null for null, otherwise `Respuesta` of the user's columns. */
  function ToResponse(usuario: Usuario?): (r: Option<UsuarioResponseDTO>)
    reads usuario
    ensures r.None? <==> usuario == null
    ensures usuario != null ==> r.value.activo == EsTrue(usuario.activo)
    ensures usuario != null ==> r.value.passwordTemporal == EsTrue(usuario.passwordTemporal)
  {
    if usuario == null then None else Some(Respuesta(usuario.Datos()))
  }

  /**
   * `updateEntity`: nothing happens when either argument is null; otherwise
   * the entity becomes `Actualizado`.
   */
  method UpdateEntity(entity: Usuario?, request: Option<UsuarioUpdateRequest>)
    modifies entity
    ensures entity != null && request.None? ==> entity.Datos() == old(entity.Datos())
    ensures entity != null && request.Some? ==>
      entity.Datos() == Actualizado(old(entity.Datos()), request.value)
  {
    if entity == null || request.None? {
      return;
    }
    ActualizarPersonales(entity, request.value);
    ActualizarCuenta(entity, request.value);
  }

  /** The first four conditional setters of `updateEntity`. */
  method ActualizarPersonales(entity: Usuario, q: UsuarioUpdateRequest)
    modifies entity
    ensures entity.Datos() == old(entity.Datos()).(nombre := Si(q.nombre, old(entity.nombre)),
      apellidos := Si(q.apellidos, old(entity.apellidos)), email := Si(q.email, old(entity.email)),
      telefono := Si(q.telefono, old(entity.telefono)))
  {
    if q.nombre.Some? {
      entity.nombre := q.nombre;
    }
    if q.apellidos.Some? {
      entity.apellidos := q.apellidos;
    }
    if q.email.Some? {
      entity.email := q.email;
    }
    if q.telefono.Some? {
      entity.telefono := q.telefono;
    }
  }

  /** The last four conditional setters of `updateEntity`. */
  method ActualizarCuenta(entity: Usuario, q: UsuarioUpdateRequest)
    modifies entity
    ensures entity.Datos() == old(entity.Datos()).(dni := Si(q.dni, old(entity.dni)),
      cargo := Si(q.cargo, old(entity.cargo)),
      documentoCargoUrl := Si(q.documentoCargoUrl, old(entity.documentoCargoUrl)),
      activo := Si(q.activo, old(entity.activo)))
  {
    if q.dni.Some? {
      entity.dni := q.dni;
    }
    if q.cargo.Some? {
      entity.cargo := q.cargo;
    }
    if q.documentoCargoUrl.Some? {
      entity.documentoCargoUrl := q.documentoCargoUrl;
    }
    if q.activo.Some? {
      entity.activo := q.activo;
    }
  }
}
