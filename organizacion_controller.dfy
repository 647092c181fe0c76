/**
 * OrganizacionController: the state endpoints of an organisation
 * (suspender, activar, dar-baja, cambiar-estado) and the client address
 * recorded in their audit entries.
 *
 * Request headers are a map from header name to value; the authenticated
 * administrator is the result of the user lookup (None when it finds
 * nobody). A RuntimeException inside an endpoint becomes a 500 response.
 */
module OrganizacionController {
  import opened Common
  import opened Text
  import opened OrganizacionService

  datatype Respuesta = Ok(body: Organizacion) | BadRequest | InternalServerError

  type Cabeceras = map<string, string>

  /** `request.getHeader(nombre)` */
  function Cabecera(h: Cabeceras, nombre: string): Option<string>
  {
    if nombre in h then Some(h[nombre]) else None
  }

  /** The proxy headers obtenerIpCliente consults, in order. */
  const CabecerasIp: seq<string> := [
    "X-Forwarded-For", "Proxy-Client-IP", "WL-Proxy-Client-IP", "HTTP_X_FORWARDED_FOR",
    "HTTP_X_FORWARDED", "HTTP_X_CLUSTER_CLIENT_IP", "HTTP_CLIENT_IP", "HTTP_FORWARDED_FOR",
    "HTTP_FORWARDED", "HTTP_VIA"]

  /** `ip == null || ip.isEmpty() || "unknown".equalsIgnoreCase(ip)` */
  predicate Inutil(ip: Option<string>)
  {
    ip.None? || ip.value == "" || Lower(ip.value) == "unknown"
  }

  /** The first usable header among `nombres`, or else the remote address. */
  function IpElegida(h: Cabeceras, nombres: seq<string>, remoteAddr: Option<string>): Option<string>
    decreases |nombres|
  {
    if nombres == [] then remoteAddr
    else
      var ip := Cabecera(h, nombres[0]);
      if !Inutil(ip) then ip else IpElegida(h, nombres[1..], remoteAddr)
  }

  /** A usable header wins over every later one and over the remote address. */
  lemma {:induction false} IpElegidaEsPrimera(h: Cabeceras, nombres: seq<string>, remoteAddr: Option<string>, k: nat)
    requires k < |nombres| && !Inutil(Cabecera(h, nombres[k]))
    requires forall j :: 0 <= j < k ==> Inutil(Cabecera(h, nombres[j]))
    ensures IpElegida(h, nombres, remoteAddr) == Cabecera(h, nombres[k])
    decreases k
  {
    if k > 0 {
      assert Inutil(Cabecera(h, nombres[0]));
      forall j | 0 <= j < k - 1 ensures Inutil(Cabecera(h, nombres[1..][j])) {
        assert nombres[1..][j] == nombres[j + 1];
      }
      IpElegidaEsPrimera(h, nombres[1..], remoteAddr, k - 1);
    }
  }

  /** With no usable header the remote address is taken, whatever it is. */
  lemma {:induction false} IpElegidaRemota(h: Cabeceras, nombres: seq<string>, remoteAddr: Option<string>)
    requires forall j :: 0 <= j < |nombres| ==> Inutil(Cabecera(h, nombres[j]))
    ensures IpElegida(h, nombres, remoteAddr) == remoteAddr
    decreases |nombres|
  {
    if nombres != [] {
      assert Inutil(Cabecera(h, nombres[0]));
      forall j | 0 <= j < |nombres| - 1 ensures Inutil(Cabecera(h, nombres[1..][j])) {
        assert nombres[1..][j] == nombres[j + 1];
      }
      IpElegidaRemota(h, nombres[1..], remoteAddr);
    }
  }

  /** The string consists of commas only. */
  predicate SoloComas(s: string)
  {
    forall i :: 0 <= i < |s| ==> s[i] == ','
  }

  /**
   * `ip.split(",")[0].trim()` on an address holding a comma. Java drops the
   * trailing empty pieces of a split, so an address made of commas alone
   * gives an empty array and indexing it throws.
   */
  function PrimerTramoTal(ip: string): (r: Result<string>)
    requires ',' in ip
    ensures r.Failure? <==> SoloComas(ip)
  {
    if SoloComas(ip) then Failure("ArrayIndexOutOfBoundsException")
    else Success(JavaTrim(SplitFirst(ip, ',')))
  }

  /** The first comma-separated piece, trimmed; an empty piece stays empty. */
  function PrimerTramo(ip: string): (r: string)
    requires ',' in ip
    ensures ',' !in r
  {
    TrimKeepsCharacters(SplitFirst(ip, ','), IsJavaTrimmable);
    JavaTrim(SplitFirst(ip, ','))
  }

  /** obtenerIpCliente as written: the chosen address, cut at its first comma. */
  function IpClienteTal(h: Cabeceras, remoteAddr: Option<string>): (r: Result<Option<string>>)
    ensures r.Failure? <==> (var ip := IpElegida(h, CabecerasIp, remoteAddr);
      ip.Some? && ',' in ip.value && SoloComas(ip.value))
  {
    var ip := IpElegida(h, CabecerasIp, remoteAddr);
    if ip.Some? && ',' in ip.value then
      match PrimerTramoTal(ip.value)
      case Failure(e) => Failure(e)
      case Success(t) => Success(Some(t))
    else Success(ip)
  }

  /** obtenerIpCliente as intended: never throws, and the address holds no comma. */
  function IpCliente(h: Cabeceras, remoteAddr: Option<string>): (r: Option<string>)
    ensures r.Some? ==> ',' !in r.value
    ensures IpClienteTal(h, remoteAddr).Success? ==> r == IpClienteTal(h, remoteAddr).value
  {
    var ip := IpElegida(h, CabecerasIp, remoteAddr);
    if ip.Some? && ',' in ip.value then Some(PrimerTramo(ip.value)) else ip
  }

  /**
   * An address whose first comma is at `k` is cut to the text before that
   * comma, trimmed: as written (unless the address is commas only, which
   * throws) and as corrected.
   */
  lemma PrimerTramoEsPrimerSegmento(ip: string, k: int)
    requires 0 <= k < |ip| && ip[k] == ',' && ',' !in ip[..k]
    ensures PrimerTramo(ip) == JavaTrim(ip[..k])
    ensures !SoloComas(ip) ==> PrimerTramoTal(ip) == Success(JavaTrim(ip[..k]))
  {
    SplitFirstAt(ip, ',', k);
  }

  /**
   * The recorded address: the chosen one as it is when it holds no comma,
   * otherwise its trimmed text before the first comma.
   */
  lemma IpClienteEsPrimerSegmento(h: Cabeceras, remoteAddr: Option<string>, k: int)
    ensures var ip := IpElegida(h, CabecerasIp, remoteAddr);
      ip.None? || ',' !in ip.value ==>
        IpCliente(h, remoteAddr) == ip && IpClienteTal(h, remoteAddr) == Success(ip)
    ensures var ip := IpElegida(h, CabecerasIp, remoteAddr);
      ip.Some? && 0 <= k < |ip.value| && ip.value[k] == ',' && ',' !in ip.value[..k] ==>
        IpCliente(h, remoteAddr) == Some(JavaTrim(ip.value[..k])) &&
        (!SoloComas(ip.value) ==>
           IpClienteTal(h, remoteAddr) == Success(Some(JavaTrim(ip.value[..k]))))
  {
    var ip := IpElegida(h, CabecerasIp, remoteAddr);
    if ip.Some? && 0 <= k < |ip.value| && ip.value[k] == ',' && ',' !in ip.value[..k] {
      PrimerTramoEsPrimerSegmento(ip.value, k);
    }
  }

  /**
   * An `X-Forwarded-For` header made of commas alone makes the address
   * lookup as written throw, so every state endpoint answers 500.
   */
  lemma ForwardedSoloComas(h: Cabeceras, remoteAddr: Option<string>, comas: string)
    requires "X-Forwarded-For" in h && h["X-Forwarded-For"] == comas
    requires |comas| > 0 && SoloComas(comas)
    ensures IpClienteTal(h, remoteAddr).Failure?
    ensures IpCliente(h, remoteAddr) == Some("")
  {
    assert comas[0] == ',';
    assert !Inutil(Some(comas)) by {
      assert Lower(comas)[0] == ',';
    }
    assert CabecerasIp[0] == "X-Forwarded-For";
    IpElegidaEsPrimera(h, CabecerasIp, remoteAddr, 0);
    assert SplitFirst(comas, ',') == [];
  }

  /**
   * obtenerIpCliente, reassigning `ip` header by header; the trimming of a
   * comma-separated list follows the intended reading.
   */
  method ObtenerIpCliente(h: Cabeceras, remoteAddr: Option<string>) returns (ip: Option<string>)
    ensures ip == IpCliente(h, remoteAddr)
  {
    ip := PrimeraIpUtil(h, CabecerasIp, remoteAddr);
    if ip.Some? && ',' in ip.value {
      ip := Some(PrimerTramo(ip.value));
    }
  }

  /** The header walk of obtenerIpCliente over `nombres`, falling back to the remote address. */
  method PrimeraIpUtil(h: Cabeceras, nombres: seq<string>, remoteAddr: Option<string>)
    returns (ip: Option<string>)
    requires |nombres| > 0
    ensures ip == IpElegida(h, nombres, remoteAddr)
  {
    ip := Cabecera(h, nombres[0]);
    var i := 1;
    while i < |nombres|
      invariant 1 <= i <= |nombres|
      invariant IpElegida(h, nombres, remoteAddr)
        == if Inutil(ip) then IpElegida(h, nombres[i..], remoteAddr) else ip
    {
      if Inutil(ip) {
        assert nombres[i..][1..] == nombres[i + 1..];
        ip := Cabecera(h, nombres[i]);
      }
      i := i + 1;
    }
    if Inutil(ip) {
      ip := remoteAddr;
    }
  }

  /** `motivo == null || motivo.trim().isEmpty()` */
  predicate MotivoAusente(motivo: Option<string>)
  {
    motivo.None? || JavaTrim(motivo.value) == ""
  }

  /** PUT /{id}/suspender: no check on the reason. */
  method SuspenderOrganizacion(servicio: OrganizacionServiceImpl, id: int, cambio: CambioEstadoOrganizacionDTO,
                               admin: Option<int>, h: Cabeceras, remoteAddr: Option<string>, ahora: Instant)
    returns (resp: Respuesta)
    requires servicio.Valid()
    modifies servicio
    ensures servicio.Valid()
    ensures resp != BadRequest
    ensures resp.Ok? <==> admin.Some? && id in old(servicio.organizaciones)
    ensures !resp.Ok? ==>
      servicio.organizaciones == old(servicio.organizaciones) && servicio.auditoria == old(servicio.auditoria)
    ensures resp.Ok? ==>
      resp.body == old(servicio.organizaciones)[id].(estado := SUSPENDIDA)
      && servicio.organizaciones == old(servicio.organizaciones)[id := resp.body]
      && servicio.auditoria == old(servicio.auditoria) + [AuditoriaAdmin(admin.value, SUSPENDER_ORGANIZACION,
           "ORGANIZACION", id, Instantanea(old(servicio.organizaciones)[id]), Instantanea(resp.body),
           cambio.motivo, IpCliente(h, remoteAddr), ahora)]
  {
    if admin.None? {
      return InternalServerError;
    }
    var ip := ObtenerIpCliente(h, remoteAddr);
    var r := servicio.SuspenderOrganizacion(id, cambio.motivo, admin.value, ip, ahora);
    if r.Failure? {
      return InternalServerError;
    }
    return Ok(r.value);
  }

  /** PUT /{id}/activar: no check on the reason. */
  method ActivarOrganizacion(servicio: OrganizacionServiceImpl, id: int, cambio: CambioEstadoOrganizacionDTO,
                             admin: Option<int>, h: Cabeceras, remoteAddr: Option<string>, ahora: Instant)
    returns (resp: Respuesta)
    requires servicio.Valid()
    modifies servicio
    ensures servicio.Valid()
    ensures resp != BadRequest
    ensures resp.Ok? <==> admin.Some? && id in old(servicio.organizaciones)
    ensures !resp.Ok? ==>
      servicio.organizaciones == old(servicio.organizaciones) && servicio.auditoria == old(servicio.auditoria)
    ensures resp.Ok? ==>
      resp.body == old(servicio.organizaciones)[id].(estado := ACTIVA)
      && servicio.organizaciones == old(servicio.organizaciones)[id := resp.body]
      && servicio.auditoria == old(servicio.auditoria) + [AuditoriaAdmin(admin.value, ACTIVAR_ORGANIZACION,
           "ORGANIZACION", id, Instantanea(old(servicio.organizaciones)[id]), Instantanea(resp.body),
           cambio.motivo, IpCliente(h, remoteAddr), ahora)]
  {
    if admin.None? {
      return InternalServerError;
    }
    var ip := ObtenerIpCliente(h, remoteAddr);
    var r := servicio.ActivarOrganizacion(id, cambio.motivo, admin.value, ip, ahora);
    if r.Failure? {
      return InternalServerError;
    }
    return Ok(r.value);
  }

  /** PUT /{id}/dar-baja: a missing or blank reason is a 400 before anything else. */
  method DarDeBajaOrganizacion(servicio: OrganizacionServiceImpl, id: int, cambio: CambioEstadoOrganizacionDTO,
                               admin: Option<int>, h: Cabeceras, remoteAddr: Option<string>, ahora: Instant)
    returns (resp: Respuesta)
    requires servicio.Valid()
    modifies servicio
    ensures servicio.Valid()
    ensures resp == BadRequest <==> MotivoAusente(cambio.motivo)
    ensures resp.Ok? <==> !MotivoAusente(cambio.motivo) && admin.Some? && id in old(servicio.organizaciones)
    ensures !resp.Ok? ==>
      servicio.organizaciones == old(servicio.organizaciones) && servicio.auditoria == old(servicio.auditoria)
    ensures resp.Ok? ==>
      resp.body == old(servicio.organizaciones)[id].(estado := BAJA)
      && servicio.organizaciones == old(servicio.organizaciones)[id := resp.body]
      && servicio.auditoria == old(servicio.auditoria) + [AuditoriaAdmin(admin.value, DAR_BAJA_ORGANIZACION,
           "ORGANIZACION", id, Instantanea(old(servicio.organizaciones)[id]), Instantanea(resp.body),
           cambio.motivo, IpCliente(h, remoteAddr), ahora)]
  {
    if MotivoAusente(cambio.motivo) {
      return BadRequest;
    }
    if admin.None? {
      return InternalServerError;
    }
    var ip := ObtenerIpCliente(h, remoteAddr);
    var r := servicio.DarDeBajaOrganizacion(id, cambio.motivo, admin.value, ip, ahora);
    if r.Failure? {
      return InternalServerError;
    }
    return Ok(r.value);
  }

  /** PUT /{id}/cambiar-estado: the same reason guard, then any target state. */
  method CambiarEstadoOrganizacion(servicio: OrganizacionServiceImpl, id: int, cambio: CambioEstadoOrganizacionDTO,
                                   admin: Option<int>, h: Cabeceras, remoteAddr: Option<string>, ahora: Instant)
    returns (resp: Respuesta)
    requires servicio.Valid()
    modifies servicio
    ensures servicio.Valid()
    ensures resp == BadRequest <==> MotivoAusente(cambio.motivo)
    ensures resp.Ok? <==>
      (!MotivoAusente(cambio.motivo) && admin.Some?
       && CambioAdmitido(old(servicio.organizaciones), id, cambio.nuevoEstado))
    ensures !resp.Ok? ==>
      servicio.organizaciones == old(servicio.organizaciones) && servicio.auditoria == old(servicio.auditoria)
    ensures resp.Ok? ==>
      resp.body == old(servicio.organizaciones)[id].(estado := cambio.nuevoEstado.value)
      && servicio.organizaciones == old(servicio.organizaciones)[id := resp.body]
      && servicio.auditoria == old(servicio.auditoria) + [AuditoriaAdmin(admin.value,
           DeterminarTipoAccion(cambio.nuevoEstado.value), "ORGANIZACION", id,
           Instantanea(old(servicio.organizaciones)[id]), Instantanea(resp.body),
           cambio.motivo, IpCliente(h, remoteAddr), ahora)]
  {
    if MotivoAusente(cambio.motivo) {
      return BadRequest;
    }
    if admin.None? {
      return InternalServerError;
    }
    var ip := ObtenerIpCliente(h, remoteAddr);
    var r := servicio.CambiarEstadoOrganizacion(id, cambio, admin.value, ip, ahora);
    if r.Failure? {
      return InternalServerError;
    }
    return Ok(r.value);
  }
}
