/**
 * OrganizacionServiceImpl: the life cycle of an organisation (ACTIVA,
 * SUSPENDIDA, BAJA) and the audit trail every change of state leaves.
 *
 * The repository is a map from id to organisation; the audit service is a
 * sequence the service appends to. A call that throws is rolled back by
 * its transaction, so a failure leaves both unchanged.
 */
module OrganizacionService {
  import opened Common

  datatype EstadoOrganizacion = ACTIVA | SUSPENDIDA | BAJA

  datatype TipoAccionAuditoria =
    | VERIFICAR_ORGANIZACION
    | RECHAZAR_ORGANIZACION
    | SUSPENDER_ORGANIZACION
    | ACTIVAR_ORGANIZACION
    | DAR_BAJA_ORGANIZACION
    | MODIFICAR_ORGANIZACION
    | CREAR_SUPER_ADMIN
    | ELIMINAR_USUARIO
    | MODIFICAR_PERMISOS

  /** `Enum.name()` */
  function EstadoName(e: EstadoOrganizacion): (s: string)
    ensures EstadoValueOf(s) == Some(e)
  {
    match e
    case ACTIVA => "ACTIVA"
    case SUSPENDIDA => "SUSPENDIDA"
    case BAJA => "BAJA"
  }

  /** `EstadoOrganizacion.valueOf`, None where Java throws. */
  function EstadoValueOf(s: string): Option<EstadoOrganizacion>
  {
    if s == "ACTIVA" then Some(ACTIVA)
    else if s == "SUSPENDIDA" then Some(SUSPENDIDA)
    else if s == "BAJA" then Some(BAJA)
    else None
  }

  /** The fields of an organisation this service reads or writes; null is None. */
  datatype Organizacion = Organizacion(
    idOrganizacion: int,
    nombreOficial: Option<string>,
    cif: Option<string>,
    emailCorporativo: Option<string>,
    telefonoContacto: Option<string>,
    direccion: Option<string>,
    codigoRegcess: Option<string>,
    numeroSeguridadSocial: Option<string>,
    estado: EstadoOrganizacion)

  /** The JSON maps stored as datosAnteriores and datosNuevos. */
  type Datos = map<string, Option<string>>

  datatype AuditoriaAdmin = AuditoriaAdmin(
    usuarioAdmin: int,
    tipoAccion: TipoAccionAuditoria,
    tablaAfectada: string,
    idRegistroAfectado: int,
    datosAnteriores: Datos,
    datosNuevos: Datos,
    motivo: Option<string>,
    ipOrigen: Option<string>,
    fechaAccion: Instant)

  /** The request body of a change of state. */
  datatype CambioEstadoOrganizacionDTO = CambioEstadoOrganizacionDTO(
    nuevoEstado: Option<EstadoOrganizacion>,
    motivo: Option<string>)

  /** determinarTipoAccion: one audit action per target state. */
  function DeterminarTipoAccion(nuevoEstado: EstadoOrganizacion): (t: TipoAccionAuditoria)
    ensures EstadoDeAccion(t) == Some(nuevoEstado)
  {
    match nuevoEstado
    case ACTIVA => ACTIVAR_ORGANIZACION
    case SUSPENDIDA => SUSPENDER_ORGANIZACION
    case BAJA => DAR_BAJA_ORGANIZACION
  }

  /** The target state an audit action records, if it is a change of state. */
  function EstadoDeAccion(t: TipoAccionAuditoria): Option<EstadoOrganizacion>
  {
    match t
    case ACTIVAR_ORGANIZACION => Some(ACTIVA)
    case SUSPENDER_ORGANIZACION => Some(SUSPENDIDA)
    case DAR_BAJA_ORGANIZACION => Some(BAJA)
    case _ => None
  }

  /** Distinct target states are audited under distinct actions. */
  lemma TipoAccionInjective(a: EstadoOrganizacion, b: EstadoOrganizacion)
    ensures DeterminarTipoAccion(a) == DeterminarTipoAccion(b) ==> a == b
  {
    assert EstadoDeAccion(DeterminarTipoAccion(a)) == Some(a);
    assert EstadoDeAccion(DeterminarTipoAccion(b)) == Some(b);
  }

  /** The snapshot written to the audit: ESTADO, NOMBRE_OFICIAL and CIF. */
  function Instantanea(o: Organizacion): (d: Datos)
    ensures d.Keys == {"ESTADO", "NOMBRE_OFICIAL", "CIF"}
    ensures d["ESTADO"].Some? && EstadoValueOf(d["ESTADO"].value) == Some(o.estado)
  {
    map["ESTADO" := Some(EstadoName(o.estado)), "NOMBRE_OFICIAL" := o.nombreOficial, "CIF" := o.cif]
  }

  /**
   * The transitions the administration screen offers: suspend an active
   * organisation, reactivate or retire a suspended one. The service itself
   * does not consult this.
   */
  predicate OfrecidaPorPantalla(desde: EstadoOrganizacion, hacia: EstadoOrganizacion)
  {
    (desde == ACTIVA && hacia == SUSPENDIDA)
    || (desde == SUSPENDIDA && (hacia == ACTIVA || hacia == BAJA))
  }

  /** Whether cambiarEstadoOrganizacion completes: the id exists and a target is given. */
  predicate CambioAdmitido(organizaciones: map<int, Organizacion>, id: int, nuevoEstado: Option<EstadoOrganizacion>)
  {
    id in organizaciones && nuevoEstado.Some?
  }

  /**
   * The service admits every change the screen does not offer: a retired
   * organisation can be reactivated, and any state can be set to itself.
   */
  lemma ServicioAdmiteFueraDePantalla(organizaciones: map<int, Organizacion>, id: int, hacia: EstadoOrganizacion)
    requires id in organizaciones && !OfrecidaPorPantalla(organizaciones[id].estado, hacia)
    ensures CambioAdmitido(organizaciones, id, Some(hacia))
  {
  }

  /** updateOrganizacion: the seven data fields come from the details, id and estado stay. */
  function ConDetalles(o: Organizacion, detalles: Organizacion): (r: Organizacion)
    ensures r.idOrganizacion == o.idOrganizacion && r.estado == o.estado
    ensures r.nombreOficial == detalles.nombreOficial && r.cif == detalles.cif
    ensures r.emailCorporativo == detalles.emailCorporativo
    ensures r.telefonoContacto == detalles.telefonoContacto && r.direccion == detalles.direccion
    ensures r.codigoRegcess == detalles.codigoRegcess
    ensures r.numeroSeguridadSocial == detalles.numeroSeguridadSocial
  {
    o.(nombreOficial := detalles.nombreOficial, cif := detalles.cif,
       emailCorporativo := detalles.emailCorporativo, telefonoContacto := detalles.telefonoContacto,
       direccion := detalles.direccion, codigoRegcess := detalles.codigoRegcess,
       numeroSeguridadSocial := detalles.numeroSeguridadSocial)
  }

  /** The organisation repository and the audit trail, as the service sees them. */
  class OrganizacionServiceImpl {
    var organizaciones: map<int, Organizacion>
    var auditoria: seq<AuditoriaAdmin>

    /** Every stored organisation sits under its own id. */
    ghost predicate Valid()
      reads this
    {
      forall k | k in organizaciones :: organizaciones[k].idOrganizacion == k
    }

    constructor(inicial: map<int, Organizacion>)
      requires forall k | k in inicial :: inicial[k].idOrganizacion == k
      ensures Valid() && organizaciones == inicial && auditoria == []
    {
      organizaciones := inicial;
      auditoria := [];
    }

    /** updateOrganizacion: unknown ids throw; otherwise the data fields are overwritten, nulls included. */
    method UpdateOrganizacion(id: int, detalles: Organizacion) returns (r: Result<Organizacion>)
      requires Valid()
      modifies this
      ensures Valid() && auditoria == old(auditoria)
      ensures r.Success? <==> id in old(organizaciones)
      ensures r.Failure? ==> organizaciones == old(organizaciones)
      ensures r.Success? ==>
        r.value == ConDetalles(old(organizaciones)[id], detalles)
        && organizaciones == old(organizaciones)[id := r.value]
    {
      if id !in organizaciones {
        return Failure("Organizacion no encontrada");
      }
      var o := ConDetalles(organizaciones[id], detalles);
      organizaciones := organizaciones[id := o];
      return Success(o);
    }

    /**
     * cambiarEstadoOrganizacion: any target state is accepted whatever the
     * current one; the change is saved and exactly one audit record is
     * appended. An unknown id, or a missing target (which makes
     * `getEstado().name()` throw after the save), rolls everything back.
     */
    method CambiarEstadoOrganizacion(id: int, cambio: CambioEstadoOrganizacionDTO, usuarioAdmin: int,
                                     ipOrigen: Option<string>, ahora: Instant) returns (r: Result<Organizacion>)
      requires Valid()
      modifies this
      ensures Valid()
      ensures r.Success? <==> CambioAdmitido(old(organizaciones), id, cambio.nuevoEstado)
      ensures r.Failure? ==> organizaciones == old(organizaciones) && auditoria == old(auditoria)
      ensures r.Success? ==>
        var previa := old(organizaciones)[id];
        r.value == previa.(estado := cambio.nuevoEstado.value)
        && organizaciones == old(organizaciones)[id := r.value]
        && auditoria == old(auditoria) + [AuditoriaAdmin(
             usuarioAdmin, DeterminarTipoAccion(cambio.nuevoEstado.value), "ORGANIZACION", id,
             Instantanea(previa), Instantanea(r.value), cambio.motivo, ipOrigen, ahora)]
    {
      if id !in organizaciones {
        return Failure("Organización no encontrada");
      }
      var organizacion := organizaciones[id];
      var datosAnteriores := Instantanea(organizacion);
      if cambio.nuevoEstado.None? {
        return Failure("NullPointerException");
      }
      var actualizada := organizacion.(estado := cambio.nuevoEstado.value);
      organizaciones := organizaciones[id := actualizada];
      var datosNuevos := Instantanea(actualizada);
      var tipoAccion := DeterminarTipoAccion(cambio.nuevoEstado.value);
      auditoria := auditoria + [AuditoriaAdmin(usuarioAdmin, tipoAccion, "ORGANIZACION", id,
        datosAnteriores, datosNuevos, cambio.motivo, ipOrigen, ahora)];
      return Success(actualizada);
    }

    /** suspenderOrganizacion: cambiarEstadoOrganizacion with target SUSPENDIDA. */
    method SuspenderOrganizacion(id: int, motivo: Option<string>, usuarioAdmin: int,
                                 ipOrigen: Option<string>, ahora: Instant) returns (r: Result<Organizacion>)
      requires Valid()
      modifies this
      ensures Valid()
      ensures r.Success? <==> id in old(organizaciones)
      ensures r.Failure? ==> organizaciones == old(organizaciones) && auditoria == old(auditoria)
      ensures r.Success? ==>
        r.value == old(organizaciones)[id].(estado := SUSPENDIDA)
        && organizaciones == old(organizaciones)[id := r.value]
        && auditoria == old(auditoria) + [AuditoriaAdmin(usuarioAdmin, SUSPENDER_ORGANIZACION,
             "ORGANIZACION", id, Instantanea(old(organizaciones)[id]), Instantanea(r.value), motivo, ipOrigen, ahora)]
    {
      r := CambiarEstadoOrganizacion(id, CambioEstadoOrganizacionDTO(Some(SUSPENDIDA), motivo),
        usuarioAdmin, ipOrigen, ahora);
    }

    /** activarOrganizacion: cambiarEstadoOrganizacion with target ACTIVA. */
    method ActivarOrganizacion(id: int, motivo: Option<string>, usuarioAdmin: int,
                               ipOrigen: Option<string>, ahora: Instant) returns (r: Result<Organizacion>)
      requires Valid()
      modifies this
      ensures Valid()
      ensures r.Success? <==> id in old(organizaciones)
      ensures r.Failure? ==> organizaciones == old(organizaciones) && auditoria == old(auditoria)
      ensures r.Success? ==>
        r.value == old(organizaciones)[id].(estado := ACTIVA)
        && organizaciones == old(organizaciones)[id := r.value]
        && auditoria == old(auditoria) + [AuditoriaAdmin(usuarioAdmin, ACTIVAR_ORGANIZACION,
             "ORGANIZACION", id, Instantanea(old(organizaciones)[id]), Instantanea(r.value), motivo, ipOrigen, ahora)]
    {
      r := CambiarEstadoOrganizacion(id, CambioEstadoOrganizacionDTO(Some(ACTIVA), motivo),
        usuarioAdmin, ipOrigen, ahora);
    }

    /** darDeBajaOrganizacion: cambiarEstadoOrganizacion with target BAJA; nothing is deleted. */
    method DarDeBajaOrganizacion(id: int, motivo: Option<string>, usuarioAdmin: int,
                                 ipOrigen: Option<string>, ahora: Instant) returns (r: Result<Organizacion>)
      requires Valid()
      modifies this
      ensures Valid()
      ensures r.Success? <==> id in old(organizaciones)
      ensures organizaciones.Keys == old(organizaciones).Keys
      ensures r.Failure? ==> organizaciones == old(organizaciones) && auditoria == old(auditoria)
      ensures r.Success? ==>
        r.value == old(organizaciones)[id].(estado := BAJA)
        && organizaciones == old(organizaciones)[id := r.value]
        && auditoria == old(auditoria) + [AuditoriaAdmin(usuarioAdmin, DAR_BAJA_ORGANIZACION,
             "ORGANIZACION", id, Instantanea(old(organizaciones)[id]), Instantanea(r.value), motivo, ipOrigen, ahora)]
    {
      r := CambiarEstadoOrganizacion(id, CambioEstadoOrganizacionDTO(Some(BAJA), motivo),
        usuarioAdmin, ipOrigen, ahora);
    }
  }

  /**
   * The audit record of a change of state shows the previous state in
   * datosAnteriores and the new one in datosNuevos, with the name and the
   * CIF in both.
   */
  lemma AuditoriaRefleja(previa: Organizacion, nuevo: EstadoOrganizacion)
    ensures var antes := Instantanea(previa);
      var despues := Instantanea(previa.(estado := nuevo));
      antes["ESTADO"] == Some(EstadoName(previa.estado))
      && despues["ESTADO"] == Some(EstadoName(nuevo))
      && antes["NOMBRE_OFICIAL"] == despues["NOMBRE_OFICIAL"] == previa.nombreOficial
      && antes["CIF"] == despues["CIF"] == previa.cif
      && (antes == despues <==> previa.estado == nuevo)
  {
    var antes := Instantanea(previa);
    var despues := Instantanea(previa.(estado := nuevo));
    if antes == despues {
      assert EstadoValueOf(antes["ESTADO"].value) == Some(previa.estado);
    }
  }
}
