/**
 * Per-organization user counts. The two constructors and `calcularTotal`
 * read a missing count as 0; the eight-argument constructor and
 * `calcularTotal` make the total the sum of the four role counts, with
 * Java `long` arithmetic.
 */
module OrganizacionEstadisticas {
  import opened Common

  /** Document-review status of an organization. */
  datatype EstadoVerificacion = PENDIENTE_VERIFICACION | EN_REVISION | VERIFICADA | RECHAZADA

  const LongMin: int := -0x8000_0000_0000_0000
  const LongModulus: int := 0x1_0000_0000_0000_0000

  /** Java `long` arithmetic: keep the low 64 bits, as a signed value. */
  function Long(x: int): (r: int)
    ensures LongMin <= r < -LongMin
    ensures LongMin <= x < -LongMin ==> r == x
    ensures (x - r) % LongModulus == 0
  {
    (x - LongMin) % LongModulus + LongMin
  }

  /** `c != null ? c : 0L`. */
  function CeroSiNulo(c: Option<int>): (r: int)
    ensures c.Some? ==> r == c.value
    ensures c.None? ==> r == 0
  {
    if c.Some? then c.value else 0
  }

  /** The sum `calcularTotal` stores: the four counts, null as 0, in `long`. */
  function Total(admins: Option<int>, profesionales: Option<int>, pacientes: Option<int>,
                 superAdmins: Option<int>): (t: int)
    ensures LongMin <= t < -LongMin
  {
    Long(CeroSiNulo(admins) + CeroSiNulo(profesionales) + CeroSiNulo(pacientes) +
         CeroSiNulo(superAdmins))
  }

  /** A count a database can produce: missing, or non-negative and below 2^61. */
  predicate Conteo(c: Option<int>) { c.Some? ==> 0 <= c.value < 0x2000_0000_0000_0000 }

  /**
   * Such counts add up without wrapping, and a missing count adds nothing.
   */
  lemma TotalExacto(admins: Option<int>, profesionales: Option<int>, pacientes: Option<int>,
                    superAdmins: Option<int>)
    requires Conteo(admins) && Conteo(profesionales) && Conteo(pacientes) && Conteo(superAdmins)
    ensures Total(admins, profesionales, pacientes, superAdmins) ==
      CeroSiNulo(admins) + CeroSiNulo(profesionales) + CeroSiNulo(pacientes) + CeroSiNulo(superAdmins)
    ensures Total(admins, profesionales, pacientes, superAdmins) >= 0
  {
  }

  /** One count past the `long` range makes the total wrap to a negative value. */
  lemma TotalDesborda()
    ensures Total(Some(-LongMin - 1), Some(1), None, None) == LongMin
  {
  }

  class OrganizacionEstadisticasDTO {
    var idOrganizacion: Option<int>
    var nombreOrganizacion: Option<string>
    var cif: Option<string>
    var estadoVerificacion: Option<EstadoVerificacion>
    var activa: Option<bool>
    var totalUsuarios: Option<int>
    var admins: Option<int>
    var profesionales: Option<int>
    var pacientes: Option<int>
    var superAdmins: Option<int>

    /** The stored total is the sum of the stored role counts. */
    predicate TotalCuadra()
      reads this
    {
      totalUsuarios == Some(Total(admins, profesionales, pacientes, superAdmins))
    }

    /**
     * The seven-argument constructor: `activa` iff VERIFICADA; the three
     * counts it gets default to 0; admins and superAdmins are 0. The total
     * is stored as given, so it matches the role counts only when it equals
     * profesionales + pacientes.
     */
    constructor Resumen(idOrganizacion: Option<int>, nombreOrganizacion: Option<string>,
                        cif: Option<string>, estadoVerificacion: Option<EstadoVerificacion>,
                        totalUsuarios: Option<int>, profesionales: Option<int>,
                        pacientes: Option<int>)
      ensures this.idOrganizacion == idOrganizacion && this.nombreOrganizacion == nombreOrganizacion
      ensures this.cif == cif && this.estadoVerificacion == estadoVerificacion
      ensures activa == Some(estadoVerificacion == Some(VERIFICADA))
      ensures this.totalUsuarios == Some(CeroSiNulo(totalUsuarios))
      ensures this.profesionales == Some(CeroSiNulo(profesionales))
      ensures this.pacientes == Some(CeroSiNulo(pacientes))
      ensures admins == Some(0) && superAdmins == Some(0)
      ensures TotalCuadra() <==>
        CeroSiNulo(totalUsuarios) == Long(CeroSiNulo(profesionales) + CeroSiNulo(pacientes))
    {
      this.idOrganizacion := idOrganizacion;
      this.nombreOrganizacion := nombreOrganizacion;
      this.cif := cif;
      this.estadoVerificacion := estadoVerificacion;
      activa := Some(estadoVerificacion == Some(VERIFICADA));
      this.totalUsuarios := Some(CeroSiNulo(totalUsuarios));
      this.profesionales := Some(CeroSiNulo(profesionales));
      this.pacientes := Some(CeroSiNulo(pacientes));
      admins := Some(0);
      superAdmins := Some(0);
    }

    /**
     * The eight-argument constructor: each count defaults to 0, `activa` is
     * stored as given, and the total is their sum.
     */
    constructor Completo(idOrganizacion: Option<int>, nombreOrganizacion: Option<string>,
                         cif: Option<string>, activa: Option<bool>, admins: Option<int>,
                         profesionales: Option<int>, pacientes: Option<int>,
                         superAdmins: Option<int>)
      ensures this.idOrganizacion == idOrganizacion && this.nombreOrganizacion == nombreOrganizacion
      ensures this.cif == cif && this.activa == activa && estadoVerificacion == None
      ensures this.admins == Some(CeroSiNulo(admins))
      ensures this.profesionales == Some(CeroSiNulo(profesionales))
      ensures this.pacientes == Some(CeroSiNulo(pacientes))
      ensures this.superAdmins == Some(CeroSiNulo(superAdmins))
      ensures totalUsuarios == Some(Total(admins, profesionales, pacientes, superAdmins))
      ensures TotalCuadra()
    {
      this.idOrganizacion := idOrganizacion;
      this.nombreOrganizacion := nombreOrganizacion;
      this.cif := cif;
      estadoVerificacion := None;
      this.activa := activa;
      this.admins := Some(CeroSiNulo(admins));
      this.profesionales := Some(CeroSiNulo(profesionales));
      this.pacientes := Some(CeroSiNulo(pacientes));
      this.superAdmins := Some(CeroSiNulo(superAdmins));
      totalUsuarios := Some(Total(admins, profesionales, pacientes, superAdmins));
    }

    /**
     * `calcularTotal`: the total becomes the sum of the role counts, null as
     * 0, and nothing else changes; a second call therefore changes nothing.
     */
    method CalcularTotal()
      modifies this
      ensures TotalCuadra()
      ensures admins == old(admins) && profesionales == old(profesionales)
      ensures pacientes == old(pacientes) && superAdmins == old(superAdmins)
      ensures idOrganizacion == old(idOrganizacion) && nombreOrganizacion == old(nombreOrganizacion)
      ensures cif == old(cif) && estadoVerificacion == old(estadoVerificacion)
      ensures activa == old(activa)
      ensures old(TotalCuadra()) ==> totalUsuarios == old(totalUsuarios)
    {
      totalUsuarios := Some(Total(admins, profesionales, pacientes, superAdmins));
    }
  }
}
