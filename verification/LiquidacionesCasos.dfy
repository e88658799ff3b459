/** Two promises that fail, at runs that reach them: one bill and one unit are calculated, confirmed under a key,
    confirmed again under it, and annulled. */
module LiquidacionesCasos {
  import opened Comun
  import opened Distribucion
  import opened DistribucionOrden
  import opened Agrupacion
  import opened Liquidaciones
  import opened LiquidacionesTeoremas

  const GASTO := Gasto(0, "agua", 100, "registrado")
  const UNIDAD := UF(0, "A", 1.0)
  const ALTA := Op.Crear(0, "202601", 10, None)
  const CONFIRMACION := Op.Confirmar(0, 0, 2, "k")
  const ANULACION := Op.Anular(0, 0, 3)

  function Calculo(red: Redondeo): Op {
    Op.Calcular(0, 0, 1, "", [GASTO], [UNIDAD], red)
  }

  function Fila(estado: Estado, version: nat, total: int): Liq {
    Liq(0, "202601", 10, None, estado, version, total, total, if total > 0 then 1 else 0)
  }

  lemma AltaLlega()
    ensures Correr([ALTA]) == BaseVacia.(liqs := [Fila(Borrador, 1, 0)])
  {
    assert [ALTA][..0] == [];
    assert Correr([ALTA]) == Paso(BaseVacia, ALTA).0;
  }

  /** A single unit takes the whole of a single bill, whatever the rounding. */
  lemma RepartoUnico(red: Redondeo)
    ensures var d := Reparto(Agrupados(Registrados([GASTO])), Ordenar([UNIDAD]), red);
      && Registrados([GASTO]) == [GASTO] && SumaCoef([UNIDAD]) == 1.0
      && d.items == [Concepto("agua", "coeficiente", 100)]
      && SnapDe(d.unidades) == [UnidadSnap(0, "A", 1.0, 100)]
      && d.totalGastos == 100 && d.totalDistribuido == 100 && d.alcanzadas == 1
  {
    assert [GASTO][..0] == [] && [UNIDAD][..0] == [] && [UNIDAD][1..] == [];
    assert ConceptosEn([GASTO]) == ["agua"];
    assert ImporteDe([GASTO], "agua") == 100;
    var cs := Agrupados([GASTO]);
    assert cs == [Concepto("agua", "coeficiente", 100)];
    assert Ordenar([UNIDAD]) == [UNIDAD];
    Conservacion(cs, [UNIDAD], red);
    var d := Reparto(cs, [UNIDAD], red);
    assert Importes(cs) == [100] && [100][..0] == [];
    assert Suma([100]) == 100;
    assert Totales(d.unidades) == [d.unidades[0].total] && Totales(d.unidades)[..0] == [];
    assert d.unidades[0].total == 100;
    assert d.unidades[..0] == [] && Alcanzadas(d.unidades[..0]) == 0;
  }

  lemma FilasAdmitidas()
    ensures GastosAdmitidos([GASTO]) && ItemsAdmitidos([Concepto("agua", "coeficiente", 100)])
    ensures UnidadesAdmitidas([UnidadSnap(0, "A", 1.0, 100)])
  {
  }

  lemma CalculoPaso(b: Base, red: Redondeo)
    requires b == BaseVacia.(liqs := [Fila(Borrador, 1, 0)])
    ensures CalcularPaso(b, 0, 0, 1, "", [GASTO], [UNIDAD], red).0
         == Base([Fila(Calculada, 2, 100)], map[0 := [GASTO]], map[0 := [Concepto("agua", "coeficiente", 100)]],
                 map[0 := [UnidadSnap(0, "A", 1.0, 100)]], [], [], [], map[])
  {
    RepartoUnico(red);
    FilasAdmitidas();
    var d := Reparto(Agrupados(Registrados([GASTO])), Ordenar([UNIDAD]), red);
    CalculoCon(b, red, d, SnapDe(d.unidades));
  }

  lemma CalculoCon(b: Base, red: Redondeo, d: Distribucion, us: seq<UnidadSnap>)
    requires Visible(b, 0, 0) && b.liqs[0].estado == Borrador && b.liqs[0].version == 1
    requires Registrados([GASTO]) == [GASTO] && SumaCoef([UNIDAD]) == 1.0
    requires d == Reparto(Agrupados([GASTO]), Ordenar([UNIDAD]), red) && us == SnapDe(d.unidades)
    requires GastosAdmitidos([GASTO]) && ItemsAdmitidos(d.items) && UnidadesAdmitidas(us)
    ensures CalcularPaso(b, 0, 0, 1, "", [GASTO], [UNIDAD], red).0
         == b.(liqs := b.liqs[0 := b.liqs[0].(estado := Calculada, version := 2, totalGastos := d.totalGastos,
                                             totalDistribuido := d.totalDistribuido, alcanzadas := d.alcanzadas)],
               snapGastos := b.snapGastos[0 := [GASTO]], snapItems := b.snapItems[0 := d.items],
               snapUnidades := b.snapUnidades[0 := us])
  {
  }

  lemma CalculoLlega(red: Redondeo)
    ensures Correr([ALTA, Calculo(red)])
         == Base([Fila(Calculada, 2, 100)], map[0 := [GASTO]], map[0 := [Concepto("agua", "coeficiente", 100)]],
                 map[0 := [UnidadSnap(0, "A", 1.0, 100)]], [], [], [], map[])
  {
    AltaLlega();
    assert [ALTA, Calculo(red)][..1] == [ALTA];
    CalculoPaso(Correr([ALTA]), red);
  }

  const CARGO := Cargo(0, Some(0), "Expensa " + "202601", 10, 100, 100)

  lemma ConfirmacionLlega(red: Redondeo)
    ensures var b := Correr([ALTA, Calculo(red), CONFIRMACION]);
      && b.liqs == [Fila(Confirmada, 3, 100)] && b.cargos == [CARGO]
      && b.asientos == [Asiento(0, TipoCargo, 10, 100, 0, 0)]
      && b.llaves == map[(AmbitoConfirmar, "k") := FilaLlave(0, Dto(0, Fila(Confirmada, 3, 100)))]
  {
    CalculoLlega(red);
    var b := Correr([ALTA, Calculo(red)]);
    assert [ALTA, Calculo(red), CONFIRMACION][..2] == [ALTA, Calculo(red)];
    var us := Filas(b.snapUnidades, 0);
    assert us == [UnidadSnap(0, "A", 1.0, 100)] && us[..0] == [];
    assert CargosDe(us, 0, "202601", 10) == [CARGO];
  }

  /** The first confirmation stored its answer under the key; the retry is refused all the same. */
  lemma ReintentoRechazadoAlcanzable(red: Redondeo)
    ensures var b := Correr([ALTA, Calculo(red), CONFIRMACION]);
      && |b.liqs| == 1 && (AmbitoConfirmar, "k") in b.llaves
      && b.llaves[(AmbitoConfirmar, "k")].resp == Dto(0, b.liqs[0])
      && Paso(b, CONFIRMACION) == (b, Err(TransicionInvalida))
  {
    ConfirmacionLlega(red);
  }

  lemma AnulacionLlega(red: Redondeo)
    ensures var b := Correr([ALTA, Calculo(red), CONFIRMACION, CONFIRMACION, ANULACION]);
      && b.liqs == [Fila(Anulada, 4, 100)] && b.cargos == [CARGO.(saldo := 0)]
      && b.asientos == [Asiento(0, TipoCargo, 10, 100, 0, 0), Asiento(0, TipoReversa, 10, 0, 100, 0)]
  {
    var ops := [ALTA, Calculo(red), CONFIRMACION, CONFIRMACION, ANULACION];
    ConfirmacionLlega(red);
    var b := Correr([ALTA, Calculo(red), CONFIRMACION]);
    assert ops[..4][..3] == [ALTA, Calculo(red), CONFIRMACION];
    assert Correr(ops[..4]) == b;
    assert b.cargos[..0] == [];
    assert AsientosReversa(b.cargos, 0) == [Asiento(0, TipoReversa, 10, 0, 100, 0)];
    assert ConReversas(b.cargos, 0) == [CARGO.(saldo := 0)];
    assert Correr(ops) == AnularPaso(b, 0, 0, 3).0;
  }

  /** After the annulment the unit's statement still shows the bill; its ledger is at zero. */
  lemma ExtractoDistintoDelLibro(red: Redondeo)
    ensures var b := Correr([ALTA, Calculo(red), CONFIRMACION, CONFIRMACION, ANULACION]);
      ExtractoDe(b.cargos, 0) == 100 && LibroDe(b.asientos, 0) == 0
  {
    AnulacionLlega(red);
    var b := Correr([ALTA, Calculo(red), CONFIRMACION, CONFIRMACION, ANULACION]);
    assert b.cargos[..0] == [];
    var cargo := Asiento(0, TipoCargo, 10, 100, 0, 0);
    assert b.asientos[..1] == [cargo] && [cargo][..0] == [];
    assert LibroDe([cargo], 0) == 100;
  }

  /** A change of due dates on the calculated settlement answers success and keeps the old dates. */
  lemma VencimientosSinEfecto(red: Redondeo, version: int)
    ensures var b := Correr([ALTA, Calculo(red)]);
      VencimientosPaso(b, 0, 0, 20, None, version) == (b, Ok(Vacio)) && |b.liqs| == 1 && b.liqs[0].venc1 == 10
  {
    CalculoLlega(red);
  }
}
