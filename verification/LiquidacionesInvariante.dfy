/** What holds of the settlement tables after any run: conservation from bills to ledger,
    charges exactly once, reversals exactly once, one publication event. */
module LiquidacionesInvariante {
  import opened Comun
  import opened Distribucion
  import opened DistribucionOrden
  import opened Agrupacion
  import opened Liquidaciones

  /** The net of a charge's ledger entries. */
  function Movimientos(es: seq<Asiento>, k: nat): int {
    if es == [] then 0
    else
      var e := es[|es| - 1];
      Movimientos(es[..|es| - 1], k) + if e.cargo == k then e.debe - e.haber else 0
  }

  function Reversas(es: seq<Asiento>, k: nat): nat {
    if es == [] then 0
    else
      var e := es[|es| - 1];
      Reversas(es[..|es| - 1], k) + if e.cargo == k && e.tipo == TipoReversa then 1 else 0
  }

  /** Unit and amount of each charge of a settlement. */
  function CargosDeLiq(cs: seq<Cargo>, id: nat): seq<(nat, int)> {
    if cs == [] then []
    else
      var c := cs[|cs| - 1];
      CargosDeLiq(cs[..|cs| - 1], id) + if c.liq == Some(id) then [(c.unidad, c.total)] else []
  }

  /** Unit and amount of each snapshot unit with something to pay. */
  function Cobrables(us: seq<UnidadSnap>): seq<(nat, int)> {
    if us == [] then []
    else
      var u := us[|us| - 1];
      Cobrables(us[..|us| - 1]) + if u.total <= 0 then [] else [(u.unidad, u.total)]
  }

  function Montos(cs: seq<(nat, int)>): seq<int> {
    seq(|cs|, i requires 0 <= i < |cs| => cs[i].1)
  }

  function Publicaciones(es: seq<Evento>, id: nat): nat {
    if es == [] then 0 else Publicaciones(es[..|es| - 1], id) + if es[|es| - 1].liq == id then 1 else 0
  }

  // ---------- The invariant ----------

  /** A charge is due in full or not at all, its ledger entries net to what is due, and it was
      reversed once if it is no longer due and never otherwise. */
  ghost predicate CargoOk(b: Base, k: nat)
    requires k < |b.cargos|
  {
    var c := b.cargos[k];
    && c.total > 0 && (c.saldo == c.total || c.saldo == 0)
    && c.liq.Some? && c.liq.value < |b.liqs|
    && Movimientos(b.asientos, k) == c.saldo
    && Reversas(b.asientos, k) == (if c.saldo == 0 then 1 else 0)
  }

  /** The three snapshots of a settlement add up to its two totals. */
  ghost predicate SnapOk(b: Base, id: nat)
    requires id < |b.liqs|
  {
    var l := b.liqs[id];
    && Suma(ImportesGastos(Filas(b.snapGastos, id))) == l.totalGastos
    && Suma(Importes(Filas(b.snapItems, id))) == l.totalGastos
    && Suma(TotalesSnap(Filas(b.snapUnidades, id))) == l.totalDistribuido
    && l.totalGastos == l.totalDistribuido
    && UnidadesAdmitidas(Filas(b.snapUnidades, id))
    && (l.estado == Borrador ==> l.totalGastos == 0 && Filas(b.snapUnidades, id) == [])
  }

  ghost predicate SaldosDe(cs: seq<Cargo>, id: nat, vigentes: bool) {
    forall k | 0 <= k < |cs| && cs[k].liq == Some(id) :: cs[k].saldo == if vigentes then cs[k].total else 0
  }

  ghost predicate EstadoOk(b: Base, id: nat)
    requires id < |b.liqs|
  {
    var cobrados := CargosDeLiq(b.cargos, id);
    var cobrables := Cobrables(Filas(b.snapUnidades, id));
    match b.liqs[id].estado
    case Borrador => cobrados == []
    case Calculada => cobrados == []
    case Confirmada => cobrados == cobrables && SaldosDe(b.cargos, id, true)
    case Publicada => cobrados == cobrables && SaldosDe(b.cargos, id, true)
    case Anulada => (cobrados == [] || cobrados == cobrables) && SaldosDe(b.cargos, id, false)
    case Cerrada => false
  }

  ghost predicate EventosOk(b: Base, id: nat)
    requires id < |b.liqs|
  {
    Publicaciones(b.eventos, id) == if b.liqs[id].estado == Publicada then 1 else 0
  }

  /** Rows and the ids they mention exist; snapshot rows belong to settlements. */
  ghost predicate Referencias(b: Base) {
    && (forall i | 0 <= i < |b.asientos| ::
          b.asientos[i].cargo < |b.cargos| && b.asientos[i].unidad == b.cargos[b.asientos[i].cargo].unidad)
    && (forall i | 0 <= i < |b.eventos| :: b.eventos[i].liq < |b.liqs|)
    && (forall id | id in b.snapGastos || id in b.snapItems || id in b.snapUnidades :: id < |b.liqs|)
  }

  /** At most one active settlement per building and period. */
  ghost predicate PeriodoUnico(ls: seq<Liq>) {
    forall i, j | 0 <= i < j < |ls| && Activa(ls[i]) && Activa(ls[j]) ::
      ls[i].consorcio != ls[j].consorcio || ls[i].periodo != ls[j].periodo
  }

  /** Where a settlement can be once a key of each kind was used on it. */
  predicate EstadoTras(a: Ambito, e: Estado) {
    match a
    case AmbitoCalcular => e != Borrador
    case AmbitoConfirmar => e == Confirmada || e == Publicada || e == Anulada
    case AmbitoPublicar => e == Publicada
  }

  /** A stored key always holds a real answer about its settlement. */
  ghost predicate LlavesOk(b: Base) {
    forall ak | ak in b.llaves :: var f := b.llaves[ak];
      && ak.1 != "" && f.liq < |b.liqs| && f.resp.Dto? && f.resp.id == f.liq
      && EstadoTras(ak.0, b.liqs[f.liq].estado)
  }

  ghost predicate Valida(b: Base) {
    && Referencias(b) && PeriodoUnico(b.liqs) && LlavesOk(b)
    && (forall k | 0 <= k < |b.cargos| :: CargoOk(b, k))
    && (forall id | 0 <= id < |b.liqs| :: b.liqs[id].version >= 1 && SnapOk(b, id) && EstadoOk(b, id) && EventosOk(b, id))
  }

  // ---------- How each table reads after an append or a reversal ----------

  lemma {:induction false} MovimientosConcat(a: seq<Asiento>, b: seq<Asiento>, k: nat)
    ensures Movimientos(a + b, k) == Movimientos(a, k) + Movimientos(b, k)
    ensures Reversas(a + b, k) == Reversas(a, k) + Reversas(b, k)
  {
    if b == [] {
      assert a + b == a;
    } else {
      assert (a + b)[..|a + b| - 1] == a + b[..|b| - 1];
      MovimientosConcat(a, b[..|b| - 1], k);
    }
  }

  lemma {:induction false} CargosDeLiqConcat(a: seq<Cargo>, b: seq<Cargo>, id: nat)
    ensures CargosDeLiq(a + b, id) == CargosDeLiq(a, id) + CargosDeLiq(b, id)
  {
    if b == [] {
      assert a + b == a;
    } else {
      assert (a + b)[..|a + b| - 1] == a + b[..|b| - 1];
      CargosDeLiqConcat(a, b[..|b| - 1], id);
    }
  }

  lemma CargosDeUno(cs: seq<Cargo>, id: nat)
    requires |cs| <= 1
    ensures CargosDeLiq(cs, id) == if cs != [] && cs[0].liq == Some(id) then [(cs[0].unidad, cs[0].total)] else []
  {
    if cs != [] {
      assert cs[..0] == [];
    }
  }

  lemma {:induction false} SinCargos(cs: seq<Cargo>, id: nat)
    ensures CargosDeLiq(cs, id) == [] <==> forall k | 0 <= k < |cs| :: cs[k].liq != Some(id)
  {
    if cs != [] {
      var n := |cs| - 1;
      SinCargos(cs[..n], id);
      if forall k | 0 <= k < |cs| :: cs[k].liq != Some(id) {
        assert forall k | 0 <= k < n :: cs[..n][k].liq != Some(id);
      }
    }
  }

  /** Confirming charges exactly the snapshot units with something to pay, each in full. */
  lemma {:induction false} CargosDelSnapshot(us: seq<UnidadSnap>, id: nat, periodo: string, vence: Fecha, otra: nat)
    ensures var cs := CargosDe(us, id, periodo, vence);
      && CargosDeLiq(cs, id) == Cobrables(us)
      && (otra != id ==> CargosDeLiq(cs, otra) == [])
      && (forall k | 0 <= k < |cs| :: cs[k].liq == Some(id) && cs[k].total > 0 && cs[k].saldo == cs[k].total)
  {
    if us != [] {
      var u, pre := us[|us| - 1], CargosDe(us[..|us| - 1], id, periodo, vence);
      CargosDelSnapshot(us[..|us| - 1], id, periodo, vence, otra);
      var ultimo := if u.total <= 0 then [] else [Cargo(u.unidad, Some(id), "Expensa " + periodo, vence, u.total, u.total)];
      assert CargosDe(us, id, periodo, vence) == pre + ultimo;
      CargosDeLiqConcat(pre, ultimo, id);
      CargosDeLiqConcat(pre, ultimo, otra);
      CargosDeUno(ultimo, id);
      CargosDeUno(ultimo, otra);
    }
  }

  lemma {:induction false} MovimientosDeAlta(cs: seq<Cargo>, desde: nat, k: nat)
    ensures Movimientos(AsientosDe(cs, desde), k) == if desde <= k < desde + |cs| then cs[k - desde].total else 0
    ensures Reversas(AsientosDe(cs, desde), k) == 0
  {
    if cs != [] {
      var n := |cs| - 1;
      assert AsientosDe(cs, desde)[..n] == AsientosDe(cs[..n], desde);
      MovimientosDeAlta(cs[..n], desde, k);
    }
  }

  lemma {:induction false} MovimientosDeReversa(cs: seq<Cargo>, id: nat, k: nat)
    ensures var revierte := k < |cs| && Reversible(cs[k], id);
      && Movimientos(AsientosReversa(cs, id), k) == (if revierte then -cs[k].total else 0)
      && Reversas(AsientosReversa(cs, id), k) == (if revierte then 1 else 0)
  {
    if cs != [] {
      var n := |cs| - 1;
      MovimientosDeReversa(cs[..n], id, k);
      var nuevo := AsientosReversa(cs, id)[|AsientosReversa(cs[..n], id)|..];
      assert AsientosReversa(cs, id) == AsientosReversa(cs[..n], id) + nuevo;
      MovimientosConcat(AsientosReversa(cs[..n], id), nuevo, k);
      if Reversible(cs[n], id) {
        assert nuevo == [Asiento(cs[n].unidad, TipoReversa, cs[n].vence, 0, cs[n].total, n)];
        assert nuevo[..0] == [];
      }
    }
  }

  lemma {:induction false} AsientosReversaRefieren(cs: seq<Cargo>, id: nat)
    ensures forall i | 0 <= i < |AsientosReversa(cs, id)| :: var e := AsientosReversa(cs, id)[i];
      e.cargo < |cs| && e.unidad == cs[e.cargo].unidad
  {
    if cs != [] {
      AsientosReversaRefieren(cs[..|cs| - 1], id);
    }
  }

  lemma {:induction false} ReversasConservanCargos(cs: seq<Cargo>, id: nat, otra: nat)
    ensures CargosDeLiq(ConReversas(cs, id), otra) == CargosDeLiq(cs, otra)
  {
    if cs != [] {
      var n := |cs| - 1;
      assert ConReversas(cs, id)[..n] == ConReversas(cs[..n], id);
      ReversasConservanCargos(cs[..n], id, otra);
    }
  }

  /** No entry mentions a charge that does not exist yet. */
  lemma {:induction false} SinMovimientos(es: seq<Asiento>, k: nat)
    requires forall i | 0 <= i < |es| :: es[i].cargo != k
    ensures Movimientos(es, k) == 0 && Reversas(es, k) == 0
  {
    if es != [] {
      SinMovimientos(es[..|es| - 1], k);
    }
  }

  lemma {:induction false} SinPublicaciones(es: seq<Evento>, id: nat)
    requires forall i | 0 <= i < |es| :: es[i].liq != id
    ensures Publicaciones(es, id) == 0
  {
    if es != [] {
      SinPublicaciones(es[..|es| - 1], id);
    }
  }

  /** Every cent distributed is charged: the charges of a snapshot add up to its total. */
  lemma {:induction false} CobrablesSuman(us: seq<UnidadSnap>)
    requires forall i | 0 <= i < |us| :: us[i].total >= 0
    ensures Suma(Montos(Cobrables(us))) == Suma(TotalesSnap(us))
  {
    if us != [] {
      var n := |us| - 1;
      var pre, cs := Cobrables(us[..n]), Cobrables(us);
      CobrablesSuman(us[..n]);
      assert TotalesSnap(us)[..n] == TotalesSnap(us[..n]);
      if us[n].total > 0 {
        assert Montos(cs)[..|pre|] == Montos(pre);
      } else {
        assert cs == pre;
      }
    }
  }

  // ---------- Each step keeps it ----------

  lemma CrearConserva(b: Base, consorcio: nat, periodo: string, v1: Fecha, v2: Option<Fecha>)
    requires Valida(b)
    ensures Valida(CrearPaso(b, consorcio, periodo, v1, v2).0)
  {
    var b' := CrearPaso(b, consorcio, periodo, v1, v2).0;
    if b' != b {
      var n := |b.liqs|;
      SinCargos(b.cargos, n);
      SinPublicaciones(b.eventos, n);
      forall k | 0 <= k < |b.cargos| ensures CargoOk(b', k) {
        assert CargoOk(b, k);
      }
      forall id | 0 <= id < |b'.liqs|
        ensures b'.liqs[id].version >= 1 && SnapOk(b', id) && EstadoOk(b', id) && EventosOk(b', id)
      {
        if id < n {
          assert b'.liqs[id] == b.liqs[id] && SnapOk(b, id) && EstadoOk(b, id) && EventosOk(b, id);
        } else {
          forall k | 0 <= k < |b.cargos| ensures b.cargos[k].liq != Some(n) {
            assert CargoOk(b, k);
          }
        }
      }
    }
  }

  lemma VencimientosConserva(b: Base, consorcio: nat, id: nat, v1: Fecha, v2: Option<Fecha>, version: int)
    requires Valida(b)
    ensures Valida(VencimientosPaso(b, consorcio, id, v1, v2, version).0)
  {
    var b' := VencimientosPaso(b, consorcio, id, v1, v2, version).0;
    if b' != b {
      forall k | 0 <= k < |b.cargos| ensures CargoOk(b', k) {
        assert CargoOk(b, k);
      }
      forall x | 0 <= x < |b'.liqs|
        ensures b'.liqs[x].version >= 1 && SnapOk(b', x) && EstadoOk(b', x) && EventosOk(b', x)
      {
        assert SnapOk(b, x) && EstadoOk(b, x) && EventosOk(b, x);
      }
    }
  }

  /** A transition completes its key and keeps what is known of the others. */
  lemma LlavesConserva(b: Base, b': Base, a: Ambito, key: string, id: nat, l: Liq)
    requires LlavesOk(b) && id < |b.liqs| && b'.liqs == b.liqs[id := l]
    requires Sellar(b.llaves, a, key, id).Sigue?
    requires b'.llaves == Guardar(Sellar(b.llaves, a, key, id).llaves, a, key, Dto(id, l))
    requires EstadoTras(a, l.estado)
    requires forall x | EstadoTras(x, b.liqs[id].estado) :: EstadoTras(x, l.estado)
    ensures LlavesOk(b')
  {
    forall ak | ak in b'.llaves
      ensures var f := b'.llaves[ak];
        ak.1 != "" && f.liq < |b'.liqs| && f.resp.Dto? && f.resp.id == f.liq && EstadoTras(ak.0, b'.liqs[f.liq].estado)
    {
      if ak != (a, key) {
        assert ak in b.llaves && b'.llaves[ak] == b.llaves[ak];
      }
    }
  }

  lemma PeriodoUnicoConserva(ls: seq<Liq>, id: nat, l: Liq)
    requires PeriodoUnico(ls) && id < |ls| && (Activa(l) ==> Activa(ls[id]))
    requires l.consorcio == ls[id].consorcio && l.periodo == ls[id].periodo
    ensures PeriodoUnico(ls[id := l])
  {
  }

  /** What the distribution writes: bills, items and units with one and the same total. */
  lemma SnapshotCuadra(reg: seq<Gasto>, ufs: seq<UF>, red: Redondeo)
    requires SumaCoef(ufs) > 0.0
    ensures var d := Reparto(Agrupados(reg), Ordenar(ufs), red);
      && d.totalGastos == d.totalDistribuido == Suma(ImportesGastos(reg))
      && Suma(Importes(d.items)) == d.totalGastos
      && Suma(TotalesSnap(SnapDe(d.unidades))) == d.totalDistribuido
  {
    var d := Reparto(Agrupados(reg), Ordenar(ufs), red);
    OrdenarCorrecto(ufs);
    SumaCoefPermutada(Ordenar(ufs), ufs);
    Conservacion(Agrupados(reg), Ordenar(ufs), red);
    AgruparConserva(reg);
    assert TotalesSnap(SnapDe(d.unidades)) == Totales(d.unidades);
  }

  /** The effect of a calculation, whatever the distribution was: a new snapshot that adds up. */
  ghost predicate Recalculada(b: Base, b': Base, id: nat, reg: seq<Gasto>, items: seq<Concepto>, us: seq<UnidadSnap>) {
    && id < |b.liqs| && |b'.liqs| == |b.liqs|
    && (b.liqs[id].estado == Borrador || b.liqs[id].estado == Calculada)
    && b'.liqs[id].estado == Calculada && b'.liqs[id].version == b.liqs[id].version + 1
    && b'.liqs[id].consorcio == b.liqs[id].consorcio && b'.liqs[id].periodo == b.liqs[id].periodo
    && b' == b.(liqs := b.liqs[id := b'.liqs[id]], snapGastos := b.snapGastos[id := reg],
                snapItems := b.snapItems[id := items], snapUnidades := b.snapUnidades[id := us], llaves := b'.llaves)
    && b'.liqs[id].totalGastos == b'.liqs[id].totalDistribuido == Suma(ImportesGastos(reg))
    && Suma(Importes(items)) == Suma(ImportesGastos(reg)) == Suma(TotalesSnap(us))
    && UnidadesAdmitidas(us)
  }

  lemma CalcularEfecto(b: Base, consorcio: nat, id: nat, version: int, key: string, gastos: seq<Gasto>, ufs: seq<UF>, red: Redondeo)
    returns (items: seq<Concepto>, us: seq<UnidadSnap>)
    requires CalcularPaso(b, consorcio, id, version, key, gastos, ufs, red).0 != b
    ensures var b' := CalcularPaso(b, consorcio, id, version, key, gastos, ufs, red).0;
      && Recalculada(b, b', id, Registrados(gastos), items, us)
      && Sellar(b.llaves, AmbitoCalcular, key, id).Sigue?
      && b'.llaves == Guardar(Sellar(b.llaves, AmbitoCalcular, key, id).llaves, AmbitoCalcular, key, Dto(id, b'.liqs[id]))
  {
    SnapshotCuadra(Registrados(gastos), ufs, red);
    var d := Reparto(Agrupados(Registrados(gastos)), Ordenar(ufs), red);
    items, us := d.items, SnapDe(d.unidades);
  }

  lemma RecalculadaLiq(b: Base, b': Base, id: nat, reg: seq<Gasto>, items: seq<Concepto>, us: seq<UnidadSnap>, x: nat)
    requires Valida(b) && x < |b.liqs| && Recalculada(b, b', id, reg, items, us)
    ensures b'.liqs[x].version >= 1 && SnapOk(b', x) && EstadoOk(b', x) && EventosOk(b', x)
  {
    assert SnapOk(b, x) && EstadoOk(b, x) && EventosOk(b, x);
  }

  lemma CalcularConserva(b: Base, consorcio: nat, id: nat, version: int, key: string, gastos: seq<Gasto>, ufs: seq<UF>, red: Redondeo)
    requires Valida(b)
    ensures Valida(CalcularPaso(b, consorcio, id, version, key, gastos, ufs, red).0)
  {
    var b' := CalcularPaso(b, consorcio, id, version, key, gastos, ufs, red).0;
    if b' != b {
      var items, us := CalcularEfecto(b, consorcio, id, version, key, gastos, ufs, red);
      RecalculadaConserva(b, b', id, key, Registrados(gastos), items, us);
    }
  }

  lemma RecalculadaConserva(b: Base, b': Base, id: nat, key: string, reg: seq<Gasto>, items: seq<Concepto>, us: seq<UnidadSnap>)
    requires Valida(b) && Recalculada(b, b', id, reg, items, us)
    requires Sellar(b.llaves, AmbitoCalcular, key, id).Sigue?
    requires b'.llaves == Guardar(Sellar(b.llaves, AmbitoCalcular, key, id).llaves, AmbitoCalcular, key, Dto(id, b'.liqs[id]))
    ensures Valida(b')
  {
    PeriodoUnicoConserva(b.liqs, id, b'.liqs[id]);
    LlavesConserva(b, b', AmbitoCalcular, key, id, b'.liqs[id]);
    forall k | 0 <= k < |b.cargos| ensures CargoOk(b', k) {
      assert CargoOk(b, k);
    }
    forall x | 0 <= x < |b'.liqs|
      ensures b'.liqs[x].version >= 1 && SnapOk(b', x) && EstadoOk(b', x) && EventosOk(b', x)
    {
      RecalculadaLiq(b, b', id, reg, items, us, x);
    }
  }

  lemma ConfirmarCargo(b: Base, id: nat, nuevos: seq<Cargo>, b': Base, k: nat)
    requires Valida(b) && |b'.liqs| == |b.liqs| && id < |b.liqs|
    requires b'.cargos == b.cargos + nuevos && b'.asientos == b.asientos + AsientosDe(nuevos, |b.cargos|)
    requires forall i | 0 <= i < |nuevos| :: nuevos[i].liq == Some(id) && nuevos[i].total > 0 && nuevos[i].saldo == nuevos[i].total
    requires k < |b'.cargos|
    ensures CargoOk(b', k)
  {
    AltaConserva(b, id, nuevos, k);
    if k < |b.cargos| {
      assert CargoOk(b, k);
    }
  }

  /** A confirmation, seen from settlement `x`: its row moves on if it is the one confirmed, and its charges
      become those of its snapshot. */
  ghost predicate ConfirmadaDesde(b: Base, b': Base, id: nat, x: nat) {
    && id < |b.liqs| && x < |b.liqs| && b.liqs[id].estado == Calculada
    && b'.liqs == b.liqs[id := b.liqs[id].(estado := Confirmada, version := b.liqs[id].version + 1)]
    && b'.snapGastos == b.snapGastos && b'.snapItems == b.snapItems && b'.snapUnidades == b.snapUnidades
    && b'.eventos == b.eventos
    && |b.cargos| <= |b'.cargos| && (forall k | 0 <= k < |b.cargos| :: b'.cargos[k] == b.cargos[k])
    && CargosDeLiq(b'.cargos, x) == (if x == id then Cobrables(Filas(b.snapUnidades, id)) else CargosDeLiq(b.cargos, x))
    && forall k | |b.cargos| <= k < |b'.cargos| :: b'.cargos[k].liq == Some(id) && b'.cargos[k].saldo == b'.cargos[k].total
  }

  lemma ConfirmarEfecto(b: Base, consorcio: nat, id: nat, version: int, key: string, x: nat)
    requires id < |b.liqs| && EstadoOk(b, id) && x < |b.liqs| && ConfirmarPaso(b, consorcio, id, version, key).0 != b
    ensures ConfirmadaDesde(b, ConfirmarPaso(b, consorcio, id, version, key).0, id, x)
  {
    var us, periodo, vence := Filas(b.snapUnidades, id), b.liqs[id].periodo, b.liqs[id].venc1;
    var nuevos := CargosDe(us, id, periodo, vence);
    CargosDelSnapshot(us, id, periodo, vence, x);
    CargosDeLiqConcat(b.cargos, nuevos, x);
  }

  lemma ConfirmarSaldos(b: Base, b': Base, id: nat, x: nat)
    requires ConfirmadaDesde(b, b', id, x) && CargosDeLiq(b.cargos, id) == []
    ensures SaldosDe(b'.cargos, id, true)
    ensures x != id ==> forall v | SaldosDe(b.cargos, x, v) :: SaldosDe(b'.cargos, x, v)
  {
    SinCargos(b.cargos, id);
  }

  lemma ConfirmarSnap(b: Base, b': Base, id: nat, x: nat)
    requires ConfirmadaDesde(b, b', id, x) && SnapOk(b, x)
    ensures SnapOk(b', x)
  {
  }

  lemma ConfirmarLiq(b: Base, b': Base, id: nat, x: nat)
    requires ConfirmadaDesde(b, b', id, x) && EstadoOk(b, id)
    requires b.liqs[x].version >= 1 && SnapOk(b, x) && EstadoOk(b, x) && EventosOk(b, x)
    ensures b'.liqs[x].version >= 1 && SnapOk(b', x) && EstadoOk(b', x) && EventosOk(b', x)
  {
    ConfirmarSaldos(b, b', id, x);
    ConfirmarSnap(b, b', id, x);
  }

  lemma ConfirmarConserva(b: Base, consorcio: nat, id: nat, version: int, key: string)
    requires Valida(b)
    ensures Valida(ConfirmarPaso(b, consorcio, id, version, key).0)
  {
    var b' := ConfirmarPaso(b, consorcio, id, version, key).0;
    if b' != b {
      var us, periodo, vence := Filas(b.snapUnidades, id), b.liqs[id].periodo, b.liqs[id].venc1;
      var nuevos := CargosDe(us, id, periodo, vence);
      PeriodoUnicoConserva(b.liqs, id, b'.liqs[id]);
      LlavesConserva(b, b', AmbitoConfirmar, key, id, b'.liqs[id]);
      CargosDelSnapshot(us, id, periodo, vence, id);
      assert Referencias(b') by { AltaReferencias(b, b', nuevos); }
      forall k | 0 <= k < |b'.cargos| ensures CargoOk(b', k) {
        ConfirmarCargo(b, id, nuevos, b', k);
      }
      forall x | 0 <= x < |b'.liqs|
        ensures b'.liqs[x].version >= 1 && SnapOk(b', x) && EstadoOk(b', x) && EventosOk(b', x)
      {
        assert EstadoOk(b, id) && SnapOk(b, x) && EstadoOk(b, x) && EventosOk(b, x);
        ConfirmarEfecto(b, consorcio, id, version, key, x);
        ConfirmarLiq(b, b', id, x);
      }
    }
  }

  lemma AltaReferencias(b: Base, b': Base, nuevos: seq<Cargo>)
    requires Referencias(b) && |b'.liqs| == |b.liqs|
    requires b' == b.(liqs := b'.liqs, cargos := b.cargos + nuevos,
                      asientos := b.asientos + AsientosDe(nuevos, |b.cargos|), llaves := b'.llaves)
    ensures Referencias(b')
  {
    forall i | 0 <= i < |b'.asientos|
      ensures b'.asientos[i].cargo < |b'.cargos| && b'.asientos[i].unidad == b'.cargos[b'.asientos[i].cargo].unidad
    {
      if i < |b.asientos| {
        assert b'.asientos[i] == b.asientos[i];
      }
    }
  }

  /** Ledger entries after charging: old charges keep theirs, each new one gets its debit. */
  lemma AltaConserva(b: Base, id: nat, nuevos: seq<Cargo>, k: nat)
    requires Referencias(b) && k < |b.cargos| + |nuevos|
    ensures var es := b.asientos + AsientosDe(nuevos, |b.cargos|);
      if k < |b.cargos| then
        Movimientos(es, k) == Movimientos(b.asientos, k) && Reversas(es, k) == Reversas(b.asientos, k)
      else
        Movimientos(es, k) == nuevos[k - |b.cargos|].total && Reversas(es, k) == 0
  {
    MovimientosConcat(b.asientos, AsientosDe(nuevos, |b.cargos|), k);
    MovimientosDeAlta(nuevos, |b.cargos|, k);
    if k >= |b.cargos| {
      SinMovimientos(b.asientos, k);
    }
  }

  lemma PublicarConserva(b: Base, consorcio: nat, id: nat, version: int, key: string)
    requires Valida(b)
    ensures Valida(PublicarPaso(b, consorcio, id, version, key).0)
  {
    var b' := PublicarPaso(b, consorcio, id, version, key).0;
    if b' != b {
      var l := b'.liqs[id];
      PeriodoUnicoConserva(b.liqs, id, l);
      LlavesConserva(b, b', AmbitoPublicar, key, id, l);
      forall k | 0 <= k < |b.cargos| ensures CargoOk(b', k) {
        assert CargoOk(b, k);
      }
      forall x | 0 <= x < |b'.liqs|
        ensures b'.liqs[x].version >= 1 && SnapOk(b', x) && EstadoOk(b', x) && EventosOk(b', x)
      {
        PublicarLiq(b, consorcio, id, version, key, x);
      }
    }
  }

  lemma PublicarLiq(b: Base, consorcio: nat, id: nat, version: int, key: string, x: nat)
    requires Valida(b) && x < |b.liqs| && PublicarPaso(b, consorcio, id, version, key).0 != b
    ensures var b' := PublicarPaso(b, consorcio, id, version, key).0;
      |b'.liqs| == |b.liqs| && b'.liqs[x].version >= 1 && SnapOk(b', x) && EstadoOk(b', x) && EventosOk(b', x)
  {
    var b' := PublicarPaso(b, consorcio, id, version, key).0;
    assert SnapOk(b, x) && EstadoOk(b, x) && EventosOk(b, x);
    assert b'.eventos[..|b'.eventos| - 1] == b.eventos;
  }

  /** The effect of annulling: every charge of the settlement still due is reversed, in whatever
      state it was (before confirming there are none). */
  ghost predicate Anulado(b: Base, b': Base, id: nat) {
    && id < |b.liqs| && |b'.liqs| == |b.liqs|
    && b.liqs[id].estado in {Borrador, Calculada, Confirmada}
    && b'.liqs == b.liqs[id := b.liqs[id].(estado := Anulada, version := b.liqs[id].version + 1)]
    && b' == b.(liqs := b'.liqs, cargos := ConReversas(b.cargos, id), asientos := b.asientos + AsientosReversa(b.cargos, id))
  }

  lemma {:induction false} NadaQueRevertir(cs: seq<Cargo>, id: nat)
    requires forall k | 0 <= k < |cs| :: !Reversible(cs[k], id)
    ensures ConReversas(cs, id) == cs && AsientosReversa(cs, id) == []
  {
    if cs != [] {
      NadaQueRevertir(cs[..|cs| - 1], id);
    }
  }

  lemma AnularEfecto(b: Base, consorcio: nat, id: nat, version: int)
    requires Valida(b) && AnularPaso(b, consorcio, id, version).0 != b
    ensures Anulado(b, AnularPaso(b, consorcio, id, version).0, id)
  {
    assert EstadoOk(b, id);
    if b.liqs[id].estado != Confirmada {
      SinCargos(b.cargos, id);
      NadaQueRevertir(b.cargos, id);
      assert b.asientos + [] == b.asientos;
    }
  }

  lemma AnularCargo(b: Base, b': Base, id: nat, k: nat)
    requires Valida(b) && Anulado(b, b', id) && k < |b.cargos|
    ensures CargoOk(b', k)
  {
    assert CargoOk(b, k);
    MovimientosConcat(b.asientos, AsientosReversa(b.cargos, id), k);
    MovimientosDeReversa(b.cargos, id, k);
  }

  lemma AnularLiq(b: Base, b': Base, id: nat, x: nat)
    requires Valida(b) && Anulado(b, b', id) && x < |b.liqs|
    ensures b'.liqs[x].version >= 1 && SnapOk(b', x) && EstadoOk(b', x) && EventosOk(b', x)
  {
    assert SnapOk(b, x) && EstadoOk(b, x) && EventosOk(b, x);
    ReversasConservanCargos(b.cargos, id, x);
    forall k | 0 <= k < |b.cargos|
      ensures b'.cargos[k].liq == b.cargos[k].liq && b'.cargos[k].total == b.cargos[k].total
      ensures b'.cargos[k].saldo == if b.cargos[k].liq == Some(id) then 0 else b.cargos[k].saldo
    {
      assert CargoOk(b, k);
    }
  }

  lemma AnularConserva(b: Base, consorcio: nat, id: nat, version: int)
    requires Valida(b)
    ensures Valida(AnularPaso(b, consorcio, id, version).0)
  {
    var b' := AnularPaso(b, consorcio, id, version).0;
    if b' != b {
      AnularEfecto(b, consorcio, id, version);
      AnuladoConserva(b, b', id);
    }
  }

  lemma AnuladoConserva(b: Base, b': Base, id: nat)
    requires Valida(b) && Anulado(b, b', id)
    ensures Valida(b')
  {
    PeriodoUnicoConserva(b.liqs, id, b'.liqs[id]);
    AsientosReversaRefieren(b.cargos, id);
    forall k | 0 <= k < |b'.cargos| ensures CargoOk(b', k) {
      AnularCargo(b, b', id, k);
    }
    forall x | 0 <= x < |b'.liqs|
      ensures b'.liqs[x].version >= 1 && SnapOk(b', x) && EstadoOk(b', x) && EventosOk(b', x)
    {
      AnularLiq(b, b', id, x);
    }
  }

  lemma PasoConserva(b: Base, op: Op)
    requires Valida(b)
    ensures Valida(Paso(b, op).0)
  {
    match op
    case Crear(c, p, v1, v2) => CrearConserva(b, c, p, v1, v2);
    case Vencimientos(c, id, v1, v2, v) => VencimientosConserva(b, c, id, v1, v2, v);
    case Calcular(c, id, v, k, gs, ufs, red) => CalcularConserva(b, c, id, v, k, gs, ufs, red);
    case Confirmar(c, id, v, k) => ConfirmarConserva(b, c, id, v, k);
    case Publicar(c, id, v, k) => PublicarConserva(b, c, id, v, k);
    case Anular(c, id, v) => AnularConserva(b, c, id, v);
  }

  lemma {:induction false} AlcanzableValida(ops: seq<Op>)
    ensures Valida(Correr(ops))
  {
    if ops != [] {
      AlcanzableValida(ops[..|ops| - 1]);
      PasoConserva(Correr(ops[..|ops| - 1]), ops[|ops| - 1]);
    }
  }
}
