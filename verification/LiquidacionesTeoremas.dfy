/** The promises a settlement keeps over every run, read off the invariant. */
module LiquidacionesTeoremas {
  import opened Comun
  import opened Distribucion
  import opened Agrupacion
  import opened Liquidaciones
  import opened LiquidacionesInvariante

  // ---------- From bills to ledger ----------

  /** What the ledger says of the first `n` charges, counting only those of settlement `id`. */
  function LibroDeLiq(b: Base, id: nat, n: nat): int
    requires n <= |b.cargos|
  {
    if n == 0 then 0
    else LibroDeLiq(b, id, n - 1) + if b.cargos[n - 1].liq == Some(id) then Movimientos(b.asientos, n - 1) else 0
  }

  lemma {:induction false} LibroVigente(b: Base, id: nat, n: nat)
    requires n <= |b.cargos| && forall k | 0 <= k < n :: CargoOk(b, k)
    requires SaldosDe(b.cargos, id, true)
    ensures LibroDeLiq(b, id, n) == Suma(Montos(CargosDeLiq(b.cargos[..n], id)))
  {
    if n > 0 {
      assert b.cargos[..n][..n - 1] == b.cargos[..n - 1];
      LibroVigente(b, id, n - 1);
      assert CargoOk(b, n - 1);
      var pre, cs := CargosDeLiq(b.cargos[..n - 1], id), CargosDeLiq(b.cargos[..n], id);
      if b.cargos[n - 1].liq == Some(id) {
        assert Montos(cs)[..|pre|] == Montos(pre);
      } else {
        assert cs == pre;
      }
    }
  }

  lemma {:induction false} LibroSaldado(b: Base, id: nat, n: nat)
    requires n <= |b.cargos| && forall k | 0 <= k < n :: CargoOk(b, k)
    requires SaldosDe(b.cargos, id, false)
    ensures LibroDeLiq(b, id, n) == 0
  {
    if n > 0 {
      LibroSaldado(b, id, n - 1);
      assert CargoOk(b, n - 1);
    }
  }

  /** In every reachable state a settlement's bills, items and units add up to both of its totals;
      while it stands confirmed or published it has exactly one charge per snapshot unit with something
      to pay, and the ledger carries exactly the bills; before that it has no charges; annulled, every
      charge it may have nets to zero. No run ever closes one. */
  lemma DelGastoAlLibro(ops: seq<Op>, id: nat)
    requires id < |Correr(ops).liqs|
    ensures var b := Correr(ops);
      var l, gastado := b.liqs[id], Suma(ImportesGastos(Filas(b.snapGastos, id)));
      && l.totalGastos == gastado && l.totalDistribuido == gastado
      && Suma(Importes(Filas(b.snapItems, id))) == gastado
      && Suma(TotalesSnap(Filas(b.snapUnidades, id))) == gastado
      && (l.estado in {Borrador, Calculada} ==> forall k | 0 <= k < |b.cargos| :: b.cargos[k].liq != Some(id))
      && (l.estado in {Confirmada, Publicada} ==>
            CargosDeLiq(b.cargos, id) == Cobrables(Filas(b.snapUnidades, id))
            && LibroDeLiq(b, id, |b.cargos|) == gastado)
      && (l.estado == Anulada ==> LibroDeLiq(b, id, |b.cargos|) == 0)
      && (l.estado == Anulada ==> forall k | 0 <= k < |b.cargos| && b.cargos[k].liq == Some(id) :: Movimientos(b.asientos, k) == 0)
      && l.estado != Cerrada
  {
    var b := Correr(ops);
    AlcanzableValida(ops);
    assert SnapOk(b, id) && EstadoOk(b, id);
    SinCargos(b.cargos, id);
    assert b.cargos[..|b.cargos|] == b.cargos;
    if b.liqs[id].estado in {Confirmada, Publicada} {
      LibroVigente(b, id, |b.cargos|);
      var us := Filas(b.snapUnidades, id);
      assert forall i | 0 <= i < |us| :: AdmiteUnidad(us[..i], us[i]);
      CobrablesSuman(us);
    } else if b.liqs[id].estado == Anulada {
      LibroSaldado(b, id, |b.cargos|);
      forall k | 0 <= k < |b.cargos| && b.cargos[k].liq == Some(id) ensures Movimientos(b.asientos, k) == 0 {
        assert CargoOk(b, k);
      }
    }
  }

  /** A snapshot lists no unit twice, so one charge per row is one charge per unit. */
  lemma UnaFilaPorUnidad(ops: seq<Op>, id: nat, i: nat, j: nat)
    requires id < |Correr(ops).liqs|
    requires i < j < |Filas(Correr(ops).snapUnidades, id)|
    ensures var us := Filas(Correr(ops).snapUnidades, id);
      us[i].unidad != us[j].unidad && us[i].total >= 0
  {
    AlcanzableValida(ops);
    var us := Filas(Correr(ops).snapUnidades, id);
    assert SnapOk(Correr(ops), id);
    assert AdmiteUnidad(us[..j], us[j]) && AdmiteUnidad(us[..i], us[i]);
    assert us[..j][i] == us[i];
  }

  /** Each charge's entries net to what is due on it, which is all or nothing; it is reversed once
      when nothing is due and never otherwise. */
  lemma CadaCargoCuadra(ops: seq<Op>, k: nat)
    requires k < |Correr(ops).cargos|
    ensures var b := Correr(ops);
      && Movimientos(b.asientos, k) == b.cargos[k].saldo
      && b.cargos[k].saldo in {0, b.cargos[k].total}
      && Reversas(b.asientos, k) <= 1
      && (Reversas(b.asientos, k) == 1 <==> b.cargos[k].saldo == 0)
  {
    AlcanzableValida(ops);
    assert CargoOk(Correr(ops), k);
  }

  /** One publication event for each published settlement, and none for any other. */
  lemma UnaPublicacion(ops: seq<Op>, i: nat)
    requires i < |Correr(ops).liqs|
    ensures Publicaciones(Correr(ops).eventos, i) == if Correr(ops).liqs[i].estado == Publicada then 1 else 0
  {
    AlcanzableValida(ops);
    assert EventosOk(Correr(ops), i);
  }

  /** At most one active settlement per building and period. */
  lemma UnaPorPeriodo(ops: seq<Op>, i: nat, j: nat)
    requires i < |Correr(ops).liqs| && j < |Correr(ops).liqs|
    requires Activa(Correr(ops).liqs[i]) && Activa(Correr(ops).liqs[j])
    requires Correr(ops).liqs[i].consorcio == Correr(ops).liqs[j].consorcio
    requires Correr(ops).liqs[i].periodo == Correr(ops).liqs[j].periodo
    ensures i == j
  {
    AlcanzableValida(ops);
  }

  // ---------- Idempotency ----------

  function LlaveDe(op: Op): Option<(Ambito, string)> {
    match op
    case Calcular(_, _, _, k, _, _, _) => if k == "" then None else Some((AmbitoCalcular, k))
    case Confirmar(_, _, _, k) => if k == "" then None else Some((AmbitoConfirmar, k))
    case Publicar(_, _, _, k) => if k == "" then None else Some((AmbitoPublicar, k))
    case _ => None
  }

  function LiqDe(op: Op): nat {
    match op
    case Crear(_, _, _, _) => 0
    case Vencimientos(_, id, _, _, _) => id
    case Calcular(_, id, _, _, _, _, _) => id
    case Confirmar(_, id, _, _) => id
    case Publicar(_, id, _, _) => id
    case Anular(_, id, _) => id
  }

  /** A failed step is the identity: the steps are written so, and that the statements roll back to it is what
      LiquidacionesAlmacen proves. */
  lemma FalloSinCambio(b: Base, op: Op)
    requires Paso(b, op).1.Err?
    ensures Paso(b, op).0 == b
  {
  }

  /** A key already stored stops its operation from having any effect: a repeat for the same
      settlement gets the stored answer or is refused by an earlier check, another settlement is refused. */
  lemma RepetidaSinEfecto(b: Base, op: Op)
    requires LlaveDe(op).Some? && LlaveDe(op).value in b.llaves
    ensures Paso(b, op).0 == b
    ensures var f := b.llaves[LlaveDe(op).value];
      Paso(b, op).1.Err? || (LiqDe(op) == f.liq && Paso(b, op).1 == Ok(f.resp))
  {
  }

  /** A first successful execution leaves its own answer under its key. */
  lemma PrimeraGuardada(b: Base, op: Op)
    requires LlaveDe(op).Some? && LlaveDe(op).value !in b.llaves && Paso(b, op).1.Ok?
    ensures LlaveDe(op).value in Paso(b, op).0.llaves
    ensures Paso(b, op).0.llaves[LlaveDe(op).value] == FilaLlave(LiqDe(op), Paso(b, op).1.value)
  {
    var ak := LlaveDe(op).value;
    match op
    case Calcular(c, id, v, k, gs, ufs, red) =>
      assert Sellar(b.llaves, ak.0, k, id) == Sigue(b.llaves[ak := FilaLlave(id, Vacio)]);
    case Confirmar(c, id, v, k) =>
    case Publicar(c, id, v, k) =>
  }

  lemma LlavePersiste(b: Base, op: Op, ak: (Ambito, string))
    requires ak in b.llaves
    ensures ak in Paso(b, op).0.llaves && Paso(b, op).0.llaves[ak] == b.llaves[ak]
  {
  }

  lemma {:induction false} LlavePersisteEnCorrida(ops: seq<Op>, n: nat, ak: (Ambito, string))
    requires n <= |ops| && ak in Correr(ops[..n]).llaves
    ensures ak in Correr(ops).llaves && Correr(ops).llaves[ak] == Correr(ops[..n]).llaves[ak]
    decreases |ops| - n
  {
    if n == |ops| {
      assert ops[..n] == ops;
    } else {
      assert ops[..n + 1][..n] == ops[..n];
      LlavePersiste(Correr(ops[..n]), ops[n], ak);
      LlavePersisteEnCorrida(ops, n + 1, ak);
    }
  }

  /** Over any run at most one execution takes effect per scope and key: once operation `i` has
      succeeded under a key, a later operation `j` under that key changes nothing, and answers
      with exactly what `i` answered or not at all. */
  lemma UnaSolaEjecucion(ops: seq<Op>, i: nat, j: nat)
    requires i < j < |ops| && LlaveDe(ops[i]).Some? && LlaveDe(ops[j]) == LlaveDe(ops[i])
    requires Paso(Correr(ops[..i]), ops[i]).1.Ok?
    ensures var bj := Correr(ops[..j]);
      && Paso(bj, ops[j]).0 == bj
      && (Paso(bj, ops[j]).1.Err?
          || (LiqDe(ops[j]) == LiqDe(ops[i]) && Paso(bj, ops[j]).1 == Paso(Correr(ops[..i]), ops[i]).1))
  {
    var ak := LlaveDe(ops[i]).value;
    var bi := Correr(ops[..i]);
    assert ops[..i + 1][..i] == ops[..i];
    if ak in bi.llaves {
      RepetidaSinEfecto(bi, ops[i]);
    } else {
      PrimeraGuardada(bi, ops[i]);
    }
    assert ops[..j][..i + 1] == ops[..i + 1];
    LlavePersisteEnCorrida(ops[..j], i + 1, ak);
    RepetidaSinEfecto(Correr(ops[..j]), ops[j]);
  }

  /** No committed key is left holding the empty placeholder. */
  lemma SinMarcadorVacio(ops: seq<Op>, ak: (Ambito, string))
    requires ak in Correr(ops).llaves
    ensures var f := Correr(ops).llaves[ak]; f.resp.Dto? && f.resp.id == f.liq
  {
    AlcanzableValida(ops);
  }

  /** ADR-0004 promises that a retry under the same key gets the first answer back. For confirming
      and publishing it never does: the state check comes first and the first execution moved the
      settlement on, so the retry is always refused. */
  lemma ReintentoRechazado(ops: seq<Op>, op: Op)
    requires op.Confirmar? || op.Publicar?
    requires LlaveDe(op).Some? && LlaveDe(op).value in Correr(ops).llaves
    requires Correr(ops).llaves[LlaveDe(op).value].liq == op.id
    ensures Paso(Correr(ops), op).1 == if Visible(Correr(ops), op.consorcio, op.id) then Err(TransicionInvalida) else Err(NoEncontrada)
  {
    AlcanzableValida(ops);
  }

  /** For calculating, a retry gets the first answer back exactly when the settlement is still a
      calculated one of that building and there are bills and units to read. */
  lemma ReintentoDeCalculo(ops: seq<Op>, op: Op)
    requires op.Calcular? && LlaveDe(op).Some? && LlaveDe(op).value in Correr(ops).llaves
    ensures var b := Correr(ops); var f := b.llaves[LlaveDe(op).value];
      Paso(b, op).1 == Ok(f.resp)
      <==> f.liq == op.id && Visible(b, op.consorcio, op.id) && b.liqs[op.id].estado == Calculada
           && Registrados(op.gastos) != [] && op.ufs != []
  {
    AlcanzableValida(ops);
    var b := Correr(ops);
    var f := b.llaves[LlaveDe(op).value];
    assert f.resp.Dto? && f.resp.id == f.liq;
    assert f.liq < |b.liqs| && b.liqs[f.liq].estado != Borrador;
    assert Sellar(b.llaves, AmbitoCalcular, op.key, op.id) == if f.liq == op.id then Repite(f.resp) else Choca;
  }

  // ---------- Due dates ----------

  predicate Vence(l: Liq, v1: Fecha, v2: Option<Fecha>) {
    l.venc1 == v1 && l.venc2 == v2
  }

  /** Success says nothing by itself: the dates asked for are there exactly when they were before or the
      settlement is a draft of that building at that version; otherwise nothing changed. */
  lemma VencimientosSi(b: Base, consorcio: nat, id: nat, v1: Fecha, v2: Option<Fecha>, version: int)
    requires VencimientosPaso(b, consorcio, id, v1, v2, version).1.Ok? && id < |b.liqs|
    ensures var b' := VencimientosPaso(b, consorcio, id, v1, v2, version).0;
      var acierta := Visible(b, consorcio, id) && b.liqs[id].estado == Borrador && b.liqs[id].version == version;
      && |b'.liqs| == |b.liqs|
      && (Vence(b'.liqs[id], v1, v2) <==> Vence(b.liqs[id], v1, v2) || acierta)
      && (!acierta ==> b' == b)
      && b' == b.(liqs := b.liqs[id := b.liqs[id].(venc1 := b'.liqs[id].venc1, venc2 := b'.liqs[id].venc2)])
  {
    assert b.liqs[id := b.liqs[id]] == b.liqs;
  }

  // ---------- The account statement and the ledger ----------

  /** GetCuentaCorriente's debit side: the total of every charge of the unit. */
  function ExtractoDe(cs: seq<Cargo>, u: nat): int {
    if cs == [] then 0
    else ExtractoDe(cs[..|cs| - 1], u) + if cs[|cs| - 1].unidad == u then cs[|cs| - 1].total else 0
  }

  /** The balance ADR-0004 defines: SUM(debit - credit) over the unit's entries. */
  function LibroDe(es: seq<Asiento>, u: nat): int {
    if es == [] then 0
    else LibroDe(es[..|es| - 1], u) + if es[|es| - 1].unidad == u then es[|es| - 1].debe - es[|es| - 1].haber else 0
  }

  function MovimientosDe(cs: seq<Cargo>, es: seq<Asiento>, u: nat, n: nat): int
    requires n <= |cs|
  {
    if n == 0 then 0
    else MovimientosDe(cs, es, u, n - 1) + if cs[n - 1].unidad == u then Movimientos(es, n - 1) else 0
  }

  function RevertidoDe(cs: seq<Cargo>, u: nat): int {
    if cs == [] then 0
    else RevertidoDe(cs[..|cs| - 1], u)
         + if cs[|cs| - 1].unidad == u && cs[|cs| - 1].saldo == 0 then cs[|cs| - 1].total else 0
  }

  lemma {:induction false} MovimientosDeUnoMas(cs: seq<Cargo>, es: seq<Asiento>, u: nat, n: nat)
    requires n <= |cs| && es != [] && es[|es| - 1].cargo < |cs|
    requires es[|es| - 1].unidad == cs[es[|es| - 1].cargo].unidad
    ensures var e := es[|es| - 1];
      MovimientosDe(cs, es, u, n) == MovimientosDe(cs, es[..|es| - 1], u, n)
        + if e.cargo < n && e.unidad == u then e.debe - e.haber else 0
  {
    if n > 0 {
      MovimientosDeUnoMas(cs, es, u, n - 1);
    }
  }

  lemma {:induction false} SinMovimientosDe(cs: seq<Cargo>, u: nat, n: nat)
    requires n <= |cs|
    ensures MovimientosDe(cs, [], u, n) == 0
  {
    if n > 0 {
      SinMovimientosDe(cs, u, n - 1);
    }
  }

  lemma {:induction false} LibroPorCargos(cs: seq<Cargo>, es: seq<Asiento>, u: nat)
    requires forall i | 0 <= i < |es| :: es[i].cargo < |cs| && es[i].unidad == cs[es[i].cargo].unidad
    ensures LibroDe(es, u) == MovimientosDe(cs, es, u, |cs|)
  {
    if es == [] {
      SinMovimientosDe(cs, u, |cs|);
    } else {
      LibroPorCargos(cs, es[..|es| - 1], u);
      MovimientosDeUnoMas(cs, es, u, |cs|);
    }
  }

  lemma {:induction false} ExtractoMenosRevertido(b: Base, u: nat, n: nat)
    requires n <= |b.cargos| && forall k | 0 <= k < n :: CargoOk(b, k)
    ensures MovimientosDe(b.cargos, b.asientos, u, n) == ExtractoDe(b.cargos[..n], u) - RevertidoDe(b.cargos[..n], u)
    ensures RevertidoDe(b.cargos[..n], u) >= 0
    ensures RevertidoDe(b.cargos[..n], u) == 0 <==> forall k | 0 <= k < n && b.cargos[k].unidad == u :: b.cargos[k].saldo != 0
  {
    if n > 0 {
      assert b.cargos[..n][..n - 1] == b.cargos[..n - 1];
      assert CargoOk(b, n - 1);
      ExtractoMenosRevertido(b, u, n - 1);
    }
  }

  /** The statement shown for a unit counts every charge and no reversal, so it exceeds the ledger by
      what was reversed: before any payment the two agree exactly when none of the unit's charges was. */
  lemma ExtractoYLibro(ops: seq<Op>, u: nat)
    ensures var b := Correr(ops);
      && LibroDe(b.asientos, u) == ExtractoDe(b.cargos, u) - RevertidoDe(b.cargos, u)
      && (LibroDe(b.asientos, u) == ExtractoDe(b.cargos, u)
          <==> forall k | 0 <= k < |b.cargos| && b.cargos[k].unidad == u :: Reversas(b.asientos, k) == 0)
  {
    AlcanzableValida(ops);
    var b := Correr(ops);
    LibroPorCargos(b.cargos, b.asientos, u);
    ExtractoMenosRevertido(b, u, |b.cargos|);
    assert b.cargos[..|b.cargos|] == b.cargos;
    forall k | 0 <= k < |b.cargos| && b.cargos[k].unidad == u
      ensures Reversas(b.asientos, k) == 0 <==> b.cargos[k].saldo != 0
    {
      assert CargoOk(b, k);
    }
  }
}
