/** Bills grouped by concept (agruparConceptos in internal/expensas/transiciones.go). */
module Agrupacion {
  import opened Comun
  import opened Distribucion

  datatype Gasto = Gasto(id: nat, conceptoId: string, importe: int, estado: string)

  function ImportesGastos(gs: seq<Gasto>): seq<int> {
    seq(|gs|, i requires 0 <= i < |gs| => gs[i].importe)
  }

  /** The concepts billed, each once, as they first appear. */
  function ConceptosEn(gs: seq<Gasto>): seq<string> {
    if gs == [] then []
    else
      var previos := ConceptosEn(gs[..|gs| - 1]);
      var c := gs[|gs| - 1].conceptoId;
      if c in previos then previos else previos + [c]
  }

  function ImporteDe(gs: seq<Gasto>, c: string): int {
    if gs == [] then 0
    else ImporteDe(gs[..|gs| - 1], c) + if gs[|gs| - 1].conceptoId == c then gs[|gs| - 1].importe else 0
  }

  function Agrupados(gs: seq<Gasto>): seq<Concepto> {
    var cs := ConceptosEn(gs);
    seq(|cs|, i requires 0 <= i < |cs| => Concepto(cs[i], "coeficiente", ImporteDe(gs, cs[i])))
  }

  ghost predicate PrimeraVez(gs: seq<Gasto>, c: string, k: nat) {
    k < |gs| && gs[k].conceptoId == c && forall j | 0 <= j < k :: gs[j].conceptoId != c
  }

  lemma {:induction false} ConceptosSinRepetir(gs: seq<Gasto>)
    ensures forall i, j | 0 <= i < j < |ConceptosEn(gs)| :: ConceptosEn(gs)[i] != ConceptosEn(gs)[j]
    ensures forall k | 0 <= k < |gs| :: gs[k].conceptoId in ConceptosEn(gs)
    ensures forall c :: c in ConceptosEn(gs) ==> exists k :: 0 <= k < |gs| && gs[k].conceptoId == c
  {
    if gs != [] {
      var pre := gs[..|gs| - 1];
      ConceptosSinRepetir(pre);
      forall c | c in ConceptosEn(gs) ensures exists k :: 0 <= k < |gs| && gs[k].conceptoId == c {
        if c in ConceptosEn(pre) {
          var k :| 0 <= k < |pre| && pre[k].conceptoId == c;
          assert gs[k].conceptoId == c;
        } else {
          assert gs[|gs| - 1].conceptoId == c;
        }
      }
    }
  }

  /** The concepts come in the order of their first bill. */
  lemma {:induction false} OrdenDeAparicion(gs: seq<Gasto>, i: nat, j: nat, ki: nat, kj: nat)
    requires i < j < |ConceptosEn(gs)|
    requires PrimeraVez(gs, ConceptosEn(gs)[i], ki) && PrimeraVez(gs, ConceptosEn(gs)[j], kj)
    ensures ki < kj
  {
    var pre := gs[..|gs| - 1];
    ConceptosSinRepetir(pre);
    ConceptosSinRepetir(gs);
    if j < |ConceptosEn(pre)| {
      var x :| 0 <= x < |pre| && pre[x].conceptoId == ConceptosEn(gs)[i];
      var y :| 0 <= y < |pre| && pre[y].conceptoId == ConceptosEn(gs)[j];
      assert gs[x].conceptoId == ConceptosEn(gs)[i] && gs[y].conceptoId == ConceptosEn(gs)[j];
      assert PrimeraVez(pre, ConceptosEn(pre)[i], ki) && PrimeraVez(pre, ConceptosEn(pre)[j], kj);
      OrdenDeAparicion(pre, i, j, ki, kj);
    } else {
      var x :| 0 <= x < |pre| && pre[x].conceptoId == ConceptosEn(gs)[i];
      assert gs[x].conceptoId == ConceptosEn(gs)[i];
      assert forall k | 0 <= k < |pre| :: pre[k].conceptoId in ConceptosEn(pre) && pre[k] == gs[k];
    }
  }

  lemma {:induction false} ImporteDeAjeno(gs: seq<Gasto>, c: string)
    requires c !in ConceptosEn(gs)
    ensures ImporteDe(gs, c) == 0
  {
    if gs != [] {
      ConceptosSinRepetir(gs);
      ImporteDeAjeno(gs[..|gs| - 1], c);
    }
  }

  lemma ImportesUnoMas(pre: seq<Gasto>, g: Gasto)
    ensures Suma(Importes(Agrupados(pre + [g]))) == Suma(Importes(Agrupados(pre))) + g.importe
  {
    var antes, ahora := Importes(Agrupados(pre)), Importes(Agrupados(pre + [g]));
    AgruparUnoMas(pre, g);
    ConceptosSinRepetir(pre);
    if g.conceptoId in ConceptosEn(pre) {
      var k :| 0 <= k < |antes| && ConceptosEn(pre)[k] == g.conceptoId;
      SumaCambio(antes, ahora, k);
    } else {
      assert ahora == antes + [g.importe];
    }
  }

  /** Grouping keeps every cent. */
  lemma {:induction false} AgruparConserva(gs: seq<Gasto>)
    ensures Suma(Importes(Agrupados(gs))) == Suma(ImportesGastos(gs))
  {
    if gs != [] {
      var n := |gs| - 1;
      AgruparConserva(gs[..n]);
      ImportesUnoMas(gs[..n], gs[n]);
      assert gs[..n] + [gs[n]] == gs;
      assert ImportesGastos(gs)[..n] == ImportesGastos(gs[..n]);
    }
  }

  /** What the distribution receives: distinct concepts, in order of appearance, that add up to the bills. */
  lemma AgrupadosCorrectos(gs: seq<Gasto>)
    ensures var cs := Agrupados(gs);
      && Suma(Importes(cs)) == Suma(ImportesGastos(gs))
      && (forall i, j | 0 <= i < j < |cs| :: cs[i].id != cs[j].id)
      && (forall i | 0 <= i < |cs| :: cs[i].importe == ImporteDe(gs, cs[i].id))
      && (forall i, j, ki, kj | 0 <= i < j < |cs| && PrimeraVez(gs, cs[i].id, ki) && PrimeraVez(gs, cs[j].id, kj) :: ki < kj)
      && (forall k | 0 <= k < |gs| :: exists i :: 0 <= i < |cs| && cs[i].id == gs[k].conceptoId)
  {
    AgruparConserva(gs);
    ConceptosSinRepetir(gs);
    var cs := Agrupados(gs);
    forall i, j, ki, kj | 0 <= i < j < |cs| && PrimeraVez(gs, cs[i].id, ki) && PrimeraVez(gs, cs[j].id, kj)
      ensures ki < kj
    {
      OrdenDeAparicion(gs, i, j, ki, kj);
    }
    forall k | 0 <= k < |gs| ensures exists i :: 0 <= i < |cs| && cs[i].id == gs[k].conceptoId {
      var i :| 0 <= i < |ConceptosEn(gs)| && ConceptosEn(gs)[i] == gs[k].conceptoId;
      assert cs[i].id == gs[k].conceptoId;
    }
  }

  /** One more bill either adds to its concept's amount or opens a new concept at the end. */
  lemma AgruparUnoMas(antes: seq<Gasto>, g: Gasto)
    ensures g.conceptoId !in ConceptosEn(antes) ==>
      Agrupados(antes + [g]) == Agrupados(antes) + [Concepto(g.conceptoId, "coeficiente", g.importe)]
    ensures forall i | 0 <= i < |Agrupados(antes)| && Agrupados(antes)[i].id == g.conceptoId ::
      Agrupados(antes + [g]) == Agrupados(antes)[i := Agrupados(antes)[i].(importe := Agrupados(antes)[i].importe + g.importe)]
  {
    assert (antes + [g])[..|antes|] == antes;
    ConceptosSinRepetir(antes);
    if g.conceptoId !in ConceptosEn(antes) {
      ImporteDeAjeno(antes, g.conceptoId);
    }
  }

  /** The map knows exactly the concepts in the output, and where each is. */
  ghost predicate IndiceOk(idx: map<string, nat>, out: seq<Concepto>) {
    && (forall c | c in idx :: idx[c] < |out| && out[idx[c]].id == c)
    && (forall i | 0 <= i < |out| :: out[i].id in idx)
  }

  lemma ConceptoNuevo(gs: seq<Gasto>, c: string)
    requires forall i | 0 <= i < |Agrupados(gs)| :: Agrupados(gs)[i].id != c
    ensures c !in ConceptosEn(gs)
  {
    assert forall i | 0 <= i < |ConceptosEn(gs)| :: ConceptosEn(gs)[i] == Agrupados(gs)[i].id;
  }

  /** agruparConceptos: one pass, with a map from concept to its place in the output. */
  method AgruparConceptos(gastos: seq<Gasto>) returns (out: seq<Concepto>)
    ensures out == Agrupados(gastos)
  {
    out := [];
    var idx: map<string, nat> := map[];
    for k := 0 to |gastos|
      invariant out == Agrupados(gastos[..k])
      invariant IndiceOk(idx, out)
    {
      var g := gastos[k];
      AgruparUnoMas(gastos[..k], g);
      assert gastos[..k + 1] == gastos[..k] + [g];
      if g.conceptoId in idx {
        var i := idx[g.conceptoId];
        out := out[i := out[i].(importe := out[i].importe + g.importe)];
      } else {
        ConceptoNuevo(gastos[..k], g.conceptoId);
        idx := idx[g.conceptoId := |out|];
        out := out + [Concepto(g.conceptoId, "coeficiente", g.importe)];
      }
    }
    assert gastos[..|gastos|] == gastos;
  }
}
