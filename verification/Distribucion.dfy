/** How a settlement's amounts are shared among units (internal/expensas/calculo.go).
    This module is the meaning of a distribution; DistribucionMetodos holds the loops. */
module Distribucion {
  import opened Comun
  import opened Orden

  datatype Concepto = Concepto(id: string, regla: string, importe: int)

  datatype UF = UF(id: nat, codigo: string, coef: real)

  datatype UnidadItem = UnidadItem(conceptoId: string, importe: int)

  datatype Unidad = Unidad(id: nat, codigo: string, coef: real, total: int, items: seq<UnidadItem>)

  datatype Distribucion = Distribucion(
    items: seq<Concepto>,
    unidades: seq<Unidad>,
    totalGastos: int,
    totalDistribuido: int,
    diferencia: int,
    alcanzadas: nat,
    advertencias: seq<string>)

  datatype ErrorCalculo = CalculoVacio | SinUFs | SinCoeficiente

  /** Amount, coefficient and coefficient total to whole cents. Conservation holds for every
      such function, so in particular for float64 arithmetic. */
  type Redondeo = (int, real, real) -> int

  function SumaCoef(ufs: seq<UF>): real {
    if ufs == [] then 0.0 else SumaCoef(ufs[..|ufs| - 1]) + ufs[|ufs| - 1].coef
  }

  /** A rounded share, kept between zero and what is left. */
  function Recorte(r: int, resto: int): int {
    var p := if r < 0 then 0 else r;
    if p > resto then resto else p
  }

  /** What unit `i` takes before the residue is placed. */
  function Cuota(ufs: seq<UF>, red: Redondeo, importe: int, i: nat): int
    requires i < |ufs|
    decreases i, 1
  {
    if ufs[i].coef == 0.0 then 0
    else Recorte(red(importe, ufs[i].coef, SumaCoef(ufs)), Resto(ufs, red, importe, i))
  }

  /** What is left of the amount once the first `i` units have taken theirs. */
  function Resto(ufs: seq<UF>, red: Redondeo, importe: int, i: nat): int
    requires i <= |ufs|
    decreases i, 0
  {
    if i == 0 then importe else Resto(ufs, red, importe, i - 1) - Cuota(ufs, red, importe, i - 1)
  }

  /** The first unit, in code order, with a positive coefficient. */
  predicate EsPrimera(ufs: seq<UF>, i: nat)
  {
    i < |ufs| && ufs[i].coef > 0.0 && forall j | 0 <= j < i :: ufs[j].coef <= 0.0
  }

  /** Unit `i`'s final share of one amount: its rounded share, plus the residue if it is the first. */
  function Parte(ufs: seq<UF>, red: Redondeo, importe: int, i: nat): int
    requires i < |ufs|
  {
    var residuo := Resto(ufs, red, importe, |ufs|);
    Cuota(ufs, red, importe, i) + if EsPrimera(ufs, i) && residuo > 0 then residuo else 0
  }

  /** Every unit's share of one amount. */
  function Partes(ufs: seq<UF>, red: Redondeo, importe: int): seq<int> {
    seq(|ufs|, i requires 0 <= i < |ufs| => Parte(ufs, red, importe, i))
  }

  /** Unit `i`'s share of every concept. */
  function PartesDe(ufs: seq<UF>, red: Redondeo, cs: seq<Concepto>, i: nat): seq<int>
    requires i < |ufs|
  {
    seq(|cs|, j requires 0 <= j < |cs| => Parte(ufs, red, cs[j].importe, i))
  }

  /** Unit `i` after the concepts `cs`: one item per concept, none at coefficient zero. */
  function UnidadTras(ufs: seq<UF>, red: Redondeo, cs: seq<Concepto>, i: nat): Unidad
    requires i < |ufs|
  {
    Unidad(ufs[i].id, ufs[i].codigo, ufs[i].coef, Suma(PartesDe(ufs, red, cs, i)),
           if ufs[i].coef == 0.0 then []
           else seq(|cs|, j requires 0 <= j < |cs| => UnidadItem(cs[j].id, Parte(ufs, red, cs[j].importe, i))))
  }

  function Importes(cs: seq<Concepto>): seq<int> {
    seq(|cs|, j requires 0 <= j < |cs| => cs[j].importe)
  }

  function Totales(us: seq<Unidad>): seq<int> {
    seq(|us|, i requires 0 <= i < |us| => us[i].total)
  }

  function ImportesItems(items: seq<UnidadItem>): seq<int> {
    seq(|items|, i requires 0 <= i < |items| => items[i].importe)
  }

  function Alcanzadas(us: seq<Unidad>): nat {
    if us == [] then 0 else Alcanzadas(us[..|us| - 1]) + if us[|us| - 1].total > 0 then 1 else 0
  }

  function Advertencias(ufs: seq<UF>): seq<string> {
    if ufs == [] then []
    else
      var u := ufs[|ufs| - 1];
      Advertencias(ufs[..|ufs| - 1])
      + if u.coef == 0.0 then ["UF " + u.codigo + " tiene coeficiente 0, sin reparto"] else []
  }

  /** The whole result for units already in code order. */
  function Reparto(cs: seq<Concepto>, ufs: seq<UF>, red: Redondeo): Distribucion {
    var us := seq(|ufs|, i requires 0 <= i < |ufs| => UnidadTras(ufs, red, cs, i));
    var gastos := Suma(Importes(cs));
    var repartido := Suma(Totales(us));
    Distribucion(cs, us, gastos, repartido, gastos - repartido, Alcanzadas(us), Advertencias(ufs))
  }

  /** Sorted by code; equal codes may come in any order. */
  ghost predicate EnOrden(ufs: seq<UF>) {
    forall i, j | 0 <= i < j < |ufs| :: !Menor(ufs[j].codigo, ufs[i].codigo)
  }

  ghost predicate EsOrdenDe(orden: seq<UF>, ufs: seq<UF>) {
    EnOrden(orden) && multiset(orden) == multiset(ufs)
  }

  // ---------- Conservation, for every rounding function ----------

  lemma {:induction false} SinPositivos(ufs: seq<UF>)
    requires forall j | 0 <= j < |ufs| :: ufs[j].coef <= 0.0
    ensures SumaCoef(ufs) <= 0.0
  {
    if ufs != [] {
      SinPositivos(ufs[..|ufs| - 1]);
    }
  }

  /** A positive coefficient total means some unit can take the residue. */
  lemma {:induction false} HayPrimera(ufs: seq<UF>) returns (p: nat)
    requires SumaCoef(ufs) > 0.0 || exists j :: 0 <= j < |ufs| && ufs[j].coef > 0.0
    ensures EsPrimera(ufs, p)
  {
    if forall j | 0 <= j < |ufs| :: ufs[j].coef <= 0.0 {
      SinPositivos(ufs);
    }
    var n := |ufs| - 1;
    if exists j :: 0 <= j < n && ufs[j].coef > 0.0 {
      var j :| 0 <= j < n && ufs[j].coef > 0.0;
      assert ufs[..n][j].coef > 0.0;
      p := HayPrimera(ufs[..n]);
      assert forall j | 0 <= j < p :: ufs[j] == ufs[..n][j];
    } else {
      p := n;
    }
  }

  /** The remainder never leaves [0, importe], and a negative amount is spent by the first unit
      with a nonzero coefficient. */
  lemma {:induction false} RestoAcotado(ufs: seq<UF>, red: Redondeo, importe: int, i: nat)
    requires i <= |ufs|
    ensures importe >= 0 ==> 0 <= Resto(ufs, red, importe, i) <= importe
    ensures importe < 0 ==> importe <= Resto(ufs, red, importe, i) <= 0
    ensures importe < 0 && (exists j :: 0 <= j < i && ufs[j].coef > 0.0) ==> Resto(ufs, red, importe, i) == 0
  {
    if i > 0 {
      RestoAcotado(ufs, red, importe, i - 1);
    }
  }

  lemma {:induction false} SumaCuotas(ufs: seq<UF>, red: Redondeo, importe: int, i: nat)
    requires i <= |ufs|
    ensures Suma(seq(i, k requires 0 <= k < i => Cuota(ufs, red, importe, k))) == importe - Resto(ufs, red, importe, i)
  {
    var s := seq(i, k requires 0 <= k < i => Cuota(ufs, red, importe, k));
    if i > 0 {
      assert s[..i - 1] == seq(i - 1, k requires 0 <= k < i - 1 => Cuota(ufs, red, importe, k));
      SumaCuotas(ufs, red, importe, i - 1);
    }
  }

  /** No cent is lost or invented: whatever the rounding, the shares of an amount add up to it.
      It holds for any sign of the amount and of the coefficients, as long as their total is positive. */
  lemma {:induction false} ConservacionConcepto(ufs: seq<UF>, red: Redondeo, importe: int)
    requires SumaCoef(ufs) > 0.0
    ensures Suma(Partes(ufs, red, importe)) == importe
  {
    var n := |ufs|;
    var p := HayPrimera(ufs);
    var cuotas := seq(n, k requires 0 <= k < n => Cuota(ufs, red, importe, k));
    SumaCuotas(ufs, red, importe, n);
    RestoAcotado(ufs, red, importe, n);
    assert ufs[p].coef > 0.0;
    SumaCambio(cuotas, Partes(ufs, red, importe), p);
  }

  /** Nobody is charged a negative share, and a unit with coefficient zero pays nothing. */
  lemma {:induction false} PartesNoNegativas(ufs: seq<UF>, red: Redondeo, importe: int, i: nat)
    requires i < |ufs| && importe >= 0
    ensures Parte(ufs, red, importe, i) >= 0
    ensures ufs[i].coef == 0.0 ==> Parte(ufs, red, importe, i) == 0
  {
    RestoAcotado(ufs, red, importe, i);
    RestoAcotado(ufs, red, importe, |ufs|);
  }

  /** One more concept adds its part to what a unit owes. */
  lemma UnaParteMas(ufs: seq<UF>, red: Redondeo, cs: seq<Concepto>, i: nat)
    requires i < |ufs| && cs != []
    ensures var n := |cs| - 1;
      Suma(PartesDe(ufs, red, cs, i)) == Suma(PartesDe(ufs, red, cs[..n], i)) + Parte(ufs, red, cs[n].importe, i)
  {
    assert PartesDe(ufs, red, cs, i)[..|cs| - 1] == PartesDe(ufs, red, cs[..|cs| - 1], i);
  }

  /** Adding by units or by concepts gives the same: both orders of the double sum. */
  lemma {:induction false} SumaDoble(cs: seq<Concepto>, ufs: seq<UF>, red: Redondeo)
    requires SumaCoef(ufs) > 0.0
    ensures Suma(Totales(Reparto(cs, ufs, red).unidades)) == Suma(Importes(cs))
  {
    var n := |ufs|;
    var t := Totales(Reparto(cs, ufs, red).unidades);
    if cs == [] {
      assert t == seq(n, i requires 0 <= i < n => 0);
      SumaCeros(n);
    } else {
      var c, pre := cs[|cs| - 1], cs[..|cs| - 1];
      var t0, ps := Totales(Reparto(pre, ufs, red).unidades), Partes(ufs, red, c.importe);
      SumaDoble(pre, ufs, red);
      ConservacionConcepto(ufs, red, c.importe);
      forall i | 0 <= i < n ensures t[i] == t0[i] + ps[i] {
        UnaParteMas(ufs, red, cs, i);
      }
      SumaPunto(t0, ps, t);
      assert Importes(cs)[..|cs| - 1] == Importes(pre);
    }
  }

  lemma {:induction false} SumaCeros(n: nat)
    ensures Suma(seq(n, i requires 0 <= i < n => 0)) == 0
  {
    if n > 0 {
      assert seq(n, i requires 0 <= i < n => 0)[..n - 1] == seq(n - 1, i requires 0 <= i < n - 1 => 0);
      SumaCeros(n - 1);
    }
  }

  lemma {:induction false} SumaPunto(a: seq<int>, b: seq<int>, c: seq<int>)
    requires |a| == |b| == |c|
    requires forall i | 0 <= i < |a| :: c[i] == a[i] + b[i]
    ensures Suma(c) == Suma(a) + Suma(b)
  {
    if a != [] {
      SumaPunto(a[..|a| - 1], b[..|a| - 1], c[..|a| - 1]);
    }
  }

  /** The invariant the preview promises: everything spent is shared out, concept by concept and
      unit by unit, so the reported difference is zero. */
  lemma {:induction false} Conservacion(cs: seq<Concepto>, ufs: seq<UF>, red: Redondeo)
    requires SumaCoef(ufs) > 0.0
    ensures var d := Reparto(cs, ufs, red);
      && d.totalDistribuido == d.totalGastos && d.diferencia == 0
      && (forall i | 0 <= i < |ufs| :: d.unidades[i].total == Suma(ImportesItems(d.unidades[i].items)))
      && (forall j | 0 <= j < |cs| :: Suma(Partes(ufs, red, cs[j].importe)) == cs[j].importe)
      && (forall i, j | 0 <= i < |ufs| && 0 <= j < |d.unidades[i].items| ::
            |d.unidades[i].items| == |cs|
            && d.unidades[i].items[j] == UnidadItem(cs[j].id, Partes(ufs, red, cs[j].importe)[i]))
  {
    SumaDoble(cs, ufs, red);
    var d := Reparto(cs, ufs, red);
    forall j | 0 <= j < |cs| ensures Suma(Partes(ufs, red, cs[j].importe)) == cs[j].importe {
      ConservacionConcepto(ufs, red, cs[j].importe);
    }
    forall i | 0 <= i < |ufs| ensures d.unidades[i].total == Suma(ImportesItems(d.unidades[i].items)) {
      if ufs[i].coef == 0.0 {
        assert PartesDe(ufs, red, cs, i) == seq(|cs|, j requires 0 <= j < |cs| => 0);
        SumaCeros(|cs|);
      } else {
        assert ImportesItems(d.unidades[i].items) == PartesDe(ufs, red, cs, i);
      }
    }
  }

  // ---------- The total does not depend on the order ----------

  lemma {:induction false} SumaCoefConcat(a: seq<UF>, b: seq<UF>)
    ensures SumaCoef(a + b) == SumaCoef(a) + SumaCoef(b)
  {
    if b == [] {
      assert a + b == a;
    } else {
      assert (a + b)[..|a + b| - 1] == a + b[..|b| - 1];
      SumaCoefConcat(a, b[..|b| - 1]);
    }
  }

  lemma SumaCoefUnaMas(b: seq<UF>, i: nat)
    requires i < |b|
    ensures SumaCoef(b[..i + 1]) == SumaCoef(b[..i]) + b[i].coef
  {
    assert b[..i + 1][..i] == b[..i];
  }

  lemma SumaCoefSin(b: seq<UF>, i: nat)
    requires i < |b|
    ensures SumaCoef(b) == SumaCoef(b[..i] + b[i + 1..]) + b[i].coef
  {
    SumaCoefConcat(b[..i], b[i + 1..]);
    SumaCoefConcat(b[..i + 1], b[i + 1..]);
    SumaCoefUnaMas(b, i);
    Partir(b, i + 1);
  }

  lemma ContenidoSin(b: seq<UF>, i: nat)
    requires i < |b|
    ensures multiset(b[..i] + b[i + 1..]) == multiset(b) - multiset{b[i]}
  {
    assert b == b[..i] + [b[i]] + b[i + 1..];
  }

  lemma {:induction false} SumaCoefPermutada(a: seq<UF>, b: seq<UF>)
    requires multiset(a) == multiset(b)
    ensures SumaCoef(a) == SumaCoef(b)
  {
    assert |a| == |multiset(a)| == |multiset(b)| == |b|;
    if a != [] {
      var n := |a| - 1;
      assert a[n] in multiset(b);
      var i :| 0 <= i < |b| && b[i] == a[n];
      SumaCoefSin(b, i);
      ContenidoSin(a, n);
      ContenidoSin(b, i);
      assert a[..n] + a[n + 1..] == a[..n];
      SumaCoefPermutada(a[..n], b[..i] + b[i + 1..]);
    }
  }
}
