/** How far a unit's share can be from its exact proportion, with exact rounding. */
module Equidad {
  import opened Distribucion

  /** Half away from zero, as math.Round. */
  function Redondear(x: real): int {
    if x >= 0.0 then (x + 0.5).Floor else -(-x + 0.5).Floor
  }

  function Exacto(importe: int, coef: real, total: real): real {
    if total == 0.0 then 0.0 else importe as real * (coef / total)
  }

  function RedondeoExacto(importe: int, coef: real, total: real): int {
    Redondear(Exacto(importe, coef, total))
  }

  /** How many of the first `i` units take part. */
  function Positivas(ufs: seq<UF>, i: nat): nat
    requires i <= |ufs|
  {
    if i == 0 then 0 else Positivas(ufs, i - 1) + if ufs[i - 1].coef > 0.0 then 1 else 0
  }

  function Proporcion(ufs: seq<UF>, importe: int, i: nat): real
    requires i < |ufs|
  {
    Exacto(importe, ufs[i].coef, SumaCoef(ufs))
  }

  /** What the units from `i` on are exactly owed. */
  function Pendiente(ufs: seq<UF>, importe: int, i: nat): real
    requires i <= |ufs|
    decreases |ufs| - i
  {
    if i == |ufs| then 0.0 else Proporcion(ufs, importe, i) + Pendiente(ufs, importe, i + 1)
  }

  ghost predicate NoNegativos(ufs: seq<UF>) {
    forall i | 0 <= i < |ufs| :: ufs[i].coef >= 0.0
  }

  lemma RedondearCerca(x: real)
    ensures x - 0.5 <= Redondear(x) as real <= x + 0.5
    ensures x >= 0.0 ==> Redondear(x) >= 0
  {
  }

  lemma ProporcionNoNegativa(ufs: seq<UF>, importe: int, i: nat)
    requires NoNegativos(ufs) && importe >= 0 && i < |ufs| && SumaCoef(ufs) > 0.0
    ensures Proporcion(ufs, importe, i) >= 0.0
    ensures ufs[i].coef == 0.0 ==> Proporcion(ufs, importe, i) == 0.0
  {
    var q := ufs[i].coef / SumaCoef(ufs);
    assert q >= 0.0;
    ProductoNoNegativo(importe as real, q);
  }

  lemma ProductoNoNegativo(a: real, b: real)
    requires a >= 0.0 && b >= 0.0
    ensures a * b >= 0.0
  {
  }

  lemma {:induction false} PendienteNoNegativo(ufs: seq<UF>, importe: int, i: nat)
    requires NoNegativos(ufs) && importe >= 0 && i <= |ufs| && SumaCoef(ufs) > 0.0
    ensures Pendiente(ufs, importe, i) >= 0.0
    decreases |ufs| - i
  {
    if i < |ufs| {
      ProporcionNoNegativa(ufs, importe, i);
      PendienteNoNegativo(ufs, importe, i + 1);
    }
  }

  /** Adding a unit's exact proportion to those of the units after it. */
  lemma UnaProporcionMas(importe: real, c: real, s: real, t: real)
    requires t > 0.0
    ensures importe * (c / t) + importe * ((t - (s + c)) / t) == importe * ((t - s) / t)
  {
    var x, y := c / t, (t - (s + c)) / t;
    assert x + y == (t - s) / t;
    Distribuye(importe, x, y);
  }

  lemma Distribuye(a: real, b: real, c: real)
    ensures a * b + a * c == a * (b + c)
  {
  }

  /** The exact proportions of the units from `i` on, over their coefficients. */
  lemma {:induction false} PendienteEsResto(ufs: seq<UF>, importe: int, i: nat)
    requires i <= |ufs| && SumaCoef(ufs) > 0.0
    ensures Pendiente(ufs, importe, i) == importe as real * ((SumaCoef(ufs) - SumaCoef(ufs[..i])) / SumaCoef(ufs))
    decreases |ufs| - i
  {
    if i == |ufs| {
      assert ufs[..i] == ufs;
    } else {
      PendienteEsResto(ufs, importe, i + 1);
      assert ufs[..i + 1][..i] == ufs[..i];
      UnaProporcionMas(importe as real, ufs[i].coef, SumaCoef(ufs[..i]), SumaCoef(ufs));
    }
  }

  lemma PendienteInicial(ufs: seq<UF>, importe: int)
    requires SumaCoef(ufs) > 0.0
    ensures Pendiente(ufs, importe, 0) == importe as real
  {
    PendienteEsResto(ufs, importe, 0);
    assert SumaCoef(ufs[..0]) == 0.0;
    assert SumaCoef(ufs) / SumaCoef(ufs) == 1.0;
  }

  /** One unit's turn: it takes its rounding, or everything that is left. */
  lemma Turno(ufs: seq<UF>, importe: int, i: nat)
    requires NoNegativos(ufs) && importe >= 0 && i < |ufs| && SumaCoef(ufs) > 0.0
    ensures var e := Proporcion(ufs, importe, i);
      var q := Cuota(ufs, RedondeoExacto, importe, i);
      var r := Resto(ufs, RedondeoExacto, importe, i);
      && Resto(ufs, RedondeoExacto, importe, i + 1) == r - q
      && 0 <= q <= r
      && q as real <= e + 0.5
      && (q as real >= e - 0.5 || q == r)
      && (ufs[i].coef == 0.0 ==> q == 0 && e == 0.0)
  {
    ProporcionNoNegativa(ufs, importe, i);
    RedondearCerca(Proporcion(ufs, importe, i));
    RestoAcotado(ufs, RedondeoExacto, importe, i);
  }

  /** Through the whole loop what is left stays within half a cent per unit served of what is owed. */
  lemma {:induction false} RestoCerca(ufs: seq<UF>, importe: int, i: nat)
    requires NoNegativos(ufs) && importe >= 0 && i <= |ufs| && SumaCoef(ufs) > 0.0
    ensures var d := Resto(ufs, RedondeoExacto, importe, i) as real - Pendiente(ufs, importe, i);
      -(Positivas(ufs, i) as real) / 2.0 <= d <= Positivas(ufs, i) as real / 2.0
  {
    if i == 0 {
      PendienteInicial(ufs, importe);
    } else {
      RestoCerca(ufs, importe, i - 1);
      Turno(ufs, importe, i - 1);
      PendienteNoNegativo(ufs, importe, i);
    }
  }

  lemma {:induction false} PositivasCrece(ufs: seq<UF>, i: nat, j: nat)
    requires i <= j <= |ufs|
    ensures Positivas(ufs, i) <= Positivas(ufs, j)
    ensures Positivas(ufs, j) == Positivas(ufs, i) && NoNegativos(ufs) ==> forall k | i <= k < j :: ufs[k].coef == 0.0
    decreases j - i
  {
    if i < j {
      PositivasCrece(ufs, i, j - 1);
    }
  }

  lemma {:induction false} PendienteSinPositivas(ufs: seq<UF>, importe: int, i: nat)
    requires NoNegativos(ufs) && importe >= 0 && i <= |ufs| && SumaCoef(ufs) > 0.0
    requires forall k | i <= k < |ufs| :: ufs[k].coef == 0.0
    ensures Pendiente(ufs, importe, i) == 0.0
    decreases |ufs| - i
  {
    if i < |ufs| {
      ProporcionNoNegativa(ufs, importe, i);
      PendienteSinPositivas(ufs, importe, i + 1);
    }
  }

  lemma {:induction false} AntesDeLaPrimera(ufs: seq<UF>, importe: int, p: nat, i: nat)
    requires NoNegativos(ufs) && importe >= 0 && SumaCoef(ufs) > 0.0 && EsPrimera(ufs, p) && i <= p
    ensures Resto(ufs, RedondeoExacto, importe, i) == importe && Pendiente(ufs, importe, i) == importe as real
    ensures Positivas(ufs, i) == 0
  {
    if i == 0 {
      PendienteInicial(ufs, importe);
    } else {
      AntesDeLaPrimera(ufs, importe, p, i - 1);
      Turno(ufs, importe, i - 1);
    }
  }

  /** After the first unit, a positive remainder exceeds what is still owed by no more than the
      first unit's own rounding error and half a cent for each other unit served. */
  lemma {:induction false} RestoTrasLaPrimera(ufs: seq<UF>, importe: int, p: nat, i: nat)
    requires NoNegativos(ufs) && importe >= 0 && SumaCoef(ufs) > 0.0 && EsPrimera(ufs, p) && p < i <= |ufs|
    ensures var r := Resto(ufs, RedondeoExacto, importe, i) as real;
      var error := Proporcion(ufs, importe, p) - Cuota(ufs, RedondeoExacto, importe, p) as real;
      r == 0.0 || r <= Pendiente(ufs, importe, i) + error + (Positivas(ufs, i) as real - 1.0) / 2.0
    ensures Positivas(ufs, i) >= 1
  {
    Turno(ufs, importe, i - 1);
    if i == p + 1 {
      AntesDeLaPrimera(ufs, importe, p, p);
    } else {
      RestoTrasLaPrimera(ufs, importe, p, i - 1);
    }
  }

  /** Fairness. With m units taking part, nobody is charged more than (m-1)/2 cents below the exact
      proportion; only the first unit by code can be charged more than half a cent above it, and
      by no more than (m-1)/2. Clamping to what is left never breaks these bounds. */
  lemma {:induction false} EquidadDelReparto(ufs: seq<UF>, importe: int, i: nat)
    requires NoNegativos(ufs) && importe >= 0 && SumaCoef(ufs) > 0.0 && i < |ufs|
    ensures var m := Positivas(ufs, |ufs|) as real;
      var e := Proporcion(ufs, importe, i);
      var parte := Parte(ufs, RedondeoExacto, importe, i) as real;
      && m >= 1.0
      && e - (m - 1.0) / 2.0 <= parte
      && (EsPrimera(ufs, i) ==> parte <= e + (m - 1.0) / 2.0)
      && (!EsPrimera(ufs, i) ==> parte <= e + 0.5)
  {
    var n := |ufs|;
    var p := HayPrimera(ufs);
    Turno(ufs, importe, i);
    RestoTrasLaPrimera(ufs, importe, p, n);
    if ufs[i].coef > 0.0 {
      RestoCerca(ufs, importe, i);
      PendienteNoNegativo(ufs, importe, i + 1);
      PositivasCrece(ufs, i + 1, n);
      RestoAcotado(ufs, RedondeoExacto, importe, n);
      if Positivas(ufs, n) == 1 {
        LaUnica(ufs, importe, p, i);
      }
    }
  }

  /** A single unit with a coefficient owes, and pays, the whole amount. */
  lemma LaUnica(ufs: seq<UF>, importe: int, p: nat, i: nat)
    requires NoNegativos(ufs) && importe >= 0 && SumaCoef(ufs) > 0.0 && EsPrimera(ufs, p)
    requires i < |ufs| && ufs[i].coef > 0.0 && Positivas(ufs, |ufs|) == 1
    ensures i == p && Proporcion(ufs, importe, p) == importe as real
    ensures Parte(ufs, RedondeoExacto, importe, p) == importe
  {
    PositivasCrece(ufs, p + 1, |ufs|);
    AntesDeLaPrimera(ufs, importe, p, p);
    PendienteSinPositivas(ufs, importe, p + 1);
    Turno(ufs, importe, p);
    RestoTrasLaPrimera(ufs, importe, p, |ufs|);
    RestoAcotado(ufs, RedondeoExacto, importe, |ufs|);
  }
}
