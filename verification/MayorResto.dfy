/** The rounding rule docs/adr/0006-rounding.md promises, largest remainder with ties by code, against what
    the loop of internal/expensas/calculo.go does: exactly when they agree, with exact rounding. */
module MayorResto {
  import opened Comun
  import opened Distribucion
  import opened Equidad

  function Fraccion(ufs: seq<UF>, importe: int, i: nat): real
    requires i < |ufs|
  {
    Proporcion(ufs, importe, i) - Proporcion(ufs, importe, i).Floor as real
  }

  /** Unit `i` comes before `j` for a spare cent: larger fraction, then lower code. */
  predicate Precede(ufs: seq<UF>, importe: int, i: nat, j: nat)
    requires i < |ufs| && j < |ufs|
  {
    Fraccion(ufs, importe, i) > Fraccion(ufs, importe, j) || (Fraccion(ufs, importe, i) == Fraccion(ufs, importe, j) && i < j)
  }

  /** Largest remainder: everyone owes the whole cents of the exact proportion, and the cents left over go
      one each to those who come first. */
  ghost predicate EsMayorResto(ufs: seq<UF>, importe: int, partes: seq<int>) {
    && |partes| == |ufs| && Suma(partes) == importe
    && (forall i | 0 <= i < |ufs| && ufs[i].coef == 0.0 :: partes[i] == 0)
    && (forall i | 0 <= i < |ufs| && ufs[i].coef > 0.0 ::
          var piso := Proporcion(ufs, importe, i).Floor; partes[i] == piso || partes[i] == piso + 1)
    && (forall i, j | 0 <= i < |ufs| && 0 <= j < |ufs| && ufs[i].coef > 0.0 && ufs[j].coef > 0.0
          && partes[i] > Proporcion(ufs, importe, i).Floor && partes[j] == Proporcion(ufs, importe, j).Floor ::
          Precede(ufs, importe, i, j))
  }

  lemma {:induction false} SumaMayor(a: seq<int>, b: seq<int>, k: nat)
    requires |a| == |b| && k < |a| && a[k] > b[k] && forall i | 0 <= i < |a| :: a[i] >= b[i]
    ensures Suma(a) > Suma(b)
  {
    var n := |a| - 1;
    if k < n {
      SumaMayor(a[..n], b[..n], k);
    } else {
      SumaNoMenor(a[..n], b[..n]);
    }
  }

  lemma {:induction false} SumaNoMenor(a: seq<int>, b: seq<int>)
    requires |a| == |b| && forall i | 0 <= i < |a| :: a[i] >= b[i]
    ensures Suma(a) >= Suma(b)
  {
    if a != [] {
      SumaNoMenor(a[..|a| - 1], b[..|a| - 1]);
    }
  }

  lemma NoSeCruzan(ufs: seq<UF>, importe: int, a: seq<int>, b: seq<int>, i: nat, j: nat)
    requires NoNegativos(ufs) && EsMayorResto(ufs, importe, a) && EsMayorResto(ufs, importe, b)
    requires i < |ufs| && j < |ufs| && a[i] > b[i]
    ensures a[j] >= b[j]
  {
    assert Precede(ufs, importe, i, j) ==> !Precede(ufs, importe, j, i);
  }

  lemma NingunoDeMas(ufs: seq<UF>, importe: int, a: seq<int>, b: seq<int>, i: nat)
    requires NoNegativos(ufs) && EsMayorResto(ufs, importe, a) && EsMayorResto(ufs, importe, b)
    requires i < |ufs|
    ensures a[i] <= b[i]
  {
    if a[i] > b[i] {
      forall j | 0 <= j < |ufs| ensures a[j] >= b[j] {
        NoSeCruzan(ufs, importe, a, b, i, j);
      }
      SumaMayor(a, b, i);
    }
  }

  /** The rule leaves no choice. */
  lemma MayorRestoUnico(ufs: seq<UF>, importe: int, a: seq<int>, b: seq<int>)
    requires NoNegativos(ufs) && EsMayorResto(ufs, importe, a) && EsMayorResto(ufs, importe, b)
    ensures a == b
  {
    forall i | 0 <= i < |ufs| ensures a[i] == b[i] {
      NingunoDeMas(ufs, importe, a, b, i);
      NingunoDeMas(ufs, importe, b, a, i);
    }
  }

  // ---------- What the loop does ----------

  /** Unit `i`'s own rounding, before it is cut to what is left. */
  function Redondeada(ufs: seq<UF>, importe: int, i: nat): int
    requires i < |ufs|
  {
    if ufs[i].coef == 0.0 then 0 else RedondeoExacto(importe, ufs[i].coef, SumaCoef(ufs))
  }

  function SumaRedondeadas(ufs: seq<UF>, importe: int, i: nat): int
    requires i <= |ufs|
  {
    if i == 0 then 0 else SumaRedondeadas(ufs, importe, i - 1) + Redondeada(ufs, importe, i - 1)
  }

  /** Cents missing once everyone is rounded; negative when there are too many. */
  function Faltante(ufs: seq<UF>, importe: int): int {
    importe - SumaRedondeadas(ufs, importe, |ufs|)
  }

  /** What is left when unit `i` is served, from the roundings alone. */
  function Queda(ufs: seq<UF>, importe: int, i: nat): int
    requires i <= |ufs|
  {
    var r := importe - SumaRedondeadas(ufs, importe, i);
    if r < 0 then 0 else r
  }

  /** The guard `rounded > remain`. */
  predicate Recortada(ufs: seq<UF>, importe: int, i: nat)
    requires i < |ufs|
  {
    Redondeada(ufs, importe, i) > Queda(ufs, importe, i)
  }

  predicate HaciaArriba(ufs: seq<UF>, importe: int, i: nat)
    requires i < |ufs|
  {
    Fraccion(ufs, importe, i) >= 0.5
  }

  ghost predicate Reparte(ufs: seq<UF>, importe: int) {
    NoNegativos(ufs) && importe >= 0 && SumaCoef(ufs) > 0.0
  }

  lemma RedondeadaEs(ufs: seq<UF>, importe: int, i: nat)
    requires Reparte(ufs, importe) && i < |ufs|
    ensures var piso := Proporcion(ufs, importe, i).Floor;
      && Redondeada(ufs, importe, i) == (if HaciaArriba(ufs, importe, i) then piso + 1 else piso)
      && piso >= 0
      && (ufs[i].coef == 0.0 ==> Redondeada(ufs, importe, i) == 0)
  {
    ProporcionNoNegativa(ufs, importe, i);
  }

  lemma {:induction false} RestoEsQueda(ufs: seq<UF>, importe: int, i: nat)
    requires Reparte(ufs, importe) && i <= |ufs|
    ensures Resto(ufs, RedondeoExacto, importe, i) == Queda(ufs, importe, i)
  {
    if i > 0 {
      RestoEsQueda(ufs, importe, i - 1);
      RedondeadaEs(ufs, importe, i - 1);
    }
  }

  lemma {:induction false} SumaRedondeadasCrece(ufs: seq<UF>, importe: int, i: nat, j: nat)
    requires Reparte(ufs, importe) && i <= j <= |ufs|
    ensures SumaRedondeadas(ufs, importe, i) <= SumaRedondeadas(ufs, importe, j)
    decreases j - i
  {
    if i < j {
      SumaRedondeadasCrece(ufs, importe, i, j - 1);
      RedondeadaEs(ufs, importe, j - 1);
    }
  }

  /** Each share from the roundings: cut ones get what is left, the rest their rounding, and the first unit
      whatever is missing on top. */
  lemma ParteEs(ufs: seq<UF>, importe: int, i: nat)
    requires Reparte(ufs, importe) && i < |ufs|
    ensures Parte(ufs, RedondeoExacto, importe, i)
         == (if Recortada(ufs, importe, i) then Queda(ufs, importe, i) else Redondeada(ufs, importe, i))
            + (if EsPrimera(ufs, i) && Faltante(ufs, importe) > 0 then Faltante(ufs, importe) else 0)
    ensures Recortada(ufs, importe, i) ==> Faltante(ufs, importe) < 0 && ufs[i].coef > 0.0
  {
    RestoEsQueda(ufs, importe, i);
    RestoEsQueda(ufs, importe, |ufs|);
    RedondeadaEs(ufs, importe, i);
    SumaRedondeadasCrece(ufs, importe, i + 1, |ufs|);
  }

  /** After a cut, everyone who rounds to something is cut. */
  lemma RecorteSigue(ufs: seq<UF>, importe: int, i: nat, j: nat)
    requires Reparte(ufs, importe) && i < j < |ufs| && Recortada(ufs, importe, i) && Redondeada(ufs, importe, j) > 0
    ensures Recortada(ufs, importe, j)
  {
    SumaRedondeadasCrece(ufs, importe, i + 1, j);
  }

  // ---------- When the two agree ----------

  /** Cents are missing: just one, for a first unit rounded down that no other rounded-down unit beats. */
  ghost predicate FaltanteBienPuesto(ufs: seq<UF>, importe: int) {
    Faltante(ufs, importe) > 0 ==>
      && Faltante(ufs, importe) == 1
      && (forall p | 0 <= p < |ufs| && EsPrimera(ufs, p) ::
            && !HaciaArriba(ufs, importe, p)
            && forall j | 0 <= j < |ufs| && ufs[j].coef > 0.0 && !HaciaArriba(ufs, importe, j) ::
                 Fraccion(ufs, importe, p) >= Fraccion(ufs, importe, j))
  }

  /** Every cut takes one cent from a unit rounded up, and spares no rounded-up unit with a smaller fraction. */
  ghost predicate RecortesBienPuestos(ufs: seq<UF>, importe: int) {
    forall i | 0 <= i < |ufs| && Recortada(ufs, importe, i) ::
      && HaciaArriba(ufs, importe, i)
      && Queda(ufs, importe, i) == Redondeada(ufs, importe, i) - 1
      && forall j | 0 <= j < |ufs| && ufs[j].coef > 0.0 && HaciaArriba(ufs, importe, j) && !Recortada(ufs, importe, j) ::
           Fraccion(ufs, importe, j) >= Fraccion(ufs, importe, i)
  }

  function Repartidas(ufs: seq<UF>, importe: int): seq<int> {
    Partes(ufs, RedondeoExacto, importe)
  }

  lemma PrimeraUnica(ufs: seq<UF>, p: nat, j: nat)
    requires EsPrimera(ufs, p) && j < |ufs| && ufs[j].coef > 0.0 && j != p
    ensures p < j && !EsPrimera(ufs, j)
  {
  }

  lemma SiBienPuestos(ufs: seq<UF>, importe: int)
    requires Reparte(ufs, importe) && FaltanteBienPuesto(ufs, importe) && RecortesBienPuestos(ufs, importe)
    ensures EsMayorResto(ufs, importe, Repartidas(ufs, importe))
  {
    var t := Repartidas(ufs, importe);
    ConservacionConcepto(ufs, RedondeoExacto, importe);
    forall i | 0 <= i < |ufs|
      ensures ufs[i].coef == 0.0 ==> t[i] == 0
      ensures ufs[i].coef > 0.0 ==> t[i] == Proporcion(ufs, importe, i).Floor || t[i] == Proporcion(ufs, importe, i).Floor + 1
    {
      ParteEs(ufs, importe, i);
      RedondeadaEs(ufs, importe, i);
    }
    forall i, j | 0 <= i < |ufs| && 0 <= j < |ufs| && ufs[i].coef > 0.0 && ufs[j].coef > 0.0
      && t[i] > Proporcion(ufs, importe, i).Floor && t[j] == Proporcion(ufs, importe, j).Floor
      ensures Precede(ufs, importe, i, j)
    {
      PrecedeSi(ufs, importe, i, j);
    }
  }

  lemma PrecedeSi(ufs: seq<UF>, importe: int, i: nat, j: nat)
    requires Reparte(ufs, importe) && FaltanteBienPuesto(ufs, importe) && RecortesBienPuestos(ufs, importe)
    requires i < |ufs| && j < |ufs| && ufs[i].coef > 0.0 && ufs[j].coef > 0.0
    requires Repartidas(ufs, importe)[i] > Proporcion(ufs, importe, i).Floor
    requires Repartidas(ufs, importe)[j] == Proporcion(ufs, importe, j).Floor
    ensures Precede(ufs, importe, i, j)
  {
    ParteEs(ufs, importe, i);
    ParteEs(ufs, importe, j);
    RedondeadaEs(ufs, importe, i);
    RedondeadaEs(ufs, importe, j);
    if Recortada(ufs, importe, j) {
      if j < i {
        RecorteSigue(ufs, importe, j, i);
      }
    } else if EsPrimera(ufs, i) {
      PrimeraUnica(ufs, i, j);
    }
  }

  lemma BienPuestosSi(ufs: seq<UF>, importe: int)
    requires Reparte(ufs, importe) && EsMayorResto(ufs, importe, Repartidas(ufs, importe))
    ensures FaltanteBienPuesto(ufs, importe) && RecortesBienPuestos(ufs, importe)
  {
    var t := Repartidas(ufs, importe);
    var p := HayPrimera(ufs);
    forall i | 0 <= i < |ufs|
      ensures t[i] == (if Recortada(ufs, importe, i) then Queda(ufs, importe, i) else Redondeada(ufs, importe, i))
                      + (if EsPrimera(ufs, i) && Faltante(ufs, importe) > 0 then Faltante(ufs, importe) else 0)
      ensures Recortada(ufs, importe, i) ==> Faltante(ufs, importe) < 0 && ufs[i].coef > 0.0
      ensures Redondeada(ufs, importe, i)
           == Proporcion(ufs, importe, i).Floor + if HaciaArriba(ufs, importe, i) then 1 else 0
    {
      ParteEs(ufs, importe, i);
      RedondeadaEs(ufs, importe, i);
    }
    if Faltante(ufs, importe) > 0 {
      forall j | 0 <= j < |ufs| && ufs[j].coef > 0.0 && !HaciaArriba(ufs, importe, j)
        ensures Fraccion(ufs, importe, p) >= Fraccion(ufs, importe, j)
      {
        if j != p {
          PrimeraUnica(ufs, p, j);
          assert Precede(ufs, importe, p, j);
        }
      }
      assert forall o | 0 <= o < |ufs| && EsPrimera(ufs, o) :: o == p;
    }
    forall i, j | 0 <= i < |ufs| && 0 <= j < |ufs| && Recortada(ufs, importe, i)
      && ufs[j].coef > 0.0 && HaciaArriba(ufs, importe, j) && !Recortada(ufs, importe, j)
      ensures Fraccion(ufs, importe, j) >= Fraccion(ufs, importe, i)
    {
      assert Precede(ufs, importe, j, i);
    }
  }

  /** What the loop gives out is the largest-remainder distribution if and only if the residue, when there
      is one, and every cut fall where the rule would put them. */
  lemma MayorRestoSi(ufs: seq<UF>, importe: int)
    requires Reparte(ufs, importe)
    ensures EsMayorResto(ufs, importe, Repartidas(ufs, importe))
        <==> FaltanteBienPuesto(ufs, importe) && RecortesBienPuestos(ufs, importe)
  {
    if EsMayorResto(ufs, importe, Repartidas(ufs, importe)) {
      BienPuestosSi(ufs, importe);
    }
    if FaltanteBienPuesto(ufs, importe) && RecortesBienPuestos(ufs, importe) {
      SiBienPuestos(ufs, importe);
    }
  }

  /** In particular it is whenever the roundings add up to the amount: nothing is cut and nothing left. */
  lemma RedondeosQueCierran(ufs: seq<UF>, importe: int)
    requires Reparte(ufs, importe) && Faltante(ufs, importe) == 0
    ensures EsMayorResto(ufs, importe, Repartidas(ufs, importe))
    ensures forall i | 0 <= i < |ufs| :: Repartidas(ufs, importe)[i] == Redondeada(ufs, importe, i)
  {
    forall i | 0 <= i < |ufs| ensures !Recortada(ufs, importe, i) && Repartidas(ufs, importe)[i] == Redondeada(ufs, importe, i) {
      ParteEs(ufs, importe, i);
    }
    MayorRestoSi(ufs, importe);
  }

  /** It is not in general: of one cent shared 20/40/40, the first unit pays it, with the smallest
      remainder of the three. */
  lemma ElPrimeroPagaElResto(a: UF, b: UF, c: UF)
    requires a.coef == 0.2 && b.coef == 0.4 && c.coef == 0.4
    ensures Repartidas([a, b, c], 1) == [1, 0, 0]
    ensures Reparte([a, b, c], 1) && !EsMayorResto([a, b, c], 1, Repartidas([a, b, c], 1))
    ensures EsMayorResto([a, b, c], 1, [0, 1, 0])
  {
    var ufs := [a, b, c];
    assert ufs[..2] == [a, b] && ufs[..2][..1] == [a] && ufs[..2][..1][..0] == [];
    assert SumaCoef([a]) == 0.2;
    assert SumaCoef([a, b]) == 0.6;
    assert SumaCoef(ufs) == 1.0;
    assert Proporcion(ufs, 1, 0) == 0.2 && Proporcion(ufs, 1, 1) == 0.4 && Proporcion(ufs, 1, 2) == 0.4;
    ParteEs(ufs, 1, 0);
    ParteEs(ufs, 1, 1);
    ParteEs(ufs, 1, 2);
    assert Redondeada(ufs, 1, 0) == 0 && Redondeada(ufs, 1, 1) == 0 && Redondeada(ufs, 1, 2) == 0;
    assert SumaRedondeadas(ufs, 1, 1) == 0 && SumaRedondeadas(ufs, 1, 2) == 0;
    assert EsPrimera(ufs, 0);
    assert Repartidas(ufs, 1) == [1, 0, 0];
    assert !Precede(ufs, 1, 0, 1);
    assert Precede(ufs, 1, 1, 2) && Precede(ufs, 1, 1, 0);
    assert [0, 1, 0][..2] == [0, 1] && [0, 1][..1] == [0] && [0][..0] == [];
    assert Suma([0, 1, 0]) == 1;
  }
}
