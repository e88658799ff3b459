/** The loops of Distribuir, proved against their meaning. */
module DistribucionMetodos {
  import opened Comun
  import opened Orden
  import opened Distribucion

  /** In order but for the unit at `j`, which need not come after those before it. */
  ghost predicate EnOrdenSalvo(s: seq<UF>, j: nat) {
    forall x, y | 0 <= x < y < |s| && y != j :: !Menor(s[y].codigo, s[x].codigo)
  }

  /** Moving the unit at `j` one place down leaves the others in order. */
  lemma UnLugarMenos(s: seq<UF>, t: seq<UF>, j: nat)
    requires 0 < j < |s| && EnOrdenSalvo(s, j) && Menor(s[j].codigo, s[j - 1].codigo)
    requires t == s[j := s[j - 1]][j - 1 := s[j]]
    ensures EnOrdenSalvo(t, j - 1)
  {
    MenorTricotomia(s[j].codigo, s[j - 1].codigo);
    forall x, y | 0 <= x < y < |t| && y != j - 1 ensures !Menor(t[y].codigo, t[x].codigo) {
      if y == j {
        assert t[y] == s[j - 1];
      } else {
        assert t[y] == s[y];
      }
    }
  }

  /** Once it does not precede the one before it, everything is in order. */
  lemma YaUbicada(s: seq<UF>, j: nat)
    requires j < |s| && EnOrdenSalvo(s, j) && (j == 0 || !Menor(s[j].codigo, s[j - 1].codigo))
    ensures EnOrden(s)
  {
    forall x, y | 0 <= x < y < |s| ensures !Menor(s[y].codigo, s[x].codigo) {
      if y == j && x < j - 1 && Menor(s[j].codigo, s[x].codigo) {
        MenorTricotomia(s[x].codigo, s[j - 1].codigo);
        if Menor(s[x].codigo, s[j - 1].codigo) {
          MenorTransitivo(s[j].codigo, s[x].codigo, s[j - 1].codigo);
        }
      }
    }
  }

  /** Moves `a[i]` down to its place among the sorted `a[..i]`. */
  method Ubicar(a: array<UF>, i: nat)
    requires i < a.Length && EnOrden(a[..i])
    modifies a
    ensures EnOrden(a[..i + 1])
    ensures multiset(a[..]) == old(multiset(a[..]))
  {
    var j: nat := i;
    assert forall k | 0 <= k < i :: a[..i + 1][k] == a[..i][k];
    while j > 0 && Menor(a[j].codigo, a[j - 1].codigo)
      invariant j <= i
      invariant EnOrdenSalvo(a[..i + 1], j)
      invariant multiset(a[..]) == old(multiset(a[..]))
    {
      ghost var antes := a[..i + 1];
      a[j], a[j - 1] := a[j - 1], a[j];
      UnLugarMenos(antes, a[..i + 1], j);
      j := j - 1;
    }
    YaUbicada(a[..i + 1], j);
  }

  /** Sorts by code in place. Only the order and the contents are promised: like the library sort
      it stands for, it is not obliged to keep equal codes in their original order. */
  method OrdenarPorCodigo(a: array<UF>)
    modifies a
    ensures EnOrden(a[..]) && multiset(a[..]) == old(multiset(a[..]))
  {
    var i := 0;
    while i < a.Length
      invariant i <= a.Length && EnOrden(a[..i])
      invariant multiset(a[..]) == old(multiset(a[..]))
    {
      Ubicar(a, i);
      i := i + 1;
    }
    assert a[..a.Length] == a[..];
  }

  /** A unit that has received one more share. */
  function ConItem(u: Unidad, uf: UF, concepto: string, parte: int): Unidad {
    if uf.coef == 0.0 then u
    else u.(total := u.total + parte, items := u.items + [UnidadItem(concepto, parte)])
  }

  /** First pass over one concept: every unit takes its clamped rounding of what is left. */
  method RepartirRedondeado(c: Concepto, ufs: seq<UF>, red: Redondeo, coefTotal: real, unidades: array<Unidad>)
    returns (remain: int)
    requires unidades.Length == |ufs| && coefTotal == SumaCoef(ufs) > 0.0
    modifies unidades
    ensures remain == Resto(ufs, red, c.importe, |ufs|)
    ensures forall k | 0 <= k < |ufs| ::
      unidades[k] == ConItem(old(unidades[k]), ufs[k], c.id, Cuota(ufs, red, c.importe, k))
  {
    remain := c.importe;
    var i := 0;
    while i < |ufs|
      invariant i <= |ufs| && remain == Resto(ufs, red, c.importe, i)
      invariant forall k | 0 <= k < i ::
        unidades[k] == ConItem(old(unidades[k]), ufs[k], c.id, Cuota(ufs, red, c.importe, k))
      invariant forall k | i <= k < |ufs| :: unidades[k] == old(unidades[k])
    {
      if coefTotal != 0.0 && ufs[i].coef != 0.0 {
        var rounded := red(c.importe, ufs[i].coef, coefTotal);
        if rounded < 0 { rounded := 0; }
        if rounded > remain { rounded := remain; }
        var u := unidades[i];
        unidades[i] := u.(total := u.total + rounded, items := u.items + [UnidadItem(c.id, rounded)]);
        remain := remain - rounded;
      }
      i := i + 1;
    }
  }

  /** Second pass: what is left goes to the first unit with a positive coefficient, added to its
      total and to the item it received last. */
  method ColocarResiduo(ufs: seq<UF>, residuo: int, unidades: array<Unidad>)
    requires unidades.Length == |ufs|
    requires forall k | 0 <= k < |ufs| && ufs[k].coef > 0.0 :: unidades[k].items != []
    modifies unidades
    ensures forall k | 0 <= k < |ufs| ::
      unidades[k] == if EsPrimera(ufs, k) && residuo > 0 then ConResiduo(old(unidades[k]), residuo) else old(unidades[k])
  {
    var remain := residuo;
    ghost var primera := 0;
    var i := 0;
    while i < |ufs| && remain > 0
      invariant i <= |ufs|
      invariant remain == residuo ==>
        (residuo > 0 ==> forall k | 0 <= k < i :: ufs[k].coef <= 0.0)
        && forall k | 0 <= k < |ufs| :: unidades[k] == old(unidades[k])
      invariant remain != residuo ==> remain == 0 < residuo && primera < i && EsPrimera(ufs, primera)
      invariant remain != residuo ==> forall k | 0 <= k < |ufs| ::
        unidades[k] == if k == primera then ConResiduo(old(unidades[k]), residuo) else old(unidades[k])
    {
      if ufs[i].coef > 0.0 {
        primera := i;
        var u := unidades[i];
        var last := |u.items| - 1;
        unidades[i] := u.(total := u.total + remain,
                          items := u.items[last := u.items[last].(importe := u.items[last].importe + remain)]);
        remain := 0;
      }
      i := i + 1;
    }
  }

  function ConResiduo(u: Unidad, residuo: int): Unidad
    requires u.items != []
  {
    var last := |u.items| - 1;
    u.(total := u.total + residuo,
       items := u.items[last := u.items[last].(importe := u.items[last].importe + residuo)])
  }

  /** One concept shared out in place: each unit ends with one more item, holding its part. */
  method RepartirConcepto(c: Concepto, ufs: seq<UF>, red: Redondeo, coefTotal: real, unidades: array<Unidad>)
    requires unidades.Length == |ufs| && coefTotal == SumaCoef(ufs) > 0.0
    modifies unidades
    ensures forall i | 0 <= i < |ufs| ::
      unidades[i] == ConItem(old(unidades[i]), ufs[i], c.id, Parte(ufs, red, c.importe, i))
  {
    var remain := RepartirRedondeado(c, ufs, red, coefTotal, unidades);
    ColocarResiduo(ufs, remain, unidades);
  }

  lemma UnidadUnConceptoMas(ufs: seq<UF>, red: Redondeo, cs: seq<Concepto>, j: nat, i: nat)
    requires i < |ufs| && j < |cs|
    ensures ConItem(UnidadTras(ufs, red, cs[..j], i), ufs[i], cs[j].id, Parte(ufs, red, cs[j].importe, i))
         == UnidadTras(ufs, red, cs[..j + 1], i)
  {
    assert PartesDe(ufs, red, cs[..j + 1], i)[..j] == PartesDe(ufs, red, cs[..j], i);
  }

  method SumarCoeficientes(ufs: seq<UF>) returns (total: real)
    ensures total == SumaCoef(ufs)
  {
    total := 0.0;
    for i := 0 to |ufs|
      invariant total == SumaCoef(ufs[..i])
    {
      assert ufs[..i + 1][..i] == ufs[..i];
      total := total + ufs[i].coef;
    }
    assert ufs[..|ufs|] == ufs;
  }

  /** Empty units, and a warning for each one that takes no part. */
  method PrepararUnidades(ufs: seq<UF>) returns (unidades: array<Unidad>, advertencias: seq<string>)
    ensures fresh(unidades) && unidades.Length == |ufs| && advertencias == Advertencias(ufs)
    ensures forall k | 0 <= k < |ufs| :: unidades[k] == Unidad(ufs[k].id, ufs[k].codigo, ufs[k].coef, 0, [])
  {
    unidades := new Unidad[|ufs|](k requires 0 <= k < |ufs| => Unidad(ufs[k].id, ufs[k].codigo, ufs[k].coef, 0, []));
    advertencias := [];
    for i := 0 to |ufs|
      invariant advertencias == Advertencias(ufs[..i])
    {
      assert ufs[..i + 1][..i] == ufs[..i];
      if ufs[i].coef == 0.0 {
        advertencias := advertencias + ["UF " + ufs[i].codigo + " tiene coeficiente 0, sin reparto"];
      }
    }
    assert ufs[..|ufs|] == ufs;
  }

  /** The main loop: one concept after another. */
  method RepartirConceptos(conceptos: seq<Concepto>, ufs: seq<UF>, red: Redondeo, coefTotal: real, unidades: array<Unidad>)
    returns (items: seq<Concepto>, totalGastos: int)
    requires unidades.Length == |ufs| && coefTotal == SumaCoef(ufs) > 0.0
    requires forall k | 0 <= k < |ufs| :: unidades[k] == Unidad(ufs[k].id, ufs[k].codigo, ufs[k].coef, 0, [])
    modifies unidades
    ensures items == conceptos && totalGastos == Suma(Importes(conceptos))
    ensures forall k | 0 <= k < |ufs| :: unidades[k] == UnidadTras(ufs, red, conceptos, k)
  {
    items, totalGastos := [], 0;
    for j := 0 to |conceptos|
      invariant items == conceptos[..j] && totalGastos == Suma(Importes(conceptos[..j]))
      invariant forall k | 0 <= k < |ufs| :: unidades[k] == UnidadTras(ufs, red, conceptos[..j], k)
    {
      assert Importes(conceptos[..j + 1])[..j] == Importes(conceptos[..j]);
      totalGastos := totalGastos + conceptos[j].importe;
      items := items + [conceptos[j]];
      RepartirConcepto(conceptos[j], ufs, red, coefTotal, unidades);
      forall k | 0 <= k < |ufs| ensures unidades[k] == UnidadTras(ufs, red, conceptos[..j + 1], k) {
        UnidadUnConceptoMas(ufs, red, conceptos, j, k);
      }
    }
    assert conceptos[..|conceptos|] == conceptos;
  }

  /** The closing loop: cents handed out and units reached. */
  method Sumar(unidades: seq<Unidad>) returns (total: int, alcanzadas: nat)
    ensures total == Suma(Totales(unidades)) && alcanzadas == Alcanzadas(unidades)
  {
    total, alcanzadas := 0, 0;
    for i := 0 to |unidades|
      invariant total == Suma(Totales(unidades[..i])) && alcanzadas == Alcanzadas(unidades[..i])
    {
      assert unidades[..i + 1][..i] == unidades[..i];
      assert Totales(unidades[..i + 1])[..i] == Totales(unidades[..i]);
      total := total + unidades[i].total;
      if unidades[i].total > 0 { alcanzadas := alcanzadas + 1; }
    }
    assert unidades[..|unidades|] == unidades;
  }

  /** Distribuir: the three refusals, and otherwise the distribution over some ordering of the
      units by code, with nothing left undistributed. */
  method Distribuir(conceptos: seq<Concepto>, ufs: seq<UF>, red: Redondeo) returns (r: Result<Distribucion, ErrorCalculo>)
    ensures conceptos == [] ==> r == Err(CalculoVacio)
    ensures conceptos != [] && ufs == [] ==> r == Err(SinUFs)
    ensures conceptos != [] && ufs != [] ==> (r == Err(SinCoeficiente) <==> SumaCoef(ufs) <= 0.0)
    ensures conceptos != [] && ufs != [] && SumaCoef(ufs) > 0.0 ==>
      r.Ok? && exists orden :: EsOrdenDe(orden, ufs) && r.value == Reparto(conceptos, orden, red)
    ensures r.Ok? ==> r.value.diferencia == 0 && r.value.totalDistribuido == r.value.totalGastos
  {
    if conceptos == [] { return Err(CalculoVacio); }
    if ufs == [] { return Err(SinUFs); }

    var ordenadas := new UF[|ufs|](i requires 0 <= i < |ufs| => ufs[i]);
    assert ordenadas[..] == ufs;
    OrdenarPorCodigo(ordenadas);
    var orden := ordenadas[..];
    SumaCoefPermutada(orden, ufs);

    var coefTotal := SumarCoeficientes(orden);
    if coefTotal <= 0.0 { return Err(SinCoeficiente); }

    var unidades, advertencias := PrepararUnidades(orden);
    var items, totalGastos := RepartirConceptos(conceptos, orden, red, coefTotal, unidades);
    var totalDistribuido, alcanzadas := Sumar(unidades[..]);
    r := Ok(Distribucion(items, unidades[..], totalGastos, totalDistribuido,
                         totalGastos - totalDistribuido, alcanzadas, advertencias));
    assert unidades[..] == Reparto(conceptos, orden, red).unidades;
    assert EsOrdenDe(orden, ufs);
    Conservacion(conceptos, orden, red);
  }
}
