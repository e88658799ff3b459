/** The result of a distribution does not depend on the order in which units were listed. */
module DistribucionOrden {
  import opened Orden
  import opened Distribucion

  ghost predicate CodigosDistintos(ufs: seq<UF>) {
    forall i, j | 0 <= i < j < |ufs| :: ufs[i].codigo != ufs[j].codigo
  }

  /** The same thing said of the contents alone: no code is shared and no unit repeated. */
  ghost predicate ClavesUnicas(ufs: multiset<UF>) {
    && (forall u | u in ufs :: ufs[u] == 1)
    && (forall u, v | u in ufs && v in ufs && u.codigo == v.codigo :: u == v)
  }

  lemma ClavesMasUna(m: multiset<UF>, x: UF)
    requires ClavesUnicas(m) && forall u | u in m :: u.codigo != x.codigo
    ensures ClavesUnicas(multiset{x} + m)
  {
    forall u | u in multiset{x} + m ensures (multiset{x} + m)[u] == 1 && (u == x || u in m) {
    }
  }

  lemma {:induction false} DistintosSonUnicos(s: seq<UF>)
    requires CodigosDistintos(s)
    ensures ClavesUnicas(multiset(s))
  {
    if s != [] {
      DistintosSonUnicos(s[1..]);
      assert s == [s[0]] + s[1..];
      forall u | u in multiset(s[1..]) ensures u.codigo != s[0].codigo {
        assert u in s[1..];
      }
      ClavesMasUna(multiset(s[1..]), s[0]);
    }
  }

  /** Both start with the one unit whose code is least. */
  lemma MismoPrimero(a: seq<UF>, b: seq<UF>)
    requires EnOrden(a) && EnOrden(b) && multiset(a) == multiset(b)
    requires ClavesUnicas(multiset(a)) && a != [] && b != []
    ensures a[0] == b[0]
  {
    assert a[0] in multiset(b) && b[0] in multiset(a);
    assert a[0] in b && b[0] in a;
    MenorTricotomia(a[0].codigo, b[0].codigo);
  }

  lemma RestoDelContenido(s: seq<UF>)
    requires EnOrden(s) && s != []
    ensures EnOrden(s[1..])
    ensures multiset(s[1..]) == multiset(s) - multiset{s[0]}
  {
    assert s == [s[0]] + s[1..];
  }

  lemma ClavesMenosUna(m: multiset<UF>, x: UF)
    requires ClavesUnicas(m)
    ensures ClavesUnicas(m - multiset{x})
  {
    forall u | u in m - multiset{x} ensures (m - multiset{x})[u] == 1 && u in m {
    }
  }

  lemma ColasIguales(a: seq<UF>, b: seq<UF>)
    requires EnOrden(a) && EnOrden(b) && multiset(a) == multiset(b)
    requires ClavesUnicas(multiset(a)) && a != [] && b != []
    ensures a[0] == b[0]
    ensures EnOrden(a[1..]) && EnOrden(b[1..]) && multiset(a[1..]) == multiset(b[1..])
    ensures ClavesUnicas(multiset(a[1..]))
  {
    MismoPrimero(a, b);
    RestoDelContenido(a);
    RestoDelContenido(b);
    ClavesMenosUna(multiset(a), a[0]);
  }

  lemma IgualesPorPartes(a: seq<UF>, b: seq<UF>)
    requires a != [] && b != [] && a[0] == b[0] && a[1..] == b[1..]
    ensures a == b
  {
    assert a == [a[0]] + a[1..] && b == [b[0]] + b[1..];
  }

  lemma MismoLargo(a: seq<UF>, b: seq<UF>)
    requires multiset(a) == multiset(b)
    ensures |a| == |b|
  {
    assert |a| == |multiset(a)| == |multiset(b)| == |b|;
  }

  /** A sorted sequence with distinct codes is determined by what it contains. */
  lemma {:induction false} OrdenUnico(a: seq<UF>, b: seq<UF>)
    requires EnOrden(a) && EnOrden(b) && multiset(a) == multiset(b)
    requires ClavesUnicas(multiset(a))
    ensures a == b
  {
    MismoLargo(a, b);
    if a != [] {
      ColasIguales(a, b);
      OrdenUnico(a[1..], b[1..]);
      IgualesPorPartes(a, b);
    }
  }

  /** Whatever order the units come in, and however an unstable sort treats them, units with
      distinct codes lead to one and the same distribution. */
  lemma {:induction false} IndependienteDelOrden(cs: seq<Concepto>, red: Redondeo, ufs1: seq<UF>, ufs2: seq<UF>, orden1: seq<UF>, orden2: seq<UF>)
    requires multiset(ufs1) == multiset(ufs2) && CodigosDistintos(ufs1)
    requires EsOrdenDe(orden1, ufs1) && EsOrdenDe(orden2, ufs2)
    ensures Reparto(cs, orden1, red) == Reparto(cs, orden2, red)
  {
    DistintosSonUnicos(ufs1);
    OrdenUnico(orden1, orden2);
  }

  // ---------- The ordering as a function ----------

  function Insertar(u: UF, s: seq<UF>): seq<UF> {
    if s == [] || Menor(u.codigo, s[0].codigo) then [u] + s else [s[0]] + Insertar(u, s[1..])
  }

  function Ordenar(ufs: seq<UF>): seq<UF> {
    if ufs == [] then [] else Insertar(ufs[0], Ordenar(ufs[1..]))
  }

  lemma {:induction false} InsertarContenido(u: UF, s: seq<UF>)
    ensures multiset(Insertar(u, s)) == multiset(s) + multiset{u}
  {
    if s != [] && !Menor(u.codigo, s[0].codigo) {
      InsertarContenido(u, s[1..]);
      assert s == [s[0]] + s[1..];
    }
  }

  /** `c` does not come after any code in `s`. */
  ghost predicate NoSupera(c: string, s: seq<UF>) {
    forall i | 0 <= i < |s| :: !Menor(s[i].codigo, c)
  }

  lemma EnOrdenDesde(u: UF, s: seq<UF>)
    ensures EnOrden([u] + s) <==> EnOrden(s) && NoSupera(u.codigo, s)
  {
    if EnOrden([u] + s) {
      forall i, j | 0 <= i < j < |s| ensures !Menor(s[j].codigo, s[i].codigo) {
        assert ([u] + s)[i + 1] == s[i] && ([u] + s)[j + 1] == s[j];
      }
      forall i | 0 <= i < |s| ensures !Menor(s[i].codigo, u.codigo) {
        assert ([u] + s)[i + 1] == s[i] && ([u] + s)[0] == u;
      }
    }
  }

  lemma NoSuperaBajo(c: string, s: seq<UF>)
    requires EnOrden(s) && s != [] && Menor(c, s[0].codigo)
    ensures NoSupera(c, s)
  {
    forall i | 0 <= i < |s| ensures !Menor(s[i].codigo, c) {
      var a, b := s[i].codigo, s[0].codigo;
      MenorTricotomia(b, b);
      assert !Menor(a, b);
      MenorPorDebajo(c, b, a);
    }
  }

  lemma {:induction false} InsertarEnOrden(u: UF, s: seq<UF>)
    requires EnOrden(s)
    ensures EnOrden(Insertar(u, s))
  {
    if s == [] {
    } else if Menor(u.codigo, s[0].codigo) {
      NoSuperaBajo(u.codigo, s);
      EnOrdenDesde(u, s);
    } else {
      assert s == [s[0]] + s[1..];
      EnOrdenDesde(s[0], s[1..]);
      InsertarEnOrden(u, s[1..]);
      NoSuperaInsertado(s[0].codigo, u, s[1..]);
      EnOrdenDesde(s[0], Insertar(u, s[1..]));
    }
  }

  lemma {:induction false} NoSuperaInsertado(c: string, u: UF, s: seq<UF>)
    requires NoSupera(c, s) && !Menor(u.codigo, c)
    ensures NoSupera(c, Insertar(u, s))
  {
    if s != [] && !Menor(u.codigo, s[0].codigo) {
      assert NoSupera(c, s[1..]);
      NoSuperaInsertado(c, u, s[1..]);
    }
  }

  lemma {:induction false} OrdenarCorrecto(ufs: seq<UF>)
    ensures EsOrdenDe(Ordenar(ufs), ufs)
  {
    if ufs != [] {
      OrdenarCorrecto(ufs[1..]);
      InsertarContenido(ufs[0], Ordenar(ufs[1..]));
      InsertarEnOrden(ufs[0], Ordenar(ufs[1..]));
      assert ufs == [ufs[0]] + ufs[1..];
    }
  }
}
