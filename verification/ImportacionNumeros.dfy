/** What a coefficient or percentage text stands for, and when it is one (coefRe and parseNumeric in internal/consorcios/ufs.go,
    pctRe and pctGt100 in internal/consorcios/imports.go). */
module ImportacionNumeros {
  import opened Comun
  import opened Texto
  import opened Importacion

  /** `s` is the digits `entero`, and after a point the digits `decimales` if there are any. */
  ghost predicate Escrito(s: string, entero: string, decimales: string) {
    && |entero| > 0 && SoloDigitos(entero) && SoloDigitos(decimales)
    && s == if |decimales| == 0 then entero else entero + ['.'] + decimales
  }

  lemma {:induction false} PotenciaPositiva(k: nat)
    ensures Potencia10(k) >= 1
  {
    if k > 0 {
      PotenciaPositiva(k - 1);
    }
  }

  /** The number so written. */
  function Numero(entero: string, decimales: string): real {
    PotenciaPositiva(|decimales|);
    LeerDecimal(entero) as real + LeerDecimal(decimales) as real / Potencia10(|decimales|) as real
  }

  lemma {:induction false} PuntoTras(a: string, resto: string)
    requires SoloDigitos(a) && (|resto| == 0 || resto[0] == '.')
    ensures Punto(a + resto) == |a|
  {
    if |a| == 0 {
      assert a + resto == resto;
    } else {
      assert (a + resto)[1..] == a[1..] + resto;
      PuntoTras(a[1..], resto);
    }
  }

  /** The text is a number of up to `n` decimals exactly when it is so written. */
  lemma EsDecimalSi(s: string, n: nat)
    ensures EsDecimal(s, n) <==> exists entero, decimales :: Escrito(s, entero, decimales) && |decimales| <= n
  {
    var k := Punto(s);
    if EsDecimal(s, n) {
      PuntoParte(s);
      if k == |s| {
        assert s[..k] == s;
        assert Escrito(s, s, "");
      } else {
        assert s == s[..k] + ['.'] + s[k + 1..];
        assert Escrito(s, s[..k], s[k + 1..]);
      }
    }
    if entero, decimales :| Escrito(s, entero, decimales) && |decimales| <= n {
      EscritoPartes(s, entero, decimales);
    }
  }

  lemma {:induction false} PuntoParte(s: string)
    ensures Punto(s) < |s| ==> s[Punto(s)] == '.'
  {
    if |s| > 0 && s[0] != '.' {
      PuntoParte(s[1..]);
    }
  }

  lemma PartesSinPunto(s: string, entero: string)
    requires Escrito(s, entero, [])
    ensures Punto(s) == |entero| == |s| && s[..Punto(s)] == entero
  {
    assert s == s + [];
    PuntoTras(entero, []);
  }

  lemma PartesConPunto(s: string, entero: string, decimales: string)
    requires Escrito(s, entero, decimales) && |decimales| > 0
    ensures Punto(s) == |entero| < |s| && s[..Punto(s)] == entero && s[Punto(s) + 1..] == decimales
  {
    assert s == entero + (['.'] + decimales);
    PuntoTras(entero, ['.'] + decimales);
  }

  lemma EscritoPartes(s: string, entero: string, decimales: string)
    requires Escrito(s, entero, decimales)
    ensures Punto(s) == |entero| && s[..Punto(s)] == entero
    ensures if |decimales| == 0 then Punto(s) == |s| else Punto(s) < |s| && s[Punto(s) + 1..] == decimales
  {
    if |decimales| == 0 {
      assert decimales == [];
      PartesSinPunto(s, entero);
    } else {
      PartesConPunto(s, entero, decimales);
    }
  }

  lemma {:induction false} MoverEsPotencia(n: int, k: nat)
    ensures MoverPunto(n, k) == n * Potencia10(k)
    decreases k
  {
    if k > 0 {
      MoverEsPotencia(10 * n, k - 1);
    }
  }

  lemma {:induction false} LeerConcat(a: string, b: string)
    ensures LeerDecimal(a + b) == LeerDecimal(a) * Potencia10(|b|) + LeerDecimal(b)
  {
    if |b| == 0 {
      assert a + b == a;
    } else {
      assert (a + b)[..|a + b| - 1] == a + b[..|b| - 1];
      LeerConcat(a, b[..|b| - 1]);
    }
  }

  lemma {:induction false} PotenciaSuma(j: nat, k: nat)
    ensures Potencia10(j + k) == Potencia10(j) * Potencia10(k)
  {
    if j > 0 {
      PotenciaSuma(j - 1, k);
    }
  }

  lemma Potencia8()
    ensures Potencia10(8) == 100000000
  {
    assert Potencia10(4) == 10000;
    PotenciaSuma(4, 4);
  }

  lemma {:induction false} NoNegativo(s: string)
    requires SoloDigitos(s)
    ensures LeerDecimal(s) >= 0
  {
    if |s| > 0 {
      NoNegativo(s[..|s| - 1]);
    }
  }

  lemma SinPunto(s: string, entero: string)
    requires Escrito(s, entero, [])
    ensures LeerCoef(s) == Some(LeerDecimal(entero) * 100000000)
  {
    EsDecimalSi(s, 8);
    EscritoPartes(s, entero, []);
    NoNegativo(entero);
    Potencia8();
    MoverEsPotencia(LeerDecimal(entero), 8);
  }

  lemma ConPunto(s: string, entero: string, decimales: string)
    requires Escrito(s, entero, decimales) && 1 <= |decimales| <= 8
    ensures var n := MoverPunto(LeerDecimal(entero + decimales), 8 - |decimales|);
      LeerCoef(s) == if n < 0 then None else Some(n)
  {
    EsDecimalSi(s, 8);
    EscritoPartes(s, entero, decimales);
  }

  lemma Corrido(entero: string, decimales: string)
    requires |decimales| <= 8
    ensures MoverPunto(LeerDecimal(entero + decimales), 8 - |decimales|)
      == LeerDecimal(entero) * 100000000 + LeerDecimal(decimales) * Potencia10(8 - |decimales|)
  {
    var n := |decimales|;
    PotenciasQueCierran(n);
    LeerConcat(entero, decimales);
    MoverEsPotencia(LeerDecimal(entero + decimales), 8 - n);
    Distribuye(LeerDecimal(entero), Potencia10(n), LeerDecimal(decimales), Potencia10(8 - n));
  }

  /** In units of the eighth decimal. */
  function EnOctavos(entero: string, decimales: string): int
    requires |decimales| <= 8
  {
    LeerDecimal(entero) * 100000000 + LeerDecimal(decimales) * Potencia10(8 - |decimales|)
  }

  lemma OctavosNoNegativos(entero: string, decimales: string)
    requires SoloDigitos(entero) && SoloDigitos(decimales) && |decimales| <= 8
    ensures EnOctavos(entero, decimales) >= 0
  {
    NoNegativo(entero);
    NoNegativo(decimales);
    PotenciaPositiva(8 - |decimales|);
    ProductosNoNegativos(LeerDecimal(entero), LeerDecimal(decimales), Potencia10(8 - |decimales|));
  }

  lemma OctavosEnteros(entero: string)
    ensures EnOctavos(entero, []) == LeerDecimal(entero) * 100000000
  {
    assert LeerDecimal([]) == 0;
  }

  lemma CoefEnOctavos(s: string, entero: string, decimales: string)
    requires Escrito(s, entero, decimales) && |decimales| <= 8
    ensures LeerCoef(s) == Some(EnOctavos(entero, decimales))
  {
    OctavosNoNegativos(entero, decimales);
    if |decimales| == 0 {
      assert decimales == [];
      SinPunto(s, entero);
      OctavosEnteros(entero);
    } else {
      ConPunto(s, entero, decimales);
      Corrido(entero, decimales);
    }
  }

  /** A coefficient of up to eight decimals is read as the number it is, in units of the eighth decimal. */
  lemma CoefVale(s: string, entero: string, decimales: string)
    requires Escrito(s, entero, decimales) && |decimales| <= 8
    ensures LeerDecimal(entero) >= 0 && LeerDecimal(decimales) >= 0
    ensures LeerCoef(s) == Some(LeerDecimal(entero) * 100000000 + LeerDecimal(decimales) * Potencia10(8 - |decimales|))
  {
    NoNegativo(entero);
    NoNegativo(decimales);
    CoefEnOctavos(s, entero, decimales);
  }

  lemma ProductosNoNegativos(a: int, b: int, q: int)
    requires a >= 0 && b >= 0 && q >= 1
    ensures a * 100000000 + b * q >= 0
  {
  }

  lemma Distribuye(a: int, p: int, b: int, q: int)
    requires p * q == 100000000
    ensures (a * p + b) * q == a * 100000000 + b * q
  {
    assert (a * p + b) * q == a * (p * q) + b * q;
  }

  lemma PotenciasQueCierran(n: nat)
    requires n <= 8
    ensures Potencia10(n) * Potencia10(8 - n) == 100000000
  {
    Potencia8();
    PotenciaSuma(n, 8 - n);
  }

  /** No other text is read as a coefficient. */
  lemma CoefLegibleSi(s: string)
    ensures LeerCoef(s).Some? <==> exists entero, decimales :: Escrito(s, entero, decimales) && |decimales| <= 8
  {
    EsDecimalSi(s, 8);
    if entero, decimales :| Escrito(s, entero, decimales) && |decimales| <= 8 {
      CoefVale(s, entero, decimales);
    }
  }

  /** The same as a fraction: a hundred millionth of what is read is the number written. */
  lemma CoefEsElValor(s: string, entero: string, decimales: string)
    requires Escrito(s, entero, decimales) && |decimales| <= 8
    ensures LeerCoef(s).Some? && LeerCoef(s).value as real == Numero(entero, decimales) * 100000000.0
  {
    var n := |decimales|;
    CoefVale(s, entero, decimales);
    FraccionEscala(decimales);
    EnteroEscala(LeerDecimal(entero));
  }

  lemma FraccionEscala(decimales: string)
    requires |decimales| <= 8
    ensures Numero([], decimales) * 100000000.0 == (LeerDecimal(decimales) * Potencia10(8 - |decimales|)) as real
  {
    var n := |decimales|;
    PotenciasQueCierran(n);
    PotenciaPositiva(n);
    Escala(LeerDecimal(decimales), Potencia10(n), Potencia10(8 - n));
  }

  lemma EnteroEscala(a: int)
    ensures a as real * 100000000.0 == (a * 100000000) as real
  {
  }

  lemma Escala(b: int, p: int, q: int)
    requires p >= 1 && p * q == 100000000
    ensures b as real / p as real * 100000000.0 == (b * q) as real
  {
    assert p as real * q as real == 100000000.0;
    var x := b as real / p as real;
    assert x * p as real == b as real;
    assert x * (p as real * q as real) == (x * p as real) * q as real;
  }

  /** A percentage of up to two decimals is refused for its size exactly when it is over a hundred. */
  lemma MasDeCienSi(s: string, entero: string, decimales: string)
    requires Escrito(s, entero, decimales) && |decimales| <= 2
    ensures MasDeCien(s) <==> Numero(entero, decimales) > 100.0
  {
    EsDecimalSi(s, 2);
    CoefEsElValor(s, entero, decimales);
  }
}
