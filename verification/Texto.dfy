/** Decimal text, as fmt's %d and %0Nd print it. */
module Texto {

  function Digito(d: nat): char
    requires d < 10
  {
    ('0' as int + d) as char
  }

  function Decimal(n: nat): string {
    if n < 10 then [Digito(n)] else Decimal(n / 10) + [Digito(n % 10)]
  }

  function DecimalEntero(i: int): string {
    if i < 0 then "-" + Decimal(-i) else Decimal(i)
  }

  predicate SoloDigitos(s: string) {
    forall i | 0 <= i < |s| :: '0' <= s[i] <= '9'
  }

  /** The number a run of digits stands for. */
  function LeerDecimal(s: string): int
  {
    if s == [] then 0 else LeerDecimal(s[..|s| - 1]) * 10 + (s[|s| - 1] as int - '0' as int)
  }

  lemma {:induction false} DecimalSeLee(n: nat)
    ensures LeerDecimal(Decimal(n)) == n && SoloDigitos(Decimal(n)) && Decimal(n) != []
  {
    if n < 10 {
      assert Decimal(n)[..0] == [];
    } else {
      DecimalSeLee(n / 10);
      assert Decimal(n)[..|Decimal(n)| - 1] == Decimal(n / 10);
    }
  }

  /** Different numbers print differently. */
  lemma DecimalEnteroInyectivo(i: int, j: int)
    requires DecimalEntero(i) == DecimalEntero(j)
    ensures i == j
  {
    DecimalSeLee(if i < 0 then -i else i);
    DecimalSeLee(if j < 0 then -j else j);
    assert i < 0 <==> DecimalEntero(i)[0] == '-';
    assert j < 0 <==> DecimalEntero(j)[0] == '-';
    if i < 0 {
      assert DecimalEntero(i)[1..] == Decimal(-i) && DecimalEntero(j)[1..] == Decimal(-j);
    }
  }

  function Ceros(n: nat): string {
    seq(n, i => '0')
  }

  /** %0Nd: zeros on the left up to the width. */
  function ConAncho(n: nat, ancho: nat): string {
    var d := Decimal(n);
    if |d| >= ancho then d else Ceros(ancho - |d|) + d
  }

  function Potencia10(k: nat): nat {
    if k == 0 then 1 else 10 * Potencia10(k - 1)
  }

  lemma {:induction false} LargoDecimal(n: nat, k: nat)
    requires k > 0 && n < Potencia10(k)
    ensures |Decimal(n)| <= k
  {
    if n >= 10 {
      LargoDecimal(n / 10, k - 1);
    }
  }

  lemma {:induction false} CerosNoPesan(k: nat, s: string)
    ensures LeerDecimal(Ceros(k) + s) == LeerDecimal(s)
  {
    if s == [] {
      if k > 0 {
        assert (Ceros(k) + s)[..|Ceros(k) + s| - 1] == Ceros(k - 1) + s;
        CerosNoPesan(k - 1, s);
      }
    } else {
      assert (Ceros(k) + s)[..|Ceros(k) + s| - 1] == Ceros(k) + s[..|s| - 1];
      CerosNoPesan(k, s[..|s| - 1]);
    }
  }

  /** A padded number has exactly the width asked for, and reads back. */
  lemma ConAnchoSeLee(n: nat, ancho: nat)
    requires ancho > 0 && n < Potencia10(ancho)
    ensures |ConAncho(n, ancho)| == ancho && SoloDigitos(ConAncho(n, ancho)) && LeerDecimal(ConAncho(n, ancho)) == n
  {
    LargoDecimal(n, ancho);
    DecimalSeLee(n);
    CerosNoPesan(ancho - |Decimal(n)|, Decimal(n));
  }

  // ---------- UTF-8 ----------

  /** len of a string: the bytes its characters take in UTF-8. */
  function Bytes(s: string): nat {
    if s == [] then 0
    else
      var n := s[0] as int;
      (if n < 0x80 then 1 else if n < 0x800 then 2 else if n < 0x10000 then 3 else 4) + Bytes(s[1..])
  }

  // ---------- strings.TrimSpace ----------

  /** Unicode white space. */
  predicate EsEspacio(c: char) {
    var n := c as int;
    (9 <= n <= 13) || n in {0x20, 0x85, 0xA0, 0x1680, 0x2028, 0x2029, 0x202F, 0x205F, 0x3000} || 0x2000 <= n <= 0x200A
  }

  function SinInicio(s: string): string {
    if s != [] && EsEspacio(s[0]) then SinInicio(s[1..]) else s
  }

  function SinFinal(s: string): string {
    if s != [] && EsEspacio(s[|s| - 1]) then SinFinal(s[..|s| - 1]) else s
  }

  function Recortar(s: string): string {
    SinFinal(SinInicio(s))
  }

  /** No white space at either end. */
  predicate Ajustado(s: string) {
    s != [] ==> !EsEspacio(s[0]) && !EsEspacio(s[|s| - 1])
  }

  lemma {:induction false} SinFinalConservaInicio(s: string)
    ensures SinFinal(s) <= s && (SinFinal(s) != [] ==> !EsEspacio(SinFinal(s)[|SinFinal(s)| - 1]))
  {
    if s != [] && EsEspacio(s[|s| - 1]) {
      SinFinalConservaInicio(s[..|s| - 1]);
    }
  }

  lemma {:induction false} SinInicioSinEspacio(s: string)
    ensures SinInicio(s) != [] ==> !EsEspacio(SinInicio(s)[0])
  {
    if s != [] && EsEspacio(s[0]) {
      SinInicioSinEspacio(s[1..]);
    }
  }

  /** Trimmed text has no white space at its ends, and such text is left alone. */
  lemma RecortarAjusta(s: string)
    ensures Ajustado(Recortar(s)) && (Ajustado(s) ==> Recortar(s) == s)
  {
    SinInicioSinEspacio(s);
    SinFinalConservaInicio(SinInicio(s));
  }
}
