/** The payment fingerprint: the text joined before hashing (requestHash in
    internal/cobranzas/cobranzas.go). Hashing itself is taken as injective. */
module Huella {
  import opened Comun
  import opened Texto

  /** A validated payment request; ids, dates and channels in their printed form. */
  datatype Validada = Validada(unidad: string, fecha: string, canal: string, importe: int, moneda: string, referencia: Option<string>)

  const SEP := '|'

  predicate SinBarra(s: string) {
    SEP !in s
  }

  /** What validation guarantees of the parts: identifiers, dates and channels hold no bar, the
      currency is fixed, and a reference is absent or not empty. Only the key and the reference are free text. */
  predicate EsValidada(consorcio: string, v: Validada) {
    && SinBarra(consorcio) && SinBarra(v.unidad) && SinBarra(v.fecha) && SinBarra(v.canal)
    && v.importe > 0 && v.moneda == "ARS" && v.referencia != Some("")
  }

  function Referencia(r: Option<string>): string {
    if r.Some? then r.value else ""
  }

  function TextoHuella(consorcio: string, key: string, v: Validada): string {
    consorcio + ([SEP] + (key + ([SEP] + (v.unidad + ([SEP] + (v.fecha + ([SEP] + (v.canal + ([SEP]
    + (DecimalEntero(v.importe) + ([SEP] + (v.moneda + ([SEP] + Referencia(v.referencia))))))))))))))
  }

  lemma {:induction false} CortePorBarra(a: string, x: string, b: string, y: string)
    requires SinBarra(a) && SinBarra(b) && a + ([SEP] + x) == b + ([SEP] + y)
    ensures a == b && x == y
  {
    var s, t := a + ([SEP] + x), b + ([SEP] + y);
    assert s[|a|] == SEP && t[|b|] == SEP;
    assert forall i | 0 <= i < |a| :: s[i] == a[i] && a[i] != SEP;
    assert forall i | 0 <= i < |b| :: t[i] == b[i] && b[i] != SEP;
    assert |a| == |b|;
    assert a == s[..|a|] == t[..|b|] == b;
    assert x == s[|a| + 1..] == t[|b| + 1..] == y;
  }

  lemma MismoPrefijo(a: string, x: string, y: string)
    requires a + x == a + y
    ensures x == y
  {
    assert x == (a + x)[|a|..] == (a + y)[|a|..] == y;
  }

  lemma ImporteSinBarra(i: int)
    ensures SinBarra(DecimalEntero(i))
  {
    DecimalSeLee(if i < 0 then -i else i);
  }

  /** For one key, two validated requests with the same fingerprint are the same request: neither
      the key nor a reference containing bars can make two different requests collide. */
  lemma HuellaInyectiva(key: string, c1: string, v1: Validada, c2: string, v2: Validada)
    requires EsValidada(c1, v1) && EsValidada(c2, v2)
    requires TextoHuella(c1, key, v1) == TextoHuella(c2, key, v2)
    ensures c1 == c2 && v1 == v2
  {
    var i1, i2 := DecimalEntero(v1.importe), DecimalEntero(v2.importe);
    var f1, f2 := v1.moneda + ([SEP] + Referencia(v1.referencia)), v2.moneda + ([SEP] + Referencia(v2.referencia));
    var e1, e2 := i1 + ([SEP] + f1), i2 + ([SEP] + f2);
    var d1, d2 := v1.canal + ([SEP] + e1), v2.canal + ([SEP] + e2);
    var b1, b2 := v1.fecha + ([SEP] + d1), v2.fecha + ([SEP] + d2);
    var a1, a2 := v1.unidad + ([SEP] + b1), v2.unidad + ([SEP] + b2);
    CortePorBarra(c1, key + ([SEP] + a1), c2, key + ([SEP] + a2));
    MismoPrefijo(key, [SEP] + a1, [SEP] + a2);
    MismoPrefijo([SEP], a1, a2);
    CortePorBarra(v1.unidad, b1, v2.unidad, b2);
    CortePorBarra(v1.fecha, d1, v2.fecha, d2);
    CortePorBarra(v1.canal, e1, v2.canal, e2);
    ImporteSinBarra(v1.importe);
    ImporteSinBarra(v2.importe);
    CortePorBarra(i1, f1, i2, f2);
    DecimalEnteroInyectivo(v1.importe, v2.importe);
    CortePorBarra(v1.moneda, Referencia(v1.referencia), v2.moneda, Referencia(v2.referencia));
  }
}
