/** Byte-wise string comparison, as Go's `<` on strings and SQL's ORDER BY on codes. */
module Orden {

  predicate Menor(a: string, b: string) {
    b != [] && (a == [] || a[0] < b[0] || (a[0] == b[0] && Menor(a[1..], b[1..])))
  }

  lemma {:induction false} MenorTransitivo(a: string, b: string, c: string)
    requires Menor(a, b) && Menor(b, c)
    ensures Menor(a, c)
  {
    if a != [] && a[0] == b[0] && b[0] == c[0] {
      MenorTransitivo(a[1..], b[1..], c[1..]);
    }
  }

  lemma {:induction false} MenorTricotomia(a: string, b: string)
    ensures Menor(a, b) || a == b || Menor(b, a)
    ensures !(Menor(a, b) && Menor(b, a))
    ensures Menor(a, b) ==> a != b
  {
    if a != [] && b != [] && a[0] == b[0] {
      MenorTricotomia(a[1..], b[1..]);
      assert a == [a[0]] + a[1..] && b == [b[0]] + b[1..];
    } else if a == b {
      assert a == [];
    }
  }

  /** What comes before `b` comes before everything that does not precede `b`. */
  lemma MenorPorDebajo(a: string, b: string, c: string)
    requires Menor(a, b) && !Menor(c, b)
    ensures !Menor(c, a)
  {
    if Menor(c, a) {
      MenorTransitivo(c, a, b);
    }
  }
}
