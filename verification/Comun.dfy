/** Options, results and sums over sequences, shared by every component. */
module Comun {

  datatype Option<+T> = None | Some(value: T)

  datatype Result<+T, +E> = Ok(value: T) | Err(error: E)

  lemma Partir<T>(s: seq<T>, i: nat)
    requires i <= |s|
    ensures s == s[..i] + s[i..]
  {
  }

  /** The sum of a sequence of amounts in cents. */
  function Suma(s: seq<int>): int {
    if s == [] then 0 else Suma(s[..|s| - 1]) + s[|s| - 1]
  }

  lemma {:induction false} SumaConcat(a: seq<int>, b: seq<int>)
    ensures Suma(a + b) == Suma(a) + Suma(b)
  {
    if b == [] {
      assert a + b == a;
    } else {
      assert (a + b)[..|a + b| - 1] == a + b[..|b| - 1];
      SumaConcat(a, b[..|b| - 1]);
    }
  }

  /** Two sequences that agree everywhere but at index `k` differ by what they differ there. */
  lemma {:induction false} SumaCambio(a: seq<int>, b: seq<int>, k: nat)
    requires |a| == |b| && k < |a|
    requires forall i | 0 <= i < |a| && i != k :: a[i] == b[i]
    ensures Suma(b) == Suma(a) - a[k] + b[k]
  {
    assert a == a[..k] + [a[k]] + a[k + 1..];
    assert b == b[..k] + [b[k]] + b[k + 1..];
    assert a[..k] == b[..k] && a[k + 1..] == b[k + 1..];
    SumaConcat(a[..k] + [a[k]], a[k + 1..]);
    SumaConcat(b[..k] + [b[k]], b[k + 1..]);
    assert (a[..k] + [a[k]])[..k] == a[..k];
    assert (b[..k] + [b[k]])[..k] == b[..k];
  }

  lemma {:induction false} SumaNoNegativa(s: seq<int>)
    requires forall i | 0 <= i < |s| :: s[i] >= 0
    ensures Suma(s) >= 0
    ensures forall i | 0 <= i < |s| :: s[i] <= Suma(s)
  {
    if s != [] {
      SumaNoNegativa(s[..|s| - 1]);
    }
  }
}
