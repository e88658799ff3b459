/** How a credited payment is spread over open charges, oldest first
    (buildFIFOAllocations in internal/cobranzas/acreditacion.go). */
module Imputacion {
  import opened Comun

  /** An open charge as the query lists it: by due date, then creation, then id. */
  datatype CargoAbierto = CargoAbierto(id: nat, saldo: int)

  datatype Asignacion = Asignacion(cargo: nat, monto: int)

  function Positivo(x: int): int { if x > 0 then x else 0 }

  function Menor(a: int, b: int): int { if a < b then a else b }

  /** What is left of the payment when charge `i` comes up. */
  function Disponible(cs: seq<CargoAbierto>, importe: int, i: nat): int
    requires i <= |cs|
    decreases i, 0
  {
    if i == 0 then importe else Disponible(cs, importe, i - 1) - Monto(cs, importe, i - 1)
  }

  /** What charge `i` receives. */
  function Monto(cs: seq<CargoAbierto>, importe: int, i: nat): int
    requires i < |cs|
    decreases i, 1
  {
    Positivo(Menor(cs[i].saldo, Disponible(cs, importe, i)))
  }

  function Montos(cs: seq<CargoAbierto>, importe: int): seq<int> {
    seq(|cs|, i requires 0 <= i < |cs| => Monto(cs, importe, i))
  }

  /** The rows inserted for the first `n` charges: those that receive something. */
  function Asignadas(cs: seq<CargoAbierto>, importe: int, n: nat): seq<Asignacion>
    requires n <= |cs|
  {
    if n == 0 then []
    else
      var m := Monto(cs, importe, n - 1);
      Asignadas(cs, importe, n - 1) + if m > 0 then [Asignacion(cs[n - 1].id, m)] else []
  }

  function SaldosPositivos(cs: seq<CargoAbierto>): seq<int> {
    seq(|cs|, i requires 0 <= i < |cs| => Positivo(cs[i].saldo))
  }

  function MontosDe(asigs: seq<Asignacion>): seq<int> {
    seq(|asigs|, i requires 0 <= i < |asigs| => asigs[i].monto)
  }

  /** The first `k` charges receive together all they need, or all there is. */
  lemma {:induction false} CubrePrefijo(cs: seq<CargoAbierto>, importe: int, k: nat)
    requires k <= |cs|
    ensures Suma(Montos(cs, importe)[..k]) == Positivo(Menor(importe, Suma(SaldosPositivos(cs)[..k])))
    ensures Disponible(cs, importe, k) == importe - Suma(Montos(cs, importe)[..k])
    ensures Suma(SaldosPositivos(cs)[..k]) >= 0
  {
    if k > 0 {
      CubrePrefijo(cs, importe, k - 1);
      assert Montos(cs, importe)[..k][..k - 1] == Montos(cs, importe)[..k - 1];
      assert SaldosPositivos(cs)[..k][..k - 1] == SaldosPositivos(cs)[..k - 1];
    }
  }

  /** The rows inserted add up to what the charges receive. */
  lemma {:induction false} AsignadasSuman(cs: seq<CargoAbierto>, importe: int, n: nat)
    requires n <= |cs|
    ensures Suma(MontosDe(Asignadas(cs, importe, n))) == Suma(Montos(cs, importe)[..n])
  {
    if n > 0 {
      AsignadasSuman(cs, importe, n - 1);
      assert Montos(cs, importe)[..n][..n - 1] == Montos(cs, importe)[..n - 1];
      var pre, filas := Asignadas(cs, importe, n - 1), Asignadas(cs, importe, n);
      if Monto(cs, importe, n - 1) > 0 {
        assert MontosDe(filas)[..|pre|] == MontosDe(pre);
      } else {
        assert filas == pre;
      }
    }
  }

  /** FIFO is prefix-optimal: no way of spreading the payment, within it and within the balances,
      covers more of the first `k` charges, for any `k`. */
  lemma FifoOptimo(cs: seq<CargoAbierto>, importe: int, otra: seq<int>, k: nat)
    requires |otra| == |cs| && k <= |cs|
    requires forall i | 0 <= i < |cs| :: 0 <= otra[i] <= Positivo(cs[i].saldo)
    requires Suma(otra) <= importe
    ensures Suma(otra[..k]) <= Suma(Montos(cs, importe)[..k])
  {
    CubrePrefijo(cs, importe, k);
    DentroDe(otra[..k], SaldosPositivos(cs)[..k]);
    assert otra == otra[..k] + otra[k..];
    SumaConcat(otra[..k], otra[k..]);
    SumaNoNegativa(otra[k..]);
    SumaNoNegativa(otra[..k]);
  }

  lemma {:induction false} DentroDe(a: seq<int>, b: seq<int>)
    requires |a| == |b| && forall i | 0 <= i < |a| :: a[i] <= b[i]
    ensures Suma(a) <= Suma(b)
  {
    if a != [] {
      DentroDe(a[..|a| - 1], b[..|b| - 1]);
    }
  }

  /** A charge is reached only after every older one has been covered in full, and the total spent is
      the payment or everything owed, whichever is less: credit is left over only once nothing is owed. */
  lemma FifoCompleto(cs: seq<CargoAbierto>, importe: int)
    ensures var filas := Asignadas(cs, importe, |cs|);
      && Suma(MontosDe(filas)) == Positivo(Menor(importe, Suma(SaldosPositivos(cs))))
      && Disponible(cs, importe, |cs|) == importe - Suma(MontosDe(filas))
      && (Disponible(cs, importe, |cs|) > 0 ==> forall i | 0 <= i < |cs| :: Monto(cs, importe, i) == Positivo(cs[i].saldo))
    ensures forall i, j | 0 <= i < j < |cs| && Monto(cs, importe, j) > 0 :: Monto(cs, importe, i) == Positivo(cs[i].saldo)
  {
    CubrePrefijo(cs, importe, |cs|);
    AsignadasSuman(cs, importe, |cs|);
    assert SaldosPositivos(cs)[..|cs|] == SaldosPositivos(cs);
    forall i, j | 0 <= i < j <= |cs| && Disponible(cs, importe, j) > 0 ensures Monto(cs, importe, i) == Positivo(cs[i].saldo) {
      DisponibleBaja(cs, importe, i + 1, j);
    }
  }

  lemma {:induction false} DisponibleBaja(cs: seq<CargoAbierto>, importe: int, i: nat, j: nat)
    requires i <= j <= |cs|
    ensures Disponible(cs, importe, j) <= Disponible(cs, importe, i)
    decreases j - i
  {
    if i < j {
      DisponibleBaja(cs, importe, i, j - 1);
    }
  }

  ghost predicate DeLaLista(cs: seq<CargoAbierto>, n: nat, a: Asignacion)
    requires n <= |cs|
  {
    a.monto > 0 && exists i :: 0 <= i < n && cs[i].id == a.cargo
  }

  /** The rows name charges of the list, each at most once, for positive amounts. */
  lemma {:induction false} AsignadasOrdenadas(cs: seq<CargoAbierto>, importe: int, n: nat)
    requires n <= |cs| && forall i, j | 0 <= i < j < |cs| :: cs[i].id != cs[j].id
    ensures forall x | 0 <= x < |Asignadas(cs, importe, n)| :: DeLaLista(cs, n, Asignadas(cs, importe, n)[x])
    ensures forall x, y | 0 <= x < y < |Asignadas(cs, importe, n)| ::
      Asignadas(cs, importe, n)[x].cargo != Asignadas(cs, importe, n)[y].cargo
  {
    if n > 0 {
      AsignadasOrdenadas(cs, importe, n - 1);
      var pre, filas := Asignadas(cs, importe, n - 1), Asignadas(cs, importe, n);
      forall x | 0 <= x < |filas| ensures DeLaLista(cs, n, filas[x]) {
        if x < |pre| {
          assert filas[x] == pre[x] && DeLaLista(cs, n - 1, pre[x]);
        } else {
          assert cs[n - 1].id == filas[x].cargo;
        }
      }
      forall x, y | 0 <= x < y < |filas| ensures filas[x].cargo != filas[y].cargo {
        assert filas[x] == pre[x] && DeLaLista(cs, n - 1, pre[x]);
        if y < |pre| {
          assert filas[y] == pre[y];
        }
      }
    }
  }
}
