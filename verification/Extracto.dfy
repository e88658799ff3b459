/** A unit's account statement: its charges and its credited payments in order, and their balance
    (GetCuentaCorriente in internal/cobranzas/ledger.go), against the ledger. */
module Extracto {
  import opened Comun
  import L = Liquidaciones
  import T = LiquidacionesTeoremas

  datatype FilaCargo = FilaCargo(id: nat, vence: int, creado: int, total: int)

  /** A payment of the building; dates and creation times are numbers, identifiers numbers in UUID order. */
  datatype FilaPago = FilaPago(id: nat, unidad: nat, fecha: int, creado: int, importe: int, acreditado: bool)

  datatype Movimiento = Movimiento(id: nat, fecha: int, creado: int, debe: int, haber: int)

  predicate Precede(a: Movimiento, b: Movimiento) {
    a.fecha < b.fecha || (a.fecha == b.fecha && (a.creado < b.creado || (a.creado == b.creado && a.id < b.id)))
  }

  ghost predicate EnOrden(s: seq<Movimiento>) {
    forall i, j | 0 <= i < j < |s| :: !Precede(s[j], s[i])
  }

  function DeCargos(cs: seq<FilaCargo>): seq<Movimiento> {
    seq(|cs|, i requires 0 <= i < |cs| => Movimiento(cs[i].id, cs[i].vence, cs[i].creado, cs[i].total, 0))
  }

  /** Only the unit's credited payments count. */
  function DePagos(ps: seq<FilaPago>, u: nat): seq<Movimiento> {
    if ps == [] then []
    else
      var p := ps[|ps| - 1];
      DePagos(ps[..|ps| - 1], u)
      + if p.unidad == u && p.acreditado then [Movimiento(p.id, p.fecha, p.creado, 0, p.importe)] else []
  }

  function Saldos(ms: seq<Movimiento>): seq<int> {
    seq(|ms|, i requires 0 <= i < |ms| => ms[i].debe - ms[i].haber)
  }

  function Totales(cs: seq<FilaCargo>): seq<int> {
    seq(|cs|, i requires 0 <= i < |cs| => cs[i].total)
  }

  /** What the unit has paid and was credited. */
  function Acreditado(ps: seq<FilaPago>, u: nat): int {
    if ps == [] then 0
    else Acreditado(ps[..|ps| - 1], u) + if ps[|ps| - 1].unidad == u && ps[|ps| - 1].acreditado then ps[|ps| - 1].importe else 0
  }

  // ---------- Sums do not depend on the order ----------

  lemma SaldosConcat(a: seq<Movimiento>, b: seq<Movimiento>)
    ensures Suma(Saldos(a + b)) == Suma(Saldos(a)) + Suma(Saldos(b))
  {
    assert Saldos(a + b) == Saldos(a) + Saldos(b);
    SumaConcat(Saldos(a), Saldos(b));
  }

  lemma SaldoDeUno(m: Movimiento)
    ensures Suma(Saldos([m])) == m.debe - m.haber
  {
    assert Saldos([m]) == [m.debe - m.haber] && [m.debe - m.haber][..0] == [];
  }

  lemma {:induction false} SaldoPermutado(a: seq<Movimiento>, b: seq<Movimiento>)
    requires multiset(a) == multiset(b)
    ensures Suma(Saldos(a)) == Suma(Saldos(b))
  {
    assert |a| == |multiset(a)| == |multiset(b)| == |b|;
    if a != [] {
      var m := a[0];
      assert m in multiset(b);
      var k :| 0 <= k < |b| && b[k] == m;
      Sin(b, k);
      assert a == [m] + a[1..];
      SaldoPermutado(a[1..], b[..k] + b[k + 1..]);
      SaldosConcat([m], a[1..]);
    }
  }

  lemma Sin(b: seq<Movimiento>, k: nat)
    requires k < |b|
    ensures multiset(b[..k] + b[k + 1..]) == multiset(b) - multiset{b[k]}
    ensures Suma(Saldos(b)) == Suma(Saldos([b[k]])) + Suma(Saldos(b[..k] + b[k + 1..]))
  {
    assert b == b[..k] + [b[k]] + b[k + 1..];
    SaldosConcat(b[..k] + [b[k]], b[k + 1..]);
    SaldosConcat(b[..k], [b[k]]);
    SaldosConcat(b[..k], b[k + 1..]);
  }

  lemma {:induction false} SaldoDePagos(ps: seq<FilaPago>, u: nat)
    ensures Suma(Saldos(DePagos(ps, u))) == -Acreditado(ps, u)
  {
    if ps != [] {
      var p, antes := ps[|ps| - 1], ps[..|ps| - 1];
      SaldoDePagos(antes, u);
      if p.unidad == u && p.acreditado {
        var m := Movimiento(p.id, p.fecha, p.creado, 0, p.importe);
        SaldosConcat(DePagos(antes, u), [m]);
        SaldoDeUno(m);
      } else {
        assert DePagos(ps, u) == DePagos(antes, u);
      }
    }
  }

  // ---------- The order is determined ----------

  lemma TotalSiDistintos(a: Movimiento, b: Movimiento)
    requires a.id != b.id
    ensures Precede(a, b) || Precede(b, a)
    ensures !(Precede(a, b) && Precede(b, a))
  {
  }

  ghost predicate IdsDistintos(s: seq<Movimiento>) {
    forall i, j | 0 <= i < j < |s| :: s[i].id != s[j].id
  }

  lemma RestoDelContenido(s: seq<Movimiento>)
    requires s != []
    ensures multiset(s[1..]) == multiset(s) - multiset{s[0]}
  {
    assert s == [s[0]] + s[1..];
  }

  lemma MismoLargo(a: seq<Movimiento>, b: seq<Movimiento>)
    requires multiset(a) == multiset(b)
    ensures |a| == |b|
  {
    assert |a| == |multiset(a)| == |multiset(b)| == |b|;
  }

  lemma IgualesPorPartes(a: seq<Movimiento>, b: seq<Movimiento>)
    requires a != [] && b != [] && a[0] == b[0] && a[1..] == b[1..]
    ensures a == b
  {
    assert a == [a[0]] + a[1..] && b == [b[0]] + b[1..];
  }

  /** With distinct identifiers the statement's order leaves no choice. */
  lemma {:induction false} OrdenUnico(a: seq<Movimiento>, b: seq<Movimiento>)
    requires EnOrden(a) && EnOrden(b) && IdsDistintos(a) && IdsDistintos(b) && multiset(a) == multiset(b)
    ensures a == b
  {
    MismoLargo(a, b);
    if a != [] {
      MismoPrimero(a, b);
      RestoDelContenido(a);
      RestoDelContenido(b);
      OrdenUnico(a[1..], b[1..]);
      IgualesPorPartes(a, b);
    }
  }

  lemma MismoPrimero(a: seq<Movimiento>, b: seq<Movimiento>)
    requires EnOrden(a) && EnOrden(b) && IdsDistintos(a) && multiset(a) == multiset(b) && a != [] && b != []
    ensures a[0] == b[0]
  {
    assert a[0] in multiset(b) && b[0] in multiset(a);
    var i :| 0 <= i < |b| && b[i] == a[0];
    var j :| 0 <= j < |a| && a[j] == b[0];
    if a[0].id != b[0].id {
      TotalSiDistintos(a[0], b[0]);
    }
  }

  // ---------- GetCuentaCorriente ----------

  /** In order but for the movement at `j`, which need not come after those before it. */
  ghost predicate EnOrdenSalvo(s: seq<Movimiento>, j: nat) {
    forall x, y | 0 <= x < y < |s| && y != j :: !Precede(s[y], s[x])
  }

  lemma UnLugarMenos(s: seq<Movimiento>, t: seq<Movimiento>, j: nat)
    requires 0 < j < |s| && EnOrdenSalvo(s, j) && Precede(s[j], s[j - 1])
    requires t == s[j := s[j - 1]][j - 1 := s[j]]
    ensures EnOrdenSalvo(t, j - 1)
  {
    forall x, y | 0 <= x < y < |t| && y != j - 1 ensures !Precede(t[y], t[x]) {
      if y == j {
        assert t[y] == s[j - 1];
      } else {
        assert t[y] == s[y];
      }
    }
  }

  lemma YaUbicado(s: seq<Movimiento>, j: nat)
    requires j < |s| && EnOrdenSalvo(s, j) && (j == 0 || !Precede(s[j], s[j - 1]))
    ensures EnOrden(s)
  {
    forall x, y | 0 <= x < y < |s| ensures !Precede(s[y], s[x]) {
      if y == j && x < j - 1 {
        assert !Precede(s[j - 1], s[x]);
      }
    }
  }

  method Ubicar(a: array<Movimiento>, i: nat)
    requires i < a.Length && EnOrden(a[..i])
    modifies a
    ensures EnOrden(a[..i + 1])
    ensures multiset(a[..]) == old(multiset(a[..]))
  {
    var j: nat := i;
    assert forall k | 0 <= k < i :: a[..i + 1][k] == a[..i][k];
    while j > 0 && Precede(a[j], a[j - 1])
      invariant j <= i
      invariant EnOrdenSalvo(a[..i + 1], j)
      invariant multiset(a[..]) == old(multiset(a[..]))
    {
      ghost var antes := a[..i + 1];
      a[j], a[j - 1] := a[j - 1], a[j];
      UnLugarMenos(antes, a[..i + 1], j);
      j := j - 1;
    }
    YaUbicado(a[..i + 1], j);
  }

  /** The sort of the movements, in place. */
  method Ordenar(a: array<Movimiento>)
    modifies a
    ensures EnOrden(a[..]) && multiset(a[..]) == old(multiset(a[..]))
  {
    var i := 0;
    while i < a.Length
      invariant i <= a.Length && EnOrden(a[..i])
      invariant multiset(a[..]) == old(multiset(a[..]))
    {
      Ubicar(a, i);
      i := i + 1;
    }
    assert a[..a.Length] == a[..];
  }

  /** The unit's movements, gathered. */
  method Reunir(cargos: seq<FilaCargo>, pagos: seq<FilaPago>, u: nat) returns (ms: seq<Movimiento>)
    ensures ms == DeCargos(cargos) + DePagos(pagos, u)
  {
    ms := [];
    for i := 0 to |cargos|
      invariant ms == DeCargos(cargos[..i])
    {
      assert DeCargos(cargos[..i + 1])[..i] == DeCargos(cargos[..i]);
      ms := ms + [Movimiento(cargos[i].id, cargos[i].vence, cargos[i].creado, cargos[i].total, 0)];
    }
    assert cargos[..|cargos|] == cargos;
    for i := 0 to |pagos|
      invariant ms == DeCargos(cargos) + DePagos(pagos[..i], u)
    {
      assert pagos[..i + 1][..i] == pagos[..i];
      if pagos[i].unidad == u && pagos[i].acreditado {
        ms := ms + [Movimiento(pagos[i].id, pagos[i].fecha, pagos[i].creado, 0, pagos[i].importe)];
      }
    }
    assert pagos[..|pagos|] == pagos;
  }

  /** GetCuentaCorriente: every charge of the unit and every credited payment, once each, by date, creation and
      identifier; the balance is what was charged less what was credited. */
  method GetCuentaCorriente(cargos: seq<FilaCargo>, pagos: seq<FilaPago>, u: nat) returns (data: seq<Movimiento>, saldo: int)
    ensures EnOrden(data) && multiset(data) == multiset(DeCargos(cargos) + DePagos(pagos, u))
    ensures saldo == Suma(Totales(cargos)) - Acreditado(pagos, u)
  {
    var ms := Reunir(cargos, pagos, u);
    var a := new Movimiento[|ms|](i requires 0 <= i < |ms| => ms[i]);
    assert a[..] == ms;
    Ordenar(a);
    data := a[..];
    saldo := 0;
    for i := 0 to a.Length
      invariant a[..] == data && saldo == Suma(Saldos(data[..i]))
    {
      SaldosConcat(data[..i], [data[i]]);
      SaldoDeUno(data[i]);
      assert data[..i + 1] == data[..i] + [data[i]];
      saldo := saldo + a[i].debe - a[i].haber;
    }
    assert data[..|data|] == data;
    SaldoDelExtracto(data, cargos, pagos, u);
  }

  lemma SaldoDelExtracto(data: seq<Movimiento>, cargos: seq<FilaCargo>, pagos: seq<FilaPago>, u: nat)
    requires multiset(data) == multiset(DeCargos(cargos) + DePagos(pagos, u))
    ensures Suma(Saldos(data)) == Suma(Totales(cargos)) - Acreditado(pagos, u)
  {
    SaldoPermutado(data, DeCargos(cargos) + DePagos(pagos, u));
    SaldosConcat(DeCargos(cargos), DePagos(pagos, u));
    assert Saldos(DeCargos(cargos)) == Totales(cargos);
    SaldoDePagos(pagos, u);
  }

  // ---------- The statement and the ledger ----------

  /** The unit's charges as the query lists them, in any order, each with its creation time. */
  function CargosDe(cs: seq<L.Cargo>, u: nat, creado: nat -> int): seq<FilaCargo> {
    if cs == [] then []
    else
      var n := |cs| - 1;
      CargosDe(cs[..n], u, creado) + if cs[n].unidad == u then [FilaCargo(n, cs[n].vence, creado(n), cs[n].total)] else []
  }

  lemma {:induction false} TotalesDeCargos(cs: seq<L.Cargo>, u: nat, creado: nat -> int)
    ensures Suma(Totales(CargosDe(cs, u, creado))) == T.ExtractoDe(cs, u)
  {
    if cs != [] {
      var n := |cs| - 1;
      var antes := CargosDe(cs[..n], u, creado);
      TotalesDeCargos(cs[..n], u, creado);
      if cs[n].unidad == u {
        var f := FilaCargo(n, cs[n].vence, creado(n), cs[n].total);
        assert Totales(antes + [f])[..|antes|] == Totales(antes);
      } else {
        assert CargosDe(cs, u, creado) == antes;
      }
    }
  }

  /** Charges are posted to the ledger and undone there; credited payments are not, and the statement does
      the opposite. So in every reachable state the balance it shows is the ledger's plus what was reversed
      less what was credited, and the two agree if and only if those are equal. */
  lemma SaldoYLibro(ops: seq<L.Op>, pagos: seq<FilaPago>, u: nat, creado: nat -> int)
    ensures var b := L.Correr(ops);
      var saldo := Suma(Totales(CargosDe(b.cargos, u, creado))) - Acreditado(pagos, u);
      && saldo == T.LibroDe(b.asientos, u) + T.RevertidoDe(b.cargos, u) - Acreditado(pagos, u)
      && (saldo == T.LibroDe(b.asientos, u) <==> T.RevertidoDe(b.cargos, u) == Acreditado(pagos, u))
  {
    TotalesDeCargos(L.Correr(ops).cargos, u, creado);
    T.ExtractoYLibro(ops, u);
  }
}
