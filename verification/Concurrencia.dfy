/** Transitions of one settlement requested concurrently: each request reads the row, later reads
    the snapshot if it needs it, and later still commits through the conditional UPDATE
    (internal/expensas/transiciones.go, internal/database/gen/liquidaciones.sql.go). Between those
    moments any other request may do any of them. */
module Concurrencia {
  import opened Comun
  import opened Liquidaciones

  /** What a request will write: a calculation brings its own new snapshot. */
  datatype Accion = ACalcular(nuevo: seq<UnidadSnap>) | AConfirmar | APublicar | AAnular

  /** A request in flight: its If-Match version, the row it found, the snapshot it read. */
  datatype Pedido = Pedido(accion: Accion, esperada: int, estado: Estado, version: nat, leido: Option<seq<UnidadSnap>>, abierto: bool)

  datatype Compromiso = Compromiso(version: nat, accion: Accion)

  /** The settlement's row and snapshot, the lots of charges written, every commit so far, and the requests. */
  datatype Mundo = Mundo(
    estado: Estado,
    version: nat,
    snapshot: seq<UnidadSnap>,
    lotes: seq<seq<UnidadSnap>>,
    bitacora: seq<Compromiso>,
    pedidos: seq<Pedido>)

  datatype Momento = Empezar(accion: Accion, esperada: int) | Leer(i: nat) | Comprometer(i: nat)

  predicate Permitida(a: Accion, e: Estado) {
    match a
    case ACalcular(_) => e == Borrador || e == Calculada
    case AConfirmar => e == Calculada
    case APublicar => e == Confirmada
    case AAnular => e != Publicada && e != Anulada && e != Cerrada
  }

  function Destino(a: Accion): Estado {
    match a
    case ACalcular(_) => Calculada
    case AConfirmar => Confirmada
    case APublicar => Publicada
    case AAnular => Anulada
  }

  /** The conditional UPDATE finds the row as the request read it, at the version it was told. */
  predicate Acierta(m: Mundo, p: Pedido) {
    p.abierto && m.estado == p.estado && m.version == p.esperada && (p.accion.AConfirmar? ==> p.leido.Some?)
  }

  function Aplicar(m: Mundo, p: Pedido): Mundo
    requires p.accion.AConfirmar? ==> p.leido.Some?
  {
    m.(estado := Destino(p.accion), version := m.version + 1,
       snapshot := if p.accion.ACalcular? then p.accion.nuevo else m.snapshot,
       lotes := if p.accion.AConfirmar? then m.lotes + [p.leido.value] else m.lotes,
       bitacora := m.bitacora + [Compromiso(m.version, p.accion)])
  }

  function Avanzar(m: Mundo, x: Momento): Mundo {
    match x
    case Empezar(a, esperada) =>
      if !Permitida(a, m.estado) then m
      else m.(pedidos := m.pedidos + [Pedido(a, esperada, m.estado, m.version, None, true)])
    case Leer(i) =>
      if i >= |m.pedidos| || m.pedidos[i].leido.Some? then m
      else m.(pedidos := m.pedidos[i := m.pedidos[i].(leido := Some(m.snapshot))])
    case Comprometer(i) =>
      if i >= |m.pedidos| then m
      else
        var p := m.pedidos[i];
        var m' := if Acierta(m, p) then Aplicar(m, p) else m;
        m'.(pedidos := m'.pedidos[i := p.(abierto := false)])
  }

  function Correr(m: Mundo, xs: seq<Momento>): Mundo {
    if xs == [] then m else Avanzar(Correr(m, xs[..|xs| - 1]), xs[|xs| - 1])
  }

  const Inicial := Mundo(Borrador, 1, [], [], [], [])

  /** The If-Match version of every confirmation had been reached when the request began. */
  ghost predicate VersionesAlcanzadas(m: Mundo) {
    forall i | 0 <= i < |m.pedidos| && m.pedidos[i].accion.AConfirmar? :: m.pedidos[i].esperada <= m.pedidos[i].version
  }

  /** Commits are numbered by the version they left behind; charges exist once the settlement was
      confirmed, in one lot; a request whose version still stands saw the row and snapshot in force. */
  ghost predicate Coherente(m: Mundo) {
    && m.version == 1 + |m.bitacora|
    && (forall k | 0 <= k < |m.bitacora| :: m.bitacora[k].version == 1 + k)
    && (m.estado == Borrador || m.estado == Calculada ==> m.lotes == [])
    && (m.estado == Confirmada || m.estado == Publicada ==> |m.lotes| == 1)
    && |m.lotes| <= 1
    && (forall i | 0 <= i < |m.pedidos| :: m.pedidos[i].version <= m.version && Permitida(m.pedidos[i].accion, m.pedidos[i].estado))
    && (forall i | 0 <= i < |m.pedidos| && m.pedidos[i].version == m.version :: m.pedidos[i].leido in {None, Some(m.snapshot)})
  }

  lemma AvanzarCoherente(m: Mundo, x: Momento)
    requires Coherente(m)
    ensures Coherente(Avanzar(m, x))
  {
  }

  lemma {:induction false} CorrerCoherente(m: Mundo, xs: seq<Momento>)
    requires Coherente(m)
    ensures Coherente(Correr(m, xs))
  {
    if xs != [] {
      CorrerCoherente(m, xs[..|xs| - 1]);
      AvanzarCoherente(Correr(m, xs[..|xs| - 1]), xs[|xs| - 1]);
    }
  }

  /** However requests interleave, no two transitions commit at one version, and charges are
      written at most once. */
  lemma UnaTransicionPorVersion(xs: seq<Momento>)
    ensures var m := Correr(Inicial, xs);
      && (forall j, k | 0 <= j < k < |m.bitacora| :: m.bitacora[j].version < m.bitacora[k].version)
      && |m.lotes| <= 1
  {
    CorrerCoherente(Inicial, xs);
  }

  lemma AvanzarVigente(m: Mundo, x: Momento)
    requires Coherente(m) && VersionesAlcanzadas(Avanzar(m, x))
    requires m.lotes == [] || m.lotes == [m.snapshot]
    ensures Avanzar(m, x).lotes == [] || Avanzar(m, x).lotes == [Avanzar(m, x).snapshot]
  {
    if x.Comprometer? && x.i < |m.pedidos| && Acierta(m, m.pedidos[x.i]) {
      var p := m.pedidos[x.i];
      assert Avanzar(m, x).pedidos[x.i] == p.(abierto := false);
    }
  }

  lemma PedidosPersisten(m: Mundo, x: Momento)
    requires VersionesAlcanzadas(Avanzar(m, x))
    ensures VersionesAlcanzadas(m)
  {
    forall i | 0 <= i < |m.pedidos| && m.pedidos[i].accion.AConfirmar?
      ensures m.pedidos[i].esperada <= m.pedidos[i].version
    {
      var p := Avanzar(m, x).pedidos[i];
      assert p.accion == m.pedidos[i].accion && p.esperada == m.pedidos[i].esperada && p.version == m.pedidos[i].version;
    }
  }

  /** If every If-Match version of a confirmation had been reached when its request began, the charges
      always come from the snapshot in force when they were committed (which then no longer changes). */
  lemma {:induction false} CargosDelSnapshotVigente(m: Mundo, xs: seq<Momento>)
    requires Coherente(m) && (m.lotes == [] || m.lotes == [m.snapshot])
    requires VersionesAlcanzadas(Correr(m, xs))
    ensures var m' := Correr(m, xs); m'.lotes == [] || m'.lotes == [m'.snapshot]
  {
    if xs != [] {
      var antes := Correr(m, xs[..|xs| - 1]);
      PedidosPersisten(antes, xs[|xs| - 1]);
      CorrerCoherente(m, xs[..|xs| - 1]);
      CargosDelSnapshotVigente(m, xs[..|xs| - 1]);
      AvanzarVigente(antes, xs[|xs| - 1]);
    }
  }

  // ---------- Why the condition is needed ----------

  /** `n` recalculations in a row, the last of which leaves the snapshot `nuevo`. */
  function Recalculos(n: nat, version: nat, desde: nat, nuevo: seq<UnidadSnap>): seq<Momento> {
    if n == 0 then []
    else Recalculos(n - 1, version, desde, nuevo)
         + [Empezar(ACalcular(nuevo), version + n - 1), Comprometer(desde + n - 1)]
  }

  lemma CorrerDos(m: Mundo, xs: seq<Momento>, a: Momento, b: Momento)
    ensures Correr(m, xs + [a, b]) == Avanzar(Avanzar(Correr(m, xs), a), b)
  {
    assert (xs + [a, b])[..|xs| + 1] == xs + [a];
    assert (xs + [a])[..|xs|] == xs;
  }

  /** `m'` is `m` after `n` recalculations, the requests already in flight untouched. */
  ghost predicate Recalculado(m: Mundo, m': Mundo, n: nat, nuevo: seq<UnidadSnap>) {
    && m'.estado == m.estado == Calculada && m'.version == m.version + n && m'.lotes == m.lotes
    && m'.snapshot == (if n == 0 then m.snapshot else nuevo)
    && |m'.pedidos| == |m.pedidos| + n
    && forall i | 0 <= i < |m.pedidos| :: m'.pedidos[i] == m.pedidos[i]
  }

  /** A recalculation that nobody interrupts commits. */
  lemma UnRecalculo(m: Mundo, nuevo: seq<UnidadSnap>)
    requires m.estado == Calculada
    ensures Recalculado(m, Avanzar(Avanzar(m, Empezar(ACalcular(nuevo), m.version)), Comprometer(|m.pedidos|)), 1, nuevo)
  {
    var m1 := Avanzar(m, Empezar(ACalcular(nuevo), m.version));
    assert Acierta(m1, m1.pedidos[|m.pedidos|]);
  }

  lemma {:induction false} RecalculosAvanzan(m: Mundo, n: nat, nuevo: seq<UnidadSnap>)
    requires m.estado == Calculada
    ensures Recalculado(m, Correr(m, Recalculos(n, m.version, |m.pedidos|, nuevo)), n, nuevo)
  {
    if n > 0 {
      RecalculosAvanzan(m, n - 1, nuevo);
      var m1 := Correr(m, Recalculos(n - 1, m.version, |m.pedidos|, nuevo));
      UltimoRecalculo(m, m1, n, nuevo);
      UnRecalculo(m1, nuevo);
      RecalculadoMas(m, m1, Avanzar(Avanzar(m1, Empezar(ACalcular(nuevo), m1.version)), Comprometer(|m1.pedidos|)), n - 1, nuevo);
    }
  }

  lemma UltimoRecalculo(m: Mundo, m1: Mundo, n: nat, nuevo: seq<UnidadSnap>)
    requires n > 0 && m1 == Correr(m, Recalculos(n - 1, m.version, |m.pedidos|, nuevo))
    requires m1.version == m.version + n - 1 && |m1.pedidos| == |m.pedidos| + n - 1
    ensures Correr(m, Recalculos(n, m.version, |m.pedidos|, nuevo))
      == Avanzar(Avanzar(m1, Empezar(ACalcular(nuevo), m1.version)), Comprometer(|m1.pedidos|))
  {
    CorrerDos(m, Recalculos(n - 1, m.version, |m.pedidos|, nuevo), Empezar(ACalcular(nuevo), m1.version), Comprometer(|m1.pedidos|));
  }

  lemma RecalculadoMas(m: Mundo, m1: Mundo, m2: Mundo, n: nat, nuevo: seq<UnidadSnap>)
    requires Recalculado(m, m1, n, nuevo) && Recalculado(m1, m2, 1, nuevo)
    ensures Recalculado(m, m2, n + 1, nuevo)
  {
  }

  /** A confirmation that has read the snapshot but not yet committed. */
  function Confirmando(m: Mundo, esperada: int): Mundo {
    m.(pedidos := m.pedidos + [Pedido(AConfirmar, esperada, m.estado, m.version, Some(m.snapshot), true)])
  }

  lemma EmpezarYLeer(m: Mundo, esperada: int)
    requires m.estado == Calculada
    ensures Correr(m, [Empezar(AConfirmar, esperada), Leer(|m.pedidos|)]) == Confirmando(m, esperada)
  {
    CorrerDos(m, [], Empezar(AConfirmar, esperada), Leer(|m.pedidos|));
    assert [] + [Empezar(AConfirmar, esperada), Leer(|m.pedidos|)] == [Empezar(AConfirmar, esperada), Leer(|m.pedidos|)];
    assert Correr(m, []) == m;
  }

  /** From any calculated settlement and for any If-Match version not yet reached, some interleaving
      commits charges for a snapshot that is no longer in force. So the condition above is exact. */
  lemma VersionFuturaRompe(m: Mundo, esperada: nat, nuevo: seq<UnidadSnap>) returns (xs: seq<Momento>)
    requires m.estado == Calculada && m.lotes == [] && esperada > m.version && nuevo != m.snapshot
    ensures xs != [] && xs[0] == Empezar(AConfirmar, esperada)
    ensures Correr(m, xs).estado == Confirmada
    ensures Correr(m, xs).lotes == [m.snapshot] && Correr(m, xs).snapshot == nuevo
    ensures Correr(m, xs).lotes != [Correr(m, xs).snapshot]
  {
    var i := |m.pedidos|;
    var inicio := [Empezar(AConfirmar, esperada), Leer(i)];
    var recalculos := Recalculos(esperada - m.version, m.version, i + 1, nuevo);
    var m1 := Confirmando(m, esperada);
    EmpezarYLeer(m, esperada);
    RecalculosAvanzan(m1, esperada - m.version, nuevo);
    var m2 := Correr(m1, recalculos);
    assert m2.pedidos[i] == m1.pedidos[i];
    CorrerConcat(m, inicio, recalculos);
    xs := inicio + recalculos + [Comprometer(i)];
    assert xs[..|xs| - 1] == inicio + recalculos;
    assert Acierta(m2, m2.pedidos[i]);
  }

  lemma {:induction false} CorrerConcat(m: Mundo, xs: seq<Momento>, ys: seq<Momento>)
    ensures Correr(m, xs + ys) == Correr(Correr(m, xs), ys)
  {
    if ys == [] {
      assert xs + ys == xs;
    } else {
      assert (xs + ys)[..|xs + ys| - 1] == xs + ys[..|ys| - 1];
      CorrerConcat(m, xs, ys[..|ys| - 1]);
    }
  }
}
