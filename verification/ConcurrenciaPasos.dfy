/** A request nobody interrupts does in the concurrent model what the settlement's own step does: the two describe
    one row, one version and one snapshot (internal/expensas/transiciones.go). */
module ConcurrenciaPasos {
  import opened Comun
  import opened Distribucion
  import opened DistribucionOrden
  import opened Agrupacion
  import opened Liquidaciones
  import opened LiquidacionesEfectos
  import opened CalculoEfectos
  import C = Concurrencia

  /** The row and snapshot of settlement `id` are those of `m`. */
  ghost predicate Refleja(m: C.Mundo, b: Base, id: nat) {
    id < |b.liqs| && m.estado == b.liqs[id].estado && m.version == b.liqs[id].version && m.snapshot == Filas(b.snapUnidades, id)
  }

  /** The request's three moments, one after another. */
  function SinInterrupcion(m: C.Mundo, a: C.Accion, version: int): C.Mundo {
    var n := |m.pedidos|;
    C.Avanzar(C.Avanzar(C.Avanzar(m, C.Empezar(a, version)), C.Leer(n)), C.Comprometer(n))
  }

  lemma SonTresMomentos(m: C.Mundo, a: C.Accion, version: int)
    ensures SinInterrupcion(m, a, version) == C.Correr(m, [C.Empezar(a, version), C.Leer(|m.pedidos|), C.Comprometer(|m.pedidos|)])
  {
    var xs := [C.Empezar(a, version), C.Leer(|m.pedidos|), C.Comprometer(|m.pedidos|)];
    assert xs[..2][..1] == [xs[0]] && xs[..1][..0] == [] && xs[..2][1] == xs[1];
    assert C.Correr(m, xs[..1]) == C.Avanzar(m, xs[0]);
    assert C.Correr(m, xs[..2]) == C.Avanzar(C.Avanzar(m, xs[0]), xs[1]);
  }

  /** What the three moments come to. */
  lemma DeUnaVez(m: C.Mundo, a: C.Accion, version: int)
    ensures var m' := SinInterrupcion(m, a, version);
      if C.Permitida(a, m.estado) && m.version == version then
        && m'.estado == C.Destino(a) && m'.version == m.version + 1
        && m'.snapshot == (if a.ACalcular? then a.nuevo else m.snapshot)
        && m'.lotes == m.lotes + (if a.AConfirmar? then [m.snapshot] else [])
      else m'.estado == m.estado && m'.version == m.version && m'.snapshot == m.snapshot && m'.lotes == m.lotes
  {
    var n := |m.pedidos|;
    if C.Permitida(a, m.estado) {
      var m1 := C.Avanzar(m, C.Empezar(a, version));
      var m2 := C.Avanzar(m1, C.Leer(n));
      assert m2.pedidos[n] == C.Pedido(a, version, m.estado, m.version, Some(m.snapshot), true);
    }
  }

  /** Confirming: same row, and the lot the request commits is the snapshot whose charges the step writes. */
  lemma ConfirmarRefleja(m: C.Mundo, b: Base, consorcio: nat, id: nat, version: int, key: string)
    requires Refleja(m, b, id) && b.liqs[id].consorcio == consorcio && LlaveLibre(b, AmbitoConfirmar, key)
    ensures var m', b' := SinInterrupcion(m, C.AConfirmar, version), ConfirmarPaso(b, consorcio, id, version, key).0;
      && Refleja(m', b', id)
      && (if m'.lotes == m.lotes then b'.cargos == b.cargos
          else m'.lotes == m.lotes + [Filas(b.snapUnidades, id)]
               && b'.cargos == b.cargos + CargosDe(Filas(b.snapUnidades, id), id, b.liqs[id].periodo, b.liqs[id].venc1))
  {
    DeUnaVez(m, C.AConfirmar, version);
  }

  lemma PublicarRefleja(m: C.Mundo, b: Base, consorcio: nat, id: nat, version: int, key: string)
    requires Refleja(m, b, id) && b.liqs[id].consorcio == consorcio && LlaveLibre(b, AmbitoPublicar, key)
    ensures Refleja(SinInterrupcion(m, C.APublicar, version), PublicarPaso(b, consorcio, id, version, key).0, id)
  {
    DeUnaVez(m, C.APublicar, version);
  }

  lemma AnularRefleja(m: C.Mundo, b: Base, consorcio: nat, id: nat, version: int)
    requires Refleja(m, b, id) && b.liqs[id].consorcio == consorcio
    ensures Refleja(SinInterrupcion(m, C.AAnular, version), AnularPaso(b, consorcio, id, version).0, id)
  {
    DeUnaVez(m, C.AAnular, version);
  }

  /** A calculation that can be computed reaches its conditional update; `nuevo` is the snapshot it brings. */
  lemma CalcularRefleja(m: C.Mundo, b: Base, consorcio: nat, id: nat, version: int, key: string,
                        gastos: seq<Gasto>, ufs: seq<UF>, red: Redondeo, nuevo: seq<UnidadSnap>)
    requires Refleja(m, b, id) && b.liqs[id].consorcio == consorcio && LlaveLibre(b, AmbitoCalcular, key)
    requires CodigosDistintos(ufs) && Calculable(gastos, ufs)
    requires nuevo == SnapDe(Reparto(Agrupados(Registrados(gastos)), Ordenar(ufs), red).unidades)
    ensures Refleja(SinInterrupcion(m, C.ACalcular(nuevo), version), CalcularPaso(b, consorcio, id, version, key, gastos, ufs, red).0, id)
  {
    DeUnaVez(m, C.ACalcular(nuevo), version);
    CalcularFunciona(b, consorcio, id, version, key, gastos, ufs, red);
    if CalcularPaso(b, consorcio, id, version, key, gastos, ufs, red).1.Ok? {
      CalcularCampos(b, consorcio, id, version, key, gastos, ufs, red);
    }
  }
}
