/** What each settlement operation needs and what it writes, row by row: who is charged what, when it is due,
    and that a stale version changes nothing (internal/expensas/transiciones.go,
    internal/expensas/liquidacion.go, internal/cuenta_corriente/cuenta_corriente.go). */
module LiquidacionesEfectos {
  import opened Comun
  import opened Liquidaciones
  import opened LiquidacionesInvariante

  // ---------- Versions ----------

  /** No operation touches the row of a settlement but the one addressed, of its own building, at the version
      the request was told (If-Match). */
  lemma SoloConVersion(b: Base, op: Op, x: nat)
    requires x < |b.liqs|
    ensures x < |Paso(b, op).0.liqs|
    ensures Paso(b, op).0.liqs[x] != b.liqs[x] ==>
      !op.Crear? && op.id == x && op.consorcio == b.liqs[x].consorcio && op.version == b.liqs[x].version
  {
  }

  predicate LlaveLibre(b: Base, ambito: Ambito, key: string) {
    key == "" || (ambito, key) !in b.llaves
  }

  /** The row of settlement `id` moves to `estado` at the next version; nothing else in the table changes. */
  predicate Pasa(b: Base, b': Base, id: nat, estado: Estado)
    requires id < |b.liqs|
  {
    b'.liqs == b.liqs[id := b.liqs[id].(estado := estado, version := b.liqs[id].version + 1)]
  }

  // ---------- Confirm ----------

  /** The charge a snapshot row gives rise to. */
  function CargoDeFila(u: UnidadSnap, id: nat, l: Liq): Cargo {
    Cargo(u.unidad, Some(id), "Expensa " + l.periodo, l.venc1, u.total, u.total)
  }

  ghost predicate UnidadesUnicas(us: seq<UnidadSnap>) {
    forall i, j | 0 <= i < j < |us| :: us[i].unidad != us[j].unidad
  }

  ghost predicate DeFila(c: Cargo, us: seq<UnidadSnap>, id: nat, l: Liq, j: int) {
    0 <= j < |us| && us[j].total > 0 && c == CargoDeFila(us[j], id, l)
  }

  ghost predicate DeAlguna(c: Cargo, us: seq<UnidadSnap>, id: nat, l: Liq) {
    exists j :: DeFila(c, us, id, l, j)
  }

  /** Every new charge is some row's. */
  ghost predicate SoloDeFilas(nuevos: seq<Cargo>, us: seq<UnidadSnap>, id: nat, l: Liq) {
    forall k | 0 <= k < |nuevos| :: DeAlguna(nuevos[k], us, id, l)
  }

  /** Every row with something to pay has its charge. */
  ghost predicate TodasLasFilas(nuevos: seq<Cargo>, us: seq<UnidadSnap>, id: nat, l: Liq) {
    forall j | 0 <= j < |us| && us[j].total > 0 :: CargoDeFila(us[j], id, l) in nuevos
  }

  ghost predicate UnoPorUnidad(nuevos: seq<Cargo>) {
    forall k, m | 0 <= k < m < |nuevos| :: nuevos[k].unidad != nuevos[m].unidad
  }

  /** Exactly one charge for each row with something to pay, and no other. */
  ghost predicate CobroFiel(nuevos: seq<Cargo>, us: seq<UnidadSnap>, id: nat, l: Liq) {
    SoloDeFilas(nuevos, us, id, l) && TodasLasFilas(nuevos, us, id, l) && UnoPorUnidad(nuevos)
  }

  lemma {:induction false} CargosSoloDeFilas(us: seq<UnidadSnap>, id: nat, l: Liq)
    ensures SoloDeFilas(CargosDe(us, id, l.periodo, l.venc1), us, id, l)
  {
    if us != [] {
      var n := |us| - 1;
      CargosSoloDeFilas(us[..n], id, l);
      SoloUnaMas(CargosDe(us[..n], id, l.periodo, l.venc1), us, id, l);
    }
  }

  lemma SoloUnaMas(previos: seq<Cargo>, us: seq<UnidadSnap>, id: nat, l: Liq)
    requires us != [] && SoloDeFilas(previos, us[..|us| - 1], id, l)
    ensures SoloDeFilas(previos, us, id, l)
    ensures us[|us| - 1].total > 0 ==> SoloDeFilas(previos + [CargoDeFila(us[|us| - 1], id, l)], us, id, l)
  {
    var n := |us| - 1;
    forall k | 0 <= k < |previos| ensures DeAlguna(previos[k], us, id, l) {
      assert DeAlguna(previos[k], us[..n], id, l);
      var j :| DeFila(previos[k], us[..n], id, l, j);
      assert DeFila(previos[k], us, id, l, j);
    }
    assert us[n].total > 0 ==> DeFila(CargoDeFila(us[n], id, l), us, id, l, n);
  }

  lemma {:induction false} CargosTodasLasFilas(us: seq<UnidadSnap>, id: nat, l: Liq)
    ensures TodasLasFilas(CargosDe(us, id, l.periodo, l.venc1), us, id, l)
  {
    if us != [] {
      var n := |us| - 1;
      CargosTodasLasFilas(us[..n], id, l);
      forall j | 0 <= j < |us| && us[j].total > 0 ensures CargoDeFila(us[j], id, l) in CargosDe(us, id, l.periodo, l.venc1) {
        if j < n {
          assert us[..n][j] == us[j];
        }
      }
    }
  }

  lemma {:induction false} CargosUnoPorUnidad(us: seq<UnidadSnap>, id: nat, l: Liq)
    requires UnidadesUnicas(us)
    ensures UnoPorUnidad(CargosDe(us, id, l.periodo, l.venc1))
  {
    if us != [] {
      var n := |us| - 1;
      assert UnidadesUnicas(us[..n]);
      CargosUnoPorUnidad(us[..n], id, l);
      CargosSoloDeFilas(us[..n], id, l);
      UnoMasPorUnidad(CargosDe(us[..n], id, l.periodo, l.venc1), us, id, l);
    }
  }

  lemma UnoMasPorUnidad(previos: seq<Cargo>, us: seq<UnidadSnap>, id: nat, l: Liq)
    requires us != [] && UnidadesUnicas(us) && UnoPorUnidad(previos) && SoloDeFilas(previos, us[..|us| - 1], id, l)
    ensures UnoPorUnidad(previos + [CargoDeFila(us[|us| - 1], id, l)])
  {
    var n := |us| - 1;
    forall k | 0 <= k < |previos| ensures previos[k].unidad != us[n].unidad {
      assert DeAlguna(previos[k], us[..n], id, l);
      var j :| DeFila(previos[k], us[..n], id, l, j);
      assert us[j] == us[..n][j];
    }
  }

  lemma LlavesAlcanzables(ops: seq<Op>)
    ensures LlavesOk(Correr(ops))
  {
    AlcanzableValida(ops);
  }

  lemma ConfirmarSi(b: Base, consorcio: nat, id: nat, version: int, key: string)
    requires LlavesOk(b)
    ensures var (b', r) := ConfirmarPaso(b, consorcio, id, version, key);
      && (r.Ok? <==> id < |b.liqs| && b.liqs[id].consorcio == consorcio && b.liqs[id].estado == Calculada
                     && b.liqs[id].version == version && LlaveLibre(b, AmbitoConfirmar, key))
      && (r.Err? ==> b' == b)
  {
  }

  /** In every reachable state a confirmation succeeds if and only if the settlement is a calculated one of the building, at the
      version told, under an unused key; otherwise it changes nothing. */
  lemma ConfirmarFunciona(ops: seq<Op>, consorcio: nat, id: nat, version: int, key: string)
    ensures var b := Correr(ops); var (b', r) := ConfirmarPaso(b, consorcio, id, version, key);
      && (r.Ok? <==> id < |b.liqs| && b.liqs[id].consorcio == consorcio && b.liqs[id].estado == Calculada
                     && b.liqs[id].version == version && LlaveLibre(b, AmbitoConfirmar, key))
      && (r.Err? ==> b' == b)
  {
    LlavesAlcanzables(ops);
    ConfirmarSi(Correr(ops), consorcio, id, version, key);
  }

  /** Beside each new charge, its debit entry, dated on the settlement's first due date. */
  ghost predicate DebitosFieles(b: Base, b': Base, id: nat) {
    && b.cargos <= b'.cargos && b.asientos <= b'.asientos
    && |b'.asientos| - |b.asientos| == |b'.cargos| - |b.cargos|
    && id < |b.liqs|
    && forall k | |b.cargos| <= k < |b'.cargos| ::
         b'.asientos[|b.asientos| + k - |b.cargos|] == Asiento(b'.cargos[k].unidad, TipoCargo, b.liqs[id].venc1, b'.cargos[k].total, 0, k)
  }

  /** What a confirmation writes: the new state, one charge for each snapshot row with something to pay, due on the
      settlement's first due date, and beside each its debit entry; nothing else. */
  ghost predicate Confirmado(b: Base, b': Base, id: nat) {
    && id < |b.liqs| && Pasa(b, b', id, Confirmada) && DebitosFieles(b, b', id)
    && CobroFiel(b'.cargos[|b.cargos|..], Filas(b.snapUnidades, id), id, b.liqs[id])
    && b' == b.(liqs := b'.liqs, cargos := b'.cargos, asientos := b'.asientos, llaves := b'.llaves)
  }

  /** Every successful confirmation does that. */
  lemma ConfirmarEscribe(ops: seq<Op>, consorcio: nat, id: nat, version: int, key: string)
    requires ConfirmarPaso(Correr(ops), consorcio, id, version, key).1.Ok?
    ensures var b := Correr(ops); var (b', r) := ConfirmarPaso(b, consorcio, id, version, key);
      Confirmado(b, b', id) && r == Ok(Dto(id, b'.liqs[id])) && UnidadesUnicas(Filas(b.snapUnidades, id))
  {
    var b := Correr(ops);
    ConfirmarFunciona(ops, consorcio, id, version, key);
    SnapAdmitido(ops, id);
    CobroDeFilas(Filas(b.snapUnidades, id), id, b.liqs[id]);
    ConfirmarFilas(b, consorcio, id, version, key);
  }

  lemma SnapAdmitido(ops: seq<Op>, id: nat)
    requires id < |Correr(ops).liqs|
    ensures UnidadesAdmitidas(Filas(Correr(ops).snapUnidades, id))
  {
    AlcanzableValida(ops);
    assert SnapOk(Correr(ops), id);
  }

  lemma CobroDeFilas(us: seq<UnidadSnap>, id: nat, l: Liq)
    requires UnidadesAdmitidas(us)
    ensures UnidadesUnicas(us) && CobroFiel(CargosDe(us, id, l.periodo, l.venc1), us, id, l)
  {
    UnicasSiAdmitidas(us);
    CargosSoloDeFilas(us, id, l);
    CargosTodasLasFilas(us, id, l);
    CargosUnoPorUnidad(us, id, l);
  }

  lemma UnicasSiAdmitidas(us: seq<UnidadSnap>)
    requires UnidadesAdmitidas(us)
    ensures UnidadesUnicas(us)
  {
    forall i, j | 0 <= i < j < |us| ensures us[i].unidad != us[j].unidad {
      assert AdmiteUnidad(us[..j], us[j]) && us[..j][i] == us[i];
    }
  }

  lemma {:induction false} VencenIgual(us: seq<UnidadSnap>, id: nat, periodo: string, vence: Fecha)
    ensures forall k | 0 <= k < |CargosDe(us, id, periodo, vence)| :: CargosDe(us, id, periodo, vence)[k].vence == vence
  {
    if us != [] {
      VencenIgual(us[..|us| - 1], id, periodo, vence);
    }
  }

  ghost predicate Confirmable(b: Base, consorcio: nat, id: nat, version: int, key: string) {
    && id < |b.liqs| && b.liqs[id].consorcio == consorcio && b.liqs[id].estado == Calculada
    && b.liqs[id].version == version && LlaveLibre(b, AmbitoConfirmar, key)
  }

  function CargosNuevos(b: Base, id: nat): seq<Cargo>
    requires id < |b.liqs|
  {
    CargosDe(Filas(b.snapUnidades, id), id, b.liqs[id].periodo, b.liqs[id].venc1)
  }

  lemma ConfirmarCampos(b: Base, consorcio: nat, id: nat, version: int, key: string)
    requires Confirmable(b, consorcio, id, version, key)
    ensures var (b', r) := ConfirmarPaso(b, consorcio, id, version, key); var nuevos := CargosNuevos(b, id);
      && b'.cargos == b.cargos + nuevos && b'.asientos == b.asientos + AsientosDe(nuevos, |b.cargos|)
      && Pasa(b, b', id, Confirmada) && r == Ok(Dto(id, b'.liqs[id]))
      && b' == b.(liqs := b'.liqs, cargos := b'.cargos, asientos := b'.asientos, llaves := b'.llaves)
  {
  }

  lemma DebitosDe(b: Base, b': Base, id: nat)
    requires id < |b.liqs|
    requires b'.cargos == b.cargos + CargosNuevos(b, id)
    requires b'.asientos == b.asientos + AsientosDe(CargosNuevos(b, id), |b.cargos|)
    ensures DebitosFieles(b, b', id)
  {
    VencenIgual(Filas(b.snapUnidades, id), id, b.liqs[id].periodo, b.liqs[id].venc1);
  }

  lemma ConfirmarFilas(b: Base, consorcio: nat, id: nat, version: int, key: string)
    requires Confirmable(b, consorcio, id, version, key)
    requires CobroFiel(CargosNuevos(b, id), Filas(b.snapUnidades, id), id, b.liqs[id])
    ensures Confirmado(b, ConfirmarPaso(b, consorcio, id, version, key).0, id)
    ensures ConfirmarPaso(b, consorcio, id, version, key).1 == Ok(Dto(id, ConfirmarPaso(b, consorcio, id, version, key).0.liqs[id]))
  {
    ConfirmarCampos(b, consorcio, id, version, key);
    var b' := ConfirmarPaso(b, consorcio, id, version, key).0;
    DebitosDe(b, b', id);
    assert b'.cargos[|b.cargos|..] == CargosNuevos(b, id);
  }

  // ---------- Publish and annul ----------

  /** In every reachable state a publication succeeds if and only if the settlement is a confirmed one of the building, at the version
      told, under an unused key; it then queues one event with the settlement's own period and building, and writes nothing else. */
  lemma PublicarFunciona(ops: seq<Op>, consorcio: nat, id: nat, version: int, key: string)
    ensures var b := Correr(ops); var (b', r) := PublicarPaso(b, consorcio, id, version, key);
      && (r.Ok? <==> id < |b.liqs| && b.liqs[id].consorcio == consorcio && b.liqs[id].estado == Confirmada
                     && b.liqs[id].version == version && LlaveLibre(b, AmbitoPublicar, key))
      && (r.Err? ==> b' == b)
      && (r.Ok? ==> Pasa(b, b', id, Publicada) && r == Ok(Dto(id, b'.liqs[id]))
                    && b'.eventos == b.eventos + [Evento(id, b.liqs[id].periodo, b.liqs[id].consorcio)]
                    && b' == b.(liqs := b'.liqs, eventos := b'.eventos, llaves := b'.llaves))
  {
    LlavesAlcanzables(ops);
  }

  /** An annulment succeeds if and only if the settlement is of the building, at the version told, and not yet published, annulled or
      closed; nothing else changes but its charges. */
  lemma AnularFunciona(b: Base, consorcio: nat, id: nat, version: int)
    ensures var (b', r) := AnularPaso(b, consorcio, id, version);
      && (r.Ok? <==> id < |b.liqs| && b.liqs[id].consorcio == consorcio && b.liqs[id].version == version
                     && b.liqs[id].estado in {Borrador, Calculada, Confirmada})
      && (r.Err? ==> b' == b)
      && (r.Ok? ==> Pasa(b, b', id, Anulada) && r == Ok(Dto(id, b'.liqs[id]))
                    && b' == b.(liqs := b'.liqs, cargos := b'.cargos, asientos := b'.asientos))
  {
  }

  ghost predicate Debida(cs: seq<Cargo>, id: nat, k: nat) {
    k < |cs| && cs[k].liq == Some(id) && cs[k].saldo > 0
  }

  ghost predicate EsReversa(e: Asiento, cs: seq<Cargo>, id: nat, k: nat) {
    Debida(cs, id, k) && e == Asiento(cs[k].unidad, TipoReversa, cs[k].vence, 0, cs[k].total, k)
  }

  ghost predicate SoloReversas(es: seq<Asiento>, cs: seq<Cargo>, id: nat) {
    forall i | 0 <= i < |es| :: EsReversa(es[i], cs, id, es[i].cargo)
  }

  ghost predicate EnOrdenDeCargo(es: seq<Asiento>) {
    forall i, j | 0 <= i < j < |es| :: es[i].cargo < es[j].cargo
  }

  ghost predicate Revertido(es: seq<Asiento>, k: nat) {
    exists i | 0 <= i < |es| :: es[i].cargo == k
  }

  ghost predicate TodasRevertidas(es: seq<Asiento>, cs: seq<Cargo>, id: nat) {
    forall k | 0 <= k < |cs| && Debida(cs, id, k) :: Revertido(es, k)
  }

  /** One reversal for each charge of the settlement that was due, in their order, and no other. */
  ghost predicate ReversaFiel(es: seq<Asiento>, cs: seq<Cargo>, id: nat) {
    SoloReversas(es, cs, id) && EnOrdenDeCargo(es) && TodasRevertidas(es, cs, id)
  }

  lemma {:induction false} ReversasFieles(cs: seq<Cargo>, id: nat)
    ensures ReversaFiel(AsientosReversa(cs, id), cs, id)
  {
    if cs != [] {
      var n := |cs| - 1;
      var previas := AsientosReversa(cs[..n], id);
      ReversasFieles(cs[..n], id);
      if Debida(cs, id, n) {
        ReversaUnaMas(previas, cs, id);
      } else {
        ReversaNinguna(previas, cs, id);
        assert AsientosReversa(cs, id) == previas;
      }
    }
  }

  lemma ReversaNinguna(previas: seq<Asiento>, cs: seq<Cargo>, id: nat)
    requires cs != [] && ReversaFiel(previas, cs[..|cs| - 1], id) && !Debida(cs, id, |cs| - 1)
    ensures ReversaFiel(previas, cs, id)
  {
    var n := |cs| - 1;
    SiguenReversas(previas, cs, id);
    forall k | 0 <= k < |cs| && Debida(cs, id, k) ensures Revertido(previas, k) {
      assert Debida(cs[..n], id, k);
    }
  }

  lemma SiguenReversas(previas: seq<Asiento>, cs: seq<Cargo>, id: nat)
    requires cs != [] && SoloReversas(previas, cs[..|cs| - 1], id)
    ensures SoloReversas(previas, cs, id) && forall i | 0 <= i < |previas| :: previas[i].cargo < |cs| - 1
  {
    forall i | 0 <= i < |previas| ensures EsReversa(previas[i], cs, id, previas[i].cargo) && previas[i].cargo < |cs| - 1 {
      assert EsReversa(previas[i], cs[..|cs| - 1], id, previas[i].cargo);
    }
  }

  lemma ReversaUnaMas(previas: seq<Asiento>, cs: seq<Cargo>, id: nat)
    requires cs != [] && ReversaFiel(previas, cs[..|cs| - 1], id) && Debida(cs, id, |cs| - 1)
    ensures var c := cs[|cs| - 1]; ReversaFiel(previas + [Asiento(c.unidad, TipoReversa, c.vence, 0, c.total, |cs| - 1)], cs, id)
  {
    var n := |cs| - 1;
    var es := previas + [Asiento(cs[n].unidad, TipoReversa, cs[n].vence, 0, cs[n].total, n)];
    SiguenReversas(previas, cs, id);
    assert es[|previas|].cargo == n;
    forall k | 0 <= k < |cs| && Debida(cs, id, k) ensures Revertido(es, k) {
      if k < n {
        assert Debida(cs[..n], id, k) && Revertido(previas, k);
        var i :| 0 <= i < |previas| && previas[i].cargo == k;
        assert es[i].cargo == k;
      }
    }
  }

  /** Annulling a confirmed settlement leaves each of its charges that was due at zero, with one reversal of its whole amount in the
      ledger, and touches no other charge and no other entry. */
  lemma AnularReversa(b: Base, consorcio: nat, id: nat, version: int)
    requires AnularPaso(b, consorcio, id, version).1.Ok? && b.liqs[id].estado == Confirmada
    ensures var b' := AnularPaso(b, consorcio, id, version).0;
      && |b'.cargos| == |b.cargos| && b.asientos <= b'.asientos
      && ReversaFiel(b'.asientos[|b.asientos|..], b.cargos, id)
      && (forall k | 0 <= k < |b.cargos| ::
            b'.cargos[k] == if b.cargos[k].liq == Some(id) && b.cargos[k].saldo > 0 then b.cargos[k].(saldo := 0) else b.cargos[k])
  {
    ReversasFieles(b.cargos, id);
    assert AnularPaso(b, consorcio, id, version).0.asientos[|b.asientos|..] == AsientosReversa(b.cargos, id);
  }

  // ---------- Create ----------

  /** A settlement is created if and only if the period is six digits, the due dates are in order and the building has no active one of the
      period; it is then a draft at version 1 with the dates asked for, and nothing else changes. */
  lemma CrearFunciona(b: Base, consorcio: nat, periodo: string, v1: Fecha, v2: Option<Fecha>)
    ensures var (b', r) := CrearPaso(b, consorcio, periodo, v1, v2);
      && (r.Ok? <==> |periodo| == 6 && (forall i | 0 <= i < 6 :: '0' <= periodo[i] <= '9') && (v2.Some? ==> v1 <= v2.value)
                     && forall i | 0 <= i < |b.liqs| && b.liqs[i].consorcio == consorcio && b.liqs[i].periodo == periodo ::
                          b.liqs[i].estado == Anulada || b.liqs[i].estado == Cerrada)
      && (r.Err? ==> b' == b)
      && (r.Ok? ==> b' == b.(liqs := b.liqs + [Liq(consorcio, periodo, v1, v2, Borrador, 1, 0, 0, 0)])
                    && r == Ok(Dto(|b.liqs|, b'.liqs[|b.liqs|])))
  {
  }

  /** Due dates change, and nothing else does, exactly on a draft of the building at the version told; the answer says only whether
      the dates are in order. */
  lemma VencimientosFunciona(b: Base, consorcio: nat, id: nat, v1: Fecha, v2: Option<Fecha>, version: int)
    ensures var (b', r) := VencimientosPaso(b, consorcio, id, v1, v2, version); var bien := v2.Some? ==> v1 <= v2.value;
      && r == (if bien then Ok(Vacio) else Err(Invalida))
      && b' == if bien && id < |b.liqs| && b.liqs[id].consorcio == consorcio && b.liqs[id].estado == Borrador && b.liqs[id].version == version
               then b.(liqs := b.liqs[id := b.liqs[id].(venc1 := v1, venc2 := v2)]) else b
  {
  }

  // ---------- Events over runs ----------

  lemma DatosTrasCalcular(b: Base, op: Op, x: nat)
    requires x < |b.liqs| && op.Calcular?
    ensures x < |Paso(b, op).0.liqs|
    ensures Paso(b, op).0.liqs[x].periodo == b.liqs[x].periodo && Paso(b, op).0.liqs[x].consorcio == b.liqs[x].consorcio
  {
  }

  /** A settlement keeps its period and its building. */
  lemma DatosFijos(b: Base, op: Op, x: nat)
    requires x < |b.liqs|
    ensures x < |Paso(b, op).0.liqs|
    ensures Paso(b, op).0.liqs[x].periodo == b.liqs[x].periodo && Paso(b, op).0.liqs[x].consorcio == b.liqs[x].consorcio
  {
    if op.Calcular? {
      DatosTrasCalcular(b, op, x);
    }
  }

  ghost predicate EventoFiel(b: Base, e: Evento) {
    e.liq < |b.liqs| && e.periodo == b.liqs[e.liq].periodo && e.consorcio == b.liqs[e.liq].consorcio
  }

  lemma EventosPorPaso(b: Base, op: Op)
    requires forall i | 0 <= i < |b.eventos| :: EventoFiel(b, b.eventos[i])
    ensures forall i | 0 <= i < |Paso(b, op).0.eventos| :: EventoFiel(Paso(b, op).0, Paso(b, op).0.eventos[i])
  {
    var b' := Paso(b, op).0;
    forall i | 0 <= i < |b'.eventos| ensures EventoFiel(b', b'.eventos[i]) {
      if i < |b.eventos| {
        assert b'.eventos[i] == b.eventos[i] && EventoFiel(b, b.eventos[i]);
        DatosFijos(b, op, b.eventos[i].liq);
      }
    }
  }

  /** In every reachable state each event carries the period and building of its settlement. */
  lemma {:induction false} EventosFieles(ops: seq<Op>)
    ensures forall i | 0 <= i < |Correr(ops).eventos| :: EventoFiel(Correr(ops), Correr(ops).eventos[i])
  {
    if ops != [] {
      EventosFieles(ops[..|ops| - 1]);
      EventosPorPaso(Correr(ops[..|ops| - 1]), ops[|ops| - 1]);
    }
  }
}
