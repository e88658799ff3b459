/** What payments promise over every run. */
module CobranzasTeoremas {
  import opened Comun
  import opened Imputacion
  import opened Huella
  import opened Cobranzas

  /** In every run, in any order: only credited payments hold allocations, to distinct charges, for
      positive amounts, and never beyond the payment; so the clamp on the leftover credit never acts. */
  lemma AsignacionDentroDelPago(ops: seq<Op>, id: nat)
    requires id < |Correr(ops).pagos|
    ensures var b := Correr(ops);
      var p, filas := b.pagos[id], De(b.asignaciones, id);
      && (p.estado != Acreditado ==> filas == [])
      && (forall i | 0 <= i < |filas| :: filas[i].monto > 0)
      && (forall i, j | 0 <= i < j < |filas| :: filas[i].cargo != filas[j].cargo)
      && Suma(MontosDe(filas)) <= p.Importe()
      && (p.estado == Acreditado ==> SaldoAFavor(p, filas) == p.Importe() - Suma(MontosDe(filas)))
  {
    AlcanzableValida(ops);
    assert PagoOk(Correr(ops), id);
  }

  ghost predicate RespuestaFiel(paso: (Base, Respuesta), id: nat) {
    paso.1.Ok? ==>
      && id < |paso.0.pagos| && paso.1.value.pago == paso.0.pagos[id]
      && paso.1.value.saldoAFavor == SaldoAFavor(paso.0.pagos[id], De(paso.0.asignaciones, id))
      && (paso.1.value.pago.estado == Acreditado ==> paso.1.value.asignaciones == De(paso.0.asignaciones, id))
  }

  lemma AcreditarFiel(b: Base, id: nat, pedidas: seq<Asignacion>, abiertos: seq<CargoAbierto>, cargos: set<nat>)
    requires Valida(b)
    ensures RespuestaFiel(AcreditarPaso(b, id, pedidas, abiertos, cargos), id)
  {
    AcreditarPasoConserva(b, id, pedidas, abiertos, cargos);
    if AcreditarPaso(b, id, pedidas, abiertos, cargos).1.Ok? {
      assert PagoOk(AcreditarPaso(b, id, pedidas, abiertos, cargos).0, id);
    }
  }

  lemma AjustarFiel(b: Base, id: nat, pedidas: seq<Asignacion>, cargos: set<nat>)
    requires Valida(b)
    ensures RespuestaFiel(AjustarPaso(b, id, pedidas, cargos), id)
  {
    AcreditarPasoConserva(b, id, pedidas, [], cargos);
    if AjustarPaso(b, id, pedidas, cargos).1.Ok? {
      assert PagoOk(AjustarPaso(b, id, pedidas, cargos).0, id);
    }
  }

  lemma RevertirFiel(b: Base, id: nat)
    requires Valida(b)
    ensures RespuestaFiel(RevertirPaso(b, id), id)
  {
    RevertirConserva(b, id);
  }

  /** Whatever crediting, adjusting or reversing answers as leftover credit is what anyone would
      recompute from the rows it leaves, and the payment it shows is the stored one. */
  lemma SaldoDevueltoEsElRecalculado(ops: seq<Op>, id: nat, pedidas: seq<Asignacion>, abiertos: seq<CargoAbierto>, cargos: set<nat>, paso: (Base, Respuesta))
    requires var b := Correr(ops);
      || paso == AcreditarPaso(b, id, pedidas, abiertos, cargos)
      || paso == AjustarPaso(b, id, pedidas, cargos)
      || paso == RevertirPaso(b, id)
    requires paso.1.Ok?
    ensures id < |paso.0.pagos| && paso.1.value.pago == paso.0.pagos[id]
    ensures paso.1.value.saldoAFavor == SaldoAFavor(paso.0.pagos[id], De(paso.0.asignaciones, id))
    ensures paso.1.value.pago.estado == Acreditado ==> paso.1.value.asignaciones == De(paso.0.asignaciones, id)
  {
    AlcanzableValida(ops);
    AcreditarFiel(Correr(ops), id, pedidas, abiertos, cargos);
    AjustarFiel(Correr(ops), id, pedidas, cargos);
    RevertirFiel(Correr(ops), id);
  }

  // ---------- The webhook ----------

  /** Step `op` is the webhook crediting payment `id`. */
  predicate AcreditaPorWebhook(b: Base, op: Op, id: nat) {
    && op.Webhook? && id < |b.pagos| && id < |Paso(b, op).pagos|
    && b.pagos[id].estado != Acreditado && Paso(b, op).pagos[id].estado == Acreditado
  }

  /** A delivery touches no payment that is not awaiting review. */
  lemma WebhookSoloPendientes(b: Base, op: Op, id: nat)
    requires op.Webhook? && id < |b.pagos| && b.pagos[id].estado != PendienteRevision
    ensures id < |Paso(b, op).pagos| && Paso(b, op).pagos[id] == b.pagos[id]
    ensures De(Paso(b, op).asignaciones, id) == De(b.asignaciones, id)
  {
  }

  lemma NoVuelveAPendiente(b: Base, op: Op, id: nat)
    requires id < |b.pagos| && b.pagos[id].estado != PendienteRevision
    ensures id < |Paso(b, op).pagos| && Paso(b, op).pagos[id].estado != PendienteRevision
  {
  }

  lemma {:induction false} NoVuelveEnCorrida(ops: seq<Op>, n: nat, id: nat)
    requires n <= |ops| && id < |Correr(ops[..n]).pagos| && Correr(ops[..n]).pagos[id].estado != PendienteRevision
    ensures id < |Correr(ops).pagos| && Correr(ops).pagos[id].estado != PendienteRevision
    decreases |ops| - n
  {
    if n == |ops| {
      assert ops[..n] == ops;
    } else {
      assert ops[..n + 1][..n] == ops[..n];
      NoVuelveAPendiente(Correr(ops[..n]), ops[n], id);
      NoVuelveEnCorrida(ops, n + 1, id);
    }
  }

  /** However often and in whatever order deliveries are replayed among the other operations, the
      webhook credits a payment at most once, and never once it has been credited, rejected or
      reversed by anyone. */
  lemma WebhookUnaVez(ops: seq<Op>, n: nat, j: nat, id: nat)
    requires n <= j < |ops| && id < |Correr(ops[..n]).pagos|
    requires Correr(ops[..n]).pagos[id].estado != PendienteRevision
    ensures !AcreditaPorWebhook(Correr(ops[..j]), ops[j], id)
  {
    assert ops[..j][..n] == ops[..n];
    NoVuelveEnCorrida(ops[..j], n, id);
    if ops[j].Webhook? {
      WebhookSoloPendientes(Correr(ops[..j]), ops[j], id);
    }
  }

  lemma WebhookNoRepite(ops: seq<Op>, i: nat, j: nat, id: nat)
    requires i < j < |ops| && AcreditaPorWebhook(Correr(ops[..i]), ops[i], id)
    ensures !AcreditaPorWebhook(Correr(ops[..j]), ops[j], id)
  {
    assert ops[..i + 1][..i] == ops[..i];
    WebhookUnaVez(ops, i + 1, j, id);
  }

  /** Open charges as the query returns them: rows of the charges table, each once. */
  ghost predicate ListaDeCargos(abiertos: seq<CargoAbierto>, cargos: set<nat>) {
    && (forall i | 0 <= i < |abiertos| :: abiertos[i].id in cargos)
    && (forall i, j | 0 <= i < j < |abiertos| :: abiertos[i].id != abiertos[j].id)
  }

  /** FIFO over listed charges is always accepted. */
  lemma FifoAdmitido(p: Pago, abiertos: seq<CargoAbierto>, cargos: set<nat>)
    requires ListaDeCargos(abiertos, cargos)
    ensures Fifo(p, abiertos, cargos) == Ok(Asignadas(abiertos, p.Importe(), |abiertos|))
  {
    var filas := Asignadas(abiertos, p.Importe(), |abiertos|);
    AsignadasOrdenadas(abiertos, p.Importe(), |abiertos|);
    forall k | 0 <= k < |filas| ensures AdmiteFila(filas[..k], filas[k], cargos) {
      assert DeLaLista(abiertos, |abiertos|, filas[k]);
    }
  }

  /** The comments promise that a status nobody knows is recorded without breaking the webhook. It is
      not: a delivery for a known preference succeeds exactly when the intents table accepts its
      status, so "authorized", which the code lists among those it expects, is refused too. */
  lemma WebhookResponde(ops: seq<Op>, pref: string, status: string, abiertos: seq<CargoAbierto>, cargos: set<nat>)
    requires ListaDeCargos(abiertos, cargos)
    ensures var b := Correr(ops);
      WebhookPaso(b, pref, status, abiertos, cargos).1.Ok? <==> pref != "" && (pref !in b.intentos || EstadoDeIntento(status))
  {
    AlcanzableValida(ops);
    var b := Correr(ops);
    if pref in b.intentos {
      FifoAdmitido(b.pagos[b.intentos[pref].pago], abiertos, cargos);
    }
  }

  lemma WebhookAuthorizedFalla(b: Base, pref: string, abiertos: seq<CargoAbierto>, cargos: set<nat>)
    requires pref != "" && pref in b.intentos
    ensures WebhookPaso(b, pref, "authorized", abiertos, cargos) == (b, Err(Restriccion))
  {
    assert !EstadoDeIntento("authorized");
  }

  // ---------- Creating a payment ----------

  function RespuestaDe(b: Base, op: Op): Result<RespuestaAlta, ErrorCobro>
    requires op.Crear?
  {
    CrearPaso(b, op.consorcio, op.v, op.key, op.hallada).1
  }

  lemma AltaGuardada(b: Base, op: Op)
    requires op.Crear? && op.key != "" && EsValidada(op.consorcio, op.v) && RespuestaDe(b, op).Ok?
    ensures op.key in Paso(b, op).llaves
    ensures Paso(b, op).llaves[op.key] == FilaLlave(TextoHuella(op.consorcio, op.key, op.v), RespuestaDe(b, op).value)
  {
  }

  lemma {:induction false} LlavePersiste(ops: seq<Op>, n: nat, key: string)
    requires n <= |ops| && key in Correr(ops[..n]).llaves
    ensures key in Correr(ops).llaves && Correr(ops).llaves[key] == Correr(ops[..n]).llaves[key]
    decreases |ops| - n
  {
    if n == |ops| {
      assert ops[..n] == ops;
    } else {
      assert ops[..n + 1][..n] == ops[..n];
      LlavePersiste(ops, n + 1, key);
    }
  }

  /** Under one key a payment is created at most once. The same request repeated gets the first answer,
      a real one; a different request is refused; neither changes anything. A repeat that names a unit the
      consorcio does not have is not found, before its key is looked at. */
  lemma UnaSolaAlta(ops: seq<Op>, i: nat, j: nat)
    requires i < j < |ops| && ops[i].Crear? && ops[j].Crear? && ops[i].key == ops[j].key != ""
    requires EsValidada(ops[i].consorcio, ops[i].v) && EsValidada(ops[j].consorcio, ops[j].v)
    requires RespuestaDe(Correr(ops[..i]), ops[i]).Ok?
    ensures var bj := Correr(ops[..j]);
      && Paso(bj, ops[j]) == bj
      && RespuestaDe(bj, ops[j]) ==
           (if !ops[j].hallada then Err(NoEncontrada)
            else if (ops[j].consorcio, ops[j].v) == (ops[i].consorcio, ops[i].v) then RespuestaDe(Correr(ops[..i]), ops[i])
            else Err(LlaveEnUso))
      && RespuestaDe(Correr(ops[..i]), ops[i]).value.Alta?
  {
    var key := ops[i].key;
    AlcanzableValida(ops[..i]);
    AltaGuardada(Correr(ops[..i]), ops[i]);
    assert ops[..i + 1][..i] == ops[..i];
    assert ops[..j][..i + 1] == ops[..i + 1];
    LlavePersiste(ops[..j], i + 1, key);
    if TextoHuella(ops[j].consorcio, key, ops[j].v) == TextoHuella(ops[i].consorcio, key, ops[i].v) {
      HuellaInyectiva(key, ops[i].consorcio, ops[i].v, ops[j].consorcio, ops[j].v);
    }
  }
}
