/** What each operation on a payment needs and what it leaves: which charges it covers, with how much, and which rows
    stay as they were (internal/cobranzas/cobranzas.go, acreditacion.go, mercadopago_webhook.go). */
module CobranzasEfectos {
  import opened Comun
  import opened Imputacion
  import opened Huella
  import opened Cobranzas
  import opened CobranzasTeoremas

  // ---------- Oldest first ----------

  /** A row covers part or all of some listed charge. */
  ghost predicate Cubre(a: Asignacion, cs: seq<CargoAbierto>, j: int) {
    0 <= j < |cs| && cs[j].id == a.cargo && 0 < a.monto <= cs[j].saldo
  }

  ghost predicate CubreAlguno(a: Asignacion, cs: seq<CargoAbierto>) {
    exists j :: Cubre(a, cs, j)
  }

  /** Every charge before the `j`-th that owes anything is covered in full. */
  ghost predicate AnterioresPagos(filas: seq<Asignacion>, cs: seq<CargoAbierto>, j: nat) {
    forall i | 0 <= i < j && i < |cs| && cs[i].saldo > 0 :: Asignacion(cs[i].id, cs[i].saldo) in filas
  }

  /** A charge is covered only after all the older ones. */
  ghost predicate PorAntiguedad(filas: seq<Asignacion>, cs: seq<CargoAbierto>) {
    forall a, j | a in filas && 0 <= j < |cs| && cs[j].id == a.cargo :: AnterioresPagos(filas, cs, j)
  }

  /** One row per charge covered. */
  ghost predicate UnaPorCargo(filas: seq<Asignacion>) {
    forall x, y | 0 <= x < y < |filas| :: filas[x].cargo != filas[y].cargo
  }

  /** `filas` spends the payment on the charges oldest first: in all, the amount paid or the amount owed, whichever is less. */
  ghost predicate EsFifo(filas: seq<Asignacion>, cs: seq<CargoAbierto>, importe: int) {
    && (forall a | a in filas :: CubreAlguno(a, cs))
    && PorAntiguedad(filas, cs) && UnaPorCargo(filas)
    && Suma(MontosDe(filas)) == Menor(importe, Suma(SaldosPositivos(cs)))
  }

  ghost predicate IdsDistintos(cs: seq<CargoAbierto>) {
    forall i, j | 0 <= i < j < |cs| :: cs[i].id != cs[j].id
  }

  lemma {:induction false} AsignadasSon(cs: seq<CargoAbierto>, importe: int, n: nat, a: Asignacion)
    requires n <= |cs|
    ensures a in Asignadas(cs, importe, n)
      <==> exists j :: 0 <= j < n && cs[j].id == a.cargo && a.monto == Monto(cs, importe, j) && a.monto > 0
  {
    if n > 0 {
      AsignadasSon(cs, importe, n - 1, a);
    }
  }

  lemma AsignadasPorAntiguedad(cs: seq<CargoAbierto>, importe: int)
    requires IdsDistintos(cs)
    ensures PorAntiguedad(Asignadas(cs, importe, |cs|), cs)
  {
    var filas := Asignadas(cs, importe, |cs|);
    FifoCompleto(cs, importe);
    forall a, j, i | a in filas && 0 <= j < |cs| && cs[j].id == a.cargo && 0 <= i < j && cs[i].saldo > 0
      ensures Asignacion(cs[i].id, cs[i].saldo) in filas
    {
      AsignadasSon(cs, importe, |cs|, a);
      assert Monto(cs, importe, j) > 0;
      AsignadasSon(cs, importe, |cs|, Asignacion(cs[i].id, cs[i].saldo));
    }
  }

  lemma AsignadasCubren(cs: seq<CargoAbierto>, importe: int)
    ensures forall a | a in Asignadas(cs, importe, |cs|) :: CubreAlguno(a, cs)
  {
    forall a | a in Asignadas(cs, importe, |cs|) ensures CubreAlguno(a, cs) {
      AsignadasSon(cs, importe, |cs|, a);
      var j :| 0 <= j < |cs| && cs[j].id == a.cargo && a.monto == Monto(cs, importe, j) && a.monto > 0;
      assert Cubre(a, cs, j);
    }
  }

  /** What the code allots is such a spreading. */
  lemma AsignadasSonFifo(cs: seq<CargoAbierto>, importe: int)
    requires IdsDistintos(cs) && importe > 0
    ensures EsFifo(Asignadas(cs, importe, |cs|), cs, importe)
  {
    AsignadasCubren(cs, importe);
    AsignadasPorAntiguedad(cs, importe);
    AsignadasOrdenadas(cs, importe, |cs|);
    FifoCompleto(cs, importe);
    forall i | 0 <= i < |cs| ensures SaldosPositivos(cs)[i] >= 0 {
    }
    SumaNoNegativa(SaldosPositivos(cs));
  }

  // ---------- Crediting ----------

  /** Payment `id` is credited with `filas` as its whole allocation; no other row changes. */
  ghost predicate Queda(b: Base, b': Base, id: nat, estado: EstadoPago, filas: seq<Asignacion>) {
    && id < |b.pagos| && b'.pagos == b.pagos[id := b.pagos[id].(estado := estado)]
    && De(b'.asignaciones, id) == filas
    && (forall x | x != id :: De(b'.asignaciones, x) == De(b.asignaciones, x))
    && b'.llaves == b.llaves
  }

  /** An allocation asked for is sound: positive amounts, existing charges, one row each, within the payment. */
  ghost predicate PedidoSano(importe: int, pedidas: seq<Asignacion>, cargos: set<nat>) {
    && (forall a | a in pedidas :: a.monto > 0 && a.cargo in cargos)
    && UnaPorCargo(pedidas)
    && Suma(MontosDe(pedidas)) <= importe
  }

  lemma AdmitidasSi(filas: seq<Asignacion>, cargos: set<nat>)
    ensures FilasAdmitidas(filas, cargos) <==> (forall a | a in filas :: a.monto > 0 && a.cargo in cargos) && UnaPorCargo(filas)
  {
    if FilasAdmitidas(filas, cargos) {
      AdmitidasDistintas(filas, cargos);
    }
  }

  lemma ExplicitasSi(p: Pago, pedidas: seq<Asignacion>, cargos: set<nat>)
    requires p.Importe() > 0
    ensures Explicitas(p, pedidas, cargos).Ok? <==> PedidoSano(p.Importe(), pedidas, cargos)
    ensures Explicitas(p, pedidas, cargos).Ok? ==> Explicitas(p, pedidas, cargos).value == pedidas
  {
    SinRechazoAdmitidas(pedidas, cargos);
    AdmitidasSi(pedidas, cargos);
  }

  /** In every reachable state crediting succeeds if and only if the payment exists and, unless it is credited already, the
      allocation asked for, if any, is sound. It then keeps exactly that allocation, or spends the payment oldest first if none
      was asked for; a payment already credited stays as it is. */
  lemma AcreditarFunciona(ops: seq<Op>, id: nat, pedidas: seq<Asignacion>, abiertos: seq<CargoAbierto>, cargos: set<nat>)
    requires ListaDeCargos(abiertos, cargos)
    ensures var b := Correr(ops); var (b', r) := AcreditarPaso(b, id, pedidas, abiertos, cargos);
      && (r.Ok? <==> id < |b.pagos| && (b.pagos[id].estado == Acreditado || PedidoSano(b.pagos[id].datos.importe, pedidas, cargos)))
      && (r.Err? || b.pagos[id].estado == Acreditado ==> b' == b)
      && (r.Ok? && b.pagos[id].estado != Acreditado ==>
            && Queda(b, b', id, Acreditado, De(b'.asignaciones, id)) && b'.intentos == b.intentos
            && (if |pedidas| > 0 then De(b'.asignaciones, id) == pedidas
                else EsFifo(De(b'.asignaciones, id), abiertos, b.pagos[id].datos.importe)))
  {
    AlcanzableValida(ops);
    var b := Correr(ops);
    if id < |b.pagos| {
      assert PagoOk(b, id);
      ExplicitasSi(b.pagos[id], pedidas, cargos);
      FifoAdmitido(b.pagos[id], abiertos, cargos);
      AsignadasSonFifo(abiertos, b.pagos[id].Importe());
    }
  }

  /** Adjusting succeeds if and only if the payment exists and the allocation is sound, and leaves exactly that allocation, whatever
      there was; asking for none leaves none. */
  lemma AjustarFunciona(ops: seq<Op>, id: nat, pedidas: seq<Asignacion>, cargos: set<nat>)
    ensures var b := Correr(ops); var (b', r) := AjustarPaso(b, id, pedidas, cargos);
      && (r.Ok? <==> id < |b.pagos| && PedidoSano(b.pagos[id].datos.importe, pedidas, cargos))
      && (r.Err? ==> b' == b)
      && (r.Ok? ==> Queda(b, b', id, Acreditado, pedidas) && b'.intentos == b.intentos)
  {
    AlcanzableValida(ops);
    var b := Correr(ops);
    if id < |b.pagos| {
      assert PagoOk(b, id);
      ExplicitasSi(b.pagos[id], pedidas, cargos);
    }
  }

  /** Reversing succeeds for any payment there is, leaves it reversed and without allocation, and answers what it removed. */
  lemma RevertirFunciona(b: Base, id: nat)
    ensures var (b', r) := RevertirPaso(b, id);
      && (r.Ok? <==> id < |b.pagos|)
      && (r.Err? ==> b' == b)
      && (r.Ok? ==> Queda(b, b', id, Revertido, []) && b'.intentos == b.intentos
                    && r == Ok(Detalle(b'.pagos[id], De(b.asignaciones, id), 0)))
  {
  }

  // ---------- The webhook ----------

  /** A delivery for a known preference, in every reachable state. With a status the intents table knows it answers whether that
      is "approved" and records it; and it credits the payment, oldest charges first, if and only if the status is "approved" and
      the payment was awaiting review. Any other status is refused and changes nothing. */
  lemma WebhookAcreditaSi(ops: seq<Op>, pref: string, status: string, abiertos: seq<CargoAbierto>, cargos: set<nat>)
    requires ListaDeCargos(abiertos, cargos) && pref != "" && pref in Correr(ops).intentos
    ensures var b := Correr(ops); var (b', r) := WebhookPaso(b, pref, status, abiertos, cargos); var id := b.intentos[pref].pago;
      && id < |b.pagos|
      && (r.Ok? <==> status in ["created", "approved", "rejected", "pending", "cancelled"])
      && (r.Err? ==> b' == b)
      && (r.Ok? ==> r == Ok(status == "approved") && b'.intentos == b.intentos[pref := Intento(id, status)]
                    && if status == "approved" && b.pagos[id].estado == PendienteRevision
                       then Queda(b, b', id, Acreditado, De(b'.asignaciones, id))
                            && EsFifo(De(b'.asignaciones, id), abiertos, b.pagos[id].datos.importe)
                       else b'.pagos == b.pagos && b'.asignaciones == b.asignaciones && b'.llaves == b.llaves)
  {
    AlcanzableValida(ops);
    AcreditarFunciona(ops, Correr(ops).intentos[pref].pago, [], abiertos, cargos);
    WebhookResponde(ops, pref, status, abiertos, cargos);
  }

  /** A delivery for a preference nobody asked for is answered and forgotten; one without a preference is invalid. */
  lemma WebhookAjeno(b: Base, pref: string, status: string, abiertos: seq<CargoAbierto>, cargos: set<nat>)
    requires pref !in b.intentos
    ensures WebhookPaso(b, pref, status, abiertos, cargos) == (b, if |pref| == 0 then Err(Invalida) else Ok(false))
  {
  }

  // ---------- Creation ----------

  /** A payment under an unused key is created if and only if the unit exists, no payment bears the key and none the reference. It
      holds the request and the key, awaits review, and nothing is allocated to it. */
  lemma CrearFunciona(ops: seq<Op>, consorcio: string, v: Validada, key: string, hallada: bool)
    requires key !in Correr(ops).llaves
    ensures var b := Correr(ops); var (b', r) := CrearPaso(b, consorcio, v, key, hallada); var id := |b.pagos|;
      && (r.Ok? <==> hallada && forall i | 0 <= i < |b.pagos| ::
                       b.pagos[i].key != key && (v.referencia.Some? ==> b.pagos[i].datos.referencia != v.referencia))
      && (r.Err? ==> b' == b)
      && (r.Ok? ==> b'.pagos == b.pagos + [Pago(key, v, PendienteRevision)] && r == Ok(Alta(id, b'.pagos[id]))
                    && b'.asignaciones == b.asignaciones && De(b'.asignaciones, id) == []
                    && b'.intentos == b.intentos
                    && forall k | k != key :: (k in b'.llaves <==> k in b.llaves) && (k in b.llaves && k in b'.llaves ==> b'.llaves[k] == b.llaves[k]))
  {
    AlcanzableValida(ops);
  }

  /** An intent is recorded if and only if the payment exists and the preference is not another payment's; it is then the payment's
      only intent, and those of other payments stay. */
  lemma IntentoFunciona(b: Base, id: nat, pref: string)
    ensures var (b', r) := IntentoPaso(b, id, pref);
      && (r.Ok? <==> id < |b.pagos| && (pref in b.intentos ==> b.intentos[pref].pago == id))
      && (r.Err? ==> b' == b)
      && (r.Ok? ==> b' == b.(intentos := b'.intentos) && pref in b'.intentos && b'.intentos[pref] == Intento(id, "created")
                    && forall p | p != pref :: (p in b'.intentos <==> p in b.intentos && b.intentos[p].pago != id)
                                               && (p in b'.intentos ==> b'.intentos[p] == b.intentos[p]))
  {
  }
}
