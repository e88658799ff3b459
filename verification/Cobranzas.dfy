/** Payments as a state machine: creation, crediting, adjustment, reversal and the payment
    provider's webhook (internal/cobranzas/cobranzas.go, acreditacion.go, mercadopago_webhook.go).
    Open charges are given to each step as found; a step that fails changes nothing. */
module Cobranzas {
  import opened Comun
  import opened Imputacion
  import opened Huella

  datatype EstadoPago = PendienteRevision | Acreditado | Rechazado | Revertido

  datatype Pago = Pago(key: string, datos: Validada, estado: EstadoPago) {
    function Importe(): int { datos.importe }
  }

  datatype Intento = Intento(pago: nat, estado: string)

  datatype ErrorCobro = NoEncontrada | Invalida | ReferenciaDuplicada | LlaveEnUso | Restriccion

  /** The answer about a payment: its row, the rows of its allocation and the credit left over. */
  datatype Detalle = Detalle(pago: Pago, asignaciones: seq<Asignacion>, saldoAFavor: int)

  /** The stored answer of a creation; `Vacia` is the `{}` placeholder. */
  datatype RespuestaAlta = Vacia | Alta(id: nat, pago: Pago)

  datatype FilaLlave = FilaLlave(huella: string, resp: RespuestaAlta)

  /** Allocations are grouped by payment; intents by the provider's preference. */
  datatype Base = Base(
    pagos: seq<Pago>,
    asignaciones: map<nat, seq<Asignacion>>,
    intentos: map<string, Intento>,
    llaves: map<string, FilaLlave>)

  const BaseVacia := Base([], map[], map[], map[])

  function De(tabla: map<nat, seq<Asignacion>>, id: nat): seq<Asignacion> {
    if id in tabla then tabla[id] else []
  }

  /** The rows of one payment replaced; without rows it has no group. */
  function ConFilas(tabla: map<nat, seq<Asignacion>>, id: nat, filas: seq<Asignacion>): map<nat, seq<Asignacion>> {
    if filas == [] then tabla - {id} else tabla[id := filas]
  }

  /** saldoAFavorFromPayment, clamp included. */
  function SaldoAFavor(p: Pago, filas: seq<Asignacion>): int {
    if p.estado != Acreditado then 0
    else
      var queda := p.Importe() - Suma(MontosDe(filas));
      if queda < 0 then 0 else queda
  }

  // ---------- Inserting allocation rows ----------

  /** One row's constraints: a positive amount, an existing charge, one row per payment and charge. */
  predicate AdmiteFila(previas: seq<Asignacion>, a: Asignacion, cargos: set<nat>) {
    a.monto > 0 && a.cargo in cargos && forall i | 0 <= i < |previas| :: previas[i].cargo != a.cargo
  }

  predicate FilasAdmitidas(filas: seq<Asignacion>, cargos: set<nat>) {
    forall k | 0 <= k < |filas| :: AdmiteFila(filas[..k], filas[k], cargos)
  }

  /** The first row refused decides the error: a non-positive amount is an invalid request, the rest
      are constraint violations. */
  function PrimerRechazo(filas: seq<Asignacion>, cargos: set<nat>): Option<ErrorCobro> {
    if filas == [] then None
    else
      var n := |filas| - 1;
      var antes := PrimerRechazo(filas[..n], cargos);
      if antes.Some? then antes
      else if filas[n].monto <= 0 then Some(Invalida)
      else if !AdmiteFila(filas[..n], filas[n], cargos) then Some(Restriccion)
      else None
  }

  /** buildExplicitAllocations. */
  function Explicitas(p: Pago, pedidas: seq<Asignacion>, cargos: set<nat>): Result<seq<Asignacion>, ErrorCobro> {
    var rechazo := PrimerRechazo(pedidas, cargos);
    if pedidas == [] then Ok([])
    else if rechazo.Some? then Err(rechazo.value)
    else if Suma(MontosDe(pedidas)) > p.Importe() then Err(Invalida)
    else Ok(pedidas)
  }

  /** buildFIFOAllocations. */
  function Fifo(p: Pago, abiertos: seq<CargoAbierto>, cargos: set<nat>): Result<seq<Asignacion>, ErrorCobro> {
    var filas := Asignadas(abiertos, p.Importe(), |abiertos|);
    if FilasAdmitidas(filas, cargos) then Ok(filas) else Err(Restriccion)
  }

  // ---------- Operations ----------

  type Respuesta = Result<Detalle, ErrorCobro>

  /** The payment credited with `filas` as its allocation. */
  function ConAsignacion(b: Base, id: nat, filas: seq<Asignacion>): (Base, Respuesta)
    requires id < |b.pagos|
  {
    var p := b.pagos[id].(estado := Acreditado);
    (b.(pagos := b.pagos[id := p], asignaciones := ConFilas(b.asignaciones, id, filas)),
     Ok(Detalle(p, filas, p.Importe() - Suma(MontosDe(filas)))))
  }

  function AcreditarPaso(b: Base, id: nat, pedidas: seq<Asignacion>, abiertos: seq<CargoAbierto>, cargos: set<nat>): (Base, Respuesta) {
    if id >= |b.pagos| then (b, Err(NoEncontrada))
    else if b.pagos[id].estado == Acreditado then
      (b, Ok(Detalle(b.pagos[id], De(b.asignaciones, id), SaldoAFavor(b.pagos[id], De(b.asignaciones, id)))))
    else
      var r := if pedidas != [] then Explicitas(b.pagos[id], pedidas, cargos) else Fifo(b.pagos[id], abiertos, cargos);
      if r.Err? then (b, Err(r.error)) else ConAsignacion(b, id, r.value)
  }

  /** Replaces whatever allocation there was; an empty request leaves the whole amount in credit. */
  function AjustarPaso(b: Base, id: nat, pedidas: seq<Asignacion>, cargos: set<nat>): (Base, Respuesta) {
    if id >= |b.pagos| then (b, Err(NoEncontrada))
    else
      var r := Explicitas(b.pagos[id], pedidas, cargos);
      if r.Err? then (b, Err(r.error)) else ConAsignacion(b, id, r.value)
  }

  /** Allowed in any state; the answer lists the allocation that was removed. */
  function RevertirPaso(b: Base, id: nat): (Base, Respuesta) {
    if id >= |b.pagos| then (b, Err(NoEncontrada))
    else
      var p := b.pagos[id].(estado := Revertido);
      (b.(pagos := b.pagos[id := p], asignaciones := ConFilas(b.asignaciones, id, [])), Ok(Detalle(p, De(b.asignaciones, id), 0)))
  }

  /** The statuses the intents table accepts. */
  predicate EstadoDeIntento(s: string) {
    s == "created" || s == "approved" || s == "rejected" || s == "pending" || s == "cancelled"
  }

  /** One delivery of the webhook, its fields already trimmed and lower-cased. */
  function WebhookPaso(b: Base, pref: string, status: string, abiertos: seq<CargoAbierto>, cargos: set<nat>): (Base, Result<bool, ErrorCobro>) {
    if pref == "" then (b, Err(Invalida))
    else if pref !in b.intentos then (b, Ok(false))
    else
      var id := b.intentos[pref].pago;
      var credito :=
        if status != "approved" then (b, None)
        else if id >= |b.pagos| then (b, Some(NoEncontrada))
        else if b.pagos[id].estado != PendienteRevision then (b, None)
        else
          var (b', r) := AcreditarPaso(b, id, [], abiertos, cargos);
          (b', if r.Err? then Some(r.error) else None);
      if credito.1.Some? then (b, Err(credito.1.value))
      else if !EstadoDeIntento(status) then (b, Err(Restriccion))
      else (credito.0.(intentos := credito.0.intentos[pref := Intento(id, status)]), Ok(status == "approved"))
  }

  /** CreatePspIntent: one intent per payment, one payment per preference. */
  function IntentoPaso(b: Base, id: nat, pref: string): (Base, Result<bool, ErrorCobro>) {
    if id >= |b.pagos| then (b, Err(Restriccion))
    else if pref in b.intentos && b.intentos[pref].pago != id then (b, Err(Restriccion))
    else (b.(intentos := (map p | p in b.intentos && b.intentos[p].pago != id :: b.intentos[p])[pref := Intento(id, "created")]), Ok(true))
  }

  /** CreateCobranza on a validated request, with its idempotency key; `hallada` is whether the consorcio
      has the unit, which is looked up before the key. */
  function CrearPaso(b: Base, consorcio: string, v: Validada, key: string, hallada: bool): (Base, Result<RespuestaAlta, ErrorCobro>) {
    var huella := TextoHuella(consorcio, key, v);
    if !hallada then (b, Err(NoEncontrada))
    else if key != "" && key in b.llaves then
      if b.llaves[key].huella != huella then (b, Err(LlaveEnUso)) else (b, Ok(b.llaves[key].resp))
    else if exists i | 0 <= i < |b.pagos| :: b.pagos[i].key == key then (b, Err(LlaveEnUso))
    else if v.referencia.Some? && exists i | 0 <= i < |b.pagos| :: b.pagos[i].datos.referencia == v.referencia then
      (b, Err(ReferenciaDuplicada))
    else
      var p := Pago(key, v, PendienteRevision);
      var resp := Alta(|b.pagos|, p);
      (b.(pagos := b.pagos + [p], llaves := if key == "" then b.llaves else b.llaves[key := FilaLlave(huella, resp)]), Ok(resp))
  }

  // ---------- Runs ----------

  datatype Op =
    | Crear(consorcio: string, v: Validada, key: string, hallada: bool)
    | CrearIntento(id: nat, pref: string)
    | Acreditar(id: nat, pedidas: seq<Asignacion>, abiertos: seq<CargoAbierto>, cargos: set<nat>)
    | Ajustar(id: nat, pedidas: seq<Asignacion>, cargos: set<nat>)
    | Revertir(id: nat)
    | Webhook(pref: string, status: string, abiertos: seq<CargoAbierto>, cargos: set<nat>)

  function Paso(b: Base, op: Op): Base {
    match op
    case Crear(c, v, k, hay) => if EsValidada(c, v) then CrearPaso(b, c, v, k, hay).0 else b
    case CrearIntento(id, pref) => IntentoPaso(b, id, pref).0
    case Acreditar(id, pedidas, abiertos, cargos) => AcreditarPaso(b, id, pedidas, abiertos, cargos).0
    case Ajustar(id, pedidas, cargos) => AjustarPaso(b, id, pedidas, cargos).0
    case Revertir(id) => RevertirPaso(b, id).0
    case Webhook(pref, status, abiertos, cargos) => WebhookPaso(b, pref, status, abiertos, cargos).0
  }

  function Correr(ops: seq<Op>): Base {
    if ops == [] then BaseVacia else Paso(Correr(ops[..|ops| - 1]), ops[|ops| - 1])
  }

  // ---------- What every run keeps ----------

  /** A payment not credited has no allocation; a credited one allocates positive amounts to distinct
      charges, within its own amount. */
  ghost predicate PagoOk(b: Base, id: nat)
    requires id < |b.pagos|
  {
    var filas := De(b.asignaciones, id);
    && b.pagos[id].Importe() > 0
    && (b.pagos[id].estado != Acreditado ==> id !in b.asignaciones)
    && Suma(MontosDe(filas)) <= b.pagos[id].Importe()
    && (forall i | 0 <= i < |filas| :: filas[i].monto > 0)
    && (forall i, j | 0 <= i < j < |filas| :: filas[i].cargo != filas[j].cargo)
  }

  ghost predicate Valida(b: Base) {
    && (forall id | 0 <= id < |b.pagos| :: PagoOk(b, id))
    && (forall id | id in b.asignaciones :: id < |b.pagos|)
    && (forall p | p in b.intentos :: b.intentos[p].pago < |b.pagos|)
    && (forall i, j | 0 <= i < j < |b.pagos| :: b.pagos[i].key != b.pagos[j].key)
    && (forall k | k in b.llaves :: var f := b.llaves[k];
          && k != "" && f.resp.Alta? && f.resp.id < |b.pagos| && b.pagos[f.resp.id].key == k
          && b.pagos[f.resp.id].datos == f.resp.pago.datos)
  }

  lemma AdmitidasHastaUltima(filas: seq<Asignacion>, cargos: set<nat>)
    requires filas != []
    ensures var n := |filas| - 1;
      FilasAdmitidas(filas, cargos) <==> FilasAdmitidas(filas[..n], cargos) && AdmiteFila(filas[..n], filas[n], cargos)
  {
    var n := |filas| - 1;
    assert forall k | 0 <= k < n :: filas[..n][..k] == filas[..k];
    if FilasAdmitidas(filas, cargos) {
      forall k | 0 <= k < n ensures AdmiteFila(filas[..n][..k], filas[..n][k], cargos) {
        assert AdmiteFila(filas[..k], filas[k], cargos);
      }
      assert AdmiteFila(filas[..n], filas[n], cargos);
    }
    if FilasAdmitidas(filas[..n], cargos) && AdmiteFila(filas[..n], filas[n], cargos) {
      forall k | 0 <= k < |filas| ensures AdmiteFila(filas[..k], filas[k], cargos) {
        if k < n {
          assert AdmiteFila(filas[..n][..k], filas[..n][k], cargos);
        }
      }
    }
  }

  lemma {:induction false} SinRechazoAdmitidas(filas: seq<Asignacion>, cargos: set<nat>)
    ensures PrimerRechazo(filas, cargos) == None <==> FilasAdmitidas(filas, cargos)
  {
    if filas != [] {
      SinRechazoAdmitidas(filas[..|filas| - 1], cargos);
      AdmitidasHastaUltima(filas, cargos);
    }
  }

  lemma AdmitidasDistintas(filas: seq<Asignacion>, cargos: set<nat>)
    requires FilasAdmitidas(filas, cargos)
    ensures forall i | 0 <= i < |filas| :: filas[i].monto > 0 && filas[i].cargo in cargos
    ensures forall i, j | 0 <= i < j < |filas| :: filas[i].cargo != filas[j].cargo
  {
    forall i | 0 <= i < |filas| ensures filas[i].monto > 0 && filas[i].cargo in cargos {
      assert AdmiteFila(filas[..i], filas[i], cargos);
    }
    forall i, j | 0 <= i < j < |filas| ensures filas[i].cargo != filas[j].cargo {
      assert AdmiteFila(filas[..j], filas[j], cargos);
      assert filas[..j][i] == filas[i];
    }
  }

  /** An allocation either builder accepts is sound and within the payment. */
  lemma AsignacionSana(p: Pago, pedidas: seq<Asignacion>, abiertos: seq<CargoAbierto>, cargos: set<nat>, filas: seq<Asignacion>)
    requires p.Importe() > 0
    requires Explicitas(p, pedidas, cargos) == Ok(filas) || Fifo(p, abiertos, cargos) == Ok(filas)
    ensures Suma(MontosDe(filas)) <= p.Importe()
    ensures forall i | 0 <= i < |filas| :: filas[i].monto > 0
    ensures forall i, j | 0 <= i < j < |filas| :: filas[i].cargo != filas[j].cargo
  {
    SinRechazoAdmitidas(pedidas, cargos);
    FifoCompleto(abiertos, p.Importe());
    AdmitidasDistintas(filas, cargos);
  }

  lemma AcreditarConserva(b: Base, id: nat, filas: seq<Asignacion>)
    requires Valida(b) && id < |b.pagos|
    requires Suma(MontosDe(filas)) <= b.pagos[id].Importe()
    requires forall i | 0 <= i < |filas| :: filas[i].monto > 0
    requires forall i, j | 0 <= i < j < |filas| :: filas[i].cargo != filas[j].cargo
    ensures Valida(ConAsignacion(b, id, filas).0)
  {
    var b' := ConAsignacion(b, id, filas).0;
    forall x | 0 <= x < |b'.pagos| ensures PagoOk(b', x) {
      assert PagoOk(b, x);
    }
  }

  lemma CrearConserva(b: Base, consorcio: string, v: Validada, key: string, hallada: bool)
    requires Valida(b) && EsValidada(consorcio, v)
    ensures Valida(CrearPaso(b, consorcio, v, key, hallada).0)
  {
    var b' := CrearPaso(b, consorcio, v, key, hallada).0;
    if b' != b {
      forall x | 0 <= x < |b'.pagos| ensures PagoOk(b', x) {
        if x < |b.pagos| {
          assert PagoOk(b, x);
        }
      }
    }
  }

  lemma RevertirConserva(b: Base, id: nat)
    requires Valida(b)
    ensures Valida(RevertirPaso(b, id).0)
  {
    var b' := RevertirPaso(b, id).0;
    forall x | 0 <= x < |b'.pagos| ensures PagoOk(b', x) {
      assert PagoOk(b, x);
    }
  }

  lemma AcreditarPasoConserva(b: Base, id: nat, pedidas: seq<Asignacion>, abiertos: seq<CargoAbierto>, cargos: set<nat>)
    requires Valida(b)
    ensures Valida(AcreditarPaso(b, id, pedidas, abiertos, cargos).0)
    ensures Valida(AjustarPaso(b, id, pedidas, cargos).0)
  {
    if id < |b.pagos| {
      assert PagoOk(b, id);
      var e, f := Explicitas(b.pagos[id], pedidas, cargos), Fifo(b.pagos[id], abiertos, cargos);
      if e.Ok? {
        AsignacionSana(b.pagos[id], pedidas, abiertos, cargos, e.value);
        AcreditarConserva(b, id, e.value);
      }
      if f.Ok? {
        AsignacionSana(b.pagos[id], pedidas, abiertos, cargos, f.value);
        AcreditarConserva(b, id, f.value);
      }
    }
  }

  lemma IntentosConserva(b: Base, b': Base)
    requires Valida(b) && b' == b.(intentos := b'.intentos)
    requires forall p | p in b'.intentos :: b'.intentos[p].pago < |b.pagos|
    ensures Valida(b')
  {
    forall x | 0 <= x < |b'.pagos| ensures PagoOk(b', x) {
      assert PagoOk(b, x);
    }
  }

  lemma WebhookConserva(b: Base, pref: string, status: string, abiertos: seq<CargoAbierto>, cargos: set<nat>)
    requires Valida(b)
    ensures Valida(WebhookPaso(b, pref, status, abiertos, cargos).0)
  {
    if pref in b.intentos {
      var id := b.intentos[pref].pago;
      AcreditarPasoConserva(b, id, [], abiertos, cargos);
      IntentosConserva(b, b.(intentos := b.intentos[pref := Intento(id, status)]));
      var b1 := AcreditarPaso(b, id, [], abiertos, cargos).0;
      IntentosConserva(b1, b1.(intentos := b1.intentos[pref := Intento(id, status)]));
    }
  }

  lemma PasoConserva(b: Base, op: Op)
    requires Valida(b)
    ensures Valida(Paso(b, op))
  {
    match op
    case Crear(c, v, k, hay) => if EsValidada(c, v) { CrearConserva(b, c, v, k, hay); }
    case CrearIntento(id, pref) => IntentosConserva(b, IntentoPaso(b, id, pref).0);
    case Acreditar(id, pedidas, abiertos, cargos) => AcreditarPasoConserva(b, id, pedidas, abiertos, cargos);
    case Ajustar(id, pedidas, cargos) => AcreditarPasoConserva(b, id, pedidas, [], cargos);
    case Revertir(id) => RevertirConserva(b, id);
    case Webhook(pref, status, abiertos, cargos) =>
      WebhookConserva(b, pref, status, abiertos, cargos);
  }

  lemma {:induction false} AlcanzableValida(ops: seq<Op>)
    ensures Valida(Correr(ops))
  {
    if ops != [] {
      AlcanzableValida(ops[..|ops| - 1]);
      PasoConserva(Correr(ops[..|ops| - 1]), ops[|ops| - 1]);
    }
  }
}
