/** The payment operations as they run, row by row inside a transaction, proved to commit exactly
    the steps of Cobranzas. */
module CobranzasAlmacen {
  import opened Comun
  import opened Imputacion
  import opened Huella
  import opened Cobranzas

  class Almacen {
    var pagos: seq<Pago>
    var asignaciones: map<nat, seq<Asignacion>>
    var intentos: map<string, Intento>
    var llaves: map<string, FilaLlave>

    function Tablas(): Base
      reads this
    {
      Base(pagos, asignaciones, intentos, llaves)
    }

    /** What every run keeps, as a condition on the object. */
    ghost predicate Valid()
      reads this
    {
      Valida(Tablas())
    }

    constructor ()
      ensures Valid() && Tablas() == BaseVacia
    {
      pagos, asignaciones, intentos, llaves := [], map[], map[], map[];
    }

    /** ROLLBACK to the tables the transaction began with. */
    method Deshacer(inicio: Base)
      modifies this
      ensures Tablas() == inicio
    {
      pagos, asignaciones, intentos, llaves := inicio.pagos, inicio.asignaciones, inicio.intentos, inicio.llaves;
    }

    /** InsertPaymentAllocation, refused by the table's constraints or appended. */
    method InsertarFila(id: nat, a: Asignacion, cargos: set<nat>) returns (ok: bool)
      modifies this`asignaciones
      ensures ok == AdmiteFila(De(old(asignaciones), id), a, cargos)
      ensures asignaciones == if ok then old(asignaciones)[id := De(old(asignaciones), id) + [a]] else old(asignaciones)
    {
      ok := AdmiteFila(De(asignaciones, id), a, cargos);
      if ok {
        asignaciones := asignaciones[id := De(asignaciones, id) + [a]];
      }
    }

    /** saldoAFavorFromPayment. */
    method CalcularSaldo(p: Pago, filas: seq<Asignacion>) returns (saldo: int)
      ensures saldo == SaldoAFavor(p, filas)
    {
      if p.estado != Acreditado { return 0; }
      var asignado := 0;
      for i := 0 to |filas|
        invariant asignado == Suma(MontosDe(filas[..i]))
      {
        assert MontosDe(filas[..i + 1])[..i] == MontosDe(filas[..i]);
        asignado := asignado + filas[i].monto;
      }
      assert filas[..|filas|] == filas;
      saldo := p.Importe() - asignado;
      if saldo < 0 { saldo := 0; }
    }

    /** buildFIFOAllocations: each charge takes its balance or what is left, until nothing is left. */
    method AsignarFifo(id: nat, abiertos: seq<CargoAbierto>, cargos: set<nat>)
      returns (r: Result<seq<Asignacion>, ErrorCobro>, saldo: int)
      requires id < |pagos| && id !in asignaciones
      modifies this`asignaciones
      ensures r == Fifo(pagos[id], abiertos, cargos)
      ensures r.Ok? ==> saldo == pagos[id].Importe() - Suma(MontosDe(r.value))
      ensures r.Ok? ==> asignaciones == ConFilas(old(asignaciones), id, r.value)
    {
      var importe := pagos[id].Importe();
      var remaining := importe;
      var filas := [];
      ghost var todas := Asignadas(abiertos, importe, |abiertos|);
      var i := 0;
      while i < |abiertos| && remaining > 0
        invariant i <= |abiertos| && remaining == Disponible(abiertos, importe, i)
        invariant filas == Asignadas(abiertos, importe, i) == De(asignaciones, id)
        invariant asignaciones == ConFilas(old(asignaciones), id, filas)
        invariant FilasAdmitidas(filas, cargos)
      {
        var amount := abiertos[i].saldo;
        if amount > remaining { amount := remaining; }
        if amount > 0 {
          var fila := Asignacion(abiertos[i].id, amount);
          var ok := InsertarFila(id, fila, cargos);
          if !ok {
            AsignadasPrefijo(abiertos, importe, i + 1, |abiertos|);
            assert todas[..|filas|] == filas && todas[|filas|] == fila;
            return Err(Restriccion), 0;
          }
          AdmitidasUnaMas(filas, fila, cargos);
          filas := filas + [fila];
          remaining := remaining - amount;
        }
        i := i + 1;
      }
      SinDisponible(abiertos, importe, i, |abiertos|);
      AsignadasSuman(abiertos, importe, i);
      CubrePrefijo(abiertos, importe, i);
      r, saldo := Ok(filas), remaining;
    }

    /** buildExplicitAllocations: insert as asked, then check the total. */
    method AsignarExplicitas(id: nat, pedidas: seq<Asignacion>, cargos: set<nat>)
      returns (r: Result<seq<Asignacion>, ErrorCobro>, saldo: int)
      requires id < |pagos| && id !in asignaciones
      modifies this`asignaciones
      ensures r == Explicitas(pagos[id], pedidas, cargos)
      ensures r.Ok? ==> saldo == pagos[id].Importe() - Suma(MontosDe(r.value))
      ensures r.Ok? ==> asignaciones == ConFilas(old(asignaciones), id, r.value)
    {
      if pedidas == [] { return Ok([]), pagos[id].Importe(); }
      var total := 0;
      var filas := [];
      for i := 0 to |pedidas|
        invariant filas == pedidas[..i] == De(asignaciones, id)
        invariant total == Suma(MontosDe(filas))
        invariant asignaciones == ConFilas(old(asignaciones), id, filas)
        invariant PrimerRechazo(filas, cargos) == None
      {
        var fila := pedidas[i];
        assert pedidas[..i + 1] == filas + [fila] && pedidas[..i + 1][..i] == filas;
        if fila.monto <= 0 {
          PrimerRechazoQueda(pedidas, i + 1, cargos);
          return Err(Invalida), 0;
        }
        var ok := InsertarFila(id, fila, cargos);
        if !ok {
          PrimerRechazoQueda(pedidas, i + 1, cargos);
          return Err(Restriccion), 0;
        }
        assert MontosDe(filas + [fila])[..i] == MontosDe(filas);
        filas := filas + [fila];
        total := total + fila.monto;
      }
      assert pedidas[..|pedidas|] == pedidas;
      if total > pagos[id].Importe() { return Err(Invalida), 0; }
      r, saldo := Ok(filas), pagos[id].Importe() - total;
    }

    /** UpdateCobranzaEstado. */
    method CambiarEstado(id: nat, e: EstadoPago)
      requires id < |pagos|
      modifies this`pagos
      ensures pagos == old(pagos)[id := old(pagos[id]).(estado := e)]
    {
      pagos := pagos[id := pagos[id].(estado := e)];
    }

    /** Insert the rows of a payment that has none: as asked, or oldest charge first. */
    method Asignar(id: nat, pedidas: seq<Asignacion>, abiertos: seq<CargoAbierto>, cargos: set<nat>)
      returns (r: Result<seq<Asignacion>, ErrorCobro>, saldo: int)
      requires id < |pagos| && id !in asignaciones
      modifies this`asignaciones
      ensures r == if pedidas != [] then Explicitas(pagos[id], pedidas, cargos) else Fifo(pagos[id], abiertos, cargos)
      ensures r.Ok? ==> saldo == pagos[id].Importe() - Suma(MontosDe(r.value))
      ensures r.Ok? ==> asignaciones == ConFilas(old(asignaciones), id, r.value)
    {
      if pedidas != [] {
        r, saldo := AsignarExplicitas(id, pedidas, cargos);
      } else {
        r, saldo := AsignarFifo(id, abiertos, cargos);
      }
    }

    /** AcreditarCobranza; a payment already credited just shows what it has. */
    method AcreditarEnTx(id: nat, pedidas: seq<Asignacion>, abiertos: seq<CargoAbierto>, cargos: set<nat>) returns (r: Respuesta)
      requires Valid()
      modifies this`pagos, this`asignaciones
      ensures r == AcreditarPaso(old(Tablas()), id, pedidas, abiertos, cargos).1
      ensures r.Ok? ==> Tablas() == AcreditarPaso(old(Tablas()), id, pedidas, abiertos, cargos).0
    {
      if id >= |pagos| { return Err(NoEncontrada); }
      if pagos[id].estado == Acreditado {
        var vigente := CalcularSaldo(pagos[id], De(asignaciones, id));
        return Ok(Detalle(pagos[id], De(asignaciones, id), vigente));
      }
      assert PagoOk(Tablas(), id);
      var filas, saldo := Asignar(id, pedidas, abiertos, cargos);
      if filas.Err? { return Err(filas.error); }
      CambiarEstado(id, Acreditado);
      r := Ok(Detalle(pagos[id], filas.value, saldo));
    }

    method Acreditar(id: nat, pedidas: seq<Asignacion>, abiertos: seq<CargoAbierto>, cargos: set<nat>) returns (r: Respuesta)
      requires Valid()
      modifies this
      ensures Valid() && (Tablas(), r) == AcreditarPaso(old(Tablas()), id, pedidas, abiertos, cargos)
    {
      var inicio := Tablas();
      r := AcreditarEnTx(id, pedidas, abiertos, cargos);
      if r.Err? { Deshacer(inicio); }
      AcreditarPasoConserva(inicio, id, pedidas, abiertos, cargos);
    }

    /** AjustarAsignaciones: drop every row of the payment, then insert the ones asked for. */
    method Ajustar(id: nat, pedidas: seq<Asignacion>, cargos: set<nat>) returns (r: Respuesta)
      requires Valid()
      modifies this
      ensures Valid() && (Tablas(), r) == AjustarPaso(old(Tablas()), id, pedidas, cargos)
    {
      if id >= |pagos| { return Err(NoEncontrada); }
      var inicio := Tablas();
      AcreditarPasoConserva(inicio, id, pedidas, [], cargos);
      asignaciones := asignaciones - {id};
      var filas, saldo := AsignarExplicitas(id, pedidas, cargos);
      if filas.Err? {
        Deshacer(inicio);
        return Err(filas.error);
      }
      if pagos[id].estado != Acreditado {
        CambiarEstado(id, Acreditado);
      }
      assert pagos == inicio.pagos[id := inicio.pagos[id].(estado := Acreditado)];
      assert asignaciones == ConFilas(inicio.asignaciones, id, filas.value);
      r := Ok(Detalle(pagos[id], filas.value, saldo));
    }

    method Revertir(id: nat) returns (r: Respuesta)
      requires Valid()
      modifies this
      ensures Valid() && (Tablas(), r) == RevertirPaso(old(Tablas()), id)
    {
      RevertirConserva(Tablas(), id);
      if id >= |pagos| { return Err(NoEncontrada); }
      var filas := De(asignaciones, id);
      asignaciones := asignaciones - {id};
      CambiarEstado(id, Revertido);
      r := Ok(Detalle(pagos[id], filas, 0));
    }

    /** The body of ProcessMercadoPagoWebhook. */
    method WebhookEnTx(pref: string, status: string, abiertos: seq<CargoAbierto>, cargos: set<nat>) returns (r: Result<bool, ErrorCobro>)
      requires Valid()
      modifies this
      ensures r == WebhookPaso(old(Tablas()), pref, status, abiertos, cargos).1
      ensures r.Ok? ==> Tablas() == WebhookPaso(old(Tablas()), pref, status, abiertos, cargos).0
    {
      if pref == "" { return Err(Invalida); }
      if pref !in intentos { return Ok(false); }
      var id := intentos[pref].pago;
      if status == "approved" {
        if id >= |pagos| { return Err(NoEncontrada); }
        if pagos[id].estado == PendienteRevision {
          var credito := AcreditarEnTx(id, [], abiertos, cargos);
          if credito.Err? { return Err(credito.error); }
        }
      }
      if !EstadoDeIntento(status) { return Err(Restriccion); }
      intentos := intentos[pref := Intento(id, status)];
      r := Ok(status == "approved");
    }

    method Webhook(pref: string, status: string, abiertos: seq<CargoAbierto>, cargos: set<nat>) returns (r: Result<bool, ErrorCobro>)
      requires Valid()
      modifies this
      ensures Valid() && (Tablas(), r) == WebhookPaso(old(Tablas()), pref, status, abiertos, cargos)
    {
      var inicio := Tablas();
      PasoConserva(inicio, Op.Webhook(pref, status, abiertos, cargos));
      r := WebhookEnTx(pref, status, abiertos, cargos);
      if r.Err? { Deshacer(inicio); }
    }

    /** CreatePspIntent: an upsert by payment. */
    method CrearIntento(id: nat, pref: string) returns (r: Result<bool, ErrorCobro>)
      requires Valid()
      modifies this`intentos
      ensures Valid() && (Tablas(), r) == IntentoPaso(old(Tablas()), id, pref)
    {
      PasoConserva(Tablas(), Op.CrearIntento(id, pref));
      if id >= |pagos| { return Err(Restriccion); }
      if pref in intentos && intentos[pref].pago != id { return Err(Restriccion); }
      intentos := map p | p in intentos && intentos[p].pago != id :: intentos[p];
      intentos := intentos[pref := Intento(id, "created")];
      r := Ok(true);
    }

    /** CreateCobranza on a validated request: find the unit, stamp the key, insert the payment, complete the key. */
    method Crear(consorcio: string, v: Validada, key: string, hallada: bool) returns (r: Result<RespuestaAlta, ErrorCobro>)
      requires Valid() && EsValidada(consorcio, v)
      modifies this
      ensures Valid() && (Tablas(), r) == CrearPaso(old(Tablas()), consorcio, v, key, hallada)
    {
      var inicio := Tablas();
      CrearConserva(inicio, consorcio, v, key, hallada);
      if !hallada { return Err(NoEncontrada); }
      var huella := TextoHuella(consorcio, key, v);
      if key != "" {
        if key in llaves {
          if llaves[key].huella != huella { return Err(LlaveEnUso); }
          return Ok(llaves[key].resp);
        }
        llaves := llaves[key := FilaLlave(huella, Vacia)];
      }
      if exists i | 0 <= i < |pagos| :: pagos[i].key == key {
        Deshacer(inicio);
        return Err(LlaveEnUso);
      }
      if v.referencia.Some? && exists i | 0 <= i < |pagos| :: pagos[i].datos.referencia == v.referencia {
        Deshacer(inicio);
        return Err(ReferenciaDuplicada);
      }
      var p := Pago(key, v, PendienteRevision);
      var resp := Alta(|pagos|, p);
      pagos := pagos + [p];
      if key != "" {
        llaves := llaves[key := llaves[key].(resp := resp)];
        assert llaves == inicio.llaves[key := FilaLlave(huella, resp)];
      }
      r := Ok(resp);
    }
  }

  lemma {:induction false} PrimerRechazoQueda(filas: seq<Asignacion>, n: nat, cargos: set<nat>)
    requires n <= |filas| && PrimerRechazo(filas[..n], cargos).Some?
    ensures PrimerRechazo(filas, cargos) == PrimerRechazo(filas[..n], cargos)
  {
    if n == |filas| {
      assert filas[..n] == filas;
    } else {
      assert filas[..|filas| - 1][..n] == filas[..n];
      PrimerRechazoQueda(filas[..|filas| - 1], n, cargos);
    }
  }

  lemma AdmitidasUnaMas(filas: seq<Asignacion>, fila: Asignacion, cargos: set<nat>)
    requires FilasAdmitidas(filas, cargos) && AdmiteFila(filas, fila, cargos)
    ensures FilasAdmitidas(filas + [fila], cargos)
  {
    forall k | 0 <= k <= |filas| ensures AdmiteFila((filas + [fila])[..k], (filas + [fila])[k], cargos) {
      assert (filas + [fila])[..k] == filas[..k];
    }
  }

  lemma {:induction false} AsignadasPrefijo(cs: seq<CargoAbierto>, importe: int, n: nat, m: nat)
    requires n <= m <= |cs|
    ensures Asignadas(cs, importe, n) <= Asignadas(cs, importe, m)
    decreases m - n
  {
    if n < m {
      AsignadasPrefijo(cs, importe, n, m - 1);
    }
  }

  /** Once nothing is left, later charges receive nothing. */
  lemma {:induction false} SinDisponible(cs: seq<CargoAbierto>, importe: int, n: nat, m: nat)
    requires n <= m <= |cs| && (n < m ==> Disponible(cs, importe, n) <= 0)
    ensures Asignadas(cs, importe, m) == Asignadas(cs, importe, n)
    ensures Disponible(cs, importe, m) == Disponible(cs, importe, n)
    decreases m - n
  {
    if n < m {
      SinDisponible(cs, importe, n, m - 1);
    }
  }
}
