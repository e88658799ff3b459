/** The settlement operations as they run: statement by statement over the tables, inside a
    transaction that is committed on success and rolled back on any error. Each is proved to
    commit exactly the step of Liquidaciones. */
module LiquidacionesAlmacen {
  import opened Comun
  import opened Distribucion
  import opened DistribucionOrden
  import opened DistribucionMetodos
  import opened Agrupacion
  import opened Liquidaciones

  class Almacen {
    var liqs: seq<Liq>
    var snapGastos: map<nat, seq<Gasto>>
    var snapItems: map<nat, seq<Concepto>>
    var snapUnidades: map<nat, seq<UnidadSnap>>
    var cargos: seq<Cargo>
    var asientos: seq<Asiento>
    var eventos: seq<Evento>
    var llaves: Llaves

    function Tablas(): Base
      reads this
    {
      Base(liqs, snapGastos, snapItems, snapUnidades, cargos, asientos, eventos, llaves)
    }

    constructor ()
      ensures Tablas() == BaseVacia
    {
      liqs, snapGastos, snapItems, snapUnidades := [], map[], map[], map[];
      cargos, asientos, eventos, llaves := [], [], [], map[];
    }

    /** ROLLBACK to the tables the transaction began with. */
    method Deshacer(inicio: Base)
      modifies this
      ensures Tablas() == inicio
    {
      liqs, snapGastos, snapItems, snapUnidades := inicio.liqs, inicio.snapGastos, inicio.snapItems, inicio.snapUnidades;
      cargos, asientos, eventos, llaves := inicio.cargos, inicio.asientos, inicio.eventos, inicio.llaves;
    }

    // ---------- Statements ----------

    /** The conditional UPDATE behind every transition: it matches one row or none. */
    method Transicionar(id: nat, desde: Estado, hasta: Estado, version: int) returns (n: nat)
      requires id < |liqs|
      modifies this`liqs
      ensures if old(liqs[id]).estado == desde && old(liqs[id]).version == version then
          n == 1 && liqs == old(liqs)[id := old(liqs[id]).(estado := hasta, version := old(liqs[id]).version + 1)]
        else n == 0 && liqs == old(liqs)
    {
      var l := liqs[id];
      if l.estado == desde && l.version == version {
        liqs := liqs[id := l.(estado := hasta, version := l.version + 1)];
        n := 1;
      } else {
        n := 0;
      }
    }

    /** stampIdempotency: INSERT ... ON CONFLICT DO NOTHING, then look at the row that was there. */
    method SellarLlave(ambito: Ambito, id: nat, key: string) returns (hit: bool, resp: Dto, ok: bool)
      modifies this`llaves
      ensures match Sellar(old(llaves), ambito, key, id)
        case Sigue(nuevas) => ok && !hit && llaves == nuevas
        case Repite(guardada) => ok && hit && resp == guardada && llaves == old(llaves)
        case Choca => !ok && llaves == old(llaves)
    {
      hit, resp, ok := false, Vacio, true;
      if key == "" { return; }
      if (ambito, key) !in llaves {
        llaves := llaves[(ambito, key) := FilaLlave(id, Vacio)];
      } else if llaves[(ambito, key)].liq != id {
        ok := false;
      } else {
        hit, resp := true, llaves[(ambito, key)].resp;
      }
    }

    method GuardarLlave(ambito: Ambito, key: string, dto: Dto)
      modifies this`llaves
      ensures llaves == Guardar(old(llaves), ambito, key, dto)
    {
      if key != "" && (ambito, key) in llaves {
        llaves := llaves[(ambito, key) := llaves[(ambito, key)].(resp := dto)];
      }
    }

    method InsertarGastos(id: nat, gs: seq<Gasto>) returns (ok: bool)
      requires Filas(snapGastos, id) == []
      modifies this`snapGastos
      ensures ok == GastosAdmitidos(gs)
      ensures ok && gs != [] ==> snapGastos == old(snapGastos)[id := gs]
    {
      ok := true;
      for i := 0 to |gs|
        invariant ok == (forall k | 0 <= k < i :: AdmiteGasto(gs[..k], gs[k]))
        invariant ok ==> Filas(snapGastos, id) == gs[..i]
        invariant ok ==> snapGastos == if i == 0 then old(snapGastos) else old(snapGastos)[id := gs[..i]]
      {
        if ok {
          ok := AdmiteGasto(Filas(snapGastos, id), gs[i]);
          snapGastos := snapGastos[id := Filas(snapGastos, id) + [gs[i]]];
          assert gs[..i + 1] == gs[..i] + [gs[i]];
        }
      }
      assert gs[..|gs|] == gs;
    }

    method InsertarItems(id: nat, cs: seq<Concepto>) returns (ok: bool)
      requires Filas(snapItems, id) == []
      modifies this`snapItems
      ensures ok == ItemsAdmitidos(cs)
      ensures ok && cs != [] ==> snapItems == old(snapItems)[id := cs]
    {
      ok := true;
      for i := 0 to |cs|
        invariant ok == (forall k | 0 <= k < i :: AdmiteItem(cs[..k], cs[k]))
        invariant ok ==> Filas(snapItems, id) == cs[..i]
        invariant ok ==> snapItems == if i == 0 then old(snapItems) else old(snapItems)[id := cs[..i]]
      {
        if ok {
          ok := AdmiteItem(Filas(snapItems, id), cs[i]);
          snapItems := snapItems[id := Filas(snapItems, id) + [cs[i]]];
          assert cs[..i + 1] == cs[..i] + [cs[i]];
        }
      }
      assert cs[..|cs|] == cs;
    }

    method InsertarUnidades(id: nat, us: seq<Unidad>) returns (ok: bool)
      requires Filas(snapUnidades, id) == []
      modifies this`snapUnidades
      ensures ok == UnidadesAdmitidas(SnapDe(us))
      ensures ok && us != [] ==> snapUnidades == old(snapUnidades)[id := SnapDe(us)]
    {
      ok := true;
      ghost var snap := SnapDe(us);
      for i := 0 to |us|
        invariant ok == (forall k | 0 <= k < i :: AdmiteUnidad(snap[..k], snap[k]))
        invariant ok ==> Filas(snapUnidades, id) == snap[..i]
        invariant ok ==> snapUnidades == if i == 0 then old(snapUnidades) else old(snapUnidades)[id := snap[..i]]
      {
        if ok {
          var fila := UnidadSnap(us[i].id, us[i].codigo, us[i].coef, us[i].total);
          ok := AdmiteUnidad(Filas(snapUnidades, id), fila);
          snapUnidades := snapUnidades[id := Filas(snapUnidades, id) + [fila]];
          assert snap[..i + 1] == snap[..i] + [fila];
        }
      }
      assert snap[..|us|] == snap;
    }

    // ---------- Operations ----------

    method Crear(consorcio: nat, periodo: string, v1: Fecha, v2: Option<Fecha>) returns (r: Respuesta)
      modifies this
      ensures (Tablas(), r) == CrearPaso(old(Tablas()), consorcio, periodo, v1, v2)
    {
      if !PeriodoValido(periodo) || !VencimientosValidos(v1, v2) { return Err(Invalida); }
      var i := 0;
      while i < |liqs|
        invariant i <= |liqs| && forall k | 0 <= k < i ::
          !(liqs[k].consorcio == consorcio && liqs[k].periodo == periodo && Activa(liqs[k]))
      {
        if liqs[i].consorcio == consorcio && liqs[i].periodo == periodo && Activa(liqs[i]) {
          return Err(ConflictoPeriodo);
        }
        i := i + 1;
      }
      var l := Liq(consorcio, periodo, v1, v2, Borrador, 1, 0, 0, 0);
      r := Ok(Dto(|liqs|, l));
      liqs := liqs + [l];
    }

    method ActualizarVencimientos(consorcio: nat, id: nat, v1: Fecha, v2: Option<Fecha>, version: int) returns (r: Respuesta)
      modifies this
      ensures (Tablas(), r) == VencimientosPaso(old(Tablas()), consorcio, id, v1, v2, version)
    {
      if !VencimientosValidos(v1, v2) { return Err(Invalida); }
      if id < |liqs| && liqs[id].consorcio == consorcio && liqs[id].estado == Borrador && liqs[id].version == version {
        liqs := liqs[id := liqs[id].(venc1 := v1, venc2 := v2)];
      }
      r := Ok(Vacio);
    }

    method FiltrarRegistrados(gastos: seq<Gasto>) returns (out: seq<Gasto>)
      ensures out == Registrados(gastos)
    {
      out := [];
      for i := 0 to |gastos|
        invariant out == Registrados(gastos[..i])
      {
        assert gastos[..i + 1][..i] == gastos[..i];
        if gastos[i].estado == "registrado" { out := out + [gastos[i]]; }
      }
      assert gastos[..|gastos|] == gastos;
    }

    /** Group and distribute: since codes are distinct, the result is that of the one ordering by code. */
    method Repartir(registrados: seq<Gasto>, ufs: seq<UF>, red: Redondeo) returns (r: Result<Distribucion, ErrorCalculo>)
      requires registrados != [] && ufs != [] && CodigosDistintos(ufs)
      ensures r == if SumaCoef(ufs) <= 0.0 then Err(SinCoeficiente)
                   else Ok(Reparto(Agrupados(registrados), Ordenar(ufs), red))
      ensures r.Ok? ==> r.value.items != [] && r.value.unidades != []
    {
      var conceptos := AgruparConceptos(registrados);
      ConceptosSinRepetir(registrados);
      assert registrados[0].conceptoId in ConceptosEn(registrados);
      r := Distribuir(conceptos, ufs, red);
      if r.Ok? {
        OrdenarCorrecto(ufs);
        ghost var orden :| EsOrdenDe(orden, ufs) && r.value == Reparto(conceptos, orden, red);
        IndependienteDelOrden(conceptos, red, ufs, ufs, orden, Ordenar(ufs));
        assert |orden| == |multiset(orden)| == |multiset(ufs)| == |ufs|;
      }
    }

    /** Delete the old snapshot and insert the new one; left half-written when a row is refused. */
    method ReemplazarSnapshot(id: nat, registrados: seq<Gasto>, d: Distribucion) returns (ok: bool)
      requires registrados != [] && d.items != [] && d.unidades != []
      modifies this`snapGastos, this`snapItems, this`snapUnidades
      ensures ok == (GastosAdmitidos(registrados) && ItemsAdmitidos(d.items) && UnidadesAdmitidas(SnapDe(d.unidades)))
      ensures ok ==> snapGastos == old(snapGastos)[id := registrados] && snapItems == old(snapItems)[id := d.items]
                     && snapUnidades == old(snapUnidades)[id := SnapDe(d.unidades)]
    {
      snapGastos := snapGastos[id := []];
      snapItems := snapItems[id := []];
      snapUnidades := snapUnidades[id := []];
      ok := InsertarGastos(id, registrados);
      if !ok { return; }
      ok := InsertarItems(id, d.items);
      if !ok { return; }
      ok := InsertarUnidades(id, d.unidades);
    }

    /** The writes of a calculation: the snapshot, the totals, the transition and the key's answer. */
    method AsentarCalculo(id: nat, version: int, key: string, registrados: seq<Gasto>, d: Distribucion) returns (r: Respuesta)
      requires id < |liqs| && registrados != [] && d.items != [] && d.unidades != []
      modifies this`liqs, this`snapGastos, this`snapItems, this`snapUnidades, this`llaves
      ensures var admitida := GastosAdmitidos(registrados) && ItemsAdmitidos(d.items) && UnidadesAdmitidas(SnapDe(d.unidades));
        r.Err? ==> r.error == (if !admitida then Restriccion else VersionDistinta)
      ensures r.Ok? <==> GastosAdmitidos(registrados) && ItemsAdmitidos(d.items) && UnidadesAdmitidas(SnapDe(d.unidades))
                         && old(liqs)[id].version == version
      ensures r.Ok? ==>
        var l := old(liqs)[id].(estado := Calculada, version := old(liqs)[id].version + 1, totalGastos := d.totalGastos,
                                totalDistribuido := d.totalDistribuido, alcanzadas := d.alcanzadas);
        && r == Ok(Dto(id, l)) && liqs == old(liqs)[id := l]
        && snapGastos == old(snapGastos)[id := registrados] && snapItems == old(snapItems)[id := d.items]
        && snapUnidades == old(snapUnidades)[id := SnapDe(d.unidades)]
        && llaves == Guardar(old(llaves), AmbitoCalcular, key, Dto(id, l))
    {
      var ok := ReemplazarSnapshot(id, registrados, d);
      if !ok { return Err(Restriccion); }
      liqs := liqs[id := liqs[id].(totalGastos := d.totalGastos, totalDistribuido := d.totalDistribuido, alcanzadas := d.alcanzadas)];

      var n := Transicionar(id, liqs[id].estado, Calculada, version);
      if n == 0 { return Err(VersionDistinta); }
      var dto := Dto(id, liqs[id]);
      GuardarLlave(AmbitoCalcular, key, dto);
      r := Ok(dto);
    }

    /** The body of CalcularLiquidacion; on an error the tables may be half-written. */
    method CalcularEnTx(consorcio: nat, id: nat, version: int, key: string, gastos: seq<Gasto>, ufs: seq<UF>, red: Redondeo)
      returns (r: Respuesta)
      requires CodigosDistintos(ufs)
      modifies this
      ensures r == CalcularPaso(old(Tablas()), consorcio, id, version, key, gastos, ufs, red).1
      ensures r.Ok? ==> Tablas() == CalcularPaso(old(Tablas()), consorcio, id, version, key, gastos, ufs, red).0
    {
      if !(id < |liqs| && liqs[id].consorcio == consorcio) { return Err(NoEncontrada); }
      var liq := liqs[id];
      if liq.estado != Borrador && liq.estado != Calculada { return Err(TransicionInvalida); }
      var registrados := FiltrarRegistrados(gastos);
      if registrados == [] { return Err(SinGastos); }
      if ufs == [] { return Err(SinUnidades); }

      var hit, resp, libre := SellarLlave(AmbitoCalcular, id, key);
      if !libre { return Err(LlaveEnUso); }
      if hit { return Ok(resp); }

      var calculo := Repartir(registrados, ufs, red);
      if calculo.Err? { return Err(ErrorDeCalculo(calculo.error)); }
      r := AsentarCalculo(id, version, key, registrados, calculo.value);
    }

    /** Calculate or recalculate. Unit codes are distinct by a unique index of the database. */
    method Calcular(consorcio: nat, id: nat, version: int, key: string, gastos: seq<Gasto>, ufs: seq<UF>, red: Redondeo)
      returns (r: Respuesta)
      requires CodigosDistintos(ufs)
      modifies this
      ensures (Tablas(), r) == CalcularPaso(old(Tablas()), consorcio, id, version, key, gastos, ufs, red)
    {
      var inicio := Tablas();
      r := CalcularEnTx(consorcio, id, version, key, gastos, ufs, red);
      if r.Err? { Deshacer(inicio); }
    }

    /** toUnidadCobro: what to charge, unit by unit, leaving out those with nothing to pay. */
    method UnidadesDeCobro(us: seq<UnidadSnap>, id: nat, periodo: string, vence: Fecha) returns (out: seq<Cargo>)
      ensures out == CargosDe(us, id, periodo, vence)
    {
      out := [];
      for i := 0 to |us|
        invariant out == CargosDe(us[..i], id, periodo, vence)
      {
        assert us[..i + 1][..i] == us[..i];
        if us[i].total > 0 {
          out := out + [Cargo(us[i].unidad, Some(id), "Expensa " + periodo, vence, us[i].total, us[i].total)];
        }
      }
      assert us[..|us|] == us;
    }

    /** CreateCargos: a charge and its debit entry for each unit of the lot. */
    method CrearCargos(lote: seq<Cargo>)
      modifies this`cargos, this`asientos
      ensures cargos == old(cargos) + lote
      ensures asientos == old(asientos) + AsientosDe(lote, |old(cargos)|)
    {
      for i := 0 to |lote|
        invariant cargos == old(cargos) + lote[..i]
        invariant asientos == old(asientos) + AsientosDe(lote[..i], |old(cargos)|)
      {
        var c := lote[i];
        asientos := asientos + [Asiento(c.unidad, TipoCargo, c.vence, c.total, 0, |cargos|)];
        cargos := cargos + [c];
        assert lote[..i + 1] == lote[..i] + [c];
        assert AsientosDe(lote[..i + 1], |old(cargos)|)
            == AsientosDe(lote[..i], |old(cargos)|) + [Asiento(c.unidad, TipoCargo, c.vence, c.total, 0, |old(cargos)| + i)];
      }
      assert lote[..|lote|] == lote;
    }

    method ConfirmarEnTx(consorcio: nat, id: nat, version: int, key: string) returns (r: Respuesta)
      modifies this
      ensures r == ConfirmarPaso(old(Tablas()), consorcio, id, version, key).1
      ensures r.Ok? ==> Tablas() == ConfirmarPaso(old(Tablas()), consorcio, id, version, key).0
    {
      if !(id < |liqs| && liqs[id].consorcio == consorcio) { return Err(NoEncontrada); }
      var liq := liqs[id];
      if liq.estado != Calculada { return Err(TransicionInvalida); }

      var hit, resp, libre := SellarLlave(AmbitoConfirmar, id, key);
      if !libre { return Err(LlaveEnUso); }
      if hit { return Ok(resp); }

      var lote := UnidadesDeCobro(Filas(snapUnidades, id), id, liq.periodo, liq.venc1);
      CrearCargos(lote);
      var n := Transicionar(id, liq.estado, Confirmada, version);
      if n == 0 { return Err(VersionDistinta); }
      var dto := Dto(id, liqs[id]);
      GuardarLlave(AmbitoConfirmar, key, dto);
      r := Ok(dto);
    }

    method Confirmar(consorcio: nat, id: nat, version: int, key: string) returns (r: Respuesta)
      modifies this
      ensures (Tablas(), r) == ConfirmarPaso(old(Tablas()), consorcio, id, version, key)
    {
      var inicio := Tablas();
      r := ConfirmarEnTx(consorcio, id, version, key);
      if r.Err? { Deshacer(inicio); }
    }

    method PublicarEnTx(consorcio: nat, id: nat, version: int, key: string) returns (r: Respuesta)
      modifies this
      ensures r == PublicarPaso(old(Tablas()), consorcio, id, version, key).1
      ensures r.Ok? ==> Tablas() == PublicarPaso(old(Tablas()), consorcio, id, version, key).0
    {
      if !(id < |liqs| && liqs[id].consorcio == consorcio) { return Err(NoEncontrada); }
      var liq := liqs[id];
      if liq.estado != Confirmada { return Err(TransicionInvalida); }

      var hit, resp, libre := SellarLlave(AmbitoPublicar, id, key);
      if !libre { return Err(LlaveEnUso); }
      if hit { return Ok(resp); }

      eventos := eventos + [Evento(id, liq.periodo, consorcio)];
      var n := Transicionar(id, liq.estado, Publicada, version);
      if n == 0 { return Err(VersionDistinta); }
      var dto := Dto(id, liqs[id]);
      GuardarLlave(AmbitoPublicar, key, dto);
      r := Ok(dto);
    }

    method Publicar(consorcio: nat, id: nat, version: int, key: string) returns (r: Respuesta)
      modifies this
      ensures (Tablas(), r) == PublicarPaso(old(Tablas()), consorcio, id, version, key)
    {
      var inicio := Tablas();
      r := PublicarEnTx(consorcio, id, version, key);
      if r.Err? { Deshacer(inicio); }
    }

    /** RevertirCargo: nothing is due any more, and a credit for the whole charge says so. */
    method RevertirCargo(k: nat)
      requires k < |cargos|
      modifies this`cargos, this`asientos
      ensures cargos == old(cargos)[k := old(cargos[k]).(saldo := 0)]
      ensures asientos == old(asientos) + [Asiento(old(cargos[k]).unidad, TipoReversa, old(cargos[k]).vence, 0, old(cargos[k]).total, k)]
    {
      var c := cargos[k];
      cargos := cargos[k := c.(saldo := 0)];
      asientos := asientos + [Asiento(c.unidad, TipoReversa, c.vence, 0, c.total, k)];
    }

    /** The reversal loop of AnularLiquidacion: every charge of the settlement still due. */
    method RevertirPendientes(id: nat)
      modifies this`cargos, this`asientos
      ensures cargos == ConReversas(old(cargos), id)
      ensures asientos == old(asientos) + AsientosReversa(old(cargos), id)
    {
      ghost var antes := cargos;
      var n := |cargos|;
      for k := 0 to n
        invariant |cargos| == n == |antes|
        invariant forall x | 0 <= x < n :: cargos[x] == if x < k && Reversible(antes[x], id) then antes[x].(saldo := 0) else antes[x]
        invariant asientos == old(asientos) + AsientosReversa(antes[..k], id)
      {
        assert antes[..k + 1][..k] == antes[..k];
        if cargos[k].liq == Some(id) && cargos[k].saldo > 0 {
          RevertirCargo(k);
        }
      }
      assert antes[..n] == antes;
    }

    method AnularEnTx(consorcio: nat, id: nat, version: int) returns (r: Respuesta)
      modifies this
      ensures r == AnularPaso(old(Tablas()), consorcio, id, version).1
      ensures r.Ok? ==> Tablas() == AnularPaso(old(Tablas()), consorcio, id, version).0
    {
      if !(id < |liqs| && liqs[id].consorcio == consorcio) { return Err(NoEncontrada); }
      var liq := liqs[id];
      if liq.estado == Publicada || liq.estado == Anulada || liq.estado == Cerrada { return Err(TransicionInvalida); }
      if liq.estado == Confirmada {
        RevertirPendientes(id);
      }
      var n := Transicionar(id, liq.estado, Anulada, version);
      if n == 0 { return Err(VersionDistinta); }
      r := Ok(Dto(id, liqs[id]));
    }

    method Anular(consorcio: nat, id: nat, version: int) returns (r: Respuesta)
      modifies this
      ensures (Tablas(), r) == AnularPaso(old(Tablas()), consorcio, id, version)
    {
      var inicio := Tablas();
      r := AnularEnTx(consorcio, id, version);
      if r.Err? { Deshacer(inicio); }
    }
  }
}
