/** Publication, claim, fan-out and reading as they run, statement by statement, proved to commit exactly
    the steps of Difusion. */
module DifusionAlmacen {
  import opened Comun
  import opened Texto
  import opened Difusion
  import L = Liquidaciones

  class Almacen {
    var liq: L.Base
    var comunicados: seq<Comunicado>
    var salidas: seq<Salida>
    var notificaciones: seq<Notificacion>
    var llaves: map<string, FilaLlave>

    function Tablas(): Base
      reads this
    {
      Base(liq, comunicados, salidas, notificaciones, llaves)
    }

    constructor ()
      ensures Tablas() == BaseVacia
    {
      liq, comunicados, salidas, notificaciones, llaves := L.BaseVacia, [], [], [], map[];
    }

    /** ROLLBACK to the tables the transaction began with. */
    method Deshacer(inicio: Base)
      modifies this
      ensures Tablas() == inicio
    {
      liq, comunicados, salidas := inicio.liq, inicio.comunicados, inicio.salidas;
      notificaciones, llaves := inicio.notificaciones, inicio.llaves;
    }

    /** Create. */
    method Crear(consorcio: nat, titulo: string, cuerpo: string, ambito: string, activas: nat) returns (r: Result<Ficha, ErrorDifusion>)
      modifies this
      ensures (Tablas(), r) == CrearPaso(old(Tablas()), consorcio, titulo, cuerpo, ambito, activas)
    {
      if Recortar(titulo) == "" || Recortar(cuerpo) == "" { return Err(DatosObligatorios); }
      var alcance := ambito;
      if alcance == "" { alcance := "todos"; }
      if alcance != "todos" && alcance != "unidades" { return Err(Restriccion); }
      var c := Comunicado(consorcio, Recortar(titulo), Recortar(cuerpo), activas, false);
      comunicados := comunicados + [c];
      r := Ok(FichaDe(|comunicados| - 1, c));
    }

    /** Publish inside its transaction; the key row is written first and may be left behind by an error. */
    method PublicarEnTx(id: nat, key: string) returns (r: Result<Ficha, ErrorDifusion>)
      modifies this
      ensures r == PublicarPaso(old(Tablas()), id, key).1
      ensures r.Ok? ==> Tablas() == PublicarPaso(old(Tablas()), id, key).0
    {
      if Recortar(key) == "" { return Err(LlaveRequerida); }
      if key !in llaves {
        llaves := llaves[key := FilaLlave(id, None)];
      } else {
        if llaves[key].comunicado != id { return Err(LlaveEnUso); }
        if llaves[key].resp.Some? { return Ok(llaves[key].resp.value); }
      }
      if id >= |comunicados| { return Err(NoEncontrado); }
      var fila := comunicados[id];
      if !fila.publicado {
        fila := fila.(publicado := true);
        comunicados := comunicados[id := fila];
        salidas := salidas + [Salida(CargaDe(id, fila), Pendiente, 0)];
      }
      llaves := llaves[key := llaves[key].(resp := Some(FichaDe(id, fila)))];
      assert comunicados == old(comunicados)[id := old(comunicados)[id].(publicado := true)];
      r := Ok(FichaDe(id, fila));
    }

    /** PublishComunicado: commit on success, roll back on error. */
    method Publicar(id: nat, key: string) returns (r: Result<Ficha, ErrorDifusion>)
      modifies this
      ensures (Tablas(), r) == PublicarPaso(old(Tablas()), id, key)
    {
      var inicio := Tablas();
      r := PublicarEnTx(id, key);
      if r.Err? { Deshacer(inicio); }
    }

    /** One row of claim_pending_outbox_events. */
    method Reclamar(i: nat)
      modifies this`salidas
      ensures Tablas() == ReclamarPaso(old(Tablas()), i)
    {
      if i < |salidas| && (salidas[i].estado == Pendiente || salidas[i].estado == Fallido) && salidas[i].intentos < 3 {
        salidas := salidas[i := salidas[i].(estado := Procesando, intentos := salidas[i].intentos + 1)];
      }
    }

    /** notificar: stops at the insert the database refuses; otherwise everyone addressed was reached or
        had been, and the counts say how many of each. */
    method Notificar(a: Aviso, destinatarios: seq<nat>, falla: Option<nat>) returns (res: Resultado, fallo: Option<ErrorDifusion>)
      modifies this`notificaciones
      ensures a.titulo == "" ==> fallo == Some(TituloVacio) && notificaciones == old(notificaciones)
      ensures a.titulo != "" ==> fallo == if falla.Some? && falla.value < |destinatarios| then Some(FallaDeBase) else None
      ensures fallo.None? ==>
                && notificaciones == Difundir(old(notificaciones), destinatarios, a)
                && res.destinatarios == |destinatarios| && res.omitidas == |destinatarios| - res.creadas
                && res.creadas == |notificaciones| - |old(notificaciones)|
    {
      res, fallo := Resultado(0, 0, 0), None;
      if a.titulo == "" { return res, Some(TituloVacio); }
      var creadas, omitidas := 0, 0;
      for i := 0 to |destinatarios|
        invariant creadas + omitidas == i && creadas == |notificaciones| - |old(notificaciones)|
        invariant notificaciones == Difundir(old(notificaciones), destinatarios[..i], a)
        invariant falla.Some? ==> falla.value >= i
      {
        if falla == Some(i) { return res, Some(FallaDeBase); }
        assert destinatarios[..i + 1][..i] == destinatarios[..i];
        if Avisado(notificaciones, destinatarios[i], a.tipo, a.recurso) {
          omitidas := omitidas + 1;
        } else {
          notificaciones := notificaciones + [Notificacion(destinatarios[i], a, false)];
          creadas := creadas + 1;
        }
      }
      assert destinatarios[..|destinatarios|] == destinatarios;
      res := Resultado(|destinatarios|, creadas, omitidas);
    }

    /** markFailed, in the same transaction: after a database error its own UPDATE fails too. */
    method MarcarFallido(i: nat, abortada: bool, inicio: Base)
      requires i < |salidas|
      modifies this
      ensures Tablas() == if abortada then inicio else Marcar(old(Tablas()), i, Fallido)
    {
      if abortada {
        Deshacer(inicio);
      } else {
        salidas := salidas[i := salidas[i].(estado := Fallido)];
      }
    }

    /** process and processPublicacion. */
    method Procesar(i: nat, e: Entorno) returns (r: Result<Resultado, ErrorDifusion>)
      modifies this
      ensures (Tablas(), r) == ProcesarPaso(old(Tablas()), i, e)
    {
      if i >= |salidas| { return Err(NoEncontrado); }
      var inicio, carga := Tablas(), salidas[i].carga;
      if carga.CargaLiquidacion? && !e.pdf {
        MarcarFallido(i, e.falla.Some?, inicio);
        return Err(if e.falla.Some? then FallaDeBase else SinPdf);
      }
      var res, fallo := Notificar(AvisoDe(carga), e.destinatarios, e.falla);
      if fallo.Some? {
        MarcarFallido(i, e.falla.Some?, inicio);
        return Err(if e.falla.Some? then FallaDeBase else fallo.value);
      }
      if e.falla.Some? {
        Deshacer(inicio);
        return Err(FallaDeBase);
      }
      salidas := salidas[i := salidas[i].(estado := Procesado)];
      r := Ok(res);
    }

    /** MarcarLeida. */
    method MarcarLeida(usuario: nat, i: nat) returns (r: Result<Notificacion, ErrorDifusion>)
      modifies this`notificaciones
      ensures (Tablas(), r) == LeerPaso(old(Tablas()), usuario, i)
    {
      if i >= |notificaciones| || notificaciones[i].usuario != usuario || notificaciones[i].leida { return Err(NoEncontrado); }
      notificaciones := notificaciones[i := notificaciones[i].(leida := true)];
      r := Ok(notificaciones[i]);
    }
  }
}
