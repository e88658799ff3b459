/** What the notices say and to whom they go: in every reachable state they carry the words of what was published
    (internal/comunicaciones/comunicados.go, internal/notificaciones/notificaciones.go). */
module DifusionTextos {
  import opened Comun
  import opened Texto
  import opened Difusion
  import opened DifusionTeoremas
  import L = Liquidaciones
  import E = LiquidacionesEfectos

  ghost predicate SeisDigitos(p: string) {
    |p| == 6 && forall i | 0 <= i < 6 :: '0' <= p[i] <= '9'
  }

  ghost predicate PeriodosOk(l: L.Base) {
    forall i | 0 <= i < |l.liqs| :: SeisDigitos(l.liqs[i].periodo)
  }

  ghost predicate EventosOk(l: L.Base) {
    forall i | 0 <= i < |l.eventos| :: E.EventoFiel(l, l.eventos[i])
  }

  /** A settlement's payload names the building and period of its row. */
  ghost predicate CargaFiel(l: L.Base, c: Carga) {
    c.CargaLiquidacion? ==> c.id < |l.liqs| && c.consorcio == l.liqs[c.id].consorcio && c.periodo == l.liqs[c.id].periodo
  }

  ghost predicate CargasFieles(l: L.Base, ss: seq<Salida>) {
    forall i | 0 <= i < |ss| :: CargaFiel(l, ss[i].carga)
  }

  ghost predicate Fiel(b: Base) {
    PeriodosOk(b.liq) && EventosOk(b.liq) && CargasFieles(b.liq, b.salidas)
  }

  lemma LiquidarPeriodos(l: L.Base, op: L.Op)
    requires PeriodosOk(l)
    ensures PeriodosOk(L.Paso(l, op).0)
  {
    var l' := L.Paso(l, op).0;
    forall i | 0 <= i < |l'.liqs| ensures SeisDigitos(l'.liqs[i].periodo) {
      if i < |l.liqs| { E.DatosFijos(l, op, i); }
    }
  }

  lemma CargasSiguenFieles(l: L.Base, op: L.Op, ss: seq<Salida>)
    requires CargasFieles(l, ss)
    ensures CargasFieles(L.Paso(l, op).0, ss)
  {
    forall i | 0 <= i < |ss| ensures CargaFiel(L.Paso(l, op).0, ss[i].carga) {
      assert CargaFiel(l, ss[i].carga);
      if ss[i].carga.CargaLiquidacion? { E.DatosFijos(l, op, ss[i].carga.id); }
    }
  }

  lemma NuevasFieles(l: L.Base, n: nat)
    requires EventosOk(l) && n <= |l.eventos|
    ensures CargasFieles(l, SalidasDe(l.eventos[n..]))
  {
    forall i | 0 <= i < |SalidasDe(l.eventos[n..])| ensures CargaFiel(l, SalidasDe(l.eventos[n..])[i].carga) {
      assert E.EventoFiel(l, l.eventos[n + i]);
    }
  }

  lemma LiquidarFiel(b: Base, op: L.Op)
    requires Fiel(b)
    ensures Fiel(LiquidarPaso(b, op).0)
  {
    var l := L.Paso(b.liq, op).0;
    LiquidarPeriodos(b.liq, op);
    E.EventosPorPaso(b.liq, op);
    LiquidarEventos(b.liq, op);
    CargasSiguenFieles(b.liq, op, b.salidas);
    NuevasFieles(l, |b.liq.eventos|);
  }

  lemma {:induction false} SiempreFiel(ops: seq<Op>)
    ensures Fiel(Correr(ops))
  {
    if ops != [] {
      var b, op := Correr(ops[..|ops| - 1]), ops[|ops| - 1];
      SiempreFiel(ops[..|ops| - 1]);
      if op.Liquidar? {
        LiquidarFiel(b, op.op);
      } else {
        CargasPorPaso(b, op);
      }
    }
  }

  // ---------- The words of a notice ----------

  lemma SiguenAjustados(a: string, b: string)
    requires |a| > 0 && !EsEspacio(a[0]) && |b| > 0 && !EsEspacio(b[|b| - 1])
    ensures Recortar(a + b) == a + b
  {
    RecortarAjusta(a + b);
  }

  lemma PeriodoAjustado(p: string)
    requires SeisDigitos(p)
    ensures Recortar(p) == p && !EsEspacio(p[5])
  {
    RecortarAjusta(p);
  }

  lemma TextosDeLiquidacion(p: string)
    requires SeisDigitos(p)
    ensures Recortar(TituloLiquidacion(p)) == "Liquidación " + p
    ensures CuerpoLiquidacion(p) == "Período " + p + ". Ya está disponible en el portal."
  {
    PeriodoAjustado(p);
    SiguenAjustados("Liquidación ", p);
  }

  /** After any run, a notice about a communication has its title and body, and one about a settlement names its period. */
  lemma AvisoDice(ops: seq<Op>, k: nat)
    requires k < |Correr(ops).notificaciones|
    ensures var b := Correr(ops); var a := b.notificaciones[k].aviso;
      match a.tipo
      case DeComunicado =>
        a.recurso < |b.comunicados| && b.comunicados[a.recurso].publicado
        && a.titulo == b.comunicados[a.recurso].titulo && a.cuerpo == b.comunicados[a.recurso].cuerpo
      case DeLiquidacion =>
        a.recurso < |b.liq.liqs| && b.liq.liqs[a.recurso].estado == L.Publicada
        && a.titulo == "Liquidación " + b.liq.liqs[a.recurso].periodo
        && a.cuerpo == "Período " + b.liq.liqs[a.recurso].periodo + ". Ya está disponible en el portal."
  {
    var b := Correr(ops);
    var a := b.notificaciones[k].aviso;
    AlcanzableValida(ops);
    SiempreFiel(ops);
    UnAvisoPorUsuario(ops, k);
    var i :| 0 <= i < |b.salidas| && Trata(b.salidas[i].carga, a.tipo, a.recurso);
    match b.salidas[i].carga
    case CargaComunicado(id, _, titulo, _, _) => RecortarAjusta(titulo);
    case CargaLiquidacion(id, _, periodo) =>
      assert CargaFiel(b.liq, b.salidas[i].carga);
      TextosDeLiquidacion(periodo);
  }

  // ---------- Creating and delivering ----------

  /** A communication is created if and only if its title and body are not blank and its scope is a known one. It is kept trimmed,
      unpublished, with the number of active units as addressees, and nothing else changes. */
  lemma CrearFunciona(b: Base, consorcio: nat, titulo: string, cuerpo: string, ambito: string, activas: nat)
    ensures var (b', r) := CrearPaso(b, consorcio, titulo, cuerpo, ambito, activas);
      && (r.Ok? <==> Recortar(titulo) != "" && Recortar(cuerpo) != "" && (ambito == "" || ambito == "todos" || ambito == "unidades"))
      && (r.Err? ==> b' == b)
      && (r.Ok? ==> b' == b.(comunicados := b.comunicados + [Comunicado(consorcio, Recortar(titulo), Recortar(cuerpo), activas, false)])
                    && r == Ok(Ficha(|b.comunicados|, Recortar(titulo), false, activas)))
  {
  }

  /** A first publication marks the communication and queues its own words, once; a later one queues nothing. */
  lemma PublicarEscribe(ops: seq<Op>, id: nat, key: string)
    requires PublicarPaso(Correr(ops), id, key).1.Ok?
    ensures var b := Correr(ops); var b' := PublicarPaso(b, id, key).0;
      && id < |b.comunicados| && b'.comunicados == b.comunicados[id := b.comunicados[id].(publicado := true)]
      && b' == b.(comunicados := b'.comunicados, salidas := b'.salidas, llaves := b'.llaves)
      && var c := b.comunicados[id];
         b'.salidas == if c.publicado then b.salidas
                       else b.salidas + [Salida(CargaComunicado(id, c.consorcio, c.titulo, c.cuerpo, c.destinatarios), Pendiente, 0)]
  {
    AlcanzableValida(ops);
  }

  ghost predicate YaAvisado(ns: seq<Notificacion>, u: nat, tipo: Tipo, recurso: nat) {
    exists k :: 0 <= k < |ns| && ns[k].usuario == u && ns[k].aviso.tipo == tipo && ns[k].aviso.recurso == recurso
  }

  /** Exactly the addressees not told before get a notice, unread, about the resource. */
  ghost predicate Avisados(ns: seq<Notificacion>, ns': seq<Notificacion>, destinatarios: seq<nat>, tipo: Tipo, recurso: nat) {
    && ns <= ns'
    && (forall k | |ns| <= k < |ns'| ::
          ns'[k].usuario in destinatarios && !ns'[k].leida && ns'[k].aviso.tipo == tipo && ns'[k].aviso.recurso == recurso
          && !YaAvisado(ns, ns'[k].usuario, tipo, recurso))
    && (forall u | u in destinatarios :: YaAvisado(ns', u, tipo, recurso))
  }

  lemma DifundirAvisa(ns: seq<Notificacion>, destinatarios: seq<nat>, a: Aviso)
    ensures Avisados(ns, Difundir(ns, destinatarios, a), destinatarios, a.tipo, a.recurso)
  {
    DifundirCorrecto(ns, destinatarios, a);
    var ns' := Difundir(ns, destinatarios, a);
    forall u | u in destinatarios ensures YaAvisado(ns', u, a.tipo, a.recurso) {
      var k :| 0 <= k < |destinatarios| && destinatarios[k] == u;
      assert Avisado(ns', destinatarios[k], a.tipo, a.recurso);
    }
  }

  function TipoDe(c: Carga): Tipo {
    if c.CargaComunicado? then DeComunicado else DeLiquidacion
  }

  lemma AvisoDelRecurso(c: Carga)
    ensures AvisoDe(c).tipo == TipoDe(c) && AvisoDe(c).recurso == c.id
  {
  }

  /** A delivery that goes through. */
  ghost predicate Entregado(b: Base, b': Base, i: nat, e: Entorno) {
    && i < |b.salidas|
    && b' == b.(salidas := b.salidas[i := b.salidas[i].(estado := Procesado)], notificaciones := b'.notificaciones)
    && Avisados(b.notificaciones, b'.notificaciones, e.destinatarios, TipoDe(b.salidas[i].carga), b.salidas[i].carga.id)
  }

  lemma EntregaOk(b: Base, i: nat, e: Entorno)
    requires ProcesarPaso(b, i, e).1.Ok?
    ensures Entregado(b, ProcesarPaso(b, i, e).0, i, e)
  {
    AvisoDelRecurso(b.salidas[i].carga);
    DifundirAvisa(b.notificaciones, e.destinatarios, AvisoDe(b.salidas[i].carga));
  }

  lemma EntregaErr(b: Base, i: nat, e: Entorno)
    requires i < |b.salidas| && ProcesarPaso(b, i, e).1.Err? && ProcesarPaso(b, i, e).1.error != TituloVacio
    ensures ProcesarPaso(b, i, e) ==
      if e.falla.Some? then (b, Err(FallaDeBase))
      else (b.(salidas := b.salidas[i := b.salidas[i].(estado := Fallido)]), Err(SinPdf))
  {
  }

  /** Every delivery of a queued event: when the database fails nothing stays; when the PDF of a settlement does not come out the event
      is failed and nobody is told; otherwise it is done, and those not told before are, about what the event announces. */
  lemma EntregaEscribe(ops: seq<Op>, i: nat, e: Entorno)
    requires i < |Correr(ops).salidas|
    ensures var b := Correr(ops); var (b', r) := ProcesarPaso(b, i, e);
      if e.falla.Some? then b' == b && r == Err(FallaDeBase)
      else if b.salidas[i].carga.CargaLiquidacion? && !e.pdf then
        b' == b.(salidas := b.salidas[i := b.salidas[i].(estado := Fallido)]) && r == Err(SinPdf)
      else r.Ok? && Entregado(b, b', i, e)
  {
    EntregaFuncionaSi(ops, i, e);
    var b := Correr(ops);
    if ProcesarPaso(b, i, e).1.Ok? {
      EntregaOk(b, i, e);
    } else {
      EntregaErr(b, i, e);
    }
  }

  /** Claiming takes an event that is pending or failed and was tried fewer than three times, and counts the try; it leaves any
      other as it is. */
  lemma ReclamarFunciona(b: Base, i: nat)
    ensures ReclamarPaso(b, i) ==
      if i < |b.salidas| && (b.salidas[i].estado == Pendiente || b.salidas[i].estado == Fallido) && b.salidas[i].intentos <= 2
      then b.(salidas := b.salidas[i := Salida(b.salidas[i].carga, Procesando, b.salidas[i].intentos + 1)]) else b
  {
  }

  /** A notice is marked read exactly by its addressee and when it was unread; nothing else changes. */
  lemma LeerFunciona(b: Base, usuario: nat, i: nat)
    ensures var (b', r) := LeerPaso(b, usuario, i);
      && (r.Ok? <==> i < |b.notificaciones| && b.notificaciones[i].usuario == usuario && !b.notificaciones[i].leida)
      && (r.Err? ==> b' == b && r == Err(NoEncontrado))
      && (r.Ok? ==> b' == b.(notificaciones := b.notificaciones[i := Notificacion(usuario, b.notificaciones[i].aviso, true)])
                    && r == Ok(b'.notificaciones[i]))
  {
  }
}
