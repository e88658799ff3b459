/** What holds of publications, their outbox events and the notices to users, after any run with any
    keys, any failures and any number of redeliveries. */
module DifusionTeoremas {
  import opened Comun
  import opened Texto
  import opened Difusion
  import L = Liquidaciones
  import I = LiquidacionesInvariante

  predicate Trata(c: Carga, tipo: Tipo, id: nat) {
    c.id == id && (if tipo == DeComunicado then c.CargaComunicado? else c.CargaLiquidacion?)
  }

  /** How many outbox events announce a resource. */
  function Encolados(ss: seq<Salida>, tipo: Tipo, id: nat): nat {
    if ss == [] then 0
    else Encolados(ss[..|ss| - 1], tipo, id) + if Trata(ss[|ss| - 1].carga, tipo, id) then 1 else 0
  }

  predicate Publicado(b: Base, tipo: Tipo, id: nat) {
    match tipo
    case DeComunicado => id < |b.comunicados| && b.comunicados[id].publicado
    case DeLiquidacion => id < |b.liq.liqs| && b.liq.liqs[id].estado == L.Publicada
  }

  /** No two notices share user, type and resource. */
  ghost predicate AvisosUnicos(ns: seq<Notificacion>) {
    forall i, j | 0 <= i < j < |ns| ::
      ns[i].usuario != ns[j].usuario || ns[i].aviso.tipo != ns[j].aviso.tipo || ns[i].aviso.recurso != ns[j].aviso.recurso
  }

  /** Every notice carries the text of an outbox event. */
  ghost predicate AvisosConOrigen(b: Base) {
    forall k | 0 <= k < |b.notificaciones| :: ConOrigen(b.salidas, b.notificaciones[k].aviso)
  }

  ghost predicate ConOrigen(ss: seq<Salida>, a: Aviso) {
    exists i | 0 <= i < |ss| :: AvisoDe(ss[i].carga) == a
  }

  /** Stored notices have a trimmed, nonempty title, and events carry the notice they announce. */
  ghost predicate TextosOk(b: Base) {
    && (forall i | 0 <= i < |b.comunicados| :: Ajustado(b.comunicados[i].titulo) && b.comunicados[i].titulo != "")
    && (forall i | 0 <= i < |b.salidas| && b.salidas[i].carga.CargaComunicado? ::
          var id := b.salidas[i].carga.id;
          id < |b.comunicados| && b.comunicados[id].publicado && b.salidas[i].carga == CargaDe(id, b.comunicados[id]))
  }

  ghost predicate LlavesOk(b: Base) {
    forall k | k in b.llaves ::
      var id := b.llaves[k].comunicado;
      id < |b.comunicados| && b.comunicados[id].publicado && b.llaves[k].resp == Some(FichaDe(id, b.comunicados[id]))
  }

  ghost predicate EncoladosOk(b: Base) {
    && (forall id: nat :: Encolados(b.salidas, DeComunicado, id) == (if Publicado(b, DeComunicado, id) then 1 else 0))
    && (forall id: nat :: Encolados(b.salidas, DeLiquidacion, id) == I.Publicaciones(b.liq.eventos, id))
  }

  ghost predicate IntentosOk(b: Base) {
    forall i | 0 <= i < |b.salidas| :: b.salidas[i].intentos <= 3
  }

  ghost predicate Valida(b: Base) {
    && I.Valida(b.liq)
    && EncoladosOk(b)
    && TextosOk(b)
    && LlavesOk(b)
    && IntentosOk(b)
    && AvisosUnicos(b.notificaciones)
    && AvisosConOrigen(b)
  }

  // ---------- Counting events ----------

  lemma {:induction false} EncoladosConcat(a: seq<Salida>, b: seq<Salida>, tipo: Tipo, id: nat)
    ensures Encolados(a + b, tipo, id) == Encolados(a, tipo, id) + Encolados(b, tipo, id)
  {
    if b == [] {
      assert a + b == a;
    } else {
      assert (a + b)[..|a + b| - 1] == a + b[..|b| - 1];
      EncoladosConcat(a, b[..|b| - 1], tipo, id);
    }
  }

  /** Only the payloads count. */
  lemma {:induction false} EncoladosPorCarga(a: seq<Salida>, b: seq<Salida>, tipo: Tipo, id: nat)
    requires |a| == |b| && forall i | 0 <= i < |a| :: a[i].carga == b[i].carga
    ensures Encolados(a, tipo, id) == Encolados(b, tipo, id)
  {
    if a != [] {
      EncoladosPorCarga(a[..|a| - 1], b[..|b| - 1], tipo, id);
    }
  }

  lemma {:induction false} EncoladosDeLiquidar(es: seq<L.Evento>, id: nat)
    ensures Encolados(SalidasDe(es), DeLiquidacion, id) == I.Publicaciones(es, id)
    ensures Encolados(SalidasDe(es), DeComunicado, id) == 0
  {
    if es != [] {
      assert SalidasDe(es)[..|es| - 1] == SalidasDe(es[..|es| - 1]);
      EncoladosDeLiquidar(es[..|es| - 1], id);
    }
  }

  lemma {:induction false} PublicacionesConcat(a: seq<L.Evento>, b: seq<L.Evento>, id: nat)
    ensures I.Publicaciones(a + b, id) == I.Publicaciones(a, id) + I.Publicaciones(b, id)
  {
    if b == [] {
      assert a + b == a;
    } else {
      assert (a + b)[..|a + b| - 1] == a + b[..|b| - 1];
      PublicacionesConcat(a, b[..|b| - 1], id);
    }
  }

  /** An event that announces a resource is counted. */
  lemma {:induction false} EncoladoCuenta(ss: seq<Salida>, tipo: Tipo, id: nat, i: nat)
    requires i < |ss| && Trata(ss[i].carga, tipo, id)
    ensures Encolados(ss, tipo, id) >= 1
    ensures forall j | 0 <= j < |ss| && j != i && Trata(ss[j].carga, tipo, id) :: Encolados(ss, tipo, id) >= 2
  {
    var n := |ss| - 1;
    if i < n {
      EncoladoCuenta(ss[..n], tipo, id, i);
    } else {
      forall j | 0 <= j < n && Trata(ss[j].carga, tipo, id) ensures Encolados(ss, tipo, id) >= 2 {
        EncoladoCuenta(ss[..n], tipo, id, j);
      }
    }
  }

  // ---------- The fan-out ----------

  /** The fan-out only adds, one notice at most per user and resource; afterwards every addressee has one,
      and whoever is new was addressed and had none. */
  lemma {:induction false} DifundirCorrecto(ns: seq<Notificacion>, ds: seq<nat>, a: Aviso)
    ensures var r := Difundir(ns, ds, a);
      && ns <= r
      && |r| - |ns| <= |ds|
      && (AvisosUnicos(ns) ==> AvisosUnicos(r))
      && (forall k | 0 <= k < |ds| :: Avisado(r, ds[k], a.tipo, a.recurso))
      && (forall k | |ns| <= k < |r| ::
            r[k].aviso == a && !r[k].leida && r[k].usuario in ds && !Avisado(ns, r[k].usuario, a.tipo, a.recurso))
  {
    if ds != [] {
      var previo, r, u := Difundir(ns, ds[..|ds| - 1], a), Difundir(ns, ds, a), ds[|ds| - 1];
      DifundirCorrecto(ns, ds[..|ds| - 1], a);
      assert previo <= r;
      forall k | 0 <= k < |ds| ensures Avisado(r, ds[k], a.tipo, a.recurso) {
        if k < |ds| - 1 {
          assert ds[..|ds| - 1][k] == ds[k];
          AvisadoPersiste(previo, r, ds[k], a.tipo, a.recurso);
        } else if !Avisado(previo, u, a.tipo, a.recurso) {
          assert r[|previo|] == Notificacion(u, a, false);
        }
      }
      if Avisado(ns, u, a.tipo, a.recurso) {
        AvisadoPersiste(ns, previo, u, a.tipo, a.recurso);
      }
    }
  }

  lemma AvisadoPersiste(ns: seq<Notificacion>, r: seq<Notificacion>, u: nat, tipo: Tipo, recurso: nat)
    requires Avisado(ns, u, tipo, recurso) && ns <= r
    ensures Avisado(r, u, tipo, recurso)
  {
    var k :| 0 <= k < |ns| && ns[k].usuario == u && ns[k].aviso.tipo == tipo && ns[k].aviso.recurso == recurso;
    assert r[k] == ns[k];
  }

  /** Addressing only users who have the notice adds nothing. */
  lemma {:induction false} DifundirRepetido(ns: seq<Notificacion>, ds: seq<nat>, a: Aviso)
    requires forall k | 0 <= k < |ds| :: Avisado(ns, ds[k], a.tipo, a.recurso)
    ensures Difundir(ns, ds, a) == ns
  {
    if ds != [] {
      DifundirRepetido(ns, ds[..|ds| - 1], a);
    }
  }

  // ---------- Every step keeps the invariant ----------

  lemma CrearConserva(b: Base, consorcio: nat, titulo: string, cuerpo: string, ambito: string, activas: nat)
    requires Valida(b)
    ensures Valida(CrearPaso(b, consorcio, titulo, cuerpo, ambito, activas).0)
  {
    var b' := CrearPaso(b, consorcio, titulo, cuerpo, ambito, activas).0;
    RecortarAjusta(titulo);
    assert forall id: nat :: Publicado(b', DeComunicado, id) == Publicado(b, DeComunicado, id);
  }

  lemma PublicarConserva(b: Base, id: nat, key: string)
    requires Valida(b)
    ensures Valida(PublicarPaso(b, id, key).0)
  {
    var b' := PublicarPaso(b, id, key).0;
    if b' != b && !b.comunicados[id].publicado {
      var nueva := Salida(CargaDe(id, b'.comunicados[id]), Pendiente, 0);
      PublicarEncola(b, b', id, nueva);
      forall k | 0 <= k < |b.notificaciones| ensures ConOrigen(b'.salidas, b.notificaciones[k].aviso) {
        OrigenPersiste(b.salidas, b'.salidas, b.notificaciones[k].aviso);
      }
      assert TextosOk(b');
    } else if b' != b {
      assert b'.comunicados == b.comunicados;
    }
  }

  lemma PublicarEncola(b: Base, b': Base, id: nat, nueva: Salida)
    requires EncoladosOk(b) && id < |b.comunicados| && !b.comunicados[id].publicado
    requires b'.comunicados == b.comunicados[id := b.comunicados[id].(publicado := true)] && b'.liq == b.liq
    requires b'.salidas == b.salidas + [nueva] && Trata(nueva.carga, DeComunicado, id)
    ensures EncoladosOk(b')
  {
    forall x: nat, t: Tipo
      ensures Encolados(b'.salidas, t, x) == Encolados(b.salidas, t, x) + if Trata(nueva.carga, t, x) then 1 else 0
    {
      EncoladosConcat(b.salidas, [nueva], t, x);
    }
  }

  lemma OrigenPersiste(ss: seq<Salida>, ss': seq<Salida>, a: Aviso)
    requires ConOrigen(ss, a) && |ss| <= |ss'| && forall i | 0 <= i < |ss| :: ss'[i].carga == ss[i].carga
    ensures ConOrigen(ss', a)
  {
    var i :| 0 <= i < |ss| && AvisoDe(ss[i].carga) == a;
    assert AvisoDe(ss'[i].carga) == a;
  }

  lemma LiquidarEventos(b: L.Base, op: L.Op)
    ensures b.eventos <= L.Paso(b, op).0.eventos
  {
  }

  lemma LiquidarConserva(b: Base, op: L.Op)
    requires Valida(b)
    ensures Valida(LiquidarPaso(b, op).0)
  {
    var b' := LiquidarPaso(b, op).0;
    I.PasoConserva(b.liq, op);
    LiquidarEventos(b.liq, op);
    var nuevos := b'.liq.eventos[|b.liq.eventos|..];
    assert b'.liq.eventos == b.liq.eventos + nuevos;
    LiquidarEncola(b, b', nuevos);
    forall k | 0 <= k < |b.notificaciones| ensures ConOrigen(b'.salidas, b.notificaciones[k].aviso) {
      OrigenPersiste(b.salidas, b'.salidas, b.notificaciones[k].aviso);
    }
    assert TextosOk(b') && LlavesOk(b') && IntentosOk(b');
  }

  lemma LiquidarEncola(b: Base, b': Base, nuevos: seq<L.Evento>)
    requires EncoladosOk(b) && b'.comunicados == b.comunicados
    requires b'.liq.eventos == b.liq.eventos + nuevos && b'.salidas == b.salidas + SalidasDe(nuevos)
    ensures EncoladosOk(b')
  {
    forall x: nat
      ensures Encolados(b'.salidas, DeComunicado, x) == Encolados(b.salidas, DeComunicado, x)
      ensures Encolados(b'.salidas, DeLiquidacion, x) == I.Publicaciones(b'.liq.eventos, x)
    {
      EncoladosConcat(b.salidas, SalidasDe(nuevos), DeComunicado, x);
      EncoladosConcat(b.salidas, SalidasDe(nuevos), DeLiquidacion, x);
      EncoladosDeLiquidar(nuevos, x);
      PublicacionesConcat(b.liq.eventos, nuevos, x);
    }
  }

  /** Steps that only change how far the events have got, and the notices. */
  lemma TrabajadorConserva(b: Base, b': Base)
    requires Valida(b) && b' == b.(salidas := b'.salidas, notificaciones := b'.notificaciones)
    requires |b'.salidas| == |b.salidas| && forall i | 0 <= i < |b.salidas| :: b'.salidas[i].carga == b.salidas[i].carga
    requires IntentosOk(b') && AvisosUnicos(b'.notificaciones)
    requires forall k | 0 <= k < |b'.notificaciones| :: ConOrigen(b.salidas, b'.notificaciones[k].aviso)
    ensures Valida(b')
  {
    forall x: nat, t: Tipo ensures Encolados(b'.salidas, t, x) == Encolados(b.salidas, t, x) {
      EncoladosPorCarga(b'.salidas, b.salidas, t, x);
    }
    forall k | 0 <= k < |b'.notificaciones| ensures ConOrigen(b'.salidas, b'.notificaciones[k].aviso) {
      OrigenPersiste(b.salidas, b'.salidas, b'.notificaciones[k].aviso);
    }
    assert EncoladosOk(b') && TextosOk(b');
  }

  lemma ProcesarConserva(b: Base, i: nat, e: Entorno)
    requires Valida(b)
    ensures Valida(ProcesarPaso(b, i, e).0)
  {
    var b' := ProcesarPaso(b, i, e).0;
    if b' != b {
      DifundirConOrigen(b, e.destinatarios, AvisoDe(b.salidas[i].carga), i);
      TrabajadorConserva(b, b');
    }
  }

  lemma DifundirConOrigen(b: Base, destinatarios: seq<nat>, a: Aviso, i: nat)
    requires AvisosUnicos(b.notificaciones) && AvisosConOrigen(b) && i < |b.salidas| && AvisoDe(b.salidas[i].carga) == a
    ensures var ns := Difundir(b.notificaciones, destinatarios, a);
      AvisosUnicos(ns) && forall k | 0 <= k < |ns| :: ConOrigen(b.salidas, ns[k].aviso)
  {
    var ns := Difundir(b.notificaciones, destinatarios, a);
    DifundirCorrecto(b.notificaciones, destinatarios, a);
    assert ConOrigen(b.salidas, a);
    forall k | 0 <= k < |ns| ensures ConOrigen(b.salidas, ns[k].aviso) {
      if k < |b.notificaciones| {
        assert ns[k] == b.notificaciones[k];
      }
    }
  }

  lemma PasoConserva(b: Base, op: Op)
    requires Valida(b)
    ensures Valida(Paso(b, op))
  {
    match op
    case Crear(c, t, x, s, n) => CrearConserva(b, c, t, x, s, n);
    case Publicar(id, k) => PublicarConserva(b, id, k);
    case Liquidar(o) => LiquidarConserva(b, o);
    case Reclamar(i) => TrabajadorConserva(b, ReclamarPaso(b, i));
    case Procesar(i, e) => ProcesarConserva(b, i, e);
    case Leer(u, i) => LeerConserva(b, u, i);
  }

  lemma LeerConserva(b: Base, u: nat, i: nat)
    requires Valida(b)
    ensures Valida(LeerPaso(b, u, i).0)
  {
    var b' := LeerPaso(b, u, i).0;
    if b' != b {
      assert forall k | 0 <= k < |b.notificaciones| :: b'.notificaciones[k].aviso == b.notificaciones[k].aviso;
      TrabajadorConserva(b, b');
    }
  }

  lemma {:induction false} AlcanzableValida(ops: seq<Op>)
    ensures Valida(Correr(ops))
  {
    if ops == [] {
      I.AlcanzableValida([]);
    } else {
      AlcanzableValida(ops[..|ops| - 1]);
      PasoConserva(Correr(ops[..|ops| - 1]), ops[|ops| - 1]);
    }
  }

  // ---------- Theorems over whole runs ----------

  /** After any run, what is published has exactly one outbox event and what is not has none; no event is
      claimed more than three times. */
  lemma UnEventoPorPublicacion(ops: seq<Op>, tipo: Tipo, id: nat)
    requires id < if tipo == DeComunicado then |Correr(ops).comunicados| else |Correr(ops).liq.liqs|
    ensures Encolados(Correr(ops).salidas, tipo, id) == (if Publicado(Correr(ops), tipo, id) then 1 else 0)
    ensures IntentosOk(Correr(ops))
  {
    AlcanzableValida(ops);
    var b := Correr(ops);
    if tipo == DeLiquidacion {
      assert I.EventosOk(b.liq, id);
    }
  }

  /** After any run, a user has at most one notice about a resource, the resource is published, and the
      notice reads as the resource's one event says. */
  lemma UnAvisoPorUsuario(ops: seq<Op>, k: nat)
    requires k < |Correr(ops).notificaciones|
    ensures var b := Correr(ops); var n := b.notificaciones[k];
      && Publicado(b, n.aviso.tipo, n.aviso.recurso)
      && (exists i | 0 <= i < |b.salidas| :: Trata(b.salidas[i].carga, n.aviso.tipo, n.aviso.recurso))
      && (forall i | 0 <= i < |b.salidas| && Trata(b.salidas[i].carga, n.aviso.tipo, n.aviso.recurso) :: n.aviso == AvisoDe(b.salidas[i].carga))
      && (forall j | 0 <= j < |b.notificaciones| && b.notificaciones[j].usuario == n.usuario
            && b.notificaciones[j].aviso.tipo == n.aviso.tipo && b.notificaciones[j].aviso.recurso == n.aviso.recurso :: j == k)
  {
    AlcanzableValida(ops);
    var b := Correr(ops);
    var n := b.notificaciones[k];
    assert ConOrigen(b.salidas, n.aviso);
    var i :| 0 <= i < |b.salidas| && AvisoDe(b.salidas[i].carga) == n.aviso;
    assert Trata(b.salidas[i].carga, n.aviso.tipo, n.aviso.recurso);
    EncoladoCuenta(b.salidas, n.aviso.tipo, n.aviso.recurso, i);
    EncoladosHastaUno(b, n.aviso.tipo, n.aviso.recurso);
  }

  lemma EncoladosHastaUno(b: Base, tipo: Tipo, id: nat)
    requires Valida(b)
    ensures Encolados(b.salidas, tipo, id) <= 1
    ensures Encolados(b.salidas, tipo, id) == 1 ==> Publicado(b, tipo, id)
  {
    if tipo == DeLiquidacion {
      if id < |b.liq.liqs| {
        assert I.EventosOk(b.liq, id);
      } else {
        I.SinPublicaciones(b.liq.eventos, id);
      }
    }
  }

  /** A successful delivery accounts for every addressee, leaves each with a notice, and touches no
      notice there was. */
  lemma EntregaCuadra(b: Base, i: nat, e: Entorno)
    requires ProcesarPaso(b, i, e).1.Ok?
    ensures var (b', r) := ProcesarPaso(b, i, e);
      && r.value.destinatarios == |e.destinatarios| == r.value.creadas + r.value.omitidas
      && 0 <= r.value.creadas <= r.value.destinatarios
      && b.notificaciones <= b'.notificaciones
      && |b'.notificaciones| == |b.notificaciones| + r.value.creadas
      && b'.salidas[i].estado == Procesado
      && (forall k | 0 <= k < |e.destinatarios| ::
            Avisado(b'.notificaciones, e.destinatarios[k], AvisoDe(b.salidas[i].carga).tipo, b.salidas[i].carga.id))
  {
    DifundirCorrecto(b.notificaciones, e.destinatarios, AvisoDe(b.salidas[i].carga));
  }

  /** Once given, a notice is there for good. */
  lemma AvisadoPorPaso(b: Base, op: Op, u: nat, tipo: Tipo, recurso: nat)
    requires Avisado(b.notificaciones, u, tipo, recurso)
    ensures Avisado(Paso(b, op).notificaciones, u, tipo, recurso)
  {
    var ns, ns' := b.notificaciones, Paso(b, op).notificaciones;
    if op.Procesar? && ns' != ns {
      DifundirCorrecto(ns, op.e.destinatarios, AvisoDe(b.salidas[op.i].carga));
      AvisadoPersiste(ns, ns', u, tipo, recurso);
    } else {
      var k :| 0 <= k < |ns| && ns[k].usuario == u && ns[k].aviso.tipo == tipo && ns[k].aviso.recurso == recurso;
      assert ns'[k].usuario == u && ns'[k].aviso == ns[k].aviso;
    }
  }

  function CorrerDesde(b: Base, ops: seq<Op>): Base {
    if ops == [] then b else Paso(CorrerDesde(b, ops[..|ops| - 1]), ops[|ops| - 1])
  }

  lemma {:induction false} AvisadoSiempre(b: Base, ops: seq<Op>, u: nat, tipo: Tipo, recurso: nat)
    requires Avisado(b.notificaciones, u, tipo, recurso)
    ensures Avisado(CorrerDesde(b, ops).notificaciones, u, tipo, recurso)
  {
    if ops != [] {
      AvisadoSiempre(b, ops[..|ops| - 1], u, tipo, recurso);
      AvisadoPorPaso(CorrerDesde(b, ops[..|ops| - 1]), ops[|ops| - 1], u, tipo, recurso);
    }
  }

  lemma CargasPorPaso(b: Base, op: Op)
    ensures |b.salidas| <= |Paso(b, op).salidas|
    ensures forall i | 0 <= i < |b.salidas| :: Paso(b, op).salidas[i].carga == b.salidas[i].carga
  {
  }

  /** Payloads never change and events are never removed. */
  lemma {:induction false} CargasFijas(b: Base, ops: seq<Op>)
    ensures |b.salidas| <= |CorrerDesde(b, ops).salidas|
    ensures forall i | 0 <= i < |b.salidas| :: CorrerDesde(b, ops).salidas[i].carga == b.salidas[i].carga
  {
    if ops != [] {
      CargasFijas(b, ops[..|ops| - 1]);
      CargasPorPaso(CorrerDesde(b, ops[..|ops| - 1]), ops[|ops| - 1]);
    }
  }

  /** However much later, delivering an event again to users it already reached creates nothing. */
  lemma ReentregaNoDuplica(b: Base, i: nat, e: Entorno, medio: seq<Op>, e': Entorno)
    requires ProcesarPaso(b, i, e).1.Ok?
    requires forall u | u in e'.destinatarios :: u in e.destinatarios
    ensures var b1 := CorrerDesde(ProcesarPaso(b, i, e).0, medio); var (b2, r) := ProcesarPaso(b1, i, e');
      && b2.notificaciones == b1.notificaciones
      && (r.Ok? ==> r.value == Resultado(|e'.destinatarios|, 0, |e'.destinatarios|))
  {
    EntregaCuadra(b, i, e);
    var b0 := ProcesarPaso(b, i, e).0;
    var b1 := CorrerDesde(b0, medio);
    CargasFijas(b0, medio);
    var a := AvisoDe(b.salidas[i].carga);
    forall k | 0 <= k < |e'.destinatarios| ensures Avisado(b1.notificaciones, e'.destinatarios[k], a.tipo, a.recurso) {
      assert e'.destinatarios[k] in e.destinatarios;
      AvisadoSiempre(b0, medio, e'.destinatarios[k], a.tipo, a.recurso);
    }
    DifundirRepetido(b1.notificaciones, e'.destinatarios, a);
  }

  /** In a reachable state a delivery succeeds exactly when the database holds and, for a settlement, the
      PDF comes out: the empty-title refusal is never met. */
  lemma EntregaFuncionaSi(ops: seq<Op>, i: nat, e: Entorno)
    requires i < |Correr(ops).salidas|
    ensures var b := Correr(ops);
      ProcesarPaso(b, i, e).1.Ok? <==> e.falla.None? && (b.salidas[i].carga.CargaLiquidacion? ==> e.pdf)
    ensures ProcesarPaso(Correr(ops), i, e).1 != Err(TituloVacio)
  {
    AlcanzableValida(ops);
    var b := Correr(ops);
    match b.salidas[i].carga
    case CargaComunicado(id, _, titulo, _, _) => RecortarAjusta(titulo);
    case CargaLiquidacion(_, _, periodo) =>
      RecortarAjusta(periodo);
      RecortarAjusta(TituloLiquidacion(periodo));
  }

  /** An event in progress stays as it is until something delivers it. */
  lemma EnCursoQueda(b: Base, i: nat, op: Op)
    requires i < |b.salidas| && b.salidas[i].estado == Procesando && !(op.Procesar? && op.i == i)
    ensures i < |Paso(b, op).salidas| && Paso(b, op).salidas[i] == b.salidas[i]
  {
  }

  /** Publishing answers the published notice; doing it again with any key changes nothing but that key. */
  lemma PublicarRepetido(ops: seq<Op>, id: nat, k1: string, k2: string)
    requires PublicarPaso(Correr(ops), id, k1).1.Ok?
    ensures var (b1, r1) := PublicarPaso(Correr(ops), id, k1); var (b2, r2) := PublicarPaso(b1, id, k2);
      && id < |b1.comunicados| && r1 == Ok(FichaDe(id, b1.comunicados[id])) && r1.value.publicado
      && (r2.Ok? ==> r2 == r1)
      && (k2 == k1 ==> r2 == r1 && b2 == b1)
      && b2 == b1.(llaves := b2.llaves)
  {
    AlcanzableValida(ops);
    PublicarDeja(Correr(ops), id, k1);
    PublicarConserva(Correr(ops), id, k1);
    YaPublicado(PublicarPaso(Correr(ops), id, k1).0, id, k2);
  }

  lemma PublicarDeja(b: Base, id: nat, key: string)
    requires Valida(b) && PublicarPaso(b, id, key).1.Ok?
    ensures var (b', r) := PublicarPaso(b, id, key);
      && id < |b'.comunicados| && b'.comunicados[id].publicado && r == Ok(FichaDe(id, b'.comunicados[id]))
      && Recortar(key) != "" && key in b'.llaves && b'.llaves[key] == FilaLlave(id, Some(r.value))
  {
  }

  lemma YaPublicado(b: Base, id: nat, key: string)
    requires Valida(b) && id < |b.comunicados| && b.comunicados[id].publicado
    ensures var (b', r) := PublicarPaso(b, id, key);
      && (r.Ok? ==> r == Ok(FichaDe(id, b.comunicados[id])))
      && b' == b.(llaves := b'.llaves)
      && (Recortar(key) != "" && key in b.llaves && b.llaves[key].comunicado == id && b.llaves[key].resp.Some? ==> r.Ok? && b' == b)
  {
    assert b.comunicados[id := b.comunicados[id].(publicado := true)] == b.comunicados;
  }

  /** A publication is refused exactly when the key is blank, belongs to another notice, or there is no
      such notice; a refusal changes nothing. */
  lemma PublicarFunciona(ops: seq<Op>, id: nat, key: string)
    ensures var b := Correr(ops); var (b', r) := PublicarPaso(b, id, key);
      && (r.Ok? <==> Recortar(key) != "" && id < |b.comunicados| && (key in b.llaves ==> b.llaves[key].comunicado == id))
      && (r.Err? ==> b' == b)
  {
    AlcanzableValida(ops);
  }

  lemma LeidaTrasEntrega(b: Base, i: nat, k: nat, e: Entorno)
    requires i < |b.notificaciones| && b.notificaciones[i].leida
    ensures var b' := ProcesarPaso(b, k, e).0; i < |b'.notificaciones| && b'.notificaciones[i] == b.notificaciones[i]
  {
    if k < |b.salidas| {
      DifundirCorrecto(b.notificaciones, e.destinatarios, AvisoDe(b.salidas[k].carga));
    }
  }

  lemma LeidaPorPaso(b: Base, i: nat, op: Op)
    requires i < |b.notificaciones| && b.notificaciones[i].leida
    ensures i < |Paso(b, op).notificaciones| && Paso(b, op).notificaciones[i] == b.notificaciones[i]
  {
    if op.Procesar? {
      LeidaTrasEntrega(b, i, op.i, op.e);
    }
  }

  lemma {:induction false} LeidaSiempre(b: Base, i: nat, ops: seq<Op>)
    requires i < |b.notificaciones| && b.notificaciones[i].leida
    ensures i < |CorrerDesde(b, ops).notificaciones| && CorrerDesde(b, ops).notificaciones[i] == b.notificaciones[i]
  {
    if ops != [] {
      LeidaSiempre(b, i, ops[..|ops| - 1]);
      LeidaPorPaso(CorrerDesde(b, ops[..|ops| - 1]), i, ops[|ops| - 1]);
    }
  }

  /** Marking a notice read works once: repeated at any later time, by anyone, it is answered as not
      found (the code's comment says a second click returns the notice again). */
  lemma LeerUnaVez(b: Base, u: nat, i: nat, ops: seq<Op>, quien: nat)
    requires LeerPaso(b, u, i).1.Ok?
    ensures var fin := CorrerDesde(LeerPaso(b, u, i).0, ops); LeerPaso(fin, quien, i) == (fin, Err(NoEncontrado))
  {
    LeidaSiempre(LeerPaso(b, u, i).0, i, ops);
  }
}
