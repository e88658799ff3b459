/** Which outbox events the worker loses: a delivery follows a claim, and a failed one can be taken up again
    only while the claim query still picks the event (internal/outbox/outbox.go,
    db/migrations/00024_comunicados_outbox.sql). */
module Reclamos {
  import opened Comun
  import opened Texto
  import opened Difusion
  import opened DifusionTeoremas

  predicate Entrega(op: Op, i: nat) {
    op.Procesar? && op.i == i
  }

  /** This claim takes event `i`. */
  predicate Toma(b: Base, op: Op, i: nat) {
    op.Reclamar? && op.i == i && ReclamarPaso(b, i) != b
  }

  /** Delivery `k` belongs to claim `j`: the claim took its event and nothing delivered it in between. */
  ghost predicate DelReclamo(ops: seq<Op>, j: nat, k: nat)
    requires j < k < |ops| && ops[k].Procesar?
  {
    Toma(Correr(ops[..j]), ops[j], ops[k].i) && forall m | j < m < k :: !Entrega(ops[m], ops[k].i)
  }

  /** drain: the worker delivers only what it has claimed, once for each claim. */
  ghost predicate EntregaLoReclamado(ops: seq<Op>) {
    forall k | 0 <= k < |ops| && ops[k].Procesar? :: exists j | 0 <= j < k :: DelReclamo(ops, j, k)
  }

  /** A claimed event whose delivery fails can be claimed again if and only if the failure was not the
      database's, so that it was recorded, and fewer than three attempts were made. */
  lemma ReclamableTrasFallo(b: Base, i: nat, e: Entorno)
    requires i < |b.salidas| && b.salidas[i].estado == Procesando && ProcesarPaso(b, i, e).1.Err?
    ensures var b' := ProcesarPaso(b, i, e).0;
      ReclamarPaso(b', i) != b' <==> e.falla.None? && b.salidas[i].intentos < 3
  {
    var b' := ProcesarPaso(b, i, e).0;
    assert e.falla.None? ==> b'.salidas[i] == b.salidas[i].(estado := Fallido);
    assert ReclamarPaso(b', i) != b' ==> b'.salidas[i].estado in {Pendiente, Fallido} && b'.salidas[i].intentos < 3;
    if b'.salidas[i].estado == Fallido && b'.salidas[i].intentos < 3 {
      assert ReclamarPaso(b', i).salidas[i].estado == Procesando;
    }
  }

  /** No claim takes this event. */
  predicate Atascada(s: Salida) {
    s.estado == Procesando || s.intentos >= 3
  }

  lemma AtascadaQueda(b: Base, i: nat, op: Op)
    requires i < |b.salidas| && Atascada(b.salidas[i]) && !Entrega(op, i)
    ensures i < |Paso(b, op).salidas| && Paso(b, op).salidas[i] == b.salidas[i] && !Toma(b, op, i)
  {
  }

  ghost predicate EnCurso(ops: seq<Op>, k: nat, i: nat)
    requires k <= |ops|
  {
    i < |Correr(ops[..k]).salidas| && Correr(ops[..k]).salidas[i].estado == Procesando
  }

  lemma EnCursoUnMas(ops: seq<Op>, k: nat, i: nat)
    requires k < |ops| && EnCurso(ops, k, i) && !Entrega(ops[k], i)
    ensures EnCurso(ops, k + 1, i)
  {
    UnPasoMas(ops, k + 1);
    EnCursoQueda(Correr(ops[..k]), i, ops[k]);
  }

  lemma EnCursoAlTomar(ops: seq<Op>, j: nat, i: nat)
    requires j < |ops| && Toma(Correr(ops[..j]), ops[j], i)
    ensures EnCurso(ops, j + 1, i)
  {
    UnPasoMas(ops, j + 1);
    RecienTomada(Correr(ops[..j]), ops[j], i);
  }

  /** A claimed event is in progress until delivered. */
  lemma {:induction false} EnCursoHasta(ops: seq<Op>, j: nat, k: nat, i: nat)
    requires j <= k <= |ops| && EnCurso(ops, j, i) && forall m | j <= m < k :: !Entrega(ops[m], i)
    ensures EnCurso(ops, k, i)
    decreases k - j
  {
    if j < k {
      EnCursoUnMas(ops, j, i);
      EnCursoHasta(ops, j + 1, k, i);
    }
  }

  lemma RecienTomada(b: Base, op: Op, i: nat)
    requires Toma(b, op, i)
    ensures i < |Paso(b, op).salidas| && Paso(b, op).salidas[i].estado == Procesando
  {
  }

  /** Event `i` is taken up again at or after operation `n`. */
  ghost predicate Retomada(ops: seq<Op>, n: nat, i: nat) {
    exists m | n <= m < |ops| :: Toma(Correr(ops[..m]), ops[m], i)
  }

  /** Event `i` is there after the first `n` operations, and no claim takes it. */
  ghost predicate AtascadaTras(ops: seq<Op>, n: nat, i: nat)
    requires n <= |ops|
  {
    i < |Correr(ops[..n]).salidas| && Atascada(Correr(ops[..n]).salidas[i])
  }

  /** Nothing claims or delivers event `i` from operation `desde` until `hasta`. */
  ghost predicate Olvidada(ops: seq<Op>, desde: nat, hasta: nat, i: nat)
    requires hasta <= |ops|
  {
    forall m | desde <= m < hasta :: !Entrega(ops[m], i) && !Toma(Correr(ops[..m]), ops[m], i)
  }

  /** After a delivery of event `i` there is no other without a claim in between. */
  lemma SinTomaNoEntrega(ops: seq<Op>, k: nat, i: nat, m: nat)
    requires EntregaLoReclamado(ops) && k < m < |ops| && Entrega(ops[k], i) && Olvidada(ops, k + 1, m, i)
    ensures !Entrega(ops[m], i)
  {
    if Entrega(ops[m], i) {
      forall j | 0 <= j < m ensures !DelReclamo(ops, j, m) {
        NoEsDelReclamo(ops, k, i, m, j);
      }
    }
  }

  lemma NoEsDelReclamo(ops: seq<Op>, k: nat, i: nat, m: nat, j: nat)
    requires j < m && k < m < |ops| && Entrega(ops[k], i) && Entrega(ops[m], i) && Olvidada(ops, k + 1, m, i)
    ensures !DelReclamo(ops, j, m)
  {
    if j > k {
      assert !Toma(Correr(ops[..j]), ops[j], i);
    } else if j == k {
      assert !ops[j].Reclamar?;
    }
  }

  lemma AtascadaUnMas(ops: seq<Op>, n: nat, i: nat)
    requires n < |ops| && AtascadaTras(ops, n, i) && !Entrega(ops[n], i)
    ensures AtascadaTras(ops, n + 1, i) && !Toma(Correr(ops[..n]), ops[n], i)
  {
    AtascadaQueda(Correr(ops[..n]), i, ops[n]);
    UnPasoMas(ops, n + 1);
  }

  lemma OlvidadaUnaMas(ops: seq<Op>, desde: nat, n: nat, i: nat)
    requires desde <= n < |ops| && Olvidada(ops, desde, n, i)
    requires !Entrega(ops[n], i) && !Toma(Correr(ops[..n]), ops[n], i)
    ensures Olvidada(ops, desde, n + 1, i)
  {
  }

  /** Every delivery of event `i` is of a claim of its own. */
  ghost predicate ConReclamo(ops: seq<Op>, i: nat) {
    forall m | 0 <= m < |ops| && Entrega(ops[m], i) :: !SinReclamo(ops, m, i)
  }

  /** Some delivery of event `i` comes before `m`, and no claim between. */
  ghost predicate SinReclamo(ops: seq<Op>, m: nat, i: nat)
    requires m <= |ops|
  {
    exists k | 0 <= k < m :: Entrega(ops[k], i) && Olvidada(ops, k + 1, m, i)
  }

  lemma LoReclamado(ops: seq<Op>, i: nat)
    requires EntregaLoReclamado(ops)
    ensures ConReclamo(ops, i)
  {
    forall m | 0 <= m < |ops| && Entrega(ops[m], i) ensures !SinReclamo(ops, m, i) {
      forall k | 0 <= k < m && Entrega(ops[k], i) ensures !Olvidada(ops, k + 1, m, i) {
        if Olvidada(ops, k + 1, m, i) { SinTomaNoEntrega(ops, k, i, m); }
      }
    }
  }

  lemma AtascadaSigue(ops: seq<Op>, k: nat, i: nat, n: nat)
    requires ConReclamo(ops, i) && k < n < |ops| && Entrega(ops[k], i)
    requires AtascadaTras(ops, n, i) && Olvidada(ops, k + 1, n, i)
    ensures AtascadaTras(ops, n + 1, i) && Olvidada(ops, k + 1, n + 1, i)
  {
    assert SinReclamo(ops, n, i);
    AtascadaUnMas(ops, n, i);
    OlvidadaUnaMas(ops, k + 1, n, i);
  }

  /** From a failed delivery on, an event no claim takes is neither claimed nor delivered again. */
  lemma {:induction false} AtascadaHasta(ops: seq<Op>, k: nat, i: nat, m: nat, n: nat)
    requires ConReclamo(ops, i) && k < m <= n <= |ops| && Entrega(ops[k], i)
    requires AtascadaTras(ops, m, i) && Olvidada(ops, k + 1, m, i)
    ensures AtascadaTras(ops, n, i) && Olvidada(ops, k + 1, n, i)
    decreases n - m
  {
    if m < n {
      AtascadaSigue(ops, k, i, m);
      AtascadaHasta(ops, k, i, m + 1, n);
    }
  }

  lemma UnPasoMas(ops: seq<Op>, n: nat)
    requires 0 < n <= |ops|
    ensures Correr(ops[..n]) == Paso(Correr(ops[..n - 1]), ops[n - 1])
  {
    assert ops[..n][..n - 1] == ops[..n - 1];
  }

  /** What a failed delivery leaves: in progress if the database failed, else failed, with its attempts. */
  lemma FalloDeja(b: Base, i: nat, e: Entorno)
    requires i < |b.salidas| && b.salidas[i].estado == Procesando && ProcesarPaso(b, i, e).1.Err?
    ensures var b' := ProcesarPaso(b, i, e).0;
      i < |b'.salidas| && (Atascada(b'.salidas[i]) <==> e.falla.Some? || b.salidas[i].intentos >= 3)
  {
  }

  lemma TrasFallo(ops: seq<Op>, k: nat)
    requires EntregaLoReclamado(ops) && k < |ops| && ops[k].Procesar?
    requires ProcesarPaso(Correr(ops[..k]), ops[k].i, ops[k].e).1.Err?
    ensures var i := ops[k].i; var b := Correr(ops[..k]);
      && i < |b.salidas| && b.salidas[i].estado == Procesando
      && Correr(ops[..k + 1]) == ProcesarPaso(b, i, ops[k].e).0
      && (AtascadaTras(ops, k + 1, i) <==> ops[k].e.falla.Some? || b.salidas[i].intentos >= 3)
  {
    var j :| 0 <= j < k && DelReclamo(ops, j, k);
    EnCursoAlTomar(ops, j, ops[k].i);
    EnCursoHasta(ops, j + 1, k, ops[k].i);
    FalloDeja(Correr(ops[..k]), ops[k].i, ops[k].e);
    EntregaUnMas(ops, k);
  }

  lemma EntregaUnMas(ops: seq<Op>, k: nat)
    requires k < |ops| && ops[k].Procesar?
    ensures Correr(ops[..k + 1]) == ProcesarPaso(Correr(ops[..k]), ops[k].i, ops[k].e).0
  {
    UnPasoMas(ops, k + 1);
  }

  lemma {:induction false} AgregarReclamo(ops: seq<Op>, i: nat)
    requires EntregaLoReclamado(ops)
    ensures EntregaLoReclamado(ops + [Op.Reclamar(i)])
  {
    var mas := ops + [Op.Reclamar(i)];
    forall k | 0 <= k < |mas| && mas[k].Procesar? ensures exists j | 0 <= j < k :: DelReclamo(mas, j, k) {
      var j :| 0 <= j < k && DelReclamo(ops, j, k);
      assert mas[..j] == ops[..j];
      assert DelReclamo(mas, j, k);
    }
  }

  /** In every run of a worker that delivers what it claims, once a delivery of event `i` fails some
      continuation takes it up again if and only if the database did not fail and fewer than three attempts
      were made. Otherwise the event is lost: no continuation claims it or delivers it. */
  lemma ReclamoPerdido(ops: seq<Op>)
    requires ops != [] && EntregaLoReclamado(ops) && ops[|ops| - 1].Procesar?
    requires (var n := |ops| - 1; ProcesarPaso(Correr(ops[..n]), ops[n].i, ops[n].e).1.Err?)
    ensures var n := |ops| - 1; var i := ops[n].i;
      && i < |Correr(ops[..n]).salidas|
      && var recuperable := ops[n].e.falla.None? && Correr(ops[..n]).salidas[i].intentos < 3;
         && ((exists mas :: ops <= mas && EntregaLoReclamado(mas) && Retomada(mas, |ops|, i)) <==> recuperable)
         && (!recuperable ==> forall mas | ops <= mas && EntregaLoReclamado(mas) :: Olvidada(mas, |ops|, |mas|, i))
  {
    var n := |ops| - 1;
    var i, e := ops[n].i, ops[n].e;
    assert ops[..n + 1] == ops;
    TrasFallo(ops, n);
    if e.falla.None? && Correr(ops[..n]).salidas[i].intentos < 3 {
      ContinuacionQueToma(ops, i);
    } else {
      forall mas | ops <= mas && EntregaLoReclamado(mas) ensures Olvidada(mas, |ops|, |mas|, i) && !Retomada(mas, |ops|, i) {
        LoReclamado(mas, i);
        SinRetomar(ops, mas, i);
      }
    }
  }

  lemma ContinuacionQueToma(ops: seq<Op>, i: nat)
    requires EntregaLoReclamado(ops) && ReclamarPaso(Correr(ops), i) != Correr(ops)
    ensures exists mas :: ops <= mas && EntregaLoReclamado(mas) && Retomada(mas, |ops|, i)
  {
    var mas := ops + [Op.Reclamar(i)];
    AgregarReclamo(ops, i);
    assert mas[..|ops|] == ops;
    assert Toma(Correr(mas[..|ops|]), mas[|ops|], i);
    assert ops <= mas && Retomada(mas, |ops|, i);
  }

  lemma SinRetomar(ops: seq<Op>, mas: seq<Op>, i: nat)
    requires ops != [] && ops <= mas && ConReclamo(mas, i) && Entrega(ops[|ops| - 1], i)
    requires AtascadaTras(ops, |ops|, i)
    ensures Olvidada(mas, |ops|, |mas|, i) && !Retomada(mas, |ops|, i)
  {
    assert mas[..|ops|] == ops == ops[..|ops|];
    AtascadaHasta(mas, |ops| - 1, i, |ops|, |mas|);
  }

  const AVISO := Op.Crear(0, "a", "b", "todos", 1)
  const PUBLICACION := Op.Publicar(0, "k")
  const NUEVA := Salida(CargaComunicado(0, 0, "a", "b", 1), Pendiente, 0)

  lemma PublicacionLlega()
    ensures var b := Correr([AVISO, PUBLICACION]); b.salidas == [NUEVA] && b.notificaciones == []
  {
    RecortarAjusta("a");
    RecortarAjusta("b");
    RecortarAjusta("k");
    assert [AVISO, PUBLICACION][..1] == [AVISO] && [AVISO][..0] == [];
    var b := CrearPaso(BaseVacia, 0, "a", "b", "todos", 1).0;
    assert Correr([AVISO]) == b;
    assert Correr([AVISO, PUBLICACION]) == PublicarPaso(b, 0, "k").0;
  }

  lemma ReclamoLlega()
    ensures var b := Correr([AVISO, PUBLICACION, Op.Reclamar(0)]);
      b.salidas == [NUEVA.(estado := Procesando, intentos := 1)] && b.notificaciones == []
    ensures Toma(Correr([AVISO, PUBLICACION]), Op.Reclamar(0), 0)
  {
    PublicacionLlega();
    assert [AVISO, PUBLICACION, Op.Reclamar(0)][..2] == [AVISO, PUBLICACION];
  }

  /** The loss is reached: a notice is published and claimed, and the database cuts its delivery short. */
  lemma PerdidaAlcanzable(e: Entorno)
    requires e.falla.Some?
    ensures var ops := [AVISO, PUBLICACION, Op.Reclamar(0), Op.Procesar(0, e)];
      && EntregaLoReclamado(ops)
      && ProcesarPaso(Correr(ops[..3]), 0, e).1 == Err(FallaDeBase)
      && Correr(ops).salidas == [NUEVA.(estado := Procesando, intentos := 1)] && Correr(ops).notificaciones == []
  {
    var ops := [AVISO, PUBLICACION, Op.Reclamar(0), Op.Procesar(0, e)];
    ReclamoLlega();
    assert ops[..2] == [AVISO, PUBLICACION];
    assert ops[..3] == [AVISO, PUBLICACION, Op.Reclamar(0)];
    EntregaUnMas(ops, 3);
    assert ops[..4] == ops;
    assert DelReclamo(ops, 2, 3);
  }
}
