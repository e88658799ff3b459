/** What a calculation needs of the bills and units it reads, and the row each unit gets: its own id beside its own share
    (CalcularLiquidacion in internal/expensas/transiciones.go). */
module CalculoEfectos {
  import opened Comun
  import opened Distribucion
  import opened DistribucionOrden
  import opened Agrupacion
  import opened Liquidaciones
  import opened LiquidacionesInvariante
  import opened LiquidacionesEfectos

  // ---------- The bills that take part ----------

  lemma {:induction false} RegistradosConcat(a: seq<Gasto>, b: seq<Gasto>)
    ensures Registrados(a + b) == Registrados(a) + Registrados(b)
  {
    if b == [] {
      assert a + b == a;
    } else {
      assert (a + b)[..|a + b| - 1] == a + b[..|b| - 1];
      RegistradosConcat(a, b[..|b| - 1]);
    }
  }

  /** The registered bills, every one and in their order: a bill alone is kept exactly when it is registered, and
      lists are kept piece by piece. */
  lemma RegistradosSon(a: seq<Gasto>, g: Gasto, b: seq<Gasto>)
    ensures Registrados(a + [g] + b) == Registrados(a) + (if g.estado == "registrado" then [g] else []) + Registrados(b)
    ensures Registrados([]) == []
  {
    RegistradosConcat(a + [g], b);
    RegistradosConcat(a, [g]);
    assert [g][..0] == [];
    assert Registrados([g]) == if g.estado == "registrado" then [g] else [];
  }

  lemma {:induction false} RegistradoEsta(gs: seq<Gasto>, g: Gasto)
    ensures g in Registrados(gs) <==> exists i :: 0 <= i < |gs| && gs[i] == g && g.estado == "registrado"
  {
    if gs != [] {
      var n := |gs| - 1;
      RegistradoEsta(gs[..n], g);
      assert forall i | 0 <= i < n :: gs[..n][i] == gs[i];
      assert g in Registrados(gs) <==> g in Registrados(gs[..n]) || (gs[n] == g && g.estado == "registrado");
    }
  }

  /** Registered bills have positive amounts and an id each. */
  ghost predicate GastosSanos(gs: seq<Gasto>) {
    && (forall i | 0 <= i < |gs| && gs[i].estado == "registrado" :: gs[i].importe > 0)
    && (forall i, j | 0 <= i < j < |gs| && gs[i].estado == "registrado" && gs[j].estado == "registrado" :: gs[i].id != gs[j].id)
  }

  lemma GastosUnoMas(s: seq<Gasto>, g: Gasto)
    ensures GastosAdmitidos(s + [g]) <==> GastosAdmitidos(s) && AdmiteGasto(s, g)
  {
    var t := s + [g];
    assert t[..|s|] == s;
    assert forall k | 0 <= k < |s| :: t[..k] == s[..k] && t[k] == s[k];
    if GastosAdmitidos(t) {
      assert AdmiteGasto(t[..|s|], t[|s|]);
      forall k | 0 <= k < |s| ensures AdmiteGasto(s[..k], s[k]) {
        assert AdmiteGasto(t[..k], t[k]);
      }
    }
  }

  lemma SanosUnoMas(gs: seq<Gasto>)
    requires gs != []
    ensures var pre, g := gs[..|gs| - 1], gs[|gs| - 1];
      GastosSanos(gs) <==>
        (GastosSanos(pre)
         && (g.estado == "registrado" ==> g.importe > 0 && forall i | 0 <= i < |pre| && pre[i].estado == "registrado" :: pre[i].id != g.id))
  {
    var pre, n := gs[..|gs| - 1], |gs| - 1;
    assert forall i | 0 <= i < n :: pre[i] == gs[i];
    if GastosSanos(gs) {
      forall i, j | 0 <= i < j < |pre| && pre[i].estado == "registrado" && pre[j].estado == "registrado" ensures pre[i].id != pre[j].id {
        assert gs[i].id != gs[j].id;
      }
      forall i | 0 <= i < |pre| && pre[i].estado == "registrado" ensures pre[i].importe > 0 {
        assert gs[i].importe > 0;
      }
    }
  }

  lemma {:induction false} GastosAdmitidosSi(gs: seq<Gasto>)
    ensures GastosAdmitidos(Registrados(gs)) <==> GastosSanos(gs)
  {
    if gs != [] {
      var n := |gs| - 1;
      var pre, g := gs[..n], gs[n];
      GastosAdmitidosSi(pre);
      SanosUnoMas(gs);
      if g.estado == "registrado" {
        GastosUnoMas(Registrados(pre), g);
        IdsPrevios(pre, g);
        assert Registrados(gs) == Registrados(pre) + [g];
      } else {
        assert Registrados(gs) == Registrados(pre);
      }
    }
  }

  lemma IdsPrevios(pre: seq<Gasto>, g: Gasto)
    ensures AdmiteGasto(Registrados(pre), g)
      <==> g.importe > 0 && forall i | 0 <= i < |pre| && pre[i].estado == "registrado" :: pre[i].id != g.id
  {
    var s := Registrados(pre);
    forall i | 0 <= i < |pre| && pre[i].estado == "registrado" ensures exists k :: 0 <= k < |s| && s[k] == pre[i] {
      RegistradoEsta(pre, pre[i]);
      assert pre[i] in s;
    }
    forall k | 0 <= k < |s| ensures exists i :: 0 <= i < |pre| && pre[i] == s[k] && s[k].estado == "registrado" {
      RegistradoEsta(pre, s[k]);
    }
  }

  // ---------- Calculate ----------

  ghost predicate IdsDistintos(ufs: seq<UF>) {
    forall i, j | 0 <= i < j < |ufs| :: ufs[i].id != ufs[j].id
  }

  ghost predicate UnidadesSanas(ufs: seq<UF>) {
    IdsDistintos(ufs) && forall i | 0 <= i < |ufs| :: ufs[i].coef >= 0.0
  }

  /** With distinct codes, soundness does not depend on the order. */
  lemma SanasPermutadas(a: seq<UF>, b: seq<UF>)
    requires multiset(a) == multiset(b) && CodigosDistintos(b) && UnidadesSanas(a)
    ensures UnidadesSanas(b)
  {
    forall i | 0 <= i < |b| ensures b[i] in a && b[i].coef >= 0.0 {
      assert b[i] in multiset(a);
    }
    forall i, j | 0 <= i < j < |b| ensures b[i].id != b[j].id {
      assert b[i].codigo != b[j].codigo;
      var x :| 0 <= x < |a| && a[x] == b[i];
      var y :| 0 <= y < |a| && a[y] == b[j];
    }
  }

  lemma OrdenDistinto(orden: seq<UF>, ufs: seq<UF>)
    requires multiset(orden) == multiset(ufs) && CodigosDistintos(ufs)
    ensures CodigosDistintos(orden)
  {
    DistintosSonUnicos(ufs);
    forall i, j | 0 <= i < j < |orden| ensures orden[i].codigo != orden[j].codigo {
      if orden[i].codigo == orden[j].codigo {
        assert orden[i] in multiset(ufs) && orden[j] in multiset(ufs);
        DosVeces(orden, i, j);
      }
    }
  }

  lemma DosVeces(s: seq<UF>, i: nat, j: nat)
    requires i < j < |s| && s[i] == s[j]
    ensures multiset(s)[s[i]] >= 2
  {
    assert s == s[..j] + ([s[j]] + s[j + 1..]);
    assert s[..j][i] == s[i];
    assert multiset(s) == multiset(s[..j]) + multiset([s[j]] + s[j + 1..]);
  }

  /** What the unit at place `p` of the code order owes of these bills. */
  function Debe(gastos: seq<Gasto>, orden: seq<UF>, red: Redondeo, p: nat): int
    requires p < |orden|
  {
    var cs := Agrupados(Registrados(gastos));
    Suma(seq(|cs|, k requires 0 <= k < |cs| => Parte(orden, red, cs[k].importe, p)))
  }

  /** The row a calculation owes unit `p` of the ordering by code: its own id, code and coefficient, and the sum of its
      shares of the grouped concepts. */
  ghost predicate FilaDeUnidad(r: UnidadSnap, orden: seq<UF>, p: nat, gastos: seq<Gasto>, red: Redondeo)
    requires p < |orden|
  {
    r.unidad == orden[p].id && r.codigo == orden[p].codigo && r.coef == orden[p].coef
    && r.total == Debe(gastos, orden, red, p)
  }

  /** The snapshot of a distribution, position by position of the ordering. */
  lemma FilasEnOrden(orden: seq<UF>, gastos: seq<Gasto>, red: Redondeo)
    ensures var us := SnapDe(Reparto(Agrupados(Registrados(gastos)), orden, red).unidades);
      |us| == |orden| && forall p | 0 <= p < |orden| :: FilaDeUnidad(us[p], orden, p, gastos, red)
  {
    var cs := Agrupados(Registrados(gastos));
    forall p | 0 <= p < |orden| ensures FilaDeUnidad(SnapDe(Reparto(cs, orden, red).unidades)[p], orden, p, gastos, red) {
      assert PartesDe(orden, red, cs, p) == seq(|cs|, k requires 0 <= k < |cs| => Parte(orden, red, cs[k].importe, p));
    }
  }

  lemma TotalesNoNegativos(orden: seq<UF>, cs: seq<Concepto>, red: Redondeo, p: nat)
    requires p < |orden| && forall k | 0 <= k < |cs| :: cs[k].importe >= 0
    ensures SnapDe(Reparto(cs, orden, red).unidades)[p].total >= 0
  {
    forall k | 0 <= k < |cs| ensures PartesDe(orden, red, cs, p)[k] >= 0 {
      PartesNoNegativas(orden, red, cs[k].importe, p);
    }
    SumaNoNegativa(PartesDe(orden, red, cs, p));
  }

  lemma UnidadesAdmitidasSi(orden: seq<UF>, cs: seq<Concepto>, red: Redondeo)
    requires forall k | 0 <= k < |cs| :: cs[k].importe >= 0
    ensures UnidadesAdmitidas(SnapDe(Reparto(cs, orden, red).unidades)) <==> UnidadesSanas(orden)
  {
    var us := SnapDe(Reparto(cs, orden, red).unidades);
    forall p | 0 <= p < |us| ensures us[p].total >= 0 && us[p].unidad == orden[p].id && us[p].coef == orden[p].coef {
      TotalesNoNegativos(orden, cs, red, p);
    }
    AdmitidasPorIds(us);
  }

  lemma AdmitidasPorIds(us: seq<UnidadSnap>)
    requires forall p | 0 <= p < |us| :: us[p].total >= 0
    ensures UnidadesAdmitidas(us)
      <==> (forall p | 0 <= p < |us| :: us[p].coef >= 0.0) && forall i, j | 0 <= i < j < |us| :: us[i].unidad != us[j].unidad
  {
    if UnidadesAdmitidas(us) {
      forall p | 0 <= p < |us| ensures us[p].coef >= 0.0 {
        assert AdmiteUnidad(us[..p], us[p]);
      }
      forall i, j | 0 <= i < j < |us| ensures us[i].unidad != us[j].unidad {
        assert AdmiteUnidad(us[..j], us[j]) && us[..j][i] == us[i];
      }
    }
  }

  lemma {:induction false} ImporteNoNegativo(gs: seq<Gasto>, c: string)
    requires forall i | 0 <= i < |gs| :: gs[i].importe > 0
    ensures ImporteDe(gs, c) >= 0
  {
    if gs != [] {
      ImporteNoNegativo(gs[..|gs| - 1], c);
    }
  }

  lemma ItemsSiempreAdmitidos(gs: seq<Gasto>)
    requires GastosSanos(gs)
    ensures var cs := Agrupados(Registrados(gs));
      ItemsAdmitidos(cs) && forall k | 0 <= k < |cs| :: cs[k].importe >= 0
  {
    var reg := Registrados(gs);
    var cs := Agrupados(reg);
    forall i | 0 <= i < |reg| ensures reg[i].importe > 0 {
      RegistradoEsta(gs, reg[i]);
    }
    ConceptosSinRepetir(reg);
    forall k | 0 <= k < |cs| ensures cs[k].importe >= 0 && AdmiteItem(cs[..k], cs[k]) {
      ImporteNoNegativo(reg, cs[k].id);
      assert forall i | 0 <= i < k :: cs[..k][i].id == ConceptosEn(reg)[i];
    }
  }

  /** What a calculation asks of what it reads: registered bills, sound, and sound units with some coefficient. */
  ghost predicate Calculable(gastos: seq<Gasto>, ufs: seq<UF>) {
    && (exists i | 0 <= i < |gastos| :: gastos[i].estado == "registrado")
    && ufs != [] && SumaCoef(ufs) > 0.0
    && GastosSanos(gastos) && UnidadesSanas(ufs)
  }

  lemma HayRegistrados(gs: seq<Gasto>)
    ensures Registrados(gs) != [] <==> exists i | 0 <= i < |gs| :: gs[i].estado == "registrado"
  {
    var s := Registrados(gs);
    if s != [] {
      RegistradoEsta(gs, s[0]);
    }
    if i :| 0 <= i < |gs| && gs[i].estado == "registrado" {
      RegistradoEsta(gs, gs[i]);
    }
  }

  /** The rows the constraints let through are those of sound bills and units. */
  lemma AdmitidoSi(gastos: seq<Gasto>, ufs: seq<UF>, red: Redondeo)
    requires CodigosDistintos(ufs)
    ensures var d := Reparto(Agrupados(Registrados(gastos)), Ordenar(ufs), red);
      GastosAdmitidos(Registrados(gastos)) && ItemsAdmitidos(d.items) && UnidadesAdmitidas(SnapDe(d.unidades))
      <==> GastosSanos(gastos) && UnidadesSanas(ufs)
  {
    GastosAdmitidosSi(gastos);
    if GastosSanos(gastos) {
      ItemsSiempreAdmitidos(gastos);
      OrdenarCorrecto(ufs);
      UnidadesAdmitidasSi(Ordenar(ufs), Agrupados(Registrados(gastos)), red);
      OrdenDistinto(Ordenar(ufs), ufs);
      if UnidadesSanas(ufs) { SanasPermutadas(ufs, Ordenar(ufs)); }
      if UnidadesSanas(Ordenar(ufs)) { SanasPermutadas(Ordenar(ufs), ufs); }
    }
  }

  /** A calculation under an unused key succeeds if and only if the settlement is a draft or calculated one of the
      building at the version told, and what it reads is calculable; otherwise it changes nothing. */
  lemma CalcularFunciona(b: Base, consorcio: nat, id: nat, version: int, key: string, gastos: seq<Gasto>, ufs: seq<UF>, red: Redondeo)
    requires CodigosDistintos(ufs) && LlaveLibre(b, AmbitoCalcular, key)
    ensures var (b', r) := CalcularPaso(b, consorcio, id, version, key, gastos, ufs, red);
      && (r.Ok? <==> id < |b.liqs| && b.liqs[id].consorcio == consorcio && b.liqs[id].estado in {Borrador, Calculada}
                     && b.liqs[id].version == version && Calculable(gastos, ufs))
      && (r.Err? ==> b' == b)
  {
    AdmitidoSi(gastos, ufs, red);
    HayRegistrados(gastos);
  }

  /** A calculation leaves every other settlement and its snapshots as they were. */
  ghost predicate OtrasIntactas(b: Base, b': Base, id: nat) {
    |b'.liqs| == |b.liqs| && forall x | 0 <= x < |b.liqs| && x != id ::
      b'.liqs[x] == b.liqs[x] && Filas(b'.snapUnidades, x) == Filas(b.snapUnidades, x)
      && Filas(b'.snapGastos, x) == Filas(b.snapGastos, x) && Filas(b'.snapItems, x) == Filas(b.snapItems, x)
  }

  lemma CalcularCampos(b: Base, consorcio: nat, id: nat, version: int, key: string, gastos: seq<Gasto>, ufs: seq<UF>, red: Redondeo)
    requires LlaveLibre(b, AmbitoCalcular, key)
    requires CalcularPaso(b, consorcio, id, version, key, gastos, ufs, red).1.Ok?
    ensures var (b', r) := CalcularPaso(b, consorcio, id, version, key, gastos, ufs, red);
      var d := Reparto(Agrupados(Registrados(gastos)), Ordenar(ufs), red);
      && id < |b.liqs| && SumaCoef(ufs) > 0.0 && ufs != []
      && b'.liqs == b.liqs[id := b.liqs[id].(estado := Calculada, version := b.liqs[id].version + 1, totalGastos := d.totalGastos,
                                             totalDistribuido := d.totalDistribuido, alcanzadas := d.alcanzadas)]
      && r == Ok(Dto(id, b'.liqs[id]))
      && b'.snapGastos == b.snapGastos[id := Registrados(gastos)] && b'.snapItems == b.snapItems[id := d.items]
      && b'.snapUnidades == b.snapUnidades[id := SnapDe(d.unidades)]
      && b'.cargos == b.cargos && b'.asientos == b.asientos && b'.eventos == b.eventos
  {
  }

  lemma IntactasSi(b: Base, b': Base, id: nat)
    requires id < |b.liqs| && |b'.liqs| == |b.liqs| && b'.liqs == b.liqs[id := b'.liqs[id]]
    requires id in b'.snapGastos && id in b'.snapItems && id in b'.snapUnidades
    requires b'.snapGastos == b.snapGastos[id := b'.snapGastos[id]] && b'.snapItems == b.snapItems[id := b'.snapItems[id]]
    requires b'.snapUnidades == b.snapUnidades[id := b'.snapUnidades[id]]
    ensures OtrasIntactas(b, b', id)
  {
  }

  /** The row a calculation leaves, over the registered bills `reg` and the snapshot of the units. */
  function Calculado(l: Liq, reg: seq<Gasto>, us: seq<UnidadSnap>): Liq {
    l.(estado := Calculada, version := l.version + 1, totalGastos := Suma(ImportesGastos(reg)),
       totalDistribuido := Suma(ImportesGastos(reg)), alcanzadas := |ConDeuda(us)|)
  }

  /** What a successful calculation writes: the registered bills, their concepts, the totals and the number of units that owe
      something; charges, ledger and events stay as they were. */
  lemma CalcularEscribe(b: Base, consorcio: nat, id: nat, version: int, key: string, gastos: seq<Gasto>, ufs: seq<UF>, red: Redondeo)
    requires LlaveLibre(b, AmbitoCalcular, key)
    requires CalcularPaso(b, consorcio, id, version, key, gastos, ufs, red).1.Ok?
    ensures var (b', r) := CalcularPaso(b, consorcio, id, version, key, gastos, ufs, red);
      && id < |b.liqs| && OtrasIntactas(b, b', id) && r == Ok(Dto(id, b'.liqs[id]))
      && b'.liqs[id] == Calculado(b.liqs[id], Registrados(gastos), Filas(b'.snapUnidades, id))
      && Filas(b'.snapGastos, id) == Registrados(gastos) && Filas(b'.snapItems, id) == Agrupados(Registrados(gastos))
      && b'.cargos == b.cargos && b'.asientos == b.asientos && b'.eventos == b.eventos
  {
    var d := Reparto(Agrupados(Registrados(gastos)), Ordenar(ufs), red);
    CalcularCampos(b, consorcio, id, version, key, gastos, ufs, red);
    TotalesCalculados(Registrados(gastos), ufs, red);
    IntactasSi(b, CalcularPaso(b, consorcio, id, version, key, gastos, ufs, red).0, id);
  }

  lemma TotalesCalculados(reg: seq<Gasto>, ufs: seq<UF>, red: Redondeo)
    requires SumaCoef(ufs) > 0.0
    ensures var d := Reparto(Agrupados(reg), Ordenar(ufs), red);
      && d.totalGastos == d.totalDistribuido == Suma(ImportesGastos(reg))
      && d.alcanzadas == |ConDeuda(SnapDe(d.unidades))| && d.items == Agrupados(reg)
  {
    SnapshotCuadra(reg, ufs, red);
    AlcanzadasSon(Reparto(Agrupados(reg), Ordenar(ufs), red).unidades);
  }

  function ConDeuda(us: seq<UnidadSnap>): set<int> {
    set p | 0 <= p < |us| && us[p].total > 0
  }

  lemma {:induction false} AlcanzadasSon(us: seq<Unidad>)
    ensures Alcanzadas(us) == |ConDeuda(SnapDe(us))|
  {
    if us == [] {
      assert ConDeuda(SnapDe(us)) == {};
    } else {
      var n := |us| - 1;
      AlcanzadasSon(us[..n]);
      var antes, ahora := ConDeuda(SnapDe(us[..n])), ConDeuda(SnapDe(us));
      assert ahora == if us[n].total > 0 then antes + {n} else antes;
    }
  }

  /** Each unit has one row in the snapshot, its own: its id beside its own code, coefficient and total, whichever way
      the units are listed and wherever code order puts it. */
  lemma UnaFilaPropia(b: Base, consorcio: nat, id: nat, version: int, key: string, gastos: seq<Gasto>, ufs: seq<UF>, red: Redondeo,
                      orden: seq<UF>, p: nat)
    requires CodigosDistintos(ufs) && LlaveLibre(b, AmbitoCalcular, key) && EsOrdenDe(orden, ufs) && p < |orden|
    requires CalcularPaso(b, consorcio, id, version, key, gastos, ufs, red).1.Ok?
    ensures var us := Filas(CalcularPaso(b, consorcio, id, version, key, gastos, ufs, red).0.snapUnidades, id);
      && |us| == |ufs|
      && exists j | 0 <= j < |us| ::
           FilaDeUnidad(us[j], orden, p, gastos, red) && forall i | 0 <= i < |us| && us[i].unidad == orden[p].id :: i == j
  {
    CalcularFunciona(b, consorcio, id, version, key, gastos, ufs, red);
    UnSoloOrden(orden, ufs);
    SanasPermutadas(ufs, orden);
    FilasEnOrden(orden, gastos, red);
    var us := Filas(CalcularPaso(b, consorcio, id, version, key, gastos, ufs, red).0.snapUnidades, id);
    SnapshotDelOrden(b, consorcio, id, version, key, gastos, ufs, red);
    assert FilaDeUnidad(us[p], orden, p, gastos, red);
    forall i | 0 <= i < |us| && us[i].unidad == orden[p].id ensures i == p {
      assert FilaDeUnidad(us[i], orden, i, gastos, red);
    }
  }

  lemma UnSoloOrden(orden: seq<UF>, ufs: seq<UF>)
    requires CodigosDistintos(ufs) && EsOrdenDe(orden, ufs)
    ensures orden == Ordenar(ufs) && CodigosDistintos(orden) && |orden| == |ufs|
  {
    OrdenarCorrecto(ufs);
    DistintosSonUnicos(ufs);
    OrdenUnico(orden, Ordenar(ufs));
    OrdenDistinto(orden, ufs);
    MismoLargo(orden, ufs);
  }

  lemma SnapshotDelOrden(b: Base, consorcio: nat, id: nat, version: int, key: string, gastos: seq<Gasto>, ufs: seq<UF>, red: Redondeo)
    requires LlaveLibre(b, AmbitoCalcular, key) && CalcularPaso(b, consorcio, id, version, key, gastos, ufs, red).1.Ok?
    ensures Filas(CalcularPaso(b, consorcio, id, version, key, gastos, ufs, red).0.snapUnidades, id)
         == SnapDe(Reparto(Agrupados(Registrados(gastos)), Ordenar(ufs), red).unidades)
  {
  }

  // ---------- Calculate and confirm ----------

  /** Charge `k` is the only one of the unit, for this amount. */
  ghost predicate UnicoCargo(nuevos: seq<Cargo>, k: nat, unidad: nat, total: int) {
    k < |nuevos| && nuevos[k].unidad == unidad && nuevos[k].total == total
    && forall m | 0 <= m < |nuevos| && nuevos[m].unidad == unidad :: m == k
  }

  /** The charges of one row's unit. */
  lemma CargoDeSuUnidad(nuevos: seq<Cargo>, us: seq<UnidadSnap>, id: nat, l: Liq, j: nat)
    requires CobroFiel(nuevos, us, id, l) && UnidadesUnicas(us) && j < |us|
    ensures us[j].total <= 0 ==> forall k | 0 <= k < |nuevos| :: nuevos[k].unidad != us[j].unidad
    ensures us[j].total > 0 ==> exists k | 0 <= k < |nuevos| :: UnicoCargo(nuevos, k, us[j].unidad, us[j].total)
  {
    forall k | 0 <= k < |nuevos| && us[j].total <= 0 ensures nuevos[k].unidad != us[j].unidad {
      assert DeAlguna(nuevos[k], us, id, l);
      var i :| DeFila(nuevos[k], us, id, l, i);
      assert i != j;
    }
    if us[j].total > 0 {
      assert CargoDeFila(us[j], id, l) in nuevos;
      var k :| 0 <= k < |nuevos| && nuevos[k] == CargoDeFila(us[j], id, l);
      assert UnicoCargo(nuevos, k, us[j].unidad, us[j].total);
    }
  }

  /** From the bills to the charge of one unit: calculated and then confirmed, the unit at place `p` of the code order has one new
      charge, for the sum of its shares, if that is positive, and none otherwise. */
  lemma CobroDeLaUnidad(ops: seq<Op>, op: Op, version: int, key: string, orden: seq<UF>, p: nat)
    requires op.Calcular? && CodigosDistintos(op.ufs) && EsOrdenDe(orden, op.ufs) && p < |orden|
    requires LlaveLibre(Correr(ops), AmbitoCalcular, op.key) && Paso(Correr(ops), op).1.Ok?
    requires ConfirmarPaso(Paso(Correr(ops), op).0, op.consorcio, op.id, version, key).1.Ok?
    ensures var b1 := Paso(Correr(ops), op).0; var b2 := ConfirmarPaso(b1, op.consorcio, op.id, version, key).0;
      && b1.cargos <= b2.cargos
      && var nuevos := b2.cargos[|b1.cargos|..]; var debe := Debe(op.gastos, orden, op.red, p);
         && (debe <= 0 ==> forall k | 0 <= k < |nuevos| :: nuevos[k].unidad != orden[p].id)
         && (debe > 0 ==> exists k | 0 <= k < |nuevos| :: UnicoCargo(nuevos, k, orden[p].id, debe))
  {
    var mas := ops + [op];
    assert mas[..|ops|] == ops;
    var b1 := Correr(mas);
    UnaFilaPropia(Correr(ops), op.consorcio, op.id, op.version, op.key, op.gastos, op.ufs, op.red, orden, p);
    ConfirmarEscribe(mas, op.consorcio, op.id, version, key);
    var us := Filas(b1.snapUnidades, op.id);
    var j :| 0 <= j < |us| && FilaDeUnidad(us[j], orden, p, op.gastos, op.red);
    var b2 := ConfirmarPaso(b1, op.consorcio, op.id, version, key).0;
    CargoDeSuUnidad(b2.cargos[|b1.cargos|..], us, op.id, b1.liqs[op.id], j);
  }
}
