/** A file from its preparation as a job to its confirmation (CreateImportJob and ConfirmImportJob in
    internal/consorcios/imports.go). */
module ImportacionArchivo {
  import opened Comun
  import opened Importacion
  import opened ImportacionMezcla
  import opened ImportacionTrabajos
  import opened ImportacionEfectos

  ghost predicate Preparado(t: Trabajo, modo: Modo, rs: seq<Registro>) {
    t.modo == modo && t.filas == FilasDe(rs) && (!t.procesado ==> t.errores == ErroresDe(rs, |rs|))
  }

  lemma PreparadoPorPaso(x: Importaciones, op: Op, id: nat, modo: Modo, rs: seq<Registro>)
    requires id < |x.trabajos| && Preparado(x.trabajos[id], modo, rs)
    ensures id < |Paso(x, op).trabajos| && Preparado(Paso(x, op).trabajos[id], modo, rs)
  {
  }

  lemma {:induction false} SiguePreparado(ops: seq<Op>, n: nat, id: nat, modo: Modo, rs: seq<Registro>)
    requires n <= |ops| && id < |Correr(ops[..n]).trabajos| && Preparado(Correr(ops[..n]).trabajos[id], modo, rs)
    ensures id < |Correr(ops).trabajos| && Preparado(Correr(ops).trabajos[id], modo, rs)
    decreases |ops|
  {
    if n == |ops| {
      assert ops[..n] == ops;
    } else {
      assert ops[..|ops| - 1][..n] == ops[..n];
      SiguePreparado(ops[..|ops| - 1], n, id, modo, rs);
      PreparadoPorPaso(Correr(ops[..|ops| - 1]), ops[|ops| - 1], id, modo, rs);
    }
  }

  /** Every accepted record has had its effect on the units and on their people, and nothing else has changed among the units. */
  ghost predicate Importado(b: Base, m: Base, modo: Modo, rs: seq<Registro>, hoy: int) {
    && (forall i | 0 <= i < |rs| && PasaLaRevision(rs, i) :: EnSuCodigo(modo, b.unidades, m.unidades, rs[i]))
    && (forall c | (forall i | 0 <= i < |rs| && PasaLaRevision(rs, i) :: rs[i].codigo != c) :: Intacta(b.unidades, m.unidades, c))
    && Vinculados(b, m, modo, rs, |rs|, hoy)
    && (forall c | c in m.unidades && c !in b.unidades :: m.unidades[c].id >= b.proxima)
  }

  lemma RegistrosImportados(b: Base, modo: Modo, rs: seq<Registro>, hoy: int)
    requires BaseOk(b) && Procesar(b, modo, FilasDe(rs), ErroresDe(rs, |rs|), hoy).Ok?
    ensures var m := Procesar(b, modo, FilasDe(rs), ErroresDe(rs, |rs|), hoy).value.base; Importado(b, m, modo, rs, hoy) && BaseOk(m)
  {
    RegistrosAplicados(b, modo, rs, hoy);
    FilasSonFilas(rs);
    assert FilasDe(rs)[..|rs|] == FilasDe(rs);
    VinculadosHasta(b, modo, rs, |rs|, ErroresDe(rs, |rs|), hoy);
    IdsNuevas(b, modo, FilasDe(rs), ErroresDe(rs, |rs|), hoy);
    ImportacionSi(b, modo, rs, hoy);
  }

  // ---------- The count of the answer ----------

  /** The accepted records among the first `n` that a mode turns into `d`. */
  ghost function Que(b: Base, modo: Modo, rs: seq<Registro>, n: nat, d: Destino): set<int>
    requires n <= |rs|
  {
    set i | 0 <= i < n && Le(b, modo, rs, i, d)
  }

  ghost predicate Le(b: Base, modo: Modo, rs: seq<Registro>, i: int, d: Destino) {
    0 <= i < |rs| && PasaLaRevision(rs, i) && EsDestino(b, modo, rs[i], d)
  }

  /** A code there is, is updated, or rejected when the mode only creates; a new one is created, or rejected when it only updates. */
  predicate EsDestino(b: Base, modo: Modo, r: Registro, d: Destino) {
    match d
    case Creada => r.codigo !in b.unidades && modo in {Modo.Crear, Modo.CrearYActualizar}
    case Actualizada => r.codigo in b.unidades && modo in {Modo.Actualizar, Modo.CrearYActualizar}
    case Rechazada => (r.codigo in b.unidades && modo == Modo.Crear) || (r.codigo !in b.unidades && modo == Modo.Actualizar)
  }

  lemma DestinoEs(b: Base, modo: Modo, rs: seq<Registro>, i: nat, d: Destino)
    requires i < |rs|
    ensures FilaDe(rs, i).valida <==> PasaLaRevision(rs, i)
    ensures DestinoDe(modo, b.unidades, FilaDe(rs, i)) == d <==> EsDestino(b, modo, rs[i], d)
  {
  }

  lemma QueUnoMas(b: Base, modo: Modo, rs: seq<Registro>, n: nat, d: Destino)
    requires n < |rs|
    ensures Que(b, modo, rs, n + 1, d) == Que(b, modo, rs, n, d) + if Le(b, modo, rs, n, d) then {n} else {}
    ensures n !in Que(b, modo, rs, n, d)
  {
  }

  lemma CuentaUnaMas(filas: seq<Fila>, f: Fila, modo: Modo, us: map<string, Unidad>, d: Destino)
    ensures Cuenta(filas + [f], modo, us, d) == Cuenta(filas, modo, us, d) + if f.valida && DestinoDe(modo, us, f) == d then 1 else 0
  {
    assert (filas + [f])[..|filas|] == filas;
  }

  lemma CuentaPorPaso(b: Base, modo: Modo, rs: seq<Registro>, n: nat, d: Destino)
    requires n < |rs|
    ensures Cuenta(FilasHasta(rs, n + 1), modo, b.unidades, d)
      == Cuenta(FilasHasta(rs, n), modo, b.unidades, d) + if Le(b, modo, rs, n, d) then 1 else 0
  {
    CuentaUnaMas(FilasHasta(rs, n), FilaDe(rs, n), modo, b.unidades, d);
    DestinoEs(b, modo, rs, n, d);
  }

  lemma UnoMas(q: set<int>, n: int)
    requires n !in q
    ensures |q + {n}| == |q| + 1
  {
  }

  lemma CuantosPorPaso(b: Base, modo: Modo, rs: seq<Registro>, n: nat, d: Destino)
    requires n < |rs|
    ensures |Que(b, modo, rs, n + 1, d)| == |Que(b, modo, rs, n, d)| + if Le(b, modo, rs, n, d) then 1 else 0
  {
    QueUnoMas(b, modo, rs, n, d);
    UnoMas(Que(b, modo, rs, n, d), n);
    assert Que(b, modo, rs, n, d) + {} == Que(b, modo, rs, n, d);
  }

  lemma NingunoAlPrincipio(b: Base, modo: Modo, rs: seq<Registro>, d: Destino)
    ensures Que(b, modo, rs, 0, d) == {} && Cuenta(FilasHasta(rs, 0), modo, b.unidades, d) == 0
  {
  }

  lemma {:induction false} CuentaEs(b: Base, modo: Modo, rs: seq<Registro>, n: nat, d: Destino)
    requires n <= |rs|
    ensures Cuenta(FilasHasta(rs, n), modo, b.unidades, d) == |Que(b, modo, rs, n, d)|
  {
    NingunoAlPrincipio(b, modo, rs, d);
    for k := 0 to n
      invariant Cuenta(FilasHasta(rs, k), modo, b.unidades, d) == |Que(b, modo, rs, k, d)|
    {
      CuentaPorPaso(b, modo, rs, k, d);
      CuantosPorPaso(b, modo, rs, k, d);
    }
  }

  /** From place `desde` on, the errors are each on the code of a record of `q`. */
  ghost predicate SoloDe(q: set<int>, desde: nat, errores: seq<ErrorFila>) {
    forall x | desde <= x < |errores| :: errores[x].campos == [EnCodigo] && errores[x].num - 2 in q
  }

  /** And every record of `q` has its own. */
  ghost predicate TodosDe(q: set<int>, desde: nat, errores: seq<ErrorFila>) {
    forall i | i in q :: Reportado(i, desde, errores)
  }

  ghost predicate Reportado(i: int, desde: nat, errores: seq<ErrorFila>) {
    exists x | desde <= x < |errores| :: errores[x].num == i + 2
  }

  /** The errors an import reports: those there were, then one, on the code, for each record of `q`. */
  ghost predicate ErroresFieles(q: set<int>, previos: seq<ErrorFila>, errores: seq<ErrorFila>) {
    && |previos| <= |errores| == |previos| + |q| && errores[..|previos|] == previos
    && SoloDe(q, |previos|, errores) && TodosDe(q, |previos|, errores)
  }

  lemma SoloDeMas(q: set<int>, desde: nat, n: nat, errores: seq<ErrorFila>)
    requires SoloDe(q, desde, errores)
    ensures SoloDe(q + {n}, desde, errores + [ErrorFila(n + 2, [EnCodigo])])
  {
  }

  lemma TodosDeMas(q: set<int>, desde: nat, n: nat, errores: seq<ErrorFila>)
    requires TodosDe(q, desde, errores) && desde <= |errores|
    ensures TodosDe(q + {n}, desde, errores + [ErrorFila(n + 2, [EnCodigo])])
  {
    var mas := errores + [ErrorFila(n + 2, [EnCodigo])];
    forall i | i in q + {n} ensures Reportado(i, desde, mas) {
      if i == n {
        assert mas[|errores|].num == n + 2;
      } else {
        assert Reportado(i, desde, errores);
        var x :| desde <= x < |errores| && errores[x].num == i + 2;
        assert mas[x].num == i + 2;
      }
    }
  }

  lemma ErroresUnoMas(q: set<int>, n: nat, previos: seq<ErrorFila>, errores: seq<ErrorFila>)
    requires ErroresFieles(q, previos, errores) && n !in q
    ensures ErroresFieles(q + {n}, previos, errores + [ErrorFila(n + 2, [EnCodigo])])
  {
    SoloDeMas(q, |previos|, n, errores);
    TodosDeMas(q, |previos|, n, errores);
    UnoMas(q, n);
  }

  /** A row adds its error exactly when it is accepted and rejected by the mode. */
  lemma UnaReporta(s: Resumen, b: Base, modo: Modo, rs: seq<Registro>, n: nat, hoy: int)
    requires n < |rs| && ProcesarUna(s, modo, FilaDe(rs, n), hoy).Ok?
    requires PasaLaRevision(rs, n) ==> Intacta(b.unidades, s.base.unidades, rs[n].codigo)
    ensures ProcesarUna(s, modo, FilaDe(rs, n), hoy).value.errores
      == s.errores + if Le(b, modo, rs, n, Rechazada) then [ErrorFila(n + 2, [EnCodigo])] else []
  {
    DestinoEs(b, modo, rs, n, Rechazada);
    FilaDice(rs, n);
  }

  lemma ErroresAlAvanzar(b: Base, modo: Modo, rs: seq<Registro>, n: nat, previos: seq<ErrorFila>, antes: seq<ErrorFila>, despues: seq<ErrorFila>)
    requires n < |rs| && ErroresFieles(Que(b, modo, rs, n, Rechazada), previos, antes)
    requires despues == antes + if Le(b, modo, rs, n, Rechazada) then [ErrorFila(n + 2, [EnCodigo])] else []
    ensures ErroresFieles(Que(b, modo, rs, n + 1, Rechazada), previos, despues)
  {
    QueUnoMas(b, modo, rs, n, Rechazada);
    if Le(b, modo, rs, n, Rechazada) {
      ErroresUnoMas(Que(b, modo, rs, n, Rechazada), n, previos, antes);
    } else {
      assert despues == antes && Que(b, modo, rs, n + 1, Rechazada) == Que(b, modo, rs, n, Rechazada);
    }
  }

  lemma {:induction false} ErroresHasta(b: Base, modo: Modo, rs: seq<Registro>, n: nat, previos: seq<ErrorFila>, hoy: int)
    requires n <= |rs| && BaseOk(b) && Procesar(b, modo, FilasDe(rs)[..n], previos, hoy).Ok?
    ensures ErroresFieles(Que(b, modo, rs, n, Rechazada), previos, Procesar(b, modo, FilasDe(rs)[..n], previos, hoy).value.errores)
  {
    if n > 0 {
      HastaLaUltima(b, modo, rs, n, previos, hoy);
      ErroresHasta(b, modo, rs, n - 1, previos, hoy);
      var s := Procesar(b, modo, FilasDe(rs)[..n - 1], previos, hoy).value;
      UnaReporta(s, b, modo, rs, n - 1, hoy);
      ErroresAlAvanzar(b, modo, rs, n - 1, previos, s.errores, Procesar(b, modo, FilasDe(rs)[..n], previos, hoy).value.errores);
    }
  }

  /** The answer of a confirmation counts the accepted records created and updated, and the rest as rejected, and lists the errors. */
  lemma FichaDeLaImportacion(ops: seq<Op>, i: nat, key: string, hoy: int)
    requires i < |ops| && ops[i].Preparar? && ops[i].rs != []
    requires var id := |Correr(ops[..i]).trabajos|;
      && id < |Correr(ops).trabajos| && !Correr(ops).trabajos[id].procesado
      && BaseOk(Correr(ops).base) && ConfirmarPaso(Correr(ops), id, key, hoy).1.Ok?
    ensures var id := |Correr(ops[..i]).trabajos|; var f := ConfirmarPaso(Correr(ops), id, key, hoy).1.value;
      var b, modo, rs := Correr(ops).base, ops[i].modo, ops[i].rs;
      && f.id == id && f.procesado && f.total == |rs|
      && f.creados == |Que(b, modo, rs, |rs|, Creada)| && f.actualizados == |Que(b, modo, rs, |rs|, Actualizada)|
      && f.rechazados == |rs| - f.creados - f.actualizados == |f.errores|
      && ErroresFieles(Que(b, modo, rs, |rs|, Rechazada), ErroresDe(rs, |rs|), f.errores)
  {
    var id, modo, rs := |Correr(ops[..i]).trabajos|, ops[i].modo, ops[i].rs;
    assert ops[..i + 1][..i] == ops[..i];
    SiguePreparado(ops, i + 1, id, modo, rs);
    ConfirmarFunciona(ops, id, key, hoy);
    ResumenDeLaImportacion(Correr(ops).base, modo, rs, hoy);
  }

  lemma ResumenDeLaImportacion(b: Base, modo: Modo, rs: seq<Registro>, hoy: int)
    requires BaseOk(b) && Procesar(b, modo, FilasDe(rs), ErroresDe(rs, |rs|), hoy).Ok?
    ensures var s := Procesar(b, modo, FilasDe(rs), ErroresDe(rs, |rs|), hoy).value;
      && s.creados == |Que(b, modo, rs, |rs|, Creada)| && s.actualizados == |Que(b, modo, rs, |rs|, Actualizada)|
      && |rs| - s.creados - s.actualizados == |s.errores|
      && ErroresFieles(Que(b, modo, rs, |rs|, Rechazada), ErroresDe(rs, |rs|), s.errores)
  {
    RevisionGarantiza(rs);
    CadaFilaUnDestino(b, modo, FilasDe(rs), ErroresDe(rs, |rs|), hoy);
    CuentaEs(b, modo, rs, |rs|, Creada);
    CuentaEs(b, modo, rs, |rs|, Actualizada);
    FilasSonFilas(rs);
    assert FilasDe(rs)[..|rs|] == FilasDe(rs);
    ErroresHasta(b, modo, rs, |rs|, ErroresDe(rs, |rs|), hoy);
  }

  /** A file prepared as a job and confirmed later, whatever has happened in between: the building, as it is at the confirmation, is
      imported into; the job is processed. */
  lemma ArchivoImportado(ops: seq<Op>, i: nat, key: string, hoy: int)
    requires i < |ops| && ops[i].Preparar? && ops[i].rs != []
    requires var id := |Correr(ops[..i]).trabajos|;
      && id < |Correr(ops).trabajos| && !Correr(ops).trabajos[id].procesado
      && BaseOk(Correr(ops).base) && ConfirmarPaso(Correr(ops), id, key, hoy).1.Ok?
    ensures var id := |Correr(ops[..i]).trabajos|; var x, x' := Correr(ops), ConfirmarPaso(Correr(ops), id, key, hoy).0;
      && Importado(x.base, x'.base, ops[i].modo, ops[i].rs, hoy) && BaseOk(x'.base)
      && |x'.trabajos| == |x.trabajos| && x'.trabajos[id].procesado
      && forall j | 0 <= j < |x.trabajos| && j != id :: x'.trabajos[j] == x.trabajos[j]
  {
    var id, modo, rs := |Correr(ops[..i]).trabajos|, ops[i].modo, ops[i].rs;
    var b := Correr(ops).base;
    assert ops[..i + 1][..i] == ops[..i];
    SiguePreparado(ops, i + 1, id, modo, rs);
    ConfirmarFunciona(ops, id, key, hoy);
    RegistrosImportados(b, modo, rs, hoy);
  }
}
