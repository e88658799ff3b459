/** An import from its records to its result: preview, confirmation under a key, and repeats
    (CreateImportJob and ConfirmImportJob in internal/consorcios/imports.go). */
module ImportacionTrabajos {
  import opened Comun
  import opened Texto
  import opened Vinculos
  import opened Importacion
  import opened ImportacionMezcla

  // ---------- Preview and confirmation composed ----------

  predicate PasaLaRevision(rs: seq<Registro>, i: nat)
    requires i < |rs|
  {
    |CamposConError(rs[i], Repetido(rs, i))| == 0
  }

  /** What a record that passed the preview still needs of the building: a coefficient if it creates a
      unit, one that fits the column if it gives any, and, if it names a person for an existing unit, that no
      open link of that unit began today. */
  ghost predicate RegistroAplicable(b: Base, modo: Modo, r: Registro, hoy: int) {
    if r.codigo in b.unidades then
      modo == Modo.Crear
      || (&& (r.coef != "" ==> LeerCoef(r.coef).Some? && CabeCoef(LeerCoef(r.coef).value))
          && (DeclaraPersona(r) ==> forall k | 0 <= k < |b.padron.vinculos| && Abierto(b.padron.vinculos[k], b.unidades[r.codigo].id) ::
                b.padron.vinculos[k].desde < hoy))
    else
      modo == Modo.Actualizar || (r.coef != "" && LeerCoef(r.coef).Some? && CabeCoef(LeerCoef(r.coef).value))
  }

  /** Digits are never negative, so a coefficient in the right form is a number. */
  lemma {:induction false} DigitosNoNegativos(s: string)
    requires SoloDigitos(s)
    ensures LeerDecimal(s) >= 0
  {
    if s != [] {
      DigitosNoNegativos(s[..|s| - 1]);
    }
  }

  lemma CoefLegible(s: string)
    ensures LeerCoef(s).Some? <==> EsDecimal(s, 8)
    ensures s == "" ==> LeerCoef(s).None?
  {
    if EsDecimal(s, 8) {
      var k := Punto(s);
      if k == |s| {
        assert s[..k] == s;
        DigitosNoNegativos(s);
        CorridoNoNegativo(LeerDecimal(s), 8);
      } else {
        DigitosNoNegativos(s[..k] + s[k + 1..]);
        CorridoNoNegativo(LeerDecimal(s[..k] + s[k + 1..]), 8 - (|s| - k - 1));
      }
    }
  }

  lemma {:induction false} CorridoNoNegativo(n: int, k: nat)
    requires n >= 0
    ensures MoverPunto(n, k) >= 0
    decreases k
  {
    if k > 0 {
      CorridoNoNegativo(10 * n, k - 1);
    }
  }

  /** On a row that passed the preview, the row's needs are the record's. */
  lemma FilaORegistro(b: Base, modo: Modo, rs: seq<Registro>, i: nat, hoy: int)
    requires i < |rs| && PasaLaRevision(rs, i)
    ensures Aplicable(b, modo, FilaDe(rs, i), hoy) <==> RegistroAplicable(b, modo, rs[i], hoy)
  {
    var r, f := rs[i], FilaDe(rs, i);
    CoefLegible(r.coef);
    FilaSinFaltas(rs, i);
    assert TienePersona(f) == DeclaraPersona(r);
    if r.codigo in b.unidades {
      var id := b.unidades[r.codigo].id;
      assert PuedeCerrar(b.padron.vinculos, id, None, hoy)
        <==> forall k | 0 <= k < |b.padron.vinculos| && Abierto(b.padron.vinculos[k], id) :: b.padron.vinculos[k].desde < hoy;
    }
  }

  lemma TodasORegistros(b: Base, modo: Modo, rs: seq<Registro>, hoy: int)
    ensures |FilasDe(rs)| == |rs|
    ensures (forall i | 0 <= i < |rs| && FilasDe(rs)[i].valida :: Aplicable(b, modo, FilasDe(rs)[i], hoy))
        <==> forall i | 0 <= i < |rs| && PasaLaRevision(rs, i) :: RegistroAplicable(b, modo, rs[i], hoy)
  {
    var filas := FilasDe(rs);
    FilasSonFilas(rs);
    forall i | 0 <= i < |rs|
      ensures filas[i].valida <==> PasaLaRevision(rs, i)
      ensures filas[i].valida ==> (Aplicable(b, modo, filas[i], hoy) <==> RegistroAplicable(b, modo, rs[i], hoy))
    {
      if PasaLaRevision(rs, i) { FilaORegistro(b, modo, rs, i, hoy); }
    }
  }

  /** From the records of the file to the outcome: the confirmation goes through if and only if every record
      that passed the preview meets its needs; then each record ends as exactly one of created, updated or rejected. */
  lemma ImportacionSi(b: Base, modo: Modo, rs: seq<Registro>, hoy: int)
    requires BaseOk(b)
    ensures var r := Procesar(b, modo, FilasDe(rs), ErroresDe(rs, |rs|), hoy);
      && (r.Ok? <==> forall i | 0 <= i < |rs| && PasaLaRevision(rs, i) :: RegistroAplicable(b, modo, rs[i], hoy))
      && (r.Ok? ==> BaseOk(r.value.base) && EsMezcla(modo, b.unidades, FilasDe(rs), r.value.base.unidades)
                    && |rs| - r.value.creados - r.value.actualizados == |r.value.errores|)
  {
    var filas, errores := FilasDe(rs), ErroresDe(rs, |rs|);
    RevisionGarantiza(rs);
    TodasORegistros(b, modo, rs, hoy);
    ProcesarFunciona(b, modo, filas, errores, hoy);
    if Procesar(b, modo, filas, errores, hoy).Ok? {
      ProcesarEsMezcla(b, modo, filas, errores, hoy);
      CadaFilaUnDestino(b, modo, filas, errores, hoy);
    }
  }

  const SIN_COEF := Registro("1A", "departamento", SinDato, "", "", "", "", "", "", "")

  /** A file of one record without a coefficient passes the preview clean, and its confirmation fails whole. */
  lemma SinCoeficiente(hoy: int)
    ensures ErroresDe([SIN_COEF], 1) == [] && |FilasDe([SIN_COEF])| == 1 && FilasDe([SIN_COEF])[0].valida
    ensures Procesar(Base(map[], 0, PadronVacio), Modo.Crear, FilasDe([SIN_COEF]), [], hoy) == Err(ErrorImport.Restriccion)
  {
    var rs := [SIN_COEF];
    assert Bytes("1A") == 2;
    assert |CamposConError(rs[0], Repetido(rs, 0))| == 0;
    FilasSonFilas(rs);
    var filas := FilasDe(rs);
    assert filas[..0] == [];
    CoefLegible("");
  }

  // ---------- The job ----------

  /** A job ready to confirm or processed: a job is left in no other state. */
  datatype Trabajo = Trabajo(procesado: bool, modo: Modo, filas: seq<Fila>, errores: seq<ErrorFila>,
                             creados: nat, actualizados: nat, rechazados: int)

  /** The public form of a job. */
  datatype Ficha = Ficha(id: nat, procesado: bool, total: nat, creados: nat, actualizados: nat, rechazados: int, errores: seq<ErrorFila>)

  /** A stored key: the job it was used for, and the answer unless still the `{}` placeholder. */
  datatype FilaLlave = FilaLlave(trabajo: nat, resp: Option<Ficha>)

  datatype ErrorTrabajo = NoEncontrado | LlaveEnUso | PlantillaVacia | DeImportacion(causa: ErrorImport)

  datatype Importaciones = Importaciones(base: Base, trabajos: seq<Trabajo>, llaves: map<string, FilaLlave>)

  const SinImportaciones := Importaciones(Base(map[], 0, PadronVacio), [], map[])

  /** What the placeholder reads as. */
  const FICHA_VACIA := Ficha(0, false, 0, 0, 0, 0, [])

  function FichaDe(id: nat, t: Trabajo): Ficha {
    Ficha(id, t.procesado, |t.filas|, t.creados, t.actualizados, t.rechazados, t.errores)
  }

  function CrearPaso(x: Importaciones, modo: Modo, rs: seq<Registro>): (Importaciones, Result<Ficha, ErrorTrabajo>) {
    if rs == [] then (x, Err(PlantillaVacia))
    else
      var t := Trabajo(false, modo, FilasDe(rs), ErroresDe(rs, |rs|), 0, 0, 0);
      (x.(trabajos := x.trabajos + [t]), Ok(FichaDe(|x.trabajos|, t)))
  }

  /** The answers given before any row is processed. */
  function Atajo(x: Importaciones, id: nat, key: string): Option<Result<Ficha, ErrorTrabajo>> {
    if id >= |x.trabajos| then Some(Err(NoEncontrado))
    else if x.trabajos[id].procesado then Some(Ok(FichaDe(id, x.trabajos[id])))
    else if key in x.llaves then
      Some(if x.llaves[key].trabajo != id then Err(LlaveEnUso)
           else Ok(if x.llaves[key].resp.Some? then x.llaves[key].resp.value else FICHA_VACIA))
    else None
  }

  function ConfirmarPaso(x: Importaciones, id: nat, key: string, hoy: int): (Importaciones, Result<Ficha, ErrorTrabajo>) {
    match Atajo(x, id, key)
    case Some(r) => (x, r)
    case None =>
      var t := x.trabajos[id];
      var p := Procesar(x.base, t.modo, t.filas, t.errores, hoy);
      if p.Err? then (x, Err(DeImportacion(p.error)))
      else
        var s := p.value;
        var t' := t.(procesado := true, creados := s.creados, actualizados := s.actualizados,
                     rechazados := |t.filas| - s.creados - s.actualizados, errores := s.errores);
        (Importaciones(s.base, x.trabajos[id := t'], x.llaves[key := FilaLlave(id, Some(FichaDe(id, t')))]), Ok(FichaDe(id, t')))
  }

  /** Besides its own operations, anything else may change the building between them. */
  datatype Op =
    | Preparar(modo: Modo, rs: seq<Registro>)
    | Confirmar(id: nat, key: string, hoy: int)
    | Ajena(base: Base)

  function Paso(x: Importaciones, op: Op): Importaciones {
    match op
    case Preparar(m, rs) => CrearPaso(x, m, rs).0
    case Confirmar(id, key, hoy) => ConfirmarPaso(x, id, key, hoy).0
    case Ajena(b) => x.(base := b)
  }

  function Correr(ops: seq<Op>): Importaciones {
    if ops == [] then SinImportaciones else Paso(Correr(ops[..|ops| - 1]), ops[|ops| - 1])
  }

  /** A prepared job is a checked one; a processed one accounts for every row; a key belongs to a processed
      job and holds its answer. */
  ghost predicate Valida(x: Importaciones) {
    && (forall i | 0 <= i < |x.trabajos| :: CodigosDistintos(x.trabajos[i].filas))
    && (forall i | 0 <= i < |x.trabajos| && !x.trabajos[i].procesado :: |x.trabajos[i].errores| == Invalidas(x.trabajos[i].filas))
    && (forall i | 0 <= i < |x.trabajos| && x.trabajos[i].procesado ::
          var t := x.trabajos[i];
          t.rechazados == |t.errores| && t.creados + t.actualizados + t.rechazados == |t.filas|)
    && (forall k | k in x.llaves ::
          var id := x.llaves[k].trabajo;
          id < |x.trabajos| && x.trabajos[id].procesado && x.llaves[k].resp == Some(FichaDe(id, x.trabajos[id])))
  }

  lemma TrabajoNuevoConserva(x: Importaciones, t: Trabajo)
    requires Valida(x) && !t.procesado && CodigosDistintos(t.filas) && |t.errores| == Invalidas(t.filas)
    ensures Valida(x.(trabajos := x.trabajos + [t]))
  {
  }

  lemma PrepararConserva(x: Importaciones, modo: Modo, rs: seq<Registro>)
    requires Valida(x)
    ensures Valida(CrearPaso(x, modo, rs).0)
  {
    RevisionGarantiza(rs);
    TrabajoNuevoConserva(x, Trabajo(false, modo, FilasDe(rs), ErroresDe(rs, |rs|), 0, 0, 0));
  }

  lemma ConfirmarConserva(x: Importaciones, id: nat, key: string, hoy: int)
    requires Valida(x)
    ensures Valida(ConfirmarPaso(x, id, key, hoy).0)
  {
    if Atajo(x, id, key).None? {
      var t := x.trabajos[id];
      if Procesar(x.base, t.modo, t.filas, t.errores, hoy).Ok? {
        CadaFilaUnDestino(x.base, t.modo, t.filas, t.errores, hoy);
      }
    }
  }

  lemma {:induction false} AlcanzableValida(ops: seq<Op>)
    ensures Valida(Correr(ops))
  {
    if ops != [] {
      var antes := ops[..|ops| - 1];
      AlcanzableValida(antes);
      match ops[|ops| - 1]
      case Preparar(m, rs) => PrepararConserva(Correr(antes), m, rs);
      case Confirmar(id, key, hoy) => ConfirmarConserva(Correr(antes), id, key, hoy);
      case Ajena(_) =>
    }
  }

  lemma ProcesadoPorPaso(x: Importaciones, op: Op, id: nat)
    requires id < |x.trabajos| && x.trabajos[id].procesado
    ensures id < |Paso(x, op).trabajos| && Paso(x, op).trabajos[id] == x.trabajos[id]
  {
  }

  lemma {:induction false} ProcesadoSiempre(ops: seq<Op>, n: nat, id: nat)
    requires n <= |ops| && id < |Correr(ops[..n]).trabajos| && Correr(ops[..n]).trabajos[id].procesado
    ensures id < |Correr(ops).trabajos| && Correr(ops).trabajos[id] == Correr(ops[..n]).trabajos[id]
    decreases |ops|
  {
    if n == |ops| {
      assert ops[..n] == ops;
    } else {
      assert ops[..|ops| - 1][..n] == ops[..n];
      ProcesadoSiempre(ops[..|ops| - 1], n, id);
      ProcesadoPorPaso(Correr(ops[..|ops| - 1]), ops[|ops| - 1], id);
    }
  }

  lemma Confirmado(x: Importaciones, id: nat, key: string, hoy: int)
    requires Valida(x) && ConfirmarPaso(x, id, key, hoy).1.Ok?
    ensures var (x', r) := ConfirmarPaso(x, id, key, hoy);
      id < |x'.trabajos| && x'.trabajos[id].procesado && r == Ok(FichaDe(id, x'.trabajos[id]))
  {
  }

  /** Whatever happens in between and under whatever keys, a job is carried out once: every confirmation
      after a successful one gives its answer again and changes nothing; the rows of the answer add up. */
  lemma UnaSolaConfirmacion(ops: seq<Op>, i: nat, key: string, hoy: int)
    requires i < |ops| && ops[i].Confirmar?
    requires ConfirmarPaso(Correr(ops[..i]), ops[i].id, ops[i].key, ops[i].hoy).1.Ok?
    ensures var r := ConfirmarPaso(Correr(ops[..i]), ops[i].id, ops[i].key, ops[i].hoy).1;
      && ConfirmarPaso(Correr(ops), ops[i].id, key, hoy) == (Correr(ops), r)
      && r.value.creados + r.value.actualizados + r.value.rechazados == r.value.total
      && r.value.rechazados == |r.value.errores|
  {
    AlcanzableValida(ops[..i]);
    AlcanzableValida(ops[..i + 1]);
    assert ops[..i + 1][..i] == ops[..i];
    Confirmado(Correr(ops[..i]), ops[i].id, ops[i].key, ops[i].hoy);
    ProcesadoSiempre(ops, i + 1, ops[i].id);
  }

  /** A prepared job is confirmed if and only if the key is unused and its rows go through; the stored-answer
      branch is never taken, and a refusal changes nothing. */
  lemma ConfirmarFunciona(ops: seq<Op>, id: nat, key: string, hoy: int)
    requires id < |Correr(ops).trabajos| && !Correr(ops).trabajos[id].procesado
    ensures var x := Correr(ops); var t := x.trabajos[id]; var (x', r) := ConfirmarPaso(x, id, key, hoy);
      && (r.Ok? <==> key !in x.llaves && Procesar(x.base, t.modo, t.filas, t.errores, hoy).Ok?)
      && (key in x.llaves ==> r == Err(LlaveEnUso))
      && (r.Err? ==> x' == x)
  {
    AlcanzableValida(ops);
  }
}
