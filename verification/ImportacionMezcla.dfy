/** Applying checked rows to the units table: the row-by-row loop and the one-shot merge it equals
    (procesarFilas and its helpers in internal/consorcios/imports.go). */
module ImportacionMezcla {
  import opened Comun
  import opened Vinculos
  import opened Importacion

  /** A unit of the building; the coefficient is in units of the eighth decimal. */
  datatype Unidad = Unidad(id: nat, tipo: string, superficie: Option<real>, coef: nat, estado: string)

  /** Units by code, which is unique; ids are handed out in order. */
  datatype Base = Base(unidades: map<string, Unidad>, proxima: nat, padron: Padron)

  datatype ErrorImport = Restriccion | PersonaInvalida

  datatype Resumen = Resumen(base: Base, creados: nat, actualizados: nat, errores: seq<ErrorFila>)

  function AltaDe(f: Fila, hoy: int): Alta {
    Alta(Persona(f.nombre, f.documento, f.email, f.telefono), f.vinculo, f.porcentaje, hoy)
  }

  /** crearUnidadDesdeFila: an empty coefficient reaches the table as NULL, which it refuses. */
  function CrearFila(b: Base, f: Fila, hoy: int): Result<Base, ErrorImport> {
    var coef := LeerCoef(f.coef);
    if coef.None? || !CabeCoef(coef.value) || f.codigo in b.unidades then Err(Restriccion)
    else
      var u := Unidad(b.proxima, f.tipo, f.superficie, coef.value, "activa");
      var b' := b.(unidades := b.unidades[f.codigo := u], proxima := b.proxima + 1);
      if !TienePersona(f) then Ok(b')
      else if !PersonaValida(f) then Err(PersonaInvalida)
      else
        var p := AdjuntarPaso(b.padron, b.proxima, AltaDe(f, hoy), hoy);
        if p.Err? then Err(Restriccion) else Ok(b'.(padron := p.value))
  }

  /** COALESCE: a missing surface or coefficient keeps the stored one. */
  function ConCambios(u: Unidad, f: Fila): Unidad {
    u.(tipo := f.tipo,
       superficie := if f.superficie.Some? then f.superficie else u.superficie,
       coef := if LeerCoef(f.coef).Some? then LeerCoef(f.coef).value else u.coef)
  }

  /** actualizarUnidadDesdeFila. */
  function ActualizarFila(b: Base, f: Fila, hoy: int): Result<Base, ErrorImport>
    requires f.codigo in b.unidades
  {
    var coef := LeerCoef(f.coef);
    var u := b.unidades[f.codigo];
    if coef.Some? && !CabeCoef(coef.value) then Err(Restriccion)
    else
      var b' := b.(unidades := b.unidades[f.codigo := ConCambios(u, f)]);
      if !TienePersona(f) then Ok(b')
      else if !PersonaValida(f) then Err(PersonaInvalida)
      else
        var p := ReemplazarPaso(b.padron, u.id, AltaDe(f, hoy), hoy);
        if p.Err? then Err(Restriccion) else Ok(b'.(padron := p.value))
  }

  datatype Destino = Creada | Actualizada | Rechazada

  /** What becomes of a valid row, seen from the units there are. */
  function DestinoDe(modo: Modo, us: map<string, Unidad>, f: Fila): Destino {
    if f.codigo in us then (if modo == Crear then Rechazada else Actualizada)
    else (if modo == Actualizar then Rechazada else Creada)
  }

  function ProcesarUna(s: Resumen, modo: Modo, f: Fila, hoy: int): Result<Resumen, ErrorImport> {
    if !f.valida then Ok(s)
    else match DestinoDe(modo, s.base.unidades, f)
      case Rechazada => Ok(s.(errores := s.errores + [ErrorFila(f.num, [EnCodigo])]))
      case Creada =>
        var r := CrearFila(s.base, f, hoy);
        if r.Err? then Err(r.error) else Ok(s.(base := r.value, creados := s.creados + 1))
      case Actualizada =>
        var r := ActualizarFila(s.base, f, hoy);
        if r.Err? then Err(r.error) else Ok(s.(base := r.value, actualizados := s.actualizados + 1))
  }

  /** procesarFilas: one row after another, stopping at the first failure. */
  function Procesar(b: Base, modo: Modo, filas: seq<Fila>, errores: seq<ErrorFila>, hoy: int): Result<Resumen, ErrorImport> {
    if filas == [] then Ok(Resumen(b, 0, 0, errores))
    else
      var r := Procesar(b, modo, filas[..|filas| - 1], errores, hoy);
      if r.Err? then r else ProcesarUna(r.value, modo, filas[|filas| - 1], hoy)
  }

  // ---------- The merge ----------

  ghost predicate Nombra(filas: seq<Fila>, c: string) {
    exists i :: 0 <= i < |filas| && filas[i].valida && filas[i].codigo == c
  }

  /** A unit as a row creates it, whatever its id. */
  ghost predicate CreadaDe(u: Unidad, f: Fila) {
    u.tipo == f.tipo && u.superficie == f.superficie && LeerCoef(f.coef) == Some(u.coef) && u.estado == "activa"
  }

  /** What a valid row leaves at its code. */
  ghost predicate FilaAplicada(modo: Modo, antes: map<string, Unidad>, despues: map<string, Unidad>, f: Fila) {
    match DestinoDe(modo, antes, f)
    case Rechazada => (f.codigo in despues <==> f.codigo in antes)
        && (f.codigo in antes && f.codigo in despues ==> despues[f.codigo] == antes[f.codigo])
    case Actualizada => f.codigo in despues && despues[f.codigo] == ConCambios(antes[f.codigo], f)
    case Creada => f.codigo in despues && CreadaDe(despues[f.codigo], f)
  }

  ghost predicate Intacta(antes: map<string, Unidad>, despues: map<string, Unidad>, c: string) {
    (c in despues <==> c in antes) && (c in antes && c in despues ==> despues[c] == antes[c])
  }

  /** `despues` is `antes` merged with the valid rows by code: codes no row names stay as they were;
      a row's code is kept, changed or added as the mode says, and nothing else appears. */
  ghost predicate EsMezcla(modo: Modo, antes: map<string, Unidad>, filas: seq<Fila>, despues: map<string, Unidad>) {
    && (forall c | !Nombra(filas, c) :: Intacta(antes, despues, c))
    && (forall i | 0 <= i < |filas| && filas[i].valida :: FilaAplicada(modo, antes, despues, filas[i]))
  }

  lemma NombraPrefijo(filas: seq<Fila>, c: string)
    requires filas != []
    ensures var n := |filas| - 1; Nombra(filas, c) <==> Nombra(filas[..n], c) || (filas[n].valida && filas[n].codigo == c)
  {
    var n := |filas| - 1;
    if Nombra(filas[..n], c) {
      var i :| 0 <= i < n && filas[..n][i].valida && filas[..n][i].codigo == c;
      assert filas[i].valida && filas[i].codigo == c;
    }
    if Nombra(filas, c) {
      var i :| 0 <= i < |filas| && filas[i].valida && filas[i].codigo == c;
      if i < n {
        assert filas[..n][i].valida && filas[..n][i].codigo == c;
      }
    }
  }

  /** The step of one row: its own code as the mode says, every other code untouched. */
  ghost predicate UnaAplicada(modo: Modo, medio: map<string, Unidad>, despues: map<string, Unidad>, f: Fila) {
    && (f.valida ==> FilaAplicada(modo, medio, despues, f))
    && (forall c | c != f.codigo || !f.valida :: Intacta(medio, despues, c))
  }

  /** One more row, its code new among the valid ones: the merge grows by exactly that row. */
  lemma MezclaUnaMas(modo: Modo, antes: map<string, Unidad>, filas: seq<Fila>, medio: map<string, Unidad>, despues: map<string, Unidad>)
    requires filas != [] && CodigosDistintos(filas)
    requires EsMezcla(modo, antes, filas[..|filas| - 1], medio)
    requires UnaAplicada(modo, medio, despues, filas[|filas| - 1])
    ensures EsMezcla(modo, antes, filas, despues)
  {
    var n := |filas| - 1;
    var f := filas[n];
    if f.valida {
      NoNombrada(filas);
      assert Intacta(antes, medio, f.codigo);
    }
    forall c | !Nombra(filas, c) ensures Intacta(antes, despues, c) {
      NombraPrefijo(filas, c);
      assert Intacta(antes, medio, c) && Intacta(medio, despues, c);
    }
    forall i | 0 <= i < |filas| && filas[i].valida ensures FilaAplicada(modo, antes, despues, filas[i]) {
      if i < n {
        assert filas[..n][i] == filas[i];
        assert FilaAplicada(modo, antes, medio, filas[i]) && Intacta(medio, despues, filas[i].codigo);
      }
    }
  }

  lemma NoNombrada(filas: seq<Fila>)
    requires filas != [] && CodigosDistintos(filas) && filas[|filas| - 1].valida
    ensures !Nombra(filas[..|filas| - 1], filas[|filas| - 1].codigo)
  {
  }

  lemma DistintosPrefijo(filas: seq<Fila>, n: nat)
    requires CodigosDistintos(filas) && n <= |filas|
    ensures CodigosDistintos(filas[..n])
  {
  }

  lemma ProcesarUnaAplica(s: Resumen, modo: Modo, f: Fila, hoy: int)
    requires ProcesarUna(s, modo, f, hoy).Ok?
    ensures UnaAplicada(modo, s.base.unidades, ProcesarUna(s, modo, f, hoy).value.base.unidades, f)
  {
  }

  /** The loop is the merge: whenever the confirmation goes through, the units it leaves are the mode's
      merge by code of the units there were and the valid rows. */
  lemma {:induction false} ProcesarEsMezcla(b: Base, modo: Modo, filas: seq<Fila>, errores: seq<ErrorFila>, hoy: int)
    requires CodigosDistintos(filas) && Procesar(b, modo, filas, errores, hoy).Ok?
    ensures EsMezcla(modo, b.unidades, filas, Procesar(b, modo, filas, errores, hoy).value.base.unidades)
  {
    if filas != [] {
      var n := |filas| - 1;
      DistintosPrefijo(filas, n);
      ProcesarEsMezcla(b, modo, filas[..n], errores, hoy);
      var s := Procesar(b, modo, filas[..n], errores, hoy).value;
      ProcesarUnaAplica(s, modo, filas[n], hoy);
      MezclaUnaMas(modo, b.unidades, filas, s.base.unidades, ProcesarUna(s, modo, filas[n], hoy).value.base.unidades);
    }
  }

  // ---------- The counters ----------

  function Cuenta(filas: seq<Fila>, modo: Modo, us: map<string, Unidad>, d: Destino): nat {
    if filas == [] then 0
    else
      var f := filas[|filas| - 1];
      Cuenta(filas[..|filas| - 1], modo, us, d) + if f.valida && DestinoDe(modo, us, f) == d then 1 else 0
  }

  lemma {:induction false} CuentasParten(filas: seq<Fila>, modo: Modo, us: map<string, Unidad>)
    ensures Invalidas(filas) + Cuenta(filas, modo, us, Creada) + Cuenta(filas, modo, us, Actualizada)
            + Cuenta(filas, modo, us, Rechazada) == |filas|
  {
    if filas != [] {
      CuentasParten(filas[..|filas| - 1], modo, us);
    }
  }

  lemma {:induction false} ProcesarCuenta(b: Base, modo: Modo, filas: seq<Fila>, errores: seq<ErrorFila>, hoy: int)
    requires CodigosDistintos(filas) && Procesar(b, modo, filas, errores, hoy).Ok?
    ensures var s := Procesar(b, modo, filas, errores, hoy).value;
      && s.creados == Cuenta(filas, modo, b.unidades, Creada)
      && s.actualizados == Cuenta(filas, modo, b.unidades, Actualizada)
      && |s.errores| == |errores| + Cuenta(filas, modo, b.unidades, Rechazada)
  {
    if filas != [] {
      var n := |filas| - 1;
      DistintosPrefijo(filas, n);
      ProcesarCuenta(b, modo, filas[..n], errores, hoy);
      ProcesarEsMezcla(b, modo, filas[..n], errores, hoy);
      if filas[n].valida {
        NoNombrada(filas);
        assert Intacta(b.unidades, Procesar(b, modo, filas[..n], errores, hoy).value.base.unidades, filas[n].codigo);
      }
    }
  }

  /** Each row of the file ends as exactly one of created, updated or rejected, as the units there were
      decide, and the rejections reported are as many as the error entries. */
  lemma CadaFilaUnDestino(b: Base, modo: Modo, filas: seq<Fila>, errores: seq<ErrorFila>, hoy: int)
    requires CodigosDistintos(filas) && |errores| == Invalidas(filas) && Procesar(b, modo, filas, errores, hoy).Ok?
    ensures var s := Procesar(b, modo, filas, errores, hoy).value;
      && s.creados == Cuenta(filas, modo, b.unidades, Creada)
      && s.actualizados == Cuenta(filas, modo, b.unidades, Actualizada)
      && |filas| - s.creados - s.actualizados == |s.errores| >= 0
  {
    ProcesarCuenta(b, modo, filas, errores, hoy);
    CuentasParten(filas, modo, b.unidades);
  }

  // ---------- When a confirmation goes through ----------

  /** Unit ids are distinct and already handed out, and links belong to such units. */
  ghost predicate BaseOk(b: Base) {
    && (forall c | c in b.unidades :: b.unidades[c].id < b.proxima)
    && (forall c, d | c in b.unidades && d in b.unidades && c != d :: b.unidades[c].id != b.unidades[d].id)
    && (forall i | 0 <= i < |b.padron.vinculos| :: b.padron.vinculos[i].unidad < b.proxima)
  }

  /** What a valid row needs of the building as it stands: to create, a coefficient the column takes; to
      update, one if it is given; and to replace people, that no open link of the unit began today. */
  ghost predicate Aplicable(b: Base, modo: Modo, f: Fila, hoy: int) {
    match DestinoDe(modo, b.unidades, f)
    case Rechazada => true
    case Creada => LeerCoef(f.coef).Some? && CabeCoef(LeerCoef(f.coef).value) && (TienePersona(f) ==> PersonaValida(f))
    case Actualizada =>
      && (LeerCoef(f.coef).Some? ==> CabeCoef(LeerCoef(f.coef).value))
      && (TienePersona(f) ==> PersonaValida(f) && PuedeCerrar(b.padron.vinculos, b.unidades[f.codigo].id, None, hoy))
  }

  /** The open links of unit `u` are the same rows in both tables. */
  ghost predicate MismosAbiertos(vs: seq<Vinculo>, ws: seq<Vinculo>, u: nat) {
    && |vs| <= |ws|
    && (forall i | 0 <= i < |ws| :: Abierto(ws[i], u) <==> i < |vs| && Abierto(vs[i], u))
    && (forall i | 0 <= i < |vs| && Abierto(vs[i], u) :: ws[i] == vs[i])
  }

  lemma AdjuntarAjeno(p: Padron, unidad: nat, a: Alta, hoy: int, u: nat)
    requires AdjuntarPaso(p, unidad, a, hoy).Ok? && u != unidad
    ensures MismosAbiertos(p.vinculos, AdjuntarPaso(p, unidad, a, hoy).value.vinculos, u)
  {
  }

  lemma ReemplazarAjeno(p: Padron, unidad: nat, a: Alta, hoy: int, u: nat)
    requires ReemplazarPaso(p, unidad, a, hoy).Ok? && u != unidad
    ensures MismosAbiertos(p.vinculos, ReemplazarPaso(p, unidad, a, hoy).value.vinculos, u)
  {
    var cerrado := p.(vinculos := Cerrar(p.vinculos, unidad, None, hoy));
    AdjuntarAjeno(cerrado, unidad, a, hoy, u);
  }

  /** `m` differs from `b` only in what concerns the codes the rows name. */
  ghost predicate SoloNombradas(b: Base, m: Base, filas: seq<Fila>) {
    && BaseOk(m) && b.proxima <= m.proxima
    && (forall c | !Nombra(filas, c) :: Intacta(b.unidades, m.unidades, c))
    && (forall c | c in b.unidades && !Nombra(filas, c) :: MismosAbiertos(b.padron.vinculos, m.padron.vinculos, b.unidades[c].id))
  }

  /** A unit just created has no links to close, so its person can always be attached. */
  lemma CrearFilaFunciona(b: Base, f: Fila, hoy: int)
    requires BaseOk(b) && f.codigo !in b.unidades
    ensures CrearFila(b, f, hoy).Ok? <==>
      LeerCoef(f.coef).Some? && CabeCoef(LeerCoef(f.coef).value) && (TienePersona(f) ==> PersonaValida(f))
    ensures CrearFila(b, f, hoy).Ok? ==> var m := CrearFila(b, f, hoy).value;
      BaseOk(m) && m.proxima == b.proxima + 1
      && forall u: nat | u < b.proxima :: MismosAbiertos(b.padron.vinculos, m.padron.vinculos, u)
  {
    var id := PersonaDe(b.padron.personas, AltaDe(f, hoy).persona);
    assert !YaVinculada(b.padron.vinculos, b.proxima, id, f.vinculo);
    if CrearFila(b, f, hoy).Ok? && TienePersona(f) {
      forall u: nat | u < b.proxima ensures MismosAbiertos(b.padron.vinculos, CrearFila(b, f, hoy).value.padron.vinculos, u) {
        AdjuntarAjeno(b.padron, b.proxima, AltaDe(f, hoy), hoy, u);
      }
    }
  }

  lemma ActualizarFilaFunciona(b: Base, f: Fila, hoy: int)
    requires BaseOk(b) && f.codigo in b.unidades
    ensures ActualizarFila(b, f, hoy).Ok? <==> Aplicable(b, Actualizar, f, hoy)
    ensures ActualizarFila(b, f, hoy).Ok? ==> var m := ActualizarFila(b, f, hoy).value;
      BaseOk(m) && m.proxima == b.proxima
      && forall u: nat | u != b.unidades[f.codigo].id :: MismosAbiertos(b.padron.vinculos, m.padron.vinculos, u)
  {
    var id, a := b.unidades[f.codigo].id, AltaDe(f, hoy);
    ReemplazarFunciona(b.padron, id, a, hoy);
    if ActualizarFila(b, f, hoy).Ok? && TienePersona(f) {
      ReemplazarVinculos(b.padron, id, a, hoy);
      forall u: nat | u != id ensures MismosAbiertos(b.padron.vinculos, ActualizarFila(b, f, hoy).value.padron.vinculos, u) {
        ReemplazarAjeno(b.padron, id, a, hoy, u);
      }
    }
  }

  lemma ReemplazarVinculos(p: Padron, unidad: nat, a: Alta, hoy: int)
    requires ReemplazarPaso(p, unidad, a, hoy).Ok?
    ensures var ws := ReemplazarPaso(p, unidad, a, hoy).value.vinculos;
      && |ws| == |p.vinculos| + 1 && ws[|p.vinculos|].unidad == unidad
      && forall i | 0 <= i < |p.vinculos| :: ws[i].unidad == p.vinculos[i].unidad
  {
    UnoTrasReemplazar(p, unidad, a, hoy);
  }

  lemma MismosAbiertosTransitiva(vs: seq<Vinculo>, ws: seq<Vinculo>, xs: seq<Vinculo>, u: nat)
    requires MismosAbiertos(vs, ws, u) && MismosAbiertos(ws, xs, u)
    ensures MismosAbiertos(vs, xs, u)
  {
    forall i | 0 <= i < |xs| ensures Abierto(xs[i], u) <==> i < |vs| && Abierto(vs[i], u) {
      if i < |ws| {
        assert Abierto(ws[i], u) <==> i < |vs| && Abierto(vs[i], u);
      }
    }
  }

  /** Whether a row is applicable depends only on its own code's unit and that unit's open links. */
  lemma AplicableIgual(b: Base, m: Base, modo: Modo, f: Fila, hoy: int)
    requires Intacta(b.unidades, m.unidades, f.codigo)
    requires f.codigo in b.unidades ==> MismosAbiertos(b.padron.vinculos, m.padron.vinculos, b.unidades[f.codigo].id)
    ensures DestinoDe(modo, b.unidades, f) == DestinoDe(modo, m.unidades, f)
    ensures Aplicable(b, modo, f, hoy) <==> Aplicable(m, modo, f, hoy)
  {
    if f.codigo in b.unidades {
      var u := b.unidades[f.codigo].id;
      var vs, ws := b.padron.vinculos, m.padron.vinculos;
      assert forall i | 0 <= i < |ws| :: Abierto(ws[i], u) <==> i < |vs| && Abierto(vs[i], u);
      assert PuedeCerrar(vs, u, None, hoy) <==> PuedeCerrar(ws, u, None, hoy);
    }
  }

  /** A step that touches only the last row's code keeps the rest of the building as it was. */
  lemma SoloNombradasMas(b: Base, m: Base, m': Base, filas: seq<Fila>)
    requires filas != [] && filas[|filas| - 1].valida && BaseOk(b)
    requires SoloNombradas(b, m, filas[..|filas| - 1]) && BaseOk(m') && m.proxima <= m'.proxima
    requires forall c | c != filas[|filas| - 1].codigo :: Intacta(m.unidades, m'.unidades, c)
    requires forall c | c in m.unidades && c != filas[|filas| - 1].codigo ::
      MismosAbiertos(m.padron.vinculos, m'.padron.vinculos, m.unidades[c].id)
    ensures SoloNombradas(b, m', filas)
  {
    var n := |filas| - 1;
    forall c | !Nombra(filas, c) ensures Intacta(b.unidades, m'.unidades, c) {
      NombraPrefijo(filas, c);
      assert Intacta(b.unidades, m.unidades, c) && Intacta(m.unidades, m'.unidades, c);
    }
    forall c | c in b.unidades && !Nombra(filas, c)
      ensures MismosAbiertos(b.padron.vinculos, m'.padron.vinculos, b.unidades[c].id)
    {
      NombraPrefijo(filas, c);
      assert Intacta(b.unidades, m.unidades, c);
      MismosAbiertosTransitiva(b.padron.vinculos, m.padron.vinculos, m'.padron.vinculos, b.unidades[c].id);
    }
  }

  lemma SoloNombradasIgual(b: Base, m: Base, filas: seq<Fila>)
    requires filas != [] && SoloNombradas(b, m, filas[..|filas| - 1])
    ensures SoloNombradas(b, m, filas)
  {
    forall c ensures Nombra(filas[..|filas| - 1], c) ==> Nombra(filas, c) {
      NombraPrefijo(filas, c);
    }
  }

  lemma UnaCreada(b: Base, s: Resumen, modo: Modo, filas: seq<Fila>, hoy: int)
    requires filas != [] && CodigosDistintos(filas) && BaseOk(b) && filas[|filas| - 1].valida
    requires SoloNombradas(b, s.base, filas[..|filas| - 1])
    requires DestinoDe(modo, s.base.unidades, filas[|filas| - 1]) == Creada
    ensures var f := filas[|filas| - 1]; var r := CrearFila(s.base, f, hoy);
      && (r.Ok? <==> Aplicable(s.base, modo, f, hoy))
      && (r.Ok? ==> SoloNombradas(b, r.value, filas))
  {
    var f, m := filas[|filas| - 1], s.base;
    CrearFilaFunciona(m, f, hoy);
    if CrearFila(m, f, hoy).Ok? { SoloNombradasMas(b, m, CrearFila(m, f, hoy).value, filas); }
  }

  lemma UnaActualizada(b: Base, s: Resumen, modo: Modo, filas: seq<Fila>, hoy: int)
    requires filas != [] && CodigosDistintos(filas) && BaseOk(b) && filas[|filas| - 1].valida
    requires SoloNombradas(b, s.base, filas[..|filas| - 1])
    requires DestinoDe(modo, s.base.unidades, filas[|filas| - 1]) == Actualizada
    ensures var f := filas[|filas| - 1]; var r := ActualizarFila(s.base, f, hoy);
      && (r.Ok? <==> Aplicable(s.base, modo, f, hoy))
      && (r.Ok? ==> SoloNombradas(b, r.value, filas))
  {
    var f, m := filas[|filas| - 1], s.base;
    ActualizarFilaFunciona(m, f, hoy);
    if ActualizarFila(m, f, hoy).Ok? { SoloNombradasMas(b, m, ActualizarFila(m, f, hoy).value, filas); }
  }

  lemma UnaFunciona(b: Base, s: Resumen, modo: Modo, filas: seq<Fila>, hoy: int)
    requires filas != [] && CodigosDistintos(filas) && BaseOk(b)
    requires SoloNombradas(b, s.base, filas[..|filas| - 1])
    ensures var f := filas[|filas| - 1]; var r := ProcesarUna(s, modo, f, hoy);
      && (r.Ok? <==> !f.valida || Aplicable(b, modo, f, hoy))
      && (r.Ok? ==> SoloNombradas(b, r.value.base, filas))
  {
    var f, m := filas[|filas| - 1], s.base;
    SoloNombradasIgual(b, m, filas);
    if f.valida {
      NoNombrada(filas);
      assert Intacta(b.unidades, m.unidades, f.codigo);
      AplicableIgual(b, m, modo, f, hoy);
      match DestinoDe(modo, m.unidades, f)
      case Rechazada =>
      case Creada => UnaCreada(b, s, modo, filas, hoy);
      case Actualizada => UnaActualizada(b, s, modo, filas, hoy);
    }
  }

  ghost predicate Aplican(b: Base, modo: Modo, filas: seq<Fila>, hoy: int) {
    forall i | 0 <= i < |filas| && filas[i].valida :: Aplicable(b, modo, filas[i], hoy)
  }

  lemma AplicanUnaMas(b: Base, modo: Modo, filas: seq<Fila>, hoy: int)
    requires filas != []
    ensures var n := |filas| - 1;
      Aplican(b, modo, filas, hoy) <==> Aplican(b, modo, filas[..n], hoy) && (!filas[n].valida || Aplicable(b, modo, filas[n], hoy))
  {
    var n := |filas| - 1;
    assert forall i | 0 <= i < n :: filas[..n][i] == filas[i];
    if Aplican(b, modo, filas, hoy) {
      forall i | 0 <= i < n && filas[..n][i].valida ensures Aplicable(b, modo, filas[..n][i], hoy) {
        assert filas[i].valida && Aplicable(b, modo, filas[i], hoy);
      }
    }
  }

  lemma {:induction false} ProcesarSi(b: Base, modo: Modo, filas: seq<Fila>, errores: seq<ErrorFila>, hoy: int)
    requires CodigosDistintos(filas) && BaseOk(b)
    ensures Procesar(b, modo, filas, errores, hoy).Ok? <==> Aplican(b, modo, filas, hoy)
    ensures Procesar(b, modo, filas, errores, hoy).Ok? ==>
      SoloNombradas(b, Procesar(b, modo, filas, errores, hoy).value.base, filas)
  {
    if filas != [] {
      var n := |filas| - 1;
      DistintosPrefijo(filas, n);
      ProcesarSi(b, modo, filas[..n], errores, hoy);
      AplicanUnaMas(b, modo, filas, hoy);
      var r := Procesar(b, modo, filas[..n], errores, hoy);
      if r.Ok? {
        UnaFunciona(b, r.value, modo, filas, hoy);
      }
    }
  }

  /** A confirmation goes through exactly when every valid row is applicable to the building as it was
      before the import: rows with distinct codes neither help nor hinder one another. In particular a
      row that would create a unit without a coefficient passes the preview and fails the whole import. */
  lemma ProcesarFunciona(b: Base, modo: Modo, filas: seq<Fila>, errores: seq<ErrorFila>, hoy: int)
    requires CodigosDistintos(filas) && BaseOk(b)
    ensures Procesar(b, modo, filas, errores, hoy).Ok? <==>
      forall i | 0 <= i < |filas| && filas[i].valida :: Aplicable(b, modo, filas[i], hoy)
    ensures Procesar(b, modo, filas, errores, hoy).Ok? ==>
      SoloNombradas(b, Procesar(b, modo, filas, errores, hoy).value.base, filas)
  {
    ProcesarSi(b, modo, filas, errores, hoy);
  }

  // ---------- The order of the rows does not matter ----------

  ghost predicate MismosDatos(u: Unidad, v: Unidad) {
    u.tipo == v.tipo && u.superficie == v.superficie && u.coef == v.coef && u.estado == v.estado
  }

  lemma NombraPermutada(filas: seq<Fila>, otras: seq<Fila>, c: string)
    requires multiset(filas) == multiset(otras) && Nombra(filas, c)
    ensures Nombra(otras, c)
  {
    var i :| 0 <= i < |filas| && filas[i].valida && filas[i].codigo == c;
    assert filas[i] in multiset(otras);
    var j :| 0 <= j < |otras| && otras[j] == filas[i];
  }

  lemma MezclaUnica(modo: Modo, antes: map<string, Unidad>, filas: seq<Fila>, otras: seq<Fila>, r: map<string, Unidad>, s: map<string, Unidad>, c: string)
    requires multiset(filas) == multiset(otras)
    requires EsMezcla(modo, antes, filas, r) && EsMezcla(modo, antes, otras, s)
    ensures (c in r <==> c in s) && (c in r && c in s ==> MismosDatos(r[c], s[c]))
  {
    if Nombra(filas, c) {
      var i :| 0 <= i < |filas| && filas[i].valida && filas[i].codigo == c;
      assert filas[i] in multiset(otras);
      var j :| 0 <= j < |otras| && otras[j] == filas[i];
      assert FilaAplicada(modo, antes, r, filas[i]) && FilaAplicada(modo, antes, s, otras[j]);
    } else if Nombra(otras, c) {
      NombraPermutada(otras, filas, c);
    } else {
      assert Intacta(antes, r, c) && Intacta(antes, s, c);
    }
  }

  lemma TodasAplicables(b: Base, modo: Modo, filas: seq<Fila>, otras: seq<Fila>, hoy: int)
    requires multiset(filas) == multiset(otras)
    requires forall i | 0 <= i < |filas| && filas[i].valida :: Aplicable(b, modo, filas[i], hoy)
    ensures forall i | 0 <= i < |otras| && otras[i].valida :: Aplicable(b, modo, otras[i], hoy)
  {
    forall i | 0 <= i < |otras| && otras[i].valida ensures Aplicable(b, modo, otras[i], hoy) {
      assert otras[i] in multiset(filas);
      var j :| 0 <= j < |filas| && filas[j] == otras[i];
    }
  }

  lemma ExitoIndiferente(b: Base, modo: Modo, filas: seq<Fila>, otras: seq<Fila>, errores: seq<ErrorFila>, hoy: int)
    requires BaseOk(b) && multiset(filas) == multiset(otras) && CodigosDistintos(filas) && CodigosDistintos(otras)
    requires Procesar(b, modo, filas, errores, hoy).Ok?
    ensures Procesar(b, modo, otras, errores, hoy).Ok?
  {
    ProcesarFunciona(b, modo, filas, errores, hoy);
    ProcesarFunciona(b, modo, otras, errores, hoy);
    TodasAplicables(b, modo, filas, otras, hoy);
  }

  /** The same rows in another order go through alike, and leave the same units. */
  lemma OrdenIndiferente(b: Base, modo: Modo, filas: seq<Fila>, otras: seq<Fila>, errores: seq<ErrorFila>, hoy: int, c: string)
    requires BaseOk(b) && multiset(filas) == multiset(otras) && CodigosDistintos(filas) && CodigosDistintos(otras)
    requires Procesar(b, modo, filas, errores, hoy).Ok?
    ensures Procesar(b, modo, otras, errores, hoy).Ok?
    ensures var r := Procesar(b, modo, filas, errores, hoy).value.base.unidades;
      var s := Procesar(b, modo, otras, errores, hoy).value.base.unidades;
      (c in r <==> c in s) && (c in r && c in s ==> MismosDatos(r[c], s[c]))
  {
    ExitoIndiferente(b, modo, filas, otras, errores, hoy);
    ProcesarEsMezcla(b, modo, filas, errores, hoy);
    ProcesarEsMezcla(b, modo, otras, errores, hoy);
    MezclaUnica(modo, b.unidades, filas, otras, Procesar(b, modo, filas, errores, hoy).value.base.unidades,
                Procesar(b, modo, otras, errores, hoy).value.base.unidades, c);
  }
}
