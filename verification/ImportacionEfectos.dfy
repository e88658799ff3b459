/** What an import leaves for each record of its file: when the record is accepted, the unit at its code, and the link of the
    person it names (internal/consorcios/imports.go). */
module ImportacionEfectos {
  import opened Comun
  import opened Texto
  import opened Vinculos
  import opened Importacion
  import opened ImportacionNumeros
  import opened ImportacionMezcla
  import opened ImportacionTrabajos

  // ---------- When a record is accepted ----------

  ghost predicate NumeroDe(s: string, decimales: nat) {
    exists e, d :: Escrito(s, e, d) && |d| <= decimales
  }

  /** A percentage from 0 to 100 with up to two decimals. */
  ghost predicate Porcentaje(s: string) {
    exists e, d :: Escrito(s, e, d) && |d| <= 2 && Numero(e, d) <= 100.0
  }

  ghost predicate PersonaBien(r: Registro) {
    && 1 <= |r.nombre| && Bytes(r.nombre) <= 200
    && r.vinculo in ["", "propietario", "inquilino", "apoderado"]
    && (r.porcentaje == "" || Porcentaje(r.porcentaje))
  }

  ghost predicate UnidadBien(r: Registro) {
    && 1 <= |r.codigo| && Bytes(r.codigo) <= 50
    && r.tipo in ["departamento", "cochera", "local", "unidad_edificio", "otros"]
    && r.superficie != Ilegible && (r.superficie.Valor? ==> r.superficie.m2 >= 0.0)
    && (r.coef == "" || NumeroDe(r.coef, 8))
  }

  lemma EscritoUnico(s: string, e: string, d: string, e': string, d': string)
    requires Escrito(s, e, d) && Escrito(s, e', d')
    ensures e == e' && d == d'
  {
    EscritoPartes(s, e, d);
    EscritoPartes(s, e', d');
  }

  lemma PorcentajeSi(s: string)
    ensures Porcentaje(s) <==> EsDecimal(s, 2) && !MasDeCien(s)
  {
    EsDecimalSi(s, 2);
    if e, d :| Escrito(s, e, d) && |d| <= 2 {
      MasDeCienSi(s, e, d);
      forall e', d' | Escrito(s, e', d') && |d'| <= 2 && Numero(e', d') <= 100.0 ensures e == e' && d == d' {
        EscritoUnico(s, e, d, e', d');
      }
    }
  }

  lemma PersonaBienSi(r: Registro)
    ensures PersonaBien(r) <==>
      !(r.nombre == "" || Bytes(r.nombre) > 200) && EsVinculo(VinculoDe(r))
      && !(r.porcentaje != "" && (!EsDecimal(r.porcentaje, 2) || MasDeCien(r.porcentaje)))
  {
    PorcentajeSi(r.porcentaje);
  }

  /** A record passes the preview if and only if its unit is right, no earlier record has its code, and any person it names is right. */
  lemma PasaSi(rs: seq<Registro>, i: nat)
    requires i < |rs|
    ensures var r := rs[i];
      PasaLaRevision(rs, i) <==>
        && UnidadBien(r) && (forall j | 0 <= j < i :: rs[j].codigo != r.codigo)
        && (|r.nombre| > 0 || |r.documento| > 0 || |r.email| > 0 || |r.telefono| > 0 ==> PersonaBien(r))
  {
    CodigosVistos(rs, i, rs[i].codigo);
    EsDecimalSi(rs[i].coef, 8);
    PersonaBienSi(rs[i]);
  }

  function Si(falta: bool, c: Campo): seq<Campo> {
    if falta then [c] else []
  }

  lemma EnSi(falta: bool, c: Campo, x: Campo)
    ensures x in Si(falta, c) <==> falta && x == c
  {
  }

  /** The four checks of the unit, then the three of the person. */
  function Lista(u1: bool, u2: bool, u3: bool, u4: bool, p1: bool, p2: bool, p3: bool): seq<Campo> {
    Si(u1, EnCodigo) + Si(u2, EnTipo) + Si(u3, EnSuperficie) + Si(u4, EnCoeficiente)
    + (Si(p1, EnNombre) + Si(p2, EnVinculo) + Si(p3, EnPorcentaje))
  }

  lemma ListaTiene(u1: bool, u2: bool, u3: bool, u4: bool, p1: bool, p2: bool, p3: bool, x: Campo)
    ensures x in Lista(u1, u2, u3, u4, p1, p2, p3) <==>
      match x
      case EnCodigo => u1
      case EnTipo => u2
      case EnSuperficie => u3
      case EnCoeficiente => u4
      case EnNombre => p1
      case EnVinculo => p2
      case EnPorcentaje => p3
  {
    EnSi(u1, EnCodigo, x);
    EnSi(u2, EnTipo, x);
    EnSi(u3, EnSuperficie, x);
    EnSi(u4, EnCoeficiente, x);
    EnSi(p1, EnNombre, x);
    EnSi(p2, EnVinculo, x);
    EnSi(p3, EnPorcentaje, x);
  }

  predicate NombraPersona(r: Registro) {
    |r.nombre| > 0 || |r.documento| > 0 || |r.email| > 0 || |r.telefono| > 0
  }

  /** What is wrong with a field, if anything. */
  ghost predicate Mal(rs: seq<Registro>, i: nat, c: Campo)
    requires i < |rs|
  {
    var r := rs[i];
    match c
    case EnCodigo => |r.codigo| == 0 || Bytes(r.codigo) > 50 || exists j | 0 <= j < i :: rs[j].codigo == r.codigo
    case EnTipo => r.tipo !in ["departamento", "cochera", "local", "unidad_edificio", "otros"]
    case EnSuperficie => r.superficie == Ilegible || (r.superficie.Valor? && r.superficie.m2 < 0.0)
    case EnCoeficiente => |r.coef| > 0 && !NumeroDe(r.coef, 8)
    case EnNombre => NombraPersona(r) && (|r.nombre| == 0 || Bytes(r.nombre) > 200)
    case EnVinculo => NombraPersona(r) && r.vinculo !in ["", "propietario", "inquilino", "apoderado"]
    case EnPorcentaje => NombraPersona(r) && |r.porcentaje| > 0 && !Porcentaje(r.porcentaje)
  }

  /** The same as the code checks it. */
  predicate Falta(r: Registro, repetido: bool, c: Campo) {
    match c
    case EnCodigo => !CodigoAceptable(r.codigo) || repetido
    case EnTipo => !EsTipo(r.tipo)
    case EnSuperficie => MedidaMala(r.superficie)
    case EnCoeficiente => r.coef != "" && !EsDecimal(r.coef, 8)
    case EnNombre => NombraPersona(r) && (r.nombre == "" || Bytes(r.nombre) > 200)
    case EnVinculo => NombraPersona(r) && !EsVinculo(VinculoDe(r))
    case EnPorcentaje => NombraPersona(r) && r.porcentaje != "" && (!EsDecimal(r.porcentaje, 2) || MasDeCien(r.porcentaje))
  }

  lemma CamposSonLista(r: Registro, repetido: bool)
    ensures CamposConError(r, repetido)
      == Lista(Falta(r, repetido, EnCodigo), Falta(r, repetido, EnTipo), Falta(r, repetido, EnSuperficie), Falta(r, repetido, EnCoeficiente),
               Falta(r, repetido, EnNombre), Falta(r, repetido, EnVinculo), Falta(r, repetido, EnPorcentaje))
  {
  }

  lemma CamposFaltan(r: Registro, repetido: bool, c: Campo)
    ensures c in CamposConError(r, repetido) <==> Falta(r, repetido, c)
  {
    CamposSonLista(r, repetido);
    ListaTiene(Falta(r, repetido, EnCodigo), Falta(r, repetido, EnTipo), Falta(r, repetido, EnSuperficie), Falta(r, repetido, EnCoeficiente),
               Falta(r, repetido, EnNombre), Falta(r, repetido, EnVinculo), Falta(r, repetido, EnPorcentaje), c);
  }

  /** The preview reports a field exactly when it is wrong. */
  lemma CamposSi(rs: seq<Registro>, i: nat, c: Campo)
    requires i < |rs|
    ensures c in CamposConError(rs[i], Repetido(rs, i)) <==> Mal(rs, i, c)
  {
    CamposFaltan(rs[i], Repetido(rs, i), c);
    CodigosVistos(rs, i, rs[i].codigo);
    EsDecimalSi(rs[i].coef, 8);
    PorcentajeSi(rs[i].porcentaje);
  }

  /** The row kept for a record carries its own fields; the role and percentage only with a person. */
  lemma FilaDice(rs: seq<Registro>, i: nat)
    requires i < |rs|
    ensures var r, f := rs[i], FilaDe(rs, i);
      var persona := |r.nombre| > 0 || |r.documento| > 0 || |r.email| > 0 || |r.telefono| > 0;
      && f.num == i + 2 && f.codigo == r.codigo && f.tipo == r.tipo && f.coef == r.coef
      && f.nombre == r.nombre && f.documento == r.documento && f.email == r.email && f.telefono == r.telefono
      && f.vinculo == (if !persona then "" else if |r.vinculo| == 0 then "propietario" else r.vinculo)
      && f.porcentaje == (if persona && |r.porcentaje| > 0 then Some(r.porcentaje) else None)
      && f.superficie == (if r.superficie.Valor? && r.superficie.m2 >= 0.0 then Some(r.superficie.m2) else None)
      && (f.valida <==> PasaLaRevision(rs, i))
  {
  }

  // ---------- The unit at its code ----------

  /** The coefficient a record gives is the stored one: as many hundred millionths as the number written. */
  ghost predicate CoefEscrito(coef: nat, s: string) {
    forall e, d | Escrito(s, e, d) && |d| <= 8 :: coef as real == Numero(e, d) * 100000000.0
  }

  ghost predicate SuperficieDe(s: Option<real>, r: Registro, antes: Option<real>) {
    s == match r.superficie
         case Valor(m2) => Some(m2)
         case SinDato => antes
         case Ilegible => antes
  }

  /** A unit created from a record holds what the record says and is active. */
  ghost predicate CreadaDelRegistro(u: Unidad, r: Registro) {
    && u.tipo == r.tipo && u.estado == "activa" && SuperficieDe(u.superficie, r, None)
    && NumeroDe(r.coef, 8) && CoefEscrito(u.coef, r.coef)
  }

  /** A unit updated from a record keeps its id and its state, and any surface or coefficient the record leaves blank. */
  ghost predicate ActualizadaDelRegistro(u: Unidad, antes: Unidad, r: Registro) {
    && u.id == antes.id && u.estado == antes.estado && u.tipo == r.tipo && SuperficieDe(u.superficie, r, antes.superficie)
    && (if r.coef == "" then u.coef == antes.coef else NumeroDe(r.coef, 8) && CoefEscrito(u.coef, r.coef))
  }

  lemma CoefEscritoSi(s: string, coef: nat)
    requires LeerCoef(s) == Some(coef)
    ensures NumeroDe(s, 8) && CoefEscrito(coef, s)
  {
    CoefLegibleSi(s);
    forall e, d | Escrito(s, e, d) && |d| <= 8 ensures coef as real == Numero(e, d) * 100000000.0 {
      CoefEsElValor(s, e, d);
    }
  }

  lemma CreadaSi(u: Unidad, rs: seq<Registro>, i: nat)
    requires i < |rs| && PasaLaRevision(rs, i) && CreadaDe(u, FilaDe(rs, i))
    ensures CreadaDelRegistro(u, rs[i])
  {
    CoefEscritoSi(rs[i].coef, u.coef);
  }

  lemma ActualizadaSi(antes: Unidad, rs: seq<Registro>, i: nat)
    requires i < |rs| && PasaLaRevision(rs, i)
    ensures ActualizadaDelRegistro(ConCambios(antes, FilaDe(rs, i)), antes, rs[i])
  {
    var r := rs[i];
    CoefLegible(r.coef);
    if r.coef != "" {
      CoefEscritoSi(r.coef, LeerCoef(r.coef).value);
    }
  }

  /** What a successful import leaves at the code of an accepted record: with a unit already there, that unit, updated unless the
      mode only creates; with none, a new unit unless the mode only updates. */
  ghost predicate EnSuCodigo(modo: Modo, antes: map<string, Unidad>, despues: map<string, Unidad>, r: Registro) {
    if r.codigo in antes then
      r.codigo in despues
      && if modo == Modo.Crear then despues[r.codigo] == antes[r.codigo]
         else ActualizadaDelRegistro(despues[r.codigo], antes[r.codigo], r)
    else if modo == Modo.Actualizar then r.codigo !in despues
    else r.codigo in despues && CreadaDelRegistro(despues[r.codigo], r)
  }

  lemma UnRegistroAplicado(modo: Modo, antes: map<string, Unidad>, despues: map<string, Unidad>, rs: seq<Registro>, i: nat)
    requires i < |rs| && PasaLaRevision(rs, i) && FilaAplicada(modo, antes, despues, FilaDe(rs, i))
    ensures EnSuCodigo(modo, antes, despues, rs[i])
  {
    var c := rs[i].codigo;
    if c in antes {
      ActualizadaSi(antes[c], rs, i);
    } else if modo != Modo.Actualizar {
      CreadaSi(despues[c], rs, i);
    }
  }

  /** From the file to the table of units: every accepted record has its effect, and no other code is touched. */
  lemma RegistrosAplicados(b: Base, modo: Modo, rs: seq<Registro>, hoy: int)
    requires BaseOk(b) && Procesar(b, modo, FilasDe(rs), ErroresDe(rs, |rs|), hoy).Ok?
    ensures var despues := Procesar(b, modo, FilasDe(rs), ErroresDe(rs, |rs|), hoy).value.base.unidades;
      && (forall i | 0 <= i < |rs| && PasaLaRevision(rs, i) :: EnSuCodigo(modo, b.unidades, despues, rs[i]))
      && (forall c | (forall i | 0 <= i < |rs| && PasaLaRevision(rs, i) :: rs[i].codigo != c) :: Intacta(b.unidades, despues, c))
  {
    var despues := Procesar(b, modo, FilasDe(rs), ErroresDe(rs, |rs|), hoy).value.base.unidades;
    ImportacionSi(b, modo, rs, hoy);
    FilasSonFilas(rs);
    forall i | 0 <= i < |rs| && PasaLaRevision(rs, i) ensures EnSuCodigo(modo, b.unidades, despues, rs[i]) {
      assert FilasDe(rs)[i].valida;
      UnRegistroAplicado(modo, b.unidades, despues, rs, i);
    }
    forall c | (forall i | 0 <= i < |rs| && PasaLaRevision(rs, i) :: rs[i].codigo != c) ensures Intacta(b.unidades, despues, c) {
      if Nombra(FilasDe(rs), c) {
        var i :| 0 <= i < |FilasDe(rs)| && FilasDe(rs)[i].valida && FilasDe(rs)[i].codigo == c;
        assert PasaLaRevision(rs, i);
      }
    }
  }

  // ---------- The link of its person ----------

  /** The person is the one named: the one with that document, or, without a document, a new one with the row's own data. */
  ghost predicate EsLaPersona(p: Persona, r: Registro) {
    if |r.documento| == 0 then p == Persona(r.nombre, r.documento, r.email, r.telefono) else p.documento == r.documento
  }

  /** The unit's one open link is the `k`-th: the record's person, role and percentage, from today. */
  ghost predicate UnicoVinculo(p: Padron, u: nat, k: int, r: Registro, hoy: int) {
    && 0 <= k < |p.vinculos|
    && (forall x | 0 <= x < |p.vinculos| :: Abierto(p.vinculos[x], u) <==> x == k)
    && var v := p.vinculos[k];
       && v.rol == (if |r.vinculo| == 0 then "propietario" else r.vinculo) && v.desde == hoy
       && v.porcentaje == (if |r.porcentaje| == 0 then None else Some(r.porcentaje))
       && v.persona < |p.personas| && EsLaPersona(p.personas[v.persona], r)
  }

  ghost predicate Vinculado(b: Base, r: Registro, hoy: int) {
    r.codigo in b.unidades && exists k :: UnicoVinculo(b.padron, b.unidades[r.codigo].id, k, r, hoy)
  }

  /** The link attached for row `i` of the file. */
  function AltaDelRegistro(rs: seq<Registro>, i: nat, hoy: int): Alta
    requires i < |rs|
  {
    AltaDe(FilaDe(rs, i), hoy)
  }

  lemma AdjuntarVincula(p: Padron, u: nat, rs: seq<Registro>, i: nat, hoy: int)
    requires i < |rs| && DeclaraPersona(rs[i]) && AdjuntarPaso(p, u, AltaDelRegistro(rs, i, hoy), hoy).Ok?
    requires forall x | 0 <= x < |p.vinculos| :: !Abierto(p.vinculos[x], u)
    ensures UnicoVinculo(AdjuntarPaso(p, u, AltaDelRegistro(rs, i, hoy), hoy).value, u, |p.vinculos|, rs[i], hoy)
  {
    BuscarEncuentra(p.personas, rs[i].documento);
  }

  lemma ReemplazarVincula(p: Padron, u: nat, rs: seq<Registro>, i: nat, hoy: int)
    requires i < |rs| && DeclaraPersona(rs[i]) && ReemplazarPaso(p, u, AltaDelRegistro(rs, i, hoy), hoy).Ok?
    ensures UnicoVinculo(ReemplazarPaso(p, u, AltaDelRegistro(rs, i, hoy), hoy).value, u, |p.vinculos|, rs[i], hoy)
  {
    var cerrado := p.(vinculos := Cerrar(p.vinculos, u, None, hoy));
    assert forall x | 0 <= x < |cerrado.vinculos| :: !Abierto(cerrado.vinculos[x], u);
    AdjuntarVincula(cerrado, u, rs, i, hoy);
  }

  /** The step of an accepted record that names a person, unless it is rejected. */
  lemma UnaVinculada(s: Resumen, modo: Modo, rs: seq<Registro>, i: nat, hoy: int)
    requires i < |rs| && PasaLaRevision(rs, i) && DeclaraPersona(rs[i]) && BaseOk(s.base)
    requires ProcesarUna(s, modo, FilaDe(rs, i), hoy).Ok? && DestinoDe(modo, s.base.unidades, FilaDe(rs, i)) != Rechazada
    ensures Vinculado(ProcesarUna(s, modo, FilaDe(rs, i), hoy).value.base, rs[i], hoy)
  {
    var f, b := FilaDe(rs, i), s.base;
    var m := ProcesarUna(s, modo, f, hoy).value.base;
    assert TienePersona(f);
    if f.codigo in b.unidades {
      var u := b.unidades[f.codigo].id;
      ReemplazarVincula(b.padron, u, rs, i, hoy);
      assert UnicoVinculo(m.padron, u, |b.padron.vinculos|, rs[i], hoy);
    } else {
      AdjuntarVincula(b.padron, b.proxima, rs, i, hoy);
      assert UnicoVinculo(m.padron, b.proxima, |b.padron.vinculos|, rs[i], hoy);
    }
  }

  /** What one row leaves alone: the people, the other codes, and their units' open links. */
  ghost predicate Respeta(b: Base, m: Base, codigo: string) {
    && BaseOk(m) && b.padron.personas <= m.padron.personas
    && forall c | c in b.unidades && c != codigo ::
         c in m.unidades && m.unidades[c] == b.unidades[c] && MismosAbiertos(b.padron.vinculos, m.padron.vinculos, b.unidades[c].id)
  }

  lemma CrearRespeta(b: Base, f: Fila, hoy: int)
    requires BaseOk(b) && CrearFila(b, f, hoy).Ok?
    ensures Respeta(b, CrearFila(b, f, hoy).value, f.codigo)
  {
    CrearFilaFunciona(b, f, hoy);
  }

  lemma ActualizarRespeta(b: Base, f: Fila, hoy: int)
    requires BaseOk(b) && f.codigo in b.unidades && ActualizarFila(b, f, hoy).Ok?
    ensures Respeta(b, ActualizarFila(b, f, hoy).value, f.codigo)
  {
    ActualizarFilaFunciona(b, f, hoy);
  }

  lemma NadaRespeta(b: Base, codigo: string)
    requires BaseOk(b)
    ensures Respeta(b, b, codigo)
  {
  }

  lemma ProcesarUnaRespeta(s: Resumen, modo: Modo, f: Fila, hoy: int)
    requires BaseOk(s.base) && ProcesarUna(s, modo, f, hoy).Ok?
    ensures Respeta(s.base, ProcesarUna(s, modo, f, hoy).value.base, f.codigo)
  {
    if !f.valida || DestinoDe(modo, s.base.unidades, f) == Rechazada {
      NadaRespeta(s.base, f.codigo);
    } else if f.codigo in s.base.unidades {
      ActualizarRespeta(s.base, f, hoy);
    } else {
      CrearRespeta(s.base, f, hoy);
    }
  }

  lemma SigueVinculado(b: Base, m: Base, codigo: string, r: Registro, hoy: int)
    requires Vinculado(b, r, hoy) && Respeta(b, m, codigo) && r.codigo != codigo
    ensures Vinculado(m, r, hoy)
  {
    var u := b.unidades[r.codigo].id;
    var k :| UnicoVinculo(b.padron, u, k, r, hoy);
    var vs, ws := b.padron.vinculos, m.padron.vinculos;
    assert MismosAbiertos(vs, ws, u);
    assert Abierto(vs[k], u) && ws[k] == vs[k];
    forall x | 0 <= x < |ws| ensures Abierto(ws[x], u) <==> x == k {
      assert Abierto(ws[x], u) <==> x < |vs| && Abierto(vs[x], u);
    }
    assert UnicoVinculo(m.padron, u, k, r, hoy);
  }

  /** The record reaches a unit: it creates one or updates the one there is. */
  ghost predicate LlegaAUnidad(modo: Modo, us: map<string, Unidad>, r: Registro) {
    if r.codigo in us then modo != Modo.Crear else modo != Modo.Actualizar
  }

  ghost predicate Vinculados(b: Base, m: Base, modo: Modo, rs: seq<Registro>, n: nat, hoy: int)
    requires n <= |rs|
  {
    forall i | 0 <= i < n && PasaLaRevision(rs, i) && DeclaraPersona(rs[i]) && LlegaAUnidad(modo, b.unidades, rs[i]) ::
      Vinculado(m, rs[i], hoy)
  }

  lemma VinculadosUnoMas(b: Base, s: Resumen, modo: Modo, rs: seq<Registro>, n: nat, hoy: int)
    requires n < |rs| && BaseOk(s.base) && ProcesarUna(s, modo, FilaDe(rs, n), hoy).Ok?
    requires PasaLaRevision(rs, n) ==> Intacta(b.unidades, s.base.unidades, rs[n].codigo)
    requires Vinculados(b, s.base, modo, rs, n, hoy)
    ensures Vinculados(b, ProcesarUna(s, modo, FilaDe(rs, n), hoy).value.base, modo, rs, n + 1, hoy)
  {
    var m := ProcesarUna(s, modo, FilaDe(rs, n), hoy).value.base;
    forall i | 0 <= i <= n && PasaLaRevision(rs, i) && DeclaraPersona(rs[i]) && LlegaAUnidad(modo, b.unidades, rs[i])
      ensures Vinculado(m, rs[i], hoy)
    {
      if i == n {
        UnaVinculada(s, modo, rs, n, hoy);
      } else if PasaLaRevision(rs, n) {
        CodigosVistos(rs, n, rs[n].codigo);
        ProcesarUnaRespeta(s, modo, FilaDe(rs, n), hoy);
        SigueVinculado(s.base, m, rs[n].codigo, rs[i], hoy);
      }
    }
  }

  lemma FilasPrefijo(rs: seq<Registro>, n: nat)
    requires 0 < n <= |rs|
    ensures var filas := FilasDe(rs)[..n];
      && CodigosDistintos(filas) && filas[..n - 1] == FilasDe(rs)[..n - 1] && CodigosDistintos(filas[..n - 1])
      && filas[n - 1] == FilaDe(rs, n - 1)
  {
    FilasSonFilas(rs);
    RevisionGarantiza(rs);
    DistintosPrefijo(FilasDe(rs), n);
    DistintosPrefijo(FilasDe(rs), n - 1);
    assert FilasDe(rs)[..n][..n - 1] == FilasDe(rs)[..n - 1];
  }

  /** When the last row's turn comes, its code stands as before the import. */
  lemma UltimaIntacta(b: Base, modo: Modo, filas: seq<Fila>, errores: seq<ErrorFila>, hoy: int)
    requires filas != [] && BaseOk(b) && CodigosDistintos(filas) && CodigosDistintos(filas[..|filas| - 1])
    requires Procesar(b, modo, filas, errores, hoy).Ok?
    ensures var antes := Procesar(b, modo, filas[..|filas| - 1], errores, hoy); var f := filas[|filas| - 1];
      && antes.Ok? && BaseOk(antes.value.base) && Procesar(b, modo, filas, errores, hoy) == ProcesarUna(antes.value, modo, f, hoy)
      && (f.valida ==> Intacta(b.unidades, antes.value.base.unidades, f.codigo))
  {
    ProcesarFunciona(b, modo, filas[..|filas| - 1], errores, hoy);
    if filas[|filas| - 1].valida {
      NoNombrada(filas);
    }
  }

  /** The last of the first `n` rows, and the import up to it. */
  lemma HastaLaUltima(b: Base, modo: Modo, rs: seq<Registro>, n: nat, errores: seq<ErrorFila>, hoy: int)
    requires 0 < n <= |rs| && BaseOk(b) && Procesar(b, modo, FilasDe(rs)[..n], errores, hoy).Ok?
    ensures var antes := Procesar(b, modo, FilasDe(rs)[..n - 1], errores, hoy);
      && antes.Ok? && BaseOk(antes.value.base)
      && Procesar(b, modo, FilasDe(rs)[..n], errores, hoy) == ProcesarUna(antes.value, modo, FilaDe(rs, n - 1), hoy)
      && (PasaLaRevision(rs, n - 1) ==> Intacta(b.unidades, antes.value.base.unidades, rs[n - 1].codigo))
  {
    FilasPrefijo(rs, n);
    UltimaIntacta(b, modo, FilasDe(rs)[..n], errores, hoy);
    FilaDice(rs, n - 1);
  }

  lemma {:induction false} VinculadosHasta(b: Base, modo: Modo, rs: seq<Registro>, n: nat, errores: seq<ErrorFila>, hoy: int)
    requires n <= |rs| && BaseOk(b) && Procesar(b, modo, FilasDe(rs)[..n], errores, hoy).Ok?
    ensures Vinculados(b, Procesar(b, modo, FilasDe(rs)[..n], errores, hoy).value.base, modo, rs, n, hoy)
  {
    if n > 0 {
      HastaLaUltima(b, modo, rs, n, errores, hoy);
      VinculadosHasta(b, modo, rs, n - 1, errores, hoy);
      VinculadosUnoMas(b, Procesar(b, modo, FilasDe(rs)[..n - 1], errores, hoy).value, modo, rs, n - 1, hoy);
    }
  }

  /** After a successful import the unit of every accepted record that names a person, unless the mode rejects it, has one open link:
      that person's, in the role and with the percentage of the record, from today. */
  lemma PersonasVinculadas(b: Base, modo: Modo, rs: seq<Registro>, hoy: int)
    requires BaseOk(b) && Procesar(b, modo, FilasDe(rs), ErroresDe(rs, |rs|), hoy).Ok?
    ensures var m := Procesar(b, modo, FilasDe(rs), ErroresDe(rs, |rs|), hoy).value.base;
      forall i | 0 <= i < |rs| && PasaLaRevision(rs, i) && LlegaAUnidad(modo, b.unidades, rs[i])
                 && (|rs[i].nombre| > 0 || |rs[i].documento| > 0 || |rs[i].email| > 0 || |rs[i].telefono| > 0) ::
        Vinculado(m, rs[i], hoy)
  {
    FilasSonFilas(rs);
    assert FilasDe(rs)[..|rs|] == FilasDe(rs);
    VinculadosHasta(b, modo, rs, |rs|, ErroresDe(rs, |rs|), hoy);
  }

  lemma UnaNueva(s: Resumen, modo: Modo, f: Fila, hoy: int)
    requires ProcesarUna(s, modo, f, hoy).Ok?
    ensures var b, m := s.base, ProcesarUna(s, modo, f, hoy).value.base;
      && m.proxima >= b.proxima
      && (forall c | c in m.unidades && c !in b.unidades :: m.unidades[c].id == b.proxima)
      && (forall c | c in b.unidades :: c in m.unidades && m.unidades[c].id == b.unidades[c].id)
  {
  }

  /** A unit an import adds has an id no unit had, and the units there were keep theirs. */
  lemma {:induction false} IdsNuevas(b: Base, modo: Modo, filas: seq<Fila>, errores: seq<ErrorFila>, hoy: int)
    requires Procesar(b, modo, filas, errores, hoy).Ok?
    ensures var m := Procesar(b, modo, filas, errores, hoy).value.base;
      && m.proxima >= b.proxima
      && (forall c | c in m.unidades && c !in b.unidades :: m.unidades[c].id >= b.proxima)
      && (forall c | c in b.unidades :: c in m.unidades && m.unidades[c].id == b.unidades[c].id)
  {
    if filas != [] {
      IdsNuevas(b, modo, filas[..|filas| - 1], errores, hoy);
      UnaNueva(Procesar(b, modo, filas[..|filas| - 1], errores, hoy).value, modo, filas[|filas| - 1], hoy);
    }
  }
}
