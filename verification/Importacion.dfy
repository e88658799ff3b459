/** Importing units from a spreadsheet: checking the rows, and applying the valid ones under one of
    three modes (internal/consorcios/imports.go). */
module Importacion {
  import opened Comun
  import opened Texto

  /** A surface as strconv.ParseFloat reads it: not given, not a number, or a number. */
  datatype Medida = SinDato | Ilegible | Valor(m2: real)

  /** One record, each field already trimmed. */
  datatype Registro = Registro(
    codigo: string, tipo: string, superficie: Medida, coef: string, nombre: string,
    documento: string, email: string, telefono: string, vinculo: string, porcentaje: string)

  datatype Fila = Fila(
    num: nat, codigo: string, tipo: string, superficie: Option<real>, coef: string, nombre: string,
    documento: string, email: string, telefono: string, vinculo: string, porcentaje: Option<string>, valida: bool)

  datatype Campo = EnCodigo | EnTipo | EnSuperficie | EnCoeficiente | EnNombre | EnVinculo | EnPorcentaje

  /** The errors of one row: the fields at fault. */
  datatype ErrorFila = ErrorFila(num: nat, campos: seq<Campo>)

  datatype Modo = Crear | Actualizar | CrearYActualizar

  // ---------- Decimal fields ----------

  function Punto(s: string): nat
    ensures Punto(s) <= |s|
  {
    if s == [] || s[0] == '.' then 0 else 1 + Punto(s[1..])
  }

  /** Digits, optionally a point and between one and `decimales` digits more. */
  predicate EsDecimal(s: string, decimales: nat) {
    var k := Punto(s);
    k > 0 && SoloDigitos(s[..k]) && (k == |s| || (1 <= |s| - k - 1 <= decimales && SoloDigitos(s[k + 1..])))
  }

  /** The decimal point moved `k` places. */
  function MoverPunto(n: int, k: nat): int
    decreases k
  {
    if k == 0 then n else MoverPunto(10 * n, k - 1)
  }

  /** parseNumeric on a coefficient, in units of the eighth decimal; empty text is not a number. */
  function LeerCoef(s: string): Option<nat> {
    if !EsDecimal(s, 8) then None
    else
      var k := Punto(s);
      var n := if k == |s| then MoverPunto(LeerDecimal(s), 8)
               else MoverPunto(LeerDecimal(s[..k] + s[k + 1..]), 8 - (|s| - k - 1));
      if n < 0 then None else Some(n)
  }

  predicate MasDeCien(s: string) {
    EsDecimal(s, 2) && LeerCoef(s).Some? && LeerCoef(s).value > 10000000000
  }

  /** The column holds four digits before the point. */
  predicate CabeCoef(n: nat) {
    n < 1000000000000
  }

  // ---------- Checking the rows ----------

  predicate EsTipo(s: string) {
    s == "departamento" || s == "cochera" || s == "local" || s == "unidad_edificio" || s == "otros"
  }

  predicate EsVinculo(s: string) {
    s == "propietario" || s == "inquilino" || s == "apoderado"
  }

  predicate CodigoAceptable(s: string) {
    s != "" && Bytes(s) <= 50
  }

  predicate MedidaMala(m: Medida) {
    m.Ilegible? || (m.Valor? && m.m2 < 0.0)
  }

  predicate DeclaraPersona(r: Registro) {
    r.nombre != "" || r.documento != "" || r.email != "" || r.telefono != ""
  }

  function VinculoDe(r: Registro): string {
    if r.vinculo == "" then "propietario" else r.vinculo
  }

  /** A record's bad fields, given whether its code came earlier in the file. */
  function CamposConError(r: Registro, repetido: bool): seq<Campo> {
    (if !CodigoAceptable(r.codigo) || repetido then [EnCodigo] else [])
    + (if !EsTipo(r.tipo) then [EnTipo] else [])
    + (if MedidaMala(r.superficie) then [EnSuperficie] else [])
    + (if r.coef != "" && !EsDecimal(r.coef, 8) then [EnCoeficiente] else [])
    + (if !DeclaraPersona(r) then []
       else (if r.nombre == "" || Bytes(r.nombre) > 200 then [EnNombre] else [])
            + (if !EsVinculo(VinculoDe(r)) then [EnVinculo] else [])
            + (if r.porcentaje != "" && (!EsDecimal(r.porcentaje, 2) || MasDeCien(r.porcentaje)) then [EnPorcentaje] else []))
  }

  /** The codes of the first `n` records. */
  function Codigos(rs: seq<Registro>, n: nat): set<string>
    requires n <= |rs|
  {
    if n == 0 then {} else Codigos(rs, n - 1) + {rs[n - 1].codigo}
  }

  predicate Repetido(rs: seq<Registro>, i: nat)
    requires i < |rs|
  {
    rs[i].codigo in Codigos(rs, i)
  }

  /** A code is a repeat exactly when an earlier record has it. */
  lemma {:induction false} CodigosVistos(rs: seq<Registro>, n: nat, c: string)
    requires n <= |rs|
    ensures c in Codigos(rs, n) <==> exists j | 0 <= j < n :: rs[j].codigo == c
  {
    if n > 0 {
      CodigosVistos(rs, n - 1, c);
    }
  }

  /** Row `i` of the file; the first one after the heading is row 2. */
  function FilaDe(rs: seq<Registro>, i: nat): Fila
    requires i < |rs|
  {
    var r := rs[i];
    var persona := DeclaraPersona(r);
    Fila(i + 2, r.codigo, r.tipo,
         if r.superficie.Valor? && r.superficie.m2 >= 0.0 then Some(r.superficie.m2) else None,
         r.coef, r.nombre, r.documento, r.email, r.telefono,
         if persona then VinculoDe(r) else "",
         if persona && r.porcentaje != "" then Some(r.porcentaje) else None,
         |CamposConError(r, Repetido(rs, i))| == 0)
  }

  /** The rows of the first `n` records. */
  function FilasHasta(rs: seq<Registro>, n: nat): (filas: seq<Fila>)
    requires n <= |rs|
    ensures |filas| == n
  {
    if n == 0 then [] else FilasHasta(rs, n - 1) + [FilaDe(rs, n - 1)]
  }

  function FilasDe(rs: seq<Registro>): seq<Fila> {
    FilasHasta(rs, |rs|)
  }

  lemma {:induction false} FilaHasta(rs: seq<Registro>, n: nat, i: nat)
    requires i < n <= |rs|
    ensures FilasHasta(rs, n)[i] == FilaDe(rs, i)
  {
    if i < n - 1 {
      FilaHasta(rs, n - 1, i);
    }
  }

  /** Each record has its row. */
  lemma FilasSonFilas(rs: seq<Registro>)
    ensures |FilasDe(rs)| == |rs|
    ensures forall i | 0 <= i < |rs| :: FilasDe(rs)[i] == FilaDe(rs, i)
  {
    forall i | 0 <= i < |rs| ensures FilasDe(rs)[i] == FilaDe(rs, i) {
      FilaHasta(rs, |rs|, i);
    }
  }

  /** The error entry of row `i`, if it has any fault. */
  function ErrorDe(rs: seq<Registro>, i: nat): seq<ErrorFila>
    requires i < |rs|
  {
    var campos := CamposConError(rs[i], Repetido(rs, i));
    if |campos| == 0 then [] else [ErrorFila(i + 2, campos)]
  }

  function ErroresDe(rs: seq<Registro>, n: nat): seq<ErrorFila>
    requires n <= |rs|
  {
    if n == 0 then [] else ErroresDe(rs, n - 1) + ErrorDe(rs, n - 1)
  }

  /** One turn of the checking loop. */
  method RevisarFila(rs: seq<Registro>, i: nat, repetido: bool) returns (f: Fila, errores: seq<ErrorFila>)
    requires i < |rs| && repetido == Repetido(rs, i)
    ensures f == FilaDe(rs, i) && errores == ErrorDe(rs, i)
  {
    var r := rs[i];
    var campos := CamposConError(r, repetido);
    var superficie := None;
    if r.superficie.Valor? && r.superficie.m2 >= 0.0 {
      superficie := Some(r.superficie.m2);
    }
    var persona := DeclaraPersona(r);
    f := Fila(i + 2, r.codigo, r.tipo, superficie, r.coef, r.nombre, r.documento, r.email, r.telefono,
              if persona then VinculoDe(r) else "",
              if persona && r.porcentaje != "" then Some(r.porcentaje) else None, true);
    errores := [];
    if |campos| > 0 {
      f := f.(valida := false);
      errores := [ErrorFila(i + 2, campos)];
    }
  }

  /** The checking loop of parsePlantillaUFSCSV, with the set of codes already seen. */
  method RevisarFilas(rs: seq<Registro>) returns (filas: seq<Fila>, errores: seq<ErrorFila>)
    ensures filas == FilasDe(rs) && errores == ErroresDe(rs, |rs|)
  {
    var vistos: set<string> := {};
    filas, errores := [], [];
    for i := 0 to |rs|
      invariant vistos == Codigos(rs, i)
      invariant filas == FilasHasta(rs, i) && errores == ErroresDe(rs, i)
    {
      var f, faltas := RevisarFila(rs, i, rs[i].codigo in vistos);
      vistos := vistos + {rs[i].codigo};
      errores := errores + faltas;
      filas := filas + [f];
    }
  }

  function Invalidas(filas: seq<Fila>): nat {
    if filas == [] then 0 else Invalidas(filas[..|filas| - 1]) + if filas[|filas| - 1].valida then 0 else 1
  }

  ghost predicate CodigosDistintos(filas: seq<Fila>) {
    forall i, j | 0 <= i < j < |filas| && filas[i].valida && filas[j].valida :: filas[i].codigo != filas[j].codigo
  }

  /** What validateVinculo will ask of a row with a person. */
  predicate PersonaValida(f: Fila) {
    && f.nombre != "" && Bytes(f.nombre) <= 200 && EsVinculo(f.vinculo)
    && (f.porcentaje.Some? ==> EsDecimal(f.porcentaje.value, 2) && !MasDeCien(f.porcentaje.value))
  }

  predicate TienePersona(f: Fila) {
    f.nombre != "" || f.documento != "" || f.email != "" || f.telefono != ""
  }

  /** One more row and what it adds to the errors. */
  lemma UnaFilaMas(filas: seq<Fila>, f: Fila, errores: seq<ErrorFila>, faltas: seq<ErrorFila>, mas: seq<Fila>)
    requires |errores| == Invalidas(filas) && |faltas| == (if f.valida then 0 else 1) && mas == filas + [f]
    ensures |errores + faltas| == Invalidas(mas)
  {
    assert mas[..|mas| - 1] == filas;
  }

  lemma UnErrorPorFila(rs: seq<Registro>, i: nat)
    requires i < |rs|
    ensures |ErrorDe(rs, i)| == if FilaDe(rs, i).valida then 0 else 1
  {
  }

  lemma {:induction false} ContarErrores(rs: seq<Registro>, n: nat)
    requires n <= |rs|
    ensures |ErroresDe(rs, n)| == Invalidas(FilasHasta(rs, n))
  {
    if n > 0 {
      ContarErrores(rs, n - 1);
      UnErrorPorFila(rs, n - 1);
      UnaFilaMas(FilasHasta(rs, n - 1), FilaDe(rs, n - 1), ErroresDe(rs, n - 1),
                 ErrorDe(rs, n - 1), FilasHasta(rs, n));
    }
  }

  /** A row without faults has a code seen nowhere before and, if it names a person, one that passes again. */
  lemma FilaSinFaltas(rs: seq<Registro>, i: nat)
    requires i < |rs| && FilaDe(rs, i).valida
    ensures var f := FilaDe(rs, i);
      f.codigo == rs[i].codigo != "" && !Repetido(rs, i) && (TienePersona(f) ==> PersonaValida(f))
  {
  }

  /** What the preview guarantees the confirmation: valid rows have distinct codes, each invalid row
      has one error entry, and a valid row's person will pass validation again. */
  lemma RevisionGarantiza(rs: seq<Registro>)
    ensures |FilasDe(rs)| == |rs| && CodigosDistintos(FilasDe(rs))
    ensures |ErroresDe(rs, |rs|)| == Invalidas(FilasDe(rs))
    ensures forall i | 0 <= i < |rs| && FilasDe(rs)[i].valida ::
      FilasDe(rs)[i].codigo != "" && (TienePersona(FilasDe(rs)[i]) ==> PersonaValida(FilasDe(rs)[i]))
  {
    ContarErrores(rs, |rs|);
    FilasSonFilas(rs);
    var filas := FilasDe(rs);
    forall i | 0 <= i < |rs| && filas[i].valida
      ensures filas[i].codigo == rs[i].codigo != "" && !Repetido(rs, i) && (TienePersona(filas[i]) ==> PersonaValida(filas[i]))
    {
      FilaSinFaltas(rs, i);
    }
    forall i, j | 0 <= i < j < |filas| && filas[i].valida && filas[j].valida ensures filas[i].codigo != filas[j].codigo {
      CodigosVistos(rs, j, rs[j].codigo);
      assert !Repetido(rs, j) && rs[i].codigo == filas[i].codigo;
    }
  }
}
