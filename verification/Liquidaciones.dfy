/** Settlements as a state machine over the tables they touch: what each handler commits
    (internal/expensas/liquidacion.go, internal/expensas/transiciones.go,
    internal/cuenta_corriente/cuenta_corriente.go). A step that fails leaves the tables as they were. */
module Liquidaciones {
  import opened Comun
  import opened Distribucion
  import opened DistribucionOrden
  import opened Agrupacion

  datatype Estado = Borrador | Calculada | Confirmada | Publicada | Cerrada | Anulada

  /** Dates as day numbers. */
  type Fecha = int

  datatype Liq = Liq(
    consorcio: nat,
    periodo: string,
    venc1: Fecha,
    venc2: Option<Fecha>,
    estado: Estado,
    version: nat,
    totalGastos: int,
    totalDistribuido: int,
    alcanzadas: nat)

  /** The answer of an operation; `Vacio` is the `{}` placeholder of a key not yet completed. */
  datatype Dto = Vacio | Dto(id: nat, fila: Liq)

  datatype ErrorLiq =
    | NoEncontrada | Invalida | TransicionInvalida | ConflictoPeriodo | VersionDistinta
    | SinGastos | SinUnidades | LlaveEnUso | ErrorDeCalculo(causa: ErrorCalculo) | Restriccion

  type Respuesta = Result<Dto, ErrorLiq>

  datatype UnidadSnap = UnidadSnap(unidad: nat, codigo: string, coef: real, total: int)

  datatype Cargo = Cargo(unidad: nat, liq: Option<nat>, concepto: string, vence: Fecha, total: int, saldo: int)

  datatype Tipo = TipoCargo | TipoReversa

  datatype Asiento = Asiento(unidad: nat, tipo: Tipo, fecha: Fecha, debe: int, haber: int, cargo: nat)

  datatype Evento = Evento(liq: nat, periodo: string, consorcio: nat)

  datatype Ambito = AmbitoCalcular | AmbitoConfirmar | AmbitoPublicar

  /** A stored key: which settlement it was used for (the request hash covers just the settlement
      and the key) and the answer saved for it. */
  datatype FilaLlave = FilaLlave(liq: nat, resp: Dto)

  type Llaves = map<(Ambito, string), FilaLlave>

  /** The tables. A row's id is its position; snapshot tables are grouped by settlement. */
  datatype Base = Base(
    liqs: seq<Liq>,
    snapGastos: map<nat, seq<Gasto>>,
    snapItems: map<nat, seq<Concepto>>,
    snapUnidades: map<nat, seq<UnidadSnap>>,
    cargos: seq<Cargo>,
    asientos: seq<Asiento>,
    eventos: seq<Evento>,
    llaves: Llaves)

  const BaseVacia := Base([], map[], map[], map[], [], [], [], map[])

  function Filas<T>(tabla: map<nat, seq<T>>, id: nat): seq<T> {
    if id in tabla then tabla[id] else []
  }

  predicate Visible(b: Base, consorcio: nat, id: nat) {
    id < |b.liqs| && b.liqs[id].consorcio == consorcio
  }

  // ---------- Idempotency keys ----------

  datatype Sello = Sigue(llaves: Llaves) | Repite(resp: Dto) | Choca

  /** stampIdempotency; an empty key is not stamped. */
  function Sellar(llaves: Llaves, ambito: Ambito, key: string, id: nat): Sello {
    if key == "" then Sigue(llaves)
    else if (ambito, key) !in llaves then Sigue(llaves[(ambito, key) := FilaLlave(id, Vacio)])
    else if llaves[(ambito, key)].liq != id then Choca
    else Repite(llaves[(ambito, key)].resp)
  }

  /** saveIdempotency. */
  function Guardar(llaves: Llaves, ambito: Ambito, key: string, dto: Dto): Llaves {
    if key == "" || (ambito, key) !in llaves then llaves
    else llaves[(ambito, key) := llaves[(ambito, key)].(resp := dto)]
  }

  // ---------- Create, and change due dates ----------

  predicate PeriodoValido(p: string) {
    |p| == 6 && forall i | 0 <= i < 6 :: '0' <= p[i] <= '9'
  }

  predicate VencimientosValidos(v1: Fecha, v2: Option<Fecha>) {
    v2.Some? ==> v1 <= v2.value
  }

  predicate Activa(l: Liq) {
    l.estado != Anulada && l.estado != Cerrada
  }

  function CrearPaso(b: Base, consorcio: nat, periodo: string, v1: Fecha, v2: Option<Fecha>): (Base, Respuesta) {
    if !PeriodoValido(periodo) || !VencimientosValidos(v1, v2) then (b, Err(Invalida))
    else if exists i | 0 <= i < |b.liqs| ::
      b.liqs[i].consorcio == consorcio && b.liqs[i].periodo == periodo && Activa(b.liqs[i]) then (b, Err(ConflictoPeriodo))
    else
      var l := Liq(consorcio, periodo, v1, v2, Borrador, 1, 0, 0, 0);
      (b.(liqs := b.liqs + [l]), Ok(Dto(|b.liqs|, l)))
  }

  /** The UPDATE matches a draft at the expected version or nothing; both count as success. */
  function VencimientosPaso(b: Base, consorcio: nat, id: nat, v1: Fecha, v2: Option<Fecha>, version: int): (Base, Respuesta) {
    if !VencimientosValidos(v1, v2) then (b, Err(Invalida))
    else if Visible(b, consorcio, id) && b.liqs[id].estado == Borrador && b.liqs[id].version == version then
      (b.(liqs := b.liqs[id := b.liqs[id].(venc1 := v1, venc2 := v2)]), Ok(Vacio))
    else (b, Ok(Vacio))
  }

  // ---------- Calculate ----------

  /** Only registered bills take part. */
  function Registrados(gs: seq<Gasto>): seq<Gasto> {
    if gs == [] then []
    else Registrados(gs[..|gs| - 1]) + if gs[|gs| - 1].estado == "registrado" then [gs[|gs| - 1]] else []
  }

  function SnapDe(us: seq<Unidad>): seq<UnidadSnap> {
    seq(|us|, i requires 0 <= i < |us| => UnidadSnap(us[i].id, us[i].codigo, us[i].coef, us[i].total))
  }

  function TotalesSnap(us: seq<UnidadSnap>): seq<int> {
    seq(|us|, i requires 0 <= i < |us| => us[i].total)
  }

  /** The row constraints of the three snapshot tables: primary keys and CHECKs. */
  predicate AdmiteGasto(previos: seq<Gasto>, g: Gasto) {
    g.importe > 0 && forall i | 0 <= i < |previos| :: previos[i].id != g.id
  }

  predicate AdmiteItem(previos: seq<Concepto>, c: Concepto) {
    c.importe >= 0 && forall i | 0 <= i < |previos| :: previos[i].id != c.id
  }

  predicate AdmiteUnidad(previos: seq<UnidadSnap>, u: UnidadSnap) {
    u.coef >= 0.0 && u.total >= 0 && forall i | 0 <= i < |previos| :: previos[i].unidad != u.unidad
  }

  predicate GastosAdmitidos(gs: seq<Gasto>) {
    forall k | 0 <= k < |gs| :: AdmiteGasto(gs[..k], gs[k])
  }

  predicate ItemsAdmitidos(cs: seq<Concepto>) {
    forall k | 0 <= k < |cs| :: AdmiteItem(cs[..k], cs[k])
  }

  predicate UnidadesAdmitidas(us: seq<UnidadSnap>) {
    forall k | 0 <= k < |us| :: AdmiteUnidad(us[..k], us[k])
  }

  function CalcularPaso(b: Base, consorcio: nat, id: nat, version: int, key: string,
                        gastos: seq<Gasto>, ufs: seq<UF>, red: Redondeo): (Base, Respuesta)
  {
    if !Visible(b, consorcio, id) then (b, Err(NoEncontrada))
    else if b.liqs[id].estado != Borrador && b.liqs[id].estado != Calculada then (b, Err(TransicionInvalida))
    else if Registrados(gastos) == [] then (b, Err(SinGastos))
    else if ufs == [] then (b, Err(SinUnidades))
    else match Sellar(b.llaves, AmbitoCalcular, key, id)
      case Choca => (b, Err(LlaveEnUso))
      case Repite(resp) => (b, Ok(resp))
      case Sigue(llaves) =>
        if SumaCoef(ufs) <= 0.0 then (b, Err(ErrorDeCalculo(SinCoeficiente)))
        else
          var reg := Registrados(gastos);
          var d := Reparto(Agrupados(reg), Ordenar(ufs), red);
          if !(GastosAdmitidos(reg) && ItemsAdmitidos(d.items) && UnidadesAdmitidas(SnapDe(d.unidades)))
          then (b, Err(Restriccion))
          else if b.liqs[id].version != version then (b, Err(VersionDistinta))
          else
            var l := b.liqs[id].(estado := Calculada, version := b.liqs[id].version + 1, totalGastos := d.totalGastos,
                                 totalDistribuido := d.totalDistribuido, alcanzadas := d.alcanzadas);
            (b.(liqs := b.liqs[id := l], snapGastos := b.snapGastos[id := reg], snapItems := b.snapItems[id := d.items],
                snapUnidades := b.snapUnidades[id := SnapDe(d.unidades)],
                llaves := Guardar(llaves, AmbitoCalcular, key, Dto(id, l))),
             Ok(Dto(id, l)))
  }

  // ---------- Confirm: charges and their ledger entries ----------

  /** toUnidadCobro and InsertCharge: one charge per unit with something to pay. */
  function CargosDe(us: seq<UnidadSnap>, id: nat, periodo: string, vence: Fecha): seq<Cargo> {
    if us == [] then []
    else
      var u := us[|us| - 1];
      CargosDe(us[..|us| - 1], id, periodo, vence)
      + if u.total <= 0 then [] else [Cargo(u.unidad, Some(id), "Expensa " + periodo, vence, u.total, u.total)]
  }

  /** The debit entry of each charge, the first of them having id `desde`. */
  function AsientosDe(cs: seq<Cargo>, desde: nat): seq<Asiento> {
    seq(|cs|, i requires 0 <= i < |cs| => Asiento(cs[i].unidad, TipoCargo, cs[i].vence, cs[i].total, 0, desde + i))
  }

  function ConfirmarPaso(b: Base, consorcio: nat, id: nat, version: int, key: string): (Base, Respuesta) {
    if !Visible(b, consorcio, id) then (b, Err(NoEncontrada))
    else if b.liqs[id].estado != Calculada then (b, Err(TransicionInvalida))
    else match Sellar(b.llaves, AmbitoConfirmar, key, id)
      case Choca => (b, Err(LlaveEnUso))
      case Repite(resp) => (b, Ok(resp))
      case Sigue(llaves) =>
        if b.liqs[id].version != version then (b, Err(VersionDistinta))
        else
          var nuevos := CargosDe(Filas(b.snapUnidades, id), id, b.liqs[id].periodo, b.liqs[id].venc1);
          var l := b.liqs[id].(estado := Confirmada, version := b.liqs[id].version + 1);
          (b.(liqs := b.liqs[id := l], cargos := b.cargos + nuevos,
              asientos := b.asientos + AsientosDe(nuevos, |b.cargos|),
              llaves := Guardar(llaves, AmbitoConfirmar, key, Dto(id, l))),
           Ok(Dto(id, l)))
  }

  // ---------- Publish ----------

  function PublicarPaso(b: Base, consorcio: nat, id: nat, version: int, key: string): (Base, Respuesta) {
    if !Visible(b, consorcio, id) then (b, Err(NoEncontrada))
    else if b.liqs[id].estado != Confirmada then (b, Err(TransicionInvalida))
    else match Sellar(b.llaves, AmbitoPublicar, key, id)
      case Choca => (b, Err(LlaveEnUso))
      case Repite(resp) => (b, Ok(resp))
      case Sigue(llaves) =>
        if b.liqs[id].version != version then (b, Err(VersionDistinta))
        else
          var l := b.liqs[id].(estado := Publicada, version := b.liqs[id].version + 1);
          (b.(liqs := b.liqs[id := l], eventos := b.eventos + [Evento(id, l.periodo, consorcio)],
              llaves := Guardar(llaves, AmbitoPublicar, key, Dto(id, l))),
           Ok(Dto(id, l)))
  }

  // ---------- Annul: reverse what is still owed ----------

  predicate Reversible(c: Cargo, id: nat) {
    c.liq == Some(id) && c.saldo > 0
  }

  function ConReversas(cs: seq<Cargo>, id: nat): seq<Cargo> {
    seq(|cs|, i requires 0 <= i < |cs| => if Reversible(cs[i], id) then cs[i].(saldo := 0) else cs[i])
  }

  function AsientosReversa(cs: seq<Cargo>, id: nat): seq<Asiento> {
    if cs == [] then []
    else
      var n := |cs| - 1;
      AsientosReversa(cs[..n], id)
      + if Reversible(cs[n], id) then [Asiento(cs[n].unidad, TipoReversa, cs[n].vence, 0, cs[n].total, n)] else []
  }

  function AnularPaso(b: Base, consorcio: nat, id: nat, version: int): (Base, Respuesta) {
    if !Visible(b, consorcio, id) then (b, Err(NoEncontrada))
    else if b.liqs[id].estado in {Publicada, Anulada, Cerrada} then (b, Err(TransicionInvalida))
    else if b.liqs[id].version != version then (b, Err(VersionDistinta))
    else
      var l := b.liqs[id].(estado := Anulada, version := b.liqs[id].version + 1);
      var b' := if b.liqs[id].estado != Confirmada then b
                else b.(cargos := ConReversas(b.cargos, id), asientos := b.asientos + AsientosReversa(b.cargos, id));
      (b'.(liqs := b'.liqs[id := l]), Ok(Dto(id, l)))
  }

  // ---------- Runs ----------

  datatype Op =
    | Crear(consorcio: nat, periodo: string, v1: Fecha, v2: Option<Fecha>)
    | Vencimientos(consorcio: nat, id: nat, v1: Fecha, v2: Option<Fecha>, version: int)
    | Calcular(consorcio: nat, id: nat, version: int, key: string, gastos: seq<Gasto>, ufs: seq<UF>, red: Redondeo)
    | Confirmar(consorcio: nat, id: nat, version: int, key: string)
    | Publicar(consorcio: nat, id: nat, version: int, key: string)
    | Anular(consorcio: nat, id: nat, version: int)

  function Paso(b: Base, op: Op): (Base, Respuesta) {
    match op
    case Crear(c, p, v1, v2) => CrearPaso(b, c, p, v1, v2)
    case Vencimientos(c, id, v1, v2, v) => VencimientosPaso(b, c, id, v1, v2, v)
    case Calcular(c, id, v, k, gs, ufs, red) => CalcularPaso(b, c, id, v, k, gs, ufs, red)
    case Confirmar(c, id, v, k) => ConfirmarPaso(b, c, id, v, k)
    case Publicar(c, id, v, k) => PublicarPaso(b, c, id, v, k)
    case Anular(c, id, v) => AnularPaso(b, c, id, v)
  }

  /** The tables after a run, starting empty. */
  function Correr(ops: seq<Op>): Base {
    if ops == [] then BaseVacia else Paso(Correr(ops[..|ops| - 1]), ops[|ops| - 1]).0
  }
}
