/** From publication to the resident's notice: notices (internal/comunicaciones/comunicados.go), the outbox
    and its worker (internal/outbox/outbox.go) and the fan-out (internal/notificaciones/notificaciones.go),
    next to the settlements whose publication also queues an event. */
module Difusion {
  import opened Comun
  import opened Texto
  import L = Liquidaciones

  datatype Comunicado = Comunicado(consorcio: nat, titulo: string, cuerpo: string, destinatarios: nat, publicado: bool)

  /** The public form of a notice. */
  datatype Ficha = Ficha(id: nat, titulo: string, publicado: bool, destinatarios: nat)

  /** An event's type and payload. */
  datatype Carga =
    | CargaComunicado(id: nat, consorcio: nat, titulo: string, cuerpo: string, destinatarios: nat)
    | CargaLiquidacion(id: nat, consorcio: nat, periodo: string)

  datatype EstadoEvento = Pendiente | Procesando | Procesado | Fallido

  datatype Salida = Salida(carga: Carga, estado: EstadoEvento, intentos: nat)

  datatype Tipo = DeComunicado | DeLiquidacion

  /** What a notice to a user is about, and its text. */
  datatype Aviso = Aviso(tipo: Tipo, recurso: nat, titulo: string, cuerpo: string)

  datatype Notificacion = Notificacion(usuario: nat, aviso: Aviso, leida: bool)

  /** A stored key: the notice it was used for, and the answer unless still the `{}` placeholder. */
  datatype FilaLlave = FilaLlave(comunicado: nat, resp: Option<Ficha>)

  datatype ErrorDifusion =
    | DatosObligatorios | LlaveRequerida | LlaveEnUso | NoEncontrado | Restriccion
    | SinPdf | TituloVacio | FallaDeBase | DeLiquidaciones(causa: L.ErrorLiq)

  datatype Base = Base(
    liq: L.Base,
    comunicados: seq<Comunicado>,
    salidas: seq<Salida>,
    notificaciones: seq<Notificacion>,
    llaves: map<string, FilaLlave>)

  const BaseVacia := Base(L.BaseVacia, [], [], [], map[])

  // ---------- Notices ----------

  /** Create; `activas` counts the consorcio's active units. */
  function CrearPaso(b: Base, consorcio: nat, titulo: string, cuerpo: string, ambito: string, activas: nat): (Base, Result<Ficha, ErrorDifusion>) {
    if Recortar(titulo) == "" || Recortar(cuerpo) == "" then (b, Err(DatosObligatorios))
    else if ambito !in {"", "todos", "unidades"} then (b, Err(Restriccion))
    else
      var c := Comunicado(consorcio, Recortar(titulo), Recortar(cuerpo), activas, false);
      (b.(comunicados := b.comunicados + [c]), Ok(FichaDe(|b.comunicados|, c)))
  }

  function FichaDe(id: nat, c: Comunicado): Ficha {
    Ficha(id, c.titulo, c.publicado, c.destinatarios)
  }

  function CargaDe(id: nat, c: Comunicado): Carga {
    CargaComunicado(id, c.consorcio, c.titulo, c.cuerpo, c.destinatarios)
  }

  /** Publish: stamp the key or answer from it, then publish and queue the event unless published already. */
  function PublicarPaso(b: Base, id: nat, key: string): (Base, Result<Ficha, ErrorDifusion>) {
    if Recortar(key) == "" then (b, Err(LlaveRequerida))
    else if key in b.llaves && b.llaves[key].comunicado != id then (b, Err(LlaveEnUso))
    else if key in b.llaves && b.llaves[key].resp.Some? then (b, Ok(b.llaves[key].resp.value))
    else if id >= |b.comunicados| then (b, Err(NoEncontrado))
    else
      var c := b.comunicados[id].(publicado := true);
      (b.(comunicados := b.comunicados[id := c],
          salidas := if b.comunicados[id].publicado then b.salidas else b.salidas + [Salida(CargaDe(id, c), Pendiente, 0)],
          llaves := b.llaves[key := FilaLlave(id, Some(FichaDe(id, c)))]),
       Ok(FichaDe(id, c)))
  }

  // ---------- Settlements ----------

  function SalidasDe(es: seq<L.Evento>): seq<Salida> {
    seq(|es|, i requires 0 <= i < |es| => Salida(CargaLiquidacion(es[i].liq, es[i].consorcio, es[i].periodo), Pendiente, 0))
  }

  /** A settlement operation; each event it inserts goes to the outbox in the same transaction. */
  function LiquidarPaso(b: Base, op: L.Op): (Base, Result<L.Dto, L.ErrorLiq>) {
    var (l, r) := L.Paso(b.liq, op);
    var nuevos := if |b.liq.eventos| <= |l.eventos| then l.eventos[|b.liq.eventos|..] else [];
    (b.(liq := l, salidas := b.salidas + SalidasDe(nuevos)), r)
  }

  // ---------- The worker ----------

  /** claim_pending_outbox_events takes this event: not done, not in progress, fewer than three attempts. */
  function ReclamarPaso(b: Base, i: nat): Base {
    if i < |b.salidas| && b.salidas[i].estado in {Pendiente, Fallido} && b.salidas[i].intentos < 3 then
      b.(salidas := b.salidas[i := b.salidas[i].(estado := Procesando, intentos := b.salidas[i].intentos + 1)])
    else b
  }

  function TituloLiquidacion(periodo: string): string {
    if Recortar(periodo) != "" then "Liquidación " + Recortar(periodo) else "Liquidación publicada"
  }

  function CuerpoLiquidacion(periodo: string): string {
    if Recortar(periodo) != "" then "Período " + Recortar(periodo) + ". Ya está disponible en el portal."
    else "Ya está disponible en el portal."
  }

  function AvisoDe(c: Carga): Aviso {
    match c
    case CargaComunicado(id, _, titulo, cuerpo, _) => Aviso(DeComunicado, id, Recortar(titulo), cuerpo)
    case CargaLiquidacion(id, _, periodo) =>
      Aviso(DeLiquidacion, id, Recortar(TituloLiquidacion(periodo)), CuerpoLiquidacion(periodo))
  }

  /** What a delivery meets: the users linked to the consorcio that day, whether the PDF comes out, and
      at which insert, if any, the database fails. */
  datatype Entorno = Entorno(destinatarios: seq<nat>, pdf: bool, falla: Option<nat>)

  datatype Resultado = Resultado(destinatarios: nat, creadas: int, omitidas: int)

  /** The unique index on user, type and resource. */
  predicate Avisado(ns: seq<Notificacion>, usuario: nat, tipo: Tipo, recurso: nat) {
    exists k | 0 <= k < |ns| :: ns[k].usuario == usuario && ns[k].aviso.tipo == tipo && ns[k].aviso.recurso == recurso
  }

  /** INSERT … ON CONFLICT DO NOTHING. */
  function Insertar(ns: seq<Notificacion>, usuario: nat, a: Aviso): seq<Notificacion> {
    if Avisado(ns, usuario, a.tipo, a.recurso) then ns else ns + [Notificacion(usuario, a, false)]
  }

  function Difundir(ns: seq<Notificacion>, destinatarios: seq<nat>, a: Aviso): seq<Notificacion> {
    if destinatarios == [] then ns
    else Insertar(Difundir(ns, destinatarios[..|destinatarios| - 1], a), destinatarios[|destinatarios| - 1], a)
  }

  /** process, on any event whatever its state: a database error leaves nothing behind, any other error
      commits the event as failed. */
  function ProcesarPaso(b: Base, i: nat, e: Entorno): (Base, Result<Resultado, ErrorDifusion>) {
    if i >= |b.salidas| then (b, Err(NoEncontrado))
    else if e.falla.Some? then (b, Err(FallaDeBase))
    else
      var a := AvisoDe(b.salidas[i].carga);
      if b.salidas[i].carga.CargaLiquidacion? && !e.pdf then (Marcar(b, i, Fallido), Err(SinPdf))
      else if a.titulo == "" then (Marcar(b, i, Fallido), Err(TituloVacio))
      else
        var ns := Difundir(b.notificaciones, e.destinatarios, a);
        var creadas := |ns| - |b.notificaciones|;
        (Marcar(b, i, Procesado).(notificaciones := ns),
         Ok(Resultado(|e.destinatarios|, creadas, |e.destinatarios| - creadas)))
  }

  function Marcar(b: Base, i: nat, estado: EstadoEvento): Base
    requires i < |b.salidas|
  {
    b.(salidas := b.salidas[i := b.salidas[i].(estado := estado)])
  }

  /** MarcarLeida: only the addressee, only once. */
  function LeerPaso(b: Base, usuario: nat, i: nat): (Base, Result<Notificacion, ErrorDifusion>) {
    if i < |b.notificaciones| && b.notificaciones[i].usuario == usuario && !b.notificaciones[i].leida then
      var n := b.notificaciones[i].(leida := true);
      (b.(notificaciones := b.notificaciones[i := n]), Ok(n))
    else (b, Err(NoEncontrado))
  }

  // ---------- Runs ----------

  datatype Op =
    | Crear(consorcio: nat, titulo: string, cuerpo: string, ambito: string, activas: nat)
    | Publicar(id: nat, key: string)
    | Liquidar(op: L.Op)
    | Reclamar(i: nat)
    | Procesar(i: nat, e: Entorno)
    | Leer(usuario: nat, i: nat)

  function Paso(b: Base, op: Op): Base {
    match op
    case Crear(c, t, x, s, n) => CrearPaso(b, c, t, x, s, n).0
    case Publicar(id, k) => PublicarPaso(b, id, k).0
    case Liquidar(o) => LiquidarPaso(b, o).0
    case Reclamar(i) => ReclamarPaso(b, i)
    case Procesar(i, e) => ProcesarPaso(b, i, e).0
    case Leer(u, i) => LeerPaso(b, u, i).0
  }

  function Correr(ops: seq<Op>): Base {
    if ops == [] then BaseVacia else Paso(Correr(ops[..|ops| - 1]), ops[|ops| - 1])
  }
}
