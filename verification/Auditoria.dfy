/** The append-only audit log and its keyset pages: internal/audit/audit.go, the query of audit.sql.go
    and the next-cursor rule of the HTTP handler. */
module Auditoria {
  import opened Comun

  /** The ordering key of the log. Identifiers are UUIDs read as big-endian numbers, as SQL compares them. */
  datatype Clave = Clave(creado: int, id: nat)

  datatype Evento = Evento(clave: Clave, tenant: Option<nat>, accion: string, recurso: string, diff: string)

  /** A listing request without its cursor: active tenant, optional action and resource ("" is any), dates. */
  datatype Consulta = Consulta(tenant: nat, accion: string, recurso: string, desde: Option<int>, hasta: Option<int>)

  datatype Pagina = Pagina(eventos: seq<Evento>, siguiente: Option<Clave>)

  const TAM_PAGINA: int := 50

  /** SQL row comparison (created_at, id) < (created_at, id). */
  predicate Antes(a: Clave, b: Clave) {
    a.creado < b.creado || (a.creado == b.creado && a.id < b.id)
  }

  predicate Cumple(e: Evento, q: Consulta) {
    && e.tenant == Some(q.tenant)
    && (q.accion == "" || e.accion == q.accion)
    && (q.recurso == "" || e.recurso == q.recurso)
    && (q.desde.None? || q.desde.value <= e.clave.creado)
    && (q.hasta.None? || e.clave.creado <= q.hasta.value)
  }

  predicate TrasCursor(e: Evento, cursor: Option<Clave>) {
    cursor.None? || Antes(e.clave, cursor.value)
  }

  /** ORDER BY created_at DESC, id DESC. */
  function Intercalar(e: Evento, s: seq<Evento>): seq<Evento> {
    if s == [] || Antes(s[0].clave, e.clave) then [e] + s else [s[0]] + Intercalar(e, s[1..])
  }

  /** The rows of the query before LIMIT. */
  function Listado(log: seq<Evento>, q: Consulta, cursor: Option<Clave>): seq<Evento> {
    if log == [] then []
    else
      var resto := Listado(log[..|log| - 1], q, cursor);
      var e := log[|log| - 1];
      if Cumple(e, q) && TrasCursor(e, cursor) then Intercalar(e, resto) else resto
  }

  /** List: a limit outside 1..100 is read as 50. */
  function Listar(log: seq<Evento>, q: Consulta, cursor: Option<Clave>, limite: int): seq<Evento> {
    var n := if limite <= 0 || limite > 100 then TAM_PAGINA else limite;
    var filas := Listado(log, q, cursor);
    if |filas| <= n then filas else filas[..n]
  }

  /** listAuditEventsHandler: a next cursor is issued exactly with a full page, from its last event. */
  function PaginaDe(log: seq<Evento>, q: Consulta, cursor: Option<Clave>): Pagina {
    var eventos := Listar(log, q, cursor, TAM_PAGINA);
    Pagina(eventos, if |eventos| == TAM_PAGINA then Some(eventos[|eventos| - 1].clave) else None)
  }

  /** What a client gathers: events in the order received, pages asked for, and whether the last page
      carried no cursor. */
  datatype Recorrido = Recorrido(eventos: seq<Evento>, paginas: nat, terminado: bool)

  /** Following cursors; `logs[i]` is the log as it stands when the i-th page is read. */
  function Recorrer(logs: seq<seq<Evento>>, q: Consulta, cursor: Option<Clave>): Recorrido {
    if logs == [] then Recorrido([], 0, false)
    else
      var p := PaginaDe(logs[0], q, cursor);
      if p.siguiente.None? then Recorrido(p.eventos, 1, true)
      else
        var r := Recorrer(logs[1..], q, p.siguiente);
        Recorrido(p.eventos + r.eventos, r.paginas + 1, r.terminado)
  }

  ghost predicate Descendente(s: seq<Evento>) {
    forall i, j | 0 <= i < j < |s| :: Antes(s[j].clave, s[i].clave)
  }

  /** The primary key on id: two rows never share a key. */
  ghost predicate ClavesUnicas(log: seq<Evento>) {
    forall i, j | 0 <= i < j < |log| :: log[i].clave != log[j].clave
  }

  /** `s` is the answer the query promises: the matching events, each once, newest first. */
  ghost predicate EsListado(s: seq<Evento>, log: seq<Evento>, q: Consulta, cursor: Option<Clave>) {
    && Descendente(s)
    && (forall e :: e in s <==> e in log && Cumple(e, q) && TrasCursor(e, cursor))
  }

  // ---- the query -------------------------------------------------------------------------------------

  lemma {:induction false} IntercalarContenido(e: Evento, s: seq<Evento>)
    ensures forall x :: x in Intercalar(e, s) <==> x == e || x in s
  {
    if s != [] && !Antes(s[0].clave, e.clave) {
      IntercalarContenido(e, s[1..]);
      assert s == [s[0]] + s[1..];
    }
  }

  lemma {:induction false} IntercalarDescendente(e: Evento, s: seq<Evento>)
    requires Descendente(s) && forall x | x in s :: x.clave != e.clave
    ensures Descendente(Intercalar(e, s))
  {
    if s != [] && !Antes(s[0].clave, e.clave) {
      var t := Intercalar(e, s[1..]);
      IntercalarDescendente(e, s[1..]);
      IntercalarContenido(e, s[1..]);
      assert Antes(e.clave, s[0].clave) by { assert s[0] in s; }
      forall i | 0 <= i < |t| ensures Antes(t[i].clave, s[0].clave) {
        assert t[i] in t;
      }
    }
  }

  lemma {:induction false} ListadoCorrecto(log: seq<Evento>, q: Consulta, cursor: Option<Clave>)
    requires ClavesUnicas(log)
    ensures EsListado(Listado(log, q, cursor), log, q, cursor)
  {
    if log != [] {
      var antes, e := log[..|log| - 1], log[|log| - 1];
      ListadoCorrecto(antes, q, cursor);
      assert log == antes + [e];
      if Cumple(e, q) && TrasCursor(e, cursor) {
        IntercalarContenido(e, Listado(antes, q, cursor));
        IntercalarDescendente(e, Listado(antes, q, cursor));
      }
    }
  }

  /** A newest-first answer is determined by its events. */
  lemma {:induction false} DescendenteUnica(s: seq<Evento>, t: seq<Evento>)
    requires Descendente(s) && Descendente(t)
    requires forall e :: e in s <==> e in t
    ensures s == t
  {
    assert t == [] || t[0] in s;
    if s != [] {
      assert s[0] in t && (t != [] ==> t[0] in s);
      assert s[0] == t[0];
      assert s == [s[0]] + s[1..] && t == [t[0]] + t[1..];
      forall e ensures e in s[1..] <==> e in t[1..] {
        assert e in s <==> e in t;
        assert s[0] !in s[1..] && t[0] !in t[1..];
      }
      DescendenteUnica(s[1..], t[1..]);
    }
  }

  // ---- following the cursors -------------------------------------------------------------------------

  /** Where the client is after `k` events of the listing `s`. */
  function CursorTras(s: seq<Evento>, k: nat): Option<Clave>
    requires k <= |s|
  {
    if k == 0 then None else Some(s[k - 1].clave)
  }

  /** `log` extends `base`, and what it adds is newer than everything in `base`. */
  ghost predicate SoloMasNuevos(base: seq<Evento>, log: seq<Evento>) {
    && ClavesUnicas(log)
    && (forall e | e in base :: e in log)
    && (forall e, b | e in log && e !in base && b in base :: Antes(b.clave, e.clave))
  }

  /** Reading on from a position of the first listing continues it exactly, whatever newer events came. */
  lemma ContinuaElListado(base: seq<Evento>, log: seq<Evento>, q: Consulta, k: nat)
    requires ClavesUnicas(base) && SoloMasNuevos(base, log)
    requires k <= |Listado(base, q, None)| && (k == 0 ==> log == base)
    ensures Listado(log, q, CursorTras(Listado(base, q, None), k)) == Listado(base, q, None)[k..]
  {
    var s := Listado(base, q, None);
    var c := CursorTras(s, k);
    ListadoCorrecto(base, q, None);
    ListadoCorrecto(log, q, c);
    forall e ensures e in s[k..] <==> e in log && Cumple(e, q) && TrasCursor(e, c) {
      if e in s[k..] {
        var i :| k <= i < |s| && s[i] == e;
        assert e in s;
      }
      if e in log && Cumple(e, q) && TrasCursor(e, c) {
        if k > 0 {
          assert s[k - 1] in s && s[k - 1] in base;
        }
        assert e in base && e in s;
        var i :| 0 <= i < |s| && s[i] == e;
        assert i >= k;
      }
    }
    DescendenteUnica(Listado(log, q, c), s[k..]);
  }

  /** The page read after `k` events of the first listing `s`. */
  lemma PaginaTras(base: seq<Evento>, log: seq<Evento>, q: Consulta, s: seq<Evento>, k: nat)
    requires ClavesUnicas(base) && SoloMasNuevos(base, log)
    requires s == Listado(base, q, None) && k <= |s| && (k == 0 ==> log == base)
    ensures PaginaDe(log, q, CursorTras(s, k))
         == if |s| - k < TAM_PAGINA then Pagina(s[k..], None)
            else Pagina(s[k..k + TAM_PAGINA], CursorTras(s, k + TAM_PAGINA))
  {
    ContinuaElListado(base, log, q, k);
    assert |s| - k >= TAM_PAGINA ==> s[k..][..TAM_PAGINA] == s[k..k + TAM_PAGINA];
  }

  lemma {:induction false} RecorrerDesde(base: seq<Evento>, logs: seq<seq<Evento>>, q: Consulta, s: seq<Evento>, k: nat)
    requires ClavesUnicas(base) && forall i | 0 <= i < |logs| :: SoloMasNuevos(base, logs[i])
    requires s == Listado(base, q, None) && k <= |s|
    requires |logs| > (|s| - k) / TAM_PAGINA
    requires k == 0 ==> logs[0] == base
    ensures Recorrer(logs, q, CursorTras(s, k)) == Recorrido(s[k..], (|s| - k) / TAM_PAGINA + 1, true)
    decreases |logs|
  {
    PaginaTras(base, logs[0], q, s, k);
    if |s| - k >= TAM_PAGINA {
      RecorrerDesde(base, logs[1..], q, s, k + TAM_PAGINA);
      assert s[k..] == s[k..k + TAM_PAGINA] + s[k + TAM_PAGINA..];
    }
  }

  /** Following the cursors until none comes back stops, after exactly one page more than the full
      pages of the listing, with exactly the listing as it stood at the first page: no gap, no repeat,
      whatever newer events are recorded meanwhile. */
  lemma PaginasReensamblan(logs: seq<seq<Evento>>, q: Consulta)
    requires logs != [] && ClavesUnicas(logs[0])
    requires forall i | 0 <= i < |logs| :: SoloMasNuevos(logs[0], logs[i])
    requires |logs| > |Listado(logs[0], q, None)| / TAM_PAGINA
    ensures var r := Recorrer(logs, q, None);
            && r.terminado
            && r.paginas == |Listado(logs[0], q, None)| / TAM_PAGINA + 1
            && EsListado(r.eventos, logs[0], q, None)
  {
    var s := Listado(logs[0], q, None);
    RecorrerDesde(logs[0], logs, q, s, 0);
    assert s[0..] == s;
    ListadoCorrecto(logs[0], q, None);
  }

  /** The log is only ever appended to. */
  ghost predicate SoloCrece(logs: seq<seq<Evento>>) {
    forall i, j | 0 <= i < j < |logs| :: logs[i] <= logs[j]
  }

  lemma PaginaCorta(log: seq<Evento>, q: Consulta, cursor: Option<Clave>)
    requires ClavesUnicas(log)
    ensures var p := PaginaDe(log, q, cursor);
            && Descendente(p.eventos)
            && (forall e | e in p.eventos :: e in log && Cumple(e, q) && TrasCursor(e, cursor))
            && (p.siguiente.Some? ==> forall e | e in p.eventos :: e.clave == p.siguiente.value || Antes(p.siguiente.value, e.clave))
            && (p.siguiente.Some? ==> TrasCursor(p.eventos[|p.eventos| - 1], cursor) && p.eventos[|p.eventos| - 1].clave == p.siguiente.value)
            && (forall e | e in log && Cumple(e, q) && TrasCursor(e, cursor) ::
                  e in p.eventos || (p.siguiente.Some? && TrasCursor(e, p.siguiente)))
  {
    ListadoCorrecto(log, q, cursor);
    var filas, p := Listado(log, q, cursor), PaginaDe(log, q, cursor);
    assert forall e | e in p.eventos :: e in filas;
    if p.siguiente.Some? {
      assert p.eventos[|p.eventos| - 1] in p.eventos;
    }
    forall e | e in log && Cumple(e, q) && TrasCursor(e, cursor)
      ensures e in p.eventos || (p.siguiente.Some? && TrasCursor(e, p.siguiente))
    {
      assert e in filas;
      var i :| 0 <= i < |filas| && filas[i] == e;
      if i < |p.eventos| {
        assert p.eventos[i] == e;
      } else {
        assert p.siguiente == Some(filas[TAM_PAGINA - 1].clave);
      }
    }
  }

  lemma {:induction false} SinRepetidos(s: seq<Evento>, e: Evento)
    requires Descendente(s)
    ensures multiset(s)[e] <= 1
  {
    if s != [] {
      var n := |s| - 1;
      SinRepetidos(s[..n], e);
      assert s == s[..n] + [s[n]];
      assert s[n] !in s[..n];
    }
  }

  /** A newest-first selection is no longer than the log it comes from. */
  lemma SeleccionAcotada(s: seq<Evento>, log: seq<Evento>)
    requires Descendente(s) && forall e | e in s :: e in log
    ensures |s| <= |log|
  {
    forall e ensures multiset(s)[e] <= multiset(log)[e] {
      SinRepetidos(s, e);
      if e in s {
        assert e in log && e in multiset(log);
      }
    }
    assert multiset(log) == multiset(s) + (multiset(log) - multiset(s));
    assert |multiset(log)| == |multiset(s)| + |multiset(log) - multiset(s)|;
  }

  /** A walk that has not ended has filled every page. */
  lemma {:induction false} PaginasLlenas(logs: seq<seq<Evento>>, q: Consulta, cursor: Option<Clave>)
    ensures var r := Recorrer(logs, q, cursor); !r.terminado ==> |r.eventos| == TAM_PAGINA * |logs|
    decreases |logs|
  {
    if logs != [] {
      var p := PaginaDe(logs[0], q, cursor);
      if p.siguiente.Some? {
        PaginasLlenas(logs[1..], q, p.siguiente);
      }
    }
  }

  /** What a walk from any cursor gathers under appends of any keys, also when it is cut short. */
  lemma {:induction false} RecorridoConAltas(logs: seq<seq<Evento>>, q: Consulta, cursor: Option<Clave>)
    requires logs != [] && SoloCrece(logs) && ClavesUnicas(logs[|logs| - 1])
    ensures var r := Recorrer(logs, q, cursor);
            && Descendente(r.eventos)
            && (forall e | e in r.eventos :: e in logs[|logs| - 1] && Cumple(e, q) && TrasCursor(e, cursor))
            && (r.terminado ==> forall e | e in logs[0] && Cumple(e, q) && TrasCursor(e, cursor) :: e in r.eventos)
    decreases |logs|
  {
    var ultimo := logs[|logs| - 1];
    assert logs[0] <= ultimo;
    assert ClavesUnicas(logs[0]) by {
      forall i, j | 0 <= i < j < |logs[0]| ensures logs[0][i].clave != logs[0][j].clave {
        assert logs[0][i] == ultimo[i] && logs[0][j] == ultimo[j];
      }
    }
    var p := PaginaDe(logs[0], q, cursor);
    PaginaCorta(logs[0], q, cursor);
    if p.siguiente.Some? && |logs| > 1 {
      assert logs[1..][|logs| - 2] == ultimo;
      RecorridoConAltas(logs[1..], q, p.siguiente);
      UnirPaginas(p, Recorrer(logs[1..], q, p.siguiente).eventos, cursor);
      assert logs[0] <= logs[1];
    }
  }

  lemma UnirPaginas(p: Pagina, resto: seq<Evento>, cursor: Option<Clave>)
    requires Descendente(p.eventos) && Descendente(resto) && p.siguiente.Some?
    requires forall e | e in p.eventos :: e.clave == p.siguiente.value || Antes(p.siguiente.value, e.clave)
    requires forall e | e in resto :: Antes(e.clave, p.siguiente.value)
    requires cursor.Some? ==> Antes(p.siguiente.value, cursor.value)
    ensures Descendente(p.eventos + resto)
    ensures forall e | e in resto :: TrasCursor(e, cursor)
  {
    var s := p.eventos + resto;
    forall i, j | 0 <= i < j < |s| ensures Antes(s[j].clave, s[i].clave) {
      if i < |p.eventos| <= j {
        assert s[i] in p.eventos && s[j] in resto;
      }
    }
  }

  /** Under appends of any keys whatever, including ones a slow transaction commits late below the
      cursor: once there are more places on the pages than events in the log, the walk has
      ended; it is strictly newest first, so repeats nothing, shows only matching
      events, and misses none that was in the log when the walk began. */
  lemma RecorridoCompleto(logs: seq<seq<Evento>>, q: Consulta)
    requires logs != [] && SoloCrece(logs) && ClavesUnicas(logs[|logs| - 1])
    requires TAM_PAGINA * |logs| > |logs[|logs| - 1]|
    ensures var r := Recorrer(logs, q, None);
            && r.terminado && Descendente(r.eventos)
            && (forall e | e in r.eventos :: e in logs[|logs| - 1] && Cumple(e, q))
            && (forall e | e in logs[0] && Cumple(e, q) :: e in r.eventos)
  {
    RecorridoConAltas(logs, q, None);
    PaginasLlenas(logs, q, None);
    SeleccionAcotada(Recorrer(logs, q, None).eventos, logs[|logs| - 1]);
  }

  // ---- the answers, spelled out ---------------------------------------------------------------------

  /** An event is listed if and only if it is of the tenant, of the action and resource asked for, between the
      dates inclusive, and below the cursor. */
  lemma ListadoSi(log: seq<Evento>, q: Consulta, cursor: Option<Clave>, e: Evento)
    requires ClavesUnicas(log)
    ensures e in Listado(log, q, cursor) <==>
      && e in log && e.tenant == Some(q.tenant)
      && (|q.accion| > 0 ==> e.accion == q.accion) && (|q.recurso| > 0 ==> e.recurso == q.recurso)
      && (q.desde.Some? ==> e.clave.creado >= q.desde.value) && (q.hasta.Some? ==> e.clave.creado <= q.hasta.value)
      && (cursor.Some? ==> e.clave.creado < cursor.value.creado
                           || (e.clave.creado == cursor.value.creado && e.clave.id < cursor.value.id))
  {
    ListadoCorrecto(log, q, cursor);
  }

  /** A limit from 1 to 100 is obeyed, and any other is 50: so many of the first events, or all there are. */
  lemma LimiteSi(log: seq<Evento>, q: Consulta, cursor: Option<Clave>, limite: int)
    ensures var filas, r := Listado(log, q, cursor), Listar(log, q, cursor, limite);
      var n := if 1 <= limite <= 100 then limite else 50;
      && |r| == (if |filas| < n then |filas| else n)
      && forall i | 0 <= i < |r| :: r[i] == filas[i]
  {
  }

  // ---- the log as an object --------------------------------------------------------------------------

  /** The table audit_events: rows are only ever added, identifiers are fresh. */
  class Registro {
    var eventos: seq<Evento>

    ghost predicate Valid()
      reads this
    {
      ClavesUnicas(eventos)
    }

    constructor ()
      ensures Valid() && eventos == []
    {
      eventos := [];
    }

    /** Record: an event without an action or a resource type is dropped in silence. */
    method Registrar(clave: Clave, tenant: Option<nat>, accion: string, recurso: string, diff: string)
      requires Valid() && forall e | e in eventos :: e.clave.id != clave.id
      modifies this
      ensures Valid()
      ensures eventos == old(eventos)
                + (if accion == "" || recurso == "" then [] else [Evento(clave, tenant, accion, recurso, diff)])
    {
      if accion == "" || recurso == "" { return; }
      assert forall i | 0 <= i < |eventos| :: eventos[i] in eventos;
      eventos := eventos + [Evento(clave, tenant, accion, recurso, diff)];
    }

    /** The listing as the handler answers it: what the page holds and what is left for the cursor. */
    method Pedir(q: Consulta, cursor: Option<Clave>) returns (p: Pagina)
      requires Valid()
      ensures Descendente(p.eventos) && |p.eventos| <= TAM_PAGINA
      ensures p.siguiente.Some? <==> |p.eventos| == TAM_PAGINA
      ensures forall e | e in p.eventos :: e in eventos && Cumple(e, q) && TrasCursor(e, cursor)
      ensures forall e | e in eventos && Cumple(e, q) && TrasCursor(e, cursor) ::
                e in p.eventos || (p.siguiente.Some? && TrasCursor(e, p.siguiente))
    {
      var filas := Listar(eventos, q, cursor, TAM_PAGINA);
      var siguiente: Option<Clave> := None;
      if |filas| == TAM_PAGINA {
        siguiente := Some(filas[|filas| - 1].clave);
      }
      p := Pagina(filas, siguiente);
      PaginaCorta(eventos, q, cursor);
    }
  }
}
