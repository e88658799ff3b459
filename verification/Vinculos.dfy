/** People linked to units over time: links are closed and added, never rewritten
    (attachPersona in internal/consorcios/ufs.go, actualizarUnidadDesdeFila in internal/consorcios/imports.go). */
module Vinculos {
  import opened Comun

  /** An empty document stands for none. */
  datatype Persona = Persona(nombre: string, documento: string, email: string, telefono: string)

  /** A link is open while `hasta` is empty. Dates are day numbers. */
  datatype Vinculo = Vinculo(unidad: nat, persona: nat, rol: string, porcentaje: Option<string>, desde: int, hasta: Option<int>)

  /** A validated link to establish. */
  datatype Alta = Alta(persona: Persona, rol: string, porcentaje: Option<string>, desde: int)

  /** Both tables; a row's id is its position. */
  datatype Padron = Padron(personas: seq<Persona>, vinculos: seq<Vinculo>)

  const PadronVacio := Padron([], [])

  datatype ErrorPadron = Vigencia

  predicate Abierto(v: Vinculo, unidad: nat) {
    v.unidad == unidad && v.hasta.None?
  }

  /** Which open links of a unit an UPDATE closes: those of one person, or all of them. */
  predicate Alcanzado(v: Vinculo, unidad: nat, persona: Option<nat>) {
    Abierto(v, unidad) && (persona.None? || v.persona == persona.value)
  }

  /** The table's check: a link ends after the day it began. */
  predicate PuedeCerrar(vs: seq<Vinculo>, unidad: nat, persona: Option<nat>, hoy: int) {
    forall i | 0 <= i < |vs| && Alcanzado(vs[i], unidad, persona) :: vs[i].desde < hoy
  }

  function Cerrar(vs: seq<Vinculo>, unidad: nat, persona: Option<nat>, hoy: int): seq<Vinculo> {
    seq(|vs|, i requires 0 <= i < |vs| => if Alcanzado(vs[i], unidad, persona) then vs[i].(hasta := Some(hoy)) else vs[i])
  }

  /** The first person with the document, or the position a new one would take. */
  function BuscarPersona(ps: seq<Persona>, documento: string): nat
    ensures BuscarPersona(ps, documento) <= |ps|
  {
    if ps == [] then 0
    else if ps[0].documento == documento then 0
    else 1 + BuscarPersona(ps[1..], documento)
  }

  function PersonaDe(ps: seq<Persona>, alta: Persona): nat {
    if alta.documento == "" then |ps| else BuscarPersona(ps, alta.documento)
  }

  predicate YaVinculada(vs: seq<Vinculo>, unidad: nat, persona: nat, rol: string) {
    exists i | 0 <= i < |vs| :: Abierto(vs[i], unidad) && vs[i].persona == persona && vs[i].rol == rol
  }

  /** attachPersona: reuse or create the person; if already linked in that role, close that person's
      open links to the unit; then add the new link. */
  function AdjuntarPaso(p: Padron, unidad: nat, a: Alta, hoy: int): Result<Padron, ErrorPadron> {
    var id := PersonaDe(p.personas, a.persona);
    var personas := if id < |p.personas| then p.personas else p.personas + [a.persona];
    var repetida := YaVinculada(p.vinculos, unidad, id, a.rol);
    if repetida && !PuedeCerrar(p.vinculos, unidad, Some(id), hoy) then Err(Vigencia)
    else
      var quedan := if repetida then Cerrar(p.vinculos, unidad, Some(id), hoy) else p.vinculos;
      Ok(Padron(personas, quedan + [Vinculo(unidad, id, a.rol, a.porcentaje, a.desde, None)]))
  }

  /** The link half of updating a unit from an imported row: close every open link, then attach. */
  function ReemplazarPaso(p: Padron, unidad: nat, a: Alta, hoy: int): Result<Padron, ErrorPadron> {
    if !PuedeCerrar(p.vinculos, unidad, None, hoy) then Err(Vigencia)
    else AdjuntarPaso(p.(vinculos := Cerrar(p.vinculos, unidad, None, hoy)), unidad, a, hoy)
  }

  datatype Op = Adjuntar(unidad: nat, a: Alta, hoy: int) | Reemplazar(unidad: nat, a: Alta, hoy: int)

  function Paso(p: Padron, op: Op): Padron {
    var r := match op
      case Adjuntar(u, a, hoy) => AdjuntarPaso(p, u, a, hoy)
      case Reemplazar(u, a, hoy) => ReemplazarPaso(p, u, a, hoy);
    if r.Ok? then r.value else p
  }

  function Correr(ops: seq<Op>): Padron {
    if ops == [] then PadronVacio else Paso(Correr(ops[..|ops| - 1]), ops[|ops| - 1])
  }

  // ---------- What every run keeps ----------

  /** At most one open link per unit, person and role; a document belongs to one person. */
  ghost predicate Valido(p: Padron) {
    && (forall i, j | 0 <= i < j < |p.vinculos| && p.vinculos[i].hasta.None? && p.vinculos[j].hasta.None? ::
          p.vinculos[i].unidad != p.vinculos[j].unidad || p.vinculos[i].persona != p.vinculos[j].persona
          || p.vinculos[i].rol != p.vinculos[j].rol)
    && (forall i, j | 0 <= i < j < |p.personas| && p.personas[i].documento != "" :: p.personas[i].documento != p.personas[j].documento)
    && (forall i | 0 <= i < |p.vinculos| :: p.vinculos[i].persona < |p.personas|)
  }

  /** `q` continues the history of `p`: every row is still there, closed rows exactly as they were and
      open ones at most closed, later than they began. */
  ghost predicate Continua(p: Padron, q: Padron) {
    && |p.vinculos| <= |q.vinculos| && p.personas <= q.personas
    && forall i | 0 <= i < |p.vinculos| ::
         q.vinculos[i] == p.vinculos[i]
         || (p.vinculos[i].hasta.None? && q.vinculos[i].hasta.Some? && q.vinculos[i].hasta.value > p.vinculos[i].desde
             && q.vinculos[i] == p.vinculos[i].(hasta := q.vinculos[i].hasta))
  }

  lemma {:induction false} BuscarEncuentra(ps: seq<Persona>, documento: string)
    ensures var i := BuscarPersona(ps, documento);
      && (i < |ps| ==> ps[i].documento == documento)
      && forall j | 0 <= j < i :: ps[j].documento != documento
  {
    if ps != [] && ps[0].documento != documento {
      BuscarEncuentra(ps[1..], documento);
    }
  }

  lemma CerrarConserva(p: Padron, unidad: nat, persona: Option<nat>, hoy: int)
    requires Valido(p) && PuedeCerrar(p.vinculos, unidad, persona, hoy)
    ensures Valido(p.(vinculos := Cerrar(p.vinculos, unidad, persona, hoy)))
    ensures Continua(p, p.(vinculos := Cerrar(p.vinculos, unidad, persona, hoy)))
  {
  }

  /** A new link for a free (unit, person, role), the person new or already known by that document. */
  lemma AgregarConserva(p: Padron, personas: seq<Persona>, v: Vinculo)
    requires Valido(p) && v.persona < |personas| && v.hasta.None?
    requires !YaVinculada(p.vinculos, v.unidad, v.persona, v.rol)
    requires personas == p.personas
      || (v.persona == |p.personas| && personas == p.personas + [personas[v.persona]]
          && (personas[v.persona].documento == "" || forall i | 0 <= i < |p.personas| :: p.personas[i].documento != personas[v.persona].documento))
    ensures Valido(Padron(personas, p.vinculos + [v])) && Continua(p, Padron(personas, p.vinculos + [v]))
  {
    var q := Padron(personas, p.vinculos + [v]);
    forall i, j | 0 <= i < j < |q.vinculos| && q.vinculos[i].hasta.None? && q.vinculos[j].hasta.None?
      ensures q.vinculos[i].unidad != q.vinculos[j].unidad || q.vinculos[i].persona != q.vinculos[j].persona
              || q.vinculos[i].rol != q.vinculos[j].rol
    {
      assert q.vinculos[i] == p.vinculos[i];
      if j == |p.vinculos| && p.vinculos[i].unidad == v.unidad {
        assert Abierto(p.vinculos[i], v.unidad);
      }
    }
  }

  lemma AdjuntarConserva(p: Padron, unidad: nat, a: Alta, hoy: int)
    requires Valido(p) && AdjuntarPaso(p, unidad, a, hoy).Ok?
    ensures Valido(AdjuntarPaso(p, unidad, a, hoy).value)
    ensures Continua(p, AdjuntarPaso(p, unidad, a, hoy).value)
  {
    BuscarEncuentra(p.personas, a.persona.documento);
    var id := PersonaDe(p.personas, a.persona);
    var q := AdjuntarPaso(p, unidad, a, hoy).value;
    var nuevo := Vinculo(unidad, id, a.rol, a.porcentaje, a.desde, None);
    if YaVinculada(p.vinculos, unidad, id, a.rol) {
      CerrarConserva(p, unidad, Some(id), hoy);
      var cerrado := p.(vinculos := Cerrar(p.vinculos, unidad, Some(id), hoy));
      AgregarConserva(cerrado, q.personas, nuevo);
      ContinuaTransitiva(p, cerrado, q);
    } else {
      AgregarConserva(p, q.personas, nuevo);
    }
  }

  lemma ContinuaTransitiva(p: Padron, q: Padron, r: Padron)
    requires Continua(p, q) && Continua(q, r)
    ensures Continua(p, r)
  {
    forall i | 0 <= i < |p.vinculos|
      ensures r.vinculos[i] == p.vinculos[i]
        || (p.vinculos[i].hasta.None? && r.vinculos[i].hasta.Some? && r.vinculos[i].hasta.value > p.vinculos[i].desde
            && r.vinculos[i] == p.vinculos[i].(hasta := r.vinculos[i].hasta))
    {
      assert q.vinculos[i] == p.vinculos[i] || p.vinculos[i].hasta.None?;
    }
  }

  lemma PasoConserva(p: Padron, op: Op)
    requires Valido(p)
    ensures Valido(Paso(p, op)) && Continua(p, Paso(p, op))
  {
    match op
    case Adjuntar(u, a, hoy) => if AdjuntarPaso(p, u, a, hoy).Ok? { AdjuntarConserva(p, u, a, hoy); }
    case Reemplazar(u, a, hoy) =>
      if ReemplazarPaso(p, u, a, hoy).Ok? {
        var cerrado := p.(vinculos := Cerrar(p.vinculos, u, None, hoy));
        CerrarConserva(p, u, None, hoy);
        AdjuntarConserva(cerrado, u, a, hoy);
        ContinuaTransitiva(p, cerrado, ReemplazarPaso(p, u, a, hoy).value);
      }
  }

  /** Over every run: one open link per unit, person and role. */
  lemma {:induction false} UnVinculoAbierto(ops: seq<Op>)
    ensures Valido(Correr(ops))
  {
    if ops != [] {
      UnVinculoAbierto(ops[..|ops| - 1]);
      PasoConserva(Correr(ops[..|ops| - 1]), ops[|ops| - 1]);
    }
  }

  /** Over every run the history only grows: no row is removed or reopened, no closing date changes. */
  lemma {:induction false} HistoriaSoloCrece(ops: seq<Op>, n: nat)
    requires n <= |ops|
    ensures Continua(Correr(ops[..n]), Correr(ops))
  {
    if n == |ops| {
      assert ops[..n] == ops;
    } else {
      assert ops[..|ops| - 1][..n] == ops[..n];
      HistoriaSoloCrece(ops[..|ops| - 1], n);
      UnVinculoAbierto(ops[..|ops| - 1]);
      PasoConserva(Correr(ops[..|ops| - 1]), ops[|ops| - 1]);
      ContinuaTransitiva(Correr(ops[..n]), Correr(ops[..|ops| - 1]), Correr(ops));
    }
  }

  /** After a unit is updated from a row with a person, exactly one of its links is open: the new one.
      Other units' links are untouched. */
  lemma UnoTrasReemplazar(p: Padron, unidad: nat, a: Alta, hoy: int)
    requires ReemplazarPaso(p, unidad, a, hoy).Ok?
    ensures var q := ReemplazarPaso(p, unidad, a, hoy).value;
      && |q.vinculos| == |p.vinculos| + 1
      && (forall i | 0 <= i < |q.vinculos| :: Abierto(q.vinculos[i], unidad) <==> i == |p.vinculos|)
      && (forall i | 0 <= i < |p.vinculos| && p.vinculos[i].unidad != unidad :: q.vinculos[i] == p.vinculos[i])
      && q.vinculos[|p.vinculos|].rol == a.rol && q.vinculos[|p.vinculos|].desde == a.desde
  {
    var cerrado := Cerrar(p.vinculos, unidad, None, hoy);
    assert forall i | 0 <= i < |cerrado| :: !Abierto(cerrado[i], unidad);
  }

  /** Updating from a row works exactly when every open link of the unit began on an earlier day: a
      second update on the day of the first is refused by the table's check on dates. */
  lemma ReemplazarFunciona(p: Padron, unidad: nat, a: Alta, hoy: int)
    ensures ReemplazarPaso(p, unidad, a, hoy).Ok?
      <==> forall i | 0 <= i < |p.vinculos| && Abierto(p.vinculos[i], unidad) :: p.vinculos[i].desde < hoy
  {
    var cerrado := Cerrar(p.vinculos, unidad, None, hoy);
    assert forall i | 0 <= i < |cerrado| :: !Abierto(cerrado[i], unidad);
    assert PuedeCerrar(p.vinculos, unidad, None, hoy)
      <==> forall i | 0 <= i < |p.vinculos| && Abierto(p.vinculos[i], unidad) :: p.vinculos[i].desde < hoy;
  }

  /** A unit updated from a row with a person cannot be again on the same day. */
  lemma DosVecesElMismoDia(p: Padron, unidad: nat, a: Alta, otra: Alta, hoy: int)
    requires ReemplazarPaso(p, unidad, a, hoy).Ok? && a.desde == hoy
    ensures ReemplazarPaso(ReemplazarPaso(p, unidad, a, hoy).value, unidad, otra, hoy) == Err(Vigencia)
  {
    UnoTrasReemplazar(p, unidad, a, hoy);
    var q := ReemplazarPaso(p, unidad, a, hoy).value;
    assert Abierto(q.vinculos[|p.vinculos|], unidad);
    ReemplazarFunciona(q, unidad, otra, hoy);
  }

  /** Attaching a person works exactly when the open links it would close began on an earlier day. It then adds one row, the
      link asked for; the person is the one with that document, or a new one with the data given; and of the rows there
      were, only that person's open links to the unit are closed, and only if one of them was in the same role. */
  lemma AdjuntarEscribe(p: Padron, unidad: nat, a: Alta, hoy: int)
    requires Valido(p)
    ensures var r := AdjuntarPaso(p, unidad, a, hoy); var id := PersonaDe(p.personas, a.persona);
      var repetida := exists i | 0 <= i < |p.vinculos| :: Abierto(p.vinculos[i], unidad) && p.vinculos[i].persona == id && p.vinculos[i].rol == a.rol;
      && (r.Ok? <==> !repetida || forall i | 0 <= i < |p.vinculos| && Abierto(p.vinculos[i], unidad) && p.vinculos[i].persona == id ::
                                    p.vinculos[i].desde < hoy)
      && (r.Ok? ==> |r.value.vinculos| == |p.vinculos| + 1
                    && r.value.vinculos[|p.vinculos|] == Vinculo(unidad, id, a.rol, a.porcentaje, a.desde, None)
                    && (forall i | 0 <= i < |p.vinculos| :: r.value.vinculos[i] ==
                          if repetida && Abierto(p.vinculos[i], unidad) && p.vinculos[i].persona == id
                          then p.vinculos[i].(hasta := Some(hoy)) else p.vinculos[i])
                    && r.value.personas == (if id < |p.personas| then p.personas else p.personas + [a.persona]))
  {
  }

  /** Which person that is. */
  lemma PersonaDeSi(p: Padron, alta: Persona, i: nat)
    requires Valido(p)
    ensures i < |p.personas| ==> (PersonaDe(p.personas, alta) == i <==> |alta.documento| > 0 && p.personas[i].documento == alta.documento)
    ensures PersonaDe(p.personas, alta) <= |p.personas|
  {
    BuscarEncuentra(p.personas, alta.documento);
  }
}
