/** Refresh-token families: login, rotation, reuse detection and logout, one call at a time
    (internal/identity/auth.go, internal/database/gen/identity.sql.go). */
module Sesiones {
  import opened Comun

  /** A token row; it is live while `revocado` is empty. */
  datatype Token = Token(sesion: nat, usuario: nat, familia: nat, vence: int, revocado: Option<int>)

  datatype Sesion = Sesion(usuario: nat, membresia: nat, revocada: Option<int>)

  /** Tokens by hash, which is unique; families are numbered as they are opened. */
  datatype Base = Base(tokens: map<string, Token>, sesiones: seq<Sesion>, familias: nat)

  const BaseVacia := Base(map[], [], 0)

  datatype ErrorSesion = TokenInvalido | TokenReusado | TokenVencido | SinMembresia | Restriccion

  function RevocarFamilia(ts: map<string, Token>, f: nat, ahora: int): map<string, Token> {
    map h | h in ts :: if ts[h].familia == f && ts[h].revocado.None? then ts[h].(revocado := Some(ahora)) else ts[h]
  }

  /** openSession: a new session and the first token of a new family. */
  function AbrirPaso(b: Base, usuario: nat, membresia: Option<nat>, hash: string, vence: int): (Base, Result<string, ErrorSesion>) {
    if membresia.None? || hash in b.tokens then (b, Err(Restriccion))
    else (Base(b.tokens[hash := Token(|b.sesiones|, usuario, b.familias, vence, None)],
               b.sesiones + [Sesion(usuario, membresia.value, None)], b.familias + 1), Ok(hash))
  }

  /** Refresh: a revoked token kills its family for good, even though the call fails; a live one is
      exchanged for a new token of the family. `activa` is whether the membership lets the user in. */
  function RefrescarPaso(b: Base, hash: string, ahora: int, nuevo: string, vence: int, activa: bool): (Base, Result<string, ErrorSesion>) {
    if hash !in b.tokens then (b, Err(TokenInvalido))
    else
      var t := b.tokens[hash];
      if t.revocado.Some? then (b.(tokens := RevocarFamilia(b.tokens, t.familia, ahora)), Err(TokenReusado))
      else if t.vence < ahora then (b, Err(TokenVencido))
      else if nuevo in b.tokens then (b, Err(Restriccion))
      else if !activa then (b, Err(SinMembresia))
      else (b.(tokens := b.tokens[hash := t.(revocado := Some(ahora))][nuevo := Token(t.sesion, t.usuario, t.familia, vence, None)]),
            Ok(nuevo))
  }

  /** Logout: unknown and revoked tokens are ignored; a live one goes, and its session with it. */
  function SalirPaso(b: Base, hash: string, ahora: int): Base {
    if hash !in b.tokens || b.tokens[hash].revocado.Some? then b
    else
      var t := b.tokens[hash];
      b.(tokens := b.tokens[hash := t.(revocado := Some(ahora))],
         sesiones := if t.sesion < |b.sesiones| then b.sesiones[t.sesion := b.sesiones[t.sesion].(revocada := Some(ahora))] else b.sesiones)
  }

  datatype Op =
    | Abrir(usuario: nat, membresia: Option<nat>, hash: string, vence: int)
    | Refrescar(hash: string, ahora: int, nuevo: string, vence: int, activa: bool)
    | Salir(hash: string, ahora: int)

  function Paso(b: Base, op: Op): Base {
    match op
    case Abrir(u, m, h, v) => AbrirPaso(b, u, m, h, v).0
    case Refrescar(h, ahora, nuevo, v, activa) => RefrescarPaso(b, h, ahora, nuevo, v, activa).0
    case Salir(h, ahora) => SalirPaso(b, h, ahora)
  }

  predicate Acepta(b: Base, op: Op) {
    op.Refrescar? && RefrescarPaso(b, op.hash, op.ahora, op.nuevo, op.vence, op.activa).1.Ok?
  }

  function Correr(ops: seq<Op>): Base {
    if ops == [] then BaseVacia else Paso(Correr(ops[..|ops| - 1]), ops[|ops| - 1])
  }

  predicate Vivo(b: Base, h: string) {
    h in b.tokens && b.tokens[h].revocado.None?
  }

  ghost predicate FamiliaMuerta(b: Base, f: nat) {
    f < b.familias && forall h | Vivo(b, h) :: b.tokens[h].familia != f
  }

  ghost predicate Valida(b: Base) {
    && (forall h | h in b.tokens :: b.tokens[h].familia < b.familias && b.tokens[h].sesion < |b.sesiones|)
    && (forall h, g | Vivo(b, h) && Vivo(b, g) && h != g :: b.tokens[h].familia != b.tokens[g].familia)
  }

  lemma PasoConserva(b: Base, op: Op)
    requires Valida(b)
    ensures Valida(Paso(b, op))
  {
    var b' := Paso(b, op);
    forall h, g | Vivo(b', h) && Vivo(b', g) && h != g ensures b'.tokens[h].familia != b'.tokens[g].familia {
      assert h in b.tokens ==> Vivo(b, h);
      assert g in b.tokens ==> Vivo(b, g);
    }
  }

  lemma {:induction false} AlcanzableValida(ops: seq<Op>)
    ensures Valida(Correr(ops))
  {
    if ops != [] {
      AlcanzableValida(ops[..|ops| - 1]);
      PasoConserva(Correr(ops[..|ops| - 1]), ops[|ops| - 1]);
    }
  }

  /** In every run a family has at most one live token. */
  lemma UnVivoPorFamilia(ops: seq<Op>, h: string, g: string)
    requires Vivo(Correr(ops), h) && Vivo(Correr(ops), g)
    requires Correr(ops).tokens[h].familia == Correr(ops).tokens[g].familia
    ensures h == g
  {
    AlcanzableValida(ops);
  }

  /** Tokens are never forgotten, never move to another family, and never come back to life. */
  lemma TokenPersiste(b: Base, op: Op, h: string)
    requires h in b.tokens
    ensures h in Paso(b, op).tokens && Paso(b, op).tokens[h].familia == b.tokens[h].familia
    ensures b.tokens[h].revocado.Some? ==> Paso(b, op).tokens[h].revocado.Some?
  {
  }

  lemma {:induction false} TokenPersisteEnCorrida(ops: seq<Op>, n: nat, h: string)
    requires n <= |ops| && h in Correr(ops[..n]).tokens
    ensures h in Correr(ops).tokens && Correr(ops).tokens[h].familia == Correr(ops[..n]).tokens[h].familia
    ensures Correr(ops[..n]).tokens[h].revocado.Some? ==> Correr(ops).tokens[h].revocado.Some?
    decreases |ops| - n
  {
    if n == |ops| {
      assert ops[..n] == ops;
    } else {
      assert ops[..n + 1][..n] == ops[..n];
      TokenPersiste(Correr(ops[..n]), ops[n], h);
      TokenPersisteEnCorrida(ops, n + 1, h);
    }
  }

  lemma MuertaSigueMuerta(b: Base, op: Op, f: nat)
    requires Valida(b) && FamiliaMuerta(b, f)
    ensures FamiliaMuerta(Paso(b, op), f)
  {
    var b' := Paso(b, op);
    forall h | Vivo(b', h) ensures b'.tokens[h].familia != f {
      if h in b.tokens {
        TokenPersiste(b, op, h);
        assert Vivo(b, h);
      } else if op.Refrescar? {
        assert Vivo(b, op.hash);
      }
    }
  }

  /** A family without a live token never has one again. */
  lemma {:induction false} MuertaParaSiempre(ops: seq<Op>, n: nat, f: nat)
    requires n <= |ops| && FamiliaMuerta(Correr(ops[..n]), f)
    ensures FamiliaMuerta(Correr(ops), f)
    decreases |ops| - n
  {
    if n == |ops| {
      assert ops[..n] == ops;
    } else {
      assert ops[..n + 1][..n] == ops[..n];
      AlcanzableValida(ops[..n]);
      MuertaSigueMuerta(Correr(ops[..n]), ops[n], f);
      MuertaParaSiempre(ops, n + 1, f);
    }
  }

  /** Accepting a token spends it and leaves its successor as the family's only live token. */
  lemma RotacionDeja(b: Base, op: Op)
    requires Valida(b) && Acepta(b, op)
    ensures var b' := Paso(b, op);
      && Vivo(b, op.hash) && !Vivo(b', op.hash) && Vivo(b', op.nuevo)
      && forall h | Vivo(b', h) && b'.tokens[h].familia == b.tokens[op.hash].familia :: h == op.nuevo
  {
    PasoConserva(b, op);
  }

  /** Presenting a revoked token fails and leaves no live token in its family. */
  lemma ReusoMataFamilia(b: Base, op: Op)
    requires Valida(b) && op.Refrescar? && op.hash in b.tokens && !Vivo(b, op.hash)
    ensures !Acepta(b, op) && FamiliaMuerta(Paso(b, op), b.tokens[op.hash].familia)
  {
    var b' := Paso(b, op);
    forall h | Vivo(b', h) ensures b'.tokens[h].familia != b.tokens[op.hash].familia {
      assert h in b.tokens;
    }
  }

  /** Logging out with a live token leaves none in its family and closes its session. */
  lemma SalirMataFamilia(b: Base, op: Op)
    requires Valida(b) && op.Salir? && Vivo(b, op.hash)
    ensures FamiliaMuerta(Paso(b, op), b.tokens[op.hash].familia)
    ensures Paso(b, op).sesiones[b.tokens[op.hash].sesion].revocada == Some(op.ahora)
  {
    var b' := Paso(b, op);
    forall h | Vivo(b', h) ensures b'.tokens[h].familia != b.tokens[op.hash].familia {
      assert Vivo(b, h) && h != op.hash;
    }
  }

  /** A token is accepted at most once, and the second attempt ends the family. */
  lemma UsoUnico(ops: seq<Op>, i: nat, j: nat)
    requires i < j < |ops| && Acepta(Correr(ops[..i]), ops[i])
    requires ops[j].Refrescar? && ops[j].hash == ops[i].hash
    ensures !Acepta(Correr(ops[..j]), ops[j])
    ensures FamiliaMuerta(Correr(ops[..j + 1]), Correr(ops[..i]).tokens[ops[i].hash].familia)
  {
    var h := ops[i].hash;
    assert ops[..i + 1][..i] == ops[..i];
    AlcanzableValida(ops[..i]);
    RotacionDeja(Correr(ops[..i]), ops[i]);
    TokenPersiste(Correr(ops[..i]), ops[i], h);
    assert ops[..j][..i + 1] == ops[..i + 1];
    TokenPersisteEnCorrida(ops[..j], i + 1, h);
    AlcanzableValida(ops[..j]);
    ReusoMataFamilia(Correr(ops[..j]), ops[j]);
    assert ops[..j + 1][..j] == ops[..j];
  }

  /** Once a spent token has come back, nothing of its family is accepted. */
  lemma RoboDetectado(ops: seq<Op>, i: nat, j: nat, k: nat)
    requires i < j < k < |ops| && Acepta(Correr(ops[..i]), ops[i])
    requires ops[j].Refrescar? && ops[j].hash == ops[i].hash
    requires ops[k].Refrescar? && ops[k].hash in Correr(ops[..k]).tokens
    requires Correr(ops[..k]).tokens[ops[k].hash].familia == Correr(ops[..i]).tokens[ops[i].hash].familia
    ensures !Acepta(Correr(ops[..k]), ops[k])
  {
    UsoUnico(ops, i, j);
    assert ops[..k][..j + 1] == ops[..j + 1];
    MuertaParaSiempre(ops[..k], j + 1, Correr(ops[..i]).tokens[ops[i].hash].familia);
  }

  // ---------- Sessions ----------

  /** Families and sessions are opened together, so they are one to one: family `f` is of session `f`. */
  ghost predicate UnaSesionPorFamilia(b: Base) {
    |b.sesiones| == b.familias && forall h | h in b.tokens :: b.tokens[h].sesion == b.tokens[h].familia
  }

  lemma {:induction false} SesionesPorFamilia(ops: seq<Op>)
    ensures UnaSesionPorFamilia(Correr(ops))
  {
    if ops != [] {
      SesionesPorFamilia(ops[..|ops| - 1]);
    }
  }

  /** Operation `k` of the run is a logout that spends the live token of family `f`. */
  ghost predicate CierraLaFamilia(ops: seq<Op>, k: nat, f: nat)
    requires k < |ops|
  {
    ops[k].Salir? && Vivo(Correr(ops[..k]), ops[k].hash) && Correr(ops[..k]).tokens[ops[k].hash].familia == f
  }

  /** One operation closes a session exactly when it is such a logout. */
  lemma CierrePorPaso(ops: seq<Op>, f: nat)
    requires ops != [] && f < Correr(ops[..|ops| - 1]).familias
    ensures var n := |ops| - 1; var b := Correr(ops[..n]);
      && f < |b.sesiones| && f < |Correr(ops).sesiones|
      && (Correr(ops).sesiones[f].revocada.Some? <==> b.sesiones[f].revocada.Some? || CierraLaFamilia(ops, n, f))
      && (!CierraLaFamilia(ops, n, f) ==> Correr(ops).sesiones[f] == b.sesiones[f])
  {
    SesionesPorFamilia(ops[..|ops| - 1]);
  }

  /** In every run a session is closed exactly when a logout spent the live token of its family. */
  lemma {:induction false} SesionCerradaSi(ops: seq<Op>, f: nat)
    requires f < Correr(ops).familias
    ensures f < |Correr(ops).sesiones|
    ensures Correr(ops).sesiones[f].revocada.Some? <==> exists k | 0 <= k < |ops| :: CierraLaFamilia(ops, k, f)
  {
    SesionesPorFamilia(ops);
    if ops != [] {
      var n := |ops| - 1;
      assert forall k | 0 <= k < n :: ops[..n][..k] == ops[..k];
      assert forall k | 0 <= k < n :: CierraLaFamilia(ops[..n], k, f) <==> CierraLaFamilia(ops, k, f);
      if f < Correr(ops[..n]).familias {
        SesionCerradaSi(ops[..n], f);
        CierrePorPaso(ops, f);
      } else {
        forall k | 0 <= k < |ops| ensures !CierraLaFamilia(ops, k, f) {
          FamiliaFutura(ops, k, f);
        }
      }
    }
  }

  /** No token is of a family not yet opened. */
  lemma {:induction false} FamiliaFutura(ops: seq<Op>, k: nat, f: nat)
    requires k < |ops| && f >= Correr(ops[..|ops| - 1]).familias
    ensures !CierraLaFamilia(ops, k, f)
  {
    AlcanzableValida(ops[..k]);
    FamiliasCrecen(ops[..|ops| - 1], k);
    assert ops[..|ops| - 1][..k] == ops[..k];
  }

  lemma {:induction false} FamiliasCrecen(ops: seq<Op>, n: nat)
    requires n <= |ops|
    ensures Correr(ops[..n]).familias <= Correr(ops).familias
    decreases |ops|
  {
    if n == |ops| {
      assert ops[..n] == ops;
    } else {
      assert ops[..|ops| - 1][..n] == ops[..n];
      FamiliasCrecen(ops[..|ops| - 1], n);
    }
  }

  /** Once a family is dead its session's row never changes again. */
  lemma {:induction false} SesionMuertaFija(ops: seq<Op>, n: nat, f: nat)
    requires n <= |ops| && FamiliaMuerta(Correr(ops[..n]), f)
    ensures f < |Correr(ops[..n]).sesiones| && f < |Correr(ops).sesiones|
    ensures Correr(ops).sesiones[f] == Correr(ops[..n]).sesiones[f]
    decreases |ops|
  {
    SesionesPorFamilia(ops[..n]);
    if n == |ops| {
      assert ops[..n] == ops;
    } else {
      var m := |ops| - 1;
      assert ops[..m][..n] == ops[..n];
      SesionMuertaFija(ops[..m], n, f);
      MuertaParaSiempre(ops[..m], n, f);
      CierrePorPaso(ops, f);
    }
  }

  /** ADR-0009 says a replay revokes the family and its session. It kills the family; but however long the
      run goes on, the session is closed if and only if an earlier logout had spent the family's live token. */
  lemma ReusoNoCierraSesion(ops: seq<Op>, j: nat)
    requires j < |ops| && ops[j].Refrescar? && ops[j].hash in Correr(ops[..j]).tokens && !Vivo(Correr(ops[..j]), ops[j].hash)
    ensures var f := Correr(ops[..j]).tokens[ops[j].hash].familia;
      && FamiliaMuerta(Correr(ops), f) && f < |Correr(ops).sesiones|
      && (Correr(ops).sesiones[f].revocada.Some? <==> exists k | 0 <= k < j :: CierraLaFamilia(ops, k, f))
  {
    var f := Correr(ops[..j]).tokens[ops[j].hash].familia;
    AlcanzableValida(ops[..j]);
    assert ops[..j + 1][..j] == ops[..j];
    ReusoMataFamilia(Correr(ops[..j]), ops[j]);
    MuertaParaSiempre(ops, j + 1, f);
    SesionMuertaFija(ops, j + 1, f);
    CierrePorPaso(ops[..j + 1], f);
    SesionCerradaSi(ops[..j], f);
    assert forall k | 0 <= k < j :: ops[..j][..k] == ops[..k];
    assert forall k | 0 <= k < j :: CierraLaFamilia(ops[..j], k, f) <==> CierraLaFamilia(ops, k, f);
  }

  /** Such a replay is reachable with the session open: log in, refresh, and present the first token again. */
  lemma RoboConSesionAbierta(usuario: nat, membresia: nat, h: string, g: string, k: string, ahora: int)
    requires h != g
    ensures var ops := [Op.Abrir(usuario, Some(membresia), h, ahora), Op.Refrescar(h, ahora, g, ahora, true),
                        Op.Refrescar(h, ahora, k, ahora, true)];
      && RefrescarPaso(Correr(ops[..2]), h, ahora, k, ahora, true).1 == Err(TokenReusado)
      && FamiliaMuerta(Correr(ops), 0)
      && |Correr(ops).sesiones| == 1 && Correr(ops).sesiones[0].revocada == None
  {
    var ops := [Op.Abrir(usuario, Some(membresia), h, ahora), Op.Refrescar(h, ahora, g, ahora, true),
                Op.Refrescar(h, ahora, k, ahora, true)];
    assert ops[..2][..1] == ops[..1] && ops[..1][..0] == [];
    assert Correr(ops[..1]) == Base(map[h := Token(0, usuario, 0, ahora, None)], [Sesion(usuario, membresia, None)], 1);
    assert Correr(ops[..2]) == RefrescarPaso(Correr(ops[..1]), h, ahora, g, ahora, true).0;
    assert Correr(ops[..2]).tokens[h].revocado == Some(ahora);
    assert Correr(ops) == RefrescarPaso(Correr(ops[..2]), h, ahora, k, ahora, true).0;
  }

  // ---------- The calls, statement by statement ----------

  class Autenticacion {
    var tokens: map<string, Token>
    var sesiones: seq<Sesion>
    var familias: nat

    function Tablas(): Base
      reads this
    {
      Base(tokens, sesiones, familias)
    }

    ghost predicate Valid()
      reads this
    {
      Valida(Tablas())
    }

    constructor ()
      ensures Valid() && Tablas() == BaseVacia
    {
      tokens, sesiones, familias := map[], [], 0;
    }

    method InsertarToken(hash: string, t: Token) returns (ok: bool)
      modifies this`tokens
      ensures ok == (hash !in old(tokens))
      ensures tokens == if ok then old(tokens)[hash := t] else old(tokens)
    {
      ok := hash !in tokens;
      if ok { tokens := tokens[hash := t]; }
    }

    /** UPDATE refresh_tokens SET revoked_at ... WHERE family_id ... AND revoked_at IS NULL. */
    method RevocarPorFamilia(f: nat, ahora: int)
      modifies this`tokens
      ensures tokens == RevocarFamilia(old(tokens), f, ahora)
    {
      tokens := map h | h in tokens ::
        if tokens[h].familia == f && tokens[h].revocado.None? then tokens[h].(revocado := Some(ahora)) else tokens[h];
    }

    method RevocarToken(hash: string, ahora: int)
      requires hash in tokens
      modifies this`tokens
      ensures tokens == old(tokens)[hash := old(tokens)[hash].(revocado := Some(ahora))]
    {
      tokens := tokens[hash := tokens[hash].(revocado := Some(ahora))];
    }

    method Abrir(usuario: nat, membresia: Option<nat>, hash: string, vence: int) returns (r: Result<string, ErrorSesion>)
      requires Valid()
      modifies this
      ensures Valid() && (Tablas(), r) == AbrirPaso(old(Tablas()), usuario, membresia, hash, vence)
    {
      PasoConserva(Tablas(), Op.Abrir(usuario, membresia, hash, vence));
      if membresia.None? { return Err(Restriccion); }
      var previas := sesiones;
      sesiones := sesiones + [Sesion(usuario, membresia.value, None)];
      var ok := InsertarToken(hash, Token(|previas|, usuario, familias, vence, None));
      if !ok {
        sesiones := previas;
        return Err(Restriccion);
      }
      familias := familias + 1;
      r := Ok(hash);
    }

    method Refrescar(hash: string, ahora: int, nuevo: string, vence: int, activa: bool) returns (r: Result<string, ErrorSesion>)
      requires Valid()
      modifies this
      ensures Valid() && (Tablas(), r) == RefrescarPaso(old(Tablas()), hash, ahora, nuevo, vence, activa)
    {
      PasoConserva(Tablas(), Op.Refrescar(hash, ahora, nuevo, vence, activa));
      if hash !in tokens { return Err(TokenInvalido); }
      var t := tokens[hash];
      if t.revocado.Some? {
        RevocarPorFamilia(t.familia, ahora);
        return Err(TokenReusado);
      }
      if t.vence < ahora { return Err(TokenVencido); }
      var inicio := tokens;
      RevocarToken(hash, ahora);
      var ok := InsertarToken(nuevo, Token(t.sesion, t.usuario, t.familia, vence, None));
      if !ok {
        tokens := inicio;
        return Err(Restriccion);
      }
      if !activa {
        tokens := inicio;
        return Err(SinMembresia);
      }
      r := Ok(nuevo);
    }

    method Salir(hash: string, ahora: int)
      requires Valid()
      modifies this
      ensures Valid() && Tablas() == SalirPaso(old(Tablas()), hash, ahora)
    {
      PasoConserva(Tablas(), Op.Salir(hash, ahora));
      if hash !in tokens || tokens[hash].revocado.Some? { return; }
      var t := tokens[hash];
      RevocarToken(hash, ahora);
      sesiones := sesiones[t.sesion := sesiones[t.sesion].(revocada := Some(ahora))];
    }
  }
}
