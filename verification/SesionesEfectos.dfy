/** When a refresh token is accepted and what each call leaves in the rows (internal/identity/auth.go). */
module SesionesEfectos {
  import opened Comun
  import opened Sesiones

  /** A token is accepted if and only if it is stored, live and not yet expired, the membership lets the user in and
      the successor's hash is new. */
  lemma AceptaSi(b: Base, op: Op)
    ensures Acepta(b, op) <==>
      op.Refrescar? && op.hash in b.tokens && b.tokens[op.hash].revocado == None && b.tokens[op.hash].vence >= op.ahora
      && op.activa && op.nuevo !in b.tokens
  {
  }

  /** The rows but those of `hashes` are untouched. */
  ghost predicate SalvoEn(ts: map<string, Token>, ts': map<string, Token>, hashes: set<string>) {
    forall h | h !in hashes :: (h in ts <==> h in ts') && (h in ts && h in ts' ==> ts'[h] == ts[h])
  }

  /** An accepted token is spent at that moment, and its successor is live, of the same session, user and family, until
      the expiry given. Nothing else changes. */
  lemma RefrescarEscribe(b: Base, op: Op)
    requires Acepta(b, op)
    ensures var (b', r) := RefrescarPaso(b, op.hash, op.ahora, op.nuevo, op.vence, op.activa); var t := b.tokens[op.hash];
      && r == Ok(op.nuevo) && b'.sesiones == b.sesiones && b'.familias == b.familias
      && SalvoEn(b.tokens, b'.tokens, {op.hash, op.nuevo})
      && op.hash in b'.tokens && b'.tokens[op.hash] == t.(revocado := Some(op.ahora))
      && op.nuevo in b'.tokens && b'.tokens[op.nuevo] == t.(vence := op.vence, revocado := None)
  {
  }

  /** A token refused changes nothing, unless it was a spent one: then every live token of its family is revoked at that
      moment, and no other row changes. */
  lemma RefrescarRechaza(b: Base, op: Op)
    requires op.Refrescar? && !Acepta(b, op)
    ensures var (b', r) := RefrescarPaso(b, op.hash, op.ahora, op.nuevo, op.vence, op.activa);
      && b'.sesiones == b.sesiones && b'.familias == b.familias && b'.tokens.Keys == b.tokens.Keys
      && (r == Err(TokenReusado) <==> op.hash in b.tokens && b.tokens[op.hash].revocado != None)
      && (r != Err(TokenReusado) ==> b' == b)
      && (r == Err(TokenReusado) ==> forall h | h in b.tokens ::
            b'.tokens[h] == if Vivo(b, h) && b.tokens[h].familia == b.tokens[op.hash].familia
                            then b.tokens[h].(revocado := Some(op.ahora)) else b.tokens[h])
      && (r == Err(TokenInvalido) <==> op.hash !in b.tokens)
      && (r == Err(TokenVencido) <==> Vivo(b, op.hash) && b.tokens[op.hash].vence < op.ahora)
  {
  }

  /** A login opens one session of the user and one live token of a family and a session of its own. */
  lemma AbrirEscribe(b: Base, usuario: nat, membresia: Option<nat>, hash: string, vence: int)
    ensures var (b', r) := AbrirPaso(b, usuario, membresia, hash, vence);
      && (r.Ok? <==> membresia.Some? && hash !in b.tokens)
      && (r.Err? ==> b' == b)
      && (r.Ok? ==>
            && SalvoEn(b.tokens, b'.tokens, {hash}) && hash in b'.tokens
            && b'.tokens[hash] == Token(|b.sesiones|, usuario, b.familias, vence, None)
            && b'.sesiones == b.sesiones + [Sesion(usuario, membresia.value, None)] && b'.familias == b.familias + 1)
  {
  }

  /** A logout with a live token revokes it and closes its session at that moment, and nothing else; any other logout does nothing. */
  lemma SalirEscribe(b: Base, hash: string, ahora: int)
    requires Valida(b)
    ensures var b' := SalirPaso(b, hash, ahora);
      if Vivo(b, hash) then
        && SalvoEn(b.tokens, b'.tokens, {hash}) && hash in b'.tokens && b'.tokens[hash] == b.tokens[hash].(revocado := Some(ahora))
        && var s := b.tokens[hash].sesion;
           b'.sesiones == b.sesiones[s := b.sesiones[s].(revocada := Some(ahora))] && b'.familias == b.familias
      else b' == b
  {
  }

  // ---------- Over runs ----------

  /** A token belongs to the user of its session. */
  ghost predicate DelUsuario(b: Base) {
    forall h | h in b.tokens :: b.tokens[h].sesion < |b.sesiones| && b.tokens[h].usuario == b.sesiones[b.tokens[h].sesion].usuario
  }

  lemma {:induction false} SiempreDelUsuario(ops: seq<Op>)
    ensures DelUsuario(Correr(ops))
  {
    if ops != [] {
      SiempreDelUsuario(ops[..|ops| - 1]);
      AlcanzableValida(ops[..|ops| - 1]);
    }
  }

  /** `op` ends the life of token `h`: it exchanges it, logs out with it, or brings back a spent token of its family. */
  predicate Termina(b: Base, op: Op, h: string) {
    && h in b.tokens
    && (|| (Acepta(b, op) && op.hash == h)
        || (op.Salir? && op.hash == h)
        || (op.Refrescar? && op.hash in b.tokens && b.tokens[op.hash].revocado.Some? && b.tokens[op.hash].familia == b.tokens[h].familia))
  }

  ghost predicate Apaga(ops: seq<Op>, k: nat, h: string)
    requires k < |ops|
  {
    Termina(Correr(ops[..k]), ops[k], h)
  }

  lemma SigueVivoSi(b: Base, op: Op, h: string)
    requires Vivo(b, h)
    ensures h in Paso(b, op).tokens && Paso(b, op).tokens[h].vence == b.tokens[h].vence
    ensures Vivo(Paso(b, op), h) <==> !Termina(b, op, h)
  {
  }

  lemma VenceFijo(b: Base, op: Op, h: string)
    requires h in b.tokens
    ensures h in Paso(b, op).tokens && Paso(b, op).tokens[h].vence == b.tokens[h].vence
  {
  }

  lemma UnPasoMas(b: Base, op: Op, h: string)
    requires h in b.tokens
    ensures h in Paso(b, op).tokens && Paso(b, op).tokens[h].vence == b.tokens[h].vence
    ensures Vivo(Paso(b, op), h) <==> Vivo(b, h) && !Termina(b, op, h)
  {
    VenceFijo(b, op, h);
    TokenPersiste(b, op, h);
    if Vivo(b, h) {
      SigueVivoSi(b, op, h);
    }
  }

  lemma NaceVivo(b: Base, op: Op, h: string)
    requires h !in b.tokens && h in Paso(b, op).tokens
    ensures Vivo(Paso(b, op), h)
  {
  }

  ghost predicate NadieApaga(ops: seq<Op>, i: nat, h: string) {
    forall k | i < k < |ops| :: !Apaga(ops, k, h)
  }

  lemma NadieApagaUnoMas(ops: seq<Op>, i: nat, h: string)
    requires i < |ops| - 1
    ensures var n := |ops| - 1; NadieApaga(ops, i, h) <==> NadieApaga(ops[..n], i, h) && !Termina(Correr(ops[..n]), ops[n], h)
  {
    var n := |ops| - 1;
    assert forall k | i < k < n :: ops[..n][..k] == ops[..k];
    assert forall k | i < k < n :: Apaga(ops[..n], k, h) <==> Apaga(ops, k, h);
    assert Apaga(ops, n, h) <==> Termina(Correr(ops[..n]), ops[n], h);
  }

  /** Operation `i` hands out token `h`. */
  ghost predicate Nace(ops: seq<Op>, i: nat, h: string)
    requires i < |ops|
  {
    h !in Correr(ops[..i]).tokens && h in Correr(ops[..i + 1]).tokens
  }

  lemma NaceAntes(ops: seq<Op>, i: nat, h: string)
    requires i < |ops| - 1 && Nace(ops, i, h)
    ensures Nace(ops[..|ops| - 1], i, h)
  {
    var n := |ops| - 1;
    assert ops[..n][..i] == ops[..i] && ops[..n][..i + 1] == ops[..i + 1];
  }

  lemma {:induction false} VivoSiNadie(ops: seq<Op>, i: nat, h: string)
    requires i < |ops| && Nace(ops, i, h)
    ensures h in Correr(ops).tokens && (Vivo(Correr(ops), h) <==> NadieApaga(ops, i, h))
    decreases |ops|
  {
    var n := |ops| - 1;
    if i == n {
      assert ops[..i + 1] == ops;
      NaceVivo(Correr(ops[..n]), ops[n], h);
    } else {
      NaceAntes(ops, i, h);
      VivoSiNadie(ops[..n], i, h);
      NadieApagaUnoMas(ops, i, h);
      UnPasoMas(Correr(ops[..n]), ops[n], h);
    }
  }

  lemma {:induction false} VenceSiempre(ops: seq<Op>, n: nat, h: string)
    requires n <= |ops| && h in Correr(ops[..n]).tokens
    ensures h in Correr(ops).tokens && Correr(ops).tokens[h].vence == Correr(ops[..n]).tokens[h].vence
    decreases |ops|
  {
    if n == |ops| {
      assert ops[..n] == ops;
    } else {
      assert ops[..|ops| - 1][..n] == ops[..n];
      VenceSiempre(ops[..|ops| - 1], n, h);
      VenceFijo(Correr(ops[..|ops| - 1]), ops[|ops| - 1], h);
    }
  }

  /** A token handed out by operation `i` is live at the end of a run if and only if nothing since has ended its life, and keeps
      the expiry it was given. */
  lemma VivoSi(ops: seq<Op>, i: nat, h: string)
    requires i < |ops| && Nace(ops, i, h)
    ensures h in Correr(ops).tokens && Correr(ops).tokens[h].vence == Correr(ops[..i + 1]).tokens[h].vence
    ensures Vivo(Correr(ops), h) <==> forall k | i < k < |ops| :: !Apaga(ops, k, h)
  {
    VivoSiNadie(ops, i, h);
    VenceSiempre(ops, i + 1, h);
  }

  /** So, whatever has happened, the token operation `i` handed out is accepted if and only if nothing has ended its life, its own
      expiry has not passed, the membership lets the user in and the successor is new. */
  lemma AceptadoSi(ops: seq<Op>, i: nat, op: Op)
    requires op.Refrescar? && i < |ops| && Nace(ops, i, op.hash)
    ensures Acepta(Correr(ops), op) <==>
      (forall k | i < k < |ops| :: !Apaga(ops, k, op.hash))
      && Correr(ops[..i + 1]).tokens[op.hash].vence >= op.ahora && op.activa && op.nuevo !in Correr(ops).tokens
  {
    VivoSi(ops, i, op.hash);
    AceptaSi(Correr(ops), op);
  }
}
