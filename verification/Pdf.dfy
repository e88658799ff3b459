/** The file both PDF writers lay out, buildSimplePDF (internal/cobranzas/ledger.go) and Generate
    (internal/outbox/pdf.go), and a reader that finds objects and streams in it as sections 7.5.4, 7.5.5 and
    7.3.8 of ISO 32000-1 say: startxref, the cross-reference entry, the object, /Length bytes of stream.
    Each char stands for one byte. */
module Pdf {
  import opened Comun
  import opened Texto
  import opened Literales

  // ---------- The file both writers lay out ----------

  const ENCABEZADO := "%PDF-1.4\n"

  function Objeto(i: nat, contenido: string): string {
    Decimal(i) + " 0 obj\n" + contenido + "\nendobj\n"
  }

  function Cuerpo(objs: seq<string>): string {
    if objs == [] then ENCABEZADO else Cuerpo(objs[..|objs| - 1]) + Objeto(|objs|, objs[|objs| - 1])
  }

  /** Where object `k` starts. */
  function Posicion(objs: seq<string>, k: nat): nat
    requires 1 <= k <= |objs|
  {
    |Cuerpo(objs[..k - 1])|
  }

  function Entrada(desde: nat): string {
    ConAncho(desde, 10) + " 00000 n \n"
  }

  /** The entry of object 0, which is never in use. */
  const LIBRE := "0000000000 65535 f \n"

  function EntradaDe(objs: seq<string>, k: nat): string
    requires k <= |objs|
  {
    if k == 0 then LIBRE else Entrada(Posicion(objs, k))
  }

  /** The cross-reference entries of objects 0 to `k`. */
  function Entradas(objs: seq<string>, k: nat): string
    requires k <= |objs|
  {
    if k == 0 then LIBRE else Entradas(objs, k - 1) + EntradaDe(objs, k)
  }

  function Cabecera(n: nat): string {
    XREF + Decimal(n) + "\n"
  }

  /** A reference to object `n`. */
  function Ref(n: nat): string {
    Decimal(n) + " 0 R"
  }

  const XREF := "xref\n0 "
  const TRAILER := "trailer\n"
  const INICIO := "startxref\n"
  const FIN := "\n%%EOF\n"

  function Cola(n: nat, xref: nat): string {
    TRAILER + Diccionario(n) + INICIO + Decimal(xref) + FIN
  }

  function Diccionario(n: nat): string {
    "<< /Size " + Decimal(n + 1) + " " + "/Root " + Ref(1) + " >>\n"
  }

  function Documento(objs: seq<string>): string {
    Cuerpo(objs) + Cabecera(|objs| + 1) + Entradas(objs, |objs|) + Cola(|objs|, |Cuerpo(objs)|)
  }

  // ---------- The reader ----------

  predicate EsDigito(c: char) {
    '0' <= c <= '9'
  }

  function DigitosIniciales(s: string): (d: string)
    ensures d <= s
  {
    if s != "" && EsDigito(s[0]) then [s[0]] + DigitosIniciales(s[1..]) else ""
  }

  function DigitosFinales(s: string): (d: string)
    ensures |d| <= |s|
  {
    if s != "" && EsDigito(s[|s| - 1]) then DigitosFinales(s[..|s| - 1]) + [s[|s| - 1]] else ""
  }

  predicate TerminaEn(s: string, fin: string) {
    |fin| <= |s| && s[|s| - |fin|..] == fin
  }

  /** 7.5.5: the number between startxref and the end-of-file marker. */
  function InicioXref(doc: string): Option<int> {
    if !TerminaEn(doc, FIN) then None
    else
      var s := doc[..|doc| - |FIN|];
      var d := DigitosFinales(s);
      if d != "" && TerminaEn(s[..|s| - |d|], INICIO) then Some(LeerDecimal(d)) else None
  }

  /** How many entries the section that starts at `x` says it has. */
  function CuentaXref(doc: string, x: int): (d: string)
    ensures d != "" ==> 0 <= x <= |doc|
  {
    if 0 <= x <= |doc| && XREF <= doc[x..] then DigitosIniciales(doc[x..][7..]) else ""
  }

  /** 7.5.4: the 20-byte entry of object `k` in the section that starts at `x`. */
  function EntradaXref(doc: string, x: int, k: nat): Option<string> {
    var d := CuentaXref(doc, x);
    var p := x + 8 + |d| + 20 * k;
    if d != "" && k < LeerDecimal(d) && p + 20 <= |doc| then Some(doc[p..p + 20]) else None
  }

  /** 7.5.5: what follows the keyword trailer, which follows the last entry. */
  function Trailer(doc: string): Option<string> {
    match InicioXref(doc)
    case None => None
    case Some(x) =>
      var d := CuentaXref(doc, x);
      var p := x + 8 + |d| + 20 * LeerDecimal(d);
      if d != "" && 0 <= p <= |doc| && TRAILER <= doc[p..] then Some(doc[p..][8..]) else None
  }

  /** The offset held by an in-use entry. */
  function OffsetDe(e: string): Option<int> {
    if |e| == 20 && e[10..] == " 00000 n \n" && SoloDigitos(e[..10]) then Some(LeerDecimal(e[..10])) else None
  }

  /** What follows `k 0 obj` where the cross-reference table says object `k` is. */
  function ObjetoEn(doc: string, k: nat): Option<string> {
    match InicioXref(doc)
    case None => None
    case Some(x) =>
      match EntradaXref(doc, x, k)
      case None => None
      case Some(e) =>
        match OffsetDe(e)
        case None => None
        case Some(off) =>
          var marca := Decimal(k) + " 0 obj\n";
          if 0 <= off <= |doc| && marca <= doc[off..] then Some(doc[off..][|marca|..]) else None
  }

  /** `endstream`, before which one line end may stand. */
  predicate Cierra(s: string) {
    "endstream" <= s || "\nendstream" <= s
  }

  /** The bytes counted by the number between two marks, if the stream closes after them. */
  function FlujoEntre(s: string, abre: string, medio: string): Option<string> {
    if !(abre <= s) then None
    else
      var d := DigitosIniciales(s[|abre|..]);
      var n := LeerDecimal(d);
      var cola := s[|abre| + |d|..];
      if d == "" || !(medio <= cola) then None
      else
        var resto := cola[|medio|..];
        if 0 <= n <= |resto| && Cierra(resto[n..]) then Some(resto[..n]) else None
  }

  const LARGO := "<< /Length "
  const FLUJO := " >>\nstream\n"

  /** 7.3.8: /Length bytes between `stream` and `endstream`. */
  function FlujoDe(s: string): Option<string> {
    FlujoEntre(s, LARGO, FLUJO)
  }

  // ---------- Numbers within text ----------

  lemma {:induction false} DigitosInicialesDe(d: string, resto: string)
    requires SoloDigitos(d) && (resto == "" || !EsDigito(resto[0]))
    ensures DigitosIniciales(d + resto) == d
  {
    if d == "" {
      assert d + resto == resto;
    } else {
      assert (d + resto)[1..] == d[1..] + resto;
      DigitosInicialesDe(d[1..], resto);
    }
  }

  lemma {:induction false} DigitosFinalesDe(previo: string, d: string)
    requires SoloDigitos(d) && previo != "" && !EsDigito(previo[|previo| - 1])
    ensures DigitosFinales(previo + d) == d
  {
    if d == "" {
      assert previo + d == previo;
    } else {
      assert (previo + d)[..|previo + d| - 1] == previo + d[..|d| - 1];
      DigitosFinalesDe(previo, d[..|d| - 1]);
    }
  }

  // ---------- Where things are ----------

  lemma TrasPrefijo(a: string, b: string)
    ensures (a + b)[|a|..] == b && (a + b)[..|a|] == a
  {
  }

  /** Each object stands where its position says, whatever follows it. */
  lemma {:induction false} ObjetoEnCuerpo(objs: seq<string>, k: nat)
    requires 1 <= k <= |objs|
    ensures Posicion(objs, k) + |Objeto(k, objs[k - 1])| <= |Cuerpo(objs)|
    ensures Objeto(k, objs[k - 1]) <= Cuerpo(objs)[Posicion(objs, k)..]
  {
    var n := |objs|;
    var previo := objs[..n - 1];
    if k < n {
      ObjetoEnCuerpo(previo, k);
      assert previo[..k - 1] == objs[..k - 1];
      assert Cuerpo(objs)[Posicion(objs, k)..] == Cuerpo(previo)[Posicion(objs, k)..] + Objeto(n, objs[n - 1]);
    } else {
      assert Cuerpo(objs)[Posicion(objs, k)..] == Objeto(n, objs[n - 1]);
    }
  }

  lemma Diez()
    ensures Potencia10(10) == 10000000000
  {
    assert Potencia10(5) == 100000;
    assert Potencia10(10) == 100000 * Potencia10(5);
  }

  lemma EntradaOk(desde: nat)
    requires desde < 10000000000
    ensures |Entrada(desde)| == 20 && OffsetDe(Entrada(desde)) == Some(desde)
  {
    Diez();
    ConAnchoSeLee(desde, 10);
    assert Entrada(desde)[..10] == ConAncho(desde, 10);
    assert Entrada(desde)[10..] == " 00000 n \n";
  }

  lemma TrozoDelPrimero(a: string, b: string, desde: nat, hasta: nat)
    requires desde <= hasta <= |a|
    ensures (a + b)[desde..hasta] == a[desde..hasta]
  {
  }

  lemma TrozoDelSegundo(a: string, b: string)
    ensures (a + b)[|a|..|a| + |b|] == b
  {
  }

  lemma LargoEntrada(objs: seq<string>, k: nat)
    requires k <= |objs| && |Cuerpo(objs)| < 10000000000
    ensures |EntradaDe(objs, k)| == 20
  {
    if k > 0 {
      ObjetoEnCuerpo(objs, k);
      EntradaOk(Posicion(objs, k));
    }
  }

  /** A table with one entry more: the new one is its last, and the others stay where they were. */
  lemma UnaEntradaMas(tabla: string, ultima: string, n: nat, k: nat, e: string)
    requires |tabla| == 20 * n && |ultima| == 20 && k <= n
    requires if k == n then e == ultima else 20 * k + 20 <= |tabla| && tabla[20 * k..20 * k + 20] == e
    ensures |tabla + ultima| == 20 * (n + 1) && (tabla + ultima)[20 * k..20 * k + 20] == e
  {
    if k == n {
      TrozoDelSegundo(tabla, ultima);
    } else {
      TrozoDelPrimero(tabla, ultima, 20 * k, 20 * k + 20);
    }
  }

  /** The table is 20 bytes an entry, and each holds its object's position. */
  lemma {:induction false} EntradaEnTabla(objs: seq<string>, n: nat, k: nat)
    requires k <= n <= |objs| && |Cuerpo(objs)| < 10000000000
    ensures |Entradas(objs, n)| == 20 * (n + 1)
    ensures Entradas(objs, n)[20 * k..20 * k + 20] == EntradaDe(objs, k)
  {
    LargoEntrada(objs, n);
    if n == 0 {
      TodoElTrozo(EntradaDe(objs, 0));
    } else {
      EntradaEnTabla(objs, n - 1, if k < n then k else 0);
      UnaEntradaMas(Entradas(objs, n - 1), EntradaDe(objs, n), n, k, EntradaDe(objs, k));
    }
  }

  lemma TodoElTrozo(a: string)
    requires |a| == 20
    ensures a[20 * 0..20 * 0 + 20] == a
  {
  }

  lemma InicioEntre(s: string, d: string)
    requires d != "" && SoloDigitos(d)
    ensures InicioXref(s + INICIO + d + FIN) == Some(LeerDecimal(d))
  {
    var s0 := s + INICIO;
    assert s0[|s0| - 1] == '\n';
    TrasPrefijo(s0 + d, FIN);
    TrasPrefijo(s0, d);
    TrasPrefijo(s, INICIO);
    DigitosFinalesDe(s0, d);
  }

  lemma InicioEncontrado(previo: string, n: nat, xref: nat)
    ensures InicioXref(previo + Cola(n, xref)) == Some(xref)
  {
    DecimalSeLee(xref);
    InicioEntre(previo + (TRAILER + Diccionario(n)), Decimal(xref));
    AsociarCola(previo, TRAILER + Diccionario(n), INICIO, Decimal(xref), FIN);
  }

  lemma AsociarCola(a: string, b: string, c: string, d: string, e: string)
    ensures a + (b + c + d + e) == a + b + c + d + e
  {
  }

  lemma AsociarCabecera(a: string, b: string, c: string, d: string, e: string)
    ensures a + (b + c + d) + e == a + (b + (c + (d + e)))
  {
  }

  lemma CuentaEncontrada(previo: string, m: nat, resto: string)
    ensures CuentaXref(previo + Cabecera(m) + resto, |previo|) == Decimal(m)
  {
    var d, t := Decimal(m), "\n" + resto;
    DecimalSeLee(m);
    AsociarCabecera(previo, XREF, d, "\n", resto);
    TrasPrefijo(previo, XREF + (d + t));
    CuentaLeida(d, t);
  }

  lemma CuentaLeida(d: string, t: string)
    requires SoloDigitos(d) && t != "" && !EsDigito(t[0])
    ensures XREF <= XREF + (d + t) && DigitosIniciales((XREF + (d + t))[7..]) == d
  {
    TrasPrefijo(XREF, d + t);
    DigitosInicialesDe(d, t);
  }

  lemma TrozoEnMedio(a: string, b: string, c: string, desde: nat, hasta: nat)
    requires desde <= hasta <= |b|
    ensures |a| + hasta <= |a + b + c| && (a + b + c)[|a| + desde..|a| + hasta] == b[desde..hasta]
  {
  }

  lemma LargoCabecera(m: nat)
    ensures |Cabecera(m)| == 8 + |Decimal(m)|
  {
  }

  lemma EntradaEncontrada(previo: string, m: nat, tabla: string, cola: string, k: nat)
    requires |tabla| == 20 * m && k < m
    ensures EntradaXref(previo + Cabecera(m) + tabla + cola, |previo|, k) == Some(tabla[20 * k..20 * k + 20])
  {
    DecimalSeLee(m);
    LargoCabecera(m);
    assert previo + Cabecera(m) + tabla + cola == previo + Cabecera(m) + (tabla + cola);
    CuentaEncontrada(previo, m, tabla + cola);
    TrozoEnMedio(previo + Cabecera(m), tabla, cola, 20 * k, 20 * k + 20);
  }

  /** Past the entries stands the trailer. */
  lemma TrailerEncontrado(previo: string, m: nat, tabla: string, fin: string)
    requires |tabla| == 20 * m
    requires InicioXref(previo + Cabecera(m) + tabla + (TRAILER + fin)) == Some(|previo|)
    ensures Trailer(previo + Cabecera(m) + tabla + (TRAILER + fin)) == Some(fin)
  {
    DecimalSeLee(m);
    LargoCabecera(m);
    var doc := previo + Cabecera(m) + tabla + (TRAILER + fin);
    assert doc == previo + Cabecera(m) + (tabla + (TRAILER + fin));
    CuentaEncontrada(previo, m, tabla + (TRAILER + fin));
    TrasPrefijo(previo + Cabecera(m) + tabla, TRAILER + fin);
    TrasPrefijo(TRAILER, fin);
  }

  lemma TrailerDelDocumento(objs: seq<string>)
    requires |Cuerpo(objs)| < 10000000000
    ensures Trailer(Documento(objs)) == Some(Diccionario(|objs|) + INICIO + Decimal(|Cuerpo(objs)|) + FIN)
  {
    var n, x := |objs|, |Cuerpo(objs)|;
    var fin := Diccionario(n) + INICIO + Decimal(x) + FIN;
    InicioEncontrado(Cuerpo(objs) + Cabecera(n + 1) + Entradas(objs, n), n, x);
    EntradaEnTabla(objs, n, 0);
    AsociarTrailer(TRAILER, Diccionario(n), INICIO, Decimal(x), FIN);
    TrailerEncontrado(Cuerpo(objs), n + 1, Entradas(objs, n), fin);
  }

  lemma AsociarTrailer(a: string, b: string, c: string, d: string, e: string)
    ensures a + b + c + d + e == a + (b + c + d + e)
  {
  }

  lemma XrefDelDocumento(objs: seq<string>, k: nat)
    requires k <= |objs| && |Cuerpo(objs)| < 10000000000
    ensures InicioXref(Documento(objs)) == Some(|Cuerpo(objs)|)
    ensures EntradaXref(Documento(objs), |Cuerpo(objs)|, k)
         == Some(if k == 0 then LIBRE else Entrada(Posicion(objs, k)))
  {
    var n, x := |objs|, |Cuerpo(objs)|;
    InicioEncontrado(Cuerpo(objs) + Cabecera(n + 1) + Entradas(objs, n), n, x);
    EntradaEnTabla(objs, n, k);
    EntradaEncontrada(Cuerpo(objs), n + 1, Entradas(objs, n), Cola(n, x), k);
  }

  lemma AsociarDocumento(a: string, b: string, c: string, d: string)
    ensures a + b + c + d == a + (b + (c + d))
  {
  }

  lemma EmpiezaConXref(m: nat, resto: string)
    ensures XREF <= Cabecera(m) + resto && |Cabecera(m) + resto| > 0
  {
    assert Cabecera(m) + resto == XREF + (Decimal(m) + "\n" + resto);
    TrasPrefijo(XREF, Decimal(m) + "\n" + resto);
  }

  lemma CuerpoDelDocumento(objs: seq<string>)
    ensures Cuerpo(objs) <= Documento(objs) && |Cuerpo(objs)| < |Documento(objs)|
    ensures XREF <= Documento(objs)[|Cuerpo(objs)|..]
  {
    var n := |objs|;
    var resto := Entradas(objs, n) + Cola(n, |Cuerpo(objs)|);
    AsociarDocumento(Cuerpo(objs), Cabecera(n + 1), Entradas(objs, n), Cola(n, |Cuerpo(objs)|));
    EmpiezaConXref(n + 1, resto);
    TrasPrefijo(Cuerpo(objs), Cabecera(n + 1) + resto);
  }

  lemma PrefijoSigue(a: string, doc: string, pos: nat, parte: string)
    requires a <= doc && pos <= |a| && parte <= a[pos..]
    ensures parte <= doc[pos..]
  {
    assert doc[pos..] == a[pos..] + doc[|a|..];
  }

  /** Every file the writers lay out, of any objects, under 10^10 bytes: startxref points at the table,
      entry 0 is the free one, and entry `k` holds, in 20 bytes, the offset where `k 0 obj` starts. */
  lemma TablaCorrecta(objs: seq<string>, k: nat)
    requires k <= |objs| && |Documento(objs)| < 10000000000
    ensures var doc := Documento(objs); var x := |Cuerpo(objs)|;
      && InicioXref(doc) == Some(x) && x < |doc| && XREF <= doc[x..]
      && EntradaXref(doc, x, k).Some?
      && var e := EntradaXref(doc, x, k).value;
         if k == 0 then e == LIBRE
         else |e| == 20 && OffsetDe(e) == Some(Posicion(objs, k)) && Posicion(objs, k) < x
              && Objeto(k, objs[k - 1]) <= doc[Posicion(objs, k)..]
  {
    CuerpoDelDocumento(objs);
    XrefDelDocumento(objs, k);
    if k > 0 {
      ObjetoEnCuerpo(objs, k);
      EntradaOk(Posicion(objs, k));
      PrefijoSigue(Cuerpo(objs), Documento(objs), Posicion(objs, k), Objeto(k, objs[k - 1]));
    }
  }

  lemma PrefijoPartido(a: string, b: string, s: string)
    requires a + b <= s
    ensures a <= s && b <= s[|a|..]
  {
    assert s[..|a + b|] == a + b;
    assert s[|a|..][..|b|] == b;
  }

  lemma AsociarCuatro(a: string, b: string, c: string, d: string)
    ensures a + b + c + d == (a + b) + (c + d)
  {
  }

  /** So the reader reaches the contents of every object. */
  lemma ObjetoAlcanzado(objs: seq<string>, k: nat)
    requires 1 <= k <= |objs| && |Documento(objs)| < 10000000000
    ensures ObjetoEn(Documento(objs), k).Some? && objs[k - 1] <= ObjetoEn(Documento(objs), k).value
  {
    TablaCorrecta(objs, k);
    ContenidoDelObjeto(k, objs[k - 1], Documento(objs)[Posicion(objs, k)..]);
  }

  lemma ContenidoDelObjeto(k: nat, contenido: string, s: string)
    requires Objeto(k, contenido) <= s
    ensures var marca := Decimal(k) + " 0 obj\n"; marca <= s && contenido <= s[|marca|..]
  {
    var marca, fin := Decimal(k) + " 0 obj\n", "\nendobj\n";
    AsociarCuatro(Decimal(k), " 0 obj\n", contenido, fin);
    PrefijoPartido(marca, contenido + fin, s);
    PrefijoPartido(contenido, fin, s[|marca|..]);
  }

  function Flujo(contenido: string, fin: string): string {
    LARGO + Decimal(|contenido|) + FLUJO + contenido + fin
  }

  lemma AsociarSeis(a: string, b: string, c: string, d: string, e: string, f: string)
    ensures a + b + c + d + e + f == a + (b + (c + (d + (e + f))))
  {
  }

  lemma FlujoLeido(abre: string, medio: string, d: string, contenido: string, cola: string)
    requires medio != "" && !EsDigito(medio[0]) && Cierra(cola)
    requires d != "" && SoloDigitos(d) && LeerDecimal(d) == |contenido|
    ensures FlujoEntre(abre + (d + (medio + (contenido + cola))), abre, medio) == Some(contenido)
  {
    NumeroTras(abre, d, medio + (contenido + cola));
    TrasPrefijo(medio, contenido + cola);
    TrasPrefijo(contenido, cola);
  }

  /** The number after a mark, and what follows it. */
  lemma NumeroTras(abre: string, d: string, t: string)
    requires SoloDigitos(d) && t != "" && !EsDigito(t[0])
    ensures var s := abre + (d + t); abre <= s && DigitosIniciales(s[|abre|..]) == d && s[|abre| + |d|..] == t
  {
    TrasPrefijo(abre, d + t);
    DigitosInicialesDe(d, t);
    assert abre + (d + t) == (abre + d) + t;
    TrasPrefijo(abre + d, t);
  }

  lemma CierraSiempre(fin: string, resto: string)
    requires fin == "endstream" || fin == "\nendstream"
    ensures Cierra(fin + resto)
  {
    TrasPrefijo(fin, resto);
  }

  /** /Length counts the stream's bytes. */
  lemma LargoCorrecto(contenido: string, fin: string, resto: string)
    requires fin == "endstream" || fin == "\nendstream"
    ensures FlujoDe(Flujo(contenido, fin) + resto) == Some(contenido)
  {
    CierraSiempre(fin, resto);
    DecimalSeLee(|contenido|);
    FlujoLeido(LARGO, FLUJO, Decimal(|contenido|), contenido, fin + resto);
    AsociarSeis(LARGO, Decimal(|contenido|), FLUJO, contenido, fin, resto);
  }
}
