/** Reading a PDF from its end to its page, as sections 7.5.5, 7.7.2 and 7.7.3 of ISO 32000-1 say: the trailer
    names the catalog, the catalog the page tree, the tree the page, and the page its content stream. */
module PdfArbol {
  import opened Comun
  import opened Texto
  import opened Literales
  import opened Pdf

  // ---------- The reader ----------

  /** What follows the first `clave`. */
  function Buscar(s: string, clave: string): Option<string> {
    if clave <= s then Some(s[|clave|..])
    else if s == "" then None
    else Buscar(s[1..], clave)
  }

  /** The object referred to under a key. */
  function Referencia(s: string, clave: string): Option<int> {
    match Buscar(s, clave)
    case None => None
    case Some(t) =>
      var d := DigitosIniciales(t);
      if d != "" && " 0 R" <= t[|d|..] then Some(LeerDecimal(d)) else None
  }

  /** The object that `s` refers to under a key. */
  function Seguir(doc: string, s: Option<string>, clave: string): Option<string> {
    match s
    case None => None
    case Some(t) =>
      match Referencia(t, clave)
      case None => None
      case Some(k) => if k < 0 then None else ObjetoEn(doc, k)
  }

  /** The literal strings a content stream shows, in order. */
  function Textos(s: string): seq<string>
    decreases |s|
  {
    if s == "" then []
    else if s[0] == '(' then
      match LeerLiteral(s[1..], 0)
      case None => []
      case Some((t, resto)) => [t] + Textos(resto)
    else Textos(s[1..])
  }

  const ROOT := "/Root "
  const PAGES := "/Pages "
  const KIDS := "/Kids ["
  const CONTENTS := "/Contents "

  /** From the trailer to the catalog, the page tree and its page. */
  function PaginaDe(doc: string): Option<string> {
    Seguir(doc, Seguir(doc, Seguir(doc, Trailer(doc), ROOT), PAGES), KIDS)
  }

  /** The texts on the page of a file. */
  function LeerPagina(doc: string): Option<seq<string>> {
    match Seguir(doc, PaginaDe(doc), CONTENTS)
    case None => None
    case Some(s) =>
      match FlujoDe(s)
      case None => None
      case Some(flujo) => Some(Textos(flujo))
  }

  // ---------- The objects of the tree ----------

  const CATALOGO := "<< /Type /Catalog " + PAGES + Ref(2) + " >>"
  const PAGINAS := "<< /Type /Pages " + KIDS + Ref(3) + "] /Count 1 >>"
  const PAGINA := "<< /Type /Page /Parent 2 0 R " + "/MediaBox [0 0 612 792] "
  const FUENTE := "/Resources << " + "/Font << /F1 4 0 R >> >> "
  const PAGINA_RECIBO := (PAGINA + FUENTE) + CONTENTS + Ref(5) + " >>"
  const PAGINA_LIQUIDACION := PAGINA + CONTENTS + Ref(4) + " /Resources << /Font << /F1 5 0 R >> >> >>"

  // ---------- Finding a key ----------

  /** No key of `a` starts with this letter. */
  predicate SinClave(a: string, letra: char) {
    forall i | 0 <= i < |a| && a[i] == '/' :: i + 1 < |a| && a[i + 1] != letra
  }

  lemma SinClaveJuntos(a: string, b: string, letra: char)
    requires SinClave(a, letra) && SinClave(b, letra)
    ensures SinClave(a + b, letra)
  {
    forall i | 0 <= i < |a + b| && (a + b)[i] == '/' ensures i + 1 < |a + b| && (a + b)[i + 1] != letra {
      if i < |a| {
        assert a[i] == '/';
      } else {
        assert b[i - |a|] == '/';
      }
    }
  }

  /** The first key that starts with its letter is found. */
  lemma {:induction false} BuscarTras(a: string, clave: string, b: string)
    requires |clave| >= 2 && clave[0] == '/' && SinClave(a, clave[1])
    ensures Buscar(a + clave + b, clave) == Some(b)
  {
    var s := a + clave + b;
    if a == "" {
      assert s == clave + b;
      TrasPrefijo(clave, b);
    } else {
      assert s[0] == a[0] && s[1] == (a + clave)[1];
      assert s[1..] == a[1..] + clave + b;
      forall i | 0 <= i < |a[1..]| && a[1..][i] == '/' ensures i + 1 < |a[1..]| && a[1..][i + 1] != clave[1] {
        assert a[i + 1] == '/';
      }
      BuscarTras(a[1..], clave, b);
    }
  }

  /** The reference under a key, in a text that starts as an object of the tree does. */
  lemma ReferenciaLeida(s: string, antes: string, clave: string, n: nat, despues: string)
    requires |clave| >= 2 && clave[0] == '/' && SinClave(antes, clave[1])
    requires antes + clave + Ref(n) + despues <= s
    ensures Referencia(s, clave) == Some(n)
  {
    var resto := s[|antes + clave + Ref(n) + despues|..];
    var t := Ref(n) + (despues + resto);
    assert s == antes + clave + t;
    BuscarTras(antes, clave, t);
    DecimalSeLee(n);
    assert t == Decimal(n) + (" 0 R" + (despues + resto));
    DigitosInicialesDe(Decimal(n), " 0 R" + (despues + resto));
    TrasPrefijo(Decimal(n), " 0 R" + (despues + resto));
    TrasPrefijo(" 0 R", despues + resto);
  }

  // ---------- The four steps ----------

  lemma SinRoot(d: string)
    requires SoloDigitos(d)
    ensures SinClave("<< /Size " + d + " ", 'R')
  {
    var a := "<< /Size ";
    assert SinClave(a, 'R');
    assert SinClave(d, 'R') && SinClave(" ", 'R');
    SinClaveJuntos(a, d, 'R');
    SinClaveJuntos(a + d, " ", 'R');
  }

  lemma DiccionarioRefiere(n: nat, resto: string)
    ensures Referencia(Diccionario(n) + resto, ROOT) == Some(1)
  {
    DecimalSeLee(n + 1);
    SinRoot(Decimal(n + 1));
    DiccionarioPartes(n);
    TrasPrefijo(Diccionario(n), resto);
    ReferenciaLeida(Diccionario(n) + resto, "<< /Size " + Decimal(n + 1) + " ", ROOT, 1, " >>\n");
  }

  lemma TrailerRefiere(objs: seq<string>)
    requires |Cuerpo(objs)| < 10000000000
    ensures Trailer(Documento(objs)).Some? && Referencia(Trailer(Documento(objs)).value, ROOT) == Some(1)
  {
    TrailerDelDocumento(objs);
    DiccionarioRefiere(|objs|, INICIO + Decimal(|Cuerpo(objs)|) + FIN);
    AsociarFin(Diccionario(|objs|), INICIO, Decimal(|Cuerpo(objs)|), FIN);
  }

  lemma AsociarFin(a: string, b: string, c: string, d: string)
    ensures a + b + c + d == a + (b + c + d)
  {
  }

  lemma DiccionarioPartes(n: nat)
    ensures Diccionario(n) == ("<< /Size " + Decimal(n + 1) + " ") + ROOT + Ref(1) + " >>\n"
  {
  }

  lemma CatalogoRefiere(s: string)
    requires CATALOGO <= s
    ensures Referencia(s, PAGES) == Some(2)
  {
    var a := "<< /Type /Catalog ";
    assert SinClave(a, 'P');
    ReferenciaLeida(s, a, PAGES, 2, " >>");
  }

  lemma PaginasRefiere(s: string)
    requires PAGINAS <= s
    ensures Referencia(s, KIDS) == Some(3)
  {
    var a := "<< /Type /Pages ";
    assert SinClave(a, 'K');
    ReferenciaLeida(s, a, KIDS, 3, "] /Count 1 >>");
  }

  lemma PaginaSinContents()
    ensures SinClave("<< /Type /Page /Parent 2 0 R ", 'C')
  {
  }

  lemma CajaSinContents()
    ensures SinClave("/MediaBox [0 0 612 792] ", 'C')
  {
  }

  lemma RecursosSinContents()
    ensures SinClave("/Resources << ", 'C')
  {
  }

  lemma FuenteSinContents()
    ensures SinClave("/Font << /F1 4 0 R >> >> ", 'C')
  {
  }

  /** Every text that starts as this page refers to object `k` under /Contents. */
  ghost predicate RefiereContenido(pagina: string, k: nat) {
    forall s | pagina <= s :: Referencia(s, CONTENTS) == Some(k)
  }

  lemma PaginaLiquidacionRefiere()
    ensures RefiereContenido(PAGINA_LIQUIDACION, 4)
  {
    PaginaSinContents();
    CajaSinContents();
    SinClaveJuntos("<< /Type /Page /Parent 2 0 R ", "/MediaBox [0 0 612 792] ", 'C');
    PaginaRefiere(PAGINA, 4, " /Resources << /Font << /F1 5 0 R >> >> >>");
  }

  lemma PaginaReciboRefiere()
    ensures RefiereContenido(PAGINA_RECIBO, 5)
  {
    PaginaSinContents();
    CajaSinContents();
    RecursosSinContents();
    FuenteSinContents();
    SinClaveJuntos("<< /Type /Page /Parent 2 0 R ", "/MediaBox [0 0 612 792] ", 'C');
    SinClaveJuntos("/Resources << ", "/Font << /F1 4 0 R >> >> ", 'C');
    SinClaveJuntos(PAGINA, FUENTE, 'C');
    PaginaRefiere(PAGINA + FUENTE, 5, " >>");
  }

  lemma PaginaRefiere(antes: string, k: nat, despues: string)
    requires SinClave(antes, 'C')
    ensures RefiereContenido(antes + CONTENTS + Ref(k) + despues, k)
  {
    forall s | antes + CONTENTS + Ref(k) + despues <= s ensures Referencia(s, CONTENTS) == Some(k) {
      ReferenciaLeida(s, antes, CONTENTS, k, despues);
    }
  }

  lemma SeguirA(objs: seq<string>, s: string, clave: string, k: nat)
    requires 1 <= k <= |objs| && |Documento(objs)| < 10000000000 && Referencia(s, clave) == Some(k)
    ensures var r := Seguir(Documento(objs), Some(s), clave); r.Some? && objs[k - 1] <= r.value
  {
    ObjetoAlcanzado(objs, k);
  }

  lemma PaginaAlcanzada(objs: seq<string>)
    requires |objs| >= 3 && |Documento(objs)| < 10000000000 && objs[0] == CATALOGO && objs[1] == PAGINAS
    ensures PaginaDe(Documento(objs)).Some? && objs[2] <= PaginaDe(Documento(objs)).value
  {
    var doc := Documento(objs);
    CuerpoDelDocumento(objs);
    TrailerRefiere(objs);
    SeguirA(objs, Trailer(doc).value, ROOT, 1);
    var catalogo := Seguir(doc, Trailer(doc), ROOT);
    CatalogoRefiere(catalogo.value);
    SeguirA(objs, catalogo.value, PAGES, 2);
    var paginas := Seguir(doc, catalogo, PAGES);
    PaginasRefiere(paginas.value);
    SeguirA(objs, paginas.value, KIDS, 3);
  }

  lemma FlujoAlcanzado(s: string, contenido: string, fin: string)
    requires (fin == "endstream" || fin == "\nendstream") && Flujo(contenido, fin) <= s
    ensures FlujoDe(s) == Some(contenido)
  {
    var flujo := Flujo(contenido, fin);
    assert s == flujo + s[|flujo|..];
    LargoCorrecto(contenido, fin, s[|flujo|..]);
  }

  /** Following the tree from the trailer reaches the content stream, and its bytes are the ones written. */
  lemma PaginaLeida(objs: seq<string>, k: nat, contenido: string, fin: string)
    requires |objs| >= 3 && 1 <= k <= |objs| && |Documento(objs)| < 10000000000
    requires objs[0] == CATALOGO && objs[1] == PAGINAS && RefiereContenido(objs[2], k)
    requires (fin == "endstream" || fin == "\nendstream") && objs[k - 1] == Flujo(contenido, fin)
    ensures LeerPagina(Documento(objs)) == Some(Textos(contenido))
  {
    var doc := Documento(objs);
    PaginaAlcanzada(objs);
    var pagina := PaginaDe(doc);
    SeguirA(objs, pagina.value, CONTENTS, k);
    FlujoAlcanzado(Seguir(doc, pagina, CONTENTS).value, contenido, fin);
  }
}
