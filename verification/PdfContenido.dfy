/** What the receipt and the settlement put on their page, and that reading their files shows it
    (buildSimplePDF in internal/cobranzas/ledger.go, Generate in internal/outbox/pdf.go). */
module PdfContenido {
  import opened Comun
  import opened Literales
  import opened Pdf
  import opened PdfArbol

  // ---------- The receipt ----------

  /** The drawing operators of one line of the receipt. */
  function LineaRecibo(linea: string, primera: bool): string {
    (if primera then "" else "0 -16 Td\n") + "(" + Escapar(linea) + ") Tj\n"
  }

  function LineasRecibo(lineas: seq<string>): string {
    if lineas == [] then "BT\n/F1 12 Tf\n72 760 Td\n"
    else LineasRecibo(lineas[..|lineas| - 1]) + LineaRecibo(lineas[|lineas| - 1], |lineas| == 1)
  }

  function ContenidoRecibo(lineas: seq<string>): string {
    LineasRecibo(lineas) + "ET\n"
  }

  function ObjetosRecibo(contenido: string): seq<string> {
    [CATALOGO, PAGINAS, PAGINA_RECIBO,
     "<< /Type /Font /Subtype /Type1 /BaseFont /Helvetica >>",
     Flujo(contenido, "endstream")]
  }

  function Recibo(lineas: seq<string>): string {
    Documento(ObjetosRecibo(ContenidoRecibo(lineas)))
  }

  predicate SinParentesis(s: string) {
    '(' !in s
  }

  lemma {:induction false} OperadoresCallan(s: string, resto: string)
    requires SinParentesis(s)
    ensures Textos(s + resto) == Textos(resto)
  {
    if s == "" {
      assert s + resto == resto;
    } else {
      assert (s + resto)[1..] == s[1..] + resto;
      OperadoresCallan(s[1..], resto);
    }
  }

  /** A shown string reads as its text. */
  lemma CadenaMuestra(t: string, resto: string)
    ensures Textos("(" + Escapar(t) + ")" + resto) == [FinesDeLinea(t)] + Textos(resto)
  {
    var s := "(" + Escapar(t) + ")" + resto;
    assert s[1..] == Escapar(t) + ")" + resto;
    LiteralIdaYVuelta(t, resto);
  }

  function Mostradas(lineas: seq<string>): seq<string> {
    seq(|lineas|, i requires 0 <= i < |lineas| => FinesDeLinea(lineas[i]))
  }

  lemma LineaMuestra(linea: string, primera: bool, resto: string)
    ensures Textos(LineaRecibo(linea, primera) + resto) == [FinesDeLinea(linea)] + Textos(resto)
  {
    var previo := if primera then "" else "0 -16 Td\n";
    assert LineaRecibo(linea, primera) + resto == previo + ("(" + Escapar(linea) + ")" + (" Tj\n" + resto));
    OperadoresCallan(previo, "(" + Escapar(linea) + ")" + (" Tj\n" + resto));
    CadenaMuestra(linea, " Tj\n" + resto);
    OperadoresCallan(" Tj\n", resto);
  }

  lemma {:induction false} LineasMuestran(lineas: seq<string>, resto: string)
    ensures Textos(LineasRecibo(lineas) + resto) == Mostradas(lineas) + Textos(resto)
  {
    if lineas == [] {
      OperadoresCallan(LineasRecibo(lineas), resto);
    } else {
      var n := |lineas| - 1;
      var linea := LineaRecibo(lineas[n], n == 0);
      assert LineasRecibo(lineas) + resto == LineasRecibo(lineas[..n]) + (linea + resto);
      LineasMuestran(lineas[..n], linea + resto);
      LineaMuestra(lineas[n], n == 0, resto);
      assert Mostradas(lineas) == Mostradas(lineas[..n]) + [FinesDeLinea(lineas[n])];
    }
  }

  lemma {:induction false} ContenidoMuestra(lineas: seq<string>)
    ensures Textos(ContenidoRecibo(lineas)) == Mostradas(lineas)
  {
    LineasMuestran(lineas, "ET\n");
    OperadoresCallan("ET\n", "");
    assert "ET\n" + "" == "ET\n";
  }

  lemma MostradasIguales(lineas: seq<string>)
    ensures Mostradas(lineas) == lineas <==> forall i | 0 <= i < |lineas| :: '\r' !in lineas[i]
  {
    forall i | 0 <= i < |lineas| ensures FinesDeLinea(lineas[i]) == lineas[i] <==> '\r' !in lineas[i] {
      SinRetornos(lineas[i]);
    }
    if Mostradas(lineas) == lineas {
      assert forall i | 0 <= i < |lineas| :: Mostradas(lineas)[i] == lineas[i];
    }
  }

  /** The receipt, read from its last line back to its page, shows the lines it was given, line ends as
      line feeds; and so the very lines exactly when none has a carriage return. */
  lemma ReciboSeLee(lineas: seq<string>)
    requires |Recibo(lineas)| < 10000000000
    ensures LeerPagina(Recibo(lineas)) == Some(Mostradas(lineas))
    ensures LeerPagina(Recibo(lineas)) == Some(lineas) <==> forall i | 0 <= i < |lineas| :: '\r' !in lineas[i]
  {
    var contenido := ContenidoRecibo(lineas);
    PaginaDeRecibo(contenido);
    ContenidoMuestra(lineas);
    MostradasIguales(lineas);
  }

  lemma PaginaDeRecibo(contenido: string)
    requires |Documento(ObjetosRecibo(contenido))| < 10000000000
    ensures LeerPagina(Documento(ObjetosRecibo(contenido))) == Some(Textos(contenido))
  {
    PaginaReciboRefiere();
    PaginaLeida(ObjetosRecibo(contenido), 5, contenido, "endstream");
  }

  // ---------- The settlement ----------

  /** A line of a content stream: operators alone, or operators showing a label and a text. */
  datatype Linea = Operador(texto: string) | Cadena(antes: string, rotulo: string, t: string)

  function TextoLinea(l: Linea): string {
    match l
    case Operador(s) => s
    case Cadena(antes, rotulo, t) => antes + "(" + rotulo + Escapar(t) + ") Tj"
  }

  /** What a line shows. */
  function MuestraDe(l: Linea): seq<string> {
    match l
    case Operador(_) => []
    case Cadena(_, rotulo, t) => [rotulo + FinesDeLinea(t)]
  }

  predicate Llano(s: string) {
    forall i | 0 <= i < |s| :: !Especial(s[i]) && s[i] != '\r'
  }

  /** Operators hold no parenthesis, and labels nothing to escape. */
  predicate LineaOk(l: Linea) {
    match l
    case Operador(s) => SinParentesis(s)
    case Cadena(antes, rotulo, _) => SinParentesis(antes) && Llano(rotulo)
  }

  /** strings.Join with line feeds, from line `i` on. */
  function Unir(ls: seq<Linea>, i: nat): string
    requires i < |ls|
    decreases |ls| - i
  {
    if i == |ls| - 1 then TextoLinea(ls[i]) else TextoLinea(ls[i]) + "\n" + Unir(ls, i + 1)
  }

  function MuestranDesde(ls: seq<Linea>, i: nat): seq<string>
    decreases |ls| - i
  {
    if i >= |ls| then [] else MuestraDe(ls[i]) + MuestranDesde(ls, i + 1)
  }

  lemma {:induction false} NadaQueEscapar(s: string)
    requires Llano(s)
    ensures Escapar(s) == s
  {
    EscaparEsUnaPasada(s);
    if s != "" {
      NadaQueEscapar(s[1..]);
      EscaparEsUnaPasada(s[1..]);
      assert s == [s[0]] + s[1..];
    }
  }

  lemma {:induction false} FinesTrasRotulo(rotulo: string, t: string)
    requires Llano(rotulo)
    ensures FinesDeLinea(rotulo + t) == rotulo + FinesDeLinea(t)
  {
    if rotulo == "" {
      assert rotulo + t == t;
    } else {
      assert (rotulo + t)[1..] == rotulo[1..] + t;
      FinesTrasRotulo(rotulo[1..], t);
    }
  }

  lemma CadenaSeLee(antes: string, rotulo: string, t: string, resto: string)
    requires SinParentesis(antes) && Llano(rotulo)
    ensures Textos(TextoLinea(Cadena(antes, rotulo, t)) + resto) == [rotulo + FinesDeLinea(t)] + Textos(resto)
  {
    var cola := "(" + Escapar(rotulo + t) + ")" + (" Tj" + resto);
    CadenaEscrita(antes, rotulo, t, resto);
    OperadoresCallan(antes, cola);
    CadenaMuestra(rotulo + t, " Tj" + resto);
    OperadoresCallan(" Tj", resto);
    FinesTrasRotulo(rotulo, t);
  }

  lemma CadenaEscrita(antes: string, rotulo: string, t: string, resto: string)
    requires Llano(rotulo)
    ensures TextoLinea(Cadena(antes, rotulo, t)) + resto == antes + ("(" + Escapar(rotulo + t) + ")" + (" Tj" + resto))
  {
    NadaQueEscapar(rotulo);
    EscaparConcat(rotulo, t);
    assert antes + "(" + rotulo + Escapar(t) + ") Tj" + resto
        == antes + ("(" + (rotulo + Escapar(t)) + ")" + (" Tj" + resto));
  }

  lemma LineaSeLee(l: Linea, resto: string)
    requires LineaOk(l)
    ensures Textos(TextoLinea(l) + resto) == MuestraDe(l) + Textos(resto)
  {
    match l
    case Operador(s) => OperadoresCallan(s, resto);
    case Cadena(antes, rotulo, t) => CadenaSeLee(antes, rotulo, t, resto);
  }

  lemma {:induction false} UnirSeLee(ls: seq<Linea>, i: nat)
    requires i < |ls| && forall k | 0 <= k < |ls| :: LineaOk(ls[k])
    ensures Textos(Unir(ls, i)) == MuestranDesde(ls, i)
    decreases |ls| - i
  {
    if i == |ls| - 1 {
      LineaSeLee(ls[i], "");
      assert TextoLinea(ls[i]) + "" == TextoLinea(ls[i]);
      assert MuestranDesde(ls, i + 1) == [];
    } else {
      var cola := "\n" + Unir(ls, i + 1);
      assert Unir(ls, i) == TextoLinea(ls[i]) + cola;
      LineaSeLee(ls[i], cola);
      OperadoresCallan("\n", Unir(ls, i + 1));
      UnirSeLee(ls, i + 1);
    }
  }

  /** The content stream of a published settlement, from its data. */
  function LineasLiquidacion(periodo: string, liquidacion: string, consorcio: string): seq<Linea> {
    [Operador("BT"),
     Operador("/F1 18 Tf"),
     Operador("72 720 Td"),
     Cadena("", "Liquidacion de Expensas", ""),
     Operador("/F1 12 Tf"),
     Cadena("0 -30 Td ", "Periodo: ", periodo),
     Cadena("0 -20 Td ", "Liquidacion ID: ", liquidacion),
     Cadena("0 -20 Td ", "Consorcio ID: ", consorcio),
     Cadena("0 -40 Td ", "Documento generado por ConsorcioAbierto", ""),
     Operador("ET")]
  }

  function ContenidoLiquidacion(periodo: string, liquidacion: string, consorcio: string): string {
    Unir(LineasLiquidacion(periodo, liquidacion, consorcio), 0)
  }

  function ObjetosLiquidacion(contenido: string): seq<string> {
    [CATALOGO, PAGINAS, PAGINA_LIQUIDACION,
     Flujo(contenido, "\nendstream"),
     "<< /Type /Font /Subtype /Type1 /BaseFont /Helvetica >>"]
  }

  function Liquidacion(periodo: string, liquidacion: string, consorcio: string): string {
    Documento(ObjetosLiquidacion(ContenidoLiquidacion(periodo, liquidacion, consorcio)))
  }

  /** What the page of a published settlement says. */
  function TextosLiquidacion(p: string, l: string, c: string): seq<string> {
    ["Liquidacion de Expensas", "Periodo: " + FinesDeLinea(p), "Liquidacion ID: " + FinesDeLinea(l),
     "Consorcio ID: " + FinesDeLinea(c), "Documento generado por ConsorcioAbierto"]
  }

  lemma OperadoresLlanos()
    ensures LineaOk(Operador("BT")) && LineaOk(Operador("/F1 18 Tf")) && LineaOk(Operador("72 720 Td"))
    ensures LineaOk(Operador("/F1 12 Tf")) && LineaOk(Operador("ET"))
  {
  }

  lemma PeriodoLlano(p: string)
    ensures LineaOk(Cadena("0 -30 Td ", "Periodo: ", p))
  {
  }

  lemma LiquidacionLlana(l: string)
    ensures LineaOk(Cadena("0 -20 Td ", "Liquidacion ID: ", l))
  {
  }

  lemma ConsorcioLlano(c: string)
    ensures LineaOk(Cadena("0 -20 Td ", "Consorcio ID: ", c))
  {
  }

  const TITULO := "Liquidacion de Expensas"
  const PIE := "Documento generado por ConsorcioAbierto"

  lemma TituloLlano()
    ensures Llano(TITULO)
  {
  }

  lemma PieLlano()
    ensures Llano(PIE)
  {
  }

  lemma FijaLlana(antes: string, rotulo: string)
    requires SinParentesis(antes) && Llano(rotulo)
    ensures LineaOk(Cadena(antes, rotulo, ""))
  {
  }

  lemma LineasBienFormadas(p: string, l: string, c: string)
    ensures var ls := LineasLiquidacion(p, l, c); |ls| == 10 && forall k | 0 <= k < 10 :: LineaOk(ls[k])
  {
    OperadoresLlanos();
    PeriodoLlano(p);
    LiquidacionLlana(l);
    ConsorcioLlano(c);
    TituloLlano();
    FijaLlana("", TITULO);
    PieLlano();
    FijaLlana("0 -40 Td ", PIE);
  }

  lemma DiezLineas(ls: seq<Linea>)
    requires |ls| == 10
    ensures MuestranDesde(ls, 0)
         == MuestraDe(ls[0]) + (MuestraDe(ls[1]) + (MuestraDe(ls[2]) + (MuestraDe(ls[3]) + (MuestraDe(ls[4])
            + (MuestraDe(ls[5]) + (MuestraDe(ls[6]) + (MuestraDe(ls[7]) + (MuestraDe(ls[8]) + MuestraDe(ls[9])))))))))
  {
    assert MuestranDesde(ls, 10) == [];
    assert MuestranDesde(ls, 9) == MuestraDe(ls[9]);
    assert MuestranDesde(ls, 7) == MuestraDe(ls[7]) + (MuestraDe(ls[8]) + MuestraDe(ls[9]));
    assert MuestranDesde(ls, 5) == MuestraDe(ls[5]) + (MuestraDe(ls[6]) + MuestranDesde(ls, 7));
    assert MuestranDesde(ls, 3) == MuestraDe(ls[3]) + (MuestraDe(ls[4]) + MuestranDesde(ls, 5));
    assert MuestranDesde(ls, 1) == MuestraDe(ls[1]) + (MuestraDe(ls[2]) + MuestranDesde(ls, 3));
  }

  lemma SinTexto(antes: string, rotulo: string)
    ensures MuestraDe(Cadena(antes, rotulo, "")) == [rotulo]
  {
    assert rotulo + FinesDeLinea("") == rotulo;
  }

  lemma TextosDeLasLineas(p: string, l: string, c: string)
    ensures MuestranDesde(LineasLiquidacion(p, l, c), 0) == TextosLiquidacion(p, l, c)
  {
    DiezLineas(LineasLiquidacion(p, l, c));
    SinTexto("", "Liquidacion de Expensas");
    SinTexto("0 -40 Td ", "Documento generado por ConsorcioAbierto");
  }

  /** The settlement's PDF, read from its last line back to its page, shows its period and its identifiers,
      line ends as line feeds. */
  lemma LiquidacionSeLee(p: string, l: string, c: string)
    requires |Liquidacion(p, l, c)| < 10000000000
    ensures LeerPagina(Liquidacion(p, l, c)) == Some(TextosLiquidacion(p, l, c))
  {
    var contenido := ContenidoLiquidacion(p, l, c);
    PaginaDeLiquidacion(contenido);
    LineasBienFormadas(p, l, c);
    UnirSeLee(LineasLiquidacion(p, l, c), 0);
    TextosDeLasLineas(p, l, c);
  }

  lemma PaginaDeLiquidacion(contenido: string)
    requires |Documento(ObjetosLiquidacion(contenido))| < 10000000000
    ensures LeerPagina(Documento(ObjetosLiquidacion(contenido))) == Some(Textos(contenido))
  {
    PaginaLiquidacionRefiere();
    PaginaLeida(ObjetosLiquidacion(contenido), 4, contenido, "\nendstream");
  }
}
