/** The writers as they run: a growing buffer and a list of offsets noted on the way, proved to leave the
    file that Pdf lays out and its reader reads. */
module PdfMetodos {
  import opened Comun
  import opened Texto
  import opened Literales
  import opened Pdf
  import opened PdfArbol
  import opened PdfContenido

  /** The offsets noted while the objects are written. */
  ghost predicate Anotados(offsets: seq<nat>, objs: seq<string>, n: nat) {
    n <= |objs| && |offsets| == n && forall k | 1 <= k <= n :: offsets[k - 1] == Posicion(objs, k)
  }

  /** The cross-reference section and the trailer, from the offsets noted. */
  method EscribirTabla(cuerpo: string, offsets: seq<nat>, ghost objs: seq<string>) returns (out: string)
    requires cuerpo == Cuerpo(objs) && Anotados(offsets, objs, |objs|)
    ensures out == Documento(objs)
  {
    var xrefStart := |cuerpo|;
    var tabla := LIBRE;
    for i := 0 to |offsets|
      invariant tabla == Entradas(objs, i)
    {
      tabla := tabla + (ConAncho(offsets[i], 10) + " 00000 n \n");
      assert Posicion(objs, i + 1) == offsets[i];
    }
    out := cuerpo + Cabecera(|offsets| + 1) + tabla + Cola(|offsets|, xrefStart);
  }

  method EscribirObjetos(objects: seq<string>) returns (out: string, offsets: seq<nat>)
    ensures out == Cuerpo(objects) && Anotados(offsets, objects, |objects|)
  {
    out, offsets := ENCABEZADO, [];
    for i := 0 to |objects|
      invariant out == Cuerpo(objects[..i]) && Anotados(offsets, objects, i)
    {
      offsets := offsets + [|out|];
      out := out + (Decimal(i + 1) + " 0 obj\n" + objects[i] + "\nendobj\n");
      assert objects[..i + 1][..i] == objects[..i];
    }
    assert objects[..|objects|] == objects;
  }

  method EscribirDocumento(objects: seq<string>) returns (out: string)
    ensures out == Documento(objects)
  {
    var cuerpo, offsets := EscribirObjetos(objects);
    out := EscribirTabla(cuerpo, offsets, objects);
  }

  method EscribirContenido(lines: seq<string>) returns (content: string)
    ensures content == ContenidoRecibo(lines)
  {
    content := LineasRecibo([]);
    for i := 0 to |lines|
      invariant content == LineasRecibo(lines[..i])
    {
      assert lines[..i + 1][..i] == lines[..i];
      ghost var previo := content;
      if i > 0 {
        content := content + "0 -16 Td\n";
      }
      content := content + "(";
      content := content + Escapar(lines[i]);
      content := content + ") Tj\n";
      UnaLineaMas(previo, lines[i], i == 0);
    }
    assert lines[..|lines|] == lines;
    content := content + "ET\n";
  }

  lemma UnaLineaMas(previo: string, linea: string, primera: bool)
    ensures (if primera then previo else previo + "0 -16 Td\n") + "(" + Escapar(linea) + ") Tj\n" == previo + LineaRecibo(linea, primera)
  {
  }

  /** buildSimplePDF: whatever lines it is given, the page of the file it writes shows them. */
  method BuildSimplePdf(lines: seq<string>) returns (out: string)
    ensures out == Recibo(lines)
    ensures |out| < 10000000000 ==> LeerPagina(out) == Some(Mostradas(lines))
  {
    var content := EscribirContenido(lines);
    out := EscribirDocumento(ObjetosRecibo(content));
    if |out| < 10000000000 { ReciboSeLee(lines); }
  }

  function Pendiente(ls: seq<Linea>, i: nat): string {
    if i < |ls| then "\n" + Unir(ls, i) else ""
  }

  lemma PendienteAvanza(s: string, ls: seq<Linea>, i: nat)
    requires i < |ls|
    ensures s + Pendiente(ls, i) == s + "\n" + TextoLinea(ls[i]) + Pendiente(ls, i + 1)
    ensures Unir(ls, i) == TextoLinea(ls[i]) + Pendiente(ls, i + 1)
  {
    assert i == |ls| - 1 ==> Pendiente(ls, i + 1) == "" && Unir(ls, i) == TextoLinea(ls[i]) + "";
    assert i < |ls| - 1 ==> Unir(ls, i) == TextoLinea(ls[i]) + ("\n" + Unir(ls, i + 1));
    AsociarCuatro(s, "\n", TextoLinea(ls[i]), Pendiente(ls, i + 1));
    assert s + ("\n" + (TextoLinea(ls[i]) + Pendiente(ls, i + 1))) == (s + "\n") + (TextoLinea(ls[i]) + Pendiente(ls, i + 1));
  }

  /** strings.Join with line feeds. */
  method Juntar(ls: seq<Linea>) returns (s: string)
    requires ls != []
    ensures s == Unir(ls, 0)
  {
    s := TextoLinea(ls[0]);
    PendienteAvanza("", ls, 0);
    for i := 1 to |ls|
      invariant s + Pendiente(ls, i) == Unir(ls, 0)
    {
      PendienteAvanza(s, ls, i);
      s := s + "\n" + TextoLinea(ls[i]);
    }
  }

  method EscribirFlujo(periodo: string, liquidacion: string, consorcio: string) returns (stream: string)
    ensures stream == ContenidoLiquidacion(periodo, liquidacion, consorcio)
  {
    stream := Juntar(LineasLiquidacion(periodo, liquidacion, consorcio));
  }

  /** Generate: the page of the file it writes shows the period and the identifiers of the settlement. */
  method Generate(periodo: string, liquidacion: string, consorcio: string) returns (out: string)
    ensures out == Liquidacion(periodo, liquidacion, consorcio)
    ensures |out| < 10000000000 ==>
      LeerPagina(out) == Some(TextosLiquidacion(periodo, liquidacion, consorcio))
  {
    var stream := EscribirFlujo(periodo, liquidacion, consorcio);
    out := EscribirDocumento(ObjetosLiquidacion(stream));
    if |out| < 10000000000 { LiquidacionSeLee(periodo, liquidacion, consorcio); }
  }
}
