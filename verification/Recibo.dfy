/** A collection's receipt: BuildReciboPDF and moneyToString of internal/cobranzas/ledger.go. */
module Recibo {
  import opened Comun
  import opened Texto
  import Pdf
  import PdfArbol
  import PdfContenido
  import PdfMetodos

  datatype Asignacion = Asignacion(charge: string, cents: int)

  datatype Detalle = Detalle(id: string, unidad: string, fecha: string, canal: string, importe: int,
                             asignaciones: seq<Asignacion>, saldoAFavor: int)

  /** moneyToString. */
  function MoneyToString(cents: int): string {
    if cents < 0 then "-ARS " + Decimal(-cents / 100) + "." + ConAncho(-cents % 100, 2)
    else "ARS " + Decimal(cents / 100) + "." + ConAncho(cents % 100, 2)
  }

  /** Reads pesos and two digits of cents. */
  function LeerPesos(s: string): int {
    if |s| < 3 then 0 else LeerDecimal(s[..|s| - 3]) * 100 + LeerDecimal(s[|s| - 2..])
  }

  function LeerMoney(s: string): int {
    if "-ARS " <= s then -LeerPesos(s[5..]) else if "ARS " <= s then LeerPesos(s[4..]) else 0
  }

  lemma PesosSeLeen(n: nat)
    ensures LeerPesos(Decimal(n / 100) + "." + ConAncho(n % 100, 2)) == n
    ensures '\r' !in Decimal(n / 100) + "." + ConAncho(n % 100, 2)
  {
    DecimalSeLee(n / 100);
    assert Potencia10(2) == 100;
    ConAnchoSeLee(n % 100, 2);
    var pesos, s := Decimal(n / 100), Decimal(n / 100) + "." + ConAncho(n % 100, 2);
    assert s[..|s| - 3] == pesos;
    assert s[|s| - 2..] == ConAncho(n % 100, 2);
  }

  lemma ConSigno(pesos: string)
    ensures LeerMoney("-ARS " + pesos) == -LeerPesos(pesos)
    ensures LeerMoney("ARS " + pesos) == LeerPesos(pesos)
  {
    Pdf.TrasPrefijo("-ARS ", pesos);
    Pdf.TrasPrefijo("ARS ", pesos);
    assert ("ARS " + pesos)[0] == 'A';
  }

  lemma SinRetornoConSigno(pesos: string)
    requires '\r' !in pesos
    ensures '\r' !in "-ARS " + pesos && '\r' !in "ARS " + pesos
  {
  }

  lemma MoneyAgrupado(cents: int)
    ensures var n := if cents < 0 then -cents else cents;
      MoneyToString(cents) == (if cents < 0 then "-ARS " else "ARS ") + (Decimal(n / 100) + "." + ConAncho(n % 100, 2))
  {
    var n := if cents < 0 then -cents else cents;
    var signo := if cents < 0 then "-ARS " else "ARS ";
    assert signo + Decimal(n / 100) + "." + ConAncho(n % 100, 2) == signo + (Decimal(n / 100) + "." + ConAncho(n % 100, 2));
  }

  /** The amount printed, of any sign and size, reads back. */
  lemma ImporteSeLee(cents: int)
    ensures LeerMoney(MoneyToString(cents)) == cents && '\r' !in MoneyToString(cents)
  {
    var n := if cents < 0 then -cents else cents;
    var pesos := Decimal(n / 100) + "." + ConAncho(n % 100, 2);
    MoneyAgrupado(cents);
    PesosSeLeen(n);
    ConSigno(pesos);
    SinRetornoConSigno(pesos);
  }

  function RotuloAsignacion(a: Asignacion): string {
    "Asignacion " + a.charge + " -> "
  }

  function LineaAsignacion(a: Asignacion): string {
    RotuloAsignacion(a) + MoneyToString(a.cents)
  }

  function LineasFijas(d: Detalle): seq<string> {
    ["ConsorcioAbierto", "Recibo de cobranza", "Cobranza: " + d.id, "Unidad: " + d.unidad, "Fecha: " + d.fecha,
     "Canal: " + d.canal, IMPORTE + MoneyToString(d.importe)]
  }

  function LineasDe(a: seq<Asignacion>): seq<string> {
    seq(|a|, i requires 0 <= i < |a| => LineaAsignacion(a[i]))
  }

  const IMPORTE := "Importe: "
  const SALDO := "Saldo a favor: "

  /** The receipt's lines. */
  function Lineas(d: Detalle): seq<string> {
    LineasFijas(d) + LineasDe(d.asignaciones) + [SALDO + MoneyToString(d.saldoAFavor)]
  }

  /** The ids, date and channel, which carriage returns never enter. */
  predicate SinRetorno(d: Detalle) {
    && '\r' !in d.id && '\r' !in d.unidad && '\r' !in d.fecha && '\r' !in d.canal
    && forall i | 0 <= i < |d.asignaciones| :: '\r' !in d.asignaciones[i].charge
  }

  lemma LineasUnaMas(fijas: seq<string>, a: seq<Asignacion>, i: nat)
    requires i < |a|
    ensures fijas + LineasDe(a[..i + 1]) == fijas + LineasDe(a[..i]) + [LineaAsignacion(a[i])]
  {
    LineasPrefijo(a, i);
    Asociar(fijas, LineasDe(a[..i]), [LineaAsignacion(a[i])]);
  }

  lemma LineasPrefijo(a: seq<Asignacion>, i: nat)
    requires i < |a|
    ensures LineasDe(a[..i + 1]) == LineasDe(a[..i]) + [LineaAsignacion(a[i])]
  {
    forall k | 0 <= k < i ensures LineasDe(a[..i + 1])[k] == LineasDe(a[..i])[k] {
      assert a[..i + 1][k] == a[..i][k];
    }
  }

  lemma Asociar(a: seq<string>, b: seq<string>, c: seq<string>)
    ensures a + (b + c) == a + b + c
  {
  }

  method EscribirLineas(d: Detalle) returns (lines: seq<string>)
    ensures lines == Lineas(d)
  {
    lines := LineasFijas(d);
    ghost var fijas := lines;
    for i := 0 to |d.asignaciones|
      invariant lines == fijas + LineasDe(d.asignaciones[..i])
    {
      lines := lines + [LineaAsignacion(d.asignaciones[i])];
      LineasUnaMas(fijas, d.asignaciones, i);
    }
    assert d.asignaciones[..|d.asignaciones|] == d.asignaciones;
    lines := lines + [SALDO + MoneyToString(d.saldoAFavor)];
  }

  /** BuildReciboPDF. */
  method BuildReciboPdf(d: Detalle) returns (out: string)
    ensures out == PdfContenido.Recibo(Lineas(d))
    ensures |out| < 10000000000 && SinRetorno(d) ==> PdfArbol.LeerPagina(out) == Some(Lineas(d))
  {
    var lines := EscribirLineas(d);
    out := PdfMetodos.BuildSimplePdf(lines);
    if |out| < 10000000000 && SinRetorno(d) { PaginaDelRecibo(d); }
  }

  lemma PaginaDelRecibo(d: Detalle)
    requires |PdfContenido.Recibo(Lineas(d))| < 10000000000 && SinRetorno(d)
    ensures PdfArbol.LeerPagina(PdfContenido.Recibo(Lineas(d))) == Some(Lineas(d))
  {
    LineasSinRetorno(d);
    PdfContenido.ReciboSeLee(Lineas(d));
  }

  lemma TitulosSinRetorno()
    ensures '\r' !in "ConsorcioAbierto" && '\r' !in "Recibo de cobranza"
  {
  }

  lemma RotulosSinRetorno()
    ensures '\r' !in "Cobranza: " && '\r' !in "Unidad: " && '\r' !in "Fecha: " && '\r' !in "Canal: " && '\r' !in IMPORTE
  {
  }

  lemma JuntosSinRetorno(a: string, b: string)
    requires '\r' !in a && '\r' !in b
    ensures '\r' !in a + b
  {
  }

  lemma FijasSinRetorno(d: Detalle)
    requires SinRetorno(d)
    ensures forall i | 0 <= i < |LineasFijas(d)| :: '\r' !in LineasFijas(d)[i]
  {
    ImporteSeLee(d.importe);
    TitulosSinRetorno();
    RotulosSinRetorno();
    JuntosSinRetorno("Cobranza: ", d.id);
    JuntosSinRetorno("Unidad: ", d.unidad);
    JuntosSinRetorno("Fecha: ", d.fecha);
    JuntosSinRetorno("Canal: ", d.canal);
    JuntosSinRetorno(IMPORTE, MoneyToString(d.importe));
  }

  lemma AsignacionesSinRetorno(a: Asignacion)
    requires '\r' !in a.charge
    ensures '\r' !in LineaAsignacion(a)
  {
    ImporteSeLee(a.cents);
  }

  ghost predicate NingunRetorno(ls: seq<string>) {
    forall i | 0 <= i < |ls| :: '\r' !in ls[i]
  }

  lemma NingunoJuntos(a: seq<string>, b: seq<string>)
    requires NingunRetorno(a) && NingunRetorno(b)
    ensures NingunRetorno(a + b)
  {
  }

  lemma LineasSinRetorno(d: Detalle)
    requires SinRetorno(d)
    ensures NingunRetorno(Lineas(d))
  {
    FijasSinRetorno(d);
    forall i | 0 <= i < |d.asignaciones| ensures '\r' !in LineasDe(d.asignaciones)[i] {
      AsignacionesSinRetorno(d.asignaciones[i]);
    }
    SaldoSinRetorno(d.saldoAFavor);
    NingunoJuntos(LineasFijas(d), LineasDe(d.asignaciones));
    NingunoJuntos(LineasFijas(d) + LineasDe(d.asignaciones), [SALDO + MoneyToString(d.saldoAFavor)]);
  }

  lemma SaldoSinRetorno(cents: int)
    ensures NingunRetorno([SALDO + MoneyToString(cents)])
  {
    ImporteSeLee(cents);
    RotuloSaldo();
    JuntosSinRetorno(SALDO, MoneyToString(cents));
  }

  lemma RotuloSaldo()
    ensures '\r' !in SALDO
  {
  }

  lemma MontoTrasRotulo(rotulo: string, cents: int)
    ensures LeerMoney((rotulo + MoneyToString(cents))[|rotulo|..]) == cents
  {
    ImporteSeLee(cents);
    Pdf.TrasPrefijo(rotulo, MoneyToString(cents));
  }

  lemma LugaresFijos(d: Detalle)
    ensures var t := Lineas(d);
      && |t| == |d.asignaciones| + 8
      && t[6] == IMPORTE + MoneyToString(d.importe)
      && t[|t| - 1] == SALDO + MoneyToString(d.saldoAFavor)
  {
    assert |LineasFijas(d)| == 7 && LineasFijas(d)[6] == IMPORTE + MoneyToString(d.importe);
    LugarDe(LineasFijas(d), LineasDe(d.asignaciones), SALDO + MoneyToString(d.saldoAFavor));
  }

  lemma LugarDeAsignacion(d: Detalle, k: nat)
    requires k < |d.asignaciones|
    ensures |Lineas(d)| == |d.asignaciones| + 8
    ensures Lineas(d)[7 + k] == RotuloAsignacion(d.asignaciones[k]) + MoneyToString(d.asignaciones[k].cents)
  {
    LugarEnMedio(LineasFijas(d), LineasDe(d.asignaciones), SALDO + MoneyToString(d.saldoAFavor), k);
  }

  lemma LugarDe(a: seq<string>, b: seq<string>, c: string)
    requires |a| == 7
    ensures (a + b + [c])[6] == a[6] && (a + b + [c])[7 + |b|] == c
  {
  }

  lemma LugarEnMedio(a: seq<string>, b: seq<string>, c: string, k: nat)
    requires |a| == 7 && k < |b|
    ensures (a + b + [c])[7 + k] == b[k]
  {
  }

  /** The receipt's amount and the credit left over stand in their lines to the cent, whether or not
      anything was allocated. */
  lemma MontosDelRecibo(d: Detalle)
    ensures var t := Lineas(d);
      && |t| == |d.asignaciones| + 8
      && |IMPORTE| <= |t[6]| && LeerMoney(t[6][|IMPORTE|..]) == d.importe
      && |SALDO| <= |t[|t| - 1]| && LeerMoney(t[|t| - 1][|SALDO|..]) == d.saldoAFavor
  {
    LugaresFijos(d);
    MontoTrasRotulo(IMPORTE, d.importe);
    MontoTrasRotulo(SALDO, d.saldoAFavor);
  }

  /** Each allocation stands in its own line to the cent. */
  lemma MontosAsignados(d: Detalle, k: nat)
    requires k < |d.asignaciones|
    ensures var t := Lineas(d); var a := d.asignaciones[k];
      && |t| == |d.asignaciones| + 8
      && |RotuloAsignacion(a)| <= |t[7 + k]| && LeerMoney(t[7 + k][|RotuloAsignacion(a)|..]) == a.cents
  {
    LugarDeAsignacion(d, k);
    MontoTrasRotulo(RotuloAsignacion(d.asignaciones[k]), d.asignaciones[k].cents);
  }

  /** The receipt names the collection, its unit, its date and its channel, each in its line. */
  lemma DatosDelRecibo(d: Detalle)
    ensures var t := Lineas(d);
      && |t| == |d.asignaciones| + 8 && t[2] == "Cobranza: " + d.id && t[3] == "Unidad: " + d.unidad
      && t[4] == "Fecha: " + d.fecha && t[5] == "Canal: " + d.canal
  {
    CabezaDe(LineasFijas(d), LineasDe(d.asignaciones), SALDO + MoneyToString(d.saldoAFavor));
  }

  lemma CabezaDe(a: seq<string>, b: seq<string>, c: string)
    requires |a| == 7
    ensures forall i | 0 <= i < 7 :: (a + b + [c])[i] == a[i]
  {
  }

  /** Each allocation's line names its charge. */
  lemma CargoAsignado(d: Detalle, k: nat)
    requires k < |d.asignaciones|
    ensures |Lineas(d)| == |d.asignaciones| + 8
    ensures Lineas(d)[7 + k] == "Asignacion " + d.asignaciones[k].charge + " -> " + MoneyToString(d.asignaciones[k].cents)
  {
    LugarDeAsignacion(d, k);
  }
}
