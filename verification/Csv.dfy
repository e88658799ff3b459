/** One line of a collections CSV: the quote-aware splitter of apps/web/src/pages/cobranzas/csv.ts, against
    the quoting rules of section 2 of RFC 4180. */
module Csv {

  /** What the splitter makes of the rest of a line, given whether it is inside quotes and the field so far. */
  function Analizar(s: string, comillas: bool, actual: string): seq<string> {
    if s == "" then [actual]
    else if s[0] == '"' then
      if comillas && |s| > 1 && s[1] == '"' then Analizar(s[2..], comillas, actual + "\"")
      else Analizar(s[1..], !comillas, actual)
    else if s[0] == ',' && !comillas then [actual] + Analizar(s[1..], false, "")
    else Analizar(s[1..], comillas, actual + [s[0]])
  }

  /** parseCsvLine. */
  method ParseCsvLine(line: string) returns (values: seq<string>)
    ensures values == Analizar(line, false, "")
  {
    values := [];
    var current, inQuotes, i := "", false, 0;
    while i < |line|
      invariant 0 <= i <= |line|
      invariant values + Analizar(line[i..], inQuotes, current) == Analizar(line, false, "")
      decreases |line| - i
    {
      ghost var resto := line[i..];
      var c := line[i];
      if c == '"' {
        if inQuotes && i + 1 < |line| && line[i + 1] == '"' {
          assert resto[2..] == line[i + 2..];
          current := current + "\"";
          i := i + 2;
          continue;
        }
        inQuotes := !inQuotes;
      } else if c == ',' && !inQuotes {
        assert values + ([current] + Analizar(resto[1..], false, "")) == (values + [current]) + Analizar(resto[1..], false, "");
        values := values + [current];
        current := "";
      } else {
        current := current + [c];
      }
      assert resto[1..] == line[i + 1..];
      i := i + 1;
    }
    values := values + [current];
  }

  // ---- printing, as RFC 4180 prescribes --------------------------------------------------------------

  /** A field and whether it is written between quotes. */
  datatype Campo = Campo(texto: string, entreComillas: bool)

  /** Rule 7: a quote inside quotes is doubled. */
  function Doblar(s: string): string {
    if s == "" then "" else (if s[0] == '"' then "\"\"" else [s[0]]) + Doblar(s[1..])
  }

  function ImprimirCampo(c: Campo): string {
    if c.entreComillas then "\"" + Doblar(c.texto) + "\"" else c.texto
  }

  /** Rules 5 and 6: a field with a quote or a comma must be written between quotes. */
  predicate BienEscrito(c: Campo) {
    c.entreComillas || forall i | 0 <= i < |c.texto| :: c.texto[i] != '"' && c.texto[i] != ','
  }

  /** Rule 4: fields separated by commas, none after the last. */
  function Imprimir(cs: seq<Campo>): string
    requires cs != []
  {
    if |cs| == 1 then ImprimirCampo(cs[0]) else ImprimirCampo(cs[0]) + "," + Imprimir(cs[1..])
  }

  function Textos(cs: seq<Campo>): seq<string> {
    seq(|cs|, i requires 0 <= i < |cs| => cs[i].texto)
  }

  /** Doubled text, up to its closing quote, comes back as it was. */
  lemma {:induction false} DobladoSeLee(t: string, resto: string, actual: string)
    requires resto == "" || resto[0] != '"'
    ensures Analizar(Doblar(t) + "\"" + resto, true, actual) == Analizar(resto, false, actual + t)
  {
    var s := Doblar(t) + "\"" + resto;
    if t == "" {
      assert s == "\"" + resto && s[1..] == resto;
      assert actual + t == actual;
    } else {
      var cola := Doblar(t[1..]) + "\"" + resto;
      assert s == (if t[0] == '"' then "\"\"" else [t[0]]) + cola;
      DobladoSeLee(t[1..], resto, actual + [t[0]]);
      assert actual + [t[0]] + t[1..] == actual + t;
      if t[0] == '"' {
        assert s[2..] == cola;
      } else {
        assert s[1..] == cola;
      }
    }
  }

  lemma {:induction false} LlanoSeLee(t: string, resto: string, actual: string)
    requires forall i | 0 <= i < |t| :: t[i] != '"' && t[i] != ','
    ensures Analizar(t + resto, false, actual) == Analizar(resto, false, actual + t)
  {
    if t == "" {
      assert t + resto == resto && actual + t == actual;
    } else {
      assert (t + resto)[1..] == t[1..] + resto;
      LlanoSeLee(t[1..], resto, actual + [t[0]]);
      assert actual + [t[0]] + t[1..] == actual + t;
    }
  }

  lemma CampoSeLee(c: Campo, resto: string)
    requires BienEscrito(c) && (resto == "" || resto[0] == ',')
    ensures Analizar(ImprimirCampo(c) + resto, false, "") == Analizar(resto, false, c.texto)
  {
    assert "" + c.texto == c.texto;
    if c.entreComillas {
      var s := ImprimirCampo(c) + resto;
      assert s[1..] == Doblar(c.texto) + "\"" + resto;
      DobladoSeLee(c.texto, resto, "");
    } else {
      LlanoSeLee(c.texto, resto, "");
    }
  }

  lemma SeparadorSeLee(t: string, resto: string)
    ensures Analizar("," + resto, false, t) == [t] + Analizar(resto, false, "")
  {
    assert ("," + resto)[1..] == resto;
  }

  lemma PrimerCampo(c: Campo, resto: string)
    requires BienEscrito(c)
    ensures Analizar(ImprimirCampo(c) + "," + resto, false, "") == [c.texto] + Analizar(resto, false, "")
  {
    assert ImprimirCampo(c) + "," + resto == ImprimirCampo(c) + ("," + resto);
    CampoSeLee(c, "," + resto);
    SeparadorSeLee(c.texto, resto);
  }

  lemma UnicoCampo(c: Campo)
    requires BienEscrito(c)
    ensures Analizar(ImprimirCampo(c), false, "") == [c.texto]
  {
    CampoSeLee(c, "");
    assert ImprimirCampo(c) + "" == ImprimirCampo(c);
  }

  /** For every nonempty list of fields, however each is quoted within the rules, splitting the printed
      line gives back the list. */
  lemma {:induction false} IdaYVuelta(cs: seq<Campo>)
    requires cs != [] && forall i | 0 <= i < |cs| :: BienEscrito(cs[i])
    ensures Analizar(Imprimir(cs), false, "") == Textos(cs)
    decreases |cs|
  {
    if |cs| == 1 {
      UnicoCampo(cs[0]);
    } else {
      PrimerCampo(cs[0], Imprimir(cs[1..]));
      IdaYVuelta(cs[1..]);
      assert Textos(cs) == [cs[0].texto] + Textos(cs[1..]);
    }
  }

  function Entrecomillar(textos: seq<string>): seq<Campo> {
    seq(|textos|, i requires 0 <= i < |textos| => Campo(textos[i], true))
  }

  lemma {:induction false} AlMenosUnCampo(s: string, comillas: bool, actual: string)
    ensures Analizar(s, comillas, actual) != []
    decreases |s|
  {
    if s != "" && !(s[0] == ',' && !comillas) {
      if s[0] == '"' && comillas && |s| > 1 && s[1] == '"' {
        AlMenosUnCampo(s[2..], comillas, actual + "\"");
      } else if s[0] == '"' {
        AlMenosUnCampo(s[1..], !comillas, actual);
      } else {
        AlMenosUnCampo(s[1..], comillas, actual + [s[0]]);
      }
    }
  }

  /** Whatever line was split, quoting its fields writes a line that splits the same. */
  lemma NormalizarLinea(line: string)
    ensures var campos := Analizar(line, false, "");
      campos != [] && Analizar(Imprimir(Entrecomillar(campos)), false, "") == campos
  {
    AlMenosUnCampo(line, false, "");
    IdaYVuelta(Entrecomillar(Analizar(line, false, "")));
  }
}
