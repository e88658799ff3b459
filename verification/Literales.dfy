/** PDF literal strings: how both generators escape them, and a reader after section 7.3.4.2 of
    ISO 32000-1. Each char of a string stands for one byte of the file. */
module Literales {
  import opened Comun

  /** strings.ReplaceAll for a one-byte pattern. */
  function Reemplazar(s: string, c: char, por: string): string {
    if s == "" then "" else (if s[0] == c then por else [s[0]]) + Reemplazar(s[1..], c, por)
  }

  /** escapePDFText and escapePDF: three passes, backslashes first. */
  function Escapar(s: string): string {
    Reemplazar(Reemplazar(Reemplazar(s, '\\', "\\\\"), '(', "\\("), ')', "\\)")
  }

  predicate Especial(c: char) {
    c == '\\' || c == '(' || c == ')'
  }

  /** One pass: a backslash before each special byte. */
  function EscaparUna(s: string): string {
    if s == "" then "" else (if Especial(s[0]) then ['\\', s[0]] else [s[0]]) + EscaparUna(s[1..])
  }

  lemma {:induction false} ReemplazarConcat(a: string, b: string, c: char, por: string)
    ensures Reemplazar(a + b, c, por) == Reemplazar(a, c, por) + Reemplazar(b, c, por)
  {
    if a == "" {
      assert a + b == b;
    } else {
      assert (a + b)[1..] == a[1..] + b;
      ReemplazarConcat(a[1..], b, c, por);
    }
  }

  lemma ReemplazarUno(x: char, c: char, por: string)
    ensures Reemplazar([x], c, por) == if x == c then por else [x]
  {
  }

  lemma ReemplazarDos(x: char, y: char, c: char, por: string)
    requires x != c
    ensures Reemplazar([x, y], c, por) == [x] + (if y == c then por else [y])
  {
    assert [x, y] == [x] + [y];
    ReemplazarConcat([x], [y], c, por);
  }

  lemma EscaparConcat(a: string, b: string)
    ensures Escapar(a + b) == Escapar(a) + Escapar(b)
  {
    ReemplazarConcat(a, b, '\\', "\\\\");
    var a1, b1 := Reemplazar(a, '\\', "\\\\"), Reemplazar(b, '\\', "\\\\");
    ReemplazarConcat(a1, b1, '(', "\\(");
    ReemplazarConcat(Reemplazar(a1, '(', "\\("), Reemplazar(b1, '(', "\\("), ')', "\\)");
  }

  lemma EscaparByte(x: char)
    ensures Escapar([x]) == EscaparUna([x])
  {
    ReemplazarUno(x, '\\', "\\\\");
    if x == '\\' {
      ReemplazarDos('\\', '\\', '(', "\\(");
      ReemplazarDos('\\', '\\', ')', "\\)");
    } else {
      ReemplazarUno(x, '(', "\\(");
      if x == '(' {
        ReemplazarDos('\\', '(', ')', "\\)");
      } else {
        ReemplazarUno(x, ')', "\\)");
      }
    }
  }

  /** The three passes do what one pass does: no later pass touches what an earlier one put in. */
  lemma {:induction false} EscaparEsUnaPasada(s: string)
    ensures Escapar(s) == EscaparUna(s)
  {
    if s != "" {
      assert s == [s[0]] + s[1..];
      EscaparConcat([s[0]], s[1..]);
      EscaparByte(s[0]);
      EscaparEsUnaPasada(s[1..]);
    }
  }

  // ---------- The reader ----------

  predicate Octal(c: char) {
    '0' <= c <= '7'
  }

  /** How many octal digits, up to three, start `s`. */
  function DigitosOctales(s: string): nat {
    if s == "" || !Octal(s[0]) then 0
    else if |s| == 1 || !Octal(s[1]) then 1
    else if |s| == 2 || !Octal(s[2]) then 2
    else 3
  }

  function ValorOctal(s: string): int
    requires forall i | 0 <= i < |s| :: Octal(s[i])
  {
    if s == "" then 0 else ValorOctal(s[..|s| - 1]) * 8 + (s[|s| - 1] as int - '0' as int)
  }

  /** What stands after a backslash: the bytes it means and how many of `s` it takes. */
  function Escape(s: string): (r: (string, nat))
    requires s != ""
    ensures 1 <= r.1 <= |s|
  {
    match s[0]
    case 'n' => ("\n", 1)
    case 'r' => ("\r", 1)
    case 't' => ("\t", 1)
    case 'b' => ([8 as char], 1)
    case 'f' => ([12 as char], 1)
    case '\n' => ("", 1)
    case '\r' => ("", if |s| > 1 && s[1] == '\n' then 2 else 1)
    case c =>
      if Octal(c) then
        var n := DigitosOctales(s);
        ([(ValorOctal(s[..n]) % 256) as char], n)
      else ([c], 1)
  }

  /** Reads on inside a literal string, `abiertos` being the unescaped parentheses still open within it:
      its text and what follows the closing parenthesis. */
  function LeerLiteral(s: string, abiertos: nat): (r: Option<(string, string)>)
    ensures r.Some? ==> |r.value.1| < |s|
    decreases |s|
  {
    if s == "" then None
    else if s[0] == '\\' then
      if |s| == 1 then None
      else
        var (texto, n) := Escape(s[1..]);
        Anteponer(texto, LeerLiteral(s[1 + n..], abiertos))
    else if s[0] == '(' then Anteponer("(", LeerLiteral(s[1..], abiertos + 1))
    else if s[0] == ')' then
      if abiertos == 0 then Some(("", s[1..])) else Anteponer(")", LeerLiteral(s[1..], abiertos - 1))
    else if s[0] == '\r' then
      Anteponer("\n", LeerLiteral(if |s| > 1 && s[1] == '\n' then s[2..] else s[1..], abiertos))
    else Anteponer([s[0]], LeerLiteral(s[1..], abiertos))
  }

  function Anteponer(t: string, r: Option<(string, string)>): Option<(string, string)> {
    match r
    case None => None
    case Some((u, resto)) => Some((t + u, resto))
  }

  /** An unescaped end-of-line marker of any kind reads as one line feed. */
  function FinesDeLinea(s: string): string {
    if s == "" then ""
    else if s[0] == '\r' then "\n" + FinesDeLinea(if |s| > 1 && s[1] == '\n' then s[2..] else s[1..])
    else [s[0]] + FinesDeLinea(s[1..])
  }

  /** An escaped byte reads as itself. */
  lemma EspecialSeLee(x: char, cola: string)
    requires Especial(x)
    ensures LeerLiteral(['\\', x] + cola, 0) == Anteponer([x], LeerLiteral(cola, 0))
  {
    var s := ['\\', x] + cola;
    assert s[1..][0] == x && s[2..] == cola;
    assert Escape(s[1..]) == ([x], 1);
  }

  lemma OrdinarioSeLee(x: char, cola: string)
    requires !Especial(x) && x != '\r'
    ensures LeerLiteral([x] + cola, 0) == Anteponer([x], LeerLiteral(cola, 0))
  {
    assert ([x] + cola)[1..] == cola;
  }

  lemma RetornoSeLee(cola: string)
    requires cola != ""
    ensures LeerLiteral("\r" + cola, 0) == Anteponer("\n", LeerLiteral(if cola[0] == '\n' then cola[1..] else cola, 0))
  {
    var s := "\r" + cola;
    assert s[1..] == cola && s[2..] == cola[1..];
  }

  /** Whatever the text, the reader finds the end of its escaped form and gets the text back, line ends
      read as line feeds. */
  lemma {:induction false} LiteralSeLee(t: string, resto: string)
    ensures LeerLiteral(EscaparUna(t) + ")" + resto, 0) == Some((FinesDeLinea(t), resto))
    decreases |t|
  {
    if t == "" {
      assert EscaparUna(t) + ")" + resto == ")" + resto;
      assert (")" + resto)[1..] == resto;
    } else {
      var x, cola := t[0], EscaparUna(t[1..]) + ")" + resto;
      assert t == [x] + t[1..];
      assert EscaparUna(t) + ")" + resto == (if Especial(x) then ['\\', x] else [x]) + cola;
      if x == '\r' {
        RetornoSeLee(cola);
        RetornoYFin(t, resto);
      } else {
        LiteralSeLee(t[1..], resto);
        if Especial(x) {
          EspecialSeLee(x, cola);
        } else {
          OrdinarioSeLee(x, cola);
        }
      }
    }
  }

  lemma {:induction false} RetornoYFin(t: string, resto: string)
    requires t != "" && t[0] == '\r'
    ensures var cola := EscaparUna(t[1..]) + ")" + resto;
      Anteponer("\n", LeerLiteral(if cola[0] == '\n' then cola[1..] else cola, 0)) == Some((FinesDeLinea(t), resto))
    decreases |t|, 0
  {
    var cola := EscaparUna(t[1..]) + ")" + resto;
    if |t| > 1 && t[1] == '\n' {
      assert t[1..][1..] == t[2..];
      assert cola == "\n" + (EscaparUna(t[2..]) + ")" + resto);
      assert cola[1..] == EscaparUna(t[2..]) + ")" + resto;
      LiteralSeLee(t[2..], resto);
    } else {
      assert cola[0] != '\n' by {
        if |t| > 1 {
          assert cola[0] == EscaparUna(t[1..])[0];
        } else {
          assert cola == ")" + resto;
        }
      }
      LiteralSeLee(t[1..], resto);
    }
  }

  lemma {:induction false} SinRetornos(t: string)
    ensures '\r' !in FinesDeLinea(t)
    ensures '\r' !in t ==> FinesDeLinea(t) == t
    decreases |t|
  {
    if t != "" {
      if t[0] == '\r' {
        SinRetornos(if |t| > 1 && t[1] == '\n' then t[2..] else t[1..]);
      } else {
        SinRetornos(t[1..]);
        assert t == [t[0]] + t[1..];
      }
    }
  }

  /** What either generator writes between parentheses reads back as the text exactly when the text has no
      carriage return. */
  lemma LiteralIdaYVuelta(t: string, resto: string)
    ensures LeerLiteral(Escapar(t) + ")" + resto, 0) == Some((t, resto)) <==> '\r' !in t
    ensures LeerLiteral(Escapar(t) + ")" + resto, 0) == Some((FinesDeLinea(t), resto))
  {
    EscaparEsUnaPasada(t);
    LiteralSeLee(t, resto);
    SinRetornos(t);
  }
}
