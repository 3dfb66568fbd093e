/**
 Text as a list of lines. `Last` is what follows the final newline, so a text
 that ends in a newline ends in an empty `Last`.
 */
module Document {
  import opened Text

  datatype Doc = Last(line: string) | Line(line: string, rest: Doc)

  function Parse(s: string): Doc {
    if s == "" then Last("")
    else if s[0] == '\n' then Line("", Parse(s[1..]))
    else
      match Parse(s[1..])
      case Last(l) => Last([s[0]] + l)
      case Line(l, rest) => Line([s[0]] + l, rest)
  }

  function Unparse(d: Doc): string {
    match d
    case Last(l) => l
    case Line(l, rest) => l + "\n" + Unparse(rest)
  }

  predicate Clean(d: Doc) {
    '\n' !in d.line && (d.Line? ==> Clean(d.rest))
  }

  /** The text is empty or ends in a newline. */
  predicate Closed(d: Doc) {
    match d case Last(l) => l == "" case Line(_, rest) => Closed(rest)
  }

  /** Lines of a closed text followed by another text. */
  function Append(d: Doc, e: Doc): Doc {
    match d case Last(_) => e case Line(l, rest) => Line(l, Append(rest, e))
  }

  lemma {:induction false} ParseInverts(s: string)
    ensures Clean(Parse(s)) && Unparse(Parse(s)) == s
  {
    if s != "" {
      ParseInverts(s[1..]);
      assert s == [s[0]] + s[1..];
    }
  }

  lemma {:induction false} ParseLast(l: string)
    requires '\n' !in l
    ensures Parse(l) == Last(l)
  {
    if l != "" {
      ParseLast(l[1..]);
    }
  }

  lemma {:induction false} ParseLine(l: string, s: string)
    requires '\n' !in l
    ensures Parse(l + "\n" + s) == Line(l, Parse(s))
  {
    var t := l + "\n" + s;
    if l == "" {
      assert t[1..] == s;
    } else {
      assert t[1..] == l[1..] + "\n" + s;
      ParseLine(l[1..], s);
    }
  }

  lemma {:induction false} UnparseInverts(d: Doc)
    requires Clean(d)
    ensures Parse(Unparse(d)) == d
  {
    match d
    case Last(l) => ParseLast(l);
    case Line(l, rest) =>
      UnparseInverts(rest);
      ParseLine(l, Unparse(rest));
  }

  lemma {:induction false} UnparseAppend(d: Doc, e: Doc)
    requires Closed(d)
    ensures Unparse(Append(d, e)) == Unparse(d) + Unparse(e)
  {
    if d.Line? {
      UnparseAppend(d.rest, e);
      assert d.line + "\n" + (Unparse(d.rest) + Unparse(e)) == (d.line + "\n" + Unparse(d.rest)) + Unparse(e);
    }
  }

  lemma {:induction false} AppendClean(d: Doc, e: Doc)
    requires Clean(d) && Clean(e)
    ensures Clean(Append(d, e)) && (Closed(e) ==> Closed(Append(d, e)))
  {
    if d.Line? {
      AppendClean(d.rest, e);
    }
  }
}
