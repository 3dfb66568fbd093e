/**
 Held packages in pacman.conf.  Holding and releasing rewrite the whole file; reading the
 rewritten file gives back exactly what was written and every other line is still there.
 */
module PacmanConf {
  import opened Document
  import opened Options
  import opened Text

  const DIRECTIVE := "IgnorePkg"

  const OPTIONS := "[options]"

  // ---------------------------------------------------------------------
  // Lines
  // ---------------------------------------------------------------------

  /** The parts between newlines. */
  function Split(d: Doc): seq<string> {
    match d case Last(l) => [l] case Line(l, rest) => [l] + Split(rest)
  }

  function TrimNewline(s: string): string {
    if s != "" && s[|s|-1] == '\n' then s[..|s|-1] else s
  }

  /** The lines the scanner steps through. */
  function Scan(data: string): seq<string> {
    if data == "" then [] else Split(Parse(TrimNewline(data)))
  }

  /** The same, by structure: nothing after the last newline is no line. */
  function Lines(d: Doc): seq<string> {
    match d
    case Last(l) => if l == "" then [] else [l]
    case Line(l, rest) => [l] + Lines(rest)
  }

  /** Without its final newline, if it has one. */
  function Shorten(d: Doc): Doc {
    match d
    case Last(_) => d
    case Line(l, rest) => if rest == Last("") then Last(l) else Line(l, Shorten(rest))
  }

  lemma {:induction false} ShortenIsTrim(d: Doc)
    requires Clean(d) && d != Last("")
    ensures Clean(Shorten(d)) && Split(Shorten(d)) == Lines(d)
    ensures Unparse(d) != "" && Unparse(Shorten(d)) == TrimNewline(Unparse(d))
  {
    match d {
      case Last(l) =>
        assert l[|l|-1] in l;
      case Line(l, rest) =>
        if rest == Last("") {
          assert Unparse(d) == l + "\n";
        } else {
          ShortenIsTrim(rest);
          var r := Unparse(rest);
          assert Unparse(d)[..|Unparse(d)|-1] == l + "\n" + r[..|r|-1];
        }
    }
  }

  lemma ScanIsLines(data: string)
    ensures Scan(data) == Lines(Parse(data))
  {
    if data != "" {
      ParseInverts(data);
      ShortenIsTrim(Parse(data));
      UnparseInverts(Shorten(Parse(data)));
    }
  }

  /** A file of these lines. */
  function File(lines: seq<string>): string {
    if lines == [] then "" else lines[0] + "\n" + File(lines[1..])
  }

  predicate OneLine(l: string) { '\n' !in l }

  lemma {:induction false} ScanFile(lines: seq<string>)
    requires forall i :: 0 <= i < |lines| ==> OneLine(lines[i])
    ensures Scan(File(lines)) == lines
  {
    ScanIsLines(File(lines));
    if lines != [] {
      ScanFile(lines[1..]);
      ScanIsLines(File(lines[1..]));
      ParseLine(lines[0], File(lines[1..]));
      assert lines == [lines[0]] + lines[1..];
    }
  }

  lemma {:induction false} LinesClean(d: Doc)
    requires Clean(d)
    ensures forall i :: 0 <= i < |Lines(d)| ==> OneLine(Lines(d)[i])
  {
    if d.Line? {
      LinesClean(d.rest);
    }
  }

  lemma ScannedLines(data: string)
    ensures forall i :: 0 <= i < |Scan(data)| ==> OneLine(Scan(data)[i])
  {
    ScanIsLines(data);
    ParseInverts(data);
    LinesClean(Parse(data));
  }

  // ---------------------------------------------------------------------
  // Words
  // ---------------------------------------------------------------------

  function WordLength(s: string): (k: nat)
    ensures k <= |s| && forall i :: 0 <= i < k ==> !IsSpace(s[i])
    ensures k < |s| ==> IsSpace(s[k])
  {
    if s == "" || IsSpace(s[0]) then 0
    else
      var k := WordLength(s[1..]);
      assert forall i :: 0 < i < k + 1 ==> s[i] == s[1..][i - 1];
      k + 1
  }

  /** The words between white space. */
  function Fields(s: string): seq<string>
    decreases |s|
  {
    if s == "" then []
    else if IsSpace(s[0]) then Fields(s[1..])
    else [s[..WordLength(s)]] + Fields(s[WordLength(s)..])
  }

  function Join(names: seq<string>): string {
    if names == [] then ""
    else if |names| == 1 then names[0]
    else names[0] + " " + Join(names[1..])
  }

  /** A name that survives being written into the file. */
  predicate Good(name: string) {
    name != "" && forall i :: 0 <= i < |name| ==> !IsSpace(name[i]) && name[i] != '#'
  }

  predicate AllGood(names: seq<string>) { forall i :: 0 <= i < |names| ==> Good(names[i]) }

  lemma {:induction false} FieldsOfJoin(names: seq<string>)
    requires AllGood(names)
    ensures Fields(Join(names)) == names
  {
    if names != [] {
      var text := Join(names);
      assert text[0] == names[0][0];
      assert forall i :: 0 <= i < |names[0]| ==> text[i] == names[0][i];
      assert |names| > 1 ==> text[|names[0]|] == ' ';
      assert WordLength(text) == |names[0]|;
      assert text[..|names[0]|] == names[0];
      if |names| > 1 {
        assert text[|names[0]|..] == " " + Join(names[1..]);
        assert (" " + Join(names[1..]))[1..] == Join(names[1..]);
        FieldsOfJoin(names[1..]);
        assert names == [names[0]] + names[1..];
      } else {
        assert text[|names[0]|..] == "";
      }
    }
  }

  lemma {:induction false} FieldsAreGood(s: string)
    requires '#' !in s
    ensures AllGood(Fields(s))
    decreases |s|
  {
    if s != "" {
      if IsSpace(s[0]) {
        FieldsAreGood(s[1..]);
      } else {
        FieldsAreGood(s[WordLength(s)..]);
      }
    }
  }

  // ---------------------------------------------------------------------
  // Reading
  // ---------------------------------------------------------------------

  function Uncomment(line: string): string {
    if IndexOf(line, '#') < 0 then line else line[..IndexOf(line, '#')]
  }

  /** The names a line holds. */
  function Entry(line: string): seq<string> {
    var t := TrimSpace(Uncomment(line));
    if !(DIRECTIVE <= t) || IndexOf(t, '=') < 0 then [] else Fields(TrimSpace(t[IndexOf(t, '=') + 1..]))
  }

  function Collect(f: string -> seq<string>, lines: seq<string>): seq<string> {
    if lines == [] then [] else Collect(f, lines[..|lines|-1]) + f(lines[|lines|-1])
  }

  function Ignored(lines: seq<string>): seq<string> { Collect(Entry, lines) }

  predicate IsOptions(line: string) { TrimSpace(Uncomment(line)) == OPTIONS }

  ghost predicate HasOptions(conf: string) {
    exists i :: 0 <= i < |Scan(conf)| && IsOptions(Scan(conf)[i])
  }

  method HasPacmanOptionsSection(conf: string) returns (found: bool)
    ensures found <==> HasOptions(conf)
  {
    var lines := Scan(conf);
    for next := 0 to |lines|
      invariant forall i :: 0 <= i < next ==> !IsOptions(lines[i])
    {
      if TrimSpace(Uncomment(lines[next])) == OPTIONS {
        return true;
      }
    }
    return false;
  }

  method GetIgnoredPackages(conf: string) returns (ignored: seq<string>)
    ensures ignored == Ignored(Scan(conf))
  {
    ignored := [];
    var lines := Scan(conf);
    for next := 0 to |lines|
      invariant ignored == Ignored(lines[..next])
    {
      assert lines[..next + 1][..next] == lines[..next];
      var line := TrimSpace(Uncomment(lines[next]));
      if !(DIRECTIVE <= line) {
        continue;
      }
      var equals := IndexOf(line, '=');
      if equals >= 0 {
        ignored := ignored + Fields(TrimSpace(line[equals + 1..]));
      }
    }
    assert lines[..|lines|] == lines;
  }

  // ---------------------------------------------------------------------
  // Trimming
  // ---------------------------------------------------------------------

  lemma {:induction false} TrimRightShape(s: string)
    ensures TrimRight(s) <= s
    ensures forall i :: |TrimRight(s)| <= i < |s| ==> IsSpace(s[i])
  {
    if s != "" && IsSpace(s[|s|-1]) {
      TrimRightShape(s[..|s|-1]);
    }
  }

  lemma {:induction false} TrimLeftPrefix(s: string, t: string)
    requires TrimLeft(s) != ""
    ensures TrimLeft(s + t) == TrimLeft(s) + t
  {
    if IsSpace(s[0]) {
      TrimLeftPrefix(s[1..], t);
      assert (s + t)[1..] == s[1..] + t;
    }
  }

  lemma UncommentPrefix(line: string)
    ensures exists tail :: line == Uncomment(line) + tail
    ensures '#' !in Uncomment(line)
  {
    var i := IndexOf(line, '#');
    if i < 0 {
      assert line == Uncomment(line) + "";
    } else {
      assert line == Uncomment(line) + line[i..];
    }
  }

  predicate Held(line: string) { DIRECTIVE <= TrimSpace(line) }

  /** A line the writer does not recognise holds nothing for the reader either. */
  lemma UnheldIsEmpty(line: string)
    requires !Held(line)
    ensures Entry(line) == []
  {
    var u := Uncomment(line);
    UncommentPrefix(line);
    var tail :| line == u + tail;
    TrimRightShape(TrimLeft(u));
    if DIRECTIVE <= TrimLeft(u) {
      TrimLeftPrefix(u, tail);
      KeepsDirective(TrimLeft(line));
    }
  }

  lemma KeepsDirective(s: string)
    requires DIRECTIVE <= s
    ensures DIRECTIVE <= TrimRight(s)
  {
    TrimRightShape(s);
    assert s[8] == 'g';
  }

  lemma FieldsGoodIn(line: string)
    ensures AllGood(Entry(line))
  {
    UncommentPrefix(line);
    var u := Uncomment(line);
    var t := TrimSpace(u);
    TrimSpaceIn(u);
    if IndexOf(t, '=') >= 0 {
      var v := t[IndexOf(t, '=') + 1..];
      TrimSpaceIn(v);
      FieldsAreGood(TrimSpace(v));
    }
  }

  lemma {:induction false} TrimLeftIn(s: string)
    ensures forall c :: c in TrimLeft(s) ==> c in s
  {
    if s != "" && IsSpace(s[0]) {
      TrimLeftIn(s[1..]);
    }
  }

  lemma TrimSpaceIn(s: string)
    ensures forall c :: c in TrimSpace(s) ==> c in s
  {
    TrimLeftIn(s);
    TrimRightShape(TrimLeft(s));
  }

  // ---------------------------------------------------------------------
  // The directive
  // ---------------------------------------------------------------------

  function Directive(names: seq<string>): string { "IgnorePkg = " + Join(names) }

  lemma {:induction false} JoinShape(names: seq<string>)
    requires AllGood(names) && names != []
    ensures Join(names) != "" && !IsSpace(Join(names)[0]) && !IsSpace(Join(names)[|Join(names)|-1])
    ensures '#' !in Join(names) && '\n' !in Join(names)
  {
    assert forall i :: 0 <= i < |names[0]| ==> !IsSpace(names[0][i]) && names[0][i] != '#';
    if |names| > 1 {
      JoinShape(names[1..]);
    }
  }

  lemma TrimmedAlready(s: string)
    requires s != "" && !IsSpace(s[0]) && !IsSpace(s[|s|-1])
    ensures TrimSpace(s) == s
  {
  }

  /** The directive reads back as the names it was made of. */
  lemma DirectiveReadsBack(names: seq<string>)
    requires AllGood(names) && names != []
    ensures Entry(Directive(names)) == names
    ensures Held(Directive(names)) && OneLine(Directive(names))
  {
    JoinShape(names);
    var d := Directive(names);
    assert d[|d|-1] == Join(names)[|Join(names)|-1];
    assert d[0] == 'I';
    TrimmedAlready(d);
    assert IndexOf(d, '#') < 0;
    assert d[..10] == "IgnorePkg ";
    FirstAt(d, '=', 10);
    assert d[11..] == " " + Join(names);
    assert (" " + Join(names))[1..] == Join(names);
    assert TrimLeft(" " + Join(names)) == TrimLeft(Join(names));
    TrimmedAlready(Join(names));
    FieldsOfJoin(names);
    assert DIRECTIVE <= d;
  }

  // ---------------------------------------------------------------------
  // Writing
  // ---------------------------------------------------------------------

  /** The directive in place of the first line that holds packages, the other such lines gone. */
  function Rewrite(lines: seq<string>, directive: seq<string>): seq<string> {
    if lines == [] then []
    else
      var init, last := lines[..|lines|-1], lines[|lines|-1];
      Rewrite(init, directive) + Replacement(last, directive, AnyHeld(init))
  }

  function Replacement(line: string, directive: seq<string>, found: bool): seq<string> {
    if !Held(line) then [line] else if found then [] else directive
  }

  predicate AnyHeld(lines: seq<string>) {
    lines != [] && (AnyHeld(lines[..|lines|-1]) || Held(lines[|lines|-1]))
  }

  function Find(s: string, pattern: string): (i: int)
    ensures -1 <= i <= |s|
  {
    if pattern <= s then 0
    else if s == "" then -1
    else
      var i := Find(s[1..], pattern);
      if i < 0 then -1 else i + 1
  }

  function InsertAt(content: string, k: nat, insertion: string): string
    requires k <= |content|
  {
    content[..k] + insertion + content[k..]
  }

  /** Behind the line with the first occurrence of the section name. */
  function InsertionPoint(content: string): (k: int)
    ensures -1 <= k <= |content|
  {
    var options := Find(content, OPTIONS);
    if options < 0 then -1 else LineEnd(content, options)
  }

  /** Behind the first newline from i on. */
  function LineEnd(content: string, i: nat): (k: int)
    requires i <= |content|
    ensures -1 <= k <= |content|
  {
    var newline := IndexOf(content[i..], '\n');
    if newline < 0 then -1 else i + newline + 1
  }

  function InsertFrom(content: string, k: int, insertion: string): string
    requires -1 <= k <= |content|
  {
    if k < 0 then content else InsertAt(content, k, insertion)
  }

  function InsertBehindOptions(content: string, insertion: string): string {
    InsertFrom(content, InsertionPoint(content), insertion)
  }

  function Written(names: seq<string>): seq<string> { if names == [] then [] else [Directive(names)] }

  function Build(conf: string, names: seq<string>): string {
    var content := File(Rewrite(Scan(conf), Written(names)));
    if AnyHeld(Scan(conf)) || names == [] then content
    else InsertBehindOptions(content, Directive(names) + "\n")
  }

  /** The same on lines. */
  function InsertLine(lines: seq<string>, l: string): seq<string> {
    if lines == [] then []
    else if Find(lines[0], OPTIONS) >= 0 then [lines[0], l] + lines[1..]
    else [lines[0]] + InsertLine(lines[1..], l)
  }

  lemma {:induction false} FindInLine(l: string, rest: string)
    requires OneLine(l)
    ensures Find(l + "\n" + rest, OPTIONS) ==
            if Find(l, OPTIONS) >= 0 then Find(l, OPTIONS)
            else if Find(rest, OPTIONS) < 0 then -1 else |l| + 1 + Find(rest, OPTIONS)
  {
    var t := l + "\n" + rest;
    PrefixInLine(l, rest);
    if l == "" {
      assert t[1..] == rest;
    } else if !(OPTIONS <= l) {
      assert t[1..] == l[1..] + "\n" + rest;
      FindInLine(l[1..], rest);
    }
  }

  lemma PrefixInLine(l: string, rest: string)
    requires OneLine(l)
    ensures OPTIONS <= l + "\n" + rest <==> OPTIONS <= l
  {
    var t := l + "\n" + rest;
    assert t[|l|] == '\n';
    assert forall i :: 0 <= i < |OPTIONS| ==> OPTIONS[i] != '\n';
    if OPTIONS <= t && |l| >= |OPTIONS| {
      assert t[..|OPTIONS|] == l[..|OPTIONS|];
    }
  }

  lemma {:induction false} FileAppend(a: seq<string>, b: seq<string>)
    ensures File(a + b) == File(a) + File(b)
  {
    if a == [] {
      assert a + b == b;
    } else {
      FileAppend(a[1..], b);
      assert (a + b)[1..] == a[1..] + b;
    }
  }

  lemma {:induction false} InsertIsLine(lines: seq<string>, l: string)
    requires forall i :: 0 <= i < |lines| ==> OneLine(lines[i])
    ensures InsertBehindOptions(File(lines), l + "\n") == File(InsertLine(lines, l))
  {
    if lines != [] {
      var head, rest := lines[0], File(lines[1..]);
      FindInLine(head, rest);
      if Find(head, OPTIONS) >= 0 {
        BehindHead(head, rest, l);
        assert ([head, l] + lines[1..])[1..] == [l] + lines[1..];
        assert ([l] + lines[1..])[1..] == lines[1..];
      } else {
        InsertIsLine(lines[1..], l);
        BehindRest(head, rest, l);
        assert ([head] + InsertLine(lines[1..], l))[1..] == InsertLine(lines[1..], l);
      }
    }
  }

  lemma BehindHead(head: string, rest: string, l: string)
    requires OneLine(head) && Find(head, OPTIONS) >= 0
    ensures InsertBehindOptions(head + "\n" + rest, l + "\n") == head + "\n" + (l + "\n" + rest)
  {
    FindInLine(head, rest);
    LineEndInHead(head, rest, Find(head, OPTIONS));
    InsertBetween(head + "\n", rest, l + "\n");
  }

  lemma LineEndInHead(head: string, rest: string, i: nat)
    requires OneLine(head) && i <= |head|
    ensures LineEnd(head + "\n" + rest, i) == |head| + 1
  {
    var tail := (head + "\n" + rest)[i..];
    assert tail[..|head| - i] == head[i..];
    FirstAt(tail, '\n', |head| - i);
  }

  lemma InsertBetween(front: string, rest: string, insertion: string)
    ensures InsertAt(front + rest, |front|, insertion) == front + (insertion + rest)
  {
    assert (front + rest)[..|front|] == front;
    assert (front + rest)[|front|..] == rest;
  }

  lemma BehindRest(head: string, rest: string, l: string)
    requires OneLine(head) && Find(head, OPTIONS) < 0
    ensures InsertBehindOptions(head + "\n" + rest, l + "\n") == head + "\n" + InsertBehindOptions(rest, l + "\n")
  {
    FindInLine(head, rest);
    BehindFront(head + "\n", rest, l + "\n");
  }

  lemma BehindFront(front: string, rest: string, insertion: string)
    requires Find(front + rest, OPTIONS) == if Find(rest, OPTIONS) < 0 then -1 else |front| + Find(rest, OPTIONS)
    ensures InsertBehindOptions(front + rest, insertion) == front + InsertBehindOptions(rest, insertion)
  {
    PointShift(front, rest);
    InsertFromShift(front, rest, InsertionPoint(rest), InsertionPoint(front + rest), insertion);
  }

  lemma InsertFromShift(front: string, rest: string, k: int, shifted: int, insertion: string)
    requires -1 <= k <= |rest| && shifted == if k < 0 then -1 else |front| + k
    ensures InsertFrom(front + rest, shifted, insertion) == front + InsertFrom(rest, k, insertion)
  {
    if k >= 0 {
      InsertAtShift(front, rest, k, insertion);
    }
  }

  lemma PointShift(front: string, rest: string)
    requires Find(front + rest, OPTIONS) == if Find(rest, OPTIONS) < 0 then -1 else |front| + Find(rest, OPTIONS)
    ensures InsertionPoint(front + rest) == if InsertionPoint(rest) < 0 then -1 else |front| + InsertionPoint(rest)
  {
    if Find(rest, OPTIONS) >= 0 {
      LineEndShift(front, rest, Find(rest, OPTIONS));
    }
  }

  lemma LineEndShift(front: string, rest: string, i: nat)
    requires i <= |rest|
    ensures LineEnd(front + rest, |front| + i) == if LineEnd(rest, i) < 0 then -1 else |front| + LineEnd(rest, i)
  {
    assert (front + rest)[|front| + i..] == rest[i..];
  }

  lemma InsertAtShift(front: string, rest: string, k: nat, insertion: string)
    requires k <= |rest|
    ensures InsertAt(front + rest, |front| + k, insertion) == front + InsertAt(rest, k, insertion)
  {
    assert (front + rest)[..|front| + k] == front + rest[..k];
    assert (front + rest)[|front| + k..] == rest[k..];
  }

  /** The lines of the rewritten file. */
  function NewLines(conf: string, names: seq<string>): seq<string> {
    var rewritten := Rewrite(Scan(conf), Written(names));
    if AnyHeld(Scan(conf)) || names == [] then rewritten else InsertLine(rewritten, Directive(names))
  }

  predicate OneLines(lines: seq<string>) { forall i :: 0 <= i < |lines| ==> OneLine(lines[i]) }

  lemma {:induction false} RewriteOneLines(lines: seq<string>, directive: seq<string>)
    requires OneLines(lines) && OneLines(directive)
    ensures OneLines(Rewrite(lines, directive))
  {
    if lines != [] {
      RewriteOneLines(lines[..|lines|-1], directive);
    }
  }

  lemma {:induction false} InsertOneLines(lines: seq<string>, l: string)
    requires OneLines(lines) && OneLine(l)
    ensures OneLines(InsertLine(lines, l))
  {
    if lines != [] {
      InsertOneLines(lines[1..], l);
    }
  }

  lemma BuildScansAs(conf: string, names: seq<string>)
    requires AllGood(names)
    ensures Scan(Build(conf, names)) == NewLines(conf, names)
  {
    ScannedLines(conf);
    if names != [] {
      DirectiveReadsBack(names);
    }
    var rewritten := Rewrite(Scan(conf), Written(names));
    RewriteOneLines(Scan(conf), Written(names));
    if names != [] {
      InsertIsLine(rewritten, Directive(names));
      InsertOneLines(rewritten, Directive(names));
    }
    ScanFile(NewLines(conf, names));
  }

  // ---------------------------------------------------------------------
  // What the rewritten file holds
  // ---------------------------------------------------------------------

  function Unheld(line: string): seq<string> { if Held(line) then [] else [line] }

  /** The lines that hold no packages. */
  function Others(lines: seq<string>): seq<string> { Collect(Unheld, lines) }

  lemma Regroup(a: seq<string>, b: seq<string>, c: seq<string>)
    ensures a + b + c == a + (b + c)
  {
  }

  lemma {:induction false} CollectAppend(f: string -> seq<string>, a: seq<string>, b: seq<string>)
    ensures Collect(f, a + b) == Collect(f, a) + Collect(f, b)
  {
    if b == [] {
      assert a + b == a;
    } else {
      var init, last := b[..|b|-1], b[|b|-1];
      CollectAppend(f, a, init);
      assert (a + b)[..|a + b|-1] == a + init && (a + b)[|a + b|-1] == last;
      Regroup(Collect(f, a), Collect(f, init), f(last));
    }
  }

  lemma CollectOne(f: string -> seq<string>, line: string)
    ensures Collect(f, [line]) == f(line)
  {
    assert Collect(f, [line][..0]) == [];
  }

  lemma OthersAppend(a: seq<string>, b: seq<string>)
    ensures Others(a + b) == Others(a) + Others(b)
  {
    CollectAppend(Unheld, a, b);
  }

  lemma IgnoredAppend(a: seq<string>, b: seq<string>)
    ensures Ignored(a + b) == Ignored(a) + Ignored(b)
  {
    CollectAppend(Entry, a, b);
  }

  lemma ReplacementKeeps(line: string, directive: seq<string>, found: bool)
    requires Others(directive) == []
    ensures Others(Replacement(line, directive, found)) == Unheld(line)
  {
    CollectOne(Unheld, line);
  }

  lemma {:induction false} RewriteOthers(lines: seq<string>, directive: seq<string>)
    requires Others(directive) == []
    ensures Others(Rewrite(lines, directive)) == Others(lines)
  {
    if lines != [] {
      var init, last := lines[..|lines|-1], lines[|lines|-1];
      RewriteOthers(init, directive);
      OthersAppend(Rewrite(init, directive), Replacement(last, directive, AnyHeld(init)));
      ReplacementKeeps(last, directive, AnyHeld(init));
    }
  }

  lemma {:induction false} RewriteCollect(f: string -> seq<string>, lines: seq<string>, directive: seq<string>)
    requires forall l :: !Held(l) ==> f(l) == []
    ensures Collect(f, Rewrite(lines, directive)) == if AnyHeld(lines) then Collect(f, directive) else []
  {
    if lines != [] {
      var init, last := lines[..|lines|-1], lines[|lines|-1];
      RewriteCollect(f, init, directive);
      CollectAppend(f, Rewrite(init, directive), Replacement(last, directive, AnyHeld(init)));
      CollectOne(f, last);
    }
  }

  lemma RewriteIgnored(lines: seq<string>, directive: seq<string>)
    ensures Ignored(Rewrite(lines, directive)) == if AnyHeld(lines) then Ignored(directive) else []
  {
    forall l | !Held(l) ensures Entry(l) == [] {
      UnheldIsEmpty(l);
    }
    RewriteCollect(Entry, lines, directive);
  }

  lemma HeldLast(init: seq<string>, last: string)
    ensures AnyHeld(init + [last]) <==> AnyHeld(init) || Held(last)
  {
    assert (init + [last])[..|init|] == init;
  }

  lemma {:induction false} HeldSomewhere(lines: seq<string>)
    requires lines != []
    ensures AnyHeld(lines) <==> Held(lines[0]) || AnyHeld(lines[1..])
  {
    if |lines| > 1 {
      var init, last := lines[..|lines|-1], lines[|lines|-1];
      HeldSomewhere(init);
      assert lines[1..] == init[1..] + [last];
      HeldLast(init[1..], last);
    }
  }

  lemma {:induction false} InsertOthers(lines: seq<string>, l: string)
    requires Held(l)
    ensures Others(InsertLine(lines, l)) == Others(lines)
  {
    if lines != [] {
      var head, rest := [lines[0]], lines[1..];
      assert lines == head + rest;
      OthersAppend(head, rest);
      if Find(lines[0], OPTIONS) >= 0 {
        assert [lines[0], l] + rest == head + ([l] + rest);
        OthersAppend(head, [l] + rest);
        OthersAppend([l], rest);
        CollectOne(Unheld, l);
      } else {
        InsertOthers(rest, l);
        OthersAppend(head, InsertLine(rest, l));
      }
    }
  }

  lemma {:induction false} InsertIgnored(lines: seq<string>, l: string)
    requires !AnyHeld(lines)
    ensures Ignored(InsertLine(lines, l)) ==
            if exists i :: 0 <= i < |lines| && Find(lines[i], OPTIONS) >= 0 then Entry(l) else []
  {
    if lines != [] {
      HeldSomewhere(lines);
      UnheldIsEmpty(lines[0]);
      CollectOne(Entry, lines[0]);
      if Find(lines[0], OPTIONS) >= 0 {
        NothingHeld(lines[1..]);
        InsertedAfter(Entry, lines[0], l, lines[1..]);
      } else {
        InsertIgnored(lines[1..], l);
        IgnoredAppend([lines[0]], InsertLine(lines[1..], l));
        ElsewhereFound(lines);
      }
    }
  }

  lemma InsertedAfter(f: string -> seq<string>, first: string, l: string, rest: seq<string>)
    requires Collect(f, [first]) == [] && Collect(f, rest) == []
    ensures Collect(f, [first, l] + rest) == f(l)
  {
    assert [first, l] + rest == [first] + ([l] + rest);
    CollectAppend(f, [first], [l] + rest);
    CollectAppend(f, [l], rest);
    CollectOne(f, l);
  }

  lemma ElsewhereFound(lines: seq<string>)
    requires lines != [] && Find(lines[0], OPTIONS) < 0
    ensures (exists i :: 0 <= i < |lines| && Find(lines[i], OPTIONS) >= 0)
       <==> (exists i :: 0 <= i < |lines[1..]| && Find(lines[1..][i], OPTIONS) >= 0)
  {
    if exists i :: 0 <= i < |lines| && Find(lines[i], OPTIONS) >= 0 {
      var i :| 0 <= i < |lines| && Find(lines[i], OPTIONS) >= 0;
      assert Find(lines[1..][i - 1], OPTIONS) >= 0;
    }
  }

  lemma {:induction false} NothingRewritten(lines: seq<string>, directive: seq<string>)
    requires !AnyHeld(lines)
    ensures Rewrite(lines, directive) == lines
  {
    if lines != [] {
      var init, last := lines[..|lines|-1], lines[|lines|-1];
      assert lines == init + [last];
      HeldLast(init, last);
      NothingRewritten(init, directive);
    }
  }

  lemma {:induction false} NothingHeld(lines: seq<string>)
    requires !AnyHeld(lines)
    ensures Ignored(lines) == []
  {
    if lines != [] {
      HeldSomewhere(lines);
      NothingHeld(lines[1..]);
      UnheldIsEmpty(lines[0]);
      CollectOne(Entry, lines[0]);
      assert lines == [lines[0]] + lines[1..];
      IgnoredAppend([lines[0]], lines[1..]);
    }
  }

  lemma {:induction false} FindsIt(a: string, b: string)
    ensures Find(a + OPTIONS + b, OPTIONS) >= 0
  {
    var t := a + OPTIONS + b;
    if a == "" {
      assert t[..|OPTIONS|] == OPTIONS;
    } else {
      FindsIt(a[1..], b);
      assert t[1..] == a[1..] + OPTIONS + b;
    }
  }

  lemma {:induction false} TrimLeftSuffix(s: string) returns (a: string)
    ensures s == a + TrimLeft(s)
  {
    a := "";
    if s != "" && IsSpace(s[0]) {
      a := TrimLeftSuffix(s[1..]);
      a := [s[0]] + a;
    }
  }

  /** A section line contains its name and holds no packages. */
  lemma OptionsLine(line: string)
    requires IsOptions(line)
    ensures Find(line, OPTIONS) >= 0 && !Held(line)
  {
    var u := Uncomment(line);
    UncommentPrefix(line);
    var tail :| line == u + tail;
    var a := TrimLeftSuffix(u);
    var x := TrimLeft(u);
    TrimRightShape(x);
    assert x == OPTIONS + x[|OPTIONS|..];
    assert line == a + OPTIONS + (x[|OPTIONS|..] + tail);
    FindsIt(a, x[|OPTIONS|..] + tail);
    TrimLeftPrefix(u, tail);
    assert TrimLeft(line)[0] == '[';
    TrimRightShape(TrimLeft(line));
  }

  /** Reading the rewritten file gives exactly the names written. */
  lemma ReadsBack(conf: string, names: seq<string>)
    requires AllGood(names) && HasOptions(conf)
    ensures Ignored(Scan(Build(conf, names))) == names
  {
    BuildScansAs(conf, names);
    var lines := Scan(conf);
    RewriteIgnored(lines, Written(names));
    if names != [] {
      DirectiveReadsBack(names);
      CollectOne(Entry, Directive(names));
      if !AnyHeld(lines) {
        NothingRewritten(lines, Written(names));
        InsertIgnored(lines, Directive(names));
        var i :| 0 <= i < |lines| && IsOptions(lines[i]);
        OptionsLine(lines[i]);
      }
    }
  }

  lemma WrittenIsHeld(names: seq<string>)
    requires AllGood(names)
    ensures Others(Written(names)) == [] && (names != [] ==> Held(Directive(names)))
  {
    if names != [] {
      DirectiveReadsBack(names);
      CollectOne(Unheld, Directive(names));
    }
  }

  /** Every other line is still there, in order. */
  lemma OthersSurvive(conf: string, names: seq<string>)
    requires AllGood(names)
    ensures Others(Scan(Build(conf, names))) == Others(Scan(conf))
  {
    BuildScansAs(conf, names);
    WrittenIsHeld(names);
    RewriteOthers(Scan(conf), Written(names));
    if names != [] {
      InsertOthers(Rewrite(Scan(conf), Written(names)), Directive(names));
    }
  }

  lemma {:induction false} OthersIn(lines: seq<string>, x: string)
    ensures x in Others(lines) <==> x in lines && !Held(x)
  {
    if lines != [] {
      OthersIn(lines[..|lines|-1], x);
      assert lines == lines[..|lines|-1] + [lines[|lines|-1]];
    }
  }

  /** The file stays one that can be rewritten. */
  lemma OptionsSurvive(conf: string, names: seq<string>)
    requires AllGood(names) && HasOptions(conf)
    ensures HasOptions(Build(conf, names))
  {
    var i :| 0 <= i < |Scan(conf)| && IsOptions(Scan(conf)[i]);
    var x := Scan(conf)[i];
    OptionsLine(x);
    OthersSurvive(conf, names);
    OthersIn(Scan(conf), x);
    OthersIn(Scan(Build(conf, names)), x);
    var j :| 0 <= j < |Scan(Build(conf, names))| && Scan(Build(conf, names))[j] == x;
    assert IsOptions(Scan(Build(conf, names))[j]);
  }

  // ---------------------------------------------------------------------
  // The section the directive ends up in
  // ---------------------------------------------------------------------

  predicate IsHeader(line: string) {
    var t := TrimSpace(Uncomment(line)); t != "" && t[0] == '[' && t[|t|-1] == ']'
  }

  /** Line i is behind a line that opens a section, with no header in between. */
  ghost predicate InSection(opens: string -> bool, header: string -> bool, lines: seq<string>, i: nat) {
    i < |lines| && exists j :: 0 <= j <= i && opens(lines[j]) && forall k :: j < k <= i ==> !header(lines[k])
  }

  ghost predicate InOptions(lines: seq<string>, i: nat) { InSection(IsOptions, IsHeader, lines, i) }

  predicate NamesOptions(line: string) { Find(line, OPTIONS) >= 0 }

  function First(p: string -> bool, lines: seq<string>): (i: nat)
    ensures i <= |lines| && (forall j :: 0 <= j < i ==> !p(lines[j])) && (i < |lines| ==> p(lines[i]))
  {
    if lines == [] || p(lines[0]) then 0 else 1 + First(p, lines[1..])
  }

  lemma HeldIsNoHeader(line: string)
    requires Held(line)
    ensures !IsHeader(line)
  {
    var u := Uncomment(line);
    UncommentPrefix(line);
    var tail :| line == u + tail;
    TrimRightShape(TrimLeft(u));
    TrimRightShape(TrimLeft(line));
    assert TrimLeft(line)[0] == DIRECTIVE[0] == 'I';
    if TrimLeft(u) != "" {
      TrimLeftPrefix(u, tail);
    }
  }

  /** A line that is no header belongs to the section of the line before. */
  lemma SameSection(opens: string -> bool, header: string -> bool, x: seq<string>, y: seq<string>, i: nat)
    requires forall l :: opens(l) ==> header(l)
    requires i < |x| && i <= |y| && x[..i] == y[..i] && !header(x[i])
    ensures InSection(opens, header, x, i) <==> i > 0 && InSection(opens, header, y, i - 1)
  {
    assert forall j :: 0 <= j < i ==> x[j] == x[..i][j] && y[j] == y[..i][j];
    if InSection(opens, header, x, i) {
      var j :| 0 <= j <= i && opens(x[j]) && forall k :: j < k <= i ==> !header(x[k]);
      assert j < i;
      assert opens(y[j]);
    }
    if i > 0 && InSection(opens, header, y, i - 1) {
      var j :| 0 <= j <= i - 1 && opens(y[j]) && forall k :: j < k <= i - 1 ==> !header(y[k]);
      assert opens(x[j]);
    }
  }

  lemma OptionsAreHeaders()
    ensures forall l :: IsOptions(l) ==> IsHeader(l)
  {
    assert OPTIONS[0] == '[' && OPTIONS[|OPTIONS|-1] == ']';
  }

  lemma FirstInFront(p: string -> bool, init: seq<string>, last: string)
    ensures First(p, init) < |init| ==> First(p, init + [last]) == First(p, init)
    ensures First(p, init) == |init| && p(last) ==> First(p, init + [last]) == |init|
  {
    var all := init + [last];
    assert forall i :: 0 <= i < |init| ==> all[i] == init[i];
    assert all[|init|] == last;
  }

  lemma {:induction false} RewrittenPlace(lines: seq<string>, l: string)
    requires AnyHeld(lines)
    ensures First(Held, lines) < |lines| && lines[..First(Held, lines)] + [l] <= Rewrite(lines, [l])
  {
    var init, last := lines[..|lines|-1], lines[|lines|-1];
    assert lines == init + [last];
    FirstInFront(Held, init, last);
    if AnyHeld(init) {
      RewrittenPlace(init, l);
      assert Rewrite(init, [l]) <= Rewrite(lines, [l]);
      assert lines[..First(Held, init)] == init[..First(Held, init)];
    } else {
      NothingRewritten(init, [l]);
      NoneHeld(init);
      assert Rewrite(lines, [l]) == init + Replacement(last, [l], false);
    }
  }

  lemma {:induction false} NoneHeld(lines: seq<string>)
    requires !AnyHeld(lines)
    ensures forall i :: 0 <= i < |lines| ==> !Held(lines[i])
  {
    if lines != [] {
      var init := lines[..|lines|-1];
      NoneHeld(init);
      forall i | 0 <= i < |lines| ensures !Held(lines[i]) {
        if i < |init| { assert lines[i] == init[i]; }
      }
    }
  }

  /** A line behind the first one with the property. */
  function InsertBehind(p: string -> bool, lines: seq<string>, l: string): seq<string> {
    if lines == [] then []
    else if p(lines[0]) then [lines[0], l] + lines[1..]
    else [lines[0]] + InsertBehind(p, lines[1..], l)
  }

  lemma {:induction false} InsertsBehindName(lines: seq<string>, l: string)
    ensures InsertLine(lines, l) == InsertBehind(NamesOptions, lines, l)
  {
    if lines != [] && !NamesOptions(lines[0]) {
      InsertsBehindName(lines[1..], l);
    }
  }

  lemma {:induction false} InsertedPlace(p: string -> bool, lines: seq<string>, l: string, i: nat)
    requires i == First(p, lines) && i < |lines|
    ensures InsertBehind(p, lines, l) == lines[..i + 1] + [l] + lines[i + 1..]
  {
    var head, rest := lines[0], lines[1..];
    assert lines == [head] + rest;
    if p(head) {
      assert lines[..1] == [head];
    } else {
      InsertedPlace(p, rest, l, i - 1);
      assert lines[..i + 1] == [head] + rest[..i] && lines[i + 1..] == rest[i..];
    }
  }

  /** Before the first line that names the section there is no section. */
  lemma NamedFirst(opens: string -> bool, header: string -> bool, named: string -> bool, lines: seq<string>, p: nat)
    requires forall l :: opens(l) ==> named(l)
    requires p == First(named, lines) && p < |lines|
    ensures InSection(opens, header, lines, p) <==> opens(lines[p])
  {
  }

  lemma SomeNamed(lines: seq<string>)
    requires exists i :: 0 <= i < |lines| && IsOptions(lines[i])
    ensures First(NamesOptions, lines) < |lines|
  {
    var i :| 0 <= i < |lines| && IsOptions(lines[i]);
    OptionsLine(lines[i]);
  }

  /** A directive put in place of the first held line is in the options section exactly if that
      line was. */
  lemma ReplacedDirectiveSection(conf: string, names: seq<string>)
    requires AllGood(names) && names != [] && AnyHeld(Scan(conf))
    ensures var p, out := First(Held, Scan(conf)), Scan(Build(conf, names));
            p < |out| && out[p] == Directive(names) && (InOptions(out, p) <==> InOptions(Scan(conf), p))
  {
    BuildScansAs(conf, names);
    WrittenIsHeld(names);
    RewrittenPlace(Scan(conf), Directive(names));
    var p, out := First(Held, Scan(conf)), Scan(Build(conf, names));
    assert out[..p] == Scan(conf)[..p] && out[p] == Directive(names);
    HeldIsNoHeader(out[p]);
    HeldIsNoHeader(Scan(conf)[p]);
    OptionsOfReplaced(Scan(conf), out, p);
  }

  lemma OptionsOfReplaced(lines: seq<string>, out: seq<string>, p: nat)
    requires p < |lines| && p < |out| && out[..p] == lines[..p] && !IsHeader(out[p]) && !IsHeader(lines[p])
    ensures InOptions(out, p) <==> InOptions(lines, p)
  {
    OptionsAreHeaders();
    SameSection(IsOptions, IsHeader, out, lines, p);
    SameSection(IsOptions, IsHeader, lines, lines, p);
  }

  lemma OptionsAreNamed()
    ensures forall l :: IsOptions(l) ==> NamesOptions(l)
  {
    forall l ensures IsOptions(l) ==> NamesOptions(l) {
      if IsOptions(l) { OptionsLine(l); }
    }
  }

  lemma InsertedLines(conf: string, names: seq<string>, p: nat)
    requires AllGood(names) && names != [] && !AnyHeld(Scan(conf))
    requires p == First(NamesOptions, Scan(conf)) && p < |Scan(conf)|
    ensures Scan(Build(conf, names)) == Scan(conf)[..p + 1] + [Directive(names)] + Scan(conf)[p + 1..]
  {
    BuildScansAs(conf, names);
    NothingRewritten(Scan(conf), Written(names));
    InsertsBehindName(Scan(conf), Directive(names));
    InsertedPlace(NamesOptions, Scan(conf), Directive(names), p);
  }

  lemma SectionOfInserted(opens: string -> bool, header: string -> bool, named: string -> bool, lines: seq<string>, l: string, p: nat)
    requires forall x :: opens(x) ==> header(x) && named(x)
    requires p == First(named, lines) && p < |lines| && !header(l)
    ensures InSection(opens, header, lines[..p + 1] + [l] + lines[p + 1..], p + 1) <==> opens(lines[p])
  {
    var out := lines[..p + 1] + [l] + lines[p + 1..];
    assert out[..p + 1] == lines[..p + 1] && out[p + 1] == l;
    SameSection(opens, header, out, lines, p + 1);
    NamedFirst(opens, header, named, lines, p);
  }

  lemma OptionsOfInserted(lines: seq<string>, l: string, p: nat)
    requires p == First(NamesOptions, lines) && p < |lines| && !IsHeader(l)
    ensures InOptions(lines[..p + 1] + [l] + lines[p + 1..], p + 1) <==> IsOptions(lines[p])
  {
    OptionsAreHeaders();
    OptionsAreNamed();
    SectionOfInserted(IsOptions, IsHeader, NamesOptions, lines, l, p);
  }

  /** An inserted directive is in the options section exactly if the first line that contains
      the section's name is the section's header. */
  lemma InsertedDirectiveSection(conf: string, names: seq<string>)
    requires AllGood(names) && names != [] && HasOptions(conf) && !AnyHeld(Scan(conf))
    ensures var p, out := First(NamesOptions, Scan(conf)), Scan(Build(conf, names));
            && p < |Scan(conf)| && p + 1 < |out| && out[p + 1] == Directive(names)
            && (InOptions(out, p + 1) <==> IsOptions(Scan(conf)[p]))
  {
    var p := First(NamesOptions, Scan(conf));
    SomeNamed(Scan(conf));
    InsertedLines(conf, names, p);
    WrittenIsHeld(names);
    HeldIsNoHeader(Directive(names));
    OptionsOfInserted(Scan(conf), Directive(names), p);
  }

  /** A comment that mentions the section in front of it takes the directive out of it. */
  lemma CommentMisplacesDirective(comment: string, header: string, names: seq<string>)
    requires AllGood(names) && names != []
    requires OneLine(comment) && NamesOptions(comment) && !IsOptions(comment) && !Held(comment)
    requires OneLine(header) && IsOptions(header)
    ensures var conf := File([comment, header]);
            HasOptions(conf) && !AnyHeld(Scan(conf)) && !InOptions(Scan(Build(conf, names)), 1)
  {
    var lines := [comment, header];
    ScanFile(lines);
    OptionsLine(header);
    assert IsOptions(lines[1]);
    assert First(NamesOptions, lines) == 0;
    TwoUnheld(comment, header);
    InsertedDirectiveSection(File(lines), names);
  }

  lemma TwoUnheld(a: string, b: string)
    requires !Held(a) && !Held(b)
    ensures !AnyHeld([a, b])
  {
    HeldLast([], a);
    HeldLast([a], b);
    assert [] + [a] == [a] && [a] + [b] == [a, b];
  }

  /** A comment of that kind. */
  lemma MentionInComment(comment: string)
    requires comment == "#" + OPTIONS
    ensures OneLine(comment) && NamesOptions(comment) && !IsOptions(comment) && !Held(comment)
  {
    MarkedHoldsNothing(comment);
    FindsIt("#", "");
    assert "#" + OPTIONS + "" == comment;
  }

  lemma MarkedHoldsNothing(comment: string)
    requires comment != "" && comment[0] == '#'
    ensures !IsOptions(comment) && !Held(comment)
  {
    assert TrimLeft(comment) == comment && Uncomment(comment) == "";
    TrimRightShape(comment);
    assert OPTIONS[0] == '[' && DIRECTIVE[0] == 'I';
  }

  method BuildIgnorePkgConf(conf: string, names: seq<string>) returns (out: string)
    ensures out == Build(conf, names)
  {
    out := "";
    var found := false;
    var lines := Scan(conf);
    for next := 0 to |lines|
      invariant found == AnyHeld(lines[..next])
      invariant out == File(Rewrite(lines[..next], Written(names)))
    {
      var line := lines[next];
      RewriteNext(lines, next, Written(names));
      if DIRECTIVE <= TrimSpace(line) {
        if !found {
          found := true;
          if |names| > 0 {
            out := out + (Directive(names) + "\n");
          }
        }
        continue;
      }
      out := out + (line + "\n");
    }
    assert lines[..|lines|] == lines;
    if !found && |names| > 0 {
      out := InsertBehindOptions(out, Directive(names) + "\n");
    }
  }

  lemma RewriteNext(lines: seq<string>, next: nat, directive: seq<string>)
    requires next < |lines|
    ensures AnyHeld(lines[..next + 1]) <==> AnyHeld(lines[..next]) || Held(lines[next])
    ensures File(Rewrite(lines[..next + 1], directive))
         == File(Rewrite(lines[..next], directive)) + File(Replacement(lines[next], directive, AnyHeld(lines[..next])))
    ensures File([lines[next]]) == lines[next] + "\n"
    ensures |directive| == 1 ==> File(directive) == directive[0] + "\n"
  {
    var init, last := lines[..next], lines[next];
    assert lines[..next + 1] == init + [last];
    assert lines[..next + 1][..next] == init;
    HeldLast(init, last);
    FileAppend(Rewrite(init, directive), Replacement(last, directive, AnyHeld(init)));
    assert File([last][1..]) == "";
    assert |directive| == 1 ==> File(directive[1..]) == "";
  }


  // ---------------------------------------------------------------------
  // Holding and releasing
  // ---------------------------------------------------------------------

  predicate Alphanumeric(c: char) { 'a' <= c <= 'z' || 'A' <= c <= 'Z' || '0' <= c <= '9' }

  predicate PackageName(n: string) {
    && 0 < |n| <= 256 && Alphanumeric(n[0])
    && forall i :: 0 <= i < |n| ==> Alphanumeric(n[i]) || n[i] in "._+:/@~-"
  }

  predicate PacmanName(n: string) {
    && 0 < |n| && Alphanumeric(n[0])
    && forall i :: 0 <= i < |n| ==> Alphanumeric(n[i]) || n[i] in "._+-"
  }

  lemma PacmanNameIsGood(n: string)
    requires PacmanName(n)
    ensures Good(n)
  {
    forall i | 0 <= i < |n| ensures !IsSpace(n[i]) && n[i] != '#' {
      assert Alphanumeric(n[i]) || n[i] == '.' || n[i] == '_' || n[i] == '+' || n[i] == '-';
    }
  }

  lemma {:induction false} IgnoredIsGood(lines: seq<string>)
    ensures AllGood(Ignored(lines))
  {
    if lines != [] {
      IgnoredIsGood(lines[..|lines|-1]);
      FieldsGoodIn(lines[|lines|-1]);
    }
  }

  /** Refused with an error, nothing to do, or the new content. */
  datatype Effect = Refused | Nothing | Wrote(conf: string)

  predicate AllPackageNames(names: seq<string>) { forall i :: 0 <= i < |names| ==> PackageName(names[i]) }

  predicate AllPacmanNames(names: seq<string>) { forall i :: 0 <= i < |names| ==> PacmanName(names[i]) }

  method WriteIgnorePkg(conf: string, names: seq<string>) returns (e: Effect)
    requires AllGood(names)
    ensures e == if HasOptions(conf) then Wrote(Build(conf, names)) else Refused
  {
    var options := HasPacmanOptionsSection(conf);
    if !options {
      return Refused;
    }
    var out := BuildIgnorePkgConf(conf, names);
    return Wrote(out);
  }

  method AddMissing(held: seq<string>, packages: seq<string>) returns (ignored: seq<string>)
    requires AllGood(held) && AllPacmanNames(packages)
    ensures AllGood(ignored) && held <= ignored
    ensures forall n :: n in ignored <==> n in held || n in packages
  {
    ignored := held;
    for k := 0 to |packages|
      invariant AllGood(ignored) && held <= ignored
      invariant forall n :: n in ignored <==> n in held || n in packages[..k]
    {
      PacmanNameIsGood(packages[k]);
      if packages[k] !in ignored {
        ignored := ignored + [packages[k]];
      }
      assert packages[..k + 1] == packages[..k] + [packages[k]];
    }
    assert packages[..|packages|] == packages;
  }

  /** The held set grows by exactly the given packages; what was held keeps its place. */
  method Pin(conf: string, packages: seq<string>) returns (e: Effect)
    ensures e.Nothing? <==> packages == []
    ensures e.Refused? <==> packages != [] && !(AllPackageNames(packages) && AllPacmanNames(packages) && HasOptions(conf))
    ensures e.Wrote? ==>
              && Ignored(Scan(conf)) <= Ignored(Scan(e.conf))
              && (forall n :: n in Ignored(Scan(e.conf)) <==> n in Ignored(Scan(conf)) || n in packages)
              && Others(Scan(e.conf)) == Others(Scan(conf)) && HasOptions(e.conf)
  {
    if !AllPackageNames(packages) {
      return Refused;
    }
    if |packages| == 0 {
      return Nothing;
    }
    if !AllPacmanNames(packages) {
      return Refused;
    }
    var held := GetIgnoredPackages(conf);
    IgnoredIsGood(Scan(conf));
    var ignored := AddMissing(held, packages);
    e := WriteIgnorePkg(conf, ignored);
    if e.Wrote? {
      ReadsBack(conf, ignored);
      OthersSurvive(conf, ignored);
      OptionsSurvive(conf, ignored);
    }
  }

  function Without(names: seq<string>, packages: seq<string>): seq<string> {
    if names == [] then []
    else
      var last := names[|names|-1];
      Without(names[..|names|-1], packages) + if last in packages then [] else [last]
  }

  lemma {:induction false} WithoutExactly(names: seq<string>, packages: seq<string>, n: string)
    ensures n in Without(names, packages) <==> n in names && n !in packages
  {
    if names != [] {
      WithoutExactly(names[..|names|-1], packages, n);
      assert names == names[..|names|-1] + [names[|names|-1]];
    }
  }

  lemma {:induction false} WithoutIsGood(names: seq<string>, packages: seq<string>)
    requires AllGood(names)
    ensures AllGood(Without(names, packages))
  {
    if names != [] {
      WithoutIsGood(names[..|names|-1], packages);
    }
  }

  method DropAll(held: seq<string>, packages: seq<string>) returns (kept: seq<string>)
    requires AllGood(held)
    ensures AllGood(kept) && kept == Without(held, packages)
    ensures forall n :: n in kept <==> n in held && n !in packages
  {
    kept := [];
    for k := 0 to |held|
      invariant kept == Without(held[..k], packages)
    {
      assert held[..k + 1][..k] == held[..k];
      if held[k] !in packages {
        kept := kept + [held[k]];
      }
    }
    assert held[..|held|] == held;
    WithoutIsGood(held, packages);
    forall n ensures n in kept <==> n in held && n !in packages {
      WithoutExactly(held, packages, n);
    }
  }

  /** The held set shrinks by exactly the given packages; the others keep their order. */
  method Unpin(conf: string, packages: seq<string>) returns (e: Effect)
    ensures e.Nothing? <==> packages == []
    ensures e.Refused? <==> packages != [] && !(AllPackageNames(packages) && HasOptions(conf))
    ensures e.Wrote? ==>
              && Ignored(Scan(e.conf)) == Without(Ignored(Scan(conf)), packages)
              && (forall n :: n in Ignored(Scan(e.conf)) <==> n in Ignored(Scan(conf)) && n !in packages)
              && Others(Scan(e.conf)) == Others(Scan(conf)) && HasOptions(e.conf)
  {
    if !AllPackageNames(packages) {
      return Refused;
    }
    if |packages| == 0 {
      return Nothing;
    }
    var held := GetIgnoredPackages(conf);
    IgnoredIsGood(Scan(conf));
    var kept := DropAll(held, packages);
    e := WriteIgnorePkg(conf, kept);
    if e.Wrote? {
      ReadsBack(conf, kept);
      OthersSurvive(conf, kept);
      OptionsSurvive(conf, kept);
    }
  }
}
