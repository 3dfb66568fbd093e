/**
 Rendering a policy file: a whole-file snapshot, or one block between two
 marker lines inside a file that otherwise belongs to someone else.
 */
module ManagedBlock {
  import opened Options
  import opened Text
  import opened Document

  datatype Presence = Present | Absent | Unspecified

  datatype Block = Block(begin: string, end: string)

  datatype FileState = FileState(presence: Presence, content: string, block: Option<Block>)

  datatype Validator = Sshd | Visudo

  datatype Error = PresenceRequired | AbsentWithContent | BadMarkers | ContentHasMarker | MarkersMalformed

  datatype Rendered = Ok(state: FileState) | Err(error: Error)

  // ---------------------------------------------------------------------
  // Marker lines
  // ---------------------------------------------------------------------

  /** A line equal to the marker: from its first byte to after its newline. */
  datatype Span = Span(start: nat, end: nat)

  /** The marker lines of a text that stands at offset `base` of the file. */
  function Marks(d: Doc, marker: string, base: nat): seq<Span> {
    match d
    case Last(l) => if l == marker then [Span(base, base + |l|)] else []
    case Line(l, rest) =>
      (if l == marker then [Span(base, base + |l| + 1)] else []) + Marks(rest, marker, base + |l| + 1)
  }

  method MarkerSpans(content: string, marker: string) returns (spans: seq<Span>)
    ensures spans == Marks(Parse(content), marker, 0)
  {
    spans := [];
    var start := 0;
    ghost var all := Marks(Parse(content), marker, 0);
    assert content[0..] == content;
    while start <= |content|
      invariant 0 <= start <= |content|
      invariant all == spans + Marks(Parse(content[start..]), marker, start)
      decreases |content| - start
    {
      var relEnd := IndexOf(content[start..], '\n');
      if relEnd < 0 {
        LastMark(content[start..], marker, start);
        if content[start..] == marker {
          spans := spans + [Span(start, |content|)];
        }
        return;
      }
      var end := start + relEnd + 1;
      var line := content[start..start + relEnd];
      NextMark(content, start, end, marker);
      if line == marker {
        spans := spans + [Span(start, end)];
      }
      start := end;
    }
  }

  /** One complete line and the rest. */
  lemma NextMark(content: string, start: nat, end: nat, marker: string)
    requires start < end <= |content| && content[end - 1] == '\n' && '\n' !in content[start..end - 1]
    ensures Marks(Parse(content[start..]), marker, start)
         == (if content[start..end - 1] == marker then [Span(start, end)] else [])
            + Marks(Parse(content[end..]), marker, end)
  {
    assert content[start..] == content[start..end - 1] + "\n" + content[end..];
    ParseLine(content[start..end - 1], content[end..]);
  }

  lemma LastMark(text: string, marker: string, base: nat)
    requires '\n' !in text
    ensures Marks(Parse(text), marker, base) == if text == marker then [Span(base, base + |text|)] else []
  {
    ParseLast(text);
  }

  // ---------------------------------------------------------------------
  // Rendering
  // ---------------------------------------------------------------------

  predicate ControlFree(s: string) {
    forall i :: 0 <= i < |s| ==> s[i] >= ' ' && s[i] != '\U{7F}'
  }

  predicate ValidMarkers(b: Block, v: Validator) {
    && b.begin != "" && b.end != "" && b.begin != b.end
    && "# " <= b.begin && "# " <= b.end
    && ControlFree(b.begin) && ControlFree(b.end)
    && (v == Visudo ==> b.begin[|b.begin|-1] != '\\' && b.end[|b.end|-1] != '\\')
  }

  function Terminate(s: string): string {
    if s != "" && s[|s|-1] != '\n' then s + "\n" else s
  }

  function BlockBytes(b: Block, content: string): string {
    b.begin + "\n" + Terminate(content) + b.end + "\n"
  }

  /** Exactly one begin line before exactly one end line. */
  predicate Paired(begins: seq<Span>, ends: seq<Span>) {
    |begins| == 1 && |ends| == 1 && begins[0].start < ends[0].start
  }

  lemma {:induction false} MarksInside(d: Doc, marker: string, base: nat, i: nat)
    requires i < |Marks(d, marker, base)|
    ensures var m := Marks(d, marker, base)[i]; base <= m.start <= m.end <= base + |Unparse(d)|
  {
    if d.Line? {
      var here := if d.line == marker then 1 else 0;
      if i >= here {
        MarksInside(d.rest, marker, base + |d.line| + 1, i - here);
      }
    }
  }

  /** The new file content; nothing when the markers are missing, duplicated or
      out of order. `content` is absent to remove the block. */
  function RenderBlock(current: string, b: Block, content: Option<string>): Option<string> {
    var begins := Marks(Parse(current), b.begin, 0);
    var ends := Marks(Parse(current), b.end, 0);
    if begins == [] && ends == [] then
      match content
      case None => Some(current)
      case Some(c) => Some(Terminate(current) + BlockBytes(b, c))
    else if !Paired(begins, ends) then None
    else
      ParseInverts(current);
      MarksInside(Parse(current), b.begin, 0, 0);
      MarksInside(Parse(current), b.end, 0, 0);
      var inside := match content case None => "" case Some(c) => BlockBytes(b, c);
      Some(current[..begins[0].start] + inside + current[ends[0].end..])
  }

  function Render(desired: FileState, current: FileState, v: Validator): Rendered {
    if desired.presence == Unspecified then Err(PresenceRequired)
    else if desired.presence == Absent && desired.content != "" then Err(AbsentWithContent)
    else if desired.block == None then Ok(FileState(desired.presence, desired.content, None))
    else
      var b := desired.block.value;
      if !ValidMarkers(b, v) then Err(BadMarkers)
      else if Marks(Parse(desired.content), b.begin, 0) != [] || Marks(Parse(desired.content), b.end, 0) != []
      then Err(ContentHasMarker)
      else
        match RenderBlock(current.content, b, if desired.presence == Present then Some(desired.content) else None)
        case None => Err(MarkersMalformed)
        case Some(content) =>
          if current.presence == Absent && desired.presence == Absent then Ok(FileState(Absent, "", None))
          else Ok(FileState(Present, content, None))
  }

  // ---------------------------------------------------------------------
  // Markers of composed texts
  // ---------------------------------------------------------------------

  /** The text contains no line equal to the marker. */
  predicate Free(d: Doc, marker: string) {
    d.line != marker && (d.Line? ==> Free(d.rest, marker))
  }

  lemma {:induction false} FreeIffNoMarks(d: Doc, marker: string, base: nat)
    ensures Free(d, marker) <==> Marks(d, marker, base) == []
  {
    if d.Line? {
      FreeIffNoMarks(d.rest, marker, base + |d.line| + 1);
    }
  }

  lemma {:induction false} MarksAppend(d: Doc, e: Doc, marker: string, base: nat)
    requires Closed(d) && marker != ""
    ensures Marks(Append(d, e), marker, base) == Marks(d, marker, base) + Marks(e, marker, base + |Unparse(d)|)
  {
    if d.Line? {
      MarksAppend(d.rest, e, marker, base + |d.line| + 1);
    }
  }

  /** Terminating a text keeps its lines, and so its marker lines. */
  lemma {:induction false} CloseDoc(d: Doc) returns (c: Doc)
    requires Clean(d)
    ensures Clean(c) && Closed(c) && Unparse(c) == Terminate(Unparse(d))
    ensures forall marker :: marker != "" ==> (Free(c, marker) <==> Free(d, marker))
  {
    match d
    case Last(l) =>
      c := if l == "" then d else Line(l, Last(""));
    case Line(l, rest) =>
      var r := CloseDoc(rest);
      c := Line(l, r);
      if Unparse(rest) == "" {
        assert Unparse(d) == l + "\n";
      }
  }

  /** The text cut before its first marker line. */
  lemma {:induction false} CutBefore(d: Doc, marker: string, base: nat) returns (front: Doc, tail: Doc)
    requires Clean(d) && Marks(d, marker, base) != []
    ensures Clean(front) && Closed(front) && Clean(tail) && d == Append(front, tail)
    ensures tail.line == marker && (marker != "" ==> Free(front, marker))
    ensures var start := base + |Unparse(front)|;
            var end := start + |marker| + if tail.Line? then 1 else 0;
            Marks(d, marker, base) == [Span(start, end)] + if tail.Line? then Marks(tail.rest, marker, end) else []
  {
    if d.line == marker {
      front, tail := Last(""), d;
    } else {
      front, tail := CutBefore(d.rest, marker, base + |d.line| + 1);
      front := Line(d.line, front);
    }
  }

  /** What follows the tail's first line, as a text of its own. */
  function Remainder(tail: Doc): Doc { if tail.Line? then tail.rest else Last("") }

  predicate OneLine(marker: string) { marker != "" && '\n' !in marker }

  predicate Usable(b: Block) { OneLine(b.begin) && OneLine(b.end) && b.begin != b.end }

  lemma ValidIsUsable(b: Block, v: Validator)
    requires ValidMarkers(b, v)
    ensures Usable(b)
  {
  }

  predicate FreeOfBoth(d: Doc, b: Block) { Free(d, b.begin) && Free(d, b.end) }

  lemma {:induction false} FreeAppend(d: Doc, e: Doc, marker: string)
    requires Closed(d) && marker != ""
    ensures Free(Append(d, e), marker) <==> Free(d, marker) && Free(e, marker)
  {
    if d.Line? {
      FreeAppend(d.rest, e, marker);
    }
  }

  lemma CutFrame(front: string, block: string, back: string)
    ensures var file := front + block + back;
            file[..|front|] == front && file[|front| + |block|..] == back
  {
  }

  lemma Reassociate(p: string, q: string, r: string, t: string)
    ensures p + (q + (r + t)) == p + (q + r) + t
  {
  }

  /** Cut before the begin line: the only end line comes later. */
  lemma CutAtBegin(d: Doc, b: Block) returns (front: Doc, rest: Doc)
    requires Clean(d) && Usable(b) && Paired(Marks(d, b.begin, 0), Marks(d, b.end, 0))
    ensures Clean(front) && Closed(front) && Clean(rest) && FreeOfBoth(front, b) && Free(rest, b.begin)
    ensures d == Append(front, Line(b.begin, rest))
    ensures Marks(d, b.begin, 0)[0].start == |Unparse(front)|
    ensures Marks(rest, b.end, |Unparse(front)| + |b.begin| + 1) == Marks(d, b.end, 0)
  {
    var tail;
    front, tail := CutBefore(d, b.begin, 0);
    var start := |Unparse(front)|;
    assert Marks(d, b.begin, 0)[0].start == start;
    MarksAppend(front, tail, b.end, 0);
    FreeIffNoMarks(front, b.end, 0);
    if Marks(front, b.end, 0) != [] {
      MarksInside(front, b.end, 0, 0);
      assert false;
    }
    assert tail.Line?;
    rest := tail.rest;
    FreeIffNoMarks(rest, b.begin, start + |b.begin| + 1);
  }

  /** Cut after the end line. */
  lemma CutAfterEnd(rest: Doc, b: Block, k: nat) returns (inside: string, back: Doc)
    requires Clean(rest) && Usable(b) && Free(rest, b.begin) && |Marks(rest, b.end, k)| == 1
    ensures Clean(back) && FreeOfBoth(back, b) && Unparse(rest) == inside + Unparse(back)
    ensures Marks(rest, b.end, k)[0].end == k + |inside|
  {
    var middle, last := CutBefore(rest, b.end, k);
    FreeAppend(middle, last, b.begin);
    back := Remainder(last);
    inside := Unparse(middle) + b.end + if last.Line? then "\n" else "";
    FreeIffNoMarks(back, b.end, k + |inside|);
    TextAround(middle, last);
  }

  lemma TextAround(middle: Doc, last: Doc)
    requires Closed(middle)
    ensures Unparse(Append(middle, last))
         == Unparse(middle) + last.line + (if last.Line? then "\n" else "") + Unparse(Remainder(last))
  {
    UnparseAppend(middle, last);
    var newline := if last.Line? then "\n" else "";
    assert Unparse(last) == last.line + newline + Unparse(Remainder(last));
    Reassociate(Unparse(middle), last.line, newline, Unparse(Remainder(last)));
  }

  /** A file with one marked block falls into what precedes it, the block, and
      what follows it, and rendering cuts exactly there. */
  lemma Dissect(current: string, b: Block) returns (front: Doc, back: Doc)
    requires Usable(b)
    requires Paired(Marks(Parse(current), b.begin, 0), Marks(Parse(current), b.end, 0))
    ensures Clean(front) && Closed(front) && Clean(back) && FreeOfBoth(front, b) && FreeOfBoth(back, b)
    ensures var start := Marks(Parse(current), b.begin, 0)[0].start;
            var end := Marks(Parse(current), b.end, 0)[0].end;
            start <= end <= |current| && current[..start] == Unparse(front) && current[end..] == Unparse(back)
  {
    ParseInverts(current);
    var rest;
    front, rest := CutAtBegin(Parse(current), b);
    var inside;
    inside, back := CutAfterEnd(rest, b, |Unparse(front)| + |b.begin| + 1);
    var block := b.begin + "\n" + inside;
    assert current == Unparse(front) + block + Unparse(back) by {
      UnparseAppend(front, Line(b.begin, rest));
      Reassociate(Unparse(front), b.begin + "\n", inside, Unparse(back));
    }
    CutFrame(Unparse(front), block, Unparse(back));
  }

  lemma BlockLines(b: Block, content: string) returns (d: Doc, before: nat)
    requires Usable(b) && FreeOfBoth(Parse(content), b)
    ensures Clean(d) && Closed(d) && Unparse(d) == BlockBytes(b, content) && before + |b.end| + 1 == |Unparse(d)| && before > 0
    ensures forall base: nat :: Marks(d, b.begin, base) == [Span(base, base + |b.begin| + 1)]
    ensures forall base: nat :: Marks(d, b.end, base) == [Span(base + before, base + |Unparse(d)|)]
  {
    ParseInverts(content);
    var c := CloseDoc(Parse(content));
    var closing := Line(b.end, Last(""));
    d := Line(b.begin, Append(c, closing));
    before := |b.begin| + 1 + |Unparse(c)|;
    assert Closed(Last("")) && Closed(closing);
    AppendClean(c, closing);
    BlockText(c, b);
    forall base: nat
      ensures Marks(d, b.begin, base) == [Span(base, base + |b.begin| + 1)]
      ensures Marks(d, b.end, base) == [Span(base + before, base + |Unparse(d)|)]
    {
      BlockMarks(c, b, base + |b.begin| + 1);
    }
  }

  lemma BlockText(c: Doc, b: Block)
    requires Closed(c)
    ensures var text := Unparse(Line(b.begin, Append(c, Line(b.end, Last("")))));
            text == b.begin + "\n" + Unparse(c) + b.end + "\n"
  {
    var closing := Line(b.end, Last(""));
    UnparseAppend(c, closing);
    assert Unparse(closing) == b.end + "\n";
    assert b.begin + "\n" + (Unparse(c) + (b.end + "\n")) == b.begin + "\n" + Unparse(c) + b.end + "\n";
  }

  lemma BlockMarks(c: Doc, b: Block, k: nat)
    requires Usable(b) && Closed(c) && FreeOfBoth(c, b)
    ensures var rest := Append(c, Line(b.end, Last("")));
            var j := k + |Unparse(c)|;
            Marks(rest, b.begin, k) == [] && Marks(rest, b.end, k) == [Span(j, j + |b.end| + 1)]
  {
    MarksBehind(c, Line(b.end, Last("")), b.begin, k);
    MarksBehind(c, Line(b.end, Last("")), b.end, k);
  }

  lemma MarksBehind(c: Doc, e: Doc, marker: string, k: nat)
    requires Closed(c) && marker != "" && Free(c, marker)
    ensures Marks(Append(c, e), marker, k) == Marks(e, marker, k + |Unparse(c)|)
  {
    MarksAppend(c, e, marker, k);
    FreeIffNoMarks(c, marker, k);
  }

  /** A file assembled around a fresh block has its markers exactly there. */
  lemma Framed(front: Doc, b: Block, content: string, back: Doc) returns (file: string)
    requires Usable(b) && FreeOfBoth(Parse(content), b)
    requires Clean(front) && Closed(front) && FreeOfBoth(front, b) && Clean(back) && FreeOfBoth(back, b)
    ensures file == Unparse(front) + BlockBytes(b, content) + Unparse(back)
    ensures var begins := Marks(Parse(file), b.begin, 0);
            var ends := Marks(Parse(file), b.end, 0);
            && Paired(begins, ends)
            && begins[0].start == |Unparse(front)|
            && ends[0].end == |Unparse(front)| + |BlockBytes(b, content)|
  {
    file := Unparse(front) + BlockBytes(b, content) + Unparse(back);
    var block, before := BlockLines(b, content);
    var d := Append(front, Append(block, back));
    AppendClean(block, back);
    AppendClean(front, Append(block, back));
    UnparseAppend(block, back);
    UnparseAppend(front, Append(block, back));
    assert Unparse(d) == file;
    UnparseInverts(d);
    FramedMarks(front, block, back, b.begin);
    FramedMarks(front, block, back, b.end);
  }

  lemma FramedMarks(front: Doc, block: Doc, back: Doc, marker: string)
    requires Closed(front) && Closed(block) && marker != "" && Free(front, marker) && Free(back, marker)
    ensures Marks(Append(front, Append(block, back)), marker, 0) == Marks(block, marker, |Unparse(front)|)
  {
    var k := |Unparse(front)|;
    MarksAppend(front, Append(block, back), marker, 0);
    MarksAppend(block, back, marker, k);
    FreeIffNoMarks(front, marker, 0);
    FreeIffNoMarks(back, marker, k + |Unparse(block)|);
  }

  // ---------------------------------------------------------------------
  // The guarantees
  // ---------------------------------------------------------------------

  /** Writing a block yields exactly one begin line before one end line, keeps
      every byte before and after the old block (or all of the file, up to a
      final newline), and puts exactly the block in between. */
  lemma WriteBlock(current: string, b: Block, c: string) returns (front: Doc, back: Doc)
    requires Usable(b) && FreeOfBoth(Parse(c), b) && RenderBlock(current, b, Some(c)).Some?
    ensures Clean(front) && Closed(front) && Clean(back) && FreeOfBoth(front, b) && FreeOfBoth(back, b)
    ensures var out := RenderBlock(current, b, Some(c)).value;
            var begins := Marks(Parse(current), b.begin, 0);
            var ends := Marks(Parse(current), b.end, 0);
            && out == Unparse(front) + BlockBytes(b, c) + Unparse(back)
            && Paired(Marks(Parse(out), b.begin, 0), Marks(Parse(out), b.end, 0))
            && (if begins == [] && ends == []
                then Unparse(front) == Terminate(current) && Unparse(back) == ""
                else begins[0].start <= |current| && ends[0].end <= |current|
                     && Unparse(front) == current[..begins[0].start] && Unparse(back) == current[ends[0].end..])
  {
    ParseInverts(current);
    FreeIffNoMarks(Parse(current), b.begin, 0);
    FreeIffNoMarks(Parse(current), b.end, 0);
    if FreeOfBoth(Parse(current), b) {
      front := CloseDoc(Parse(current));
      back := Last("");
    } else {
      front, back := Dissect(current, b);
    }
    var file := Framed(front, b, c, back);
    assert file == RenderBlock(current, b, Some(c)).value;
  }

  /** Writing the same block again changes nothing. */
  lemma WriteIdempotent(current: string, b: Block, c: string)
    requires Usable(b) && FreeOfBoth(Parse(c), b) && RenderBlock(current, b, Some(c)).Some?
    ensures var out := RenderBlock(current, b, Some(c)).value; RenderBlock(out, b, Some(c)) == Some(out)
  {
    var front, back := WriteBlock(current, b, c);
    var out := Framed(front, b, c, back);
    CutFrame(Unparse(front), BlockBytes(b, c), Unparse(back));
  }

  lemma RemoveFramed(front: Doc, b: Block, c: string, back: Doc)
    requires Usable(b) && FreeOfBoth(Parse(c), b)
    requires Clean(front) && Closed(front) && FreeOfBoth(front, b) && Clean(back) && FreeOfBoth(back, b)
    ensures RenderBlock(Unparse(front) + BlockBytes(b, c) + Unparse(back), b, None) == Some(Unparse(front) + Unparse(back))
  {
    var out := Framed(front, b, c, back);
    CutFrame(Unparse(front), BlockBytes(b, c), Unparse(back));
    assert Unparse(front) + "" == Unparse(front);
  }

  /** Removing a block that was written leaves what surrounds it: after an
      insertion the original text with at most a final newline added, after a
      replacement what removing the old block would have left. */
  lemma RemoveAfterWrite(current: string, b: Block, c: string)
    requires Usable(b) && FreeOfBoth(Parse(c), b) && RenderBlock(current, b, Some(c)).Some?
    ensures var out := RenderBlock(current, b, Some(c)).value;
            RenderBlock(out, b, None) ==
              if FreeOfBoth(Parse(current), b) then Some(Terminate(current)) else RenderBlock(current, b, None)
  {
    FreeIffNoMarks(Parse(current), b.begin, 0);
    FreeIffNoMarks(Parse(current), b.end, 0);
    var front, back := WriteBlock(current, b, c);
    RemoveFramed(front, b, c, back);
    if FreeOfBoth(Parse(current), b) {
      assert Terminate(current) + "" == Terminate(current);
    } else {
      assert Unparse(front) + "" == Unparse(front);
    }
  }

  /** A removed block is gone, and removing it again changes nothing. */
  lemma RemoveIsComplete(current: string, b: Block)
    requires Usable(b) && RenderBlock(current, b, None).Some?
    ensures var out := RenderBlock(current, b, None).value;
            FreeOfBoth(Parse(out), b) && RenderBlock(out, b, None) == Some(out)
  {
    var out := RenderBlock(current, b, None).value;
    FreeIffNoMarks(Parse(current), b.begin, 0);
    FreeIffNoMarks(Parse(current), b.end, 0);
    if !FreeOfBoth(Parse(current), b) {
      var front, back := Dissect(current, b);
      assert out == Unparse(front) + Unparse(back);
      AppendClean(front, back);
      UnparseAppend(front, back);
      UnparseInverts(Append(front, back));
      FreeAppend(front, back, b.begin);
      FreeAppend(front, back, b.end);
    }
    FreeIffNoMarks(Parse(out), b.begin, 0);
    FreeIffNoMarks(Parse(out), b.end, 0);
  }

  /** Rendering any desired state a second time over its own result is a no-op. */
  lemma RenderIdempotent(desired: FileState, current: FileState, v: Validator)
    requires Render(desired, current, v).Ok?
    requires current.presence == Absent ==> current.content == ""
    ensures Render(desired, Render(desired, current, v).state, v) == Render(desired, current, v)
  {
    if desired.block.Some? {
      var b := desired.block.value;
      ValidIsUsable(b, v);
      FreeIffNoMarks(Parse(desired.content), b.begin, 0);
      FreeIffNoMarks(Parse(desired.content), b.end, 0);
      if desired.presence == Present {
        WriteIdempotent(current.content, b, desired.content);
      } else {
        RemoveIsComplete(current.content, b);
      }
    }
  }
}
