/**
 The pattern vetter: a flat scanner with a stack of group flags, and the
 regular-expression syntax trees it is meant to judge.
 */
module Redos {
  import opened Options
  import opened Text

  // ---------------------------------------------------------------------
  // Substring helpers
  // ---------------------------------------------------------------------

  /** Index of the first occurrence of the two characters side by side, or -1. */
  function IndexOfPair(s: string, a: char, b: char): (i: int)
    ensures i == -1 || 0 <= i < |s| - 1
  {
    if |s| < 2 then -1
    else if s[0] == a && s[1] == b then 0
    else
      var i := IndexOfPair(s[1..], a, b);
      if i < 0 then -1 else i + 1
  }

  predicate IsDigit(c: char) { '0' <= c <= '9' }

  predicate AllDigits(s: string) { forall i :: 0 <= i < |s| ==> IsDigit(s[i]) }

  function Value(s: string): nat
    requires AllDigits(s)
  {
    if s == "" then 0 else Value(s[..|s|-1]) * 10 + (s[|s|-1] as int - '0' as int)
  }

  const MAX_INT := 0x7fff_ffff_ffff_ffff

  /** Decimal with an optional sign; out of the 64-bit range is an error. */
  function Atoi(s: string): Option<int> {
    var digits := if s != "" && (s[0] == '-' || s[0] == '+') then s[1..] else s;
    if digits == "" || !AllDigits(digits) then None
    else
      var value: int := Value(digits);
      var n := if s[0] == '-' then -value else value;
      if -MAX_INT - 1 <= n <= MAX_INT then Some(n) else None
  }

  // ---------------------------------------------------------------------
  // The scanner, by remaining text
  // ---------------------------------------------------------------------

  /** The text between a leading brace and the first closing one. */
  function Brace(p: string): Option<string> {
    if p == "" || p[0] != '{' then None
    else
      var j := IndexOf(p, '}');
      if j <= 0 then None else Some(p[1..j])
  }

  function QuantifierUnbounded(p: string): bool {
    match Brace(p) case None => false case Some(body) => OpenEnded(body)
  }

  predicate OpenEnded(body: string) {
    var k := IndexOf(body, ',');
    k >= 0 && body[k+1..] == ""
  }

  function BoundedRepeatBounds(p: string): Option<(int, int)> {
    match Brace(p) case None => None case Some(body) => Bounds(body)
  }

  function Bounds(body: string): Option<(int, int)> {
    if body != "" && body[|body|-1] == ',' then None
    else
      var k := IndexOf(body, ',');
      if k < 0 then
        match Atoi(TrimSpace(body)) case None => None case Some(n) => Some((n, n))
      else
        match (Atoi(TrimSpace(body[..k])), Atoi(TrimSpace(body[k+1..])))
        case (Some(n), Some(m)) => Some((n, m))
        case _ => None
  }

  predicate PosixMark(c: char) { c == ':' || c == '.' || c == '=' }

  /** One member of a class is passed over at a time. */
  function AfterMember(p: string): (r: string)
    requires p != ""
    ensures |r| < |p|
  {
    if p[0] == '\\' && |p| > 1 then p[2..]
    else if p[0] == '[' && |p| > 1 && PosixMark(p[1]) && IndexOfPair(p[2..], p[1], ']') >= 0
    then p[2 + IndexOfPair(p[2..], p[1], ']') + 2..]
    else p[1..]
  }

  /** The text after a class whose opening has been read; an unterminated class
      takes everything. */
  function ClassTail(p: string): (r: string)
    ensures |r| <= |p|
    decreases |p|
  {
    if p == "" then ""
    else if p[0] == ']' then p[1..]
    else ClassTail(AfterMember(p))
  }

  /** A leading `^` and then a leading `]` belong to the opening. */
  function ClassOpening(p: string): nat {
    var n := if |p| > 1 && p[1] == '^' then 2 else 1;
    if |p| > n && p[n] == ']' then n + 1 else n
  }

  function AfterClass(p: string): (r: string)
    requires p != ""
    ensures |r| < |p|
  {
    ClassTail(p[ClassOpening(p)..])
  }

  /** How many unbounded quantifiers the next token is, and what follows it. */
  function CountToken(p: string): (r: (nat, string))
    requires p != ""
    ensures |r.1| < |p|
  {
    if p[0] == '\\' && |p| > 1 then (0, p[2..])
    else if p[0] == '[' then (0, AfterClass(p))
    else if p[0] == '*' || p[0] == '+' then (1, p[1..])
    else if p[0] == '{' && QuantifierUnbounded(p) then (1, p[1..])
    else (0, p[1..])
  }

  function CountUnbounded(p: string): nat
    decreases |p|
  {
    if p == "" then 0 else CountToken(p).0 + CountUnbounded(CountToken(p).1)
  }

  datatype Reason = Fine | TooMany | Nested | Alternation | Repetition

  datatype Frame = Frame(alt: bool, inner: bool)

  function Mark(stack: seq<Frame>, alt: bool, inner: bool): seq<Frame> {
    if stack == [] then []
    else
      var top := stack[|stack|-1];
      stack[..|stack|-1] + [Frame(top.alt || alt, top.inner || inner)]
  }

  predicate Unbounded(next: string) {
    next != "" && (next[0] == '*' || next[0] == '+' || QuantifierUnbounded(next))
  }

  predicate RepeatsTwice(next: string) {
    BoundedRepeatBounds(next).Some? && BoundedRepeatBounds(next).value.1 >= 2
  }

  /** Judgement on a group that has just closed, by the text that follows it. */
  function Close(top: Frame, next: string): Reason {
    if Unbounded(next) && top.inner then Nested
    else if Unbounded(next) && top.alt then Alternation
    else if top.inner && RepeatsTwice(next) then Repetition
    else Fine
  }

  datatype Outcome = Reject(reason: Reason) | Go(rest: string, stack: seq<Frame>)

  /** The effect of the next token of a non-empty text. */
  function WalkToken(p: string, stack: seq<Frame>): (r: Outcome)
    requires p != ""
    ensures r.Go? ==> |r.rest| < |p|
  {
    if p[0] == '\\' && |p| > 1 then Go(p[2..], stack)
    else if p[0] == '[' then Go(AfterClass(p), stack)
    else if p[0] == '(' then Go(p[1..], stack + [Frame(false, false)])
    else if p[0] == ')' && stack != [] then
      var top := stack[|stack|-1];
      if Close(top, p[1..]) != Fine then Reject(Close(top, p[1..]))
      else Go(p[1..], Mark(stack[..|stack|-1], top.alt, top.inner))
    else if p[0] == '|' then Go(p[1..], Mark(stack, true, false))
    else if p[0] == '*' || p[0] == '+' then Go(p[1..], Mark(stack, false, true))
    else if p[0] == '{' && QuantifierUnbounded(p) then Go(p[IndexOf(p, '}') + 1..], Mark(stack, false, true))
    else Go(p[1..], stack)
  }

  function Walk(p: string, stack: seq<Frame>): Reason
    decreases |p|
  {
    if p == "" then Fine
    else match WalkToken(p, stack)
      case Reject(reason) => reason
      case Go(rest, after) => Walk(rest, after)
  }

  function Judge(p: string): Reason {
    if CountUnbounded(p) > 5 then TooMany else Walk(p, [])
  }

  // ---------------------------------------------------------------------
  // The scanner, as the index loops it is written with
  // ---------------------------------------------------------------------

  method SkipClass(p: string, i: nat) returns (j: nat)
    requires i < |p|
    ensures i <= j < |p| && p[j+1..] == AfterClass(p[i..])
  {
    j := SkipOpening(p, i);
    j := SkipMembers(p, j);
    if j == |p| {
      j := |p| - 1;
    }
  }

  method SkipOpening(p: string, i: nat) returns (j: nat)
    requires i < |p|
    ensures i < j <= |p| && p[j..] == p[i..][ClassOpening(p[i..])..]
  {
    ghost var rest := p[i..];
    j := i + 1;
    if j < |p| && p[j] == '^' { j := j + 1; }
    if j < |p| && p[j] == ']' { j := j + 1; }
    assert ClassOpening(rest) == j - i;
    assert rest[j - i..] == p[j..];
  }

  /** The loop of the same function; past the end when the class is unterminated. */
  method SkipMembers(p: string, start: nat) returns (j: nat)
    requires start <= |p|
    ensures start <= j <= |p| && ClassTail(p[start..]) == if j < |p| then p[j+1..] else ""
  {
    ghost var goal := ClassTail(p[start..]);
    j := start;
    while j < |p|
      invariant start <= j <= |p|
      invariant goal == ClassTail(p[j..])
      decreases |p| - j
    {
      if p[j] == ']' {
        return j;
      }
      j := SkipMember(p, j);
    }
  }

  /** One turn of that loop that does not end the class. */
  method SkipMember(p: string, j: nat) returns (k: nat)
    requires j < |p|
    ensures j < k <= |p| && p[k..] == AfterMember(p[j..])
  {
    ghost var rest := p[j..];
    if p[j] == '\\' && j + 1 < |p| {
      assert rest[2..] == p[j+2..];
      return j + 2;
    }
    if p[j] == '[' && j + 1 < |p| && PosixMark(p[j+1]) {
      assert rest[2..] == p[j+2..];
      var n := IndexOfPair(p[j+2..], p[j+1], ']');
      if n >= 0 {
        assert rest[2 + n + 2..] == p[j+2+n+2..];
        return j + 2 + n + 2;
      }
    }
    assert rest[1..] == p[j+1..];
    return j + 1;
  }

  method PathologicalReason(p: string) returns (reason: Reason)
    ensures reason == Judge(p)
  {
    var unbounded := 0;
    var i := 0;
    while i < |p|
      invariant 0 <= i <= |p|
      invariant CountUnbounded(p) == unbounded + CountUnbounded(p[i..])
      decreases |p| - i
    {
      var c := p[i];
      ghost var token := CountToken(p[i..]);
      if c == '\\' && i + 1 < |p| {
        assert token == (0, p[i+2..]);
        i := i + 2;
        continue;
      }
      match c {
        case '[' => i := SkipClass(p, i);
        case '*' => unbounded := unbounded + 1;
        case '+' => unbounded := unbounded + 1;
        case '{' => if QuantifierUnbounded(p[i..]) { unbounded := unbounded + 1; }
        case _ =>
      }
      i := i + 1;
      assert token.1 == p[i..];
    }
    if unbounded > 5 {
      return TooMany;
    }
    reason := WalkGroups(p);
  }

  /** What the text behind a closing bracket makes of the group. */
  method CloseGroup(top: Frame, rest: string) returns (reason: Reason)
    ensures reason == Close(top, rest)
  {
    if rest != "" {
      var next := rest[0];
      if next == '*' || next == '+' || (next == '{' && QuantifierUnbounded(rest)) {
        if top.inner { return Nested; }
        if top.alt { return Alternation; }
      }
      if next == '{' && top.inner {
        var bounds := BoundedRepeatBounds(rest);
        if bounds.Some? && bounds.value.1 >= 2 { return Repetition; }
      }
    }
    return Fine;
  }

  /** What the walk makes of the token at i. */
  predicate Follows(p: string, i: nat, before: seq<Frame>, reason: Reason, next: nat, stack: seq<Frame>)
    requires i < |p|
  {
    match WalkToken(p[i..], before)
    case Reject(r) => reason == r
    case Go(rest, after) => reason == Fine && i < next <= |p| && p[next..] == rest && stack == after
  }

  /** The branch for a closing bracket. */
  method WalkClose(p: string, i: nat, before: seq<Frame>) returns (reason: Reason, next: nat, stack: seq<Frame>)
    requires i < |p| && p[i] == ')'
    ensures Follows(p, i, before, reason, next, stack)
  {
    assert p[i..][1..] == p[i+1..];
    stack, next, reason := before, i + 1, Fine;
    if stack != [] {
      var top := stack[|stack|-1];
      stack := stack[..|stack|-1];
      stack := Mark(stack, top.alt, top.inner);
      reason := CloseGroup(top, p[i+1..]);
    }
  }

  /** The branch for a counted quantifier. */
  method WalkBrace(p: string, i: nat, before: seq<Frame>) returns (next: nat, stack: seq<Frame>)
    requires i < |p| && p[i] == '{'
    ensures Follows(p, i, before, Fine, next, stack)
  {
    ghost var text := p[i..];
    assert text[1..] == p[i+1..];
    stack, next := before, i + 1;
    var j := IndexOf(p[i..], '}');
    if j > 0 && QuantifierUnbounded(p[i..]) {
      stack := Mark(stack, false, true);
      next := i + j + 1;
      assert text[j+1..] == p[next..];
    }
  }

  /** One turn of the second loop of the same function. */
  method WalkOne(p: string, i: nat, before: seq<Frame>) returns (reason: Reason, next: nat, stack: seq<Frame>)
    requires i < |p|
    ensures Follows(p, i, before, reason, next, stack)
  {
    ghost var text := p[i..];
    stack, next, reason := before, i + 1, Fine;
    assert text[1..] == p[i+1..];
    if p[i] == '\\' && i + 1 < |p| {
      assert text[2..] == p[i+2..];
      return Fine, i + 2, stack;
    }
    match p[i] {
      case '[' =>
        var last := SkipClass(p, i);
        next := last + 1;
      case '(' => stack := stack + [Frame(false, false)];
      case ')' => reason, next, stack := WalkClose(p, i, before);
      case '|' => stack := Mark(stack, true, false);
      case '*' => stack := Mark(stack, false, true);
      case '+' => stack := Mark(stack, false, true);
      case '{' => next, stack := WalkBrace(p, i, before);
      case _ =>
    }
  }

  lemma RejectsForAReason(p: string, stack: seq<Frame>)
    requires p != ""
    ensures WalkToken(p, stack) != Reject(Fine)
  {
  }

  method WalkGroups(p: string) returns (reason: Reason)
    ensures reason == Walk(p, [])
  {
    var stack: seq<Frame> := [];
    var i := 0;
    ghost var goal := Walk(p, []);
    assert p[0..] == p;
    while i < |p|
      invariant 0 <= i <= |p|
      invariant goal == Walk(p[i..], stack)
      decreases |p| - i
    {
      RejectsForAReason(p[i..], stack);
      reason, i, stack := WalkOne(p, i, stack);
      if reason != Fine {
        return;
      }
    }
    return Fine;
  }
}
