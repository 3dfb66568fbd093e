/**
 Regular expressions as trees, their concrete syntax, and the proof that the
 flat scanner judges the text of a tree exactly as a recursive definition over
 the tree does.
 */
module RedosTree {
  import opened Options
  import opened Text
  import opened Redos

  // ---------------------------------------------------------------------
  // Trees
  // ---------------------------------------------------------------------

  datatype Quantifier = Once | Optional | Star | Plus | Exactly(n: nat) | Between(n: nat, m: nat) | AtLeast(n: nat)

  datatype Member = Plain(c: char) | EscapedMember(c: char) | Posix(mark: char, name: string)

  datatype Members = NoMore | More(first: Member, rest: Members)

  /** `prefix` is what may follow the parenthesis, as in `(?:` or `(?P<name>`. */
  datatype Atom =
    | Literal(c: char)
    | Escaped(c: char)
    | Class(negated: bool, bracketFirst: bool, members: Members)
    | Group(prefix: string, body: Regex)

  datatype Piece = Piece(atom: Atom, quantifier: Quantifier, lazy: bool)

  datatype Sequence = Empty | Then(piece: Piece, rest: Sequence)

  datatype Regex = Only(branch: Sequence) | Or(branch: Sequence, others: Regex)

  /** Characters that mean nothing to the scanner by themselves. */
  predicate Neutral(c: char) {
    c != '\\' && c != '[' && c != '(' && c != ')' && c != '{' && c != '|' && c != '*' && c != '+'
  }

  predicate AllNeutral(s: string) { forall i :: 0 <= i < |s| ==> Neutral(s[i]) }

  /** A plain `[` must not open a POSIX sub-expression with what follows it. */
  predicate WellFormedMembers(ms: Members) {
    match ms
    case NoMore => true
    case More(m, rest) =>
      && WellFormedMembers(rest)
      && match m
         case Plain(c) =>
           c != ']' && c != '\\' && (c == '[' ==> !(rest.More? && rest.first.Plain? && PosixMark(rest.first.c)))
         case EscapedMember(_) => true
         case Posix(mark, name) => PosixMark(mark) && mark !in name
  }

  predicate WellFormedAtom(a: Atom) {
    match a
    case Literal(c) => Neutral(c)
    case Escaped(_) => true
    case Class(negated, bracketFirst, ms) =>
      && WellFormedMembers(ms)
      && (bracketFirst || ms.More?)
      && (!negated && !bracketFirst && ms.More? ==> ms.first != Plain('^'))
    case Group(prefix, body) => AllNeutral(prefix) && WellFormed(body)
  }

  predicate WellFormedSequence(s: Sequence) {
    match s
    case Empty => true
    case Then(piece, rest) => WellFormedAtom(piece.atom) && WellFormedSequence(rest)
  }

  predicate WellFormed(r: Regex) {
    match r
    case Only(s) => WellFormedSequence(s)
    case Or(s, others) => WellFormedSequence(s) && WellFormed(others)
  }

  // ---------------------------------------------------------------------
  // Concrete syntax
  // ---------------------------------------------------------------------

  function Decimal(n: nat): (s: string)
    ensures s != "" && AllDigits(s) && Value(s) == n
  {
    var digit := ['0' + (n % 10) as char];
    if n < 10 then
      assert digit[..0] == "";
      digit
    else
      var front := Decimal(n / 10);
      assert (front + digit)[..|front|] == front;
      front + digit
  }

  function PrintQuantifier(q: Quantifier): string {
    match q
    case Once => ""
    case Optional => "?"
    case Star => "*"
    case Plus => "+"
    case Exactly(n) => "{" + Decimal(n) + "}"
    case Between(n, m) => "{" + (Decimal(n) + "," + Decimal(m)) + "}"
    case AtLeast(n) => "{" + (Decimal(n) + ",") + "}"
  }

  function PrintMember(m: Member): string {
    match m
    case Plain(c) => [c]
    case EscapedMember(c) => ['\\', c]
    case Posix(mark, name) => ['[', mark] + name + [mark, ']']
  }

  function PrintMembers(ms: Members): string {
    match ms
    case NoMore => ""
    case More(m, rest) => PrintMember(m) + PrintMembers(rest)
  }

  function PrintAtom(a: Atom): string {
    match a
    case Literal(c) => [c]
    case Escaped(c) => ['\\', c]
    case Class(negated, bracketFirst, ms) =>
      "[" + (if negated then "^" else "") + (if bracketFirst then "]" else "") + PrintMembers(ms) + "]"
    case Group(prefix, body) => "(" + prefix + Print(body) + ")"
  }

  function PrintPiece(p: Piece): string {
    PrintAtom(p.atom) + PrintQuantifier(p.quantifier) + (if p.lazy then "?" else "")
  }

  function PrintSequence(s: Sequence): string {
    match s
    case Empty => ""
    case Then(piece, rest) => PrintPiece(piece) + PrintSequence(rest)
  }

  function Print(r: Regex): string {
    match r
    case Only(s) => PrintSequence(s)
    case Or(s, others) => PrintSequence(s) + "|" + Print(others)
  }

  // ---------------------------------------------------------------------
  // The rules, over trees
  // ---------------------------------------------------------------------

  predicate IsUnbounded(q: Quantifier) { q.Star? || q.Plus? || q.AtLeast? }

  /** A bounded repeat of two or more, with bounds the parser can represent. */
  predicate IsRepeat(q: Quantifier) {
    match q
    case Exactly(n) => 2 <= n <= MAX_INT
    case Between(n, m) => n <= MAX_INT && 2 <= m <= MAX_INT
    case _ => false
  }

  function CountAtom(a: Atom): nat { if a.Group? then Count(a.body) else 0 }

  function CountSequence(s: Sequence): nat {
    match s
    case Empty => 0
    case Then(p, rest) => CountAtom(p.atom) + (if IsUnbounded(p.quantifier) then 1 else 0) + CountSequence(rest)
  }

  /** Number of unbounded quantifiers. */
  function Count(r: Regex): nat {
    match r
    case Only(s) => CountSequence(s)
    case Or(s, others) => CountSequence(s) + Count(others)
  }

  predicate HasUnboundedAtom(a: Atom) { a.Group? && HasUnbounded(a.body) }

  predicate HasUnboundedSequence(s: Sequence) {
    s.Then? && (HasUnboundedAtom(s.piece.atom) || IsUnbounded(s.piece.quantifier) || HasUnboundedSequence(s.rest))
  }

  /** An unbounded quantifier at any depth. */
  predicate HasUnbounded(r: Regex) {
    HasUnboundedSequence(r.branch) || (r.Or? && HasUnbounded(r.others))
  }

  predicate HasChoiceAtom(a: Atom) { a.Group? && HasChoice(a.body) }

  predicate HasChoiceSequence(s: Sequence) {
    s.Then? && (HasChoiceAtom(s.piece.atom) || HasChoiceSequence(s.rest))
  }

  /** An alternation at any depth. */
  predicate HasChoice(r: Regex) { r.Or? || HasChoiceSequence(r.branch) }

  /** What is wrong with repeating a group with this body. */
  function QuantifiedGroup(body: Regex, q: Quantifier): Reason {
    if IsUnbounded(q) && HasUnbounded(body) then Nested
    else if IsUnbounded(q) && HasChoice(body) then Alternation
    else if IsRepeat(q) && HasUnbounded(body) then Repetition
    else Fine
  }

  function First(a: Reason, b: Reason): Reason { if a != Fine then a else b }

  function VerdictPiece(p: Piece): Reason {
    if p.atom.Group? then First(Verdict(p.atom.body), QuantifiedGroup(p.atom.body, p.quantifier)) else Fine
  }

  function VerdictSequence(s: Sequence): Reason {
    match s
    case Empty => Fine
    case Then(p, rest) => First(VerdictPiece(p), VerdictSequence(rest))
  }

  /** The first badly quantified group, innermost and leftmost first. */
  function Verdict(r: Regex): Reason {
    match r
    case Only(s) => VerdictSequence(s)
    case Or(s, others) => First(VerdictSequence(s), Verdict(others))
  }

  // ---------------------------------------------------------------------
  // Quantifier tokens
  // ---------------------------------------------------------------------

  /** Text that does not continue a group with a quantifier. */
  predicate NoQuantifier(s: string) { s == "" || (s[0] != '*' && s[0] != '+' && s[0] != '{') }

  lemma BraceToken(body: string, rest: string)
    requires '}' !in body
    ensures Brace("{" + body + "}" + rest) == Some(body)
    ensures IndexOf("{" + body + "}" + rest, '}') == |body| + 1
  {
    var p := "{" + body + "}" + rest;
    assert p[..|body| + 1] == "{" + body;
    FirstAt(p, '}', |body| + 1);
    assert p[1..|body| + 1] == body;
  }

  lemma CommaAt(front: string, back: string)
    requires ',' !in front
    ensures IndexOf(front + "," + back, ',') == |front|
    ensures (front + "," + back)[..|front|] == front && (front + "," + back)[|front|+1..] == back
  {
    var s := front + "," + back;
    assert s[..|front|] == front;
    FirstAt(s, ',', |front|);
  }

  lemma DigitsParse(n: nat)
    ensures var s := Decimal(n);
            && ',' !in s && '}' !in s
            && Atoi(TrimSpace(s)) == if n <= MAX_INT then Some(n) else None
  {
    var s := Decimal(n);
    assert IsDigit(s[0]) && IsDigit(s[|s|-1]);
  }

  lemma ExactlyToken(n: nat, rest: string)
    ensures var t := PrintQuantifier(Exactly(n)) + rest;
            !QuantifierUnbounded(t) && BoundedRepeatBounds(t) == if n <= MAX_INT then Some((n, n)) else None
  {
    DigitsParse(n);
    BraceToken(Decimal(n), rest);
    assert ',' !in Decimal(n);
  }

  lemma BetweenBody(n: nat, m: nat)
    ensures var body := Decimal(n) + "," + Decimal(m);
            && '}' !in body && !OpenEnded(body)
            && Bounds(body) == if n <= MAX_INT && m <= MAX_INT then Some((n, m)) else None
  {
    DigitsParse(n);
    DigitsParse(m);
    var body := Decimal(n) + "," + Decimal(m);
    CommaAt(Decimal(n), Decimal(m));
    assert body[|body|-1] == Decimal(m)[|Decimal(m)|-1];
  }

  lemma BetweenToken(n: nat, m: nat, rest: string)
    ensures var t := PrintQuantifier(Between(n, m)) + rest;
            && !QuantifierUnbounded(t)
            && BoundedRepeatBounds(t) == if n <= MAX_INT && m <= MAX_INT then Some((n, m)) else None
  {
    BetweenBody(n, m);
    BraceToken(Decimal(n) + "," + Decimal(m), rest);
  }

  lemma AtLeastToken(n: nat, rest: string)
    ensures var t := PrintQuantifier(AtLeast(n)) + rest;
            QuantifierUnbounded(t) && BoundedRepeatBounds(t) == None
  {
    DigitsParse(n);
    var body := Decimal(n) + ",";
    BraceToken(body, rest);
    CommaAt(Decimal(n), "");
    assert Decimal(n) + "," + "" == body;
  }

  lemma NoBrace(t: string)
    requires t == "" || t[0] != '{'
    ensures !QuantifierUnbounded(t) && BoundedRepeatBounds(t) == None
  {
  }

  lemma SimpleToken(q: Quantifier, rest: string)
    requires q.Once? || q.Optional? || q.Star? || q.Plus?
    requires q == Once ==> NoQuantifier(rest)
    ensures Unbounded(PrintQuantifier(q) + rest) == IsUnbounded(q)
    ensures !RepeatsTwice(PrintQuantifier(q) + rest)
  {
    NoBrace(PrintQuantifier(q) + rest);
  }

  lemma CountedToken(q: Quantifier, rest: string)
    requires q.Exactly? || q.Between? || q.AtLeast?
    ensures QuantifierUnbounded(PrintQuantifier(q) + rest) == q.AtLeast?
    ensures BoundedRepeatBounds(PrintQuantifier(q) + rest) ==
            match q
            case Exactly(n) => if n <= MAX_INT then Some((n, n)) else None
            case Between(n, m) => if n <= MAX_INT && m <= MAX_INT then Some((n, m)) else None
            case _ => None
  {
    match q
    case Exactly(n) => ExactlyToken(n, rest);
    case Between(n, m) => BetweenToken(n, m, rest);
    case AtLeast(n) => AtLeastToken(n, rest);
  }

  lemma QuantifierToken(q: Quantifier, rest: string)
    requires q == Once ==> NoQuantifier(rest)
    ensures Unbounded(PrintQuantifier(q) + rest) == IsUnbounded(q)
    ensures RepeatsTwice(PrintQuantifier(q) + rest) == IsRepeat(q)
  {
    if q.Exactly? || q.Between? || q.AtLeast? {
      CountedToken(q, rest);
      assert (PrintQuantifier(q) + rest)[0] == '{';
    } else {
      SimpleToken(q, rest);
    }
  }

  // ---------------------------------------------------------------------
  // Passing over tokens
  // ---------------------------------------------------------------------

  lemma {:induction false} NeutralText(s: string, rest: string, stack: seq<Frame>)
    requires AllNeutral(s)
    ensures Walk(s + rest, stack) == Walk(rest, stack)
    ensures CountUnbounded(s + rest) == CountUnbounded(rest)
  {
    if s == "" {
      assert s + rest == rest;
    } else {
      assert (s + rest)[1..] == s[1..] + rest;
      NeutralText(s[1..], rest, stack);
    }
  }

  lemma MarkNothing(stack: seq<Frame>)
    ensures Mark(stack, false, false) == stack
  {
  }

  lemma MarkTwice(stack: seq<Frame>, a: bool, b: bool, c: bool, d: bool)
    ensures Mark(Mark(stack, a, b), c, d) == Mark(stack, a || c, b || d)
  {
  }

  lemma OrMarks(stack: seq<Frame>, a: bool, b: bool, c: bool, d: bool)
    ensures Mark(Mark(Mark(stack, a, b), true, false), c, d) == Mark(stack, true, b || d)
  {
    MarkTwice(stack, a, b, true, false);
    MarkTwice(stack, true, b, c, d);
  }

  /** One character of plain text, an opening, a bar, a star or plus. */
  lemma OneToken(c: char, rest: string, stack: seq<Frame>)
    requires c != '\\' && c != '[' && c != '{' && c != ')'
    ensures Walk([c] + rest, stack) ==
            Walk(rest, if c == '(' then stack + [Frame(false, false)]
                       else Mark(stack, c == '|', c == '*' || c == '+'))
    ensures CountUnbounded([c] + rest) == (if c == '*' || c == '+' then 1 else 0) + CountUnbounded(rest)
  {
    var t := [c] + rest;
    assert t[1..] == rest;
    MarkNothing(stack);
  }

  lemma BoundedText(body: string, rest: string, stack: seq<Frame>)
    requires AllNeutral(body) && !QuantifierUnbounded("{" + body + "}" + rest)
    ensures Walk("{" + body + "}" + rest, stack) == Walk(rest, stack)
    ensures CountUnbounded("{" + body + "}" + rest) == CountUnbounded(rest)
  {
    var t := "{" + body + "}" + rest;
    assert t[1..] == (body + "}") + rest;
    NeutralText(body + "}", rest, stack);
  }

  lemma UnboundedText(body: string, rest: string, stack: seq<Frame>)
    requires AllNeutral(body) && '}' !in body && QuantifierUnbounded("{" + body + "}" + rest)
    ensures Walk("{" + body + "}" + rest, stack) == Walk(rest, Mark(stack, false, true))
    ensures CountUnbounded("{" + body + "}" + rest) == 1 + CountUnbounded(rest)
  {
    var t := "{" + body + "}" + rest;
    BraceToken(body, rest);
    assert t[IndexOf(t, '}') + 1..] == rest;
    assert t[1..] == (body + "}") + rest;
    NeutralText(body + "}", rest, stack);
  }

  lemma QuantifierText(q: Quantifier, rest: string, stack: seq<Frame>)
    ensures Walk(PrintQuantifier(q) + rest, stack) == Walk(rest, Mark(stack, false, IsUnbounded(q)))
    ensures CountUnbounded(PrintQuantifier(q) + rest) == (if IsUnbounded(q) then 1 else 0) + CountUnbounded(rest)
  {
    MarkNothing(stack);
    match q
    case Once => assert "" + rest == rest;
    case Optional => OneToken('?', rest, stack);
    case Star => OneToken('*', rest, stack);
    case Plus => OneToken('+', rest, stack);
    case _ => CountedText(q, rest, stack);
  }

  lemma CountedText(q: Quantifier, rest: string, stack: seq<Frame>)
    requires q.Exactly? || q.Between? || q.AtLeast?
    ensures Walk(PrintQuantifier(q) + rest, stack) == Walk(rest, Mark(stack, false, IsUnbounded(q)))
    ensures CountUnbounded(PrintQuantifier(q) + rest) == (if IsUnbounded(q) then 1 else 0) + CountUnbounded(rest)
  {
    match q
    case Exactly(n) => ExactlyText(n, rest, stack);
    case Between(n, m) => BetweenText(n, m, rest, stack);
    case AtLeast(n) => AtLeastText(n, rest, stack);
  }

  lemma {:induction false} DigitsNeutral(s: string)
    requires forall i :: 0 <= i < |s| ==> IsDigit(s[i]) || s[i] == ','
    ensures AllNeutral(s) && '}' !in s
  {
  }

  lemma ExactlyText(n: nat, rest: string, stack: seq<Frame>)
    ensures Walk(PrintQuantifier(Exactly(n)) + rest, stack) == Walk(rest, Mark(stack, false, false))
    ensures CountUnbounded(PrintQuantifier(Exactly(n)) + rest) == CountUnbounded(rest)
  {
    DigitsNeutral(Decimal(n));
    CountedToken(Exactly(n), rest);
    BoundedText(Decimal(n), rest, stack);
    MarkNothing(stack);
  }

  lemma BetweenText(n: nat, m: nat, rest: string, stack: seq<Frame>)
    ensures Walk(PrintQuantifier(Between(n, m)) + rest, stack) == Walk(rest, Mark(stack, false, false))
    ensures CountUnbounded(PrintQuantifier(Between(n, m)) + rest) == CountUnbounded(rest)
  {
    var body := Decimal(n) + "," + Decimal(m);
    DigitsNeutral(body);
    CountedToken(Between(n, m), rest);
    BoundedText(body, rest, stack);
    MarkNothing(stack);
  }

  lemma AtLeastText(n: nat, rest: string, stack: seq<Frame>)
    ensures Walk(PrintQuantifier(AtLeast(n)) + rest, stack) == Walk(rest, Mark(stack, false, true))
    ensures CountUnbounded(PrintQuantifier(AtLeast(n)) + rest) == 1 + CountUnbounded(rest)
  {
    var body := Decimal(n) + ",";
    DigitsNeutral(body);
    CountedToken(AtLeast(n), rest);
    UnboundedText(body, rest, stack);
  }

  lemma CloseToken(rest: string, stack: seq<Frame>, top: Frame)
    ensures Walk(")" + rest, stack + [top]) == First(Close(top, rest), Walk(rest, Mark(stack, top.alt, top.inner)))
    ensures CountUnbounded(")" + rest) == CountUnbounded(rest)
  {
    var t := ")" + rest;
    assert t[1..] == rest;
    assert (stack + [top])[..|stack|] == stack;
  }

  lemma {:induction false} PairAt(name: string, mark: char, rest: string)
    requires mark !in name
    ensures IndexOfPair(name + [mark, ']'] + rest, mark, ']') == |name|
  {
    if name != "" {
      assert (name + [mark, ']'] + rest)[1..] == name[1..] + [mark, ']'] + rest;
      PairAt(name[1..], mark, rest);
    }
  }

  lemma MemberSkipped(m: Member, rest: string)
    requires WellFormedMembers(More(m, NoMore)) && rest != ""
    requires m == Plain('[') ==> !PosixMark(rest[0])
    ensures AfterMember(PrintMember(m) + rest) == rest && (PrintMember(m) + rest)[0] != ']'
  {
    var t := PrintMember(m) + rest;
    if m.Posix? {
      assert t[2..] == m.name + [m.mark, ']'] + rest;
      PairAt(m.name, m.mark, rest);
    }
  }

  lemma {:induction false} MembersSkipped(ms: Members, rest: string)
    requires WellFormedMembers(ms)
    ensures ClassTail(PrintMembers(ms) + "]" + rest) == rest
  {
    match ms
    case NoMore => assert ("" + "]" + rest)[1..] == rest;
    case More(m, more) =>
      MembersSkipped(more, rest);
      var tail := PrintMembers(more) + "]" + rest;
      assert tail[0] == if more.More? then PrintMember(more.first)[0] else ']';
      assert PrintMembers(ms) + "]" + rest == PrintMember(m) + tail;
      MemberSkipped(m, tail);
  }

  lemma ClassSkipped(a: Atom, rest: string)
    requires a.Class? && WellFormedAtom(a)
    ensures AfterClass(PrintAtom(a) + rest) == rest
  {
    var t := PrintAtom(a) + rest;
    var tail := PrintMembers(a.members) + "]" + rest;
    assert a.members.More? ==> tail[0] == PrintMember(a.members.first)[0];
    assert t == "[" + (if a.negated then "^" else "") + (if a.bracketFirst then "]" else "") + tail;
    assert t[ClassOpening(t)..] == tail;
    MembersSkipped(a.members, rest);
  }

  lemma LeafAtom(a: Atom, rest: string, stack: seq<Frame>)
    requires !a.Group? && WellFormedAtom(a)
    ensures Walk(PrintAtom(a) + rest, stack) == Walk(rest, stack)
    ensures CountUnbounded(PrintAtom(a) + rest) == CountUnbounded(rest)
  {
    var t := PrintAtom(a) + rest;
    match a
    case Literal(c) => NeutralText([c], rest, stack);
    case Escaped(c) => assert t[2..] == rest;
    case Class(_, _, _) => ClassSkipped(a, rest);
  }

  // ---------------------------------------------------------------------
  // Scanner and tree agree
  // ---------------------------------------------------------------------

  lemma PieceText(p: Piece, rest: string)
    ensures PrintPiece(p) + rest == PrintAtom(p.atom) + (PrintQuantifier(p.quantifier) + ((if p.lazy then "?" else "") + rest))
    ensures WellFormedAtom(p.atom) ==> PrintAtom(p.atom) != "" && NoQuantifier(PrintPiece(p) + rest)
  {
  }

  lemma GroupText(prefix: string, body: Regex, after: string)
    ensures PrintAtom(Group(prefix, body)) + after == "(" + (prefix + (Print(body) + (")" + after)))
  {
  }

  lemma OrText(s: Sequence, others: Regex, rest: string)
    ensures Print(Or(s, others)) + rest == PrintSequence(s) + ("|" + (Print(others) + rest))
  {
  }

  lemma ThenText(p: Piece, more: Sequence, rest: string)
    ensures PrintSequence(Then(p, more)) + rest == PrintPiece(p) + (PrintSequence(more) + rest)
    ensures WellFormedSequence(more) && NoQuantifier(rest) ==> NoQuantifier(PrintSequence(more) + rest)
  {
    if more.Then? && WellFormedSequence(more) {
      PieceText(more.piece, "");
    } else if more.Empty? {
      assert "" + rest == rest;
    }
  }

  lemma {:induction false} CountPiece(p: Piece, rest: string)
    requires WellFormedAtom(p.atom)
    ensures CountUnbounded(PrintPiece(p) + rest)
         == CountAtom(p.atom) + (if IsUnbounded(p.quantifier) then 1 else 0) + CountUnbounded(rest)
    decreases p
  {
    var lazy := if p.lazy then "?" else "";
    var after := PrintQuantifier(p.quantifier) + (lazy + rest);
    PieceText(p, rest);
    NeutralText(lazy, rest, []);
    QuantifierText(p.quantifier, lazy + rest, []);
    if p.atom.Group? {
      CountGroup(p.atom.prefix, p.atom.body, after);
    } else {
      LeafAtom(p.atom, after, []);
    }
  }

  lemma {:induction false} CountGroup(prefix: string, body: Regex, after: string)
    requires AllNeutral(prefix) && WellFormed(body)
    ensures CountUnbounded(PrintAtom(Group(prefix, body)) + after) == Count(body) + CountUnbounded(after)
    decreases body, 1
  {
    var closing := ")" + after;
    GroupText(prefix, body, after);
    OneToken('(', prefix + (Print(body) + closing), []);
    NeutralText(prefix, Print(body) + closing, []);
    CountRegex(body, closing);
    CloseToken(after, [], Frame(false, false));
  }

  lemma {:induction false} CountSequenceText(s: Sequence, rest: string)
    requires WellFormedSequence(s)
    ensures CountUnbounded(PrintSequence(s) + rest) == CountSequence(s) + CountUnbounded(rest)
    decreases s
  {
    match s
    case Empty => assert "" + rest == rest;
    case Then(p, more) =>
      ThenText(p, more, rest);
      CountPiece(p, PrintSequence(more) + rest);
      CountSequenceText(more, rest);
  }

  lemma {:induction false} CountRegex(r: Regex, rest: string)
    requires WellFormed(r)
    ensures CountUnbounded(Print(r) + rest) == Count(r) + CountUnbounded(rest)
    decreases r, 0
  {
    match r
    case Only(s) => CountSequenceText(s, rest);
    case Or(s, others) =>
      OrText(s, others, rest);
      CountSequenceText(s, "|" + (Print(others) + rest));
      OneToken('|', Print(others) + rest, []);
      CountRegex(others, rest);
  }

  /** What follows an atom marks the group around it. */
  lemma AfterAtom(p: Piece, rest: string, stack: seq<Frame>)
    ensures var lazy := if p.lazy then "?" else "";
            Walk(PrintQuantifier(p.quantifier) + (lazy + rest), Mark(stack, HasChoiceAtom(p.atom), HasUnboundedAtom(p.atom))) ==
            Walk(rest, Mark(stack, HasChoiceAtom(p.atom), HasUnboundedAtom(p.atom) || IsUnbounded(p.quantifier)))
  {
    var lazy := if p.lazy then "?" else "";
    var inside := Mark(stack, HasChoiceAtom(p.atom), HasUnboundedAtom(p.atom));
    QuantifierText(p.quantifier, lazy + rest, inside);
    NeutralText(lazy, rest, Mark(inside, false, IsUnbounded(p.quantifier)));
    MarkTwice(stack, HasChoiceAtom(p.atom), HasUnboundedAtom(p.atom), false, IsUnbounded(p.quantifier));
  }

  /** The text behind a group judges it as its quantifier does. */
  lemma CloseJudges(p: Piece, rest: string)
    requires p.atom.Group? && NoQuantifier(rest)
    ensures var lazy := if p.lazy then "?" else "";
            Close(Frame(HasChoice(p.atom.body), HasUnbounded(p.atom.body)), PrintQuantifier(p.quantifier) + (lazy + rest)) ==
            QuantifiedGroup(p.atom.body, p.quantifier)
  {
    QuantifierToken(p.quantifier, (if p.lazy then "?" else "") + rest);
  }

  lemma {:induction false} WalkPiece(p: Piece, rest: string, stack: seq<Frame>)
    requires WellFormedAtom(p.atom) && NoQuantifier(rest)
    ensures Walk(PrintPiece(p) + rest, stack) ==
            First(VerdictPiece(p), Walk(rest, Mark(stack, HasChoiceAtom(p.atom),
                                                   HasUnboundedAtom(p.atom) || IsUnbounded(p.quantifier))))
    decreases p
  {
    var lazy := if p.lazy then "?" else "";
    var after := PrintQuantifier(p.quantifier) + (lazy + rest);
    PieceText(p, rest);
    AfterAtom(p, rest, stack);
    if p.atom.Group? {
      WalkGroup(p.atom.prefix, p.atom.body, after, stack);
      CloseJudges(p, rest);
    } else {
      LeafAtom(p.atom, after, stack);
      MarkNothing(stack);
    }
  }

  lemma {:induction false} WalkGroup(prefix: string, body: Regex, after: string, stack: seq<Frame>)
    requires AllNeutral(prefix) && WellFormed(body)
    ensures Walk(PrintAtom(Group(prefix, body)) + after, stack) ==
            First(Verdict(body),
                  First(Close(Frame(HasChoice(body), HasUnbounded(body)), after),
                        Walk(after, Mark(stack, HasChoice(body), HasUnbounded(body)))))
    decreases body, 1
  {
    var pushed := stack + [Frame(false, false)];
    var closing := ")" + after;
    GroupText(prefix, body, after);
    OneToken('(', prefix + (Print(body) + closing), stack);
    NeutralText(prefix, Print(body) + closing, pushed);
    WalkRegex(body, closing, pushed);
    var top := Frame(HasChoice(body), HasUnbounded(body));
    assert Mark(pushed, top.alt, top.inner) == stack + [top];
    CloseToken(after, stack, top);
  }

  lemma {:induction false} WalkSequence(s: Sequence, rest: string, stack: seq<Frame>)
    requires WellFormedSequence(s) && NoQuantifier(rest)
    ensures Walk(PrintSequence(s) + rest, stack) ==
            First(VerdictSequence(s), Walk(rest, Mark(stack, HasChoiceSequence(s), HasUnboundedSequence(s))))
    decreases s
  {
    match s
    case Empty =>
      assert "" + rest == rest;
      MarkNothing(stack);
    case Then(p, more) =>
      ThenText(p, more, rest);
      WalkPiece(p, PrintSequence(more) + rest, stack);
      var marked := Mark(stack, HasChoiceAtom(p.atom), HasUnboundedAtom(p.atom) || IsUnbounded(p.quantifier));
      WalkSequence(more, rest, marked);
      MarkTwice(stack, HasChoiceAtom(p.atom), HasUnboundedAtom(p.atom) || IsUnbounded(p.quantifier),
                HasChoiceSequence(more), HasUnboundedSequence(more));
  }

  lemma {:induction false} WalkRegex(r: Regex, rest: string, stack: seq<Frame>)
    requires WellFormed(r) && NoQuantifier(rest)
    ensures Walk(Print(r) + rest, stack) == First(Verdict(r), Walk(rest, Mark(stack, HasChoice(r), HasUnbounded(r))))
    decreases r, 0
  {
    match r
    case Only(s) => WalkSequence(s, rest, stack);
    case Or(s, others) =>
      OrText(s, others, rest);
      WalkSequence(s, "|" + (Print(others) + rest), stack);
      var left := Mark(stack, HasChoiceSequence(s), HasUnboundedSequence(s));
      OneToken('|', Print(others) + rest, left);
      WalkRegex(others, rest, Mark(left, true, false));
      OrMarks(stack, HasChoiceSequence(s), HasUnboundedSequence(s), HasChoice(others), HasUnbounded(others));
  }

  /** For every tree, the scanner's reason for its text is the tree's own. */
  lemma ScannerMeetsTree(r: Regex)
    requires WellFormed(r)
    ensures Judge(Print(r)) == if Count(r) > 5 then TooMany else Verdict(r)
  {
    CountRegex(r, "");
    WalkRegex(r, "", []);
    assert Print(r) + "" == Print(r);
  }

  // ---------------------------------------------------------------------
  // The documented rules
  // ---------------------------------------------------------------------

  /** The upper bound of a bounded repeat is at least two. */
  predicate RepeatsByRule(q: Quantifier) {
    (q.Exactly? && q.n >= 2) || (q.Between? && q.m >= 2)
  }

  /** The rules for one quantified group, as the package documents them. */
  predicate BadGroup(body: Regex, q: Quantifier) {
    || (IsUnbounded(q) && (HasUnbounded(body) || HasChoice(body)))
    || (RepeatsByRule(q) && HasUnbounded(body))
  }

  predicate BadPiece(p: Piece) {
    p.atom.Group? && (BadGroup(p.atom.body, p.quantifier) || BadSomewhere(p.atom.body))
  }

  predicate BadSequence(s: Sequence) { s.Then? && (BadPiece(s.piece) || BadSequence(s.rest)) }

  predicate BadSomewhere(r: Regex) { BadSequence(r.branch) || (r.Or? && BadSomewhere(r.others)) }

  predicate Pathological(r: Regex) { Count(r) > 5 || BadSomewhere(r) }

  /** A repeat by two or more over a group with an unbounded quantifier, one of
      whose bounds does not fit the integer type that parses it. */
  predicate OversizedPiece(p: Piece) {
    p.atom.Group? &&
    ((RepeatsByRule(p.quantifier) && !IsRepeat(p.quantifier) && HasUnbounded(p.atom.body)) || Oversized(p.atom.body))
  }

  predicate OversizedSequence(s: Sequence) { s.Then? && (OversizedPiece(s.piece) || OversizedSequence(s.rest)) }

  predicate Oversized(r: Regex) { OversizedSequence(r.branch) || (r.Or? && Oversized(r.others)) }

  lemma {:induction false} VerdictPieceByRule(p: Piece)
    ensures BadPiece(p) <==> VerdictPiece(p) != Fine || OversizedPiece(p)
    decreases p
  {
    if p.atom.Group? {
      VerdictByRule(p.atom.body);
    }
  }

  lemma {:induction false} VerdictSequenceByRule(s: Sequence)
    ensures BadSequence(s) <==> VerdictSequence(s) != Fine || OversizedSequence(s)
    decreases s
  {
    if s.Then? {
      VerdictPieceByRule(s.piece);
      VerdictSequenceByRule(s.rest);
    }
  }

  lemma {:induction false} VerdictByRule(r: Regex)
    ensures BadSomewhere(r) <==> Verdict(r) != Fine || Oversized(r)
    decreases r
  {
    VerdictSequenceByRule(r.branch);
    if r.Or? {
      VerdictByRule(r.others);
    }
  }

  /** A tree breaks the documented rules exactly when its text is rejected or it
      holds an oversized repeat: that is the one family the scanner misses. */
  lemma RejectedExactlyByRule(r: Regex)
    requires WellFormed(r)
    ensures Pathological(r) <==> Judge(Print(r)) != Fine || Oversized(r)
    ensures !Oversized(r) ==> (Pathological(r) <==> Judge(Print(r)) != Fine)
  {
    ScannerMeetsTree(r);
    VerdictByRule(r);
  }

  /** `(a+){9223372036854775808}` breaks the rules and is not rejected. */
  lemma OversizedRepeatSlips() returns (r: Regex)
    ensures WellFormed(r) && Pathological(r) && Judge(Print(r)) == Fine
  {
    var inner := Only(Then(Piece(Literal('a'), Plus, false), Empty));
    r := Only(Then(Piece(Group("", inner), Exactly(MAX_INT + 1), false), Empty));
    ScannerMeetsTree(r);
    assert HasUnbounded(inner) && BadPiece(r.branch.piece);
    assert VerdictSequence(Empty) == Fine && VerdictSequence(inner.branch) == VerdictPiece(inner.branch.piece) == Fine;
    assert Verdict(inner) == Fine && QuantifiedGroup(inner, Exactly(MAX_INT + 1)) == Fine;
    assert VerdictSequence(r.branch) == VerdictPiece(r.branch.piece) == Fine;
    assert CountSequence(Empty) == 0 && CountSequence(inner.branch) == 1 && Count(inner) == 1;
    assert CountSequence(r.branch) == 1;
  }
}
