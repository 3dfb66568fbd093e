/**
 Length-prefixed framing: parts written one after the other, each behind its length.
 Whatever the parts are, the bytes determine them, as long as no length header can be
 mistaken for another one.
 */
module Framing {
  import opened Octets

  /** A byte string whose length fits the source's signed 64-bit int. */
  type Slice = s: seq<Byte> | |s| < 0x8000_0000_0000_0000

  /** The length as eight bytes, most significant first. */
  function Fixed(n: nat): seq<Byte> { BigEndian(n, 8) }

  /** The length in groups of seven bits, low group first, the top bit set on all but the last. */
  function Uvarint(n: nat): (s: seq<Byte>)
    ensures s != []
  {
    if n < 128 then [n] else [n % 128 + 128] + Uvarint(n / 128)
  }

  function Frames(header: nat -> seq<Byte>, parts: seq<Slice>): seq<Byte> {
    if parts == [] then [] else header(|parts[0]|) + parts[0] + Frames(header, parts[1..])
  }

  /** Reading a header leaves no doubt which length it is. */
  ghost predicate SelfDelimiting(header: nat -> seq<Byte>) {
    && (forall n :: header(n) != [])
    && forall m, n, x, y ::
         m < 0x8000_0000_0000_0000 && n < 0x8000_0000_0000_0000 && header(m) + x == header(n) + y ==> m == n
  }

  lemma FixedSelfDelimiting()
    ensures SelfDelimiting(Fixed)
  {
    forall m: nat, n: nat, x, y |
      m < 0x8000_0000_0000_0000 && n < 0x8000_0000_0000_0000 && Fixed(m) + x == Fixed(n) + y
      ensures m == n
    {
      assert Fixed(m) == (Fixed(m) + x)[..8] == (Fixed(n) + y)[..8] == Fixed(n);
      U64Value(m);
      U64Value(n);
    }
  }

  lemma U64Value(n: nat)
    requires n < 0x1_0000_0000_0000_0000
    ensures BytesValue(BigEndian(n, 8)) == n
  {
    assert Raise(1, 2) == 0x1_0000;
    assert Raise(1, 4) == 0x1_0000_0000;
    assert Raise(1, 6) == 0x1_0000_0000_0000;
    assert Raise(1, 8) == 0x1_0000_0000_0000_0000;
    BigEndianValue(n, 8);
  }

  lemma UvarintTail(m: nat, x: seq<Byte>)
    requires m >= 128
    ensures (Uvarint(m) + x)[1..] == Uvarint(m / 128) + x
  {
    var low, high := [m % 128 + 128], Uvarint(m / 128);
    assert low + high + x == low + (high + x);
  }

  /** The first group tells whether more follow, and the low seven bits. */
  lemma SameGroup(m: nat, n: nat)
    requires Uvarint(m)[0] == Uvarint(n)[0]
    ensures (m < 128 <==> n < 128) && m % 128 == n % 128
  {
  }

  lemma Regrouped(m: nat, n: nat)
    requires m / 128 == n / 128 && m % 128 == n % 128
    ensures m == n
  {
  }

  lemma {:induction false} UvarintUnambiguous(m: nat, n: nat, x: seq<Byte>, y: seq<Byte>)
    requires Uvarint(m) + x == Uvarint(n) + y
    ensures m == n
  {
    assert Uvarint(m)[0] == (Uvarint(m) + x)[0] == (Uvarint(n) + y)[0] == Uvarint(n)[0];
    SameGroup(m, n);
    if m >= 128 {
      UvarintTail(m, x);
      UvarintTail(n, y);
      UvarintUnambiguous(m / 128, n / 128, x, y);
      Regrouped(m, n);
    }
  }

  lemma UvarintSelfDelimiting()
    ensures SelfDelimiting(Uvarint)
  {
    forall m: nat, n: nat, x, y | Uvarint(m) + x == Uvarint(n) + y
      ensures m == n
    {
      UvarintUnambiguous(m, n, x, y);
    }
  }

  lemma SameBehind(h: seq<Byte>, x: seq<Byte>, y: seq<Byte>)
    requires h + x == h + y
    ensures x == y
  {
    assert x == (h + x)[|h|..] == (h + y)[|h|..] == y;
  }

  lemma SamePieces(a: seq<Byte>, x: seq<Byte>, b: seq<Byte>, y: seq<Byte>)
    requires a + x == b + y && |a| == |b|
    ensures a == b && x == y
  {
    assert a == (a + x)[..|a|] == (b + y)[..|b|] == b;
    SameBehind(a, x, y);
  }

  /** Equal bytes were framed from equal lists of parts: same number, same bytes in each. */
  lemma {:induction false} FramesInjective(header: nat -> seq<Byte>, a: seq<Slice>, b: seq<Slice>)
    requires SelfDelimiting(header)
    requires Frames(header, a) == Frames(header, b)
    ensures a == b
  {
    if a != [] && b != [] {
      var x, y := a[0] + Frames(header, a[1..]), b[0] + Frames(header, b[1..]);
      assert header(|a[0]|) + x == Frames(header, a) == header(|b[0]|) + y;
      SameBehind(header(|a[0]|), x, y);
      SamePieces(a[0], Frames(header, a[1..]), b[0], Frames(header, b[1..]));
      FramesInjective(header, a[1..], b[1..]);
      assert a == [a[0]] + a[1..] && b == [b[0]] + b[1..];
    }
  }

  lemma {:induction false} FramesAppend(header: nat -> seq<Byte>, parts: seq<Slice>, last: Slice)
    ensures Frames(header, parts + [last]) == Frames(header, parts) + header(|last|) + last
  {
    if parts == [] {
      assert parts + [last] == [last];
      assert [last][1..] == [];
    } else {
      FramesAppend(header, parts[1..], last);
      assert (parts + [last])[1..] == parts[1..] + [last];
    }
  }

  // ---------------------------------------------------------------------
  // Salt and MAC preimages
  // ---------------------------------------------------------------------

  method FramePreimage(domain: Slice, parts: seq<Slice>) returns (buf: seq<Byte>)
    ensures buf == Frames(Uvarint, [domain] + parts)
  {
    buf := Uvarint(|domain|) + domain;
    assert ([domain] + parts)[..1] == [] + [domain];
    FramesAppend(Uvarint, [], domain);
    for i := 0 to |parts|
      invariant buf == Frames(Uvarint, ([domain] + parts)[..i + 1])
    {
      FramesAppend(Uvarint, ([domain] + parts)[..i + 1], parts[i]);
      assert ([domain] + parts)[..i + 2] == ([domain] + parts)[..i + 1] + [parts[i]];
      buf := buf + Uvarint(|parts[i]|) + parts[i];
    }
    assert ([domain] + parts)[..|parts| + 1] == [domain] + parts;
  }

  /** No two different inputs share a preimage. */
  lemma PreimageUnique(d: Slice, a: seq<Slice>, e: Slice, b: seq<Slice>)
    ensures Frames(Uvarint, [d] + a) == Frames(Uvarint, [e] + b) <==> d == e && a == b
  {
    UvarintSelfDelimiting();
    if Frames(Uvarint, [d] + a) == Frames(Uvarint, [e] + b) {
      FramesInjective(Uvarint, [d] + a, [e] + b);
      assert ([d] + a)[0] == d && ([d] + a)[1..] == a;
      assert ([e] + b)[0] == e && ([e] + b)[1..] == b;
    }
  }
}
