/**
 Time-sortable identifiers: a 128-bit number, 48 bits of milliseconds above 80 bits of
 entropy, written as 26 Crockford base-32 symbols.  What a minted identifier is, and which
 strings the two validators accept, is stated through the numeral of the number.
 */
module Ulid {
  import opened Octets
  import opened Options

  const ALPHABET := "0123456789ABCDEFGHJKMNPQRSTVWXYZ"

  const MAX_TIMESTAMP := 0xffff_ffff_ffff

  // 2^80 and 2^128.
  const ENTROPY_SPAN := 0x1_0000_0000_0000_0000_0000

  const SPAN := 0x1_0000_0000_0000_0000_0000_0000_0000_0000

  // ---------------------------------------------------------------------
  // Numbers and their spelling
  // ---------------------------------------------------------------------

  /** The last k base-32 digits of n, as symbols. */
  function Numeral(n: nat, k: nat): (s: string)
    ensures |s| == k
  {
    if k == 0 then "" else Numeral(n / 32, k - 1) + [ALPHABET[n % 32]]
  }

  function Spelling(n: nat): string { Numeral(n, 26) }

  ghost predicate IsUlid(id: string) {
    exists n: nat :: n < SPAN && id == Spelling(n)
  }

  /** Strings compare at the first place where they differ. */
  predicate DiffersAt(a: string, b: string, j: nat) {
    j < |a| && j < |b| && a[..j] == b[..j] && a[j] < b[j]
  }

  ghost predicate Before(a: string, b: string) {
    exists j: nat :: DiffersAt(a, b, j)
  }

  // ---------------------------------------------------------------------
  // Symbols
  // ---------------------------------------------------------------------

  predicate IsSymbol(c: char) {
    '0' <= c <= '9' || ('A' <= c <= 'Z' && c != 'I' && c != 'L' && c != 'O' && c != 'U')
  }

  function SymbolValue(c: char): (v: nat)
    requires IsSymbol(c)
    ensures v < 32 && ALPHABET[v] == c
    ensures c <= '7' ==> v < 8
  {
    if c <= '9' then (c - '0') as int
    else if c <= 'H' then (c - 'A') as int + 10
    else if c <= 'K' then (c - 'J') as int + 18
    else if c <= 'N' then (c - 'M') as int + 20
    else if c <= 'T' then (c - 'P') as int + 22
    else (c - 'V') as int + 27
  }

  /** A symbol by arithmetic instead of by table. */
  lemma SymbolAt(v: nat)
    requires v < 32
    ensures ALPHABET[v] as int ==
            if v < 10 then v + 48 else if v < 18 then v + 55 else if v < 20 then v + 56
            else if v < 22 then v + 57 else if v < 27 then v + 58 else v + 59
    ensures IsSymbol(ALPHABET[v])
  {
  }

  // ---------------------------------------------------------------------
  // Numerals: order, and exactly which strings they are
  // ---------------------------------------------------------------------

  /** 8 * 32^(k-1): the numbers whose k-digit numeral starts below 8. */
  function Bound(k: nat): nat
    requires k > 0
  {
    if k == 1 then 8 else 32 * Bound(k - 1)
  }

  lemma BoundIsSpan()
    ensures Bound(26) == SPAN
  {
    assert Bound(6) == 0x1000_0000;
    assert Bound(11) == 0x20_0000_0000_0000;
    assert Bound(16) == 0x4000_0000_0000_0000_0000;
    assert Bound(21) == 0x80_0000_0000_0000_0000_0000_0000;
  }

  lemma SymbolOrder(v: nat, w: nat)
    requires v < w < 32
    ensures ALPHABET[v] < ALPHABET[w]
  {
    SymbolAt(v);
    SymbolAt(w);
  }

  lemma DigitsOrder(m: nat, n: nat)
    requires m < n
    ensures m / 32 < n / 32 || (m / 32 == n / 32 && m % 32 < n % 32)
  {
  }

  lemma {:induction false} NumeralOrder(m: nat, n: nat, k: nat) returns (j: nat)
    requires k > 0 && m < n < Bound(k)
    ensures DiffersAt(Numeral(m, k), Numeral(n, k), j)
  {
    var a, b := Numeral(m / 32, k - 1), Numeral(n / 32, k - 1);
    DigitsOrder(m, n);
    if m / 32 < n / 32 {
      assert k > 1 && n / 32 < Bound(k - 1);
      j := NumeralOrder(m / 32, n / 32, k - 1);
      DiffersEarlier(a, b, j, ALPHABET[m % 32], ALPHABET[n % 32]);
    } else {
      j := k - 1;
      SymbolOrder(m % 32, n % 32);
      DiffersLast(a, ALPHABET[m % 32], ALPHABET[n % 32]);
    }
  }

  lemma DiffersEarlier(a: string, b: string, j: nat, x: char, y: char)
    requires DiffersAt(a, b, j)
    ensures DiffersAt(a + [x], b + [y], j)
  {
    assert (a + [x])[..j] == a[..j] && (b + [y])[..j] == b[..j];
  }

  lemma DiffersLast(a: string, x: char, y: char)
    requires x < y
    ensures DiffersAt(a + [x], a + [y], |a|)
  {
    assert (a + [x])[..|a|] == a && (a + [y])[..|a|] == a;
  }

  lemma Asymmetric(a: string, b: string, i: nat, j: nat)
    requires DiffersAt(a, b, i)
    ensures !DiffersAt(b, a, j)
  {
    assert i < j <= |a| ==> a[..j][i] == a[i];
    assert i < j <= |b| ==> b[..j][i] == b[i];
    assert j < i ==> a[j] == a[..i][j] == b[..i][j] == b[j];
  }

  /** Strings sort as their numbers do; in particular different numbers are spelt apart. */
  lemma SpellingOrder(m: nat, n: nat)
    requires m < SPAN && n < SPAN
    ensures Before(Spelling(m), Spelling(n)) <==> m < n
    ensures Spelling(m) == Spelling(n) <==> m == n
  {
    BoundIsSpan();
    if m < n {
      var j := NumeralOrder(m, n, 26);
    } else if n < m {
      var i := NumeralOrder(n, m, 26);
      forall j: nat ensures !DiffersAt(Spelling(m), Spelling(n), j) {
        Asymmetric(Spelling(n), Spelling(m), i, j);
      }
    }
  }

  predicate Symbols(s: string) {
    |s| > 0 && '0' <= s[0] <= '7' && forall i :: 0 <= i < |s| ==> IsSymbol(s[i])
  }

  lemma {:induction false} NumeralSymbols(n: nat, k: nat)
    requires k > 0 && n < Bound(k)
    ensures Symbols(Numeral(n, k))
  {
    SymbolAt(n % 32);
    if k > 1 {
      NumeralSymbols(n / 32, k - 1);
    }
  }

  lemma AnotherDigit(n: nat, v: nat, k: nat)
    requires k > 0 && n < Bound(k) && v < 32
    ensures 32 * n + v < Bound(k + 1) && Numeral(32 * n + v, k + 1) == Numeral(n, k) + [ALPHABET[v]]
  {
    assert (32 * n + v) / 32 == n && (32 * n + v) % 32 == v;
  }

  lemma OneDigit(c: char)
    requires '0' <= c <= '7'
    ensures SymbolValue(c) < Bound(1) && Numeral(SymbolValue(c), 1) == [c]
  {
  }

  lemma {:induction false} SymbolsNumeral(s: string) returns (n: nat)
    requires Symbols(s)
    ensures n < Bound(|s|) && Numeral(n, |s|) == s
  {
    if |s| == 1 {
      n := SymbolValue(s[0]);
      OneDigit(s[0]);
    } else {
      var front, c := s[..|s|-1], s[|s|-1];
      assert s == front + [c];
      var init := SymbolsNumeral(front);
      n := AnotherSymbol(front, init, c);
    }
  }

  lemma AnotherSymbol(front: string, init: nat, c: char) returns (n: nat)
    requires front != "" && init < Bound(|front|) && Numeral(init, |front|) == front && IsSymbol(c)
    ensures n < Bound(|front| + 1) && Numeral(n, |front| + 1) == front + [c]
  {
    n := 32 * init + SymbolValue(c);
    AnotherDigit(init, SymbolValue(c), |front|);
  }

  /** The identifiers are exactly the 26-symbol strings that start with 0 to 7. */
  lemma UlidExactly(id: string)
    ensures IsUlid(id) <==> |id| == 26 && Symbols(id)
  {
    BoundIsSpan();
    if IsUlid(id) {
      var n: nat :| n < SPAN && id == Spelling(n);
      NumeralSymbols(n, 26);
    }
    if |id| == 26 && Symbols(id) {
      var n := SymbolsNumeral(id);
      assert id == Spelling(n);
    }
  }

  // ---------------------------------------------------------------------
  // Validators
  // ---------------------------------------------------------------------

  method IsCanonicalULID(id: string) returns (ok: bool)
    ensures ok <==> IsUlid(id)
  {
    UlidExactly(id);
    if |id| != 26 || id[0] < '0' || id[0] > '7' {
      return false;
    }
    for i := 1 to |id|
      invariant forall k :: 0 <= k < i ==> IsSymbol(id[k])
    {
      var c := id[i];
      if '0' <= c && c <= '9' {
      } else if 'A' <= c && c <= 'Z' && c != 'I' && c != 'L' && c != 'O' && c != 'U' {
      } else {
        return false;
      }
    }
    return true;
  }

  function Fold(c: char): char {
    if 'a' <= c <= 'z' then c - 'a' + 'A' else c
  }

  function Upper(s: string): (u: string)
    ensures |u| == |s| && forall i :: 0 <= i < |s| ==> u[i] == Fold(s[i])
  {
    seq(|s|, i requires 0 <= i < |s| => Fold(s[i]))
  }

  lemma InAlphabet(c: char)
    ensures c in ALPHABET <==> IsSymbol(c)
  {
    if IsSymbol(c) {
      assert ALPHABET[SymbolValue(c)] == c;
    }
  }

  method IsCrockford(c: char) returns (known: bool)
    ensures known <==> IsSymbol(c)
  {
    InAlphabet(c);
    known := c in ALPHABET;
  }

  /** Accepts a string exactly if its upper-case form is an identifier. */
  method ULIDPathID(id: string) returns (ok: bool)
    ensures ok <==> IsUlid(Upper(id))
  {
    UlidExactly(Upper(id));
    if |id| != 26 {
      return false;
    }
    for i := 0 to |id|
      invariant forall k :: 0 <= k < i ==> IsSymbol(Upper(id)[k])
    {
      var c := id[i];
      if 'a' <= c && c <= 'z' {
        c := c - 'a' + 'A';
      }
      assert c == Upper(id)[i];
      var known := IsCrockford(c);
      if !known {
        return false;
      }
    }
    if id[0] < '0' || id[0] > '7' {
      return false;
    }
    return true;
  }

  // ---------------------------------------------------------------------
  // Encoding bit by bit
  // ---------------------------------------------------------------------

  /** x >> k for a byte. */
  function Shr(x: nat, k: nat): nat {
    if k == 0 then x else Shr(x, k - 1) / 2
  }

  /** p << k without a width. */
  function Shl(p: nat, k: nat): nat {
    if k == 0 then p else 2 * Shl(p, k - 1)
  }

  function Bit(raw: seq<Byte>, b: nat): nat
    requires b < 8 * |raw|
  {
    Shr(raw[b / 8], 7 - b % 8) % 2
  }

  /** The number formed by the first b bits. */
  function BitsValue(raw: seq<Byte>, b: nat): nat
    requires b <= 8 * |raw|
  {
    if b == 0 then 0 else 2 * BitsValue(raw, b - 1) + Bit(raw, b - 1)
  }

  /** The first j bits of the string that has two zero bits in front of raw. */
  function PaddedValue(raw: seq<Byte>, j: nat): nat
    requires j <= 8 * |raw| + 2
  {
    if j < 2 then 0 else BitsValue(raw, j - 2)
  }

  lemma BitOfByte(raw: seq<Byte>, i: nat, j: nat)
    requires i < |raw| && j < 8
    ensures Bit(raw, 8 * i + j) == Shr(raw[i], 7 - j) % 2
  {
    assert (8 * i + j) / 8 == i && (8 * i + j) % 8 == j;
  }

  lemma ByteShiftedOut(x: Byte)
    ensures Shr(x, 8) == 0
  {
    assert Shr(x, 1) == x / 2;
    assert Shr(x, 2) == x / 4;
    assert Shr(x, 4) == Shr(x, 2) / 4;
    assert Shr(x, 6) == Shr(x, 4) / 4;
    assert Shr(x, 8) == Shr(x, 6) / 4;
  }

  lemma WholeShifts(p: nat)
    ensures Shl(p, 5) == 32 * p && Shl(p, 8) == 256 * p
  {
    assert Shl(p, 1) == 2 * p;
    assert Shl(p, 2) == 4 * p;
    assert Shl(p, 4) == 4 * Shl(p, 2);
    assert Shl(p, 6) == 4 * Shl(p, 4);
  }

  lemma {:induction false} BitsOfByte(raw: seq<Byte>, i: nat, j: nat)
    requires i < |raw| && j <= 8
    ensures BitsValue(raw, 8 * i + j) == Shl(BitsValue(raw, 8 * i), j) + Shr(raw[i], 8 - j)
  {
    if j == 0 {
      ByteShiftedOut(raw[i]);
    } else {
      BitsOfByte(raw, i, j - 1);
      BitOfByte(raw, i, j - 1);
    }
  }

  lemma {:induction false} BitsAreBytes(raw: seq<Byte>, i: nat)
    requires i <= |raw|
    ensures BitsValue(raw, 8 * i) == BytesValue(raw[..i])
  {
    if i > 0 {
      BitsAreBytes(raw, i - 1);
      BitsOfByte(raw, i - 1, 8);
      assert raw[..i][..i-1] == raw[..i-1];
      WholeShifts(BitsValue(raw, 8 * (i - 1)));
    }
  }

  lemma Narrow(k: nat)
    requires k < 5
    ensures Shl(1, k) <= 16
  {
    assert Shl(1, 2) == 4;
    assert Shl(1, 4) == 16;
  }

  lemma PaddedStep(raw: seq<Byte>, j: nat)
    requires j < 8 * |raw| + 2
    ensures PaddedValue(raw, j + 1) == 2 * PaddedValue(raw, j) + BitOrZero(raw, j - 2)
  {
  }

  lemma NextDigit(p: nat, value: nat, k: nat)
    requires value < 32
    ensures Numeral(Shl(p, 5) + value, k + 1) == Numeral(p, k) + [ALPHABET[value]]
  {
    WholeShifts(p);
    assert (32 * p + value) / 32 == p && (32 * p + value) % 32 == value;
  }

  /** The inner loop: five bits of the padded string. */
  method FiveBits(raw: seq<Byte>, output: nat) returns (value: nat)
    requires |raw| == 16 && output < 26
    ensures value < 32
    ensures PaddedValue(raw, 5 * output + 5) == Shl(PaddedValue(raw, 5 * output), 5) + value
  {
    value := 0;
    WholeShifts(1);
    ghost var before := PaddedValue(raw, 5 * output);
    for offset := 0 to 5
      invariant value < Shl(1, offset)
      invariant PaddedValue(raw, 5 * output + offset) == Shl(before, offset) + value
    {
      NextBit(raw, before, value, 5 * output, offset);
      value := PushBit(raw, output * 5 + offset - 2, value);
    }
  }

  /** Zero in front of the string. */
  function BitOrZero(raw: seq<Byte>, bit: int): (b: nat)
    requires bit < 8 * |raw|
    ensures b < 2
  {
    if bit < 0 then 0 else Bit(raw, bit)
  }

  method PushBit(raw: seq<Byte>, bit: int, before: nat) returns (value: nat)
    requires bit < |raw| * 8 && before < 128
    ensures value == 2 * before + BitOrZero(raw, bit)
  {
    value := before * 2 % 256;
    if bit >= 0 && bit < |raw| * 8 {
      value := value + Shr(raw[bit / 8], 7 - bit % 8) % 2;
    }
  }

  lemma NextBit(raw: seq<Byte>, before: nat, value: nat, j: nat, offset: nat)
    requires offset < 5 && j + offset < 8 * |raw| + 2 && value < Shl(1, offset)
    requires PaddedValue(raw, j + offset) == Shl(before, offset) + value
    ensures var k := j + offset;
            var next := 2 * value + BitOrZero(raw, k - 2);
            value < 128 && next < Shl(1, offset + 1) && PaddedValue(raw, k + 1) == Shl(before, offset + 1) + next
  {
    PaddedStep(raw, j + offset);
    Narrow(offset);
  }

  lemma WholeValue(raw: seq<Byte>)
    requires |raw| == 16
    ensures PaddedValue(raw, 130) == BytesValue(raw)
  {
    BitsAreBytes(raw, 16);
    assert raw[..16] == raw;
  }

  /** Picking bits five at a time, the first two of them zero, spells the 128-bit number. */
  method Encode(raw: seq<Byte>) returns (id: string)
    requires |raw| == 16
    ensures id == Spelling(BytesValue(raw))
  {
    var encoded := new char[26];
    for output := 0 to 26
      invariant encoded[..output] == Numeral(PaddedValue(raw, 5 * output), output)
    {
      var value := FiveBits(raw, output);
      NextDigit(PaddedValue(raw, 5 * output), value, output);
      encoded[output] := ALPHABET[value];
      assert encoded[..output + 1] == encoded[..output] + [ALPHABET[value]];
    }
    assert encoded[..] == encoded[..26];
    WholeValue(raw);
    return encoded[..];
  }

  // ---------------------------------------------------------------------
  // Minting
  // ---------------------------------------------------------------------

  /** What a minted identifier is: absent without an entropy source, for a time outside 48
      bits, or when the source runs dry; otherwise the spelling of time and entropy. */
  function Minted(timestamp: int, entropy: Option<seq<Byte>>): Option<string> {
    if entropy.None? || timestamp < 0 || timestamp > MAX_TIMESTAMP || |entropy.value| < 10 then None
    else Some(Spelling(timestamp * ENTROPY_SPAN + BytesValue(entropy.value[..10])))
  }

  lemma RaiseWhole(v: nat)
    ensures Raise(v, 6) == v * (MAX_TIMESTAMP + 1)
    ensures Raise(v, 10) == v * ENTROPY_SPAN
    ensures Raise(v, 16) == v * SPAN
  {
    assert Raise(v, 1) == 0x100 * v;
    assert Raise(v, 2) == 0x1_0000 * v;
    assert Raise(v, 4) == 0x1_0000_0000 * v;
    assert Raise(v, 6) == 0x1_0000_0000_0000 * v;
    assert Raise(v, 8) == 0x1_0000_0000_0000_0000 * v;
    assert Raise(v, 10) == ENTROPY_SPAN * v;
    assert Raise(v, 12) == 0x1_0000_0000_0000_0000_0000_0000 * v;
    assert Raise(v, 14) == 0x1_0000_0000_0000_0000_0000_0000_0000 * v;
  }

  lemma {:induction false} RaiseSplit(high: nat, low: nat, k: nat)
    ensures Raise(256 * high + low, k) == Raise(high, k + 1) + Raise(low, k)
  {
    if k > 0 {
      RaiseSplit(high, low, k - 1);
    }
  }

  lemma {:induction false} BytesJoin(a: seq<Byte>, b: seq<Byte>)
    ensures BytesValue(a + b) == Raise(BytesValue(a), |b|) + BytesValue(b)
  {
    if b == [] {
      assert a + b == a;
    } else {
      BytesJoin(a, b[..|b|-1]);
      assert (a + b)[..|a + b|-1] == a + b[..|b|-1];
    }
  }

  lemma StampedValue(raw: seq<Byte>, stamped: seq<Byte>, entropy: seq<Byte>, timestamp: nat)
    requires raw == stamped + entropy && |entropy| == 10 && BytesValue(stamped) == timestamp
    ensures BytesValue(raw) == timestamp * ENTROPY_SPAN + BytesValue(entropy)
  {
    BytesJoin(stamped, entropy);
    RaiseWhole(timestamp);
  }

  method NewWithReader(timestamp: int, entropy: Option<seq<Byte>>) returns (id: Option<string>)
    ensures id == Minted(timestamp, entropy)
  {
    if entropy.None? {
      return None;
    }
    if timestamp < 0 || timestamp > MAX_TIMESTAMP {
      return None;
    }
    var raw := new Byte[16];
    StampTime(raw, timestamp);
    ghost var stamped := raw[..6];
    if |entropy.value| < 10 {
      return None;
    }
    forall i | 0 <= i < 10 {
      raw[6 + i] := entropy.value[i];
    }
    assert raw[..6] == stamped && raw[6..] == entropy.value[..10];
    assert raw[..] == raw[..6] + raw[6..];
    StampedValue(raw[..], raw[..6], entropy.value[..10], timestamp);
    var spelt := Encode(raw[..]);
    return Some(spelt);
  }

  lemma LowByte(high: nat, low: Byte, rest: seq<Byte>)
    ensures Raise(256 * high + low, |rest|) + BytesValue(rest)
         == Raise(high, |rest| + 1) + BytesValue([low] + rest)
  {
    BytesJoin([low], rest);
    assert BytesValue([low]) == low;
    RaiseSplit(high, low, |rest|);
  }

  /** The low bytes of the time, last one first, into the first six places. */
  method StampTime(raw: array<Byte>, timestamp: nat)
    requires raw.Length == 16 && timestamp <= MAX_TIMESTAMP
    modifies raw
    ensures BytesValue(raw[..6]) == timestamp
  {
    RaiseWhole(1);
    var value: nat := timestamp;
    var index := 5;
    while index >= 0
      invariant -1 <= index <= 5
      invariant value < Raise(1, index + 1)
      invariant timestamp == Raise(value, 5 - index) + BytesValue(raw[index + 1..6])
    {
      ghost var rest := raw[index + 1..6];
      LowByte(value / 256, value % 256, rest);
      raw[index] := value % 256;
      assert raw[index..6] == [value % 256] + rest;
      value := value / 256;
      index := index - 1;
    }
    RaiseWhole(0);
    assert raw[..6] == raw[0..6];
  }

  // ---------------------------------------------------------------------
  // What the identifiers are for
  // ---------------------------------------------------------------------

  lemma MintedNumber(timestamp: int, entropy: Option<seq<Byte>>) returns (n: nat)
    requires Minted(timestamp, entropy).Some?
    ensures n == timestamp * ENTROPY_SPAN + BytesValue(entropy.value[..10])
    ensures BytesValue(entropy.value[..10]) < ENTROPY_SPAN && n < SPAN
    ensures Minted(timestamp, entropy) == Some(Spelling(n))
  {
    n := timestamp * ENTROPY_SPAN + BytesValue(entropy.value[..10]);
    BytesBounded(entropy.value[..10]);
    RaiseWhole(1);
  }

  /** The strict validator accepts what the case-insensitive one does and is upper case. */
  lemma CanonicalIsUpperPathId(id: string)
    ensures IsUlid(id) <==> IsUlid(Upper(id)) && Upper(id) == id
  {
    UlidExactly(id);
    assert Symbols(id) ==> Upper(id) == id;
  }

  /** Every minted identifier passes both validators. */
  lemma MintedIsUlid(timestamp: int, entropy: Option<seq<Byte>>)
    requires Minted(timestamp, entropy).Some?
    ensures IsUlid(Minted(timestamp, entropy).value)
    ensures Upper(Minted(timestamp, entropy).value) == Minted(timestamp, entropy).value
  {
    var n := MintedNumber(timestamp, entropy);
    CanonicalIsUpperPathId(Spelling(n));
  }

  /** An identifier of an earlier millisecond sorts first, whatever the entropy. */
  lemma SortsByTime(t: int, e: Option<seq<Byte>>, u: int, f: Option<seq<Byte>>)
    requires Minted(t, e).Some? && Minted(u, f).Some?
    requires t < u
    ensures Before(Minted(t, e).value, Minted(u, f).value)
  {
    var m := MintedNumber(t, e);
    var n := MintedNumber(u, f);
    SpellingOrder(m, n);
  }

  lemma SplitUnique(t: int, x: nat, u: int, y: nat)
    requires x < ENTROPY_SPAN && y < ENTROPY_SPAN
    ensures t * ENTROPY_SPAN + x == u * ENTROPY_SPAN + y <==> t == u && x == y
  {
  }

  /** Two identifiers are equal only if time and entropy are. */
  lemma MintedApart(t: int, e: Option<seq<Byte>>, u: int, f: Option<seq<Byte>>)
    requires Minted(t, e).Some? && Minted(u, f).Some?
    ensures Minted(t, e) == Minted(u, f) <==> t == u && e.value[..10] == f.value[..10]
  {
    var m := MintedNumber(t, e);
    var n := MintedNumber(u, f);
    SpellingOrder(m, n);
    SplitUnique(t, BytesValue(e.value[..10]), u, BytesValue(f.value[..10]));
    if m == n {
      BytesInjective(e.value[..10], f.value[..10]);
    }
  }
}
