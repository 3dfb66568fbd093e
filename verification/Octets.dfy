/** Bytes and the numbers that byte strings stand for. */
module Octets {
  type Byte = x: int | 0 <= x < 256

  /** The number a big-endian byte string stands for. */
  function BytesValue(s: seq<Byte>): nat {
    if s == [] then 0 else 256 * BytesValue(s[..|s|-1]) + s[|s|-1]
  }

  /** v * 256^k, by additions only. */
  function Raise(v: nat, k: nat): nat {
    if k == 0 then v else 256 * Raise(v, k - 1)
  }

  lemma {:induction false} BytesBounded(s: seq<Byte>)
    ensures BytesValue(s) < Raise(1, |s|)
  {
    if s != [] {
      BytesBounded(s[..|s|-1]);
    }
  }

  lemma {:induction false} BytesInjective(a: seq<Byte>, b: seq<Byte>)
    requires |a| == |b| && BytesValue(a) == BytesValue(b)
    ensures a == b
  {
    if a != [] {
      BytesInjective(a[..|a|-1], b[..|b|-1]);
      assert a == a[..|a|-1] + [a[|a|-1]];
      assert b == b[..|b|-1] + [b[|b|-1]];
    }
  }

  /** The low width bytes of n, most significant first. */
  function BigEndian(n: nat, width: nat): (s: seq<Byte>)
    ensures |s| == width
  {
    if width == 0 then [] else BigEndian(n / 256, width - 1) + [n % 256]
  }

  lemma {:induction false} BigEndianValue(n: nat, width: nat)
    requires n < Raise(1, width)
    ensures BytesValue(BigEndian(n, width)) == n
  {
    if width > 0 {
      BigEndianValue(n / 256, width - 1);
      assert BigEndian(n, width)[..width-1] == BigEndian(n / 256, width - 1);
    }
  }
}
