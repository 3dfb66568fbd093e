/**
 Signing inputs.  Commands, device results and trust-state claims are signed over framed
 bytes; those bytes determine the kind of the signed thing and every covered field.
 */
module Preimages {
  import opened Framing
  import opened Octets
  import opened Options
  import Ulid

  type Int64 = x: int | -0x8000_0000_0000_0000 <= x < 0x8000_0000_0000_0000

  type Int32 = x: int | -0x8000_0000 <= x < 0x8000_0000

  type Uint64 = x: int | 0 <= x < 0x1_0000_0000_0000_0000

  datatype Timestamp = Timestamp(seconds: Int64, nanos: Int32)

  datatype Signed =
    | Command(commandType: string, target: string, issuedAt: Option<Timestamp>,
              expiresAt: Option<Timestamp>, payload: Slice)
    | Outcome(resultType: string, device: string, issuedAt: Option<Timestamp>, payload: Slice)
    | TrustState(reporter: string, claimed: string, certificate: Slice, generation: Uint64,
                 revision: Uint64, roots: seq<Slice>, crlIssuer: Slice, crlSequence: Uint64)

  const COMMAND_TYPES := ["action", "osquery", "logquery", "inventory", "luks-revoke", "lps-pubkey", "terminal-grant", "sync-manifest"]

  const RESULT_TYPES := ["execution", "compliance", "inventory", "alert", "osquery", "logquery"]

  function CommandDomain(t: string): Option<string> {
    if t in COMMAND_TYPES then Some("power-manage:cmd:" + t + ":v1") else None
  }

  function ResultDomain(t: string): Option<string> {
    if IsResultType(t) && t in RESULT_TYPES then Some("power-manage:result:" + t + ":v1") else None
  }

  const TRUST_STATE_DOMAIN := "power-manage:trust-state:v1"

  /** Text that is one byte a character. */
  predicate Plain(s: string) {
    |s| <= 64 && forall i :: 0 <= i < |s| ==> s[i] < '\U{80}'
  }

  function TextBytes(s: string): (b: Slice)
    requires Plain(s)
    ensures |b| == |s| && forall i :: 0 <= i < |s| ==> b[i] == s[i] as int
  {
    seq(|s|, i requires 0 <= i < |s| => s[i] as int)
  }

  lemma TextBytesInjective(s: string, t: string)
    requires Plain(s) && Plain(t) && TextBytes(s) == TextBytes(t)
    ensures s == t
  {
    forall i | 0 <= i < |s| ensures s[i] == t[i] {
      assert TextBytes(s)[i] == TextBytes(t)[i];
    }
  }

  predicate IsResultType(s: string) {
    s != "" && forall i :: 0 <= i < |s| ==> 'a' <= s[i] <= 'z' || '0' <= s[i] <= '9' || s[i] == '-'
  }

  // ---------------------------------------------------------------------
  // Covered fields
  // ---------------------------------------------------------------------

  function U64Bytes(x: Uint64): (b: Slice)
    ensures |b| == 8
  {
    BigEndian(x, 8)
  }

  /** Two's complement seconds, then two's complement nanoseconds. */
  function TimeBytes(t: Timestamp): (b: Slice)
    ensures |b| == 12
  {
    BigEndian(if t.seconds < 0 then t.seconds + 0x1_0000_0000_0000_0000 else t.seconds, 8)
    + BigEndian(if t.nanos < 0 then t.nanos + 0x1_0000_0000 else t.nanos, 4)
  }

  predicate IsClass(s: string) { s == "agent" || s == "gateway" }

  /** What a trust-state claim must satisfy; before its signature is checked, a receipt that
      is out of place is still let through. */
  predicate ValidClaim(s: Signed, strict: bool)
    requires s.TrustState?
  {
    var needsReceipt := s.reporter == "gateway" && s.claimed == "agent";
    && IsClass(s.reporter) && IsClass(s.claimed)
    && |s.certificate| == 32
    && s.generation != 0 && s.revision != 0
    && 1 <= |s.roots| <= 2
    && (forall i :: 0 <= i < |s.roots| ==> |s.roots[i]| == 32)
    && (forall i, j :: 0 <= j < i < |s.roots| ==> s.roots[i] != s.roots[j])
    && (s.crlIssuer != [] <==> s.crlSequence != 0)
    && (s.crlIssuer != [] ==> |s.crlIssuer| == 32)
    && (needsReceipt ==> s.crlIssuer != [])
    && (strict && !needsReceipt ==> s.crlIssuer == [])
  }

  /** What is ever framed. */
  ghost predicate Framable(s: Signed) {
    match s
    case Command(commandType, target, issuedAt, expiresAt, payload) =>
      CommandDomain(commandType).Some? && payload != [] && issuedAt.Some? && expiresAt.Some? && Ulid.IsUlid(target)
    case Outcome(resultType, device, issuedAt, payload) =>
      ResultDomain(resultType).Some? && payload != [] && issuedAt.Some? && Ulid.IsUlid(device)
    case TrustState(_, _, _, _, _, _, _, _) =>
      ValidClaim(s, false)
  }

  lemma TypeIsPlain(t: string)
    requires t in COMMAND_TYPES || t in RESULT_TYPES
    ensures |t| <= 20 && IsResultType(t)
  {
  }

  lemma DomainIsPlain(family: string, t: string)
    requires |family| <= 20 && Plain(family) && |t| <= 20 && Plain(t)
    ensures Plain(family + t + ":v1")
  {
  }

  lemma CommandNames(t: string)
    requires CommandDomain(t).Some?
    ensures Plain(t) && Plain(CommandDomain(t).value) && CommandDomain(t).value[13] == 'c'
  {
    TypeIsPlain(t);
    DomainIsPlain("power-manage:cmd:", t);
  }

  lemma ResultNames(t: string)
    requires ResultDomain(t).Some?
    ensures Plain(t) && Plain(ResultDomain(t).value) && ResultDomain(t).value[13] == 'r'
  {
    TypeIsPlain(t);
    DomainIsPlain("power-manage:result:", t);
  }

  lemma UlidIsPlain(id: string)
    requires Ulid.IsUlid(id)
    ensures Plain(id)
  {
    Ulid.UlidExactly(id);
  }

  ghost function TrustHead(s: Signed): seq<Slice>
    requires s.TrustState? && IsClass(s.reporter) && IsClass(s.claimed) && |s.roots| <= 2
  {
    [TextBytes(TRUST_STATE_DOMAIN), TextBytes(s.reporter), TextBytes(s.claimed), s.certificate,
     U64Bytes(s.generation), U64Bytes(s.revision), U64Bytes(|s.roots|)]
  }

  ghost function TrustFields(s: Signed): seq<Slice>
    requires s.TrustState? && IsClass(s.reporter) && IsClass(s.claimed) && |s.roots| <= 2
  {
    TrustHead(s) + s.roots + [s.crlIssuer, U64Bytes(s.crlSequence)]
  }

  /** The covered fields in the order they are framed. */
  ghost function Covered(s: Signed): seq<Slice>
    requires Framable(s)
  {
    match s
    case Command(commandType, target, issuedAt, expiresAt, payload) =>
      CommandNames(commandType);
      UlidIsPlain(target);
      [TextBytes(CommandDomain(commandType).value), TextBytes(commandType), TextBytes(target),
       TimeBytes(issuedAt.value), TimeBytes(expiresAt.value), payload]
    case Outcome(resultType, device, issuedAt, payload) =>
      ResultNames(resultType);
      UlidIsPlain(device);
      [TextBytes(ResultDomain(resultType).value), TextBytes(resultType), TextBytes(device),
       TimeBytes(issuedAt.value), payload]
    case TrustState(_, _, _, _, _, _, _, _) =>
      TrustFields(s)
  }

  // ---------------------------------------------------------------------
  // The bytes determine what was signed
  // ---------------------------------------------------------------------

  ghost function Preimage(s: Signed): seq<Byte>
    requires Framable(s)
  {
    Frames(Fixed, Covered(s))
  }

  lemma TimeBytesInjective(t: Timestamp, u: Timestamp)
    requires TimeBytes(t) == TimeBytes(u)
    ensures t == u
  {
    var ts := if t.seconds < 0 then t.seconds + 0x1_0000_0000_0000_0000 else t.seconds;
    var us := if u.seconds < 0 then u.seconds + 0x1_0000_0000_0000_0000 else u.seconds;
    var tn := if t.nanos < 0 then t.nanos + 0x1_0000_0000 else t.nanos;
    var un := if u.nanos < 0 then u.nanos + 0x1_0000_0000 else u.nanos;
    assert BigEndian(ts, 8) == TimeBytes(t)[..8] == TimeBytes(u)[..8] == BigEndian(us, 8);
    assert BigEndian(tn, 4) == TimeBytes(t)[8..] == TimeBytes(u)[8..] == BigEndian(un, 4);
    U64Value(ts);
    U64Value(us);
    assert Raise(1, 2) == 0x1_0000;
    assert Raise(1, 4) == 0x1_0000_0000;
    BigEndianValue(tn, 4);
    BigEndianValue(un, 4);
  }

  lemma U64BytesInjective(x: Uint64, y: Uint64)
    requires U64Bytes(x) == U64Bytes(y)
    ensures x == y
  {
    U64Value(x);
    U64Value(y);
  }

  lemma CommandDetermined(a: Signed, b: Signed)
    requires a.Command? && b.Command? && Framable(a) && Framable(b) && Covered(a) == Covered(b)
    ensures a == b
  {
    CommandNames(a.commandType);
    CommandNames(b.commandType);
    UlidIsPlain(a.target);
    UlidIsPlain(b.target);
    var x, y := Covered(a), Covered(b);
    assert x[1] == y[1] && x[2] == y[2] && x[3] == y[3] && x[4] == y[4] && x[5] == y[5];
    TextBytesInjective(a.commandType, b.commandType);
    TextBytesInjective(a.target, b.target);
    TimeBytesInjective(a.issuedAt.value, b.issuedAt.value);
    TimeBytesInjective(a.expiresAt.value, b.expiresAt.value);
  }

  lemma OutcomeDetermined(a: Signed, b: Signed)
    requires a.Outcome? && b.Outcome? && Framable(a) && Framable(b) && Covered(a) == Covered(b)
    ensures a == b
  {
    ResultNames(a.resultType);
    ResultNames(b.resultType);
    UlidIsPlain(a.device);
    UlidIsPlain(b.device);
    var x, y := Covered(a), Covered(b);
    assert x[1] == y[1] && x[2] == y[2] && x[3] == y[3] && x[4] == y[4];
    TextBytesInjective(a.resultType, b.resultType);
    TextBytesInjective(a.device, b.device);
    TimeBytesInjective(a.issuedAt.value, b.issuedAt.value);
  }

  lemma TrustStateDetermined(a: Signed, b: Signed)
    requires a.TrustState? && b.TrustState? && Framable(a) && Framable(b) && Covered(a) == Covered(b)
    ensures a == b
  {
    var x, y := Covered(a), Covered(b);
    assert x[1] == y[1] && x[2] == y[2] && x[3] == y[3] && x[4] == y[4] && x[5] == y[5];
    TextBytesInjective(a.reporter, b.reporter);
    TextBytesInjective(a.claimed, b.claimed);
    U64BytesInjective(a.generation, b.generation);
    U64BytesInjective(a.revision, b.revision);
    var n := |a.roots|;
    assert n == |x| - 9 == |y| - 9 == |b.roots|;
    assert a.roots == x[7..7 + n] == y[7..7 + n] == b.roots;
    assert x[7 + n] == y[7 + n] && x[8 + n] == y[8 + n];
    U64BytesInjective(a.crlSequence, b.crlSequence);
  }

  /** The fourteenth byte of the domain tells the three kinds apart. */
  lemma KindByte(s: Signed)
    requires Framable(s)
    ensures |Covered(s)| > 0 && |Covered(s)[0]| > 13
    ensures Covered(s)[0][13] as char == match s case Command(_, _, _, _, _) => 'c' case Outcome(_, _, _, _) => 'r' case _ => 't'
  {
    match s {
      case Command(commandType, _, _, _, _) => CommandNames(commandType);
      case Outcome(resultType, _, _, _) => ResultNames(resultType);
      case TrustState(_, _, _, _, _, _, _, _) => assert TRUST_STATE_DOMAIN[13] == 't';
    }
  }

  /** Equal signing inputs come from the same kind of thing with the same covered fields, so
      a signature over one can never be taken for a signature over anything else. */
  lemma SigningInputDeterminesAll(a: Signed, b: Signed)
    requires Framable(a) && Framable(b)
    ensures Preimage(a) == Preimage(b) <==> a == b
  {
    if Preimage(a) == Preimage(b) {
      FixedSelfDelimiting();
      FramesInjective(Fixed, Covered(a), Covered(b));
      KindByte(a);
      KindByte(b);
      if a.Command? {
        CommandDetermined(a, b);
      } else if a.Outcome? {
        OutcomeDetermined(a, b);
      } else {
        TrustStateDetermined(a, b);
      }
    }
  }

  // ---------------------------------------------------------------------
  // Building the bytes
  // ---------------------------------------------------------------------

  /** The buffer a preimage is written to. */
  class Buffer {
    var bytes: seq<Byte>
    ghost var parts: seq<Slice>

    ghost predicate Valid()
      reads this
    {
      bytes == Frames(Fixed, parts)
    }

    constructor ()
      ensures Valid() && parts == []
    {
      bytes, parts := [], [];
    }

    method Lp(x: Slice)
      requires Valid()
      modifies this
      ensures Valid() && parts == old(parts) + [x]
    {
      FramesAppend(Fixed, parts, x);
      bytes := bytes + Fixed(|x|);
      bytes := bytes + x;
      parts := parts + [x];
    }
  }

  method CommandPreimage(cmd: Signed) returns (r: Option<seq<Byte>>)
    requires cmd.Command?
    ensures r == if Framable(cmd) then Some(Preimage(cmd)) else None
  {
    var domain := CommandDomain(cmd.commandType);
    if domain.None? {
      return None;
    }
    if |cmd.payload| == 0 {
      return None;
    }
    if cmd.issuedAt.None? || cmd.expiresAt.None? {
      return None;
    }
    var canonical := Ulid.IsCanonicalULID(cmd.target);
    if !canonical {
      return None;
    }
    CommandNames(cmd.commandType);
    UlidIsPlain(cmd.target);
    var buf := new Buffer();
    buf.Lp(TextBytes(domain.value));
    buf.Lp(TextBytes(cmd.commandType));
    buf.Lp(TextBytes(cmd.target));
    buf.Lp(TimeBytes(cmd.issuedAt.value));
    buf.Lp(TimeBytes(cmd.expiresAt.value));
    buf.Lp(cmd.payload);
    assert buf.parts == Covered(cmd);
    return Some(buf.bytes);
  }

  method ResultPreimage(env: Signed) returns (r: Option<seq<Byte>>)
    requires env.Outcome?
    ensures r == if Framable(env) then Some(Preimage(env)) else None
  {
    var domain := ResultDomain(env.resultType);
    if domain.None? {
      return None;
    }
    if |env.payload| == 0 {
      return None;
    }
    if env.issuedAt.None? {
      return None;
    }
    var canonical := Ulid.IsCanonicalULID(env.device);
    if !canonical {
      return None;
    }
    ResultNames(env.resultType);
    UlidIsPlain(env.device);
    var buf := new Buffer();
    buf.Lp(TextBytes(domain.value));
    buf.Lp(TextBytes(env.resultType));
    buf.Lp(TextBytes(env.device));
    buf.Lp(TimeBytes(env.issuedAt.value));
    buf.Lp(env.payload);
    assert buf.parts == Covered(env);
    return Some(buf.bytes);
  }

  method TrustStatePreimage(claim: Signed) returns (r: Option<seq<Byte>>)
    requires claim.TrustState?
    ensures r == if ValidClaim(claim, true) then Some(Preimage(claim)) else None
  {
    if !ValidClaim(claim, true) {
      return None;
    }
    var bytes := FrameTrustState(claim);
    return Some(bytes);
  }

  method FrameTrustState(claim: Signed) returns (bytes: seq<Byte>)
    requires claim.TrustState? && IsClass(claim.reporter) && IsClass(claim.claimed) && |claim.roots| <= 2
    ensures bytes == Frames(Fixed, TrustFields(claim))
  {
    var buffer := new Buffer();
    FrameTrustHead(buffer, claim);
    for i := 0 to |claim.roots|
      invariant buffer.Valid() && buffer.parts == TrustHead(claim) + claim.roots[..i]
    {
      buffer.Lp(claim.roots[i]);
      assert claim.roots[..i + 1] == claim.roots[..i] + [claim.roots[i]];
    }
    buffer.Lp(claim.crlIssuer);
    buffer.Lp(U64Bytes(claim.crlSequence));
    assert buffer.parts == TrustFields(claim);
    return buffer.bytes;
  }

  method FrameTrustHead(buffer: Buffer, claim: Signed)
    requires claim.TrustState? && IsClass(claim.reporter) && IsClass(claim.claimed) && |claim.roots| <= 2
    requires buffer.Valid() && buffer.parts == []
    modifies buffer
    ensures buffer.Valid() && buffer.parts == TrustHead(claim)
  {
    buffer.Lp(TextBytes(TRUST_STATE_DOMAIN));
    buffer.Lp(TextBytes(claim.reporter));
    buffer.Lp(TextBytes(claim.claimed));
    FrameTrustVersion(buffer, claim);
  }

  method FrameTrustVersion(buffer: Buffer, claim: Signed)
    requires claim.TrustState? && |claim.roots| <= 2 && buffer.Valid()
    modifies buffer
    ensures buffer.Valid()
    ensures buffer.parts == old(buffer.parts)
              + [claim.certificate, U64Bytes(claim.generation), U64Bytes(claim.revision), U64Bytes(|claim.roots|)]
  {
    buffer.Lp(claim.certificate);
    buffer.Lp(U64Bytes(claim.generation));
    buffer.Lp(U64Bytes(claim.revision));
    buffer.Lp(U64Bytes(|claim.roots|));
  }
}
