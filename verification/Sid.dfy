/** Security identifiers, binary and spelled (`directory.rs`). The binary layout is that of section
    2.4.2.2 of MS-DTYP. */
module Sid {
  import opened Common
  import opened Text

  type Byte = b: nat | b < 256

  datatype Sid = Sid(revision: nat, authority: nat, subs: seq<nat>)

  const AUTHORITIES: nat := 0x1_0000_0000_0000
  const SUBS: nat := 0x1_0000_0000

  predicate Valid(s: Sid) {
    s.revision < 256 && s.authority < AUTHORITIES && |s.subs| < 256
    && forall i | 0 <= i < |s.subs| :: s.subs[i] < SUBS
  }

  /** What the code spells and reads: one to fifteen sub-authorities. */
  predicate Spellable(s: Sid) { Valid(s) && 1 <= |s.subs| <= 15 }

  // ---- the binary form ----------------------------------------------------------------------------

  /** `w` bytes, the most significant first. */
  function BigEndian(n: nat, w: nat): (r: seq<Byte>)
    ensures |r| == w
  {
    if w == 0 then [] else BigEndian(n / 256, w - 1) + [n % 256]
  }

  function FromBigEndian(b: seq<Byte>): nat {
    if b == [] then 0 else 256 * FromBigEndian(b[..|b| - 1]) + b[|b| - 1]
  }

  /** Four bytes, the least significant first. */
  function LittleEndian(n: nat): seq<Byte>
    requires n < SUBS
    ensures |LittleEndian(n)| == 4
  {
    [n % 256, n / 256 % 256, n / 256 / 256 % 256, n / 256 / 256 / 256]
  }

  function FromLittleEndian(a: Byte, b: Byte, c: Byte, d: Byte): (n: nat)
    ensures n < SUBS
  {
    a + 256 * (b + 256 * (c + 256 * d))
  }

  function SubBytes(subs: seq<nat>): (r: seq<Byte>)
    requires forall i | 0 <= i < |subs| :: subs[i] < SUBS
    ensures |r| == 4 * |subs|
  {
    if subs == [] then [] else SubBytes(subs[..|subs| - 1]) + LittleEndian(subs[|subs| - 1])
  }

  function Encode(s: Sid): seq<Byte>
    requires Valid(s)
  {
    [s.revision, |s.subs|] + BigEndian(s.authority, 6) + SubBytes(s.subs)
  }

  /** The sub-authority at an offset. */
  function SubAt(b: seq<Byte>, at: nat): (n: nat)
    requires at + 4 <= |b|
    ensures n < SUBS
  {
    FromLittleEndian(b[at], b[at + 1], b[at + 2], b[at + 3])
  }

  /** The first `k` sub-authorities. */
  function SubsOf(b: seq<Byte>, k: nat): (r: seq<nat>)
    requires |b| >= 8 + 4 * k
    ensures |r| == k && forall i | 0 <= i < k :: r[i] < SUBS
  {
    if k == 0 then []
    else SubsOf(b, k - 1) + [SubAt(b, 4 * k + 4)]
  }

  function Decode(b: seq<Byte>): Option<Sid> {
    if |b| < 8 then None
    else
      var count: nat := b[1];
      if |b| != 8 + 4 * count then None
      else Some(Sid(b[0], FromBigEndian(b[2..8]), SubsOf(b, count)))
  }

  // ---- the spelling -------------------------------------------------------------------------------

  function Decimals(ns: seq<nat>): (r: seq<string>)
    ensures |r| == |ns| && forall i | 0 <= i < |r| :: Digits(r[i])
  {
    if ns == [] then [] else Decimals(ns[..|ns| - 1]) + [Decimal(ns[|ns| - 1])]
  }

  function Spelled(s: Sid): string {
    "S-" + Join([Decimal(s.revision), Decimal(s.authority)] + Decimals(s.subs), '-')
  }

  function ParseSubs(parts: seq<string>): (r: Option<seq<nat>>)
    ensures r.Some? ==> |r.value| == |parts| && forall i | 0 <= i < |parts| :: r.value[i] < SUBS
  {
    if parts == [] then Some([])
    else match ParseSubs(parts[..|parts| - 1])
      case None => None
      case Some(rest) =>
        match ParseUnsigned(parts[|parts| - 1], SUBS)
        case None => None
        case Some(n) => Some(rest + [n])
  }

  function ParseParts(parts: seq<string>): (r: Option<Sid>)
    ensures r.Some? ==> Spellable(r.value)
  {
    if |parts| < 2 then None
    else match ParseUnsigned(parts[0], 256)
      case None => None
      case Some(revision) =>
        match ParseUnsigned(parts[1], 0x1_0000_0000_0000_0000)
        case None => None
        case Some(authority) =>
          if authority >= AUTHORITIES then None
          else match ParseSubs(parts[2..])
            case None => None
            case Some(subs) =>
              if |subs| == 0 || |subs| > 15 then None else Some(Sid(revision, authority, subs))
  }

  function Parse(text: string): (r: Option<Sid>)
    ensures r.Some? ==> Spellable(r.value)
  {
    if "S-" <= text then ParseParts(Split(text[2..], '-')) else None
  }

  // ---- the code -----------------------------------------------------------------------------------

  function StringOf(b: seq<Byte>): Option<string> {
    match Decode(b)
    case None => None
    case Some(s) => Some(Spelled(s))
  }

  function BytesOf(text: string): Option<seq<Byte>> {
    match Parse(text)
    case None => None
    case Some(s) => Some(Encode(s))
  }

  function Canonical(text: string): Option<string> {
    match BytesOf(Trim(text))
    case None => None
    case Some(b) => StringOf(b)
  }

  method SidToString(bytes: seq<Byte>) returns (r: Option<string>)
    ensures r == StringOf(bytes)
  {
    if |bytes| < 8 { return None; }
    var revision, count: nat := bytes[0], bytes[1];
    if |bytes| != 8 + 4 * count { return None; }
    var authority: nat := 0;
    for i := 2 to 8
      invariant authority == FromBigEndian(bytes[2..i])
    {
      assert bytes[2..i + 1][..i - 2] == bytes[2..i];
      authority := authority * 256 + bytes[i];
    }
    var s := "S-" + Decimal(revision) + "-" + Decimal(authority);
    ghost var head := [Decimal(revision), Decimal(authority)];
    SpellHead(Decimal(revision), Decimal(authority), bytes);
    for i := 0 to count
      invariant s == SpelledTo(head, bytes, i)
    {
      SpellSub(head, bytes, i);
      s := s + "-" + Decimal(SubAt(bytes, 8 + 4 * i));
    }
    SpelledOf(bytes, count);
    return Some(s);
  }

  /** The text with the first `k` sub-authorities written. */
  ghost function SpelledTo(head: seq<string>, bytes: seq<Byte>, k: nat): string
    requires |bytes| >= 8 + 4 * k && |head| == 2
  {
    "S-" + Join(head + Decimals(SubsOf(bytes, k)), '-')
  }

  lemma SpellHead(revision: string, authority: string, bytes: seq<Byte>)
    requires |bytes| >= 8
    ensures "S-" + revision + "-" + authority == SpelledTo([revision, authority], bytes, 0)
  {
    var head := [revision, authority];
    assert head + Decimals(SubsOf(bytes, 0)) == head && head[1..] == [authority];
    assert Join(head, '-') == revision + "-" + authority;
    assert "S-" + (revision + "-" + authority) == "S-" + revision + "-" + authority;
  }

  lemma SpellSub(head: seq<string>, bytes: seq<Byte>, k: nat)
    requires |bytes| >= 8 + 4 * (k + 1) && |head| == 2
    ensures SpelledTo(head, bytes, k) + "-" + Decimal(SubAt(bytes, 8 + 4 * k)) == SpelledTo(head, bytes, k + 1)
  {
    SpellNext(head, SubsOf(bytes, k), SubAt(bytes, 8 + 4 * k));
  }

  lemma SpelledOf(bytes: seq<Byte>, count: nat)
    requires |bytes| == 8 + 4 * count && count == bytes[1]
    ensures StringOf(bytes)
            == Some(SpelledTo([Decimal(bytes[0]), Decimal(FromBigEndian(bytes[2..8]))], bytes, count))
  {
  }

  method SidBytes(text: string) returns (r: Option<seq<Byte>>)
    ensures r == BytesOf(text)
  {
    if !("S-" <= text) { return None; }
    var parsed := ParseParts(Split(text[2..], '-'));
    if parsed.None? { return None; }
    var Sid(revision, authority, subs) := parsed.value;
    var bytes := Extend([revision, |subs|] + BigEndian(authority, 6), subs);
    return Some(bytes);
  }

  /** The sub-authorities behind what is there. */
  method Extend(head: seq<Byte>, subs: seq<nat>) returns (bytes: seq<Byte>)
    requires forall i | 0 <= i < |subs| :: subs[i] < SUBS
    ensures bytes == head + SubBytes(subs)
  {
    bytes := head;
    for i := 0 to |subs|
      invariant bytes == head + SubBytes(subs[..i])
    {
      NextSub(subs, i);
      bytes := bytes + LittleEndian(subs[i]);
    }
    assert subs[..|subs|] == subs;
  }

  lemma NextSub(subs: seq<nat>, i: nat)
    requires i < |subs| && forall k | 0 <= k < |subs| :: subs[k] < SUBS
    ensures SubBytes(subs[..i + 1]) == SubBytes(subs[..i]) + LittleEndian(subs[i])
  {
    assert subs[..i + 1][..i] == subs[..i];
  }

  lemma SpellNext(head: seq<string>, subs: seq<nat>, sub: nat)
    requires |head| == 2
    ensures "S-" + Join(head + Decimals(subs), '-') + "-" + Decimal(sub)
            == "S-" + Join(head + Decimals(subs + [sub]), '-')
  {
    assert (subs + [sub])[..|subs|] == subs;
    assert head + Decimals(subs + [sub]) == head + Decimals(subs) + [Decimal(sub)];
    JoinLast(head + Decimals(subs), Decimal(sub), '-');
  }

  // ---- the binary form round-trips ----------------------------------------------------------------

  function Pow256(w: nat): nat { if w == 0 then 1 else 256 * Pow256(w - 1) }

  lemma {:induction false} BigEndianReads(n: nat, w: nat)
    requires n < Pow256(w)
    ensures FromBigEndian(BigEndian(n, w)) == n
  {
    if w > 0 {
      BigEndianReads(n / 256, w - 1);
      var b := BigEndian(n, w);
      assert b[..w - 1] == BigEndian(n / 256, w - 1);
    }
  }

  lemma {:induction false} BigEndianWrites(b: seq<Byte>)
    ensures FromBigEndian(b) < Pow256(|b|) && BigEndian(FromBigEndian(b), |b|) == b
  {
    if b != [] {
      BigEndianWrites(b[..|b| - 1]);
      assert b == b[..|b| - 1] + [b[|b| - 1]];
    }
  }

  lemma SixBytes()
    ensures Pow256(6) == AUTHORITIES
  {
    assert Pow256(6) == 256 * Pow256(5) && Pow256(5) == 256 * Pow256(4) && Pow256(4) == 256 * Pow256(3);
    assert Pow256(3) == 256 * Pow256(2) && Pow256(2) == 256 * Pow256(1) == 65536;
  }

  lemma Shift(a: Byte, n: nat)
    ensures (a + 256 * n) % 256 == a && (a + 256 * n) / 256 == n
  {
  }

  lemma LittleEndianReads(n: nat)
    requires n < SUBS
    ensures var b := LittleEndian(n); |b| == 4 && FromLittleEndian(b[0], b[1], b[2], b[3]) == n
  {
    assert n == n % 256 + 256 * (n / 256);
    assert n / 256 == n / 256 % 256 + 256 * (n / 256 / 256);
    assert n / 256 / 256 == n / 256 / 256 % 256 + 256 * (n / 256 / 256 / 256);
  }

  lemma LittleEndianWrites(a: Byte, b: Byte, c: Byte, d: Byte)
    ensures LittleEndian(FromLittleEndian(a, b, c, d)) == [a, b, c, d]
  {
    Shift(a, b + 256 * (c + 256 * d));
    Shift(b, c + 256 * d);
    Shift(c, d);
  }

  lemma SubReads(b: seq<Byte>, at: nat, n: nat)
    requires at + 4 <= |b| && n < SUBS && b[at..at + 4] == LittleEndian(n)
    ensures SubAt(b, at) == n
  {
    var s := b[at..at + 4];
    assert s[0] == b[at] && s[1] == b[at + 1] && s[2] == b[at + 2] && s[3] == b[at + 3];
    LittleEndianReads(n);
  }

  lemma SubWrites(b: seq<Byte>, at: nat)
    requires at + 4 <= |b|
    ensures LittleEndian(SubAt(b, at)) == b[at..at + 4]
  {
    LittleEndianWrites(b[at], b[at + 1], b[at + 2], b[at + 3]);
  }

  lemma Middle(head: seq<Byte>, front: seq<Byte>, le: seq<Byte>, tail: seq<Byte>)
    ensures var b := head + (front + le) + tail;
            && b == head + front + (le + tail)
            && b[|head| + |front|..|head| + |front| + |le|] == le
  {
    assert head + (front + le) + tail == head + front + le + tail;
  }

  lemma {:induction false} SubsRead(head: seq<Byte>, subs: seq<nat>, tail: seq<Byte>)
    requires |head| == 8 && forall i | 0 <= i < |subs| :: subs[i] < SUBS
    ensures SubsOf(head + SubBytes(subs) + tail, |subs|) == subs
    decreases |subs|
  {
    if subs != [] {
      var k := |subs|;
      var rest, last := subs[..k - 1], subs[k - 1];
      SubsRead(head, rest, LittleEndian(last) + tail);
      LastSubReads(head, SubBytes(rest), last, tail);
      assert SubBytes(subs) == SubBytes(rest) + LittleEndian(last);
      assert subs == rest + [last];
    }
  }

  lemma LastSubReads(head: seq<Byte>, front: seq<Byte>, last: nat, tail: seq<Byte>)
    requires |head| == 8 && last < SUBS
    ensures var b := head + (front + LittleEndian(last)) + tail;
            && b == head + front + (LittleEndian(last) + tail)
            && 8 + |front| + 4 <= |b| && SubAt(b, 8 + |front|) == last
  {
    Middle(head, front, LittleEndian(last), tail);
    SubReads(head + (front + LittleEndian(last)) + tail, 8 + |front|, last);
  }

  lemma {:induction false} SubsWrite(b: seq<Byte>, k: nat)
    requires |b| >= 8 + 4 * k
    ensures SubBytes(SubsOf(b, k)) == b[8..8 + 4 * k]
  {
    if k > 0 {
      var at := 4 * k + 4;
      SubsWrite(b, k - 1);
      SubBytesLast(SubsOf(b, k - 1), SubAt(b, at));
      SubWrites(b, at);
      Adjacent(b, 8, at, at + 4);
    }
  }

  lemma SubBytesLast(subs: seq<nat>, sub: nat)
    requires sub < SUBS && forall i | 0 <= i < |subs| :: subs[i] < SUBS
    ensures SubBytes(subs + [sub]) == SubBytes(subs) + LittleEndian(sub)
  {
    assert (subs + [sub])[..|subs|] == subs;
  }

  lemma Adjacent(b: seq<Byte>, i: nat, j: nat, k: nat)
    requires i <= j <= k <= |b|
    ensures b[i..j] + b[j..k] == b[i..k]
  {
  }

  /** Decoding undoes encoding. */
  lemma DecodeEncode(s: Sid)
    requires Valid(s)
    ensures Decode(Encode(s)) == Some(s)
  {
    var b := Encode(s);
    var head := [s.revision, |s.subs|] + BigEndian(s.authority, 6);
    SixBytes();
    BigEndianReads(s.authority, 6);
    assert b[2..8] == BigEndian(s.authority, 6);
    SubsRead(head, s.subs, []);
    assert head + SubBytes(s.subs) + [] == b;
  }

  /** Encoding undoes decoding: no two binary forms denote one SID. */
  lemma EncodeDecode(b: seq<Byte>)
    requires Decode(b).Some?
    ensures Valid(Decode(b).value) && Encode(Decode(b).value) == b
  {
    var count: nat := b[1];
    AuthorityWrites(b[2..8]);
    SubsWrite(b, count);
    Pieces(b);
  }

  lemma AuthorityWrites(six: seq<Byte>)
    requires |six| == 6
    ensures FromBigEndian(six) < AUTHORITIES && BigEndian(FromBigEndian(six), 6) == six
  {
    SixBytes();
    BigEndianWrites(six);
  }

  lemma Pieces(b: seq<Byte>)
    requires |b| >= 8
    ensures [b[0], b[1]] + b[2..8] + b[8..|b|] == b
  {
  }

  // ---- the spelling round-trips -------------------------------------------------------------------

  lemma {:induction false} SubsSpell(subs: seq<nat>)
    requires forall i | 0 <= i < |subs| :: subs[i] < SUBS
    ensures ParseSubs(Decimals(subs)) == Some(subs)
  {
    if subs != [] {
      var rest, last := subs[..|subs| - 1], subs[|subs| - 1];
      SubsSpell(rest);
      SpelledLast(rest, last);
      assert subs == rest + [last];
    }
  }

  lemma SpelledLast(rest: seq<nat>, last: nat)
    requires last < SUBS && ParseSubs(Decimals(rest)) == Some(rest)
    ensures ParseSubs(Decimals(rest) + [Decimal(last)]) == Some(rest + [last])
  {
    ParseOfDecimal(last, SUBS);
    ParseLast(Decimals(rest), Decimal(last));
  }

  lemma ParseLast(parts: seq<string>, last: string)
    requires ParseSubs(parts).Some? && ParseUnsigned(last, SUBS).Some?
    ensures ParseSubs(parts + [last]) == Some(ParseSubs(parts).value + [ParseUnsigned(last, SUBS).value])
  {
    assert (parts + [last])[..|parts|] == parts;
  }

  /** A spelling parses back, exactly when the code accepts its number of sub-authorities. */
  lemma ParseSpelled(s: Sid)
    requires Valid(s)
    ensures Parse(Spelled(s)) == if 1 <= |s.subs| <= 15 then Some(s) else None
  {
    var parts := [Decimal(s.revision), Decimal(s.authority)] + Decimals(s.subs);
    assert Spelled(s)[2..] == Join(parts, '-');
    SplitOfJoin(parts, '-');
    ParseOfDecimal(s.revision, 256);
    ParseOfDecimal(s.authority, 0x1_0000_0000_0000_0000);
    assert parts[2..] == Decimals(s.subs);
    SubsSpell(s.subs);
  }

  lemma {:induction false} JoinEndsInDigit(parts: seq<string>, c: char)
    requires |parts| >= 1 && forall i | 0 <= i < |parts| :: |parts[i]| >= 1 && Digits(parts[i])
    ensures var s := Join(parts, c); |s| >= 1 && IsDigit(s[|s| - 1])
  {
    if |parts| == 1 {
      assert IsDigit(parts[0][|parts[0]| - 1]);
    } else {
      JoinEndsInDigit(parts[1..], c);
    }
  }

  lemma {:induction false} DecimalsNonEmpty(ns: seq<nat>)
    ensures forall i | 0 <= i < |ns| :: |Decimals(ns)[i]| >= 1
  {
    if ns != [] { DecimalsNonEmpty(ns[..|ns| - 1]); }
  }

  lemma SpelledIsTrimmed(s: Sid)
    ensures Trim(Spelled(s)) == Spelled(s)
  {
    DecimalsNonEmpty(s.subs);
    JoinEndsInDigit([Decimal(s.revision), Decimal(s.authority)] + Decimals(s.subs), '-');
  }

  // ---- the theorems -------------------------------------------------------------------------------

  /** From a binary SID to its string and back, exactly for one to fifteen sub-authorities. */
  lemma BinaryRoundTrips(b: seq<Byte>)
    requires StringOf(b).Some?
    ensures BytesOf(StringOf(b).value) == if 1 <= b[1] <= 15 then Some(b) else None
  {
    EncodeDecode(b);
    ParseSpelled(Decode(b).value);
  }

  /** From a string to its bytes and back is the canonical spelling of the SID it denotes. */
  lemma StringRoundTrips(text: string)
    requires BytesOf(text).Some?
    ensures StringOf(BytesOf(text).value) == Some(Spelled(Parse(text).value))
    ensures BytesOf(Spelled(Parse(text).value)) == BytesOf(text)
  {
    DecodeEncode(Parse(text).value);
    ParseSpelled(Parse(text).value);
  }

  /** The canonical form is its own. */
  lemma CanonicalIsIdempotent(text: string)
    ensures Canonical(text).Some? ==> Canonical(Canonical(text).value) == Canonical(text)
  {
    if Parse(Trim(text)).Some? {
      var s := Parse(Trim(text)).value;
      StringRoundTrips(Trim(text));
      SpelledIsTrimmed(s);
    }
  }

  /** Two accepted spellings have one canonical form exactly when they have one binary form. */
  lemma CanonicalIffBinary(a: string, b: string)
    requires BytesOf(Trim(a)).Some? && BytesOf(Trim(b)).Some?
    ensures Canonical(a).Some? && Canonical(b).Some?
    ensures Canonical(a) == Canonical(b) <==> BytesOf(Trim(a)) == BytesOf(Trim(b))
  {
    StringRoundTrips(Trim(a));
    StringRoundTrips(Trim(b));
  }
}
