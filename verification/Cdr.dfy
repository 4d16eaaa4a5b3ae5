/** The CDR stream that the generated types write to and read from: alignment, unsigned long, string
    and the encapsulation header (CORBA 3.0.3, sections 15.3.1.1 and 15.3.2.7; DDSI-RTPS, section 10).
    Padding octets are skipped, not written, so a layout leaves them open. */
module Cdr {
  import opened Common

  datatype Endianness = BigEndian | LittleEndian

  const ULONG := 0x1_0000_0000

  /** The octets after the encapsulation header; buffer lengths are 32-bit numbers. */
  type Body = b: Bytes | |b| < ULONG

  /** The next position that 4 divides. */
  function AlignUp(pos: nat): nat { (pos + 3) / 4 * 4 }

  /** Cdr::alignment(pos, 4). */
  function Pad(pos: nat): nat { AlignUp(pos) - pos }

  lemma PadIsAlignment(pos: nat)
    ensures Pad(pos) == (4 - pos % 4) % 4
  {
  }

  lemma AlignUpFacts(p: nat, q: nat)
    ensures p <= AlignUp(p) < p + 4 && AlignUp(p) % 4 == 0
    ensures p <= q ==> AlignUp(p) <= AlignUp(q)
    ensures AlignUp(p) < AlignUp(q) ==> AlignUp(p) + 4 <= AlignUp(q)
  {
  }

  // ----- unsigned long -----

  /** The k-th octet of n, the least significant one first. */
  function Octet(n: nat, k: nat): byte {
    if k == 0 then (n % 256) as byte else Octet(n / 256, k - 1)
  }

  /** The k-th octet of the encoding of n. */
  function ULongOctet(n: nat, k: nat, e: Endianness): byte
    requires k < 4
  {
    Octet(n, if e.LittleEndian? then k else 3 - k)
  }

  /** The value of four octets from significance k on, divided by 256 to the power k. */
  function ULongValue(b: Bytes, k: nat, e: Endianness): nat
    requires |b| == 4 && k <= 4
    decreases 4 - k
  {
    if k == 4 then 0
    else b[if e.LittleEndian? then k else 3 - k] as nat + 256 * ULongValue(b, k + 1, e)
  }

  /** The octets are the base-256 digits: most significant first, or least significant first. */
  lemma ULongOctetsArePositional(n: nat)
    requires n < ULONG
    ensures n == 0x100_0000 * ULongOctet(n, 0, BigEndian) as nat + 0x1_0000 * ULongOctet(n, 1, BigEndian) as nat
                 + 0x100 * ULongOctet(n, 2, BigEndian) as nat + ULongOctet(n, 3, BigEndian) as nat
    ensures n == ULongOctet(n, 0, LittleEndian) as nat + 0x100 * ULongOctet(n, 1, LittleEndian) as nat
                 + 0x1_0000 * ULongOctet(n, 2, LittleEndian) as nat + 0x100_0000 * ULongOctet(n, 3, LittleEndian) as nat
  {
    var b1, b2 := n / 256, n / 256 / 256;
    assert Octet(n, 1) == Octet(b1, 0);
    assert Octet(n, 2) == Octet(b1, 1) == Octet(b2, 0);
    assert Octet(n, 3) == Octet(b1, 2) == Octet(b2, 1) == Octet(b2 / 256, 0);
  }

  lemma {:induction false} ULongRoundTrip(n: nat, b: Bytes, e: Endianness)
    requires n < ULONG && |b| == 4
    requires forall k :: 0 <= k < 4 ==> b[k] == ULongOctet(n, k, e)
    ensures ULongValue(b, 0, e) == n
  {
    var b1, b2 := n / 256, n / 256 / 256;
    var b3 := b2 / 256;
    assert Octet(n, 1) == Octet(b1, 0);
    assert Octet(n, 2) == Octet(b1, 1) == Octet(b2, 0);
    assert Octet(n, 3) == Octet(b1, 2) == Octet(b2, 1) == Octet(b3, 0);
    assert ULongValue(b, 3, e) == b3 by { assert ULongValue(b, 4, e) == 0; }
    assert ULongValue(b, 2, e) == b2;
    assert ULongValue(b, 1, e) == b1;
  }

  // ----- layouts -----

  /** The octets of an encoding from some position on; None is a padding octet. */
  type Layout = seq<Option<byte>>

  function Solid(b: Bytes): (l: Layout)
    ensures |l| == |b|
  {
    seq(|b|, i requires 0 <= i < |b| => Some(b[i]))
  }

  function ULongLayout(pos: nat, n: nat, e: Endianness): (l: Layout)
    ensures |l| == Pad(pos) + 4
  {
    seq(Pad(pos) + 4, i requires 0 <= i < Pad(pos) + 4 =>
      if i < Pad(pos) then None else Some(ULongOctet(n, i - Pad(pos), e)))
  }

  /** The length with the NUL, the octets, the NUL. */
  function StringLayout(pos: nat, s: Bytes, e: Endianness): (l: Layout)
    ensures |l| == Pad(pos) + 4 + |s| + 1
  {
    var start := Pad(pos) + 4;
    seq(start + |s| + 1, i requires 0 <= i < start + |s| + 1 =>
      if i < start then ULongLayout(pos, |s| + 1, e)[i] else if i < start + |s| then Some(s[i - start]) else Some(0))
  }

  /** `after` is `before` with the layout written at `pos`; padding octets keep what was there. */
  predicate Overlaid(before: Bytes, pos: nat, l: Layout, after: Bytes) {
    |after| == |before| && pos + |l| <= |before| && OverlaidUpTo(before, pos, l, after, |before|)
  }

  predicate OverlaidUpTo(before: Bytes, pos: nat, l: Layout, after: Bytes, n: nat)
    requires |after| == |before| && n <= |before|
    decreases n
  {
    n == 0 || (OverlaidUpTo(before, pos, l, after, n - 1) && after[n - 1] == Covered(before[n - 1], l, n - 1 - pos))
  }

  /** The octet b, with index i of the layout, if there is one, written over it. */
  function Covered(b: byte, l: Layout, i: int): byte {
    if 0 <= i < |l| && l[i].Some? then l[i].value else b
  }

  lemma {:induction false} OverlaidIff(before: Bytes, pos: nat, l: Layout, after: Bytes, n: nat)
    requires |after| == |before| && n <= |before|
    ensures OverlaidUpTo(before, pos, l, after, n)
       <==> forall i :: 0 <= i < n ==> after[i] == Covered(before[i], l, i - pos)
    decreases n
  {
    if n > 0 {
      OverlaidIff(before, pos, l, after, n - 1);
    }
  }

  /** The layout stands in `body` at `pos`. */
  predicate Matches(body: Bytes, pos: nat, l: Layout) {
    pos + |l| <= |body| && MatchesFrom(body, pos, l, 0)
  }

  predicate MatchesFrom(body: Bytes, pos: nat, l: Layout, i: nat)
    requires pos + |l| <= |body| && i <= |l|
    decreases |l| - i
  {
    i == |l| || ((l[i].Some? ==> body[pos + i] == l[i].value) && MatchesFrom(body, pos, l, i + 1))
  }

  ghost predicate MatchesPointwise(body: Bytes, pos: nat, l: Layout, i: nat)
    requires pos + |l| <= |body|
  {
    forall j :: i <= j < |l| && l[j].Some? ==> body[pos + j] == l[j].value
  }

  lemma {:induction false} MatchesIff(body: Bytes, pos: nat, l: Layout, i: nat := 0)
    requires pos + |l| <= |body| && i <= |l|
    ensures MatchesFrom(body, pos, l, i) <==> MatchesPointwise(body, pos, l, i)
    decreases |l| - i
  {
    if i < |l| {
      MatchesIff(body, pos, l, i + 1);
    }
  }

  lemma OverlaidConcat(x: Bytes, pos: nat, a: Layout, y: Bytes, b: Layout, z: Bytes)
    requires Overlaid(x, pos, a, y) && Overlaid(y, pos + |a|, b, z)
    ensures Overlaid(x, pos, a + b, z)
  {
    OverlaidIff(x, pos, a, y, |x|);
    OverlaidIff(y, pos + |a|, b, z, |x|);
    OverlaidIff(x, pos, a + b, z, |x|);
  }

  lemma ULongOverlaid(before: Bytes, pos: nat, n: nat, e: Endianness, after: Bytes)
    requires |after| == |before| && AlignUp(pos) + 4 <= |before|
    requires forall i :: 0 <= i < |before| ==>
               after[i] == if 0 <= i - AlignUp(pos) < 4 then ULongOctet(n, i - AlignUp(pos), e) else before[i]
    ensures Overlaid(before, pos, ULongLayout(pos, n, e), after)
  {
    OverlaidIff(before, pos, ULongLayout(pos, n, e), after, |before|);
  }

  lemma OverlaidMatches(before: Bytes, pos: nat, l: Layout, after: Bytes)
    requires Overlaid(before, pos, l, after)
    ensures Matches(after, pos, l)
  {
    OverlaidIff(before, pos, l, after, |before|);
    MatchesIff(after, pos, l);
  }

  lemma MatchesPrefix(body: Bytes, l: Layout)
    requires Matches(body, 0, l)
    ensures Matches(body[..|l|], 0, l)
  {
    MatchesIff(body, 0, l);
    MatchesIff(body[..|l|], 0, l);
  }

  lemma MatchesConcat(body: Bytes, pos: nat, a: Layout, b: Layout)
    requires Matches(body, pos, a + b)
    ensures Matches(body, pos, a) && Matches(body, pos + |a|, b)
  {
    MatchesIff(body, pos, a + b);
    MatchesIff(body, pos, a);
    MatchesIff(body, pos + |a|, b);
    assert forall i :: 0 <= i < |a| ==> (a + b)[i] == a[i];
    assert forall i :: 0 <= i < |b| ==> (a + b)[|a| + i] == b[i];
  }

  lemma MatchesJoin(body: Bytes, pos: nat, a: Layout, b: Layout)
    requires Matches(body, pos, a) && Matches(body, pos + |a|, b)
    ensures Matches(body, pos, a + b)
  {
    MatchesIff(body, pos, a + b);
    MatchesIff(body, pos, a);
    MatchesIff(body, pos + |a|, b);
    forall i | 0 <= i < |a + b| && (a + b)[i].Some? ensures body[pos + i] == (a + b)[i].value {
      if i >= |a| {
        assert (a + b)[i] == b[i - |a|];
      }
    }
  }

  lemma MatchesConcatIff(body: Bytes, pos: nat, a: Layout, b: Layout)
    ensures Matches(body, pos, a + b) <==> Matches(body, pos, a) && Matches(body, pos + |a|, b)
  {
    if Matches(body, pos, a + b) {
      MatchesConcat(body, pos, a, b);
    }
    if Matches(body, pos, a) && Matches(body, pos + |a|, b) {
      MatchesJoin(body, pos, a, b);
    }
  }

  lemma MatchesSolid(body: Bytes, pos: nat, b: Bytes)
    requires Matches(body, pos, Solid(b))
    ensures body[pos..pos + |b|] == b
  {
    MatchesIff(body, pos, Solid(b));
    forall i | 0 <= i < |b| ensures body[pos..pos + |b|][i] == b[i] {
      assert Solid(b)[i] == Some(b[i]);
    }
  }

  // ----- reading -----

  datatype Decoded<+T> = Decoded(value: T, end: nat) | NotEnoughMemory

  function DecodeULong(body: Bytes, pos: nat, e: Endianness): Decoded<nat> {
    var q := AlignUp(pos);
    if q + 4 <= |body| then Decoded(ULongValue(body[q..q + 4], 0, e), q + 4) else NotEnoughMemory
  }

  /** A length of zero is read as the empty string, and the last octet is dropped if it is a NUL. */
  function DecodeString(body: Body, pos: nat, e: Endianness): (d: Decoded<Bytes>)
    ensures d.Decoded? ==> d.end <= |body| && |d.value| + 4 <= |body|
  {
    match DecodeULong(body, pos, e)
    case NotEnoughMemory => NotEnoughMemory
    case Decoded(n, q) =>
      if n == 0 then Decoded([], q)
      else if q + n > |body| then NotEnoughMemory
      else Decoded(if body[q + n - 1] == 0 then body[q..q + n - 1] else body[q..q + n], q + n)
  }

  lemma DecodeULongOfLayout(body: Bytes, pos: nat, n: nat, e: Endianness)
    requires n < ULONG && Matches(body, pos, ULongLayout(pos, n, e))
    ensures DecodeULong(body, pos, e) == Decoded(n, pos + Pad(pos) + 4)
  {
    var l, q := ULongLayout(pos, n, e), AlignUp(pos);
    MatchesIff(body, pos, l);
    forall k | 0 <= k < 4 ensures body[q..q + 4][k] == ULongOctet(n, k, e) {
      assert l[Pad(pos) + k].Some?;
    }
    ULongRoundTrip(n, body[q..q + 4], e);
  }

  lemma StringLayoutSplit(pos: nat, s: Bytes, e: Endianness)
    ensures StringLayout(pos, s, e) == ULongLayout(pos, |s| + 1, e) + Solid(s + [0])
  {
  }

  lemma DecodeStringAt(body: Body, pos: nat, s: Bytes, q: nat, e: Endianness)
    requires DecodeULong(body, pos, e) == Decoded(|s| + 1, q)
    requires q + |s| + 1 <= |body| && body[q..q + |s| + 1] == s + [0]
    ensures DecodeString(body, pos, e) == Decoded(s, q + |s| + 1)
  {
    assert body[q + |s|] == (s + [0])[|s|];
    assert body[q..q + |s|] == (s + [0])[..|s|];
  }

  lemma DecodeStringOfLayout(body: Body, pos: nat, s: Bytes, e: Endianness)
    requires |s| + 1 < ULONG && Matches(body, pos, StringLayout(pos, s, e))
    ensures DecodeString(body, pos, e) == Decoded(s, pos + |StringLayout(pos, s, e)|)
  {
    var head := ULongLayout(pos, |s| + 1, e);
    StringLayoutSplit(pos, s, e);
    MatchesConcat(body, pos, head, Solid(s + [0]));
    DecodeULongOfLayout(body, pos, |s| + 1, e);
    MatchesSolid(body, pos + |head|, s + [0]);
    DecodeStringAt(body, pos, s, pos + |head|, e);
  }

  lemma PrefixSlice(prefix: Bytes, body: Bytes, i: nat, j: nat)
    requires prefix <= body && i <= j <= |prefix|
    ensures prefix[i..j] == body[i..j]
  {
  }

  lemma DecodeULongPrefix(prefix: Body, body: Body, pos: nat, e: Endianness)
    requires prefix <= body && DecodeULong(prefix, pos, e).Decoded?
    ensures DecodeULong(body, pos, e) == DecodeULong(prefix, pos, e)
    ensures DecodeULong(body, pos, e).end <= |prefix|
  {
    PrefixSlice(prefix, body, AlignUp(pos), AlignUp(pos) + 4);
  }

  /** What is read from a prefix of the octets is also read from all of them. */
  lemma DecodeStringPrefix(prefix: Body, body: Body, pos: nat, e: Endianness)
    requires prefix <= body && DecodeString(prefix, pos, e).Decoded?
    ensures DecodeString(body, pos, e) == DecodeString(prefix, pos, e)
    ensures DecodeString(body, pos, e).end <= |prefix|
  {
    DecodeULongPrefix(prefix, body, pos, e);
    var length := DecodeULong(body, pos, e);
    if length.value != 0 {
      PrefixSlice(prefix, body, length.end, length.end + length.value - 1);
      PrefixSlice(prefix, body, length.end, length.end + length.value);
    }
  }
}
