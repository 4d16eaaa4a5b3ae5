/** The stream object over a raw buffer. A false or None result stands for NotEnoughMemoryException. */
module CdrStreams {
  import opened Common
  import opened Cdr

  class CdrStream {
    const buffer: array<byte>
    const size: nat
    /** Where the encapsulation header ends and alignment restarts. */
    var origin: nat
    var position: nat
    var endianness: Endianness

    ghost predicate Valid()
      reads this
    {
      origin <= position <= size <= buffer.Length && size < ULONG
    }

    ghost function Body(): (b: Body)
      requires Valid()
      reads this, buffer
    {
      buffer[origin..size]
    }

    ghost function Pos(): nat
      requires Valid()
      reads this
    {
      position - origin
    }

    constructor (buffer: array<byte>, size: nat, endianness: Endianness)
      requires size <= buffer.Length && size < ULONG
      ensures Valid() && this.buffer == buffer && this.size == size && this.endianness == endianness
      ensures origin == position == 0
    {
      this.buffer, this.size, this.endianness := buffer, size, endianness;
      origin, position := 0, 0;
    }

    method ResetAlignment()
      requires Valid()
      modifies this`origin
      ensures Valid() && origin == position
    {
      origin := position;
    }

    /** A write puts the layout at the position, if it fits, and changes nothing before the origin. */
    twostate predicate Wrote(new l: Layout, ok: bool)
      requires old(Valid()) && Valid()
      reads this, buffer
    {
      && origin == old(origin) && endianness == old(endianness)
      && buffer[..origin] == old(buffer[..origin])
      && (ok <==> old(Pos()) + |l| <= |old(Body())|)
      && (ok ==> Pos() == old(Pos()) + |l| && Overlaid(old(Body()), old(Pos()), l, Body()))
    }

    method WriteULong(n: nat) returns (ok: bool)
      requires Valid()
      modifies this`position, buffer
      ensures Valid() && Wrote(ULongLayout(old(Pos()), n, endianness), ok)
      ensures !ok ==> unchanged(this) && unchanged(buffer)
    {
      var q := origin + AlignUp(position - origin);
      if size < q + 4 { return false; }
      forall k | 0 <= k < 4 {
        buffer[q + k] := ULongOctet(n, k, endianness);
      }
      position := q + 4;
      ULongOverlaid(old(Body()), old(Pos()), n, endianness, Body());
      return true;
    }

    method WriteOctets(octets: Bytes) returns (ok: bool)
      requires Valid()
      modifies this`position, buffer
      ensures Valid() && Wrote(Solid(octets), ok)
      ensures !ok ==> unchanged(this) && unchanged(buffer)
    {
      if size < position + |octets| { return false; }
      forall k | 0 <= k < |octets| {
        buffer[position + k] := octets[k];
      }
      position := position + |octets|;
      OverlaidIff(old(Body()), old(Pos()), Solid(octets), Body(), |Body()|);
      return true;
    }

    /** Writes a C string: its length with the NUL, its octets, the NUL. */
    method WriteString(s: Bytes) returns (ok: bool)
      requires Valid()
      modifies this`position, buffer
      ensures Valid() && Wrote(StringLayout(old(Pos()), s, endianness), ok)
    {
      ghost var body, pos := Body(), Pos();
      StringLayoutSplit(pos, s, endianness);
      ok := WriteULong(|s| + 1);
      if ok {
        ghost var between := Body();
        ok := WriteOctets(s + [0]);
        if ok {
          OverlaidConcat(body, pos, ULongLayout(pos, |s| + 1, endianness), between, Solid(s + [0]), Body());
        }
      }
    }

    lemma BodySlice(i: nat, j: nat)
      requires Valid() && i <= j <= |Body()|
      ensures Body()[i..j] == buffer[origin + i..origin + j]
    {
      assert |Body()[i..j]| == |buffer[origin + i..origin + j]|;
      forall k | 0 <= k < j - i ensures Body()[i..j][k] == buffer[origin + i..origin + j][k] {
        assert Body()[i + k] == buffer[origin + i + k];
      }
    }

    method ReadULong() returns (n: Option<nat>)
      requires Valid()
      modifies this`position
      ensures Valid() && Read(DecodeULong(Body(), old(Pos()), endianness), n)
    {
      var q := origin + AlignUp(position - origin);
      if size < q + 4 { return None; }
      BodySlice(q - origin, q - origin + 4);
      n := Some(ULongValue(buffer[q..q + 4], 0, endianness));
      position := q + 4;
    }

    method ReadString() returns (s: Option<Bytes>)
      requires Valid()
      modifies this`position
      ensures Valid() && Read(DecodeString(Body(), old(Pos()), endianness), s)
    {
      var start := position;
      var n := ReadULong();
      if n.None? { return None; }
      if n.value == 0 { return Some([]); }
      var q, length := position, n.value;
      if size - q < length {
        position := start;
        return None;
      }
      BodySlice(q - origin, q - origin + length);
      BodySlice(q - origin, q - origin + length - 1);
      assert Body()[q - origin + length - 1] == buffer[q + length - 1];
      s := Some(if buffer[q + length - 1] == 0 then buffer[q..q + length - 1] else buffer[q..q + length]);
      position := q + length;
    }

    method ReadOctets(n: nat) returns (octets: Option<Bytes>)
      requires Valid()
      modifies this`position
      ensures Valid()
      ensures var pos := old(Pos());
              Read(if pos + n <= |Body()| then Decoded(Body()[pos..pos + n], pos + n) else NotEnoughMemory, octets)
    {
      if size - position < n { return None; }
      BodySlice(position - origin, position - origin + n);
      octets := Some(buffer[position..position + n]);
      position := position + n;
    }

    /** A read gives the decoded value and moves behind it, or fails and leaves the position alone. */
    twostate predicate Read<T>(new d: Decoded<T>, new value: Option<T>)
      requires old(Valid()) && Valid()
      reads this
    {
      && origin == old(origin) && endianness == old(endianness)
      && match d
         case NotEnoughMemory => value == None && Pos() == old(Pos())
         case Decoded(v, end) => value == Some(v) && Pos() == end
    }
  }
}
