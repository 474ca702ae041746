/** The packed framebuffer as a value: what clear, invert and drawSegments do to
    its contents.  The driver class runs these as in-place loops over its array
    and is proved to produce exactly these values. */
module Framebuffer {
  import opened Octets
  import opened SegDefs

  /** `n` copies of the byte `c`. */
  function Fill(n: nat, c: byte): (s: seq<byte>)
    ensures |s| == n && forall k :: 0 <= k < n ==> s[k] == c
  {
    seq(n, _ => c)
  }

  /** clear(c): a gray level fills the buffer, any other byte leaves it alone. */
  function Cleared(buf: seq<byte>, c: byte): (r: seq<byte>)
    ensures |r| == |buf|
  {
    if IsGray(c) then Fill(|buf|, c) else buf
  }

  /** invert(): every byte complemented. */
  function Complement(buf: seq<byte>): (r: seq<byte>)
    ensures |r| == |buf|
    ensures forall k :: 0 <= k < |buf| ==> r[k] == !buf[k]
  {
    seq(|buf|, k requires 0 <= k < |buf| => !buf[k])
  }

  /** The byte drawSegments writes for a pixel in field `f` of `seg`: the field's
      bits are cleared and `color`, shifted into the field, is or-ed in and
      truncated to a byte. */
  function MergeField(seg: byte, f: nat, color: byte): byte
    requires f < 4
  {
    match f
    case 0 => (seg & 0x3F) | (color << 6)
    case 1 => (seg & 0xCF) | (color << 4)
    case 2 => (seg & 0xF3) | (color << 2)
    case 3 => (seg & 0xFC) | color
  }

  /** Bit `i` of the segment mask, as the source's bitRead reads it. */
  predicate BitSet(mask: bv32, i: nat)
    requires i < 32
  {
    (mask >> i) & 1 == 1
  }

  /** Drawing one segment: the new byte, computed from the segment's own byte,
      is stored there and at the four replica offsets. */
  function SetSegment(buf: seq<byte>, i: nat, color: byte): (r: seq<byte>)
    requires i < SEGMENTS && |buf| >= PAYLOAD_SIZE
    ensures |r| == |buf|
  {
    SegMappingShape(i);
    var j := SegmentByte(i);
    var v := MergeField(buf[j], SegmentField(i), color);
    buf[j := v][j + 60 := v][j + 120 := v][j + 180 := v][j + 240 := v]
  }

  /** SetSegment as the five stores drawSegments performs. */
  lemma SetSegmentStores(buf: seq<byte>, i: nat, color: byte)
    requires i < SEGMENTS && |buf| >= PAYLOAD_SIZE
    ensures SegmentByte(i) + 240 < PAYLOAD_SIZE
    ensures var j, v := SegmentByte(i), MergeField(buf[SegmentByte(i)], SegmentField(i), color);
      SetSegment(buf, i, color) == buf[j := v][j + 60 := v][j + 120 := v][j + 180 := v][j + 240 := v]
  {
    SegMappingShape(i);
  }

  /** The buffer after the first `n` iterations of drawSegments' loop. */
  function DrawPrefix(buf: seq<byte>, mask: bv32, color: byte, n: nat): (r: seq<byte>)
    requires n <= SEGMENTS && |buf| >= PAYLOAD_SIZE
    ensures |r| == |buf|
  {
    if n == 0 then buf
    else
      var b := DrawPrefix(buf, mask, color, n - 1);
      if BitSet(mask, n - 1) then SetSegment(b, n - 1, color) else b
  }

  /** drawSegments(mask, color). */
  function Drawn(buf: seq<byte>, mask: bv32, color: byte): (r: seq<byte>)
    requires |buf| >= PAYLOAD_SIZE
    ensures |r| == |buf|
  {
    DrawPrefix(buf, mask, color, SEGMENTS)
  }

  /** The segment, if any, among the first `n` whose set mask bit makes it
      write offset `k`. */
  predicate WrittenBy(mask: bv32, n: nat, i: nat, k: int)
    requires n <= SEGMENTS
  {
    i < n && BitSet(mask, i) && IsTarget(i, k)
  }

  /** One step of drawing changes exactly the five offsets of its segment. */
  lemma SetSegmentAt(buf: seq<byte>, i: nat, color: byte, k: nat)
    requires i < SEGMENTS && |buf| >= PAYLOAD_SIZE && k < |buf|
    ensures SetSegment(buf, i, color)[k] ==
      if IsTarget(i, k) then MergeField(buf[SegmentByte(i)], SegmentField(i), color) else buf[k]
  {
    SetSegmentStores(buf, i, color);
    StrideOffsets(SegmentByte(i), k);
  }

  /** An offset that none of the first `n` iterations targets still holds its
      original value. */
  lemma {:induction false} DrawPrefixMiss(buf: seq<byte>, mask: bv32, color: byte, n: nat, k: nat)
    requires n <= SEGMENTS && |buf| >= PAYLOAD_SIZE && k < |buf|
    requires forall i :: !WrittenBy(mask, n, i, k)
    ensures DrawPrefix(buf, mask, color, n)[k] == buf[k]
  {
    if n > 0 {
      var m := n - 1;
      assert forall i :: WrittenBy(mask, m, i, k) ==> WrittenBy(mask, n, i, k);
      DrawPrefixMiss(buf, mask, color, m, k);
      if BitSet(mask, m) {
        assert !WrittenBy(mask, n, m, k);
        SetSegmentAt(DrawPrefix(buf, mask, color, m), m, color, k);
      }
    }
  }

  /** An offset that iteration `i` targets holds that segment's merged byte,
      computed from the ORIGINAL content of the segment's own byte: targets of
      different segments are disjoint, so no iteration reads or overwrites a
      byte that another one writes. */
  lemma {:induction false} DrawPrefixHit(buf: seq<byte>, mask: bv32, color: byte, n: nat, i: nat, k: nat)
    requires n <= SEGMENTS && |buf| >= PAYLOAD_SIZE && k < |buf|
    requires WrittenBy(mask, n, i, k)
    ensures DrawPrefix(buf, mask, color, n)[k] == MergeField(buf[SegmentByte(i)], SegmentField(i), color)
  {
    var m := n - 1;
    if i == m {
      DrawPrefixHitLast(buf, mask, color, n, k);
    } else {
      DrawPrefixHit(buf, mask, color, m, i, k);
      if BitSet(mask, m) {
        if IsTarget(m, k) {
          TargetsDisjoint(i, m, k);
        }
        SetSegmentAt(DrawPrefix(buf, mask, color, m), m, color, k);
      }
    }
  }

  /** The last iteration's own targets: its segment byte was not written
      before, so the merge reads the original byte. */
  lemma DrawPrefixHitLast(buf: seq<byte>, mask: bv32, color: byte, n: nat, k: nat)
    requires 0 < n <= SEGMENTS && |buf| >= PAYLOAD_SIZE && k < |buf|
    requires WrittenBy(mask, n, n - 1, k)
    ensures DrawPrefix(buf, mask, color, n)[k] == MergeField(buf[SegmentByte(n - 1)], SegmentField(n - 1), color)
  {
    var m := n - 1;
    var j := SegmentByte(m);
    SegmentsInsidePayload(m, 0);
    forall i' | WrittenBy(mask, m, i', j) ensures false {
      TargetsDisjoint(i', m, j);
    }
    DrawPrefixMiss(buf, mask, color, m, j);
    SetSegmentAt(DrawPrefix(buf, mask, color, m), m, color, k);
  }

  /** drawSegments writes, for every set bit i < 22, the same byte to all five
      offsets of segment i: the segment's original byte with its field merged. */
  lemma DrawnTargets(buf: seq<byte>, mask: bv32, color: byte, i: nat, r: nat)
    requires |buf| >= PAYLOAD_SIZE && i < SEGMENTS && r < 5 && BitSet(mask, i)
    ensures SegmentByte(i) + ROW_STRIDE * r < PAYLOAD_SIZE
    ensures Drawn(buf, mask, color)[SegmentByte(i) + ROW_STRIDE * r] ==
            MergeField(buf[SegmentByte(i)], SegmentField(i), color)
  {
    SegmentsInsidePayload(i, r);
    DrawPrefixHit(buf, mask, color, SEGMENTS, i, SegmentByte(i) + ROW_STRIDE * r);
  }

  /** Offsets that no set bit targets keep their value; in particular bits
      22 and above of the mask have no effect. */
  lemma DrawnElsewhere(buf: seq<byte>, mask: bv32, color: byte, k: nat)
    requires |buf| >= PAYLOAD_SIZE && k < |buf|
    requires forall i :: 0 <= i < SEGMENTS && BitSet(mask, i) ==> !IsTarget(i, k)
    ensures Drawn(buf, mask, color)[k] == buf[k]
  {
    DrawPrefixMiss(buf, mask, color, SEGMENTS, k);
  }

  /** Field by field, the merged byte holds the low two bits of `color` in
      field `f`, keeps the lower-order fields g > f of `seg`, and or-s the
      higher-order fields g < f of `seg` with the color bits that the shift
      pushed there (truncating the rest). */
  lemma MergeFieldFields(seg: byte, f: nat, color: byte, g: nat)
    requires f < 4 && g < 4
    ensures FieldOf(MergeField(seg, f, color), f) == color & 3
    ensures f < g ==> FieldOf(MergeField(seg, f, color), g) == FieldOf(seg, g)
    ensures g < f ==> FieldOf(MergeField(seg, f, color), g) == FieldOf(seg, g) | FieldOf(color, 3 - f + g)
  {
    if f == 0 {
    } else if f == 1 {
      if g == 0 { } else if g == 1 { } else if g == 2 { } else { }
    } else if f == 2 {
      if g == 0 { } else if g == 1 { } else if g == 2 { } else { }
    } else {
      if g == 0 { } else if g == 1 { } else if g == 2 { } else { }
    }
  }

  /** For a 2-bit color only the segment's field changes: the merged byte holds
      `color` in that field and the segment byte's other three fields. */
  lemma MergeFieldOnly(seg: byte, f: nat, color: byte, g: nat)
    requires f < 4 && g < 4 && color < 4
    ensures FieldOf(MergeField(seg, f, color), f) == color
    ensures g != f ==> FieldOf(MergeField(seg, f, color), g) == FieldOf(seg, g)
  {
    MergeFieldFields(seg, f, color, g);
    if g < f {
      assert FieldOf(color, 3 - f + g) == 0 by {
        if 3 - f + g == 0 { } else if 3 - f + g == 1 { } else { }
      }
    }
  }

  /** The pointwise step of SetSegmentCommutes. */
  lemma SetSegmentCommutesAt(buf: seq<byte>, i: nat, j: nat, ci: byte, cj: byte, k: nat)
    requires i < SEGMENTS && j < SEGMENTS && i != j && |buf| >= PAYLOAD_SIZE && k < |buf|
    ensures SetSegment(SetSegment(buf, i, ci), j, cj)[k] == SetSegment(SetSegment(buf, j, cj), i, ci)[k]
  {
    SegmentsInsidePayload(i, 0);
    SegmentsInsidePayload(j, 0);
    if IsTarget(i, SegmentByte(j)) { TargetsDisjoint(i, j, SegmentByte(j)); }
    if IsTarget(j, SegmentByte(i)) { TargetsDisjoint(i, j, SegmentByte(i)); }
    if IsTarget(i, k) && IsTarget(j, k) { TargetsDisjoint(i, j, k); }
    SetSegmentAt(buf, i, ci, SegmentByte(j));
    SetSegmentAt(buf, j, cj, SegmentByte(i));
    SetSegmentAt(buf, i, ci, k);
    SetSegmentAt(buf, j, cj, k);
    SetSegmentAt(SetSegment(buf, i, ci), j, cj, k);
    SetSegmentAt(SetSegment(buf, j, cj), i, ci, k);
  }

  /** Drawing two different segments commutes, so the order in which
      drawSegments visits the mask bits does not matter. */
  lemma SetSegmentCommutes(buf: seq<byte>, i: nat, j: nat, ci: byte, cj: byte)
    requires i < SEGMENTS && j < SEGMENTS && i != j && |buf| >= PAYLOAD_SIZE
    ensures SetSegment(SetSegment(buf, i, ci), j, cj) == SetSegment(SetSegment(buf, j, cj), i, ci)
  {
    forall k | 0 <= k < |buf|
      ensures SetSegment(SetSegment(buf, i, ci), j, cj)[k] == SetSegment(SetSegment(buf, j, cj), i, ci)[k]
    {
      SetSegmentCommutesAt(buf, i, j, ci, cj, k);
    }
  }

  /** invert is an involution. */
  lemma ComplementTwice(buf: seq<byte>)
    ensures Complement(Complement(buf)) == buf
  {
    assert forall k :: 0 <= k < |buf| ==> Complement(Complement(buf))[k] == buf[k];
  }

  /** clear(L) leaves every byte equal to L for a gray level, and nothing
      changes for any other byte. */
  lemma ClearedEffect(buf: seq<byte>, c: byte, k: nat)
    requires k < |buf|
    ensures |Cleared(buf, c)| == |buf|
    ensures Cleared(buf, c)[k] == if IsGray(c) then c else buf[k]
  {
  }

  /** invert after clear(L) is clear(~L): complement pairs the gray levels. */
  lemma InvertAfterClear(buf: seq<byte>, c: byte)
    requires IsGray(c)
    ensures IsGray(!c)
    ensures Complement(Cleared(buf, c)) == Cleared(buf, !c)
  {
    ComplementPairsGrays(c);
    assert forall k :: 0 <= k < |buf| ==> Complement(Cleared(buf, c))[k] == Cleared(buf, !c)[k];
  }
}
