/** Constants of the UC8156 segment-display driver: gray levels and color codes,
    update modes, register addresses, the segment-to-pixel table and the buffer
    geometry.  Every member here is a fixed value; nothing changes state. */
module SegDefs {
  import opened Octets

  // Physical gray levels: one byte holds four 2-bit pixels of the same level.
  const BLACK: byte := 0x00
  const DGRAY: byte := 0x55
  const LGRAY: byte := 0xAA
  const WHITE: byte := 0xFF

  // Logical colors rendered by multi-pass waveforms.
  const YELLOW: byte := 0x04
  const GREEN: byte := 0x05
  const RED: byte := 0x06
  const BLUE: byte := 0x07

  // Update modes.
  const UPD_FULL: int := 0
  const UPD_PART: int := 1
  const UPD_MONO: int := 2

  // Register addresses of the controller.
  const REVISION: byte := 0x00
  const PANELSETTING: byte := 0x01
  const DRIVERVOLTAGE: byte := 0x02
  const POWERCONTROL: byte := 0x03
  const BOOSTSETTING: byte := 0x04
  const INTERVALSYNC: byte := 0x05
  const TCOMTIMING: byte := 0x06
  const INTTEMPERATURE: byte := 0x07
  const SETRESOLUTION: byte := 0x0C
  const WRITEPXRECTSET: byte := 0x0D
  const PIXELACESSPOS: byte := 0x0E
  const DATENTRYMODE: byte := 0x0F
  const DISPLAYENGINE: byte := 0x14
  const VCOMCONFIG: byte := 0x18
  const BORDERSETTING: byte := 0x1D
  const POWERSEQUENCE: byte := 0x1F
  const SOFTWARERESET: byte := 0x20
  const PROGRAMMTP: byte := 0x40
  const MTPADDRESSSETTING: byte := 0x41
  const LOADMONOWF: byte := 0x44
  /** Flag or-ed into an address to read the register instead of writing it. */
  const REGREAD: byte := 0x80

  // Addresses the driver uses as raw literals rather than named constants.
  /** Common-voltage (TPCOM) register. */
  const TPCOM: byte := 0x1B
  /** Status register polled until the charge pump is ready. */
  const PUMPSTATUS: byte := 0x15
  /** Opcode that starts a stream of pixel bytes into a device buffer. */
  const BUFFERWRITE: byte := 0x10

  /** Every named register address. */
  const ADDRESSES: seq<byte> := [REVISION, PANELSETTING, DRIVERVOLTAGE, POWERCONTROL,
    BOOSTSETTING, INTERVALSYNC, TCOMTIMING, INTTEMPERATURE, SETRESOLUTION, WRITEPXRECTSET,
    PIXELACESSPOS, DATENTRYMODE, DISPLAYENGINE, VCOMCONFIG, BORDERSETTING, POWERSEQUENCE,
    SOFTWARERESET, PROGRAMMTP, MTPADDRESSSETTING, LOADMONOWF, TPCOM, PUMPSTATUS, BUFFERWRITE]

  /** Size of the in-memory framebuffer in bytes. */
  const BUFFER_SIZE: nat := 8760
  /** Bytes streamed per buffer write: 240 * 5 pixels at 4 pixels per byte. */
  const PAYLOAD_SIZE: nat := 240 * 5 / 4
  /** Distance between the five replicas of a segment byte. */
  const ROW_STRIDE: nat := 60
  /** Number of segments of the panel. */
  const SEGMENTS: nat := 22

  /** Pixel index of each segment (not a byte offset: the byte is index / 4). */
  const SEG_MAPPING: seq<byte> := [113, 105, 97, 89, 81, 73, 65, 57, 49, 41, 33,
                                   234, 226, 218, 210, 202, 194, 186, 178, 170, 162, 154]

  /** Byte that holds segment `i`'s pixel. */
  function SegmentByte(i: nat): (j: nat)
    requires i < SEGMENTS
    ensures j < ROW_STRIDE
  {
    SEG_MAPPING[i] as int / 4
  }

  /** Which 2-bit field of that byte holds the pixel (0 is bits 7-6). */
  function SegmentField(i: nat): (f: nat)
    requires i < SEGMENTS
    ensures f < 4
  {
    SEG_MAPPING[i] as int % 4
  }

  /** The byte offsets segment `i` is written to: its byte and four replicas. */
  predicate IsTarget(i: nat, k: int)
    requires i < SEGMENTS
  {
    0 <= k < PAYLOAD_SIZE && k % ROW_STRIDE == SegmentByte(i)
  }

  /** The four gray levels the panel can show directly. */
  predicate IsGray(c: byte) {
    c == WHITE || c == LGRAY || c == DGRAY || c == BLACK
  }

  /** 2-bit field `f` of byte `b`; field 0 is bits 7-6, field 3 is bits 1-0. */
  function FieldOf(b: byte, f: nat): byte
    requires f < 4
  {
    (b >> (6 - 2 * f) as bv8) & 3
  }

  /** The segment table has the documented length, and its entries follow two
      arithmetic runs (one group of segments per panel half). */
  lemma SegMappingShape(i: nat)
    requires i < SEGMENTS
    ensures |SEG_MAPPING| == SEGMENTS
    ensures SEG_MAPPING[i] as int == if i < 11 then 113 - 8 * i else 234 - 8 * (i - 11)
    ensures SegmentByte(i) == if i < 11 then 28 - 2 * i else 58 - 2 * (i - 11)
    ensures SegmentField(i) == if i < 11 then 1 else 2
  {
    var t := SEG_MAPPING;
    if i < 6 {
      assert i == 0 || i == 1 || i == 2 || i == 3 || i == 4 || i == 5;
    } else if i < 11 {
      assert i == 6 || i == 7 || i == 8 || i == 9 || i == 10;
    } else if i < 17 {
      assert i == 11 || i == 12 || i == 13 || i == 14 || i == 15 || i == 16;
    } else {
      assert i == 17 || i == 18 || i == 19 || i == 20 || i == 21;
    }
  }

  /** Every segment write, replicas included, stays inside the 300 bytes that a
      buffer write streams, which themselves lie inside the framebuffer. */
  lemma SegmentsInsidePayload(i: nat, r: nat)
    requires i < SEGMENTS && r < 5
    ensures SegmentByte(i) + ROW_STRIDE * r < PAYLOAD_SIZE <= BUFFER_SIZE
    ensures IsTarget(i, SegmentByte(i) + ROW_STRIDE * r)
  {
    var j := SegmentByte(i);
    StrideOffsets(j, j + ROW_STRIDE * r);
    if r == 0 { } else if r == 1 { } else if r == 2 { } else if r == 3 { } else { }
  }

  /** Inside the 300 streamed bytes, the offsets congruent to `j` modulo the
      row stride are `j` and its four replicas. */
  lemma StrideOffsets(j: nat, k: int)
    requires j < ROW_STRIDE
    ensures (0 <= k < PAYLOAD_SIZE && k % ROW_STRIDE == j) <==>
      (k == j || k == j + 60 || k == j + 120 || k == j + 180 || k == j + 240)
  {
    if 0 <= k < PAYLOAD_SIZE {
      if k < 60 { } else if k < 120 { } else if k < 180 { } else if k < 240 { } else { }
    }
  }

  /** Two different segments never share a byte. */
  lemma SegmentBytesDistinct(i: nat, j: nat)
    requires i < SEGMENTS && j < SEGMENTS && i != j
    ensures SegmentByte(i) != SegmentByte(j)
  {
    SegMappingShape(i);
    SegMappingShape(j);
  }

  /** A byte offset is the target of at most one segment, so all 110 written
      offsets (22 segments times five replicas) are pairwise distinct. */
  lemma TargetsDisjoint(i: nat, j: nat, k: int)
    requires i < SEGMENTS && j < SEGMENTS
    requires IsTarget(i, k) && IsTarget(j, k)
    ensures i == j
  {
    if i != j {
      SegmentBytesDistinct(i, j);
    }
  }

  /** The offsets written for segment `i` are exactly its byte plus the
      replica strides 0, 60, 120, 180 and 240. */
  lemma TargetIsReplica(i: nat, k: int)
    requires i < SEGMENTS
    ensures IsTarget(i, k) <==> exists r :: 0 <= r < 5 && k == SegmentByte(i) + ROW_STRIDE * r
  {
    var j := SegmentByte(i);
    if IsTarget(i, k) {
      var r := k / ROW_STRIDE;
      assert k == j + ROW_STRIDE * r;
    }
    if exists r :: 0 <= r < 5 && k == j + ROW_STRIDE * r {
      var r :| 0 <= r < 5 && k == j + ROW_STRIDE * r;
      SegmentsInsidePayload(i, r);
    }
  }

  /** The gray bytes consist of four equal 2-bit fields, one per level. */
  lemma GrayFieldsUniform(c: byte, f: nat)
    requires IsGray(c) && f < 4
    ensures FieldOf(c, f) == FieldOf(c, 0)
    ensures c == FieldOf(c, 0) * 0x55
  {
  }

  /** Bitwise complement maps gray levels to gray levels, pairing BLACK with
      WHITE and DGRAY with LGRAY. */
  lemma ComplementPairsGrays(c: byte)
    ensures IsGray(c) <==> IsGray(!c)
    ensures !BLACK == WHITE && !WHITE == BLACK && !DGRAY == LGRAY && !LGRAY == DGRAY
  {
  }

  /** The color codes are disjoint from the gray levels and from each other. */
  lemma ColorCodesDistinct()
    ensures !IsGray(YELLOW) && !IsGray(GREEN) && !IsGray(RED) && !IsGray(BLUE)
    ensures YELLOW != GREEN && YELLOW != RED && YELLOW != BLUE
    ensures GREEN != RED && GREEN != BLUE && RED != BLUE
  {
  }

  /** No register address has the read flag set, so or-ing the flag in always
      yields a byte that is not an address and from which the address comes back. */
  lemma AddressesBelowReadFlag(k: nat)
    requires k < |ADDRESSES|
    ensures ADDRESSES[k] < REGREAD
    ensures ADDRESSES[k] | REGREAD !in ADDRESSES
    ensures (ADDRESSES[k] | REGREAD) & !REGREAD == ADDRESSES[k]
  {
    forall m | 0 <= m < |ADDRESSES| ensures ADDRESSES[m] < REGREAD {
    }
  }
}
