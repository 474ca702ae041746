/** The serial bus as an append-only trace.  The driver's pin and SPI calls are
    recorded as events; a transaction is the run of bytes sent between
    chip-select low and chip-select high.  The Op log groups the events into
    transactions, busy-waits, delays and reset-pin writes, and Parse recovers
    the log from the event trace. */
module Wire {
  import opened Octets

  /** One observable action of the driver on its pins and bus. */
  datatype Event =
    | CsLow               // digitalWrite(cs, LOW)
    | Xfer(b: byte)       // SPI.transfer(b)
    | CsHigh              // digitalWrite(cs, HIGH)
    | BusyWait            // waitForBusyInactive()
    | Delay(ms: nat)      // delay(ms)
    | RstPin(high: bool)  // digitalWrite(rst, ...)

  /** The same actions with each chip-select bracket folded into one transaction. */
  datatype Op =
    | Txn(bytes: seq<byte>)
    | Wait
    | Pause(ms: nat)
    | Pin(high: bool)

  datatype Option<T> = None | Some(value: T)

  /** The transfer events for a run of bytes. */
  function Xfers(bs: seq<byte>): (ev: seq<Event>)
    ensures |ev| == |bs|
    ensures forall k :: 0 <= k < |bs| ==> ev[k] == Xfer(bs[k])
  {
    if bs == [] then [] else Xfers(bs[..|bs| - 1]) + [Xfer(bs[|bs| - 1])]
  }

  /** The events of one Op. */
  function LowerOp(op: Op): seq<Event>
  {
    match op
    case Txn(bs) => [CsLow] + Xfers(bs) + [CsHigh]
    case Wait => [BusyWait]
    case Pause(ms) => [Delay(ms)]
    case Pin(h) => [RstPin(h)]
  }

  /** The event trace of an Op log. */
  function Lower(ops: seq<Op>): seq<Event>
  {
    if ops == [] then [] else Lower(ops[..|ops| - 1]) + LowerOp(ops[|ops| - 1])
  }

  /** Number of transfer events at the head of a trace. */
  function XferRun(ev: seq<Event>): (n: nat)
    ensures n <= |ev|
    ensures forall k :: 0 <= k < n ==> ev[k].Xfer?
    ensures n < |ev| ==> !ev[n].Xfer?
  {
    if ev != [] && ev[0].Xfer? then 1 + XferRun(ev[1..]) else 0
  }

  /** The bytes of a run of transfer events. */
  function Bytes(ev: seq<Event>): (bs: seq<byte>)
    requires forall k :: 0 <= k < |ev| ==> ev[k].Xfer?
    ensures |bs| == |ev|
    ensures forall k :: 0 <= k < |ev| ==> bs[k] == ev[k].b
  {
    seq(|ev|, k requires 0 <= k < |ev| => ev[k].b)
  }

  /** The op at the head of a non-empty trace and how many events it spans;
      None for a transfer outside a chip-select bracket or an unclosed one. */
  function ParseHead(ev: seq<Event>): (h: Option<(Op, nat)>)
    requires ev != []
    ensures h.Some? ==> 1 <= h.value.1 <= |ev|
  {
    match ev[0]
    case CsLow =>
      var n := XferRun(ev[1..]);
      if 1 + n < |ev| && ev[1 + n] == CsHigh then Some((Txn(Bytes(ev[1..1 + n])), 2 + n)) else None
    case Xfer(_) => None
    case CsHigh => None
    case BusyWait => Some((Wait, 1))
    case Delay(ms) => Some((Pause(ms), 1))
    case RstPin(h) => Some((Pin(h), 1))
  }

  /** Reads an event trace back as an Op log; None when a chip-select bracket
      is not closed or a transfer happens outside one. */
  function Parse(ev: seq<Event>): Option<seq<Op>>
    decreases |ev|
  {
    if ev == [] then Some([])
    else
      match ParseHead(ev)
      case None => None
      case Some((op, used)) =>
        match Parse(ev[used..])
        case None => None
        case Some(rest) => Some([op] + rest)
  }

  /** Lowering distributes over concatenation: the trace of a log is the
      traces of its parts, one after another. */
  lemma {:induction false} LowerAppend(a: seq<Op>, b: seq<Op>)
    ensures Lower(a + b) == Lower(a) + Lower(b)
    decreases |b|
  {
    if b == [] {
      assert a + b == a;
    } else {
      var b', last := b[..|b| - 1], b[|b| - 1];
      var ab := a + b;
      assert ab[..|ab| - 1] == a + b' && ab[|ab| - 1] == last;
      assert Lower(ab) == Lower(a + b') + LowerOp(last);
      assert Lower(b) == Lower(b') + LowerOp(last);
      LowerAppend(a, b');
      ConcatAssoc(Lower(a), Lower(b'), LowerOp(last));
    }
  }

  /** Concatenation is associative. */
  lemma ConcatAssoc<T>(x: seq<T>, y: seq<T>, z: seq<T>)
    ensures x + y + z == x + (y + z)
  {
  }

  /** The trace of one op appended to a log. */
  lemma LowerSnoc(a: seq<Op>, op: Op)
    ensures Lower(a + [op]) == Lower(a) + LowerOp(op)
  {
    assert (a + [op])[..|a + [op]| - 1] == a;
  }

  /** Transfers distribute over concatenation. */
  lemma XfersAppend(a: seq<byte>, b: seq<byte>)
    ensures Xfers(a + b) == Xfers(a) + Xfers(b)
  {
    assert forall k :: 0 <= k < |a + b| ==> Xfers(a + b)[k] == (Xfers(a) + Xfers(b))[k];
  }

  /** One more transfer. */
  lemma XfersSnoc(bs: seq<byte>, b: byte)
    ensures Xfers(bs + [b]) == Xfers(bs) + [Xfer(b)]
  {
    assert (bs + [b])[..|bs|] == bs;
  }

  /** The trace of a log read front to back: its first op's events, then the
      rest's. */
  lemma LowerCons(op: Op, rest: seq<Op>)
    ensures Lower([op] + rest) == LowerOp(op) + Lower(rest)
  {
    LowerAppend([op], rest);
    LowerOne(op);
  }

  /** The trace of a one-op log. */
  lemma LowerOne(op: Op)
    ensures Lower([op]) == LowerOp(op)
  {
    assert [op][..0] == [];
    assert [] + LowerOp(op) == LowerOp(op);
  }

  /** The head of a trace that starts with an op's events is that op. */
  lemma ParseHeadOp(op: Op, tail: seq<Event>)
    ensures ParseHead(LowerOp(op) + tail) == Some((op, |LowerOp(op)|))
  {
    if op.Txn? {
      ParseHeadTxn(op.bytes, tail);
    }
  }

  /** A chip-select bracket around the transfers of `bs` reads back as the
      transaction of `bs`. */
  lemma ParseHeadTxn(bs: seq<byte>, tail: seq<Event>)
    ensures ParseHead(LowerOp(Txn(bs)) + tail) == Some((Txn(bs), |LowerOp(Txn(bs))|))
  {
    var ev := LowerOp(Txn(bs)) + tail;
    var xs := Xfers(bs);
    var n := |bs|;
    assert ev == [CsLow] + (xs + ([CsHigh] + tail));
    assert ev[1..] == xs + ([CsHigh] + tail);
    XferRunPrefix(xs, [CsHigh] + tail);
    assert ev[1 + n] == CsHigh;
    assert ev[1..1 + n] == xs;
    assert Bytes(xs) == bs;
  }

  /** Parsing a single op's events at the head of a trace consumes exactly them. */
  lemma ParseOp(op: Op, tail: seq<Event>)
    ensures Parse(LowerOp(op) + tail) ==
      match Parse(tail)
      case None => None
      case Some(rest) => Some([op] + rest)
  {
    var ev := LowerOp(op) + tail;
    ParseHeadOp(op, tail);
    assert ev[|LowerOp(op)|..] == tail;
  }

  /** A run of transfers followed by a non-transfer is counted exactly. */
  lemma {:induction false} XferRunPrefix(xs: seq<Event>, tail: seq<Event>)
    requires forall k :: 0 <= k < |xs| ==> xs[k].Xfer?
    requires tail != [] && !tail[0].Xfer?
    ensures XferRun(xs + tail) == |xs|
    decreases |xs|
  {
    if xs != [] {
      assert (xs + tail)[1..] == xs[1..] + tail;
      XferRunPrefix(xs[1..], tail);
    }
  }

  /** The framing is unambiguous: parsing the trace of any log gives the log back. */
  lemma {:induction false} ParseLower(ops: seq<Op>)
    ensures Parse(Lower(ops)) == Some(ops)
    decreases |ops|
  {
    if ops != [] {
      var rest := ops[1..];
      assert ops == [ops[0]] + rest;
      LowerCons(ops[0], rest);
      ParseLower(rest);
      ParseOp(ops[0], Lower(rest));
    }
  }

  /** And conversely: a trace that parses is exactly the trace of its log, so
      every well-formed trace comes from one log. */
  lemma {:induction false} LowerParse(ev: seq<Event>, ops: seq<Op>)
    requires Parse(ev) == Some(ops)
    ensures Lower(ops) == ev
    decreases |ev|
  {
    if ev != [] {
      ParseStep(ev);
      var op, used := ParseHead(ev).value.0, ParseHead(ev).value.1;
      var rest := Parse(ev[used..]).value;
      calc {
        Lower(ops);
        { assert ops == [op] + rest; }
        Lower([op] + rest);
        { LowerCons(op, rest); }
        LowerOp(op) + Lower(rest);
        { ParseHeadEvents(ev); LowerParse(ev[used..], rest); }
        ev[..used] + ev[used..];
        ev;
      }
    }
  }

  /** A non-empty trace that parses is its head op followed by the parse of
      the events after it. */
  lemma ParseStep(ev: seq<Event>)
    requires ev != [] && Parse(ev).Some?
    ensures ParseHead(ev).Some? && Parse(ev[ParseHead(ev).value.1..]).Some?
    ensures Parse(ev).value == [ParseHead(ev).value.0] + Parse(ev[ParseHead(ev).value.1..]).value
  {
  }

  /** The events Parse reads as the head op are exactly that op's events. */
  lemma ParseHeadEvents(ev: seq<Event>)
    requires ev != [] && ParseHead(ev).Some?
    ensures ev[..ParseHead(ev).value.1] == LowerOp(ParseHead(ev).value.0)
  {
    if ev[0] == CsLow {
      var n := XferRun(ev[1..]);
      var bs := Bytes(ev[1..1 + n]);
      assert Xfers(bs) == ev[1..1 + n];
      assert ev[..2 + n] == [CsLow] + ev[1..1 + n] + [CsHigh];
    }
  }
}
