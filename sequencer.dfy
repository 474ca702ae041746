/** The controller seen by the driver, as values.  A Dev is what the driver's
    routines change or observe: the framebuffer, the log of everything sent so
    far and the replies the controller still has to give to register reads.
    Every routine of the driver is a program of primitive Steps (one register
    write, one buffer stream, one busy-wait, ...), and Exec runs a program.
    Views of the log pick out the writes to given registers; ExecWrites says
    that what a view sees after a program depends only on the program. */
module Sequencer {
  import opened Octets
  import opened SegDefs
  import opened Encoders
  import opened Wire
  import opened Bus
  import opened Framebuffer

  /** The log of ops sent, newest op last. */
  datatype Log = Start | Then(before: Log, op: Op)

  /** The log as a sequence, oldest op first. */
  function Ops(l: Log): (ops: seq<Op>)
    ensures l.Then? ==> |ops| > 0 && ops[|ops| - 1] == l.op && ops[..|ops| - 1] == Ops(l.before)
  {
    match l
    case Start => []
    case Then(before, op) => Ops(before) + [op]
  }

  /** A transaction followed by its busy-wait: what writeRegister,
      readRegister and the buffer streams all do. */
  function Txw(l: Log, bytes: seq<byte>): Log
  {
    Then(Then(l, Txn(bytes)), Wait)
  }

  datatype Dev = Dev(buf: seq<byte>, log: Log, replies: seq<byte>)

  /** The framebuffer has its fixed size. */
  predicate Sized(d: Dev) {
    |d.buf| == BUFFER_SIZE
  }

  // ---------------------------------------------------------------------
  // Register reads and the charge-pump poll

  /** Number of non-zero replies: each lets one charge-pump poll finish. */
  function ReadyCount(rs: seq<byte>): nat
  {
    if rs == [] then 0 else (if rs[0] != 0 then 1 else 0) + ReadyCount(rs[1..])
  }

  /** Zero replies before the first non-zero one. */
  function LeadingZeros(rs: seq<byte>): (n: nat)
    requires ReadyCount(rs) > 0
    ensures n < |rs| && rs[n] != 0
    ensures forall k :: 0 <= k < n ==> rs[k] == 0
  {
    if rs[0] != 0 then 0 else 1 + LeadingZeros(rs[1..])
  }

  /** readRegister(address): the read transaction, answered by the next reply. */
  function ReadReg(d: Dev, address: byte): (r: Dev)
    requires d.replies != []
    ensures r.buf == d.buf && r.replies == d.replies[1..]
    ensures r.log == Txw(d.log, ReadBytes(address))
  {
    Dev(d.buf, Txw(d.log, ReadBytes(address)), d.replies[1..])
  }

  /** `n` reads of the charge-pump status register. */
  function Polls(l: Log, n: nat): Log
  {
    if n == 0 then l else Txw(Polls(l, n - 1), ReadBytes(PUMPSTATUS))
  }

  lemma {:induction false} PollsCons(l: Log, n: nat)
    ensures Polls(Txw(l, ReadBytes(PUMPSTATUS)), n) == Polls(l, n + 1)
  {
    if n > 0 {
      PollsCons(l, n - 1);
    }
  }

  /** The charge-pump poll of powerOn: read the status register until it is
      non-zero.  It reads once per leading zero reply and once more, and uses
      up exactly one ready reply. */
  function PollPump(d: Dev): (r: Dev)
    requires ReadyCount(d.replies) > 0
    ensures r.buf == d.buf
    ensures r.replies == d.replies[LeadingZeros(d.replies) + 1..]
    ensures ReadyCount(r.replies) == ReadyCount(d.replies) - 1
    ensures r.log == Polls(d.log, LeadingZeros(d.replies) + 1)
    decreases |d.replies|
  {
    var s := ReadReg(d, PUMPSTATUS);
    if d.replies[0] == 0 then
      var r := PollPump(s);
      PollsCons(d.log, LeadingZeros(s.replies) + 1);
      r
    else s
  }

  /** One read of the poll: on a zero reply the poll goes on from the new
      state, and on a non-zero one it is over. */
  lemma PollStep(d: Dev)
    requires ReadyCount(d.replies) > 0
    ensures d.replies != []
    ensures d.replies[0] == 0 ==>
      ReadyCount(d.replies[1..]) > 0 && PollPump(d) == PollPump(ReadReg(d, PUMPSTATUS))
    ensures d.replies[0] != 0 ==> PollPump(d) == ReadReg(d, PUMPSTATUS)
  {
  }

  // ---------------------------------------------------------------------
  // Steps and programs

  /** The primitive actions the driver's routines are made of. */
  datatype Step =
    | Write(address: byte, v1: int16, v2: int16, v3: int16, v4: int16)  // writeRegister
    | AwaitPump                   // the ready poll at the end of powerOn
    | StreamFrame                 // the stream of writeBuffer: opcode, first 300 bytes
    | StreamFill(color: byte)     // the stream of writeToPreviousBuffer: opcode, 300 x color
    | Busy                        // waitForBusyInactive
    | Sleep(ms: nat)              // delay
    | ResetPin(high: bool)        // digitalWrite(rst, ...)
    | ClearTo(level: byte)        // clear
    | InvertAll                   // invert

  /** Ready replies a program needs: one per charge-pump poll. */
  function Pumps(p: seq<Step>): nat
  {
    if p == [] then 0 else (if p[0].AwaitPump? then 1 else 0) + Pumps(p[1..])
  }

  /** What one step does to the framebuffer. */
  function StepBuf(s: Step, buf: seq<byte>): (r: seq<byte>)
    ensures |r| == |buf|
  {
    match s
    case ClearTo(c) => Cleared(buf, c)
    case InvertAll => Complement(buf)
    case _ => buf
  }

  /** What a program does to the framebuffer. */
  function ProgBuf(p: seq<Step>, buf: seq<byte>): (r: seq<byte>)
    ensures |r| == |buf|
  {
    if p == [] then buf else ProgBuf(p[1..], StepBuf(p[0], buf))
  }

  /** One step. */
  function Run(d: Dev, s: Step): (r: Dev)
    requires |d.buf| >= PAYLOAD_SIZE
    requires s.AwaitPump? ==> ReadyCount(d.replies) > 0
    ensures r.buf == StepBuf(s, d.buf)
    ensures ReadyCount(r.replies) == ReadyCount(d.replies) - (if s.AwaitPump? then 1 else 0)
    ensures !s.AwaitPump? ==> r.replies == d.replies
  {
    match s
    case Write(a, v1, v2, v3, v4) => d.(log := Txw(d.log, RegisterBytes(a, v1, v2, v3, v4)))
    case AwaitPump => PollPump(d)
    case StreamFrame => d.(log := Txw(d.log, [BUFFERWRITE] + d.buf[..PAYLOAD_SIZE]))
    case StreamFill(c) => d.(log := Txw(d.log, [BUFFERWRITE] + Fill(PAYLOAD_SIZE, c)))
    case Busy => d.(log := Then(d.log, Wait))
    case Sleep(ms) => d.(log := Then(d.log, Pause(ms)))
    case ResetPin(high) => d.(log := Then(d.log, Pin(high)))
    case ClearTo(c) => d.(buf := Cleared(d.buf, c))
    case InvertAll => d.(buf := Complement(d.buf))
  }

  /** A program, run step by step from the front. */
  function Exec(d: Dev, p: seq<Step>): (r: Dev)
    requires Sized(d) && ReadyCount(d.replies) >= Pumps(p)
    ensures Sized(r)
    ensures r.buf == ProgBuf(p, d.buf)
    ensures ReadyCount(r.replies) == ReadyCount(d.replies) - Pumps(p)
    ensures Pumps(p) == 0 ==> r.replies == d.replies
    decreases |p|
  {
    if p == [] then d else Exec(Run(d, p[0]), p[1..])
  }

  lemma {:induction false} PumpsAppend(p: seq<Step>, q: seq<Step>)
    ensures Pumps(p + q) == Pumps(p) + Pumps(q)
  {
    if p == [] {
      assert p + q == q;
    } else {
      assert (p + q)[1..] == p[1..] + q;
      PumpsAppend(p[1..], q);
    }
  }

  lemma {:induction false} ProgBufAppend(p: seq<Step>, q: seq<Step>, buf: seq<byte>)
    ensures ProgBuf(p + q, buf) == ProgBuf(q, ProgBuf(p, buf))
  {
    if p == [] {
      assert p + q == q;
    } else {
      assert (p + q)[1..] == p[1..] + q;
      ProgBufAppend(p[1..], q, StepBuf(p[0], buf));
    }
  }

  /** Running two programs one after the other is running their concatenation. */
  lemma {:induction false} ExecAppend(d: Dev, p: seq<Step>, q: seq<Step>)
    requires Sized(d) && ReadyCount(d.replies) >= Pumps(p) + Pumps(q)
    ensures Pumps(p + q) == Pumps(p) + Pumps(q)
    ensures Exec(d, p + q) == Exec(Exec(d, p), q)
    decreases |p|
  {
    PumpsAppend(p, q);
    if p == [] {
      assert p + q == q;
    } else {
      assert (p + q)[0] == p[0];
      assert (p + q)[1..] == p[1..] + q;
      ExecAppend(Run(d, p[0]), p[1..], q);
    }
  }

  /** Running a program is running its first k steps, then the rest. */
  lemma ExecSplit(d: Dev, q: seq<Step>, k: nat)
    requires Sized(d) && k <= |q| && ReadyCount(d.replies) >= Pumps(q)
    ensures Pumps(q) == Pumps(q[..k]) + Pumps(q[k..])
    ensures Exec(d, q) == Exec(Exec(d, q[..k]), q[k..])
  {
    assert q == q[..k] + q[k..];
    PumpsAppend(q[..k], q[k..]);
    ExecAppend(d, q[..k], q[k..]);
  }

  /** Appending one step. */
  lemma ExecSnoc(d: Dev, p: seq<Step>, s: Step)
    requires Sized(d) && ReadyCount(d.replies) >= Pumps(p) + Pumps([s])
    ensures Pumps(p + [s]) == Pumps(p) + Pumps([s])
    ensures Exec(d, p + [s]) == Run(Exec(d, p), s)
  {
    ExecAppend(d, p, [s]);
    assert [s][1..] == [];
  }

  /** The charge-pump poll step, spelled out. */
  lemma RunAwaitPump(d: Dev)
    requires |d.buf| >= PAYLOAD_SIZE && ReadyCount(d.replies) > 0
    ensures Run(d, AwaitPump) ==
      Dev(d.buf, Polls(d.log, LeadingZeros(d.replies) + 1), d.replies[LeadingZeros(d.replies) + 1..])
  {
  }

  /** A program that only appends to the log, followed by the ready poll. */
  lemma ExecThenPoll(d: Dev, p: seq<Step>, log: Log)
    requires Sized(d) && ReadyCount(d.replies) > 0
    requires Pumps(p) == 0 && Exec(d, p) == d.(log := log)
    ensures Pumps(p + [AwaitPump]) == 1
    ensures Exec(d, p + [AwaitPump]) ==
      Dev(d.buf, Polls(log, LeadingZeros(d.replies) + 1), d.replies[LeadingZeros(d.replies) + 1..])
  {
    var d1 := d.(log := log);
    assert Pumps([AwaitPump]) == 1;
    ExecSnoc(d, p, AwaitPump);
    calc {
      Exec(d, p + [AwaitPump]);
      Run(Exec(d, p), AwaitPump);
      Run(d1, AwaitPump);
      { RunAwaitPump(d1); }
      Dev(d.buf, Polls(log, LeadingZeros(d.replies) + 1), d.replies[LeadingZeros(d.replies) + 1..]);
    }
  }

  /** A one-step program runs its step. */
  lemma ExecOne(d: Dev, s: Step)
    requires Sized(d) && (s.AwaitPump? ==> ReadyCount(d.replies) > 0)
    ensures Pumps([s]) == if s.AwaitPump? then 1 else 0
    ensures Exec(d, [s]) == Run(d, s)
  {
    assert [s][1..] == [];
  }

  /** A program runs its first step, then the rest. */
  lemma ExecCons(d: Dev, s: Step, p: seq<Step>)
    requires Sized(d) && ReadyCount(d.replies) >= Pumps([s] + p)
    ensures Pumps([s] + p) == Pumps([s]) + Pumps(p)
    ensures Pumps([s]) == if s.AwaitPump? then 1 else 0
    ensures Exec(d, [s] + p) == Exec(Run(d, s), p)
  {
    PumpsAppend([s], p);
    assert [s][1..] == [];
    assert ([s] + p)[0] == s && ([s] + p)[1..] == p;
  }

  /** Short programs without polls, run step by step. */
  lemma ExecTwo(d: Dev, a: Step, b: Step)
    requires Sized(d) && !a.AwaitPump? && !b.AwaitPump?
    ensures Pumps([a, b]) == 0
    ensures Exec(d, [a, b]) == Run(Run(d, a), b)
  {
    assert [a, b] == [a] + [b];
    PumpsNone([a, b]);
    ExecCons(d, a, [b]);
    ExecOne(Run(d, a), b);
  }

  lemma ExecThree(d: Dev, a: Step, b: Step, c: Step)
    requires Sized(d) && !a.AwaitPump? && !b.AwaitPump? && !c.AwaitPump?
    ensures Pumps([a, b, c]) == 0
    ensures Exec(d, [a, b, c]) == Run(Run(Run(d, a), b), c)
  {
    assert [a, b, c] == [a] + [b, c];
    PumpsNone([a, b, c]);
    ExecTwo(Run(d, a), b, c);
    ExecCons(d, a, [b, c]);
  }

  lemma ExecFour(d: Dev, a: Step, b: Step, c: Step, e: Step)
    requires Sized(d) && !a.AwaitPump? && !b.AwaitPump? && !c.AwaitPump? && !e.AwaitPump?
    ensures Pumps([a, b, c, e]) == 0
    ensures Exec(d, [a, b, c, e]) == Run(Run(Run(Run(d, a), b), c), e)
  {
    assert [a, b, c, e] == [a] + [b, c, e];
    PumpsNone([a, b, c, e]);
    ExecThree(Run(d, a), b, c, e);
    ExecCons(d, a, [b, c, e]);
  }

  lemma ExecFive(d: Dev, a: Step, b: Step, c: Step, e: Step, f: Step)
    requires Sized(d) && !a.AwaitPump? && !b.AwaitPump? && !c.AwaitPump? && !e.AwaitPump? && !f.AwaitPump?
    ensures Pumps([a, b, c, e, f]) == 0
    ensures Exec(d, [a, b, c, e, f]) == Run(Run(Run(Run(Run(d, a), b), c), e), f)
  {
    assert [a, b, c, e, f] == [a] + [b, c, e, f];
    PumpsNone([a, b, c, e, f]);
    ExecFour(Run(d, a), b, c, e, f);
    ExecCons(d, a, [b, c, e, f]);
  }

  /** Appending a step that needs no ready reply to a program that needs none. */
  lemma ExecSnocQuiet(d: Dev, p: seq<Step>, s: Step)
    requires Sized(d) && Pumps(p) == 0 && !s.AwaitPump?
    ensures Pumps(p + [s]) == 0
    ensures Exec(d, p + [s]) == Run(Exec(d, p), s)
  {
    assert Pumps([s]) == 0 by {
      assert [s][1..] == [];
    }
    ExecSnoc(d, p, s);
  }

  /** `n` iterations of a k-step count are one fewer iterations and one more. */
  lemma MulPred(n: nat, k: nat)
    requires n > 0
    ensures n * k == (n - 1) * k + k
  {
  }

  /** `body` run `n` times in a row: the state after `n` iterations of a
      loop. */
  function Iterate(d: Dev, body: seq<Step>, n: nat): (r: Dev)
    requires Sized(d) && ReadyCount(d.replies) >= n * Pumps(body)
    ensures Sized(r) && ReadyCount(r.replies) == ReadyCount(d.replies) - n * Pumps(body)
  {
    if n == 0 then d
    else
      var r := Iterate(d, body, n - 1);
      MulPred(n, Pumps(body));
      Exec(r, body)
  }

  /** Iterating is running the repetition. */
  lemma {:induction false} IterateRepeat(d: Dev, body: seq<Step>, n: nat)
    requires Sized(d) && ReadyCount(d.replies) >= n * Pumps(body)
    ensures Pumps(Repeat(body, n)) == n * Pumps(body)
    ensures Exec(d, Repeat(body, n)) == Iterate(d, body, n)
  {
    PumpsRepeat(body, n);
    if n > 0 {
      var k, r := Pumps(body), Repeat(body, n - 1);
      PumpsRepeat(body, n - 1);
      MulPred(n, k);
      assert ReadyCount(d.replies) >= Pumps(r) + Pumps(body);
      IterateRepeat(d, body, n - 1);
      ExecAppend(d, r, body);
      assert Repeat(body, n) == r + body;
    }
  }

  /** A program made of a prologue, `n` iterations of a loop body and an
      epilogue runs the prologue, iterates, then runs the epilogue. */
  lemma ExecLoop(d: Dev, pre: seq<Step>, body: seq<Step>, n: nat, post: seq<Step>)
    requires Sized(d) && ReadyCount(d.replies) >= Pumps(pre) + n * Pumps(body) + Pumps(post)
    ensures Pumps(pre + Repeat(body, n) + post) == Pumps(pre) + n * Pumps(body) + Pumps(post)
    ensures Exec(d, pre + Repeat(body, n) + post) == Exec(Iterate(Exec(d, pre), body, n), post)
  {
    var r := Repeat(body, n);
    PumpsRepeat(body, n);
    ExecAppend(d, pre, r);
    ExecAppend(d, pre + r, post);
    IterateRepeat(Exec(d, pre), body, n);
  }

  /** Steps that leave the framebuffer alone. */
  predicate KeepsBuf(s: Step) {
    !s.ClearTo? && !s.InvertAll?
  }

  /** A program of such steps leaves the framebuffer alone. */
  lemma {:induction false} ProgBufKept(p: seq<Step>, buf: seq<byte>)
    requires forall i :: 0 <= i < |p| ==> KeepsBuf(p[i])
    ensures ProgBuf(p, buf) == buf
    decreases |p|
  {
    if p != [] {
      ProgBufKept(p[1..], buf);
    }
  }

  /** A program without charge-pump polls needs no ready reply. */
  lemma {:induction false} PumpsNone(p: seq<Step>)
    requires forall i :: 0 <= i < |p| ==> !p[i].AwaitPump?
    ensures Pumps(p) == 0
    decreases |p|
  {
    if p != [] {
      PumpsNone(p[1..]);
    }
  }

  /** `n` copies of `xs`, one after another. */
  function Repeat<T>(xs: seq<T>, n: nat): seq<T>
  {
    if n == 0 then [] else Repeat(xs, n - 1) + xs
  }

  lemma {:induction false} RepeatEmpty<T>(n: nat)
    ensures Repeat<T>([], n) == []
  {
    if n > 0 {
      RepeatEmpty<T>(n - 1);
    }
  }

  lemma {:induction false} RepeatLength<T>(xs: seq<T>, n: nat)
    ensures |Repeat(xs, n)| == n * |xs|
  {
    if n > 0 {
      RepeatLength(xs, n - 1);
    }
  }

  /** m copies followed by n copies are m + n copies. */
  lemma {:induction false} RepeatAdd<T>(xs: seq<T>, m: nat, n: nat)
    ensures Repeat(xs, m) + Repeat(xs, n) == Repeat(xs, m + n)
    decreases n
  {
    if n == 0 {
      assert Repeat(xs, m) + [] == Repeat(xs, m);
    } else {
      RepeatAdd(xs, m, n - 1);
      assert Repeat(xs, m) + (Repeat(xs, n - 1) + xs) == (Repeat(xs, m) + Repeat(xs, n - 1)) + xs;
    }
  }

  /** n copies of m copies are m * n copies. */
  lemma {:induction false} RepeatRepeat<T>(xs: seq<T>, m: nat, n: nat)
    ensures Repeat(Repeat(xs, m), n) == Repeat(xs, m * n)
  {
    if n > 0 {
      RepeatRepeat(xs, m, n - 1);
      RepeatAdd(xs, m * (n - 1), m);
      assert m * (n - 1) + m == m * n;
    }
  }

  lemma {:induction false} PumpsRepeat(p: seq<Step>, n: nat)
    ensures Pumps(Repeat(p, n)) == n * Pumps(p)
  {
    if n > 0 {
      PumpsRepeat(p, n - 1);
      PumpsAppend(Repeat(p, n - 1), p);
    }
  }

  // ---------------------------------------------------------------------
  // Views of the log

  /** The transaction of `op`, if it is addressed to one of `regs`. */
  function Pick(op: Op, regs: set<byte>): seq<seq<byte>>
  {
    if op.Txn? && |op.bytes| > 0 && op.bytes[0] in regs then [op.bytes] else []
  }

  /** Every transaction of the log addressed to one of `regs`, oldest first
      (the address byte is kept). */
  function Writes(l: Log, regs: set<byte>): seq<seq<byte>>
  {
    match l
    case Start => []
    case Then(before, op) => Writes(before, regs) + Pick(op, regs)
  }

  /** A view: register addresses only, and not the buffer-stream opcode. */
  predicate IsView(regs: set<byte>) {
    forall a :: a in regs ==> a < REGREAD && a != BUFFERWRITE
  }

  /** Display-engine trigger writes (one per rendered pass). */
  const TRIGGERS: set<byte> := {DISPLAYENGINE}
  /** Common-voltage (TPCOM) writes. */
  const TPCOMS: set<byte> := {TPCOM}
  /** Source-voltage (driver-voltage register) writes. */
  const SOURCE_VOLTS: set<byte> := {DRIVERVOLTAGE}
  /** Power-control and display-engine writes, in order. */
  const RAILS: set<byte> := {POWERCONTROL, DISPLAYENGINE}

  /** What a view sees of one step: only register writes to its registers. */
  function StepWrites(s: Step, regs: set<byte>): seq<seq<byte>>
  {
    if s.Write? && s.address in regs then [RegisterBytes(s.address, s.v1, s.v2, s.v3, s.v4)] else []
  }

  /** What a view sees of a program. */
  function ProgWrites(p: seq<Step>, regs: set<byte>): seq<seq<byte>>
  {
    if p == [] then [] else StepWrites(p[0], regs) + ProgWrites(p[1..], regs)
  }

  lemma {:induction false} ProgWritesAppend(p: seq<Step>, q: seq<Step>, regs: set<byte>)
    ensures ProgWrites(p + q, regs) == ProgWrites(p, regs) + ProgWrites(q, regs)
  {
    if p == [] {
      assert p + q == q;
    } else {
      assert (p + q)[1..] == p[1..] + q;
      ProgWritesAppend(p[1..], q, regs);
    }
  }

  /** The view of three and of four programs run one after another. */
  lemma ProgWrites3(a: seq<Step>, b: seq<Step>, c: seq<Step>, regs: set<byte>)
    ensures ProgWrites(a + b + c, regs) == ProgWrites(a, regs) + ProgWrites(b, regs) + ProgWrites(c, regs)
  {
    ProgWritesAppend(a, b, regs);
    ProgWritesAppend(a + b, c, regs);
  }

  lemma ProgWrites4(a: seq<Step>, b: seq<Step>, c: seq<Step>, e: seq<Step>, regs: set<byte>)
    ensures ProgWrites(a + b + c + e, regs) ==
      ProgWrites(a, regs) + ProgWrites(b, regs) + ProgWrites(c, regs) + ProgWrites(e, regs)
  {
    ProgWrites3(a, b, c, regs);
    ProgWritesAppend(a + b + c, e, regs);
  }

  /** The view of four programs in a row whose third is invisible to it. */
  lemma ProgWritesSkipThird(a: seq<Step>, b: seq<Step>, c: seq<Step>, e: seq<Step>, regs: set<byte>)
    requires ProgWrites(c, regs) == []
    ensures ProgWrites(a + b + c + e, regs) == ProgWrites(a, regs) + ProgWrites(b, regs) + ProgWrites(e, regs)
  {
    ProgWrites4(a, b, c, e, regs);
    DropThird(ProgWrites(a, regs), ProgWrites(b, regs), ProgWrites(c, regs), ProgWrites(e, regs));
  }

  /** The view of three programs in a row whose first is invisible to it. */
  lemma ProgWritesSkip(a: seq<Step>, b: seq<Step>, c: seq<Step>, regs: set<byte>)
    requires ProgWrites(a, regs) == []
    ensures ProgWrites(a + b + c, regs) == ProgWrites(b, regs) + ProgWrites(c, regs)
  {
    ProgWrites3(a, b, c, regs);
    assert [] + ProgWrites(b, regs) == ProgWrites(b, regs);
  }

  /** Sequence algebra for assembling views. */
  lemma Regroup<T>(w1: seq<T>, w2: seq<T>, w3: seq<T>, w4: seq<T>)
    ensures w1 + w2 + w3 + w4 == w1 + (w2 + w3 + w4)
  {
  }

  /** A seven-element list split after its fourth element. */
  lemma Split43<T>(a: T, b: T, c: T, e: T, f: T, g: T, h: T)
    ensures [a, b, c, e] + [f, g, h] == [a, b, c, e, f, g, h]
  {
  }

  /** A ten-element list split after its fifth element. */
  lemma Split55<T>(a: T, b: T, c: T, e: T, f: T, g: T, h: T, i: T, j: T, k: T)
    ensures [a, b, c, e, f] + [g, h, i, j, k] == [a, b, c, e, f, g, h, i, j, k]
  {
  }

  lemma Assoc<T>(w1: seq<T>, w2: seq<T>, w3: seq<T>)
    ensures w1 + w2 + w3 == w1 + (w2 + w3)
  {
  }

  /** Empty parts drop out. */
  lemma DropOuter<T>(w1: seq<T>, w2: seq<T>, w3: seq<T>, w4: seq<T>)
    requires w1 == [] && w4 == []
    ensures w1 + w2 + w3 + w4 == w2 + w3
  {
  }

  lemma DropThird<T>(w1: seq<T>, w2: seq<T>, w3: seq<T>, w4: seq<T>)
    requires w3 == []
    ensures w1 + w2 + w3 + w4 == w1 + w2 + w4
  {
  }

  lemma DropLast<T>(w1: seq<T>, w2: seq<T>)
    requires w2 == []
    ensures w1 + w2 == w1
  {
  }

  lemma DropEvens<T>(w1: seq<T>, w2: seq<T>, w3: seq<T>, w4: seq<T>)
    requires w2 == [] && w4 == []
    ensures w1 + w2 + w3 + w4 == w1 + w3
  {
  }

  lemma {:induction false} ProgWritesRepeat(p: seq<Step>, n: nat, regs: set<byte>)
    ensures ProgWrites(Repeat(p, n), regs) == Repeat(ProgWrites(p, regs), n)
  {
    if n > 0 {
      ProgWritesRepeat(p, n - 1, regs);
      ProgWritesAppend(Repeat(p, n - 1), p, regs);
    }
  }

  /** A program none of whose steps writes to `regs` is invisible to that view. */
  lemma {:induction false} ProgWritesNone(p: seq<Step>, regs: set<byte>)
    requires forall i :: 0 <= i < |p| ==> StepWrites(p[i], regs) == []
    ensures ProgWrites(p, regs) == []
    decreases |p|
  {
    if p != [] {
      ProgWritesNone(p[1..], regs);
    }
  }

  /** A view that sees one step of a program sees exactly that step's write. */
  lemma {:induction false} ProgWritesOne(p: seq<Step>, k: nat, regs: set<byte>)
    requires k < |p|
    requires forall i :: 0 <= i < |p| && i != k ==> StepWrites(p[i], regs) == []
    ensures ProgWrites(p, regs) == StepWrites(p[k], regs)
    decreases |p|
  {
    var q := p[1..];
    assert ProgWrites(p, regs) == StepWrites(p[0], regs) + ProgWrites(q, regs);
    if k == 0 {
      forall i | 0 <= i < |q| ensures StepWrites(q[i], regs) == [] {
        assert q[i] == p[i + 1];
      }
      ProgWritesNone(q, regs);
      assert StepWrites(p[0], regs) + [] == StepWrites(p[0], regs);
    } else {
      forall i | 0 <= i < |q| && i != k - 1 ensures StepWrites(q[i], regs) == [] {
        assert q[i] == p[i + 1];
      }
      ProgWritesOne(q, k - 1, regs);
      assert q[k - 1] == p[k];
      assert StepWrites(p[0], regs) == [];
      assert [] + StepWrites(p[k], regs) == StepWrites(p[k], regs);
    }
  }

  /** A view that sees two steps of a program sees their writes, in order. */
  lemma {:induction false} ProgWritesTwo(p: seq<Step>, j: nat, k: nat, regs: set<byte>)
    requires j < k < |p|
    requires forall i :: 0 <= i < |p| && i != j && i != k ==> StepWrites(p[i], regs) == []
    ensures ProgWrites(p, regs) == StepWrites(p[j], regs) + StepWrites(p[k], regs)
    decreases |p|
  {
    var q := p[1..];
    assert ProgWrites(p, regs) == StepWrites(p[0], regs) + ProgWrites(q, regs);
    assert q[k - 1] == p[k];
    if j == 0 {
      forall i | 0 <= i < |q| && i != k - 1 ensures StepWrites(q[i], regs) == [] {
        assert q[i] == p[i + 1];
      }
      ProgWritesOne(q, k - 1, regs);
    } else {
      forall i | 0 <= i < |q| && i != j - 1 && i != k - 1 ensures StepWrites(q[i], regs) == [] {
        assert q[i] == p[i + 1];
      }
      ProgWritesTwo(q, j - 1, k - 1, regs);
      assert q[j - 1] == p[j];
      assert StepWrites(p[0], regs) == [];
      assert [] + (StepWrites(p[j], regs) + StepWrites(p[k], regs)) == StepWrites(p[j], regs) + StepWrites(p[k], regs);
    }
  }

  /** A one-step program does what its step does to the framebuffer. */
  lemma ProgBufOne(s: Step, buf: seq<byte>)
    ensures ProgBuf([s], buf) == StepBuf(s, buf)
  {
    assert [s][1..] == [];
  }

  /** Repeating a program that leaves a buffer alone leaves it alone. */
  lemma {:induction false} ProgBufRepeat(p: seq<Step>, n: nat, buf: seq<byte>)
    requires ProgBuf(p, buf) == buf
    ensures ProgBuf(Repeat(p, n), buf) == buf
  {
    if n > 0 {
      ProgBufRepeat(p, n - 1, buf);
      ProgBufAppend(Repeat(p, n - 1), p, buf);
    }
  }

  /** The status reads of the poll are invisible to every view. */
  lemma {:induction false} PollsWrites(l: Log, n: nat, regs: set<byte>)
    requires IsView(regs)
    ensures Writes(Polls(l, n), regs) == Writes(l, regs)
  {
    if n > 0 {
      PollsWrites(l, n - 1, regs);
      assert ReadBytes(PUMPSTATUS)[0] !in regs;
    }
  }

  /** A view sees exactly the step's own register write, whatever the state. */
  lemma StepWritesSound(d: Dev, s: Step, regs: set<byte>)
    requires |d.buf| >= PAYLOAD_SIZE && (s.AwaitPump? ==> ReadyCount(d.replies) > 0)
    requires IsView(regs)
    ensures Writes(Run(d, s).log, regs) == Writes(d.log, regs) + StepWrites(s, regs)
  {
    var w := Writes(d.log, regs);
    match s
    case AwaitPump =>
      PollsWrites(d.log, LeadingZeros(d.replies) + 1, regs);
      assert w + [] == w;
    case Write(a, v1, v2, v3, v4) =>
    case StreamFrame =>
      assert w + [] + [] == w + [];
    case StreamFill(c) =>
      assert w + [] + [] == w + [];
    case _ =>
      assert w + [] == w && w + [] + [] == w;
  }

  /** What a view sees after a program depends only on the program. */
  lemma {:induction false} ExecWrites(d: Dev, p: seq<Step>, regs: set<byte>)
    requires Sized(d) && ReadyCount(d.replies) >= Pumps(p)
    requires IsView(regs)
    ensures Writes(Exec(d, p).log, regs) == Writes(d.log, regs) + ProgWrites(p, regs)
    decreases |p|
  {
    if p == [] {
      assert Writes(d.log, regs) + [] == Writes(d.log, regs);
    } else {
      var d1 := Run(d, p[0]);
      StepWritesSound(d, p[0], regs);
      ExecWrites(d1, p[1..], regs);
      assert Exec(d, p) == Exec(d1, p[1..]);
      Assoc(Writes(d.log, regs), StepWrites(p[0], regs), ProgWrites(p[1..], regs));
    }
  }

  lemma ViewsAreViews()
    ensures IsView(TRIGGERS) && IsView(TPCOMS) && IsView(SOURCE_VOLTS) && IsView(RAILS)
  {
  }
}
