/** The driver object.  Its framebuffer is an array updated in place; the
    bus is an append-only log of SPI transactions, busy-waits, delays and
    reset-pin writes; register reads are answered from a queue of replies.
    Every routine is proved to leave the object in the state that running its
    program from Routines gives. */
module Driver {
  import opened Octets
  import opened SegDefs
  import opened Encoders
  import opened Wire
  import opened Bus
  import opened Framebuffer
  import opened Sequencer
  import opened Routines
  import opened Effects

  /** The int8_t pin numbers of the constructor. */
  newtype int8 = x: int | -128 <= x < 128

  /** A pin number of -1 means the pin is not wired. */
  const NO_PIN: int8 := -1

  class SmallSeg {
    const cs: int8
    const rst: int8
    const busy: int8
    /** The framebuffer, 8760 bytes of four 2-bit pixels each. */
    const buffer: array<byte>
    /** Everything sent to the controller so far, grouped into ops. */
    var log: Log
    /** What the controller will answer to the coming register reads. */
    var replies: seq<byte>

    /** The framebuffer has its fixed size. */
    ghost predicate Valid()
      reads this
    {
      buffer.Length == BUFFER_SIZE
    }

    /** The object as a controller state. */
    ghost function View(): Dev
      reads this, buffer
    {
      Dev(buffer[..], log, replies)
    }

    /** PL_smallSEG(cs, rst, busy): records the pins; nothing has been sent.
        The framebuffer has its fixed size from the start. */
    constructor (cs: int8, replies: seq<byte>, rst: int8 := NO_PIN, busy: int8 := NO_PIN)
      ensures Valid() && fresh(buffer)
      ensures this.cs == cs && this.rst == rst && this.busy == busy
      ensures log == Start && this.replies == replies
    {
      this.cs := cs;
      this.rst := rst;
      this.busy := busy;
      buffer := new byte[BUFFER_SIZE];
      log := Start;
      this.replies := replies;
    }

    /** waitForBusyInactive(): one busy-wait. */
    method WaitForBusyInactive()
      requires Valid()
      modifies this
      ensures Valid() && View() == Run(old(View()), Busy)
    {
      log := Then(log, Wait);
    }

    /** Arduino's delay(ms). */
    method DelayMs(ms: nat)
      requires Valid()
      modifies this
      ensures Valid() && View() == Run(old(View()), Sleep(ms))
    {
      log := Then(log, Pause(ms));
    }

    /** digitalWrite(rst, level). */
    method WriteResetPin(high: bool)
      requires Valid()
      modifies this
      ensures Valid() && View() == Run(old(View()), ResetPin(high))
    {
      log := Then(log, Pin(high));
    }

    /** writeRegister(address, val1, val2, val3, val4): while chip-select is
        low, the address and every operand that is not -1, as its low byte;
        then a busy-wait. */
    method WriteRegister(address: byte, val1: int16, val2: int16, val3: int16, val4: int16)
      requires Valid()
      modifies this
      ensures Valid() && log == Txw(old(log), RegisterBytes(address, val1, val2, val3, val4))
      ensures View() == Run(old(View()), Write(address, val1, val2, val3, val4))
    {
      var sent: seq<byte> := [address];
      sent := SendOperand(sent, val1);
      sent := SendOperand(sent, val2);
      sent := SendOperand(sent, val3);
      sent := SendOperand(sent, val4);
      assert sent == RegisterBytes(address, val1, val2, val3, val4);
      log := Then(log, Txn(sent));
      WaitForBusyInactive();
    }

    /** One operand slot of writeRegister: its low byte is clocked out
        unless it is -1. */
    static method SendOperand(sent: seq<byte>, v: int16) returns (more: seq<byte>)
      ensures more == sent + Operand(v)
    {
      more := sent;
      if v != ABSENT {
        more := more + [LowByte(v)];
      }
    }

    /** readRegister(address): the address with the read flag, then the filler
        byte during which the reply arrives; a busy-wait; the reply. */
    method ReadRegister(address: byte) returns (data: byte)
      requires Valid() && replies != []
      modifies this
      ensures Valid() && View() == ReadReg(old(View()), address)
      ensures data == old(replies)[0]
    {
      var sent := [address | REGREAD, 0xFF];
      data := replies[0];
      replies := replies[1..];
      log := Then(log, Txn(sent));
      WaitForBusyInactive();
    }

    /** writeBuffer(previous): the pixel origin, the entry mode of the current
        or the previous device buffer, then the stream opcode and the first
        300 framebuffer bytes in one transaction. */
    method WriteBuffer(previous: bool := false)
      requires Valid()
      modifies this
      ensures Pumps(WriteBufferProg(previous)) == 0
      ensures Valid() && View() == Exec(old(View()), WriteBufferProg(previous))
    {
      WriteBufferEffect(View(), previous);
      WriteRegister(PIXELACESSPOS, 0, 0, ABSENT, ABSENT);
      if previous {
        WriteRegister(DATENTRYMODE, 0x30, ABSENT, ABSENT, ABSENT);
      } else {
        WriteRegister(DATENTRYMODE, 0x20, ABSENT, ABSENT, ABSENT);
      }
      RegisterBytesCases(PIXELACESSPOS, 0, 0, ABSENT, ABSENT);
      RegisterBytesCases(DATENTRYMODE, if previous then 0x30 else 0x20, ABSENT, ABSENT, ABSENT);
      var sent := [BUFFERWRITE];
      for i := 0 to PAYLOAD_SIZE
        invariant sent == [BUFFERWRITE] + buffer[..i]
      {
        sent := sent + [buffer[i]];
      }
      log := Then(log, Txn(sent));
      WaitForBusyInactive();
    }

    /** writeToPreviousBuffer(color): the same into the previous device
        buffer, with 300 copies of `color` in place of the framebuffer. */
    method WriteToPreviousBuffer(color: byte := BLACK)
      requires Valid()
      modifies this
      ensures Pumps(WriteToPreviousProg(color)) == 0
      ensures Valid() && View() == Exec(old(View()), WriteToPreviousProg(color))
    {
      WriteToPreviousEffect(View(), color);
      WriteRegister(PIXELACESSPOS, 0, 0, ABSENT, ABSENT);
      WriteRegister(DATENTRYMODE, 0x30, ABSENT, ABSENT, ABSENT);
      RegisterBytesCases(PIXELACESSPOS, 0, 0, ABSENT, ABSENT);
      RegisterBytesCases(DATENTRYMODE, 0x30, ABSENT, ABSENT, ABSENT);
      var sent := [BUFFERWRITE];
      for i := 0 to PAYLOAD_SIZE
        invariant sent == [BUFFERWRITE] + Fill(i, color)
      {
        assert Fill(i + 1, color) == Fill(i, color) + [color];
        sent := sent + [color];
      }
      log := Then(log, Txn(sent));
      WaitForBusyInactive();
    }

    /** powerOn(): a busy-wait and the four pump-configuration writes, then
        the pump status is read until it is non-zero. */
    method PowerOn()
      requires Valid() && ReadyCount(replies) > 0
      modifies this
      ensures Pumps(PowerOnProg()) == 1
      ensures Valid() && View() == Exec(old(View()), PowerOnProg())
    {
      ghost var v0 := View();
      ghost var q := PowerOnSetupProg();
      PowerOnCounts(v0.buf);
      WaitForBusyInactive();
      WriteRegister(SETRESOLUTION, 0, 239, 0, 4);
      WriteRegister(TCOMTIMING, 0xFF, 0xFF, ABSENT, ABSENT);
      WriteRegister(POWERSEQUENCE, 0x00, 0x00, 0x00, ABSENT);
      WriteRegister(POWERCONTROL, 0x51, ABSENT, ABSENT, ABSENT);
      ExecFive(v0, Busy, Write(SETRESOLUTION, 0, 239, 0, 4), Write(TCOMTIMING, 0xFF, 0xFF, ABSENT, ABSENT),
        Write(POWERSEQUENCE, 0x00, 0x00, 0x00, ABSENT), Write(POWERCONTROL, 0x51, ABSENT, ABSENT, ABSENT));
      AwaitPumpReady();
      ExecSnoc(v0, q, AwaitPump);
    }

    /** The last line of powerOn: read the pump status until it is non-zero. */
    method AwaitPumpReady()
      requires Valid() && ReadyCount(replies) > 0
      modifies this
      ensures Valid() && View() == Run(old(View()), AwaitPump)
    {
      ghost var s0 := View();
      PollStep(s0);
      var data := ReadRegister(PUMPSTATUS);
      while data == 0
        invariant Valid()
        invariant data == 0 ==> ReadyCount(replies) > 0 && PollPump(View()) == PollPump(s0)
        invariant data != 0 ==> View() == PollPump(s0)
        decreases |replies|
      {
        PollStep(View());
        data := ReadRegister(PUMPSTATUS);
      }
    }

    /** powerOff(): the two power-down writes, each followed by one more
        busy-wait. */
    method PowerOff()
      requires Valid()
      modifies this
      ensures Pumps(PowerOffProg()) == 0
      ensures Valid() && View() == Exec(old(View()), PowerOffProg())
    {
      ghost var v0 := View();
      ghost var p := PowerOffProg();
      WriteRegister(POWERCONTROL, 0x10, ABSENT, ABSENT, ABSENT);
      WaitForBusyInactive();
      WriteRegister(POWERCONTROL, 0xC0, ABSENT, ABSENT, ABSENT);
      WaitForBusyInactive();
      ExecFour(v0, p[0], p[1], p[2], p[3]);
    }

    /** The switch of update(updateMode): modes 0 and 1 start the full
        waveform, mode 2 the mono one, any other mode nothing. */
    method Trigger(updateMode: int)
      requires Valid()
      modifies this
      ensures Pumps(TriggerProg(updateMode)) == 0
      ensures Valid() && View() == Exec(old(View()), TriggerProg(updateMode))
    {
      ghost var v0 := View();
      ghost var p := TriggerProg(updateMode);
      if updateMode == 0 {
        WriteRegister(PROGRAMMTP, 0x00, ABSENT, ABSENT, ABSENT);
        WriteRegister(DISPLAYENGINE, 0x03, ABSENT, ABSENT, ABSENT);
        WaitForBusyInactive();
      } else if updateMode == 1 {
        WriteRegister(PROGRAMMTP, 0x00, ABSENT, ABSENT, ABSENT);
        WriteRegister(DISPLAYENGINE, 0x03, ABSENT, ABSENT, ABSENT);
        WaitForBusyInactive();
      } else if updateMode == 2 {
        WriteRegister(PROGRAMMTP, 0x02, ABSENT, ABSENT, ABSENT);
        WriteRegister(DISPLAYENGINE, 0x07, ABSENT, ABSENT, ABSENT);
        WaitForBusyInactive();
      }
      if p != [] {
        ExecThree(v0, p[0], p[1], p[2]);
      }
    }

    /** update(updateMode, manPow): send the frame, and unless the caller
        manages power, power on before the trigger and off after it. */
    method Update(updateMode: int := UPD_FULL, manPow: bool := false)
      requires Valid() && (manPow || ReadyCount(replies) > 0)
      modifies this
      ensures Pumps(UpdateProg(updateMode, manPow)) == if manPow then 0 else 1
      ensures Valid() && View() == Exec(old(View()), UpdateProg(updateMode, manPow))
    {
      ghost var v0 := View();
      ghost var a, b, c, e := WriteBufferProg(false), (if manPow then [] else PowerOnProg()),
        TriggerProg(updateMode), (if manPow then [] else PowerOffProg());
      UpdateCounts(updateMode, manPow, v0.buf);
      PowerOnCounts(v0.buf);
      WriteBuffer();
      ghost var v1 := View();
      if !manPow {
        PowerOn();
      }
      ghost var v2 := View();
      Trigger(updateMode);
      ghost var v3 := View();
      if !manPow {
        PowerOff();
      }
      ExecAppend(v0, a, b);
      ExecAppend(v0, a + b, c);
      ExecAppend(v0, a + b + c, e);
    }

    /** setTPCOM(v): the step count |v| / 30 as two bytes, low first, with
        0x04 or-ed into the high byte for a negative voltage. */
    method SetTpcom(v: int)
      requires Valid()
      modifies this
      ensures Valid() && View() == Run(old(View()), TpcomWrite(v))
    {
      if v >= 0 {
        var w := Quot(v, 30);
        WriteRegister(TPCOM, Widen(Lo(w)), Widen(Hi(w)), ABSENT, ABSENT);
      } else {
        var w := Quot(v, 30) * -1;
        WriteRegister(TPCOM, Widen(Lo(w)), Widen(Hi(w) | 4), ABSENT, ABSENT);
      }
    }

    /** setSourceVoltage(v): k = 2 * (v / 1000 - 8), in 16-bit arithmetic,
        sent as (k << 4) | k after the fixed operand 0x25. */
    method SetSourceVoltage(v: int)
      requires Valid()
      modifies this
      ensures Valid() && View() == Run(old(View()), SourceVoltageWrite(v))
    {
      var w := Quot(v, 1000);
      var k: int16 := (Low16(w) - 8) * 2;
      var x := k << 4;
      x := x | k;
      WriteRegister(DRIVERVOLTAGE, 0x25, x, ABSENT, ABSENT);
    }

    /** One of the fill loops of clear. */
    method FillBuffer(value: byte)
      requires Valid()
      modifies buffer
      ensures buffer[..] == Fill(BUFFER_SIZE, value)
    {
      for i := 0 to buffer.Length
        invariant buffer[..i] == Fill(i, value)
      {
        buffer[i] := value;
        assert buffer[..i + 1] == buffer[..i] + [value];
      }
      assert buffer[..] == buffer[..buffer.Length];
    }

    /** clear(c): fills the framebuffer with white, light gray, dark gray or
        black; any other byte leaves it alone. */
    method Clear(c: byte := WHITE)
      requires Valid()
      modifies buffer
      ensures Valid() && View() == Run(old(View()), ClearTo(c))
    {
      if c == WHITE {
        FillBuffer(0xFF);
      } else if c == LGRAY {
        FillBuffer(0xAA);
      } else if c == DGRAY {
        FillBuffer(0x55);
      } else if c == BLACK {
        FillBuffer(0x00);
      }
    }

    /** invert(b2): every framebuffer byte complemented; b2 is not used. */
    method Invert(b2: bool := false)
      requires Valid()
      modifies buffer
      ensures Valid() && View() == Run(old(View()), InvertAll)
    {
      for i := 0 to buffer.Length
        invariant forall k :: 0 <= k < i ==> buffer[k] == !old(buffer[k])
        invariant forall k :: i <= k < buffer.Length ==> buffer[k] == old(buffer[k])
      {
        buffer[i] := !buffer[i];
      }
      assert buffer[..] == Complement(old(buffer[..]));
    }

    /** The five stores of drawSegments: byte `j` of the first row and the
        same byte of the four rows below it. */
    method StoreRows(j: nat, v: byte)
      requires Valid() && j < ROW_STRIDE
      modifies buffer
      ensures buffer[..] == old(buffer[..])[j := v][j + 60 := v][j + 120 := v][j + 180 := v][j + 240 := v]
    {
      buffer[j] := v;
      buffer[j + 60] := v;
      buffer[j + 120] := v;
      buffer[j + 180] := v;
      buffer[j + 240] := v;
    }

    /** drawSegments(segments, color): for every bit set among the low 22 of
        the mask, the segment's 2-bit field in the first row is set to the
        color, and that byte is copied into the four replica rows. */
    method DrawSegments(segments: bv32, color: byte := BLACK)
      requires Valid()
      modifies buffer
      ensures Valid() && buffer[..] == Drawn(old(buffer[..]), segments, color)
      ensures log == old(log) && replies == old(replies)
    {
      ghost var b0 := buffer[..];
      for i := 0 to SEGMENTS
        invariant buffer[..] == DrawPrefix(b0, segments, color, i)
      {
        if BitSet(segments, i) {
          DrawSegmentAt(i, color);
        }
      }
    }

    /** One iteration of drawSegments' loop for a set bit: merge the color into
        the segment's field and store the byte in all five rows. */
    method DrawSegmentAt(i: nat, color: byte)
      requires Valid() && i < SEGMENTS
      modifies buffer
      ensures buffer[..] == SetSegment(old(buffer[..]), i, color)
    {
      ghost var b := buffer[..];
      var s := SEG_MAPPING[i] as int;
      var j := s / 4;
      var newValue := MergeByte(buffer[j], s % 4, color);
      assert j == SegmentByte(i) && newValue == MergeField(b[j], SegmentField(i), color);
      StoreRows(j, newValue);
      SetSegmentStores(b, i, color);
    }

    /** drawSegments' computation of the new byte: the switch on the field
        `f` choosing mask and shift, proved equal to its specification
        `Framebuffer.MergeField` (the field cleared and the color shifted
        into it), whose effect on the four fields `MergeFieldFields` states. */
    method MergeByte(seg: byte, f: int, color: byte) returns (newValue: byte)
      requires 0 <= f < 4
      ensures newValue == MergeField(seg, f, color)
    {
      if f == 0 {
        newValue := (seg & 0x3F) | (color << 6);
      } else if f == 1 {
        newValue := (seg & 0xCF) | (color << 4);
      } else if f == 2 {
        newValue := (seg & 0xF3) | (color << 2);
      } else {
        newValue := (seg & 0xFC) | color;
      }
    }

    /** writeToPreviousBuffer(fill) then update(mode): one pass of the
        multi-pass routines. */
    method Pass(fill: byte, mode: int)
      requires Valid() && ReadyCount(replies) > 0
      modifies this
      ensures Pumps(PassProg(fill, mode)) == 1
      ensures Valid() && View() == Exec(old(View()), PassProg(fill, mode))
    {
      ghost var v0 := View();
      PassCounts(fill, mode, v0.buf);
      UpdateCounts(mode, false, v0.buf);
      WriteToPreviousBuffer(fill);
      Update(mode);
      ExecAppend(v0, WriteToPreviousProg(fill), UpdateProg(mode, false));
    }

    /** The BLACK case of updateLegio. */
    method LegioBlack()
      requires Valid() && ReadyCount(replies) >= 10
      modifies this, buffer
      ensures Pumps(BlackProg()) == 10
      ensures Valid() && View() == Exec(old(View()), BlackProg())
    {
      ghost var v0 := View();
      ghost var pre := [TpcomWrite(0), SourceVoltageWrite(13000)] + [InvertAll];
      ghost var pass := PassProg(LGRAY, UPD_FULL);
      BlackCounts(v0.buf);
      PassCounts(LGRAY, UPD_FULL, v0.buf);
      PumpsAppend(pass, pass);
      SetTpcom(0);
      SetSourceVoltage(13000);
      Invert();
      ExecThree(v0, TpcomWrite(0), SourceVoltageWrite(13000), InvertAll);
      assert pre == [TpcomWrite(0), SourceVoltageWrite(13000), InvertAll];
      BlackRounds();
      ghost var v2 := View();
      Invert();
      ExecOne(v2, InvertAll);
      ExecLoop(v0, pre, pass + pass, 5, [InvertAll]);
      assert pre + Repeat(pass + pass, 5) + [InvertAll] == BlackProg();
    }

    /** The five rounds of two light-gray passes of the BLACK case. */
    method BlackRounds()
      requires Valid() && ReadyCount(replies) >= 10
      modifies this
      ensures Pumps(PassProg(LGRAY, UPD_FULL) + PassProg(LGRAY, UPD_FULL)) == 2
      ensures Valid() && View() == Iterate(old(View()), PassProg(LGRAY, UPD_FULL) + PassProg(LGRAY, UPD_FULL), 5)
    {
      ghost var v0 := View();
      ghost var pass := PassProg(LGRAY, UPD_FULL);
      PassCounts(LGRAY, UPD_FULL, v0.buf);
      PumpsAppend(pass, pass);
      for i := 0 to 5
        invariant Valid()
        invariant View() == Iterate(v0, pass + pass, i)
      {
        assert Pumps(pass + pass) == 2;
        ghost var vi := View();
        Pass(LGRAY, UPD_FULL);
        Pass(LGRAY, UPD_FULL);
        ExecAppend(vi, pass, pass);
      }
    }

    /** The YELLOW case of updateLegio. */
    method LegioYellow()
      requires Valid() && ReadyCount(replies) >= 3
      modifies this
      ensures Pumps(YellowProg()) == 3
      ensures Valid() && View() == Exec(old(View()), YellowProg())
    {
      ghost var v0 := View();
      ghost var pre := [TpcomWrite(15000), SourceVoltageWrite(15000)];
      ghost var pass := PassProg(LGRAY, UPD_FULL);
      YellowCounts(v0.buf);
      PassCounts(LGRAY, UPD_FULL, v0.buf);
      SetTpcom(15000);
      SetSourceVoltage(15000);
      ExecTwo(v0, TpcomWrite(15000), SourceVoltageWrite(15000));
      ghost var v1 := View();
      for i := 0 to 3
        invariant Valid()
        invariant View() == Iterate(v1, pass, i)
      {
        assert Pumps(pass) == 1;
        Pass(LGRAY, UPD_FULL);
      }
      ExecLoop(v0, pre, pass, 3, []);
      assert pre + Repeat(pass, 3) + [] == YellowProg();
    }

    /** The GREEN case of updateLegio. */
    method LegioGreen()
      requires Valid() && ReadyCount(replies) >= 3
      modifies this
      ensures Pumps(GreenProg()) == 3
      ensures Valid() && View() == Exec(old(View()), GreenProg())
    {
      ghost var v0 := View();
      ghost var pre := [TpcomWrite(0), SourceVoltageWrite(13000)];
      ghost var pass := PassProg(WHITE, UPD_MONO);
      GreenCounts(v0.buf);
      PassCounts(WHITE, UPD_MONO, v0.buf);
      SetTpcom(0);
      SetSourceVoltage(13000);
      ExecTwo(v0, TpcomWrite(0), SourceVoltageWrite(13000));
      ghost var v1 := View();
      for i := 0 to 3
        invariant Valid()
        invariant View() == Iterate(v1, pass, i)
      {
        assert Pumps(pass) == 1;
        Pass(WHITE, UPD_MONO);
      }
      ExecLoop(v0, pre, pass, 3, []);
      assert pre + Repeat(pass, 3) + [] == GreenProg();
    }

    /** Half of an iteration of the RED loop: the light-gray previous buffer,
        TPCOM `v`, a mono update, invert, 10 ms. */
    method RedHalf(v: int)
      requires Valid() && ReadyCount(replies) > 0
      modifies this, buffer
      ensures Pumps(RedHalfProg(v)) == 1
      ensures Valid() && View() == Exec(old(View()), RedHalfProg(v))
    {
      ghost var v0 := View();
      ghost var a, b, c, e := WriteToPreviousProg(LGRAY), [TpcomWrite(v)], UpdateProg(UPD_MONO, false), [InvertAll, Sleep(10)];
      RedHalfCounts(v, v0.buf);
      StreamsCounts(false, LGRAY, v0.buf);
      UpdateCounts(UPD_MONO, false, v0.buf);
      WriteToPreviousBuffer(LGRAY);
      ghost var v1 := View();
      SetTpcom(v);
      ExecOne(v1, TpcomWrite(v));
      Update(UPD_MONO);
      ghost var v3 := View();
      Invert();
      DelayMs(10);
      ExecTwo(v3, InvertAll, Sleep(10));
      ExecAppend(v0, a, b);
      ExecAppend(v0, a + b, c);
      ExecAppend(v0, a + b + c, e);
    }

    /** The RED case of updateLegio. */
    method LegioRed()
      requires Valid() && ReadyCount(replies) >= 4
      modifies this, buffer
      ensures Pumps(RedProg()) == 4
      ensures Valid() && View() == Exec(old(View()), RedProg())
    {
      ghost var v0 := View();
      ghost var pre := [SourceVoltageWrite(10000)];
      ghost var round := RedRoundProg();
      RedCounts(v0.buf);
      RedRoundCounts(v0.buf);
      SetSourceVoltage(10000);
      ExecOne(v0, SourceVoltageWrite(10000));
      RedRounds();
      ExecAppend(v0, pre, Repeat(round, 2));
    }

    /** The two rounds of the RED case, each a half at TPCOM +10 V and a
        half at -10 V. */
    method RedRounds()
      requires Valid() && ReadyCount(replies) >= 4
      modifies this, buffer
      ensures Pumps(Repeat(RedRoundProg(), 2)) == 4
      ensures Valid() && View() == Exec(old(View()), Repeat(RedRoundProg(), 2))
    {
      ghost var v0 := View();
      ghost var round := RedRoundProg();
      RedRoundCounts(v0.buf);
      RedHalfCounts(10000, v0.buf);
      PumpsRepeat(round, 2);
      for i := 0 to 2
        invariant Valid()
        invariant View() == Iterate(v0, round, i)
      {
        assert Pumps(round) == 2;
        ghost var vi := View();
        RedHalf(10000);
        RedHalf(-10000);
        ExecAppend(vi, RedHalfProg(10000), RedHalfProg(-10000));
      }
      IterateRepeat(v0, round, 2);
    }

    /** The BLUE case of updateLegio: the code of the RED case, then the
        closing part. */
    method LegioBlue()
      requires Valid() && ReadyCount(replies) >= 6
      modifies this, buffer
      ensures Pumps(BlueProg()) == 6
      ensures Valid() && View() == Exec(old(View()), BlueProg())
    {
      ghost var v0 := View();
      ghost var rest := [SourceVoltageWrite(10000), TpcomWrite(-10000)] + [InvertAll] + Repeat(BlueTailPass(), 2);
      BlueCounts(v0.buf);
      RedCounts(v0.buf);
      LegioRed();
      BlueClosing();
      ExecAppend(v0, RedProg(), rest);
      Regroup(RedProg(), [SourceVoltageWrite(10000), TpcomWrite(-10000)], [InvertAll], Repeat(BlueTailPass(), 2));
    }

    /** The end of the BLUE case: 10 V and TPCOM -10 V on the inverted frame,
        then the closing loop. */
    method BlueClosing()
      requires Valid() && ReadyCount(replies) >= 2
      modifies this, buffer
      ensures Pumps([SourceVoltageWrite(10000), TpcomWrite(-10000)] + [InvertAll] + Repeat(BlueTailPass(), 2)) == 2
      ensures Valid() &&
        View() == Exec(old(View()), [SourceVoltageWrite(10000), TpcomWrite(-10000)] + [InvertAll] + Repeat(BlueTailPass(), 2))
    {
      ghost var v1 := View();
      ghost var mid := [SourceVoltageWrite(10000), TpcomWrite(-10000)] + [InvertAll];
      SetSourceVoltage(10000);
      SetTpcom(-10000);
      Invert();
      ExecThree(v1, SourceVoltageWrite(10000), TpcomWrite(-10000), InvertAll);
      assert mid == [SourceVoltageWrite(10000), TpcomWrite(-10000), InvertAll];
      ghost var v2 := View();
      BlueTailLoop();
      ExecAppend(v1, mid, Repeat(BlueTailPass(), 2));
    }

    /** The closing loop of the BLUE case: two light-gray mono passes, each
        followed by 1 ms. */
    method BlueTailLoop()
      requires Valid() && ReadyCount(replies) >= 2
      modifies this
      ensures Pumps(Repeat(BlueTailPass(), 2)) == 2
      ensures Valid() && View() == Exec(old(View()), Repeat(BlueTailPass(), 2))
    {
      ghost var v0 := View();
      ghost var tail := BlueTailPass();
      PassCounts(LGRAY, UPD_MONO, v0.buf);
      PumpsAppend(PassProg(LGRAY, UPD_MONO), [Sleep(1)]);
      QuietCounts([Sleep(1)], v0.buf);
      assert Pumps(tail) == 1;
      for i := 0 to 2
        invariant Valid()
        invariant View() == Iterate(v0, tail, i)
      {
        assert Pumps(tail) == 1;
        ghost var vi := View();
        Pass(LGRAY, UPD_MONO);
        ghost var vj := View();
        DelayMs(1);
        ExecOne(vj, Sleep(1));
        ExecAppend(vi, PassProg(LGRAY, UPD_MONO), [Sleep(1)]);
      }
      IterateRepeat(v0, tail, 2);
    }

    /** updateLegio(color): the recipe of BLACK, YELLOW, GREEN, RED or BLUE;
        any other color does nothing. */
    method UpdateLegio(color: byte := BLACK)
      requires Valid() && ReadyCount(replies) >= RecipePasses(color)
      modifies this, buffer
      ensures Pumps(LegioProg(color)) == RecipePasses(color)
      ensures Valid() && View() == Exec(old(View()), LegioProg(color))
    {
      LegioCounts(color, buffer[..]);
      if color == BLACK {
        LegioBlack();
      } else if color == YELLOW {
        LegioYellow();
      } else if color == GREEN {
        LegioGreen();
      } else if color == RED {
        LegioRed();
      } else if color == BLUE {
        LegioBlue();
      }
    }

    /** Half of an iteration of clearScreen's loop: TPCOM `v`, clear(level),
        three light-gray passes, 1 ms. */
    method EraseHalf(v: int, level: byte)
      requires Valid() && ReadyCount(replies) >= 3
      modifies this, buffer
      ensures Pumps(EraseHalfProg(v, level)) == 3
      ensures Valid() && View() == Exec(old(View()), EraseHalfProg(v, level))
    {
      ghost var v0 := View();
      ghost var pre := [TpcomWrite(v), ClearTo(level)];
      ghost var pass := PassProg(LGRAY, UPD_FULL);
      EraseHalfCounts(v, level, v0.buf);
      PassCounts(LGRAY, UPD_FULL, v0.buf);
      SetTpcom(v);
      Clear(level);
      ExecTwo(v0, TpcomWrite(v), ClearTo(level));
      ghost var v1 := View();
      LightPasses();
      ghost var v2 := View();
      DelayMs(1);
      ExecOne(v2, Sleep(1));
      ExecLoop(v0, pre, pass, 3, [Sleep(1)]);
    }

    /** The three full light-gray passes of an erase half. */
    method LightPasses()
      requires Valid() && ReadyCount(replies) >= 3
      modifies this
      ensures Pumps(PassProg(LGRAY, UPD_FULL)) == 1
      ensures Valid() && View() == Iterate(old(View()), PassProg(LGRAY, UPD_FULL), 3)
    {
      ghost var v0 := View();
      ghost var pass := PassProg(LGRAY, UPD_FULL);
      PassCounts(LGRAY, UPD_FULL, v0.buf);
      for i := 0 to 3
        invariant Valid()
        invariant View() == Iterate(v0, pass, i)
      {
        assert Pumps(pass) == 1;
        Pass(LGRAY, UPD_FULL);
      }
    }

    /** clearScreen(): two rounds of a black and a white erase, then clear to
        white and TPCOM back to 0 V. */
    method ClearScreen()
      requires Valid() && ReadyCount(replies) >= 12
      modifies this, buffer
      ensures Pumps(ClearScreenProg()) == 12
      ensures Valid() && View() == Exec(old(View()), ClearScreenProg())
    {
      ghost var v0 := View();
      ghost var rounds := Repeat(EraseRoundProg(), 2);
      ClearScreenCounts(v0.buf);
      EraseRounds();
      ghost var v1 := View();
      Clear();
      SetTpcom(0);
      ExecTwo(v1, ClearTo(WHITE), TpcomWrite(0));
      ExecAppend(v0, rounds, [ClearTo(WHITE), TpcomWrite(0)]);
    }

    /** The two rounds of clearScreen's loop. */
    method EraseRounds()
      requires Valid() && ReadyCount(replies) >= 12
      modifies this, buffer
      ensures Pumps(Repeat(EraseRoundProg(), 2)) == 12
      ensures Valid() && View() == Exec(old(View()), Repeat(EraseRoundProg(), 2))
    {
      ghost var v0 := View();
      ghost var round := EraseRoundProg();
      EraseRoundCounts(v0.buf);
      EraseHalfCounts(15000, BLACK, v0.buf);
      PumpsRepeat(round, 2);
      for i := 0 to 2
        invariant Valid()
        invariant View() == Iterate(v0, round, i)
      {
        assert Pumps(round) == 6;
        ghost var vi := View();
        EraseHalf(15000, BLACK);
        EraseHalf(-15000, WHITE);
        ExecAppend(vi, EraseHalfProg(15000, BLACK), EraseHalfProg(-15000, WHITE));
      }
      IterateRepeat(v0, round, 2);
    }

    /** The reset at the start of begin(): pulse the reset pin when it is
        wired, otherwise send the software-reset command. */
    method Reset()
      requires Valid()
      modifies this
      ensures Pumps(ResetProg(rst != NO_PIN)) == 0
      ensures Valid() && View() == Exec(old(View()), ResetProg(rst != NO_PIN))
    {
      ghost var v0 := View();
      ResetCounts(rst != NO_PIN, v0.buf);
      if rst != NO_PIN {
        WriteResetPin(true);
        DelayMs(5);
        WriteResetPin(false);
        DelayMs(5);
        ExecFour(v0, ResetPin(true), Sleep(5), ResetPin(false), Sleep(5));
        ghost var v1 := View();
        WriteResetPin(true);
        DelayMs(5);
        WaitForBusyInactive();
        ExecThree(v1, ResetPin(true), Sleep(5), Busy);
        ExecAppend(v0, [ResetPin(true), Sleep(5), ResetPin(false), Sleep(5)], [ResetPin(true), Sleep(5), Busy]);
        Split43(ResetPin(true), Sleep(5), ResetPin(false), Sleep(5), ResetPin(true), Sleep(5), Busy);
      } else {
        WriteRegister(SOFTWARERESET, ABSENT, ABSENT, ABSENT, ABSENT);
        ExecOne(v0, Reg0(SOFTWARERESET));
      }
    }

    /** The configuration writes of begin(). */
    method Configure()
      requires Valid()
      modifies this
      ensures Pumps(ConfigureProg()) == 0
      ensures Valid() && View() == Exec(old(View()), ConfigureProg())
    {
      ghost var v0 := View();
      ConfigureCounts(v0.buf);
      WriteRegister(PANELSETTING, 0x10, ABSENT, ABSENT, ABSENT);
      WriteRegister(WRITEPXRECTSET, 0, 239, 0, 4);
      WriteRegister(VCOMCONFIG, 0x00, 0x00, 0x24, 0x00);
      WriteRegister(INTERVALSYNC, 0, 0, ABSENT, ABSENT);
      WriteRegister(DRIVERVOLTAGE, 0x25, 0xFF, ABSENT, ABSENT);
      ExecFive(v0, Reg1(PANELSETTING, 0x10), Write(WRITEPXRECTSET, 0, 239, 0, 4),
        Write(VCOMCONFIG, 0x00, 0x00, 0x24, 0x00), Reg2(INTERVALSYNC, 0, 0), Reg2(DRIVERVOLTAGE, 0x25, 0xFF));
      ghost var v1 := View();
      WriteRegister(BORDERSETTING, 0x04, ABSENT, ABSENT, ABSENT);
      WriteRegister(LOADMONOWF, 0x60, ABSENT, ABSENT, ABSENT);
      WriteRegister(INTTEMPERATURE, 0x0A, ABSENT, ABSENT, ABSENT);
      WriteRegister(BOOSTSETTING, 0x22, 0x17, ABSENT, ABSENT);
      WriteRegister(TPCOM, 0, 0, ABSENT, ABSENT);
      ExecFive(v1, Reg1(BORDERSETTING, 0x04), Reg1(LOADMONOWF, 0x60), Reg1(INTTEMPERATURE, 0x0A),
        Reg2(BOOSTSETTING, 0x22, 0x17), Reg2(TPCOM, 0, 0));
      ExecAppend(v0, [Reg1(PANELSETTING, 0x10), Write(WRITEPXRECTSET, 0, 239, 0, 4),
        Write(VCOMCONFIG, 0x00, 0x00, 0x24, 0x00), Reg2(INTERVALSYNC, 0, 0), Reg2(DRIVERVOLTAGE, 0x25, 0xFF)],
        [Reg1(BORDERSETTING, 0x04), Reg1(LOADMONOWF, 0x60), Reg1(INTTEMPERATURE, 0x0A),
        Reg2(BOOSTSETTING, 0x22, 0x17), Reg2(TPCOM, 0, 0)]);
      Split55(Reg1(PANELSETTING, 0x10), Write(WRITEPXRECTSET, 0, 239, 0, 4),
        Write(VCOMCONFIG, 0x00, 0x00, 0x24, 0x00), Reg2(INTERVALSYNC, 0, 0), Reg2(DRIVERVOLTAGE, 0x25, 0xFF),
        Reg1(BORDERSETTING, 0x04), Reg1(LOADMONOWF, 0x60), Reg1(INTTEMPERATURE, 0x0A),
        Reg2(BOOSTSETTING, 0x22, 0x17), Reg2(TPCOM, 0, 0));
    }

    /** begin(): reset, configure, erase the screen. */
    method Begin()
      requires Valid() && ReadyCount(replies) >= 12
      modifies this, buffer
      ensures Pumps(BeginProg(rst != NO_PIN)) == 12
      ensures Valid() && View() == Exec(old(View()), BeginProg(rst != NO_PIN))
    {
      ghost var v0 := View();
      ghost var a, b, c := ResetProg(rst != NO_PIN), ConfigureProg(), ClearScreenProg();
      BeginCounts(rst != NO_PIN, v0.buf);
      Reset();
      Configure();
      ClearScreen();
      ExecAppend(v0, a, b);
      ExecAppend(v0, a + b, c);
    }
  }
}
