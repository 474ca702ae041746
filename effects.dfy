/** What each routine does to a controller state: the exact transactions of
    the short routines, and for update, updateLegio, clearScreen and begin the
    framebuffer they leave, the charge-pump polls they use up and the
    trigger, power-rail and voltage writes the log gains. */
module Effects {
  import opened Octets
  import opened SegDefs
  import opened Encoders
  import opened Wire
  import opened Bus
  import opened Framebuffer
  import opened Sequencer
  import opened Routines

  /** writeBuffer(previous) sends, each followed by a busy-wait, the pixel
      origin, the entry mode of the chosen device buffer and the first 300
      framebuffer bytes behind the stream opcode. */
  lemma WriteBufferEffect(d: Dev, previous: bool)
    requires Sized(d)
    ensures Pumps(WriteBufferProg(previous)) == 0
    ensures Exec(d, WriteBufferProg(previous)) ==
      d.(log := Txw(Txw(Txw(d.log, [PIXELACESSPOS, 0x00, 0x00]),
                        [DATENTRYMODE, if previous then 0x30 else 0x20]),
                    [BUFFERWRITE] + d.buf[..PAYLOAD_SIZE]))
  {
    var p := WriteBufferProg(previous);
    RegisterBytesCases(PIXELACESSPOS, 0, 0, ABSENT, ABSENT);
    RegisterBytesCases(DATENTRYMODE, p[1].v1, ABSENT, ABSENT, ABSENT);
    ExecThree(d, p[0], p[1], p[2]);
  }

  /** writeToPreviousBuffer(color) sends the pixel origin, the previous-buffer
      entry mode and 300 copies of `color` behind the stream opcode; the
      framebuffer is not involved. */
  lemma WriteToPreviousEffect(d: Dev, color: byte)
    requires Sized(d)
    ensures Pumps(WriteToPreviousProg(color)) == 0
    ensures Exec(d, WriteToPreviousProg(color)) ==
      d.(log := Txw(Txw(Txw(d.log, [PIXELACESSPOS, 0x00, 0x00]), [DATENTRYMODE, 0x30]),
                    [BUFFERWRITE] + Fill(PAYLOAD_SIZE, color)))
  {
    var p := WriteToPreviousProg(color);
    RegisterBytesCases(PIXELACESSPOS, 0, 0, ABSENT, ABSENT);
    RegisterBytesCases(DATENTRYMODE, 0x30, ABSENT, ABSENT, ABSENT);
    ExecThree(d, p[0], p[1], p[2]);
  }

  /** powerOff sends 0x10 and then 0xC0 to power control, each transaction
      followed by writeRegister's busy-wait and one more. */
  lemma PowerOffEffect(d: Dev)
    requires Sized(d)
    ensures Pumps(PowerOffProg()) == 0
    ensures Exec(d, PowerOffProg()) ==
      d.(log := Then(Txw(Then(Txw(d.log, [POWERCONTROL, 0x10]), Wait), [POWERCONTROL, 0xC0]), Wait))
  {
    var p := PowerOffProg();
    RegisterBytesCases(POWERCONTROL, 0x10, ABSENT, ABSENT, ABSENT);
    RegisterBytesCases(POWERCONTROL, 0xC0, ABSENT, ABSENT, ABSENT);
    ExecFour(d, p[0], p[1], p[2], p[3]);
  }

  /** The trigger switch of update: the program select and the display-engine
      trigger of the mode, each followed by writeRegister's busy-wait, and
      one more busy-wait; any other mode leaves the controller as it was. */
  lemma TriggerEffect(d: Dev, mode: int)
    requires Sized(d)
    ensures Pumps(TriggerProg(mode)) == 0
    ensures mode == UPD_FULL || mode == UPD_PART ==>
      Exec(d, TriggerProg(mode)) == d.(log := Then(Txw(Txw(d.log, [PROGRAMMTP, 0x00]), FULL_TRIGGER), Wait))
    ensures mode == UPD_MONO ==>
      Exec(d, TriggerProg(mode)) == d.(log := Then(Txw(Txw(d.log, [PROGRAMMTP, 0x02]), MONO_TRIGGER), Wait))
    ensures mode != UPD_FULL && mode != UPD_PART && mode != UPD_MONO ==> Exec(d, TriggerProg(mode)) == d
  {
    if mode == UPD_FULL || mode == UPD_PART {
      TriggerFullEffect(d);
    } else if mode == UPD_MONO {
      TriggerMonoEffect(d);
    } else {
      assert TriggerProg(mode) == [];
    }
  }

  /** The full and partial branch of the trigger switch. */
  lemma TriggerFullEffect(d: Dev)
    requires Sized(d)
    ensures Pumps(TriggerProg(UPD_FULL)) == 0
    ensures Exec(d, TriggerProg(UPD_FULL)) == d.(log := Then(Txw(Txw(d.log, [PROGRAMMTP, 0x00]), FULL_TRIGGER), Wait))
  {
    var a, b := Reg1(PROGRAMMTP, 0x00), Reg1(DISPLAYENGINE, 0x03);
    assert TriggerProg(UPD_FULL) == [a, b, Busy];
    RegisterBytesCases(PROGRAMMTP, 0x00, ABSENT, ABSENT, ABSENT);
    RegisterBytesCases(DISPLAYENGINE, 0x03, ABSENT, ABSENT, ABSENT);
    ExecThree(d, a, b, Busy);
  }

  /** The mono branch of the trigger switch. */
  lemma TriggerMonoEffect(d: Dev)
    requires Sized(d)
    ensures Pumps(TriggerProg(UPD_MONO)) == 0
    ensures Exec(d, TriggerProg(UPD_MONO)) == d.(log := Then(Txw(Txw(d.log, [PROGRAMMTP, 0x02]), MONO_TRIGGER), Wait))
  {
    var a, b := Reg1(PROGRAMMTP, 0x02), Reg1(DISPLAYENGINE, 0x07);
    assert TriggerProg(UPD_MONO) == [a, b, Busy];
    RegisterBytesCases(PROGRAMMTP, 0x02, ABSENT, ABSENT, ABSENT);
    RegisterBytesCases(DISPLAYENGINE, 0x07, ABSENT, ABSENT, ABSENT);
    ExecThree(d, a, b, Busy);
  }

  /** The writes of powerOn before the poll. */
  function PowerOnSetup(l: Log): Log
  {
    Txw(Txw(Txw(Txw(Then(l, Wait), [SETRESOLUTION, 0x00, 0xEF, 0x00, 0x04]), [TCOMTIMING, 0xFF, 0xFF]),
            [POWERSEQUENCE, 0x00, 0x00, 0x00]), [POWERCONTROL, 0x51])
  }

  /** The steps of powerOn before the poll send its four writes. */
  lemma PowerOnSetupEffect(d: Dev)
    requires Sized(d)
    ensures Pumps(PowerOnSetupProg()) == 0
    ensures Exec(d, PowerOnSetupProg()) == d.(log := PowerOnSetup(d.log))
  {
    var q := PowerOnSetupProg();
    RegisterBytesCases(SETRESOLUTION, 0, 239, 0, 4);
    RegisterBytesCases(TCOMTIMING, 0xFF, 0xFF, ABSENT, ABSENT);
    RegisterBytesCases(POWERSEQUENCE, 0, 0, 0, ABSENT);
    RegisterBytesCases(POWERCONTROL, 0x51, ABSENT, ABSENT, ABSENT);
    ExecFive(d, q[0], q[1], q[2], q[3], q[4]);
  }

  /** powerOn waits, sends its four configuration writes and then reads the
      pump status once per leading zero reply and once more: it consumes the
      replies up to and including the first non-zero one. */
  lemma PowerOnEffect(d: Dev)
    requires Sized(d) && ReadyCount(d.replies) > 0
    ensures Pumps(PowerOnProg()) == 1
    ensures Exec(d, PowerOnProg()) ==
      Dev(d.buf, Polls(PowerOnSetup(d.log), LeadingZeros(d.replies) + 1), d.replies[LeadingZeros(d.replies) + 1..])
  {
    PowerOnSetupEffect(d);
    ExecThenPoll(d, PowerOnSetupProg(), PowerOnSetup(d.log));
  }

  /** update(mode, manPow) starts with writeBuffer(false): the frame the
      rest of the update shows is the first 300 bytes of the framebuffer. */
  lemma UpdateSendsFrameFirst(d: Dev, mode: int, manPow: bool)
    requires Sized(d) && ReadyCount(d.replies) >= Pumps(UpdateProg(mode, manPow))
    ensures Pumps(WriteBufferProg(false)) == 0
    ensures Pumps(UpdateProg(mode, manPow)[|WriteBufferProg(false)|..]) == Pumps(UpdateProg(mode, manPow))
    ensures Exec(d, UpdateProg(mode, manPow)) ==
      Exec(Exec(d, WriteBufferProg(false)), UpdateProg(mode, manPow)[|WriteBufferProg(false)|..])
    ensures Exec(d, WriteBufferProg(false)).log ==
      Txw(Txw(Txw(d.log, [PIXELACESSPOS, 0x00, 0x00]), [DATENTRYMODE, 0x20]), [BUFFERWRITE] + d.buf[..PAYLOAD_SIZE])
  {
    var p, q := WriteBufferProg(false), UpdateProg(mode, manPow);
    assert q[..|p|] == p;
    ExecSplit(d, q, |p|);
    WriteBufferEffect(d, false);
  }

  /** update(mode, manPow) leaves the framebuffer alone, uses up one ready
      reply exactly when it manages power, triggers its mode's waveform,
      brackets the trigger with pump-on and the two power-down writes unless
      manPow is set, and writes no voltage. */
  lemma UpdateEffect(d: Dev, mode: int, manPow: bool)
    requires Sized(d) && ReadyCount(d.replies) >= if manPow then 0 else 1
    ensures Pumps(UpdateProg(mode, manPow)) == if manPow then 0 else 1
    ensures var r := Exec(d, UpdateProg(mode, manPow));
      r.buf == d.buf &&
      ReadyCount(r.replies) == ReadyCount(d.replies) - (if manPow then 0 else 1) &&
      (manPow ==> r.replies == d.replies) &&
      Writes(r.log, TRIGGERS) == Writes(d.log, TRIGGERS) + TriggerWrites(mode) &&
      Writes(r.log, RAILS) == Writes(d.log, RAILS) +
        (if manPow then TriggerWrites(mode) else [PUMP_ON] + TriggerWrites(mode) + PUMP_OFF) &&
      Writes(r.log, TPCOMS) == Writes(d.log, TPCOMS) &&
      Writes(r.log, SOURCE_VOLTS) == Writes(d.log, SOURCE_VOLTS)
  {
    var p := UpdateProg(mode, manPow);
    UpdateCounts(mode, manPow, d.buf);
    UpdateViews(mode, manPow);
    ViewsAreViews();
    ExecWrites(d, p, TRIGGERS);
    ExecWrites(d, p, RAILS);
    ExecWrites(d, p, TPCOMS);
    ExecWrites(d, p, SOURCE_VOLTS);
    var t, r := Writes(d.log, TPCOMS), Writes(d.log, SOURCE_VOLTS);
    assert t + [] == t && r + [] == r;
  }

  /** updateLegio(color) runs the recipe table: as many polls as passes, one
      trigger per pass, the table's common and source voltages in order, and
      the framebuffer back as it was (complemented after BLUE); a color
      without a recipe changes nothing. */
  lemma LegioEffect(d: Dev, color: byte)
    requires Sized(d) && ReadyCount(d.replies) >= RecipePasses(color)
    ensures Pumps(LegioProg(color)) == RecipePasses(color)
    ensures var r := Exec(d, LegioProg(color));
      r.buf == (if color == BLUE then Complement(d.buf) else d.buf) &&
      ReadyCount(r.replies) == ReadyCount(d.replies) - RecipePasses(color) &&
      Writes(r.log, TRIGGERS) == Writes(d.log, TRIGGERS) + RecipeTriggers(color) &&
      Writes(r.log, TPCOMS) == Writes(d.log, TPCOMS) + RecipeTpcoms(color) &&
      Writes(r.log, SOURCE_VOLTS) == Writes(d.log, SOURCE_VOLTS) + RecipeSourceVolts(color) &&
      (!IsRecipe(color) ==> r == d)
  {
    var p := LegioProg(color);
    LegioCounts(color, d.buf);
    ViewsAreViews();
    ExecWrites(d, p, TRIGGERS);
    ExecWrites(d, p, TPCOMS);
    ExecWrites(d, p, SOURCE_VOLTS);
    LegioViews(color);
  }

  /** The three views of updateLegio are the three columns of the table. */
  lemma LegioViews(color: byte)
    ensures ProgWrites(LegioProg(color), TRIGGERS) == RecipeTriggers(color)
    ensures ProgWrites(LegioProg(color), TPCOMS) == RecipeTpcoms(color)
    ensures ProgWrites(LegioProg(color), SOURCE_VOLTS) == RecipeSourceVolts(color)
  {
    LegioWrites(color, TRIGGERS);
    LegioWrites(color, TPCOMS);
    LegioWrites(color, SOURCE_VOLTS);
    RecipeTriggersTable(color);
    RecipeTpcomsTable(color);
    RecipeSourceVoltsTable(color);
  }

  /** clearScreen polls twelve times, leaves the framebuffer all white,
      triggers twelve full waveforms, alternates TPCOM +15 V and -15 V twice
      and ends at 0 V, and writes no source voltage. */
  lemma ClearScreenEffect(d: Dev)
    requires Sized(d) && ReadyCount(d.replies) >= 12
    ensures Pumps(ClearScreenProg()) == 12
    ensures var r := Exec(d, ClearScreenProg());
      r.buf == Fill(BUFFER_SIZE, WHITE) &&
      ReadyCount(r.replies) == ReadyCount(d.replies) - 12 &&
      Writes(r.log, TRIGGERS) == Writes(d.log, TRIGGERS) + Repeat([FULL_TRIGGER], 12) &&
      Writes(r.log, TPCOMS) == Writes(d.log, TPCOMS) +
        (Repeat([[0x1B, 0xF4, 0x01], [0x1B, 0xF4, 0x05]], 2) + [[0x1B, 0x00, 0x00]]) &&
      Writes(r.log, SOURCE_VOLTS) == Writes(d.log, SOURCE_VOLTS)
  {
    var p := ClearScreenProg();
    ClearScreenCounts(d.buf);
    ViewsAreViews();
    ExecWrites(d, p, TRIGGERS);
    ExecWrites(d, p, TPCOMS);
    ExecWrites(d, p, SOURCE_VOLTS);
    ClearScreenTriggers();
    ClearScreenTpcoms();
    ClearScreenSourceVolts();
    var s := Writes(d.log, SOURCE_VOLTS);
    assert s + [] == s;
  }

  /** The trigger, common-voltage and source-voltage views of begin. */
  lemma BeginTriggers(hasResetPin: bool)
    ensures ProgWrites(BeginProg(hasResetPin), TRIGGERS) == Repeat([FULL_TRIGGER], 12)
  {
    var e: seq<seq<byte>> := [];
    BeginWrites(hasResetPin, TRIGGERS);
    ClearScreenTriggers();
    assert Seen(TRIGGERS, DRIVERVOLTAGE, [[0x02, 0x25, 0xFF]]) == e && Seen(TRIGGERS, TPCOM, [[0x1B, 0x00, 0x00]]) == e;
    DropOuter(e, e, ProgWrites(ClearScreenProg(), TRIGGERS), e);
  }

  lemma BeginTpcoms(hasResetPin: bool)
    ensures ProgWrites(BeginProg(hasResetPin), TPCOMS) ==
      [[0x1B, 0x00, 0x00]] + Repeat([[0x1B, 0xF4, 0x01], [0x1B, 0xF4, 0x05]], 2) + [[0x1B, 0x00, 0x00]]
  {
    var e: seq<seq<byte>> := [];
    var x, r, z := [[0x1B, 0x00, 0x00]], Repeat([[0x1B, 0xF4, 0x01], [0x1B, 0xF4, 0x05]], 2), [[0x1B, 0x00, 0x00]];
    var c := ProgWrites(ClearScreenProg(), TPCOMS);
    calc {
      ProgWrites(BeginProg(hasResetPin), TPCOMS);
      { BeginWrites(hasResetPin, TPCOMS); }
      Seen(TPCOMS, DRIVERVOLTAGE, [[0x02, 0x25, 0xFF]]) + Seen(TPCOMS, TPCOM, x) + c;
      { assert Seen(TPCOMS, DRIVERVOLTAGE, [[0x02, 0x25, 0xFF]]) == e && Seen(TPCOMS, TPCOM, x) == x; }
      e + x + c;
      { ClearScreenTpcoms(); }
      e + x + (r + z);
      { ConcatAssoc(x, r, z); }
      x + r + z;
    }
  }

  lemma BeginSourceVolts(hasResetPin: bool)
    ensures ProgWrites(BeginProg(hasResetPin), SOURCE_VOLTS) == [[0x02, 0x25, 0xFF]]
  {
    var e: seq<seq<byte>> := [];
    var x := [[0x02, 0x25, 0xFF]];
    calc {
      ProgWrites(BeginProg(hasResetPin), SOURCE_VOLTS);
      { BeginWrites(hasResetPin, SOURCE_VOLTS); }
      Seen(SOURCE_VOLTS, DRIVERVOLTAGE, x) + Seen(SOURCE_VOLTS, TPCOM, [[0x1B, 0x00, 0x00]])
        + ProgWrites(ClearScreenProg(), SOURCE_VOLTS);
      { assert Seen(SOURCE_VOLTS, DRIVERVOLTAGE, x) == x && Seen(SOURCE_VOLTS, TPCOM, [[0x1B, 0x00, 0x00]]) == e;
        ClearScreenSourceVolts(); }
      x + e + e;
      x;
    }
  }

  /** begin polls twelve times, leaves the framebuffer all white, writes the
      driver voltage 0xFF once, sets TPCOM 0 V and then runs clearScreen's
      triggers and common voltages. */
  lemma BeginEffect(d: Dev, hasResetPin: bool)
    requires Sized(d) && ReadyCount(d.replies) >= 12
    ensures Pumps(BeginProg(hasResetPin)) == 12
    ensures var r := Exec(d, BeginProg(hasResetPin));
      r.buf == Fill(BUFFER_SIZE, WHITE) &&
      ReadyCount(r.replies) == ReadyCount(d.replies) - 12 &&
      Writes(r.log, TRIGGERS) == Writes(d.log, TRIGGERS) + Repeat([FULL_TRIGGER], 12) &&
      Writes(r.log, TPCOMS) == Writes(d.log, TPCOMS) +
        ([[0x1B, 0x00, 0x00]] + Repeat([[0x1B, 0xF4, 0x01], [0x1B, 0xF4, 0x05]], 2) + [[0x1B, 0x00, 0x00]]) &&
      Writes(r.log, SOURCE_VOLTS) == Writes(d.log, SOURCE_VOLTS) + [[0x02, 0x25, 0xFF]]
  {
    var p := BeginProg(hasResetPin);
    BeginCounts(hasResetPin, d.buf);
    ViewsAreViews();
    ExecWrites(d, p, TRIGGERS);
    ExecWrites(d, p, TPCOMS);
    ExecWrites(d, p, SOURCE_VOLTS);
    BeginTriggers(hasResetPin);
    BeginTpcoms(hasResetPin);
    BeginSourceVolts(hasResetPin);
  }
}
