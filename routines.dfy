/** The driver's routines as programs of Steps, and what each routine does as
    seen through the views of the log: which trigger, power-rail, common-voltage
    and source-voltage writes it issues and in which order, how many
    charge-pump polls it runs and what it leaves in the framebuffer. */
module Routines {
  import opened Octets
  import opened SegDefs
  import opened Encoders
  import opened Wire
  import opened Bus
  import opened Framebuffer
  import opened Sequencer

  // ---------------------------------------------------------------------
  // Register writes with their -1 (absent) operands filled in

  function Reg0(a: byte): Step { Write(a, ABSENT, ABSENT, ABSENT, ABSENT) }
  function Reg1(a: byte, v1: int16): Step { Write(a, v1, ABSENT, ABSENT, ABSENT) }
  function Reg2(a: byte, v1: int16, v2: int16): Step { Write(a, v1, v2, ABSENT, ABSENT) }
  function Reg3(a: byte, v1: int16, v2: int16, v3: int16): Step { Write(a, v1, v2, v3, ABSENT) }

  // ---------------------------------------------------------------------
  // The routines

  /** writeBuffer(previous): address the pixel origin, pick the current (0x20)
      or previous (0x30) device buffer, stream the first 300 bytes. */
  function WriteBufferProg(previous: bool): seq<Step>
  {
    [Reg2(PIXELACESSPOS, 0, 0), Reg1(DATENTRYMODE, if previous then 0x30 else 0x20), StreamFrame]
  }

  /** writeToPreviousBuffer(color): the same into the previous buffer, with 300
      copies of `color` in place of the framebuffer. */
  function WriteToPreviousProg(color: byte): seq<Step>
  {
    [Reg2(PIXELACESSPOS, 0, 0), Reg1(DATENTRYMODE, 0x30), StreamFill(color)]
  }

  /** powerOn(): configure and start the charge pump, then poll until ready. */
  function PowerOnProg(): seq<Step>
  {
    PowerOnSetupProg() + [AwaitPump]
  }

  /** The busy-wait and the four writes of powerOn before its poll. */
  function PowerOnSetupProg(): seq<Step>
  {
    [Busy, Write(SETRESOLUTION, 0, 239, 0, 4), Reg2(TCOMTIMING, 0xFF, 0xFF),
     Reg3(POWERSEQUENCE, 0x00, 0x00, 0x00), Reg1(POWERCONTROL, 0x51)]
  }

  /** powerOff(): both power-down commands, each followed by a busy-wait. */
  function PowerOffProg(): seq<Step>
  {
    [Reg1(POWERCONTROL, 0x10), Busy, Reg1(POWERCONTROL, 0xC0), Busy]
  }

  /** The switch of update(mode): modes 0 and 1 run the full waveform, mode 2
      the mono one, and every other mode triggers nothing. */
  function TriggerProg(mode: int): seq<Step>
  {
    if mode == UPD_FULL || mode == UPD_PART then
      [Reg1(PROGRAMMTP, 0x00), Reg1(DISPLAYENGINE, 0x03), Busy]
    else if mode == UPD_MONO then
      [Reg1(PROGRAMMTP, 0x02), Reg1(DISPLAYENGINE, 0x07), Busy]
    else []
  }

  /** update(mode, manPow): send the frame; unless power is managed by the
      caller, wrap the trigger in powerOn and powerOff. */
  function UpdateProg(mode: int, manPow: bool): seq<Step>
  {
    WriteBufferProg(false) + (if manPow then [] else PowerOnProg()) + TriggerProg(mode)
      + (if manPow then [] else PowerOffProg())
  }

  /** setTPCOM(v). */
  function TpcomWrite(v: int): Step
  {
    var (lo, hi) := TpcomOperands(v);
    Reg2(TPCOM, Widen(lo), Widen(hi))
  }

  /** setSourceVoltage(v). */
  function SourceVoltageWrite(v: int): Step
  {
    Reg2(DRIVERVOLTAGE, 0x25, SourceVoltageOperand(v))
  }

  /** One pass of the multi-pass routines: writeToPreviousBuffer(fill), then
      update(mode) with automatic power. */
  function PassProg(fill: byte, mode: int): seq<Step>
  {
    WriteToPreviousProg(fill) + UpdateProg(mode, false)
  }

  /** Half a round of the RED recipe: previous buffer light gray, TPCOM `v`, a
      mono update, invert, 10 ms. */
  function RedHalfProg(v: int): seq<Step>
  {
    WriteToPreviousProg(LGRAY) + [TpcomWrite(v)] + UpdateProg(UPD_MONO, false) + [InvertAll, Sleep(10)]
  }

  /** One iteration of the RED loop: +10 V, then -10 V. */
  function RedRoundProg(): seq<Step>
  {
    RedHalfProg(10000) + RedHalfProg(-10000)
  }

  /** One iteration of BLUE's closing loop: a light-gray mono pass and 1 ms. */
  function BlueTailPass(): seq<Step>
  {
    PassProg(LGRAY, UPD_MONO) + [Sleep(1)]
  }

  /** updateLegio(BLACK): TPCOM 0 V and 13 V on the inverted frame, five
      rounds of two light-gray passes, inverted back. */
  function BlackProg(): seq<Step>
  {
    [TpcomWrite(0), SourceVoltageWrite(13000)] + [InvertAll]
      + Repeat(PassProg(LGRAY, UPD_FULL) + PassProg(LGRAY, UPD_FULL), 5) + [InvertAll]
  }

  /** updateLegio(YELLOW): TPCOM +15 V and 15 V, three light-gray passes. */
  function YellowProg(): seq<Step>
  {
    [TpcomWrite(15000), SourceVoltageWrite(15000)] + Repeat(PassProg(LGRAY, UPD_FULL), 3)
  }

  /** updateLegio(GREEN): TPCOM 0 V and 13 V, three white mono passes. */
  function GreenProg(): seq<Step>
  {
    [TpcomWrite(0), SourceVoltageWrite(13000)] + Repeat(PassProg(WHITE, UPD_MONO), 3)
  }

  /** updateLegio(RED): 10 V, two rounds of +10 V and -10 V. */
  function RedProg(): seq<Step>
  {
    [SourceVoltageWrite(10000)] + Repeat(RedRoundProg(), 2)
  }

  /** updateLegio(BLUE): the RED rounds, then 10 V and TPCOM -10 V on the
      inverted frame and two light-gray mono passes. */
  function BlueProg(): seq<Step>
  {
    RedProg() + [SourceVoltageWrite(10000), TpcomWrite(-10000)] + [InvertAll] + Repeat(BlueTailPass(), 2)
  }

  /** updateLegio(color): the colors with a recipe, and nothing for the rest. */
  function LegioProg(color: byte): seq<Step>
  {
    if color == BLACK then BlackProg()
    else if color == YELLOW then YellowProg()
    else if color == GREEN then GreenProg()
    else if color == RED then RedProg()
    else if color == BLUE then BlueProg()
    else []
  }

  /** Half a round of clearScreen: TPCOM `v`, clear(level), three light-gray
      passes, 1 ms. */
  function EraseHalfProg(v: int, level: byte): seq<Step>
  {
    [TpcomWrite(v), ClearTo(level)] + Repeat(PassProg(LGRAY, UPD_FULL), 3) + [Sleep(1)]
  }

  /** One iteration of clearScreen's loop: +15 V on black, -15 V on white. */
  function EraseRoundProg(): seq<Step>
  {
    EraseHalfProg(15000, BLACK) + EraseHalfProg(-15000, WHITE)
  }

  /** clearScreen(): two rounds, then clear to white and TPCOM back to 0 V. */
  function ClearScreenProg(): seq<Step>
  {
    Repeat(EraseRoundProg(), 2) + [ClearTo(WHITE), TpcomWrite(0)]
  }

  /** The reset at the start of begin(): the reset pin pulsed high, low, high
      with 5 ms between, then a busy-wait, when one is wired; otherwise the
      software-reset command. */
  function ResetProg(hasResetPin: bool): seq<Step>
  {
    if hasResetPin then
      [ResetPin(true), Sleep(5), ResetPin(false), Sleep(5), ResetPin(true), Sleep(5), Busy]
    else [Reg0(SOFTWARERESET)]
  }

  /** The fixed configuration writes of begin(). */
  function ConfigureProg(): seq<Step>
  {
    [Reg1(PANELSETTING, 0x10), Write(WRITEPXRECTSET, 0, 239, 0, 4),
     Write(VCOMCONFIG, 0x00, 0x00, 0x24, 0x00), Reg2(INTERVALSYNC, 0, 0),
     Reg2(DRIVERVOLTAGE, 0x25, 0xFF), Reg1(BORDERSETTING, 0x04), Reg1(LOADMONOWF, 0x60),
     Reg1(INTTEMPERATURE, 0x0A), Reg2(BOOSTSETTING, 0x22, 0x17), Reg2(TPCOM, 0, 0)]
  }

  /** begin(): reset, configure, erase the screen. */
  function BeginProg(hasResetPin: bool): seq<Step>
  {
    ResetProg(hasResetPin) + ConfigureProg() + ClearScreenProg()
  }

  // ---------------------------------------------------------------------
  // The pieces of update, one view at a time

  /** The display-engine writes that start a full and a mono waveform. */
  const FULL_TRIGGER: seq<byte> := [DISPLAYENGINE, 0x03]
  const MONO_TRIGGER: seq<byte> := [DISPLAYENGINE, 0x07]
  /** The power-control writes of powerOn and powerOff. */
  const PUMP_ON: seq<byte> := [POWERCONTROL, 0x51]
  const PUMP_OFF: seq<seq<byte>> := [[POWERCONTROL, 0x10], [POWERCONTROL, 0xC0]]

  /** Every register update writes. */
  const UPDATE_REGS: set<byte> := {PIXELACESSPOS, DATENTRYMODE, SETRESOLUTION, TCOMTIMING,
    POWERSEQUENCE, POWERCONTROL, PROGRAMMTP, DISPLAYENGINE}

  /** The trigger each update mode issues: full for modes 0 and 1, mono for
      mode 2, none otherwise. */
  function TriggerWrites(mode: int): (ws: seq<seq<byte>>)
    ensures |ws| <= 1
  {
    if mode == UPD_FULL || mode == UPD_PART then [FULL_TRIGGER]
    else if mode == UPD_MONO then [MONO_TRIGGER]
    else []
  }

  /** The buffer streams write only the two addressing registers. */
  lemma StreamsWrites(previous: bool, color: byte, regs: set<byte>)
    requires PIXELACESSPOS !in regs && DATENTRYMODE !in regs
    ensures ProgWrites(WriteBufferProg(previous), regs) == []
    ensures ProgWrites(WriteToPreviousProg(color), regs) == []
  {
    ProgWritesNone(WriteBufferProg(previous), regs);
    ProgWritesNone(WriteToPreviousProg(color), regs);
  }

  /** Neither stream polls the pump or changes the framebuffer. */
  lemma StreamsCounts(previous: bool, color: byte, buf: seq<byte>)
    ensures Pumps(WriteBufferProg(previous)) == 0 && Pumps(WriteToPreviousProg(color)) == 0
    ensures ProgBuf(WriteBufferProg(previous), buf) == buf
    ensures ProgBuf(WriteToPreviousProg(color), buf) == buf
  {
    PumpsNone(WriteBufferProg(previous));
    PumpsNone(WriteToPreviousProg(color));
    ProgBufKept(WriteBufferProg(previous), buf);
    ProgBufKept(WriteToPreviousProg(color), buf);
  }

  /** Of its registers, a view of power control sees the pump-on command of
      powerOn. */
  lemma PowerOnWrites(regs: set<byte>)
    requires SETRESOLUTION !in regs && TCOMTIMING !in regs && POWERSEQUENCE !in regs
    ensures ProgWrites(PowerOnProg(), regs) == if POWERCONTROL in regs then [PUMP_ON] else []
  {
    if POWERCONTROL in regs {
      RegisterBytesCases(POWERCONTROL, 0x51, ABSENT, ABSENT, ABSENT);
      ProgWritesOne(PowerOnProg(), 4, regs);
    } else {
      ProgWritesNone(PowerOnProg(), regs);
    }
  }

  /** powerOn polls the pump once and leaves the framebuffer alone. */
  lemma PowerOnCounts(buf: seq<byte>)
    ensures Pumps(PowerOnProg()) == 1
    ensures ProgBuf(PowerOnProg(), buf) == buf
  {
    var p := PowerOnProg();
    PumpsNone(PowerOnSetupProg());
    PumpsAppend(PowerOnSetupProg(), [AwaitPump]);
    ProgBufKept(p, buf);
  }

  /** powerOff writes only the two power-down commands. */
  lemma PowerOffWrites(regs: set<byte>)
    ensures ProgWrites(PowerOffProg(), regs) == if POWERCONTROL in regs then PUMP_OFF else []
  {
    var p := PowerOffProg();
    if POWERCONTROL in regs {
      RegisterBytesCases(POWERCONTROL, 0x10, ABSENT, ABSENT, ABSENT);
      RegisterBytesCases(POWERCONTROL, 0xC0, ABSENT, ABSENT, ABSENT);
      ProgWritesTwo(p, 0, 2, regs);
    } else {
      ProgWritesNone(p, regs);
    }
  }

  /** powerOff neither polls nor changes the framebuffer. */
  lemma PowerOffCounts(buf: seq<byte>)
    ensures Pumps(PowerOffProg()) == 0
    ensures ProgBuf(PowerOffProg(), buf) == buf
  {
    PumpsNone(PowerOffProg());
    ProgBufKept(PowerOffProg(), buf);
  }

  /** The trigger switch writes its mode's trigger to the display engine. */
  lemma TriggerProgWrites(mode: int, regs: set<byte>)
    requires PROGRAMMTP !in regs
    ensures ProgWrites(TriggerProg(mode), regs) == if DISPLAYENGINE in regs then TriggerWrites(mode) else []
  {
    var p := TriggerProg(mode);
    if p != [] && DISPLAYENGINE in regs {
      RegisterBytesCases(DISPLAYENGINE, p[1].v1, ABSENT, ABSENT, ABSENT);
      ProgWritesOne(p, 1, regs);
    } else {
      ProgWritesNone(p, regs);
    }
  }

  /** The trigger switch neither polls nor changes the framebuffer. */
  lemma TriggerProgCounts(mode: int, buf: seq<byte>)
    ensures Pumps(TriggerProg(mode)) == 0
    ensures ProgBuf(TriggerProg(mode), buf) == buf
  {
    PumpsNone(TriggerProg(mode));
    ProgBufKept(TriggerProg(mode), buf);
  }

  /** update(mode, manPow) leaves the framebuffer alone and polls the pump once
      exactly when it manages power itself. */
  lemma UpdateCounts(mode: int, manPow: bool, buf: seq<byte>)
    ensures Pumps(UpdateProg(mode, manPow)) == if manPow then 0 else 1
    ensures ProgBuf(UpdateProg(mode, manPow), buf) == buf
  {
    var a, b, c, e := WriteBufferProg(false), (if manPow then [] else PowerOnProg()), TriggerProg(mode),
      (if manPow then [] else PowerOffProg());
    StreamsCounts(false, 0, buf);
    PowerOnCounts(buf);
    PowerOffCounts(buf);
    TriggerProgCounts(mode, buf);
    PumpsAppend(a, b);
    PumpsAppend(a + b, c);
    PumpsAppend(a + b + c, e);
    ProgBufAppend(a, b, buf);
    ProgBufAppend(a + b, c, buf);
    ProgBufAppend(a + b + c, e, buf);
  }

  /** Registers update addresses but that no view of interest watches. */
  predicate Unwatched(regs: set<byte>) {
    PIXELACESSPOS !in regs && DATENTRYMODE !in regs && SETRESOLUTION !in regs &&
    TCOMTIMING !in regs && POWERSEQUENCE !in regs && PROGRAMMTP !in regs
  }

  /** What a view sees of update(mode, manPow): pump-on, the mode's trigger
      and the two power-down writes, each only if the view watches its
      register, and the power writes only when update manages power itself. */
  lemma UpdateWrites(mode: int, manPow: bool, regs: set<byte>)
    requires Unwatched(regs)
    ensures ProgWrites(UpdateProg(mode, manPow), regs) ==
      (if manPow || POWERCONTROL !in regs then [] else [PUMP_ON])
        + (if DISPLAYENGINE in regs then TriggerWrites(mode) else [])
        + (if manPow || POWERCONTROL !in regs then [] else PUMP_OFF)
  {
    var a, b, c, e := WriteBufferProg(false), (if manPow then [] else PowerOnProg()), TriggerProg(mode),
      (if manPow then [] else PowerOffProg());
    var on: seq<seq<byte>> := if manPow || POWERCONTROL !in regs then [] else [PUMP_ON];
    var off: seq<seq<byte>> := if manPow || POWERCONTROL !in regs then [] else PUMP_OFF;
    ProgWrites4(a, b, c, e, regs);
    StreamsWrites(false, 0, regs);
    assert ProgWrites(b, regs) == on by {
      if !manPow {
        PowerOnWrites(regs);
      }
    }
    TriggerProgWrites(mode, regs);
    assert ProgWrites(e, regs) == off by {
      if !manPow {
        PowerOffWrites(regs);
      }
    }
    assert [] + on == on;
  }

  /** The trigger, rails and voltage views of update. */
  lemma UpdateViews(mode: int, manPow: bool)
    ensures ProgWrites(UpdateProg(mode, manPow), TRIGGERS) == TriggerWrites(mode)
    ensures ProgWrites(UpdateProg(mode, manPow), RAILS) ==
      if manPow then TriggerWrites(mode) else [PUMP_ON] + TriggerWrites(mode) + PUMP_OFF
    ensures ProgWrites(UpdateProg(mode, manPow), TPCOMS) == []
    ensures ProgWrites(UpdateProg(mode, manPow), SOURCE_VOLTS) == []
  {
    UpdateWrites(mode, manPow, TRIGGERS);
    UpdateWrites(mode, manPow, RAILS);
    UpdateWrites(mode, manPow, TPCOMS);
    UpdateWrites(mode, manPow, SOURCE_VOLTS);
  }

  // ---------------------------------------------------------------------
  // The voltage steps

  /** The transaction setTPCOM(v) sends. */
  function TpcomBytes(v: int): seq<byte>
  {
    [TPCOM, TpcomOperands(v).0, TpcomOperands(v).1]
  }

  /** The transaction setSourceVoltage(v) sends. */
  function SourceVoltageBytes(v: int): seq<byte>
  {
    [DRIVERVOLTAGE, 0x25, SourceVoltageByte(v)]
  }

  /** setTPCOM always sends both operand bytes, and only the TPCOM register
      sees them. */
  lemma TpcomWriteSeen(v: int, regs: set<byte>)
    ensures StepWrites(TpcomWrite(v), regs) == if TPCOM in regs then [TpcomBytes(v)] else []
  {
    TpcomNeverAbsent(TpcomOperands(v).0);
    TpcomNeverAbsent(TpcomOperands(v).1);
    var s := TpcomWrite(v);
    RegisterBytesCases(s.address, s.v1, s.v2, s.v3, s.v4);
  }

  /** setSourceVoltage always sends its voltage byte, and only the
      driver-voltage register sees it. */
  lemma SourceVoltageWriteSeen(v: int, regs: set<byte>)
    ensures StepWrites(SourceVoltageWrite(v), regs) ==
      if DRIVERVOLTAGE in regs then [SourceVoltageBytes(v)] else []
  {
    SourceVoltageNeverAbsent(v);
    var s := SourceVoltageWrite(v);
    RegisterBytesCases(s.address, s.v1, s.v2, s.v3, s.v4);
  }

  /** The common voltages the recipes and clearScreen use, as the bytes sent. */
  lemma RecipeTpcomBytes()
    ensures TpcomBytes(0) == [0x1B, 0x00, 0x00]
    ensures TpcomBytes(15000) == [0x1B, 0xF4, 0x01]
    ensures TpcomBytes(-15000) == [0x1B, 0xF4, 0x05]
    ensures TpcomBytes(10000) == [0x1B, 0x4D, 0x01]
    ensures TpcomBytes(-10000) == [0x1B, 0x4D, 0x05]
  {
    TpcomExamples();
    assert TpcomMagnitude(10000) == 333 && TpcomMagnitude(-10000) == 333;
    assert Lo(333) == 0x4D && Hi(333) == 0x01;
  }

  /** The source voltages the recipes use, as the bytes sent. */
  lemma RecipeSourceVoltageBytes()
    ensures SourceVoltageBytes(13000) == [0x02, 0x25, 0xAA]
    ensures SourceVoltageBytes(15000) == [0x02, 0x25, 0xEE]
    ensures SourceVoltageBytes(10000) == [0x02, 0x25, 0x44]
  {
    SourceVoltageExamples();
  }

  /** What a view sees of a write to register `a`: `ws` if it watches `a`. */
  function Seen(regs: set<byte>, a: byte, ws: seq<seq<byte>>): seq<seq<byte>>
  {
    if a in regs then ws else []
  }

  /** The voltage heads of the recipes are seen by the voltage views only. */
  lemma VoltageWrites(t: int, sv: int, regs: set<byte>)
    ensures ProgWrites([TpcomWrite(t), SourceVoltageWrite(sv)], regs) ==
      Seen(regs, TPCOM, [TpcomBytes(t)]) + Seen(regs, DRIVERVOLTAGE, [SourceVoltageBytes(sv)])
    ensures ProgWrites([SourceVoltageWrite(sv), TpcomWrite(t)], regs) ==
      Seen(regs, DRIVERVOLTAGE, [SourceVoltageBytes(sv)]) + Seen(regs, TPCOM, [TpcomBytes(t)])
    ensures ProgWrites([SourceVoltageWrite(sv)], regs) == Seen(regs, DRIVERVOLTAGE, [SourceVoltageBytes(sv)])
    ensures ProgWrites([TpcomWrite(t)], regs) == Seen(regs, TPCOM, [TpcomBytes(t)])
  {
    TpcomWriteSeen(t, regs);
    SourceVoltageWriteSeen(sv, regs);
    ProgWritesTwo([TpcomWrite(t), SourceVoltageWrite(sv)], 0, 1, regs);
    ProgWritesTwo([SourceVoltageWrite(sv), TpcomWrite(t)], 0, 1, regs);
    ProgWritesOne([SourceVoltageWrite(sv)], 0, regs);
    ProgWritesOne([TpcomWrite(t)], 0, regs);
  }

  /** Register writes, delays and busy-waits neither poll nor touch the
      framebuffer. */
  lemma QuietCounts(p: seq<Step>, buf: seq<byte>)
    requires forall i :: 0 <= i < |p| ==> p[i].Write? || p[i].Sleep? || p[i].Busy? || p[i].ResetPin?
    ensures Pumps(p) == 0 && ProgBuf(p, buf) == buf
  {
    PumpsNone(p);
    ProgBufKept(p, buf);
  }

  /** Steps that are not register writes are invisible to every view. */
  lemma QuietWrites(p: seq<Step>, regs: set<byte>)
    requires forall i :: 0 <= i < |p| ==> !p[i].Write?
    ensures ProgWrites(p, regs) == []
  {
    ProgWritesNone(p, regs);
  }

  // ---------------------------------------------------------------------
  // Passes

  /** A pass polls once and leaves the framebuffer alone. */
  lemma PassCounts(fill: byte, mode: int, buf: seq<byte>)
    ensures Pumps(PassProg(fill, mode)) == 1
    ensures ProgBuf(PassProg(fill, mode), buf) == buf
  {
    StreamsCounts(false, fill, buf);
    UpdateCounts(mode, false, buf);
    PumpsAppend(WriteToPreviousProg(fill), UpdateProg(mode, false));
    ProgBufAppend(WriteToPreviousProg(fill), UpdateProg(mode, false), buf);
  }

  /** The views the recipe tables are about: triggers and voltages, not the
      power rails. */
  predicate RecipeView(regs: set<byte>) {
    Unwatched(regs) && POWERCONTROL !in regs
  }

  /** An update with automatic power, as a recipe view sees it: its mode's
      trigger. */
  lemma UpdateRecipeWrites(mode: int, regs: set<byte>)
    requires RecipeView(regs)
    ensures ProgWrites(UpdateProg(mode, false), regs) == Seen(regs, DISPLAYENGINE, TriggerWrites(mode))
  {
    UpdateWrites(mode, false, regs);
    var t := Seen(regs, DISPLAYENGINE, TriggerWrites(mode));
    assert [] + t + [] == t;
  }

  /** A pass, as a recipe view sees it: its mode's trigger. */
  lemma PassWrites(fill: byte, mode: int, regs: set<byte>)
    requires RecipeView(regs)
    ensures ProgWrites(PassProg(fill, mode), regs) == Seen(regs, DISPLAYENGINE, TriggerWrites(mode))
  {
    UpdateRecipeWrites(mode, regs);
    StreamsWrites(false, fill, regs);
    ProgWritesAppend(WriteToPreviousProg(fill), UpdateProg(mode, false), regs);
  }

  // ---------------------------------------------------------------------
  // The updateLegio recipes

  /** The colors updateLegio has a recipe for. */
  predicate IsRecipe(color: byte) {
    color == BLACK || color == YELLOW || color == GREEN || color == RED || color == BLUE
  }

  /** The recipe table: passes (and so charge-pump polls) of each color. */
  function RecipePasses(color: byte): nat
  {
    if color == BLACK then 10
    else if color == YELLOW then 3
    else if color == GREEN then 3
    else if color == RED then 4
    else if color == BLUE then 6
    else 0
  }

  /** The recipe table: the trigger writes of each color, loop by loop. */
  function RecipeTriggers(color: byte): seq<seq<byte>>
  {
    if color == BLACK then Repeat([FULL_TRIGGER, FULL_TRIGGER], 5)
    else if color == YELLOW then Repeat([FULL_TRIGGER], 3)
    else if color == GREEN then Repeat([MONO_TRIGGER], 3)
    else if color == RED then Repeat([MONO_TRIGGER, MONO_TRIGGER], 2)
    else if color == BLUE then Repeat([MONO_TRIGGER, MONO_TRIGGER], 2) + Repeat([MONO_TRIGGER], 2)
    else []
  }

  /** The recipe table: the common-voltage writes of each color (0 V; +15 V;
      0 V; +10 V and -10 V twice; the same, then -10 V). */
  function RecipeTpcoms(color: byte): seq<seq<byte>>
  {
    if color == BLACK then [[0x1B, 0x00, 0x00]]
    else if color == YELLOW then [[0x1B, 0xF4, 0x01]]
    else if color == GREEN then [[0x1B, 0x00, 0x00]]
    else if color == RED then Repeat([[0x1B, 0x4D, 0x01], [0x1B, 0x4D, 0x05]], 2)
    else if color == BLUE then Repeat([[0x1B, 0x4D, 0x01], [0x1B, 0x4D, 0x05]], 2) + [[0x1B, 0x4D, 0x05]]
    else []
  }

  /** The recipe table: the source-voltage writes of each color (13 V; 15 V;
      13 V; 10 V; 10 V twice). */
  function RecipeSourceVolts(color: byte): seq<seq<byte>>
  {
    if color == BLACK then [[0x02, 0x25, 0xAA]]
    else if color == YELLOW then [[0x02, 0x25, 0xEE]]
    else if color == GREEN then [[0x02, 0x25, 0xAA]]
    else if color == RED then [[0x02, 0x25, 0x44]]
    else if color == BLUE then [[0x02, 0x25, 0x44], [0x02, 0x25, 0x44]]
    else []
  }

  lemma BlackWrites(regs: set<byte>)
    requires RecipeView(regs)
    ensures ProgWrites(BlackProg(), regs) ==
      Seen(regs, TPCOM, [TpcomBytes(0)]) + Seen(regs, DRIVERVOLTAGE, [SourceVoltageBytes(13000)])
        + Repeat(Seen(regs, DISPLAYENGINE, [FULL_TRIGGER]) + Seen(regs, DISPLAYENGINE, [FULL_TRIGGER]), 5)
  {
    var h, i, pass := [TpcomWrite(0), SourceVoltageWrite(13000)], [InvertAll], PassProg(LGRAY, UPD_FULL);
    var body := pass + pass;
    var r := Repeat(body, 5);
    ProgWrites4(h, i, r, i, regs);
    VoltageWrites(0, 13000, regs);
    QuietWrites(i, regs);
    DropEvens(ProgWrites(h, regs), ProgWrites(i, regs), ProgWrites(r, regs), ProgWrites(i, regs));
    PassWrites(LGRAY, UPD_FULL, regs);
    ProgWritesAppend(pass, pass, regs);
    ProgWritesRepeat(body, 5, regs);
  }

  lemma BlackCounts(buf: seq<byte>)
    ensures Pumps(BlackProg()) == 10
    ensures ProgBuf(BlackProg(), buf) == buf
  {
    var h, i, pass := [TpcomWrite(0), SourceVoltageWrite(13000)], [InvertAll], PassProg(LGRAY, UPD_FULL);
    var body := pass + pass;
    var r := Repeat(body, 5);
    var c := Complement(buf);
    QuietCounts(h, buf);
    PumpsNone(i);
    PassCounts(LGRAY, UPD_FULL, c);
    PumpsAppend(pass, pass);
    PumpsRepeat(body, 5);
    PumpsAppend(h, i);
    PumpsAppend(h + i, r);
    PumpsAppend(h + i + r, i);
    ProgBufAppend(pass, pass, c);
    ProgBufRepeat(body, 5, c);
    ProgBufOne(InvertAll, buf);
    ProgBufOne(InvertAll, c);
    ProgBufAppend(h, i, buf);
    ProgBufAppend(h + i, r, buf);
    ProgBufAppend(h + i + r, i, buf);
    ComplementTwice(buf);
  }

  lemma YellowWrites(regs: set<byte>)
    requires RecipeView(regs)
    ensures ProgWrites(YellowProg(), regs) ==
      Seen(regs, TPCOM, [TpcomBytes(15000)]) + Seen(regs, DRIVERVOLTAGE, [SourceVoltageBytes(15000)])
        + Repeat(Seen(regs, DISPLAYENGINE, [FULL_TRIGGER]), 3)
  {
    var h, pass := [TpcomWrite(15000), SourceVoltageWrite(15000)], PassProg(LGRAY, UPD_FULL);
    VoltageWrites(15000, 15000, regs);
    PassWrites(LGRAY, UPD_FULL, regs);
    ProgWritesRepeat(pass, 3, regs);
    ProgWritesAppend(h, Repeat(pass, 3), regs);
  }

  lemma YellowCounts(buf: seq<byte>)
    ensures Pumps(YellowProg()) == 3
    ensures ProgBuf(YellowProg(), buf) == buf
  {
    var h, pass := [TpcomWrite(15000), SourceVoltageWrite(15000)], PassProg(LGRAY, UPD_FULL);
    QuietCounts(h, buf);
    PassCounts(LGRAY, UPD_FULL, buf);
    PumpsRepeat(pass, 3);
    PumpsAppend(h, Repeat(pass, 3));
    ProgBufRepeat(pass, 3, buf);
    ProgBufAppend(h, Repeat(pass, 3), buf);
  }

  lemma GreenWrites(regs: set<byte>)
    requires RecipeView(regs)
    ensures ProgWrites(GreenProg(), regs) ==
      Seen(regs, TPCOM, [TpcomBytes(0)]) + Seen(regs, DRIVERVOLTAGE, [SourceVoltageBytes(13000)])
        + Repeat(Seen(regs, DISPLAYENGINE, [MONO_TRIGGER]), 3)
  {
    var h, pass := [TpcomWrite(0), SourceVoltageWrite(13000)], PassProg(WHITE, UPD_MONO);
    VoltageWrites(0, 13000, regs);
    PassWrites(WHITE, UPD_MONO, regs);
    ProgWritesRepeat(pass, 3, regs);
    ProgWritesAppend(h, Repeat(pass, 3), regs);
  }

  lemma GreenCounts(buf: seq<byte>)
    ensures Pumps(GreenProg()) == 3
    ensures ProgBuf(GreenProg(), buf) == buf
  {
    var h, pass := [TpcomWrite(0), SourceVoltageWrite(13000)], PassProg(WHITE, UPD_MONO);
    QuietCounts(h, buf);
    PassCounts(WHITE, UPD_MONO, buf);
    PumpsRepeat(pass, 3);
    PumpsAppend(h, Repeat(pass, 3));
    ProgBufRepeat(pass, 3, buf);
    ProgBufAppend(h, Repeat(pass, 3), buf);
  }

  /** Half a RED round: its TPCOM write, then a mono trigger. */
  lemma RedHalfWrites(v: int, regs: set<byte>)
    requires RecipeView(regs)
    ensures ProgWrites(RedHalfProg(v), regs) ==
      Seen(regs, TPCOM, [TpcomBytes(v)]) + Seen(regs, DISPLAYENGINE, [MONO_TRIGGER])
  {
    var a, b, c, e := WriteToPreviousProg(LGRAY), [TpcomWrite(v)], UpdateProg(UPD_MONO, false), [InvertAll, Sleep(10)];
    assert ProgWrites(b, regs) == Seen(regs, TPCOM, [TpcomBytes(v)]) by {
      TpcomWriteSeen(v, regs);
      ProgWritesOne(b, 0, regs);
    }
    StreamsWrites(false, LGRAY, regs);
    UpdateRecipeWrites(UPD_MONO, regs);
    QuietWrites(e, regs);
    ProgWrites4(a, b, c, e, regs);
    DropOuter(ProgWrites(a, regs), ProgWrites(b, regs), ProgWrites(c, regs), ProgWrites(e, regs));
  }

  /** Half a RED round polls once and inverts the framebuffer. */
  lemma RedHalfCounts(v: int, buf: seq<byte>)
    ensures Pumps(RedHalfProg(v)) == 1
    ensures ProgBuf(RedHalfProg(v), buf) == Complement(buf)
  {
    var a, b, c, e := WriteToPreviousProg(LGRAY), [TpcomWrite(v)], UpdateProg(UPD_MONO, false), [InvertAll, Sleep(10)];
    StreamsCounts(false, LGRAY, buf);
    QuietCounts(b, buf);
    UpdateCounts(UPD_MONO, false, buf);
    PumpsNone(e);
    assert e == [InvertAll] + [Sleep(10)];
    ProgBufOne(InvertAll, buf);
    QuietCounts([Sleep(10)], Complement(buf));
    ProgBufAppend([InvertAll], [Sleep(10)], buf);
    PumpsAppend(a, b);
    PumpsAppend(a + b, c);
    PumpsAppend(a + b + c, e);
    ProgBufAppend(a, b, buf);
    ProgBufAppend(a + b, c, buf);
    ProgBufAppend(a + b + c, e, buf);
  }

  /** A RED round: +10 V, trigger, -10 V, trigger. */
  lemma RedRoundWrites(regs: set<byte>)
    requires RecipeView(regs)
    ensures ProgWrites(RedRoundProg(), regs) ==
      Seen(regs, TPCOM, [TpcomBytes(10000)]) + Seen(regs, DISPLAYENGINE, [MONO_TRIGGER])
        + Seen(regs, TPCOM, [TpcomBytes(-10000)]) + Seen(regs, DISPLAYENGINE, [MONO_TRIGGER])
  {
    RedHalfWrites(10000, regs);
    RedHalfWrites(-10000, regs);
    ProgWritesAppend(RedHalfProg(10000), RedHalfProg(-10000), regs);
  }

  /** A RED round polls twice and inverts twice, which restores the buffer. */
  lemma RedRoundCounts(buf: seq<byte>)
    ensures Pumps(RedRoundProg()) == 2
    ensures ProgBuf(RedRoundProg(), buf) == buf
  {
    RedHalfCounts(10000, buf);
    RedHalfCounts(-10000, Complement(buf));
    PumpsAppend(RedHalfProg(10000), RedHalfProg(-10000));
    ProgBufAppend(RedHalfProg(10000), RedHalfProg(-10000), buf);
    ComplementTwice(buf);
  }

  lemma RedWrites(regs: set<byte>)
    requires RecipeView(regs)
    ensures ProgWrites(RedProg(), regs) ==
      Seen(regs, DRIVERVOLTAGE, [SourceVoltageBytes(10000)])
        + Repeat(Seen(regs, TPCOM, [TpcomBytes(10000)]) + Seen(regs, DISPLAYENGINE, [MONO_TRIGGER])
          + Seen(regs, TPCOM, [TpcomBytes(-10000)]) + Seen(regs, DISPLAYENGINE, [MONO_TRIGGER]), 2)
  {
    VoltageWrites(0, 10000, regs);
    RedRoundWrites(regs);
    ProgWritesRepeat(RedRoundProg(), 2, regs);
    ProgWritesAppend([SourceVoltageWrite(10000)], Repeat(RedRoundProg(), 2), regs);
  }

  lemma RedCounts(buf: seq<byte>)
    ensures Pumps(RedProg()) == 4
    ensures ProgBuf(RedProg(), buf) == buf
  {
    QuietCounts([SourceVoltageWrite(10000)], buf);
    RedRoundCounts(buf);
    PumpsRepeat(RedRoundProg(), 2);
    PumpsAppend([SourceVoltageWrite(10000)], Repeat(RedRoundProg(), 2));
    ProgBufRepeat(RedRoundProg(), 2, buf);
    ProgBufAppend([SourceVoltageWrite(10000)], Repeat(RedRoundProg(), 2), buf);
  }

  lemma BlueWrites(regs: set<byte>)
    requires RecipeView(regs)
    ensures ProgWrites(BlueProg(), regs) ==
      ProgWrites(RedProg(), regs)
        + (Seen(regs, DRIVERVOLTAGE, [SourceVoltageBytes(10000)]) + Seen(regs, TPCOM, [TpcomBytes(-10000)]))
        + Repeat(Seen(regs, DISPLAYENGINE, [MONO_TRIGGER]), 2)
  {
    VoltageWrites(-10000, 10000, regs);
    QuietWrites([InvertAll], regs);
    BlueTailWrites(regs);
    ProgWritesSkipThird(RedProg(), [SourceVoltageWrite(10000), TpcomWrite(-10000)], [InvertAll],
      Repeat(BlueTailPass(), 2), regs);
  }

  /** The closing passes of BLUE show only their two monochrome triggers. */
  lemma BlueTailWrites(regs: set<byte>)
    requires RecipeView(regs)
    ensures ProgWrites(Repeat(BlueTailPass(), 2), regs) == Repeat(Seen(regs, DISPLAYENGINE, [MONO_TRIGGER]), 2)
  {
    PassWrites(LGRAY, UPD_MONO, regs);
    QuietWrites([Sleep(1)], regs);
    ProgWritesAppend(PassProg(LGRAY, UPD_MONO), [Sleep(1)], regs);
    DropLast(ProgWrites(PassProg(LGRAY, UPD_MONO), regs), ProgWrites([Sleep(1)], regs));
    ProgWritesRepeat(BlueTailPass(), 2, regs);
  }

  lemma BlueCounts(buf: seq<byte>)
    ensures Pumps(BlueProg()) == 6
    ensures ProgBuf(BlueProg(), buf) == Complement(buf)
  {
    RedCounts(buf);
    VoltageWritesCounts(10000, -10000, buf);
    BlueTailCounts(Complement(buf));
    BlueSkeletonCounts(RedProg(), [SourceVoltageWrite(10000), TpcomWrite(-10000)], Repeat(BlueTailPass(), 2), buf);
  }

  /** BLUE's shape: a buffer-preserving part `a` with four polls, quiet writes
      `b`, the inversion, and a buffer-preserving part `e` with two polls. */
  lemma BlueSkeletonCounts(a: seq<Step>, b: seq<Step>, e: seq<Step>, buf: seq<byte>)
    requires Pumps(a) == 4 && ProgBuf(a, buf) == buf
    requires Pumps(b) == 0 && ProgBuf(b, buf) == buf
    requires Pumps(e) == 2 && ProgBuf(e, Complement(buf)) == Complement(buf)
    ensures Pumps(a + b + [InvertAll] + e) == 6
    ensures ProgBuf(a + b + [InvertAll] + e, buf) == Complement(buf)
  {
    var c := [InvertAll];
    assert Pumps(a + b + c + e) == 6 by {
      PumpsNone(c);
      PumpsAppend(a, b);
      PumpsAppend(a + b, c);
      PumpsAppend(a + b + c, e);
    }
    assert ProgBuf(a + b + c + e, buf) == Complement(buf) by {
      ProgBufOne(InvertAll, buf);
      ProgBufAppend(a, b, buf);
      ProgBufAppend(a + b, c, buf);
      ProgBufAppend(a + b + c, e, buf);
    }
  }

  /** A source-voltage write and a TPCOM write neither poll nor touch the
      buffer, whatever the voltages. */
  lemma VoltageWritesCounts(u: int, w: int, buf: seq<byte>)
    ensures Pumps([SourceVoltageWrite(u), TpcomWrite(w)]) == 0
    ensures ProgBuf([SourceVoltageWrite(u), TpcomWrite(w)], buf) == buf
  {
    QuietCounts([SourceVoltageWrite(u), TpcomWrite(w)], buf);
  }

  /** The closing passes of BLUE poll once each and leave the buffer alone. */
  lemma BlueTailCounts(x: seq<byte>)
    ensures Pumps(Repeat(BlueTailPass(), 2)) == 2
    ensures ProgBuf(Repeat(BlueTailPass(), 2), x) == x
  {
    PassCounts(LGRAY, UPD_MONO, x);
    QuietCounts([Sleep(1)], x);
    PumpsAppend(PassProg(LGRAY, UPD_MONO), [Sleep(1)]);
    ProgBufAppend(PassProg(LGRAY, UPD_MONO), [Sleep(1)], x);
    PumpsRepeat(BlueTailPass(), 2);
    ProgBufRepeat(BlueTailPass(), 2, x);
  }

  /** What a recipe view sees of each recipe, register by register. */
  function RecipeWrites(color: byte, regs: set<byte>): seq<seq<byte>>
  {
    var full, mono := Seen(regs, DISPLAYENGINE, [FULL_TRIGGER]), Seen(regs, DISPLAYENGINE, [MONO_TRIGGER]);
    if color == BLACK then
      Seen(regs, TPCOM, [TpcomBytes(0)]) + Seen(regs, DRIVERVOLTAGE, [SourceVoltageBytes(13000)])
        + Repeat(full + full, 5)
    else if color == YELLOW then
      Seen(regs, TPCOM, [TpcomBytes(15000)]) + Seen(regs, DRIVERVOLTAGE, [SourceVoltageBytes(15000)])
        + Repeat(full, 3)
    else if color == GREEN then
      Seen(regs, TPCOM, [TpcomBytes(0)]) + Seen(regs, DRIVERVOLTAGE, [SourceVoltageBytes(13000)])
        + Repeat(mono, 3)
    else if color == RED then
      RedWritesOf(regs)
    else if color == BLUE then
      RedWritesOf(regs)
        + (Seen(regs, DRIVERVOLTAGE, [SourceVoltageBytes(10000)]) + Seen(regs, TPCOM, [TpcomBytes(-10000)]))
        + Repeat(mono, 2)
    else []
  }

  /** What a recipe view sees of the RED recipe. */
  function RedWritesOf(regs: set<byte>): seq<seq<byte>>
  {
    var mono := Seen(regs, DISPLAYENGINE, [MONO_TRIGGER]);
    Seen(regs, DRIVERVOLTAGE, [SourceVoltageBytes(10000)])
      + Repeat(Seen(regs, TPCOM, [TpcomBytes(10000)]) + mono + Seen(regs, TPCOM, [TpcomBytes(-10000)]) + mono, 2)
  }

  /** updateLegio(color), as any recipe view sees it. */
  lemma LegioWrites(color: byte, regs: set<byte>)
    requires RecipeView(regs)
    ensures ProgWrites(LegioProg(color), regs) == RecipeWrites(color, regs)
  {
    if color == BLACK {
      BlackWrites(regs);
    } else if color == YELLOW {
      YellowWrites(regs);
    } else if color == GREEN {
      GreenWrites(regs);
    } else if color == RED {
      RedWrites(regs);
    } else if color == BLUE {
      RedWrites(regs);
      BlueWrites(regs);
    } else {
      QuietWrites(LegioProg(color), regs);
    }
  }

  /** The trigger view of the recipes is the trigger column of the table. */
  lemma RecipeTriggersTable(color: byte)
    ensures RecipeWrites(color, TRIGGERS) == RecipeTriggers(color)
  {
    var f, m := [FULL_TRIGGER], [MONO_TRIGGER];
    if color == BLACK {
      assert f + f == [FULL_TRIGGER, FULL_TRIGGER];
      assert [] + [] + Repeat(f + f, 5) == Repeat(f + f, 5);
    } else if color == YELLOW {
      assert [] + [] + Repeat(f, 3) == Repeat(f, 3);
    } else if color == GREEN {
      assert [] + [] + Repeat(m, 3) == Repeat(m, 3);
    } else if color == RED {
      assert [] + m + [] + m == [MONO_TRIGGER, MONO_TRIGGER];
      assert [] + Repeat([MONO_TRIGGER, MONO_TRIGGER], 2) == Repeat([MONO_TRIGGER, MONO_TRIGGER], 2);
    } else if color == BLUE {
      assert [] + m + [] + m == [MONO_TRIGGER, MONO_TRIGGER];
      assert [] + Repeat([MONO_TRIGGER, MONO_TRIGGER], 2) == Repeat([MONO_TRIGGER, MONO_TRIGGER], 2);
      assert [] + [] == Seen(TRIGGERS, TPCOM, [TpcomBytes(-10000)]);
    }
  }

  /** The common-voltage view of the recipes is the TPCOM column of the table. */
  lemma RecipeTpcomsTable(color: byte)
    ensures RecipeWrites(color, TPCOMS) == RecipeTpcoms(color)
  {
    var e: seq<seq<byte>> := [];
    RecipeTpcomBytes();
    if color == BLACK {
      RepeatEmpty<seq<byte>>(5);
      assert e + e == e;
      assert [TpcomBytes(0)] + e + e == [[0x1B, 0x00, 0x00]];
    } else if color == YELLOW {
      RepeatEmpty<seq<byte>>(3);
      assert [TpcomBytes(15000)] + e + e == [[0x1B, 0xF4, 0x01]];
    } else if color == GREEN {
      RepeatEmpty<seq<byte>>(3);
      assert [TpcomBytes(0)] + e + e == [[0x1B, 0x00, 0x00]];
    } else if color == RED || color == BLUE {
      var round := [TpcomBytes(10000)] + e + [TpcomBytes(-10000)] + e;
      assert round == [[0x1B, 0x4D, 0x01], [0x1B, 0x4D, 0x05]];
      assert RedWritesOf(TPCOMS) == e + Repeat(round, 2);
      assert e + Repeat(round, 2) == Repeat(round, 2);
      if color == BLUE {
        RepeatEmpty<seq<byte>>(2);
        assert e + [TpcomBytes(-10000)] == [[0x1B, 0x4D, 0x05]];
        assert Repeat(round, 2) + [[0x1B, 0x4D, 0x05]] + e == Repeat(round, 2) + [[0x1B, 0x4D, 0x05]];
      }
    }
  }

  /** The source-voltage view of the recipes is the voltage column of the table. */
  lemma RecipeSourceVoltsTable(color: byte)
    ensures RecipeWrites(color, SOURCE_VOLTS) == RecipeSourceVolts(color)
  {
    var e: seq<seq<byte>> := [];
    RecipeSourceVoltageBytes();
    if color == BLACK {
      RepeatEmpty<seq<byte>>(5);
      assert e + e == e;
      assert e + [SourceVoltageBytes(13000)] + e == [[0x02, 0x25, 0xAA]];
    } else if color == YELLOW {
      RepeatEmpty<seq<byte>>(3);
      assert e + [SourceVoltageBytes(15000)] + e == [[0x02, 0x25, 0xEE]];
    } else if color == GREEN {
      RepeatEmpty<seq<byte>>(3);
      assert e + [SourceVoltageBytes(13000)] + e == [[0x02, 0x25, 0xAA]];
    } else if color == RED || color == BLUE {
      assert e + e + e + e == e;
      RepeatEmpty<seq<byte>>(2);
      assert RedWritesOf(SOURCE_VOLTS) == [SourceVoltageBytes(10000)] + e;
      assert [SourceVoltageBytes(10000)] + e == [[0x02, 0x25, 0x44]];
      if color == BLUE {
        assert [[0x02, 0x25, 0x44]] + ([SourceVoltageBytes(10000)] + e) + e == [[0x02, 0x25, 0x44], [0x02, 0x25, 0x44]];
      }
    }
  }

  /** updateLegio(color) polls the pump once per pass of the table, and leaves
      the framebuffer as it found it except after BLUE (five inverts), which
      leaves it complemented; a color without a recipe does nothing at all. */
  lemma LegioCounts(color: byte, buf: seq<byte>)
    ensures Pumps(LegioProg(color)) == RecipePasses(color)
    ensures ProgBuf(LegioProg(color), buf) == if color == BLUE then Complement(buf) else buf
    ensures !IsRecipe(color) ==> LegioProg(color) == []
  {
    if color == BLACK {
      BlackCounts(buf);
    } else if color == YELLOW {
      YellowCounts(buf);
    } else if color == GREEN {
      GreenCounts(buf);
    } else if color == RED {
      RedCounts(buf);
    } else if color == BLUE {
      BlueCounts(buf);
    }
  }

  /** Every pass of a recipe triggers exactly one waveform. */
  lemma RecipeTriggersPerPass(color: byte)
    ensures |RecipeTriggers(color)| == RecipePasses(color)
  {
    if color == BLACK {
      RepeatLength([FULL_TRIGGER, FULL_TRIGGER], 5);
    } else if color == YELLOW {
      RepeatLength([FULL_TRIGGER], 3);
    } else if color == GREEN {
      RepeatLength([MONO_TRIGGER], 3);
    } else if color == RED || color == BLUE {
      RepeatLength([MONO_TRIGGER, MONO_TRIGGER], 2);
      RepeatLength([MONO_TRIGGER], 2);
    }
  }

  // ---------------------------------------------------------------------
  // clearScreen and begin

  /** Half a clearScreen round: its TPCOM write, then three full triggers. */
  lemma EraseHalfWrites(v: int, level: byte, regs: set<byte>)
    requires RecipeView(regs)
    ensures ProgWrites(EraseHalfProg(v, level), regs) ==
      Seen(regs, TPCOM, [TpcomBytes(v)]) + Repeat(Seen(regs, DISPLAYENGINE, [FULL_TRIGGER]), 3)
  {
    var h, pass, s := [TpcomWrite(v), ClearTo(level)], PassProg(LGRAY, UPD_FULL), [Sleep(1)];
    var r := Repeat(pass, 3);
    assert ProgWrites(h, regs) == Seen(regs, TPCOM, [TpcomBytes(v)]) by {
      TpcomWriteSeen(v, regs);
      ProgWritesOne(h, 0, regs);
    }
    assert ProgWrites(r, regs) == Repeat(Seen(regs, DISPLAYENGINE, [FULL_TRIGGER]), 3) by {
      PassWrites(LGRAY, UPD_FULL, regs);
      ProgWritesRepeat(pass, 3, regs);
    }
    QuietWrites(s, regs);
    ProgWrites3(h, r, s, regs);
    DropLast(ProgWrites(h, regs) + ProgWrites(r, regs), ProgWrites(s, regs));
  }

  /** Half a clearScreen round polls three times and leaves the buffer
      cleared to its level. */
  lemma EraseHalfCounts(v: int, level: byte, buf: seq<byte>)
    ensures Pumps(EraseHalfProg(v, level)) == 3
    ensures ProgBuf(EraseHalfProg(v, level), buf) == Cleared(buf, level)
  {
    var h, pass, s := [TpcomWrite(v), ClearTo(level)], PassProg(LGRAY, UPD_FULL), [Sleep(1)];
    var r := Repeat(pass, 3);
    var c := Cleared(buf, level);
    PumpsNone(h);
    assert h == [TpcomWrite(v)] + [ClearTo(level)];
    ProgBufAppend([TpcomWrite(v)], [ClearTo(level)], buf);
    ProgBufOne(TpcomWrite(v), buf);
    ProgBufOne(ClearTo(level), buf);
    PassCounts(LGRAY, UPD_FULL, c);
    PumpsRepeat(pass, 3);
    ProgBufRepeat(pass, 3, c);
    QuietCounts(s, c);
    PumpsAppend(h, r);
    PumpsAppend(h + r, s);
    ProgBufAppend(h, r, buf);
    ProgBufAppend(h + r, s, buf);
  }

  /** A clearScreen round: +15 V and three triggers, -15 V and three more. */
  lemma EraseRoundWrites(regs: set<byte>)
    requires RecipeView(regs)
    ensures ProgWrites(EraseRoundProg(), regs) ==
      Seen(regs, TPCOM, [TpcomBytes(15000)]) + Repeat(Seen(regs, DISPLAYENGINE, [FULL_TRIGGER]), 3)
        + (Seen(regs, TPCOM, [TpcomBytes(-15000)]) + Repeat(Seen(regs, DISPLAYENGINE, [FULL_TRIGGER]), 3))
  {
    EraseHalfWrites(15000, BLACK, regs);
    EraseHalfWrites(-15000, WHITE, regs);
    ProgWritesAppend(EraseHalfProg(15000, BLACK), EraseHalfProg(-15000, WHITE), regs);
  }

  /** A clearScreen round polls six times and ends on a white buffer. */
  lemma EraseRoundCounts(buf: seq<byte>)
    ensures Pumps(EraseRoundProg()) == 6
    ensures ProgBuf(EraseRoundProg(), buf) == Fill(|buf|, WHITE)
  {
    EraseHalfCounts(15000, BLACK, buf);
    EraseHalfCounts(-15000, WHITE, Cleared(buf, BLACK));
    PumpsAppend(EraseHalfProg(15000, BLACK), EraseHalfProg(-15000, WHITE));
    ProgBufAppend(EraseHalfProg(15000, BLACK), EraseHalfProg(-15000, WHITE), buf);
  }

  /** The closing steps of clearScreen: clear() to white, TPCOM 0 V. */
  function ClearScreenTail(): seq<Step>
  {
    [ClearTo(WHITE), TpcomWrite(0)]
  }

  /** The closing steps do not poll and leave the buffer all white. */
  lemma ClearScreenTailCounts(buf: seq<byte>)
    ensures Pumps(ClearScreenTail()) == 0
    ensures ProgBuf(ClearScreenTail(), buf) == Fill(|buf|, WHITE)
  {
    var t := ClearScreenTail();
    PumpsNone(t);
    assert t == [ClearTo(WHITE)] + [TpcomWrite(0)];
    ProgBufAppend([ClearTo(WHITE)], [TpcomWrite(0)], buf);
    ProgBufOne(ClearTo(WHITE), buf);
    ProgBufOne(TpcomWrite(0), Fill(|buf|, WHITE));
  }

  /** clearScreen polls twelve times and, whatever the buffer held, leaves it
      all white. */
  lemma ClearScreenCounts(buf: seq<byte>)
    ensures Pumps(ClearScreenProg()) == 12
    ensures ProgBuf(ClearScreenProg(), buf) == Fill(|buf|, WHITE)
  {
    var rounds, t := Repeat(EraseRoundProg(), 2), ClearScreenTail();
    var x := ProgBuf(rounds, buf);
    EraseRoundCounts(buf);
    PumpsRepeat(EraseRoundProg(), 2);
    ClearScreenTailCounts(x);
    PumpsAppend(rounds, t);
    ProgBufAppend(rounds, t, buf);
  }

  /** What a recipe view sees of clearScreen: two rounds, then TPCOM 0 V. */
  lemma ClearScreenWrites(regs: set<byte>)
    requires RecipeView(regs)
    ensures ProgWrites(ClearScreenProg(), regs) ==
      Repeat(Seen(regs, TPCOM, [TpcomBytes(15000)]) + Repeat(Seen(regs, DISPLAYENGINE, [FULL_TRIGGER]), 3)
        + (Seen(regs, TPCOM, [TpcomBytes(-15000)]) + Repeat(Seen(regs, DISPLAYENGINE, [FULL_TRIGGER]), 3)), 2)
        + Seen(regs, TPCOM, [TpcomBytes(0)])
  {
    var rounds, t := Repeat(EraseRoundProg(), 2), ClearScreenTail();
    EraseRoundWrites(regs);
    ProgWritesRepeat(EraseRoundProg(), 2, regs);
    TpcomWriteSeen(0, regs);
    ProgWritesOne(t, 1, regs);
    ProgWritesAppend(rounds, t, regs);
  }

  /** The clearScreen entries of the table: twelve full triggers. */
  lemma ClearScreenTriggers()
    ensures ProgWrites(ClearScreenProg(), TRIGGERS) == Repeat([FULL_TRIGGER], 12)
  {
    ClearScreenWrites(TRIGGERS);
    var f := [FULL_TRIGGER];
    var e: seq<seq<byte>> := [];
    var half := Repeat(f, 3);
    assert Seen(TRIGGERS, TPCOM, [TpcomBytes(15000)]) == e && Seen(TRIGGERS, TPCOM, [TpcomBytes(-15000)]) == e;
    assert Seen(TRIGGERS, TPCOM, [TpcomBytes(0)]) == e && Seen(TRIGGERS, DISPLAYENGINE, f) == f;
    TwelveTriggers(ProgWrites(ClearScreenProg(), TRIGGERS), f, e);
  }

  lemma TwelveTriggers(w: seq<seq<byte>>, f: seq<seq<byte>>, e: seq<seq<byte>>)
    requires e == []
    requires w == Repeat(e + Repeat(f, 3) + (e + Repeat(f, 3)), 2) + e
    ensures w == Repeat(f, 12)
  {
    var half := Repeat(f, 3);
    assert e + half + (e + half) == half + half;
    RepeatAdd(f, 3, 3);
    RepeatRepeat(f, 6, 2);
  }

  /** The clearScreen entries of the table: +15 V, -15 V twice, then 0 V. */
  lemma ClearScreenTpcoms()
    ensures ProgWrites(ClearScreenProg(), TPCOMS) ==
      Repeat([[0x1B, 0xF4, 0x01], [0x1B, 0xF4, 0x05]], 2) + [[0x1B, 0x00, 0x00]]
  {
    ClearScreenWrites(TPCOMS);
    RecipeTpcomBytes();
    var e: seq<seq<byte>> := [];
    RepeatEmpty<seq<byte>>(3);
    assert [TpcomBytes(15000)] + e + ([TpcomBytes(-15000)] + e) == [[0x1B, 0xF4, 0x01], [0x1B, 0xF4, 0x05]];
  }

  /** clearScreen does not touch the source voltage. */
  lemma ClearScreenSourceVolts()
    ensures ProgWrites(ClearScreenProg(), SOURCE_VOLTS) == []
  {
    ClearScreenWrites(SOURCE_VOLTS);
    var e: seq<seq<byte>> := [];
    RepeatEmpty<seq<byte>>(3);
    assert e + e + (e + e) == e;
    RepeatEmpty<seq<byte>>(2);
  }

  /** The configuration registers of begin other than the two voltages. */
  predicate ConfigUnwatched(regs: set<byte>) {
    PANELSETTING !in regs && WRITEPXRECTSET !in regs && VCOMCONFIG !in regs &&
    INTERVALSYNC !in regs && BORDERSETTING !in regs && LOADMONOWF !in regs &&
    INTTEMPERATURE !in regs && BOOSTSETTING !in regs
  }

  /** The reset is invisible to a view that does not watch the software-reset
      command; neither variant polls or touches the framebuffer. */
  lemma ResetWrites(hasResetPin: bool, regs: set<byte>)
    requires SOFTWARERESET !in regs
    ensures ProgWrites(ResetProg(hasResetPin), regs) == []
  {
    ProgWritesNone(ResetProg(hasResetPin), regs);
  }

  /** begin's configuration, as a voltage view sees it: 0xFF to the driver
      voltage, then TPCOM 0 V. */
  lemma ConfigureWrites(regs: set<byte>)
    requires ConfigUnwatched(regs)
    ensures ProgWrites(ConfigureProg(), regs) ==
      Seen(regs, DRIVERVOLTAGE, [[0x02, 0x25, 0xFF]]) + Seen(regs, TPCOM, [[0x1B, 0x00, 0x00]])
  {
    RegisterBytesCases(DRIVERVOLTAGE, 0x25, 0xFF, ABSENT, ABSENT);
    RegisterBytesCases(TPCOM, 0, 0, ABSENT, ABSENT);
    ProgWritesTwo(ConfigureProg(), 4, 9, regs);
  }

  /** Neither reset variant polls or touches the framebuffer. */
  lemma ResetCounts(hasResetPin: bool, buf: seq<byte>)
    ensures Pumps(ResetProg(hasResetPin)) == 0 && ProgBuf(ResetProg(hasResetPin), buf) == buf
  {
    QuietCounts(ResetProg(hasResetPin), buf);
  }

  /** The configuration neither polls nor touches the framebuffer. */
  lemma ConfigureCounts(buf: seq<byte>)
    ensures Pumps(ConfigureProg()) == 0 && ProgBuf(ConfigureProg(), buf) == buf
  {
    QuietCounts(ConfigureProg(), buf);
  }

  /** begin polls twelve times (all in clearScreen) and leaves the buffer all
      white. */
  lemma BeginCounts(hasResetPin: bool, buf: seq<byte>)
    ensures Pumps(BeginProg(hasResetPin)) == 12
    ensures ProgBuf(BeginProg(hasResetPin), buf) == Fill(|buf|, WHITE)
  {
    var a, b, c := ResetProg(hasResetPin), ConfigureProg(), ClearScreenProg();
    ResetCounts(hasResetPin, buf);
    ConfigureCounts(buf);
    ClearScreenCounts(buf);
    PumpsAppend(a, b);
    PumpsAppend(a + b, c);
    ProgBufAppend(a, b, buf);
    ProgBufAppend(a + b, c, buf);
  }

  /** What a recipe view that also ignores the configuration registers sees of
      begin: the configured voltages, then clearScreen. */
  lemma BeginWrites(hasResetPin: bool, regs: set<byte>)
    requires RecipeView(regs) && ConfigUnwatched(regs) && SOFTWARERESET !in regs
    ensures ProgWrites(BeginProg(hasResetPin), regs) ==
      Seen(regs, DRIVERVOLTAGE, [[0x02, 0x25, 0xFF]]) + Seen(regs, TPCOM, [[0x1B, 0x00, 0x00]])
        + ProgWrites(ClearScreenProg(), regs)
  {
    var a, b, c := ResetProg(hasResetPin), ConfigureProg(), ClearScreenProg();
    ResetWrites(hasResetPin, regs);
    ConfigureWrites(regs);
    ProgWritesSkip(a, b, c, regs);
  }
}
