# PL_smallSEG in Dafny

A model of `PL_smallSEG`, the Arduino driver for Plastic Logic segmented
e-paper panels built on the UC8156 controller, with proofs about what the
driver sends to the controller and what it leaves in its framebuffer.

The driver object is the class `Driver.SmallSeg`. It has:

- the three pin numbers;
- the framebuffer, an 8760-byte `array<byte>` whose methods update it in place;
- `log`, an append-only record of what has gone out on the bus;
- `replies`, the queue of bytes the controller will return to register reads.

The log is kept as `Op`s:

- `Txn(bytes)` is one SPI transaction, the bytes between chip-select low and chip-select high;
- `Wait` is a busy-wait;
- `Pause(ms)` is a delay;
- `Pin(high)` is a reset-pin write.

`Wire` gives the same actions as single pin and SPI events. `Wire.ParseLower`
and `Wire.LowerParse` prove that grouping events into transactions loses
nothing.

Every routine of the source is a method of the class. Each method is proved
to leave the object (`View()`) in exactly the state that running the
routine's program from `Routines` gives:

- a program is a sequence of primitive `Step`s: a register write, a buffer
  stream, the pump poll, a busy-wait, a delay, a reset-pin write, a clear or
  an invert;
- `Sequencer.Exec` runs a program on a `Dev` value, the object seen as a
  value.

The lemmas of `Routines` and `Effects` then state what those programs do,
seen through *views* of the log. A view is the sequence of transactions
addressed to a given set of registers:

- display-engine triggers;
- power-control plus triggers;
- the common voltage (TPCOM, register 0x1B);
- the source voltage (driver-voltage register 0x02).

They also state how many charge-pump polls a routine consumes and what it
leaves in the framebuffer. Together these give the waveform recipe table of
`updateLegio`, the screen-erase recipe of `clearScreen` and `begin`, and the
power bracketing of `update`.

The other modules:

- `Framebuffer` states `clear`, `invert` and `drawSegments` as functions on
  byte sequences.
- `Encoders` holds the operand arithmetic of `setSourceVoltage` and
  `setTPCOM`: C division, 16-bit `int16_t` operands and the bytes sent.
- `SegDefs` holds the header's constants and the segment table.
- `Bus` holds the byte layout of `writeRegister` and `readRegister`.

Modules, in dependency order: `Octets`, `SegDefs`, `Encoders`, `Wire`, `Bus`,
`Framebuffer`, `Sequencer`, `Routines`, `Effects`, `Driver`.

### Behaviour of the code worth knowing

- `drawSegments` computes the new byte as `(seg & mask) | (color << shift)`.
  It does not mask `color` to two bits. For a colour above 3, the bits shifted
  beyond the segment's own field are or-ed into the neighbouring
  higher-order fields, and the rest are truncated. `WHITE` (0xFF) and the
  codes `YELLOW`..`BLUE` are such colours. Only a 2-bit colour leaves the
  other three pixels of the byte untouched. `Framebuffer.MergeFieldFields`
  states both cases and `Framebuffer.MergeFieldOnly` states the 2-bit case.
- Each segment's byte is computed once, from its first-row byte. That same
  byte is then stored at the four replica offsets (+60, +120, +180, +240).
  Whatever the replica bytes held before, including their other pixels, is
  overwritten.
- In `clearScreen`, the second `clear()` of each round clears to **white**,
  the default argument.
- `begin` also writes TPCOM 0 V (register 0x1B, operands 0, 0) as its last
  configuration write, before `clearScreen`.
- `updateLegio` has no white recipe. A colour other than BLACK, YELLOW,
  GREEN, RED or BLUE does nothing at all.
- The active BLUE case repeats the RED case verbatim, then adds its closing
  passes. It performs five inverts, so it leaves the framebuffer
  complemented.
- Update modes 0 (full) and 1 (partial) send identical transactions. Mode 2
  is mono. Any other mode sends no trigger but still sends the frame and
  powers the pump.
- `powerOff` does two busy-waits after each power-control write: one inside
  `writeRegister` and one of its own.

## Model

| member | source | states |
|---|---|---|
| Driver.SmallSeg.constructor | PL_smallSEG.cpp:14-18 | records the three pins. Nothing has been sent. The framebuffer has its fixed size of 8760 bytes. |
| Driver.SmallSeg.WaitForBusyInactive | PL_smallSEG.cpp:375-377 | appends one busy-wait to the log and changes nothing else |
| Driver.SmallSeg.DelayMs | PL_smallSEG.cpp:34-38 | appends one delay of the given length to the log and changes nothing else |
| Driver.SmallSeg.WriteResetPin | PL_smallSEG.cpp:33-37 | appends one reset-pin level to the log and changes nothing else |
| Driver.SmallSeg.WriteRegister | PL_smallSEG.cpp:345-355 | the log gains one transaction, the address followed by the low byte of each operand that is not -1, then a busy-wait. The framebuffer and the replies are unchanged. |
| Driver.SmallSeg.SendOperand | PL_smallSEG.cpp:349-352 | one operand slot adds the operand's low byte, or nothing when the operand is -1 |
| Driver.SmallSeg.ReadRegister | PL_smallSEG.cpp:360-368 | returns the first pending reply, consumes it, and logs the read-flagged address with the 0xFF filler, then a busy-wait |
| Driver.SmallSeg.WriteBuffer | PL_smallSEG.cpp:326-339 | leaves the state that the writeBuffer program gives. With Effects.WriteBufferEffect: the pixel origin, the current (0x20) or previous (0x30) entry mode, and the 0x10 opcode followed by the first 300 framebuffer bytes. |
| Driver.SmallSeg.WriteToPreviousBuffer | PL_smallSEG.cpp:286-295 | as writeBuffer into the previous buffer, with 300 copies of the colour in place of the framebuffer. The framebuffer is untouched. |
| Driver.SmallSeg.PowerOn | PL_smallSEG.cpp:303-310 | a busy-wait and the four pump-configuration writes, then status reads of register 0x15 up to and including the first non-zero reply. It consumes exactly one ready reply. |
| Driver.SmallSeg.AwaitPumpReady | PL_smallSEG.cpp:309 | the while loop reads the status register once per leading zero reply and once more. It stops at the first non-zero reply and consumes the replies up to it. |
| Driver.SmallSeg.PowerOff | PL_smallSEG.cpp:316-321 | power control 0x10, then 0xC0, each followed by two busy-waits. It needs no reply. |
| Driver.SmallSeg.Trigger | PL_smallSEG.cpp:152-167 | modes 0 and 1 send MTP 0x00 and engine 0x03; mode 2 sends MTP 0x02 and engine 0x07; each is followed by a busy-wait. Any other mode sends nothing. |
| Driver.SmallSeg.Update | PL_smallSEG.cpp:148-170 | writeBuffer(false), then, unless manPow, powerOn; the trigger switch; unless manPow, powerOff. It uses one ready reply exactly when it manages power. |
| Driver.SmallSeg.SetTpcom | PL_smallSEG.cpp:278-283 | writes register 0x1B with the low and high bytes of the truncated quotient v / 30 in magnitude. For a negative v, 0x04 is or-ed into the high byte. |
| Driver.SmallSeg.SetSourceVoltage | PL_smallSEG.cpp:271-276 | writes register 0x02 with 0x25 and `(k << 4) \| k`, where k = 2 * (v / 1000 - 8) is computed in 16-bit arithmetic |
| Driver.SmallSeg.FillBuffer | PL_smallSEG.cpp:64-65 | every one of the 8760 framebuffer bytes holds the fill value |
| Driver.SmallSeg.Clear | PL_smallSEG.cpp:61-80 | a gray level fills the framebuffer with its byte. Any other value leaves it unchanged. Nothing is sent. |
| Driver.SmallSeg.Invert | PL_smallSEG.cpp:138-141 | every framebuffer byte is replaced by its complement. Nothing is sent. |
| Driver.SmallSeg.StoreRows | PL_smallSEG.cpp:126-130 | the byte is stored at offset j and at j+60, j+120, j+180 and j+240. All other bytes are unchanged. |
| Driver.SmallSeg.DrawSegments | PL_smallSEG.cpp:114-132 | the framebuffer becomes Drawn(old, mask, colour). The log and replies are unchanged. Framebuffer.DrawnTargets and Framebuffer.DrawnElsewhere state what Drawn means. |
| Driver.SmallSeg.DrawSegmentAt | PL_smallSEG.cpp:116-131 | one set bit: the segment's merged byte is written to its five offsets |
| Driver.SmallSeg.MergeByte | PL_smallSEG.cpp:120-125 | the four-case switch on s % 4 computes the field merge MergeField |
| Driver.SmallSeg.Pass | PL_smallSEG.cpp:179-180 | writeToPreviousBuffer(fill) then update(mode). It uses one ready reply. |
| Driver.SmallSeg.LegioBlack | PL_smallSEG.cpp:174-185 | runs the BLACK recipe with its ten polls. Routines.BlackWrites and Routines.BlackCounts give its writes and buffer. |
| Driver.SmallSeg.BlackRounds | PL_smallSEG.cpp:178-183 | the loop leaves the state of five iterations of two light-gray full passes |
| Driver.SmallSeg.LegioYellow | PL_smallSEG.cpp:186-193 | runs the YELLOW recipe with three polls |
| Driver.SmallSeg.LegioGreen | PL_smallSEG.cpp:194-203 | runs the GREEN recipe with three polls |
| Driver.SmallSeg.RedHalf | PL_smallSEG.cpp:207-212 | light-gray previous buffer, TPCOM v, a mono update, invert, 10 ms. It uses one poll. |
| Driver.SmallSeg.LegioRed | PL_smallSEG.cpp:204-219 | runs the RED recipe with four polls |
| Driver.SmallSeg.RedRounds | PL_smallSEG.cpp:206-218 | the loop leaves the state of two RED rounds, at +10 V and then -10 V |
| Driver.SmallSeg.LegioBlue | PL_smallSEG.cpp:244-267 | runs the active BLUE recipe with six polls |
| Driver.SmallSeg.BlueClosing | PL_smallSEG.cpp:259-266 | 10 V, TPCOM -10 V, invert, then two light-gray mono passes with 1 ms each |
| Driver.SmallSeg.BlueTailLoop | PL_smallSEG.cpp:262-266 | the closing loop leaves the state of two BLUE tail passes |
| Driver.SmallSeg.UpdateLegio | PL_smallSEG.cpp:172-269 | runs the colour's recipe, polling once per pass of the table. A colour without a recipe changes nothing. |
| Driver.SmallSeg.EraseHalf | PL_smallSEG.cpp:88-96 | TPCOM v, clear(level), three light-gray full passes, 1 ms |
| Driver.SmallSeg.LightPasses | PL_smallSEG.cpp:90-95 | three light-gray full passes |
| Driver.SmallSeg.ClearScreen | PL_smallSEG.cpp:86-109 | two erase rounds, a clear to white and TPCOM 0 V, with twelve polls |
| Driver.SmallSeg.EraseRounds | PL_smallSEG.cpp:87-106 | the loop leaves the state of two rounds: +15 V on black, then -15 V on white |
| Driver.SmallSeg.Reset | PL_smallSEG.cpp:31-41 | with a reset pin: high, 5 ms, low, 5 ms, high, 5 ms, then a busy-wait. Otherwise the software-reset command 0x20. |
| Driver.SmallSeg.Configure | PL_smallSEG.cpp:43-53 | the ten fixed configuration writes of begin, in order |
| Driver.SmallSeg.Begin | PL_smallSEG.cpp:26-55 | reset, configure, then clearScreen, in that order. It uses twelve polls. |
| Effects.WriteBufferEffect | PL_smallSEG.cpp:326-339 | the log gains exactly three transactions, each followed by a busy-wait. The last carries 0x10 and the first 300 framebuffer bytes. The framebuffer and replies are unchanged. |
| Effects.WriteToPreviousEffect | PL_smallSEG.cpp:286-295 | the log gains exactly three transactions. The stream carries 300 copies of the colour, independent of the framebuffer. |
| Effects.PowerOffEffect | PL_smallSEG.cpp:316-321 | the log gains exactly 0x03 0x10, two waits, 0x03 0xC0 and two waits |
| Effects.PowerOnSetupEffect | PL_smallSEG.cpp:304-308 | powerOn's busy-wait and four configuration writes, with no poll |
| Effects.PowerOnEffect | PL_smallSEG.cpp:303-310 | the setup writes, then LeadingZeros + 1 status reads. Exactly the replies up to the first non-zero one are consumed. |
| Effects.UpdateSendsFrameFirst | PL_smallSEG.cpp:148-149 | the first thing update sends is the current framebuffer's first 300 bytes into the current device buffer (entry mode 0x20) |
| Effects.UpdateEffect | PL_smallSEG.cpp:148-170 | the framebuffer is unchanged and one ready reply is used exactly when update manages power. The rails view gains pump-on, the mode's trigger and the two power-down writes, or only the trigger under manPow. No voltage is written. |
| Effects.LegioEffect | PL_smallSEG.cpp:172-269 | the trigger, TPCOM and source-voltage views gain the recipe table's columns, and as many polls are used as the table has passes. The framebuffer is restored, except complemented after BLUE. A colour without a recipe leaves the state unchanged. |
| Effects.LegioViews | PL_smallSEG.cpp:172-269 | updateLegio's three views are exactly the three columns of the recipe table |
| Effects.ClearScreenEffect | PL_smallSEG.cpp:86-109 | twelve polls and twelve full triggers. TPCOM goes +15 V, -15 V, +15 V, -15 V, 0 V. The framebuffer ends all white, whatever it held. No source-voltage write. |
| Effects.BeginTriggers | PL_smallSEG.cpp:26-55 | begin triggers twelve full waveforms, whichever reset variant runs |
| Effects.BeginTpcoms | PL_smallSEG.cpp:26-55 | begin's TPCOM writes are 0 V, then clearScreen's +15/-15 V twice, then 0 V |
| Effects.BeginSourceVolts | PL_smallSEG.cpp:48 | begin's only driver-voltage write is 0x25, 0xFF |
| Effects.BeginEffect | PL_smallSEG.cpp:26-55 | the combined effect of begin: twelve polls, a white framebuffer, and the trigger, TPCOM and source-voltage views above |
| Routines.StreamsWrites | PL_smallSEG.cpp:326-339 | the buffer streams write only the pixel-position and entry-mode registers. Every other view sees nothing. |
| Routines.StreamsCounts | PL_smallSEG.cpp:286-295 | neither stream polls or changes the framebuffer |
| Routines.PowerOnWrites | PL_smallSEG.cpp:303-310 | of its writes, a power-control view sees only pump-on 0x51 |
| Routines.PowerOnCounts | PL_smallSEG.cpp:303-310 | powerOn polls once and leaves the framebuffer alone |
| Routines.PowerOffWrites | PL_smallSEG.cpp:316-321 | powerOff writes only power control: 0x10, then 0xC0 |
| Routines.PowerOffCounts | PL_smallSEG.cpp:316-321 | powerOff neither polls nor touches the framebuffer |
| Routines.TriggerProgWrites | PL_smallSEG.cpp:152-167 | the display engine sees 0x03 for modes 0 and 1, 0x07 for mode 2, and nothing otherwise |
| Routines.TriggerProgCounts | PL_smallSEG.cpp:152-167 | the trigger switch neither polls nor touches the framebuffer |
| Effects.TriggerEffect | PL_smallSEG.cpp:152-167 | modes 0 and 1 put MTP 0x00 then engine 0x03 on the wire, mode 2 MTP 0x02 then engine 0x07, each transaction followed by its settle wait and then a busy-wait; any other mode leaves the device as it was |
| Routines.UpdateCounts | PL_smallSEG.cpp:148-170 | update polls once exactly when it manages power, and leaves the framebuffer alone |
| Routines.UpdateWrites | PL_smallSEG.cpp:148-170 | for any view that does not watch the addressing, setup or program-select registers, pump-on comes strictly before the trigger and the power-down pair strictly after it. Under manPow there are no power writes at all. |
| Routines.UpdateViews | PL_smallSEG.cpp:148-170 | update's trigger, rails, TPCOM and source-voltage views |
| Routines.TpcomWriteSeen | PL_smallSEG.cpp:278-283 | setTPCOM always sends both operand bytes, and only the TPCOM view sees them |
| Routines.SourceVoltageWriteSeen | PL_smallSEG.cpp:271-276 | setSourceVoltage always sends its byte, and only the driver-voltage view sees it |
| Routines.RecipeTpcomBytes | PL_smallSEG.cpp:278-283 | the bytes for 0, +-15000 and +-10000 mV, e.g. -15000 mV is 0x1B 0xF4 0x05 |
| Routines.RecipeSourceVoltageBytes | PL_smallSEG.cpp:271-276 | 13000, 15000 and 10000 mV send 0xAA, 0xEE and 0x44 |
| Routines.VoltageWrites | PL_smallSEG.cpp:175-176 | a TPCOM write and a source-voltage write are seen, in order, only by their own views |
| Routines.PassCounts | PL_smallSEG.cpp:179-180 | a pass polls once and leaves the framebuffer alone |
| Routines.UpdateRecipeWrites | PL_smallSEG.cpp:148-170 | an automatic-power update shows a recipe view only its mode's trigger |
| Routines.PassWrites | PL_smallSEG.cpp:179-180 | a pass shows a recipe view only its trigger |
| Routines.BlackWrites | PL_smallSEG.cpp:174-185 | TPCOM 0 V, 13 V, then five rounds of two full triggers |
| Routines.BlackCounts | PL_smallSEG.cpp:174-185 | ten polls. The two inverts restore the framebuffer. |
| Routines.YellowWrites | PL_smallSEG.cpp:186-193 | TPCOM +15 V, 15 V, three full triggers |
| Routines.YellowCounts | PL_smallSEG.cpp:186-193 | three polls, framebuffer unchanged |
| Routines.GreenWrites | PL_smallSEG.cpp:194-203 | TPCOM 0 V, 13 V, three mono triggers |
| Routines.GreenCounts | PL_smallSEG.cpp:194-203 | three polls, framebuffer unchanged |
| Routines.RedHalfWrites | PL_smallSEG.cpp:207-212 | half a RED round shows its TPCOM write, then a mono trigger |
| Routines.RedHalfCounts | PL_smallSEG.cpp:207-212 | half a RED round polls once and complements the framebuffer |
| Routines.RedRoundWrites | PL_smallSEG.cpp:207-217 | a RED round: +10 V, mono trigger, -10 V, mono trigger |
| Routines.RedRoundCounts | PL_smallSEG.cpp:207-217 | a RED round polls twice. Its two inverts restore the framebuffer. |
| Routines.RedWrites | PL_smallSEG.cpp:204-219 | 10 V, then two RED rounds |
| Routines.RedCounts | PL_smallSEG.cpp:204-219 | four polls, framebuffer restored |
| Routines.BlueWrites | PL_smallSEG.cpp:244-267 | what RED shows, then 10 V, TPCOM -10 V and two mono triggers |
| Routines.BlueTailWrites | PL_smallSEG.cpp:262-266 | the closing passes show only their two mono triggers |
| Routines.BlueCounts | PL_smallSEG.cpp:244-267 | six polls. The framebuffer ends complemented. |
| Routines.VoltageWritesCounts | PL_smallSEG.cpp:259-260 | a voltage write pair neither polls nor touches the framebuffer |
| Routines.BlueTailCounts | PL_smallSEG.cpp:262-266 | the closing passes poll twice and leave the framebuffer alone |
| Routines.LegioWrites | PL_smallSEG.cpp:172-269 | updateLegio, as any recipe view sees it, is the recipe's write list |
| Routines.RecipeTriggersTable | PL_smallSEG.cpp:172-269 | the trigger view of each recipe is the table's trigger column |
| Routines.RecipeTpcomsTable | PL_smallSEG.cpp:172-269 | the TPCOM view of each recipe is the table's common-voltage column |
| Routines.RecipeSourceVoltsTable | PL_smallSEG.cpp:172-269 | the source-voltage view of each recipe is the table's source-voltage column |
| Routines.LegioCounts | PL_smallSEG.cpp:172-269 | polls per recipe. The framebuffer is restored except after BLUE. A colour without a recipe runs no step. |
| Routines.RecipeTriggersPerPass | PL_smallSEG.cpp:172-269 | every pass of every recipe triggers exactly one waveform |
| Routines.EraseHalfWrites | PL_smallSEG.cpp:88-96 | an erase half shows its TPCOM write, then three full triggers |
| Routines.EraseHalfCounts | PL_smallSEG.cpp:88-96 | an erase half polls three times and leaves the framebuffer cleared to its level |
| Routines.EraseRoundWrites | PL_smallSEG.cpp:87-106 | a round: +15 V with three triggers, then -15 V with three triggers |
| Routines.EraseRoundCounts | PL_smallSEG.cpp:87-106 | a round polls six times and ends on a white framebuffer |
| Routines.ClearScreenTailCounts | PL_smallSEG.cpp:107-108 | the closing clear() and TPCOM 0 V leave the framebuffer white without polling |
| Routines.ClearScreenCounts | PL_smallSEG.cpp:86-109 | clearScreen polls twelve times and leaves the framebuffer white, whatever it held |
| Routines.ClearScreenWrites | PL_smallSEG.cpp:86-109 | as any recipe view sees it: two rounds, then TPCOM 0 V |
| Routines.ClearScreenTriggers | PL_smallSEG.cpp:86-109 | exactly twelve full triggers |
| Routines.ClearScreenTpcoms | PL_smallSEG.cpp:86-109 | exactly two outer repetitions of +15000/-15000 mV, then 0 V |
| Routines.ClearScreenSourceVolts | PL_smallSEG.cpp:86-109 | clearScreen never writes the source voltage |
| Routines.ResetWrites | PL_smallSEG.cpp:31-41 | either reset variant is invisible to views that do not watch the software-reset command |
| Routines.ConfigureWrites | PL_smallSEG.cpp:43-53 | the voltage views see 0x02 0x25 0xFF, then TPCOM 0 V |
| Routines.ResetCounts | PL_smallSEG.cpp:31-41 | neither reset variant polls or touches the framebuffer |
| Routines.ConfigureCounts | PL_smallSEG.cpp:43-53 | the configuration neither polls nor touches the framebuffer |
| Routines.BeginCounts | PL_smallSEG.cpp:26-55 | begin polls twelve times and leaves the framebuffer all white |
| Routines.BeginWrites | PL_smallSEG.cpp:26-55 | begin, as a recipe view sees it: the configured voltages, then clearScreen |
| Encoders.Quot | PL_smallSEG.cpp:272 | C's integer division truncates toward zero, for both signs |
| Encoders.SourceVoltageExamples | PL_smallSEG.cpp:271-276 | 13000, 15000 and 10000 mV give the bytes 0xAA, 0xEE and 0x44 |
| Encoders.SourceVoltageNibbles | PL_smallSEG.cpp:271-276 | for 8..15 V, both nibbles equal the step k, and the volts read back from the byte |
| Encoders.SourceVoltageNeverAbsent | PL_smallSEG.cpp:273-275 | the operand is always even, so it is never taken for the absent marker -1 |
| Encoders.TpcomExamples | PL_smallSEG.cpp:278-283 | 0 gives (0, 0), +15000 gives (0xF4, 0x01) and -15000 gives (0xF4, 0x05) |
| Encoders.TpcomMagnitudeBytes | PL_smallSEG.cpp:280-282 | a magnitude below 1024 is its low byte plus 256 times a high byte below 4 |
| Encoders.TpcomStepsBytes | PL_smallSEG.cpp:282 | with such a high byte, the 0x04 flag marks the sign and nothing else |
| Encoders.TpcomRoundTrip | PL_smallSEG.cpp:278-283 | within +-30720 mV, decoding the two bytes gives v / 30 with its sign. Only the remainder is lost. |
| Encoders.TpcomSignFlag | PL_smallSEG.cpp:279-282 | v and -v share the low byte. Below 30720 mV their high bytes differ exactly in bit 0x04. |
| Encoders.TpcomNeverAbsent | PL_smallSEG.cpp:280-282 | a byte widened to int16_t is never -1 and narrows back to itself |
| Framebuffer.Fill | PL_smallSEG.cpp:64-65 | n copies of the byte |
| Framebuffer.Complement | PL_smallSEG.cpp:138-141 | each byte is complemented, and the length is kept |
| Framebuffer.SetSegmentStores | PL_smallSEG.cpp:126-130 | drawing one segment is the five stores of the merged first-row byte |
| Framebuffer.SetSegmentAt | PL_smallSEG.cpp:126-130 | drawing one segment changes exactly its five offsets |
| Framebuffer.DrawPrefixMiss | PL_smallSEG.cpp:115-131 | after n iterations, an offset no earlier set bit targets keeps its value |
| Framebuffer.DrawPrefixHit | PL_smallSEG.cpp:115-131 | after n iterations, a targeted offset holds the merge of the segment's original byte. No iteration disturbs another. |
| Framebuffer.DrawPrefixHitLast | PL_smallSEG.cpp:115-131 | the last iteration merges into the original byte of its segment |
| Framebuffer.DrawnTargets | PL_smallSEG.cpp:114-132 | for each set bit below 22, all five offsets of the segment hold its original byte with the colour merged in |
| Framebuffer.DrawnElsewhere | PL_smallSEG.cpp:114-132 | every offset that no set bit targets is unchanged, so mask bits 22 and above have no effect |
| Framebuffer.MergeFieldFields | PL_smallSEG.cpp:120-125 | the field gets colour & 3 and lower-order fields are kept. Higher-order fields are or-ed with the colour bits shifted into them. |
| Framebuffer.MergeFieldOnly | PL_smallSEG.cpp:120-125 | for a 2-bit colour, only the segment's field changes, and it becomes the colour |
| Framebuffer.SetSegmentCommutes | PL_smallSEG.cpp:115-131 | drawing two different segments commutes, so the bit order of the loop does not matter |
| Framebuffer.ComplementTwice | PL_smallSEG.cpp:138-141 | invert is an involution |
| Framebuffer.ClearedEffect | PL_smallSEG.cpp:61-80 | after clear(c) every byte is c for a gray level, and unchanged otherwise |
| Framebuffer.InvertAfterClear | PL_smallSEG.cpp:61-80 | invert after clear(L) equals clear(~L), since complement pairs the gray levels |
| SegDefs.SegmentByte | PL_smallSEG.cpp:117-118 | a segment's byte offset s / 4 lies in the first 60-byte row |
| SegDefs.SegmentField | PL_smallSEG.cpp:120 | a segment's field s % 4 is one of the four 2-bit fields |
| SegDefs.SegMappingShape | PL_smallSEG.h:69 | the table has 22 entries in two arithmetic runs of step -8. Their bytes and fields follow. |
| SegDefs.SegmentsInsidePayload | PL_smallSEG.cpp:126-130 | all five offsets of every segment lie inside the 300 streamed bytes |
| SegDefs.StrideOffsets | PL_smallSEG.cpp:126-130 | inside the stream, the offsets congruent to j modulo 60 are exactly j and its four replicas |
| SegDefs.SegmentBytesDistinct | PL_smallSEG.h:69 | no two segments share a byte |
| SegDefs.TargetsDisjoint | PL_smallSEG.cpp:126-130 | every written offset belongs to one segment only, so the 110 offsets are pairwise distinct |
| SegDefs.TargetIsReplica | PL_smallSEG.cpp:126-130 | a segment's offsets are exactly its byte plus 0, 60, 120, 180 and 240 |
| SegDefs.GrayFieldsUniform | PL_smallSEG.h:17-20 | the gray bytes consist of four equal 2-bit fields |
| SegDefs.ComplementPairsGrays | PL_smallSEG.h:17-20 | complement maps gray levels to gray levels, pairing black with white and dark with light gray |
| SegDefs.ColorCodesDistinct | PL_smallSEG.h:17-24 | the colour codes differ from each other and from the gray levels |
| SegDefs.AddressesBelowReadFlag | PL_smallSEG.h:30-50 | no register address has bit 0x80 set. The read-flagged byte is not an address, and the address comes back from it. |
| Sequencer.ReadReg | PL_smallSEG.cpp:360-368 | a read consumes one reply and logs the read transaction. The framebuffer is unchanged. |
| Sequencer.LeadingZeros | PL_smallSEG.cpp:309 | the position of the first non-zero reply. All replies before it are zero. |
| Sequencer.PollPump | PL_smallSEG.cpp:309 | the poll reads once per leading zero and once more, consumes exactly one ready reply, and keeps the framebuffer |
| Sequencer.PollStep | PL_smallSEG.cpp:309 | one loop iteration: on a zero reply the poll continues from the new state, and on a non-zero reply it ends |
| Sequencer.PollsWrites | PL_smallSEG.cpp:360-368 | status reads are invisible to every view of register writes |
| Sequencer.StepWritesSound | PL_smallSEG.cpp:345-355 | what a view gains from one step is fixed by the step, in any state |
| Sequencer.ExecWrites | PL_smallSEG.cpp:345-355 | what a view gains from a routine is fixed by the routine, in any state |
| Sequencer.ViewsAreViews | PL_smallSEG.h:30-50 | the trigger, TPCOM, source-voltage and rails views watch only register addresses |
| Bus.Operand | PL_smallSEG.cpp:349-352 | an operand slot sends no byte for -1 and one byte otherwise |
| Bus.RegisterBytes | PL_smallSEG.cpp:347-353 | a register transaction starts with its address |
| Bus.RegisterBytesCases | PL_smallSEG.cpp:345-355 | the exact transaction when the first n operands are present and the rest are -1, for each n from 0 to 4 |
| Bus.RegisterBytesShape | PL_smallSEG.cpp:345-355 | 1 to 5 bytes: the address, then the present operands in slot order. Each -1 is skipped independently. |
| Wire.Xfers | PL_smallSEG.cpp:348-352 | one SPI transfer event per byte, in order |
| Wire.ParseHeadTxn | PL_smallSEG.cpp:347-353 | a chip-select bracket around transfers reads back as that transaction |
| Wire.ParseOp | PL_smallSEG.cpp:347-354 | parsing consumes one op's events exactly |
| Wire.ParseLower | PL_smallSEG.cpp:345-355 | parsing the event trace of any op log gives the log back |
| Wire.LowerParse | PL_smallSEG.cpp:345-355 | a trace that parses is exactly the trace of its log |

## Left out

- `pinMode` calls (PL_smallSEG.cpp:27-29, 32): they set pin directions and send nothing on the bus. The cs and busy pins are stored and not otherwise used.
- Electrical behaviour and timing: a delay is logged as `Pause(ms)`, and no time passes.
- waitForBusyInactive's spin on the busy pin is one `Wait` in the log. Reading an unwired busy pin (-1) is not modelled.
- Driver.SmallSeg.PowerOn: requires a non-zero reply among the pending replies, because without one the source's poll never returns. The same holds for Driver.SmallSeg.AwaitPumpReady and for every routine that calls powerOn, counted by `ReadyCount`.
- Driver.SmallSeg.ReadRegister: the reply comes from the `replies` queue, since the controller's registers are outside this model. The bytes clocked back during writes are not used.
- The commented-out BLUE recipe (PL_smallSEG.cpp:219-243) is dead code and is not modelled.
- `_buffersize` is set to 8760 only in begin (line 43). Before begin, the loops of clear and invert run over an unset size. The model fixes the size at 8760 from construction.
- Driver.SmallSeg.constructor does not state the initial framebuffer contents. The theorems hold for any contents.
- `round(v / 1000)` rounds an `int`, which is the identity, so `setSourceVoltage` keeps only C's truncating division.
- `readRegister` takes a `char` address. A negative char is sign-extended before the or with 0x80, but the byte sent is the same low byte. The model takes a byte.
- Driver.SmallSeg.SetTpcom: takes an unbounded `int`. The source's 16-bit `int` holds -32768..32767, where the two agree. Encoders.TpcomRoundTrip needs |v| < 30720, because above that the magnitude reaches the sign bit 0x04.
- Encoders.SourceVoltageNibbles: is stated only for 8..15 V. Outside that range, k's upper bits spill across the nibbles. The byte is still modelled exactly, through `Low16` and the byte truncation.
- The view lemmas do not describe writes to configuration-only registers. Examples are the panel setting and the pixel rectangle; Driver.SmallSeg.Configure and the program of begin give them exactly.
- The Adafruit_GFX base class is not modelled; the constructor does not use it.
- The source has no error handling: waits never time out, and voltages, colours and use before begin are not checked; none is modelled.
