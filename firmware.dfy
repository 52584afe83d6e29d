/** The firmware's module-static state, updated in place as the C code does:
    the command buffer of command_parser.c, the three GPIO outputs of
    led_controller.c, the four variables of pattern_controller.c, the set of
    hardware timers running (the effect of `Timer_Start`/`Timer_Stop`), the
    UART overflow flag and the strings sent to the UART. Every method is
    proved to perform the pure step of modules LedBank, Patterns,
    LineAssembler and Dispatcher on `Snapshot()`. */
module Firmware {
  import opened Ascii
  import opened LedBank
  import LineAssembler
  import Patterns
  import Grammar
  import Dispatcher

  class Firmware {
    /** `commandBuffer`, `bufferIndex`, `commandComplete` */
    const buffer: array<char>
    var cursor: nat
    var complete: bool
    /** Output levels of PB0, PB7 and PB14: LEDs 1, 2 and 3. */
    const pins: array<bool>
    /** `activePattern`, `currentFrequency`, `patternStep`, `patternNeedsUpdate` */
    var activePattern: int
    var currentFrequency: int
    var patternStep: nat
    var patternNeedsUpdate: bool
    /** Tiers whose hardware timer is running. */
    ghost var runningTimers: set<int>
    /** `rxIndex` and `rxOverflow` of uart_handler.c. */
    var rxIndex: nat
    var rxOverflow: bool
    /** Every string passed to `UART_SendString`, oldest first. */
    ghost var uartLog: seq<string>

    ghost function Line(): LineAssembler.LineState
      reads this, buffer
    {
      LineAssembler.LineState(buffer[..], cursor, complete)
    }

    ghost function Engine(): Patterns.Engine
      reads this, pins
    {
      Patterns.Engine(pins[..], activePattern, currentFrequency, patternStep, patternNeedsUpdate, runningTimers)
    }

    ghost function Snapshot(): Dispatcher.Board
      reads this, buffer, pins
    {
      Dispatcher.Board(Line(), Engine(), rxOverflow, rxIndex, uartLog)
    }

    ghost predicate Valid()
      reads this, buffer, pins
    {
      buffer.Length == LineAssembler.BufferSize && pins.Length == LedCount && Dispatcher.Valid(Snapshot())
    }

    /** The state at reset: static storage zeroed with the initialisers of
        pattern_controller.c, GPIO outputs low, no timer running. */
    constructor ()
      ensures Valid() && Patterns.TimersAgree(Engine())
      ensures Snapshot() == Dispatcher.Board(LineAssembler.Cleared(),
                                            Patterns.Engine(AllOff, Patterns.PatternNone, Patterns.Freq1s, 0, false, {}),
                                            false, 0, [])
    {
      buffer := new char[LineAssembler.BufferSize](_ => NUL);
      pins := new bool[LedCount](_ => false);
      cursor := 0;
      complete := false;
      activePattern := Patterns.PatternNone;
      currentFrequency := Patterns.Freq1s;
      patternStep := 0;
      patternNeedsUpdate := false;
      runningTimers := {};
      rxIndex := 0;
      rxOverflow := false;
      uartLog := [];
      new;
      assert buffer[..] == LineAssembler.Zeroed();
      assert pins[..] == AllOff;
    }

    // ---------------------------------------------------------------- UART

    /** `UART_SendString`. */
    method SendString(s: string)
      modifies this
      ensures Snapshot() == Dispatcher.Emit(old(Snapshot()), s)
    {
      uartLog := uartLog + [s];
    }

    /** `UART_HasOverflow`: reads and clears the overflow flag. */
    method UartHasOverflow() returns (overflow: bool)
      modifies this
      ensures overflow == old(rxOverflow)
      ensures Snapshot() == old(Snapshot()).(overflow := false)
    {
      overflow := rxOverflow;
      rxOverflow := false;
    }

    // --------------------------------------------------------------- timers

    /** The effect of `Timer_Start(tier)`. */
    method TimerStart(tier: int) returns (ok: bool)
      modifies this
      ensures ok <==> Patterns.IsFrequency(tier)
      ensures Engine() == old(Engine()).(timers := if ok then old(runningTimers) + {tier} else old(runningTimers))
      ensures Snapshot() == old(Snapshot()).(engine := Engine())
    {
      if !Patterns.IsFrequency(tier) {
        return false;
      }
      runningTimers := runningTimers + {tier};
      ok := true;
    }

    /** The effect of `Timer_Stop(tier)`. */
    method TimerStop(tier: int) returns (ok: bool)
      modifies this
      ensures ok <==> Patterns.IsFrequency(tier)
      ensures Engine() == old(Engine()).(timers := if ok then old(runningTimers) - {tier} else old(runningTimers))
      ensures Snapshot() == old(Snapshot()).(engine := Engine())
    {
      if !Patterns.IsFrequency(tier) {
        return false;
      }
      runningTimers := runningTimers - {tier};
      ok := true;
    }

    // ----------------------------------------------------------------- LEDs

    /** `LED_ForceState`. */
    method LedForceState(n: int, on: bool)
      requires pins.Length == LedCount
      modifies pins
      ensures pins[..] == Forced(old(pins[..]), n, on)
    {
      if !IsValidNumber(n) {
        return;
      }
      pins[n - 1] := on;
    }

    /** `LED_SetState`: the write refused for an invalid number or while a
        pattern is active. */
    method LedSetState(n: int, on: bool) returns (ok: bool)
      requires pins.Length == LedCount
      modifies pins
      ensures (pins[..], ok) == SetState(old(pins[..]), n, on, activePattern != Patterns.PatternNone)
    {
      if !IsValidNumber(n) {
        return false;
      }
      if PatternIsActive() {
        return false;
      }
      pins[n - 1] := on;
      return true;
    }

    /** `LED_GetState`. */
    method LedGetState(n: int) returns (s: int)
      requires pins.Length == LedCount
      ensures s == GetState(pins[..], n)
    {
      if !IsValidNumber(n) {
        return LedError;
      }
      s := if pins[n - 1] then LedOn else LedOff;
    }

    /** `LED_Toggle`: does not consult the pattern interlock. */
    method LedToggle(n: int) returns (ok: bool)
      requires pins.Length == LedCount
      modifies pins
      ensures (pins[..], ok) == Toggled(old(pins[..]), n)
    {
      if !IsValidNumber(n) {
        return false;
      }
      pins[n - 1] := !pins[n - 1];
      return true;
    }

    /** `LED_Controller_Init`: switches the three LEDs off through the
        interlocked write, so a running pattern keeps them as they are. */
    method LedControllerInit()
      requires pins.Length == LedCount
      modifies pins
      ensures pins[..] == if activePattern != Patterns.PatternNone then old(pins[..]) else AllOff
    {
      var ok := LedSetState(1, false);
      ok := LedSetState(2, false);
      ok := LedSetState(3, false);
    }

    /** The loop `for (i = 1; i <= LED_COUNT; i++) LED_ForceState(i, LED_OFF);`
        shared by `Pattern_Stop`, `Pattern1_Update` and `Pattern3_Update`. */
    method ForceAllOff()
      requires pins.Length == LedCount
      modifies pins
      ensures pins[..] == AllOff
    {
      for i := 1 to LedCount + 1
        invariant forall j :: 0 <= j < i - 1 ==> !pins[j]
      {
        LedForceState(i, false);
      }
    }

    // ------------------------------------------------------------- patterns

    /** `Pattern_Controller_Init`: the LEDs and the timers are not touched. */
    method PatternControllerInit()
      requires Valid()
      modifies this
      ensures Valid()
      ensures Snapshot() == old(Snapshot()).(engine := Patterns.Initialized(old(Engine())))
    {
      activePattern := Patterns.PatternNone;
      currentFrequency := Patterns.Freq1s;
      patternStep := 0;
      patternNeedsUpdate := false;
    }

    /** `Pattern_IsActive` */
    function PatternIsActive(): (active: bool)
      reads this
      ensures active <==> activePattern != Patterns.PatternNone
    {
      activePattern != Patterns.PatternNone
    }

    /** `Pattern_GetActive` */
    function PatternGetActive(): (p: int)
      reads this, buffer, pins
      requires Valid()
      ensures p == Patterns.PatternNone || Patterns.IsPattern(p)
    {
      activePattern
    }

    /** `Pattern_GetFrequency` */
    function PatternGetFrequency(): (f: int)
      reads this, buffer, pins
      requires Valid()
      ensures Patterns.IsFrequency(f)
    {
      currentFrequency
    }

    /** `Pattern_Start` */
    method PatternStart(p: int) returns (ok: bool)
      requires Valid()
      modifies this, pins
      ensures Valid()
      ensures (Engine(), ok) == Patterns.Start(old(Engine()), p)
      ensures Snapshot() == old(Snapshot()).(engine := Engine())
    {
      if p <= Patterns.PatternNone || p > Patterns.PatternCount {
        return false;
      }
      if activePattern != Patterns.PatternNone {
        var stopped := PatternStop();
      }
      activePattern := p;
      patternStep := 0;
      var timerOk := TimerStart(currentFrequency);
      patternNeedsUpdate := true;
      return true;
    }

    /** `Pattern_Stop` */
    method PatternStop() returns (ok: bool)
      requires Valid()
      modifies this, pins
      ensures Valid()
      ensures (Engine(), ok) == Patterns.Stop(old(Engine()))
      ensures Snapshot() == old(Snapshot()).(engine := Engine())
    {
      if activePattern == Patterns.PatternNone {
        return false;
      }
      var timerOk := TimerStop(currentFrequency);
      activePattern := Patterns.PatternNone;
      ForceAllOff();
      return true;
    }

    /** `Pattern_SetFrequency` */
    method PatternSetFrequency(f: int) returns (ok: bool)
      requires Valid()
      modifies this
      ensures Valid()
      ensures (Engine(), ok) == Patterns.SetFrequency(old(Engine()), f)
      ensures Snapshot() == old(Snapshot()).(engine := Engine())
    {
      if f < Patterns.Freq500ms || f > Patterns.Freq3s {
        return false;
      }
      if activePattern != Patterns.PatternNone {
        var stopOk := TimerStop(currentFrequency);
        currentFrequency := f;
        var startOk := TimerStart(currentFrequency);
      } else {
        currentFrequency := f;
      }
      return true;
    }

    /** `Pattern_TimerCallback` */
    method PatternTimerCallback(tier: int)
      modifies this
      ensures Snapshot() == old(Snapshot()).(engine := Patterns.TimerCallback(old(Engine()), tier))
    {
      if activePattern != Patterns.PatternNone && tier == currentFrequency {
        patternNeedsUpdate := true;
      }
    }

    /** `Pattern_Controller_Update` */
    method PatternControllerUpdate()
      requires Valid()
      modifies this, pins
      ensures Valid()
      ensures Snapshot() == old(Snapshot()).(engine := Patterns.Update(old(Engine())))
    {
      if !patternNeedsUpdate || activePattern == Patterns.PatternNone {
        return;
      }
      if activePattern == Patterns.Pattern1 {
        Pattern1Update();
      } else if activePattern == Patterns.Pattern2 {
        Pattern2Update();
      } else {
        Pattern3Update();
      }
      patternNeedsUpdate := false;
    }

    /** `Pattern1_Update`: all off, LED `step + 1` on, step modulo 3. */
    method Pattern1Update()
      requires Valid() && activePattern == Patterns.Pattern1
      modifies this, pins
      ensures Valid()
      ensures Snapshot() == old(Snapshot()).(engine := old(Engine()).(leds := Patterns.Pattern1Leds(old(patternStep)),
                                                                    step := (old(patternStep) + 1) % LedCount))
    {
      ForceAllOff();
      LedForceState(patternStep + 1, true);
      patternStep := (patternStep + 1) % LedCount;
    }

    /** `Pattern2_Update`: LEDs 1 and 3 at step 0, LED 2 otherwise, step modulo 2. */
    method Pattern2Update()
      requires Valid() && activePattern == Patterns.Pattern2
      modifies this, pins
      ensures Valid()
      ensures Snapshot() == old(Snapshot()).(engine := old(Engine()).(leds := Patterns.Pattern2Leds(old(patternStep)),
                                                                    step := (old(patternStep) + 1) % 2))
    {
      if patternStep == 0 {
        LedForceState(1, true);
        LedForceState(2, false);
        LedForceState(3, true);
      } else {
        LedForceState(1, false);
        LedForceState(2, true);
        LedForceState(3, false);
      }
      patternStep := (patternStep + 1) % 2;
    }

    /** `Pattern3_Update`: all off, then the LEDs of the current step lit,
        step modulo 6. */
    method Pattern3Update()
      requires Valid() && activePattern == Patterns.Pattern3
      modifies this, pins
      ensures Valid()
      ensures Snapshot() == old(Snapshot()).(engine := old(Engine()).(leds := Patterns.Pattern3Leds(old(patternStep)),
                                                                    step := (old(patternStep) + 1) % 6))
    {
      ForceAllOff();
      LightPattern3Step(patternStep);
      patternStep := (patternStep + 1) % 6;
    }

    /** The `switch` of `Pattern3_Update`, run on LEDs that are all off: it
        lights the LEDs of the given step. */
    method LightPattern3Step(step: nat)
      requires Valid() && activePattern == Patterns.Pattern3 && step == patternStep && pins[..] == AllOff
      modifies pins
      ensures Valid()
      ensures Snapshot() == old(Snapshot()).(engine := old(Engine()).(leds := Patterns.Pattern3Leds(step)))
    {
      if step == 0 {
        LedForceState(1, true);
      } else if step == 1 {
        LedForceState(1, true);
        LedForceState(2, true);
      } else if step == 2 {
        LedForceState(1, true);
        LedForceState(2, true);
        LedForceState(3, true);
      } else if step == 3 {
        LedForceState(2, true);
        LedForceState(3, true);
      } else if step == 4 {
        LedForceState(3, true);
      }
      assert pins[..] == Patterns.Pattern3Leds(step);
    }
 
    // ------------------------------------------------------- command parser

    /** `memset(commandBuffer, 0, COMMAND_BUFFER_SIZE)` */
    method ClearBuffer()
      requires buffer.Length == LineAssembler.BufferSize
      modifies buffer
      ensures buffer[..] == LineAssembler.Zeroed()
    {
      for i := 0 to buffer.Length
        invariant forall j :: 0 <= j < i ==> buffer[j] == NUL
      {
        buffer[i] := NUL;
      }
    }

    /** `Command_Parser_Init` */
    method CommandParserInit()
      requires Valid()
      modifies this, buffer
      ensures Valid()
      ensures Snapshot() == old(Snapshot()).(line := LineAssembler.Cleared())
    {
      ResetLine();
    }

    /** The `memset`, `bufferIndex = 0` and `commandComplete = false` that
        `Command_Parser_Init` and `Command_Parser_ProcessChar` both perform. */
    method ResetLine()
      requires Valid()
      modifies this, buffer
      ensures Valid()
      ensures Snapshot() == old(Snapshot()).(line := LineAssembler.Cleared())
    {
      ClearBuffer();
      cursor := 0;
      complete := false;
    }

    /** `HAL_UART_RxCpltCallback`, for the character the HAL has placed in
        `rxBuffer[rxIndex]`. */
    method RxCompleteCallback(c: char)
      requires Valid()
      modifies this, buffer
      ensures Valid()
      ensures Snapshot() == Dispatcher.Receive(old(Snapshot()), c)
    {
      if rxIndex >= Dispatcher.RxBufferSize - 1 {
        rxOverflow := true;
        rxIndex := 0;
      } else {
        rxIndex := rxIndex + 1;
      }
      ProcessChar(c);
    }

    /** `Command_Parser_ProcessChar` */
    method ProcessChar(c: char)
      requires Valid()
      modifies this, buffer
      ensures Valid()
      ensures Snapshot() == old(Snapshot()).(line := LineAssembler.Feed(old(Line()), c))
    {
      if complete {
        ResetLine();
      }
      AcceptChar(c);
    }

    /** The rest of `Command_Parser_ProcessChar`, once the buffer is ready: the
        character is upper-cased, then the LF, CR, BS/DEL and printable cases. */
    method AcceptChar(c: char)
      requires Valid() && !complete
      modifies this, buffer
      ensures Valid()
      ensures Snapshot() == old(Snapshot()).(line := LineAssembler.Feed(old(Line()), c))
    {
      var upper := ToUpper(c);
      if upper == LF {
        return;
      }
      if upper == CR {
        buffer[cursor] := NUL;
        complete := true;
        return;
      }
      if upper == BS || upper == DEL {
        if cursor > 0 {
          cursor := cursor - 1;
          buffer[cursor] := NUL;
        }
        return;
      }
      if cursor < LineAssembler.BufferSize - 1 && IsPrint(upper) {
        buffer[cursor] := upper;
        cursor := cursor + 1;
      }
    }

    /** `strlen(commandBuffer)` */
    method Strlen() returns (n: nat)
      requires buffer.Length == LineAssembler.BufferSize
      ensures n <= buffer.Length && buffer[..n] == CStr(buffer[..])
    {
      n := 0;
      while n < buffer.Length && buffer[n] != NUL
        invariant n <= buffer.Length
        invariant forall i :: 0 <= i < n ==> buffer[i] != NUL
      {
        n := n + 1;
      }
      CStrUpTo(buffer[..], n);
    }

    /** `Command_Parser_ProcessCommands` */
    method ProcessCommands()
      requires Valid()
      modifies this, buffer, pins
      ensures Valid()
      ensures Snapshot() == Dispatcher.Respond(old(Snapshot()))
    {
      if !complete {
        return;
      }
      ghost var b0 := Snapshot();
      var processed := false;
      var n := Strlen();
      var isEmpty := n == 0;
      if !isEmpty {
        processed := Dispatch(buffer[..n]);
        if !processed {
          SendErrorMessage(Dispatcher.Generic);
        }
      }
      ghost var b2 := Snapshot();
      ClearBuffer();
      cursor := 0;
      complete := false;
      assert Snapshot() == b2.(line := LineAssembler.Cleared());
      if !isEmpty {
        SendString(Dispatcher.Prompt);
      }
    }

    /** The branch chain of `Command_Parser_ProcessCommands` over a non-empty
        line, up to the generic error. */
    method Dispatch(line: seq<char>) returns (processed: bool)
      requires Valid()
      modifies this, pins
      ensures Valid()
      ensures (Snapshot(), processed) == Dispatcher.Run(old(Snapshot()), Grammar.Classify(line))
    {
      if line == "STATUS" {
        processed := ExecuteStatusCommand();
      } else if line == "STOP" {
        processed := ExecuteStopCommand();
      } else if HasPrefix(line, "LED") {
        processed := ParseLedCommand(line);
      } else if HasPrefix(line, "CHENILLARD") {
        var arg := line[10..];
        if |arg| >= 4 && IsDigit(arg[0]) && arg[1..] == " ON" {
          processed := ParseChenillardOnCommand(line);
        } else if HasPrefix(arg, " FREQUENCE") {
          processed := ParseChenillardFrequencyCommand(line);
        } else {
          processed := false;
        }
      } else if HasPrefix(line, "PAT") || HasPrefix(line, "FREQ") {
        processed := ParseShortcutCommand(line);
      } else {
        processed := false;
      }
    }

    /** `Parse_LED_Command` */
    method ParseLedCommand(command: seq<char>) returns (ok: bool)
      requires Valid()
      modifies this, pins
      ensures Valid()
      ensures (Snapshot(), ok) == Dispatcher.Run(old(Snapshot()), Grammar.LedSyntax(command))
    {
      if |command| < 7 {
        assert Grammar.LedSyntax(command) == Grammar.Malformed(Grammar.LedTooShort);
        SendErrorMessage(Grammar.LedTooShort);
        return false;
      }
      var numChar := command[3];
      if numChar < '1' || numChar > '3' {
        assert Grammar.LedSyntax(command) == Grammar.Malformed(Grammar.LedBadNumber);
        SendErrorMessage(Grammar.LedBadNumber);
        return false;
      }
      var n := numChar as int - '0' as int;
      if command[4] != ' ' {
        assert Grammar.LedSyntax(command) == Grammar.Malformed(Grammar.LedNoSpace);
        SendErrorMessage(Grammar.LedNoSpace);
        return false;
      }
      var stateStr := command[5..];
      var on: bool;
      if stateStr == "ON" {
        on := true;
      } else if stateStr == "OFF" {
        on := false;
      } else {
        assert Grammar.LedSyntax(command) == Grammar.Malformed(Grammar.LedBadState);
        SendErrorMessage(Grammar.LedBadState);
        return false;
      }
      assert Grammar.LedSyntax(command) == Grammar.Parsed(Grammar.SetLed(n, on));
      ok := SetLedAndReply(n, on, stateStr);
    }

    /** The application and reply at the end of `Parse_LED_Command`; the reply
        echoes the state text of the command, ON or OFF. */
    method SetLedAndReply(n: int, on: bool, stateStr: string) returns (ok: bool)
      requires Valid() && stateStr == Dispatcher.OnOff(on)
      modifies this, pins
      ensures Valid()
      ensures (Snapshot(), ok) == Dispatcher.ExecuteSetLed(old(Snapshot()), n, on)
    {
      var written := LedSetState(n, on);
      if !written {
        SendErrorMessage("Impossible de changer LED (pattern actif?)");
        return false;
      }
      SendSuccessMessage("LED " + [DigitChar(n)] + " mise a " + stateStr + "\r\n");
      return true;
    }

    /** `Parse_Chenillard_ON_Command` */
    method ParseChenillardOnCommand(command: seq<char>) returns (ok: bool)
      requires Valid()
      modifies this, pins
      ensures Valid()
      ensures (Snapshot(), ok) == Dispatcher.Run(old(Snapshot()), Grammar.ChenillardOnSyntax(command))
    {
      var numChar := Grammar.At(command, 10);
      if numChar < '1' || numChar > '3' {
        assert Grammar.ChenillardOnSyntax(command) == Grammar.Malformed(Grammar.ChenillardBadNumber);
        SendErrorMessage(Grammar.ChenillardBadNumber);
        return false;
      }
      var p := numChar as int - '0' as int;
      if Grammar.From(command, 11) != " ON" {
        assert Grammar.ChenillardOnSyntax(command) == Grammar.Malformed(Grammar.ChenillardBadOn);
        SendErrorMessage(Grammar.ChenillardBadOn);
        return false;
      }
      assert Grammar.ChenillardOnSyntax(command) == Grammar.Parsed(Grammar.StartPattern(p));
      ok := StartPatternAndReply(p);
    }

    /** `Parse_Chenillard_Frequency_Command` */
    method ParseChenillardFrequencyCommand(command: seq<char>) returns (ok: bool)
      requires Valid()
      modifies this, pins
      ensures Valid()
      ensures (Snapshot(), ok) == Dispatcher.Run(old(Snapshot()), Grammar.ChenillardFrequencySyntax(command))
    {
      if |command| != 21 || !HasPrefix(command, "CHENILLARD FREQUENCE") {
        assert Grammar.ChenillardFrequencySyntax(command) == Grammar.Malformed(Grammar.FrequenceBadFormat);
        SendErrorMessage(Grammar.FrequenceBadFormat);
        return false;
      }
      var tier, known := FrequencyOfDigit(command[20]);
      if !known {
        assert Grammar.ChenillardFrequencySyntax(command) == Grammar.Malformed(Grammar.FrequenceBadNumber);
        SendErrorMessage(Grammar.FrequenceBadNumber);
        return false;
      }
      assert Grammar.ChenillardFrequencySyntax(command) == Grammar.Parsed(Grammar.SetFrequency(tier));
      ok := SetFrequencyAndReply(tier);
    }

    /** The `switch (freqNumChar)` of `Parse_Chenillard_Frequency_Command` and
        `Parse_Shortcut_Command`: '1', '2', '3' select 500 ms, 1 s, 3 s; any
        other character selects none. */
    method FrequencyOfDigit(c: char) returns (tier: int, known: bool)
      ensures known <==> Grammar.IsOneToThree(c)
      ensures known ==> tier == Grammar.TierOfDigit(c)
    {
      known := true;
      if c == '1' {
        tier := Patterns.Freq500ms;
      } else if c == '2' {
        tier := Patterns.Freq1s;
      } else if c == '3' {
        tier := Patterns.Freq3s;
      } else {
        tier, known := 0, false;
      }
    }

    /** `Pattern_Start` and its reply, as written out in both
        `Parse_Chenillard_ON_Command` and `Parse_Shortcut_Command`. Callers pass
        a checked pattern number, so the refusal reply is never sent. */
    method StartPatternAndReply(p: int) returns (ok: bool)
      requires Valid()
      modifies this, pins
      ensures Valid()
      ensures (Snapshot(), ok) == Dispatcher.ExecuteStart(old(Snapshot()), p)
    {
      ok := PatternStart(p);
      SendString(if ok then Dispatcher.OkLine("Chenillard " + [DigitChar(p)] + " active\r\n")
                 else Dispatcher.ErrLine("Impossible de demarrer chenillard"));
    }

    /** `Pattern_SetFrequency` and its reply, as written out in both
        `Parse_Chenillard_Frequency_Command` and `Parse_Shortcut_Command`. */
    method SetFrequencyAndReply(tier: int) returns (ok: bool)
      requires Valid()
      modifies this, pins
      ensures Valid()
      ensures (Snapshot(), ok) == Dispatcher.ExecuteSetFrequency(old(Snapshot()), tier)
    {
      ok := PatternSetFrequency(tier);
      SendString(if ok then Dispatcher.OkLine("Frequence reglee a " + Dispatcher.FreqName(tier) + "\r\n")
                 else Dispatcher.ErrLine("Impossible de regler frequence"));
    }

    /** `Parse_Shortcut_Command` */
    method ParseShortcutCommand(command: seq<char>) returns (ok: bool)
      requires Valid()
      modifies this, pins
      ensures Valid()
      ensures (Snapshot(), ok) == Dispatcher.Run(old(Snapshot()), Grammar.ShortcutSyntax(command))
    {
      if command == "STOP" {
        assert Grammar.ShortcutSyntax(command) == Grammar.Parsed(Grammar.Stop);
        ok := ExecuteStopCommand();
      } else if HasPrefix(command, "PAT") && |command| == 4 {
        var numChar := command[3];
        if numChar >= '1' && numChar <= '3' {
          var p := numChar as int - '0' as int;
          assert Grammar.ShortcutSyntax(command) == Grammar.Parsed(Grammar.StartPattern(p));
          ok := StartPatternAndReply(p);
        } else {
          assert Grammar.ShortcutSyntax(command) == Grammar.Malformed(Grammar.PatBadNumber);
          SendErrorMessage(Grammar.PatBadNumber);
          ok := false;
        }
      } else if HasPrefix(command, "FREQ") && |command| == 5 {
        var tier, known := FrequencyOfDigit(command[4]);
        if !known {
          assert Grammar.ShortcutSyntax(command) == Grammar.Malformed(Grammar.FreqBadNumber);
          SendErrorMessage(Grammar.FreqBadNumber);
          return false;
        }
        assert Grammar.ShortcutSyntax(command) == Grammar.Parsed(Grammar.SetFrequency(tier));
        ok := SetFrequencyAndReply(tier);
      } else {
        assert Grammar.ShortcutSyntax(command) == Grammar.Malformed(Grammar.BadShortcut);
        SendErrorMessage(Grammar.BadShortcut);
        ok := false;
      }
    }

    /** `Execute_STOP_Command` */
    method ExecuteStopCommand() returns (ok: bool)
      requires Valid()
      modifies this, pins
      ensures Valid()
      ensures (Snapshot(), ok) == Dispatcher.ExecuteStop(old(Snapshot()))
    {
      var stopped := PatternStop();
      if stopped {
        SendSuccessMessage("Chenillard arrete\r\n");
      } else {
        SendErrorMessage("Aucun chenillard actif a arreter");
      }
      return true;
    }

    /** `Execute_STATUS_Command` */
    method ExecuteStatusCommand() returns (ok: bool)
      requires Valid()
      modifies this
      ensures Valid()
      ensures (Snapshot(), ok) == Dispatcher.ExecuteStatus(old(Snapshot()))
    {
      ghost var report := Dispatcher.StatusReport(Engine(), rxOverflow);
      SendString(Dispatcher.StatusHeader);
      SendLedStatusLines();
      assert uartLog == old(uartLog) + report[..4];
      SendPatternStatusLine();
      assert uartLog == old(uartLog) + report[..5];
      var overflow := UartHasOverflow();
      if overflow {
        SendString(Dispatcher.OverflowWarning);
      }
      assert uartLog == old(uartLog) + report;
      return true;
    }

    /** The pattern line of `Execute_STATUS_Command`, read through
        `Pattern_GetActive` and `Pattern_GetFrequency`. */
    method SendPatternStatusLine()
      requires Valid()
      modifies this
      ensures Snapshot() == old(Snapshot()).(log := old(uartLog) + [Dispatcher.PatternStatusLine(old(Engine()))])
    {
      var activePat := PatternGetActive();
      var currentFreq := PatternGetFrequency();
      var freqStr := if currentFreq == Patterns.Freq500ms then "500MS"
                     else if currentFreq == Patterns.Freq1s then "1S" else "3S";
      if activePat == Patterns.PatternNone {
        SendString("Chenillard: INACTIF (Freq select: " + freqStr + ")\r\n");
      } else {
        SendString("Chenillard: ACTIF (Pattern: " + [DigitChar(activePat)] + ", Freq: " + freqStr + ")\r\n");
      }
    }

    /** The LED loop of `Execute_STATUS_Command`: one line per LED, 1 to 3. */
    method SendLedStatusLines()
      requires Valid()
      modifies this
      ensures Valid()
      ensures Snapshot() == old(Snapshot()).(log := old(uartLog) + [Dispatcher.LedStatusLine(pins[..], 1),
                                                                   Dispatcher.LedStatusLine(pins[..], 2),
                                                                   Dispatcher.LedStatusLine(pins[..], 3)])
    {
      ghost var lines := [Dispatcher.LedStatusLine(pins[..], 1), Dispatcher.LedStatusLine(pins[..], 2),
                          Dispatcher.LedStatusLine(pins[..], 3)];
      for i := 1 to LedCount + 1
        invariant Valid()
        invariant Snapshot() == old(Snapshot()).(log := old(uartLog) + lines[..i - 1])
      {
        var s := LedGetState(i);
        SendString("LED " + [DigitChar(i)] + ": " + (if s == LedOn then "ON" else "OFF") + "\r\n");
        assert lines[..i] == lines[..i - 1] + [lines[i - 1]];
      }
    }

    /** `Send_Success_Message` */
    method SendSuccessMessage(message: string)
      modifies this
      ensures Snapshot() == Dispatcher.Emit(old(Snapshot()), Dispatcher.OkLine(message))
    {
      var len := |message|;
      if len > 2 && message[len - 2] == CR && message[len - 1] == LF {
        SendString("[OK] " + message);
      } else {
        SendString("[OK] " + message + "\r\n");
      }
    }

    /** `Send_Error_Message` */
    method SendErrorMessage(message: string)
      modifies this
      ensures Snapshot() == Dispatcher.Emit(old(Snapshot()), Dispatcher.ErrLine(message))
    {
      SendString("[ERR] " + message + "\r\n");
    }
  }
}
