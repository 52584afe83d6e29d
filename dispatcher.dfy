/** The execution half of `Command_Parser_ProcessCommands` in command_parser.c,
    as pure operations on the whole firmware state: the line being assembled,
    the pattern engine (which owns the LED levels), the UART receive index and
    overflow flag, and the log of strings sent to the UART. The class Firmware.Firmware is proved
    to perform exactly these steps. */
module Dispatcher {
  import opened Ascii
  import opened LedBank
  import LineAssembler
  import Patterns
  import Grammar

  datatype Board = Board(line: LineAssembler.LineState, engine: Patterns.Engine,
                         overflow: bool, rxIndex: nat, log: seq<string>)

  /** `UART_BUFFER_SIZE`: the receive slots the index runs over. */
  const RxBufferSize := 64

  predicate Valid(b: Board)
  {
    LineAssembler.Valid(b.line) && Patterns.Valid(b.engine) && b.rxIndex < RxBufferSize
  }

  const Prompt := "STM32> "
  const Generic := "Commande inconnue ou format invalide"

  predicate EndsWithCrLf(m: string)
  {
    |m| > 2 && m[|m| - 2] == CR && m[|m| - 1] == LF
  }

  /** `Send_Success_Message`: "[OK] " and the message, with CR LF appended
      unless the message already ends in one. */
  function OkLine(msg: string): (r: string)
    ensures HasPrefix(r, "[OK] ") && EndsWithCrLf(r)
    ensures r[5..] == msg || r[5..] == msg + "\r\n"
    ensures EndsWithCrLf(msg) <==> r[5..] == msg
  {
    if EndsWithCrLf(msg) then "[OK] " + msg else "[OK] " + msg + "\r\n"
  }

  /** `Send_Error_Message`: "[ERR] ", the message, CR LF. */
  function ErrLine(msg: string): (r: string)
    ensures HasPrefix(r, "[ERR] ") && EndsWithCrLf(r)
    ensures r[6..|r| - 2] == msg
  {
    "[ERR] " + msg + "\r\n"
  }

  /** `UART_SendString`. */
  function Emit(b: Board, s: string): (r: Board)
    ensures r.log == b.log + [s]
    ensures r == b.(log := r.log)
  {
    b.(log := b.log + [s])
  }

  /** The name of a tier in the replies. */
  function FreqName(f: int): string
  {
    if f == Patterns.Freq500ms then "500MS" else if f == Patterns.Freq1s then "1S" else "3S"
  }

  function OnOff(on: bool): string { if on then "ON" else "OFF" }

  const StatusHeader := "--- Statut ---\r\n"
  const OverflowWarning := "Attention: " + "Debordement buffer UART detecte!\r\n"

  /** One LED line of the status report. */
  function LedStatusLine(leds: seq<bool>, n: int): string
    requires |leds| == LedCount && IsValidNumber(n)
  {
    "LED " + [DigitChar(n)] + ": " + OnOff(GetState(leds, n) == LedOn) + "\r\n"
  }

  /** The pattern line of the status report. */
  function PatternStatusLine(e: Patterns.Engine): string
    requires Patterns.Valid(e)
  {
    if e.active == Patterns.PatternNone then "Chenillard: INACTIF (Freq select: " + FreqName(e.freq) + ")\r\n"
    else "Chenillard: ACTIF (Pattern: " + [DigitChar(e.active)] + ", Freq: " + FreqName(e.freq) + ")\r\n"
  }

  /** The lines `Execute_STATUS_Command` sends: header, LEDs 1 to 3, the pattern
      line and, when an overflow was recorded, the warning. */
  function StatusReport(e: Patterns.Engine, overflow: bool): (r: seq<string>)
    requires Patterns.Valid(e)
    ensures |r| == if overflow then 6 else 5
    ensures r[0] == StatusHeader
    ensures forall n :: 1 <= n <= LedCount ==> r[n] == LedStatusLine(e.leds, n)
    ensures r[4] == PatternStatusLine(e)
    ensures overflow ==> r[5] == OverflowWarning
  {
    [StatusHeader, LedStatusLine(e.leds, 1), LedStatusLine(e.leds, 2), LedStatusLine(e.leds, 3),
     PatternStatusLine(e)] + (if overflow then [OverflowWarning] else [])
  }

  /** `Execute_STATUS_Command`: sends the report and consumes the overflow flag
      (`UART_HasOverflow` reads and clears it). Always processed; nothing else
      changes. */
  function ExecuteStatus(b: Board): (r: (Board, bool))
    requires Patterns.Valid(b.engine)
    ensures r.1
    ensures r.0.line == b.line && r.0.engine == b.engine && !r.0.overflow && r.0.rxIndex == b.rxIndex
    ensures r.0.log == b.log + StatusReport(b.engine, b.overflow)
  {
    (b.(overflow := false, log := b.log + StatusReport(b.engine, b.overflow)), true)
  }

  /** `Execute_STOP_Command`: stops a running pattern with an [OK] reply; with
      nothing running replies with an [ERR] but still counts as processed. */
  function ExecuteStop(b: Board): (r: (Board, bool))
    ensures r.1
    ensures r.0.engine == Patterns.Stop(b.engine).0 && !Patterns.Running(r.0.engine)
    ensures r.0.log == b.log + [if Patterns.Running(b.engine) then OkLine("Chenillard arrete\r\n")
                                 else ErrLine("Aucun chenillard actif a arreter")]
    ensures r.0.line == b.line && r.0.overflow == b.overflow && r.0.rxIndex == b.rxIndex
  {
    var (e, stopped) := Patterns.Stop(b.engine);
    if stopped then (Emit(b.(engine := e), OkLine("Chenillard arrete\r\n")), true)
    else (Emit(b, ErrLine("Aucun chenillard actif a arreter")), true)
  }

  /** The action half of `Parse_LED_Command`: the write through the interlock
      and its reply. */
  function ExecuteSetLed(b: Board, n: int, on: bool): (r: (Board, bool))
    requires Patterns.Valid(b.engine)
    ensures r.1 <==> IsValidNumber(n) && !Patterns.Running(b.engine)
    ensures r.0.engine == if r.1 then b.engine.(leds := Forced(b.engine.leds, n, on)) else b.engine
    ensures r.0.line == b.line && r.0.overflow == b.overflow && r.0.rxIndex == b.rxIndex
    ensures r.0.log == b.log + [if r.1 then OkLine("LED " + [DigitChar(n)] + " mise a " + OnOff(on) + "\r\n")
                                 else ErrLine("Impossible de changer LED (pattern actif?)")]
  {
    var e := b.engine;
    var (leds, ok) := SetState(e.leds, n, on, Patterns.Running(e));
    if ok then (Emit(b.(engine := e.(leds := leds)), OkLine("LED " + [DigitChar(n)] + " mise a " + OnOff(on) + "\r\n")), true)
    else (Emit(b, ErrLine("Impossible de changer LED (pattern actif?)")), false)
  }

  /** The action half of `Parse_Chenillard_ON_Command` and of PAT in
      `Parse_Shortcut_Command`: `Pattern_Start` and its reply. */
  function ExecuteStart(b: Board, p: int): (r: (Board, bool))
    ensures r.1 <==> Patterns.IsPattern(p)
    ensures r.0 == if r.1 then Emit(b.(engine := Patterns.Start(b.engine, p).0), OkLine("Chenillard " + [DigitChar(p)] + " active\r\n"))
                   else Emit(b, ErrLine("Impossible de demarrer chenillard"))
  {
    var (e', ok) := Patterns.Start(b.engine, p);
    if ok then (Emit(b.(engine := e'), OkLine("Chenillard " + [DigitChar(p)] + " active\r\n")), true)
    else (Emit(b, ErrLine("Impossible de demarrer chenillard")), false)
  }

  /** The action half of `Parse_Chenillard_Frequency_Command` and of FREQ in
      `Parse_Shortcut_Command`: `Pattern_SetFrequency` and its reply. */
  function ExecuteSetFrequency(b: Board, t: int): (r: (Board, bool))
    ensures r.1 <==> Patterns.IsFrequency(t)
    ensures r.0 == if r.1 then Emit(b.(engine := Patterns.SetFrequency(b.engine, t).0), OkLine("Frequence reglee a " + FreqName(t) + "\r\n"))
                   else Emit(b, ErrLine("Impossible de regler frequence"))
  {
    var (e', ok) := Patterns.SetFrequency(b.engine, t);
    if ok then (Emit(b.(engine := e'), OkLine("Frequence reglee a " + FreqName(t) + "\r\n")), true)
    else (Emit(b, ErrLine("Impossible de regler frequence")), false)
  }

  /** The action half of each `Parse_*` helper and the two `Execute_*`
      commands. */
  function Execute(b: Board, cmd: Grammar.Command): (r: (Board, bool))
    requires Patterns.Valid(b.engine)
    ensures r.0.line == b.line && r.0.rxIndex == b.rxIndex
    ensures !r.1 ==> r.0.engine == b.engine
    ensures |r.0.log| > |b.log| && r.0.log[..|b.log|] == b.log
    ensures Patterns.Valid(r.0.engine)
    ensures Patterns.TimersAgree(b.engine) ==> Patterns.TimersAgree(r.0.engine)
  {
    match cmd
    case Status => ExecuteStatus(b)
    case Stop => ExecuteStop(b)
    case SetLed(n, on) => ExecuteSetLed(b, n, on)
    case StartPattern(p) => ExecuteStart(b, p)
    case SetFrequency(t) => ExecuteSetFrequency(b, t)
  }

  /** A parse outcome carried out: a command is executed, a sub-parser's
      rejection sends its specific error, an unrecognised line does nothing yet. */
  function Run(b: Board, p: Grammar.Parse): (r: (Board, bool))
    requires Patterns.Valid(b.engine)
    ensures p.Parsed? ==> r == Execute(b, p.cmd)
    ensures p.Malformed? ==> r == (Emit(b, ErrLine(p.reason)), false)
    ensures p.Unknown? ==> r == (b, false)
  {
    match p
    case Parsed(cmd) => Execute(b, cmd)
    case Malformed(m) => (Emit(b, ErrLine(m)), false)
    case Unknown => (b, false)
  }

  /** `Command_Parser_ProcessCommands`. Nothing happens unless a line is
      complete. A complete non-empty line is classified and run; when it was not
      processed the generic error follows; the buffer is then cleared and the
      prompt sent. An empty line is cleared without any output. */
  function Respond(b: Board): (r: Board)
    requires Valid(b)
    ensures Valid(r)
    ensures Patterns.TimersAgree(b.engine) ==> Patterns.TimersAgree(r.engine)
    ensures !b.line.complete ==> r == b
    ensures b.line.complete ==> r.line == LineAssembler.Cleared()
    ensures b.line.complete ==> (|r.log| > |b.log| <==> LineAssembler.Line(b.line) != [])
    ensures b.line.complete && LineAssembler.Line(b.line) != [] ==> r.log[|r.log| - 1] == Prompt
    ensures |r.log| >= |b.log| && r.log[..|b.log|] == b.log
  {
    if !b.line.complete then b
    else
      var line := LineAssembler.Line(b.line);
      var isEmpty := |line| == 0;
      var (b1, processed) := if isEmpty then (b, false) else Run(b, Grammar.Classify(line));
      var b2 := if !isEmpty && !processed then Emit(b1, ErrLine(Generic)) else b1;
      var b3 := b2.(line := LineAssembler.Cleared());
      if isEmpty then b3 else Emit(b3, Prompt)
  }

  /** `HAL_UART_RxCpltCallback`: the receive index moves to the next slot,
      wrapping from the last slot to 0 and raising the overflow flag as it
      wraps, whatever the character is; the character then goes to
      `Command_Parser_ProcessChar`. */
  function Receive(b: Board, c: char): (r: Board)
    requires Valid(b)
    ensures Valid(r)
    ensures r.rxIndex == (b.rxIndex + 1) % RxBufferSize
    ensures r.overflow <==> b.overflow || b.rxIndex == RxBufferSize - 1
    ensures r.line == LineAssembler.Feed(b.line, c)
    ensures r.engine == b.engine && r.log == b.log
  {
    var b1 := if b.rxIndex >= RxBufferSize - 1 then b.(overflow := true, rxIndex := 0)
              else b.(rxIndex := b.rxIndex + 1);
    b1.(line := LineAssembler.Feed(b1.line, c))
  }

  /** Receiving a whole sequence of characters, first to last. */
  function ReceiveAll(b: Board, s: seq<char>): (r: Board)
    requires Valid(b)
    ensures Valid(r)
    decreases |s|
  {
    if s == [] then b else Receive(ReceiveAll(b, s[..|s| - 1]), s[|s| - 1])
  }

  /** The overflow flag counts received bytes, not lines: after k characters
      the index has moved k slots round the buffer, and the flag is up exactly
      when it was already up or the index has passed the last slot. The
      engine and the output are untouched and the line is the assembler's. */
  lemma {:induction false} ReceiveCounts(b: Board, s: seq<char>)
    requires Valid(b)
    ensures ReceiveAll(b, s).rxIndex == (b.rxIndex + |s|) % RxBufferSize
    ensures ReceiveAll(b, s).overflow <==> b.overflow || b.rxIndex + |s| >= RxBufferSize
    ensures ReceiveAll(b, s).line == LineAssembler.FeedAll(b.line, s)
    ensures ReceiveAll(b, s).engine == b.engine && ReceiveAll(b, s).log == b.log
    decreases |s|
  {
    if s != [] {
      var init := s[..|s| - 1];
      ReceiveCounts(b, init);
      var m := ReceiveAll(b, init);
      assert m.rxIndex == (b.rxIndex + |init|) % RxBufferSize;
      if b.rxIndex + |init| < RxBufferSize {
        assert m.rxIndex == b.rxIndex + |init|;
      } else {
        assert m.overflow;
      }
    }
  }

  /** From index 0 and no overflow, 63 characters leave the flag down and the
      64th raises it. */
  lemma OverflowOnSixtyFourthByte(b: Board, s: seq<char>)
    requires Valid(b) && b.rxIndex == 0 && !b.overflow
    ensures |s| < RxBufferSize ==> !ReceiveAll(b, s).overflow
    ensures |s| >= RxBufferSize ==> ReceiveAll(b, s).overflow
  {
    ReceiveCounts(b, s);
  }

  /** An empty complete line is discarded silently. */
  lemma EmptyLineIsSilent(b: Board)
    requires Valid(b) && b.line.complete && LineAssembler.Line(b.line) == []
    ensures Respond(b) == b.(line := LineAssembler.Cleared())
  {
  }

  /** A line rejected by a sub-parser changes no LED and no pattern state; the
      reply is its specific error, the generic error, then the prompt. */
  lemma MalformedLineChangesNothing(b: Board)
    requires Valid(b) && b.line.complete
    requires Grammar.Classify(LineAssembler.Line(b.line)).Malformed?
    ensures Respond(b).engine == b.engine && Respond(b).overflow == b.overflow
    ensures Respond(b).log == b.log + [ErrLine(Grammar.Classify(LineAssembler.Line(b.line)).reason),
                                       ErrLine(Generic), Prompt]
  {
  }

  /** A non-empty line no branch recognises draws only the generic error. */
  lemma UnknownLineChangesNothing(b: Board)
    requires Valid(b) && b.line.complete && LineAssembler.Line(b.line) != []
    requires Grammar.Classify(LineAssembler.Line(b.line)).Unknown?
    ensures Respond(b).engine == b.engine && Respond(b).overflow == b.overflow
    ensures Respond(b).log == b.log + [ErrLine(Generic), Prompt]
  {
  }

  /** A malformed LED line never changes an LED: whichever of the checks fails,
      its error and the generic error are sent and the LEDs keep their levels. */
  lemma MalformedLedLineKeepsLeds(b: Board)
    requires Valid(b) && b.line.complete
    requires HasPrefix(LineAssembler.Line(b.line), "LED")
    requires !Grammar.Classify(LineAssembler.Line(b.line)).Parsed?
    ensures Respond(b).engine == b.engine
    ensures Respond(b).log == b.log + [ErrLine(Grammar.Classify(LineAssembler.Line(b.line)).reason),
                                       ErrLine(Generic), Prompt]
  {
    Grammar.LedLineAccepted(LineAssembler.Line(b.line));
    MalformedLineChangesNothing(b);
  }

  /** A well-formed LED line while a pattern runs is refused by the interlock:
      no LED changes, and the refusal is followed by the generic error. */
  lemma LedLineRefusedWhilePatternRuns(b: Board, n: int, on: bool)
    requires Valid(b) && b.line.complete && Patterns.Running(b.engine)
    requires Grammar.Classify(LineAssembler.Line(b.line)) == Grammar.Parsed(Grammar.SetLed(n, on))
    ensures Respond(b).engine == b.engine
    ensures Respond(b).log == b.log + [ErrLine("Impossible de changer LED (pattern actif?)"),
                                       ErrLine(Generic), Prompt]
  {
  }

  /** With no pattern running, a well-formed LED line writes exactly that LED,
      replies [OK] and sends the prompt. */
  lemma LedLineAppliedWhenIdle(b: Board, n: int, on: bool)
    requires Valid(b) && b.line.complete && !Patterns.Running(b.engine) && IsValidNumber(n)
    requires Grammar.Classify(LineAssembler.Line(b.line)) == Grammar.Parsed(Grammar.SetLed(n, on))
    ensures Respond(b).engine == b.engine.(leds := Forced(b.engine.leds, n, on))
    ensures Respond(b).log == b.log + [OkLine("LED " + [DigitChar(n)] + " mise a " + OnOff(on) + "\r\n"), Prompt]
  {
    Grammar.ClassifySound(LineAssembler.Line(b.line));
  }

  /** STOP with nothing running is answered with its own [ERR] only: it counts
      as processed, so no generic error follows. */
  lemma RedundantStopIsProcessed(b: Board)
    requires Valid(b) && b.line.complete && !Patterns.Running(b.engine)
    requires LineAssembler.Line(b.line) == "STOP"
    ensures Respond(b).engine == b.engine
    ensures Respond(b).log == b.log + [ErrLine("Aucun chenillard actif a arreter"), Prompt]
  {
  }

  /** Any accepted line: the board is the command's execution, followed by
      the generic error when it was not processed and by the prompt, with the
      buffer reset. */
  lemma AcceptedLineRuns(b: Board, cmd: Grammar.Command)
    requires Valid(b) && b.line.complete
    requires Grammar.Classify(LineAssembler.Line(b.line)) == Grammar.Parsed(cmd)
    ensures Respond(b) == Execute(b, cmd).0.(line := LineAssembler.Cleared(),
                                             log := Execute(b, cmd).0.log
                                                    + (if Execute(b, cmd).1 then [] else [ErrLine(Generic)])
                                                    + [Prompt])
  {
    assert LineAssembler.Line(b.line) != [];
  }

  /** A CHENILLARDn ON or PATn line, n in 1..3, starts pattern n and replies
      "Chenillard n active" and the prompt. */
  lemma StartLineStartsPattern(b: Board, p: int)
    requires Valid(b) && b.line.complete && Patterns.IsPattern(p)
    requires LineAssembler.Line(b.line) in Grammar.Spellings(Grammar.StartPattern(p))
    ensures Respond(b).engine == Patterns.Start(b.engine, p).0
    ensures Respond(b).engine.active == p && Respond(b).engine.step == 0 && Respond(b).engine.pending
    ensures Respond(b).log == b.log + [OkLine("Chenillard " + [DigitChar(p)] + " active\r\n"), Prompt]
  {
    Grammar.ClassifyComplete(Grammar.StartPattern(p), LineAssembler.Line(b.line));
    AcceptedLineRuns(b, Grammar.StartPattern(p));
  }

  /** "PAT2" starts pattern 2 with the reply "[OK] Chenillard 2 active". */
  lemma PatTwoStartsPatternTwo(b: Board)
    requires Valid(b) && b.line.complete && LineAssembler.Line(b.line) == "PAT2"
    ensures Respond(b).engine == Patterns.Start(b.engine, 2).0 && Respond(b).engine.active == 2
    ensures Respond(b).log == b.log + ["[OK] " + "Chenillard 2 active\r\n", Prompt]
  {
    var line := LineAssembler.Line(b.line);
    var reply := "Chenillard " + [DigitChar(2)] + " active\r\n";
    assert line in Grammar.Spellings(Grammar.StartPattern(2)) by {
      assert DigitChar(2) == '2' && line == "PAT" + ['2'];
    }
    assert reply[|reply| - 2..] == "\r\n" && reply == "Chenillard 2 active\r\n";
    OkText(reply);
    StartLineStartsPattern(b, 2);
  }

  /** A CHENILLARD FREQUENCEd or FREQd line, d in 1..3, selects tier d - 1,
      keeps the pattern, its step and the LEDs, and replies with the tier's
      name and the prompt. */
  lemma FrequencyLineSetsTier(b: Board, t: int)
    requires Valid(b) && b.line.complete && Patterns.IsFrequency(t)
    requires LineAssembler.Line(b.line) in Grammar.Spellings(Grammar.SetFrequency(t))
    ensures Respond(b).engine == Patterns.SetFrequency(b.engine, t).0
    ensures Respond(b).engine == b.engine.(freq := t, timers := Respond(b).engine.timers)
    ensures Respond(b).log == b.log + [OkLine("Frequence reglee a " + FreqName(t) + "\r\n"), Prompt]
  {
    Grammar.ClassifyComplete(Grammar.SetFrequency(t), LineAssembler.Line(b.line));
    AcceptedLineRuns(b, Grammar.SetFrequency(t));
  }

  /** STOP while a pattern runs stops it, turns every LED off and replies
      "[OK] Chenillard arrete". */
  lemma StopWhileRunning(b: Board)
    requires Valid(b) && b.line.complete && Patterns.Running(b.engine)
    requires LineAssembler.Line(b.line) == "STOP"
    ensures Respond(b).engine == Patterns.Stop(b.engine).0
    ensures !Patterns.Running(Respond(b).engine) && Respond(b).engine.leds == AllOff
    ensures Respond(b).log == b.log + ["[OK] " + "Chenillard arrete\r\n", Prompt]
  {
    var line := LineAssembler.Line(b.line);
    assert Grammar.Classify(line) == Grammar.Parsed(Grammar.Stop) by {
      assert |line| == 4;
    }
    AcceptedLineRuns(b, Grammar.Stop);
    StopReplyWhenRunning(b);
  }

  lemma StopReplyWhenRunning(b: Board)
    requires Valid(b) && Patterns.Running(b.engine)
    ensures Execute(b, Grammar.Stop).1
    ensures Execute(b, Grammar.Stop).0 == b.(engine := Patterns.Stop(b.engine).0,
                                             log := b.log + ["[OK] " + "Chenillard arrete\r\n"])
  {
    var msg := "Chenillard arrete\r\n";
    assert msg[|msg| - 2..] == "\r\n";
    OkText(msg);
    assert Execute(b, Grammar.Stop) == ExecuteStop(b);
  }

  /** A reply that already ends in CR LF is sent after "[OK] " unchanged. */
  lemma OkText(msg: string)
    requires |msg| > 2 && msg[|msg| - 2..] == "\r\n"
    ensures OkLine(msg) == "[OK] " + msg
  {
    assert msg[|msg| - 2] == msg[|msg| - 2..][0];
  }

  /** STATUS reports the state without changing it and consumes the overflow
      flag: the warning appears in one report only. */
  lemma StatusReportsOverflowOnce(b: Board)
    requires Valid(b) && b.line.complete && LineAssembler.Line(b.line) == "STATUS"
    ensures Respond(b).engine == b.engine && !Respond(b).overflow
    ensures Respond(b).log == b.log + StatusReport(b.engine, b.overflow) + [Prompt]
    ensures OverflowWarning !in StatusReport(Respond(b).engine, Respond(b).overflow)
  {
    WarningOnlyOnOverflow(b.engine);
  }

  /** The warning is the only report line that starts with 'A'. */
  lemma WarningOnlyOnOverflow(e: Patterns.Engine)
    requires Patterns.Valid(e)
    ensures OverflowWarning !in StatusReport(e, false)
  {
    var r := StatusReport(e, false);
    assert OverflowWarning[0] == 'A';
    forall i | 0 <= i < |r| ensures r[i] != OverflowWarning {
      if i == 0 {
        assert r[i][0] == '-';
      } else if i < 4 {
        assert r[i][0] == 'L';
      } else {
        assert r[i][0] == 'C';
      }
    }
  }
}
