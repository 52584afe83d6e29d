/** The syntax half of `Command_Parser_ProcessCommands` and its `Parse_*`
    helpers in command_parser.c: which assembled line names which command, and
    which specific error a malformed line draws. The execution half (calling the
    LED and pattern operations, emitting the replies) is in module Dispatcher. */
module Grammar {
  import opened Ascii
  import LedBank
  import Patterns
  import LineAssembler

  /** The commands the firmware executes. */
  datatype Command =
    | Status
    | Stop
    | SetLed(led: int, on: bool)
    | StartPattern(pattern: int)
    | SetFrequency(tier: int)

  /** The outcome of reading a line: a command; a line rejected by a
      sub-parser with its specific error; or a line no branch recognises. */
  datatype Parse = Parsed(cmd: Command) | Malformed(reason: string) | Unknown

  /** Specific error texts of the sub-parsers. */
  const LedTooShort := "Format LED invalide (trop court)"
  const LedBadNumber := "Numero LED invalide (1-3)"
  const LedNoSpace := "Format LED invalide (espace manquant)"
  const LedBadState := "Etat LED invalide (ON/OFF attendu)"
  const ChenillardBadNumber := "Numero chenillard invalide (1-3)"
  const ChenillardBadOn := "Format chenillard ON invalide"
  const FrequenceBadFormat := "Format Frequence invalide"
  const FrequenceBadNumber := "Numero Frequence invalide (1-3)"
  const PatBadNumber := "Numero PAT invalide (1-3)"
  const FreqBadNumber := "Numero FREQ invalide (1-3)"
  const BadShortcut := "Raccourci invalide"

  /** `command[i]` where `command` is the line buffer: past the end of the
      line the zero-filled buffer reads as NUL. */
  function At(s: seq<char>, i: nat): (c: char)
    ensures i < |s| ==> c == s[i]
    ensures i >= |s| ==> c == NUL
  {
    if i < |s| then s[i] else NUL
  }

  /** The C string at `&command[i]`: the rest of the line, empty past its end. */
  function From(s: seq<char>, i: nat): (r: seq<char>)
    ensures i <= |s| ==> r == s[i..]
    ensures i > |s| ==> r == []
  {
    if i <= |s| then s[i..] else []
  }

  /** What `At` and `From` read is what the C code reads in the line buffer
      itself: the character at index i, and the C string starting there. */
  lemma BufferReads(l: LineAssembler.LineState, i: nat)
    requires LineAssembler.Valid(l) && i < LineAssembler.BufferSize
    ensures l.buf[i] == At(LineAssembler.Line(l), i)
    ensures CStr(l.buf[i..]) == From(LineAssembler.Line(l), i)
  {
    LineAssembler.LineIsPrefix(l);
    if i <= l.cursor {
      CStrUpTo(l.buf[i..], l.cursor - i);
      assert l.buf[i..][..l.cursor - i] == l.buf[..l.cursor][i..];
    } else {
      CStrUpTo(l.buf[i..], 0);
    }
  }

  /** The digit characters '1'..'3' that number LEDs, patterns and tiers. */
  predicate IsOneToThree(c: char) { '1' <= c <= '3' }

  function DigitValue(c: char): int { c as int - '0' as int }

  /** The tier selected by a frequency digit: 1 is 500 ms, 2 is 1 s, 3 is 3 s. */
  function TierOfDigit(c: char): (t: int)
    requires IsOneToThree(c)
    ensures Patterns.IsFrequency(t) && t == DigitValue(c) - 1
  {
    if c == '1' then Patterns.Freq500ms
    else if c == '2' then Patterns.Freq1s
    else Patterns.Freq3s
  }

  /** `Parse_LED_Command`, syntax part: at least 7 characters, an LED number
      1..3 at index 3, a space at index 4, then exactly ON or OFF. */
  function LedSyntax(line: seq<char>): (r: Parse)
    ensures !r.Unknown?
    ensures r.Malformed? ==> r.reason in {LedTooShort, LedBadNumber, LedNoSpace, LedBadState}
  {
    if |line| < 7 then Malformed(LedTooShort)
    else if !IsOneToThree(line[3]) then Malformed(LedBadNumber)
    else if line[4] != ' ' then Malformed(LedNoSpace)
    else if line[5..] == "ON" then Parsed(SetLed(DigitValue(line[3]), true))
    else if line[5..] == "OFF" then Parsed(SetLed(DigitValue(line[3]), false))
    else Malformed(LedBadState)
  }

  /** `Parse_Chenillard_ON_Command`, syntax part: a pattern number 1..3 right
      after "CHENILLARD", then exactly " ON". */
  function ChenillardOnSyntax(line: seq<char>): (r: Parse)
    ensures !r.Unknown?
    ensures r.Malformed? ==> r.reason in {ChenillardBadNumber, ChenillardBadOn}
  {
    var c := At(line, 10);
    if !IsOneToThree(c) then Malformed(ChenillardBadNumber)
    else if From(line, 11) != " ON" then Malformed(ChenillardBadOn)
    else Parsed(StartPattern(DigitValue(c)))
  }

  /** `Parse_Chenillard_Frequency_Command`, syntax part: exactly
      "CHENILLARD FREQUENCE" and one tier digit 1..3 (21 characters). */
  function ChenillardFrequencySyntax(line: seq<char>): (r: Parse)
    ensures !r.Unknown?
    ensures r.Malformed? ==> r.reason in {FrequenceBadFormat, FrequenceBadNumber}
  {
    if |line| != 21 || !HasPrefix(line, "CHENILLARD FREQUENCE") then Malformed(FrequenceBadFormat)
    else if IsOneToThree(line[20]) then Parsed(SetFrequency(TierOfDigit(line[20])))
    else Malformed(FrequenceBadNumber)
  }

  /** `Parse_Shortcut_Command`, syntax part: STOP; PAT and one pattern digit
      (4 characters); FREQ and one tier digit (5 characters). */
  function ShortcutSyntax(line: seq<char>): (r: Parse)
    ensures !r.Unknown?
    ensures r.Malformed? ==> r.reason in {PatBadNumber, FreqBadNumber, BadShortcut}
  {
    if line == "STOP" then Parsed(Stop)
    else if HasPrefix(line, "PAT") && |line| == 4 then
      (if IsOneToThree(line[3]) then Parsed(StartPattern(DigitValue(line[3]))) else Malformed(PatBadNumber))
    else if HasPrefix(line, "FREQ") && |line| == 5 then
      (if IsOneToThree(line[4]) then Parsed(SetFrequency(TierOfDigit(line[4]))) else Malformed(FreqBadNumber))
    else Malformed(BadShortcut)
  }

  /** The branch chain of `Command_Parser_ProcessCommands`, in its order:
      STATUS, STOP, the LED prefix, the CHENILLARD prefix (an "N ON" tail, or a
      " FREQUENCE" tail, or nothing), then the PAT or FREQ prefix. */
  function Classify(line: seq<char>): (r: Parse)
  {
    if line == "STATUS" then Parsed(Status)
    else if line == "STOP" then Parsed(Stop)
    else if HasPrefix(line, "LED") then LedSyntax(line)
    else if HasPrefix(line, "CHENILLARD") then
      var arg := line[10..];
      if |arg| >= 4 && IsDigit(arg[0]) && arg[1..] == " ON" then ChenillardOnSyntax(line)
      else if HasPrefix(arg, " FREQUENCE") then ChenillardFrequencySyntax(line)
      else Unknown
    else if HasPrefix(line, "PAT") || HasPrefix(line, "FREQ") then ShortcutSyntax(line)
    else Unknown
  }

  /** Commands whose arguments are in range. */
  predicate WellFormed(cmd: Command)
  {
    match cmd
    case SetLed(n, _) => LedBank.IsValidNumber(n)
    case StartPattern(p) => Patterns.IsPattern(p)
    case SetFrequency(t) => Patterns.IsFrequency(t)
    case _ => true
  }

  /** Every line that names a command: the reference grammar, written as the
      set of spellings of each command. */
  function Spellings(cmd: Command): (s: set<string>)
    requires WellFormed(cmd)
  {
    match cmd
    case Status => {"STATUS"}
    case Stop => {"STOP"}
    case SetLed(n, on) => {"LED" + [DigitChar(n)] + " " + (if on then "ON" else "OFF")}
    case StartPattern(p) => {"CHENILLARD" + [DigitChar(p)] + " ON", "PAT" + [DigitChar(p)]}
    case SetFrequency(t) => {"CHENILLARD FREQUENCE" + [DigitChar(t + 1)], "FREQ" + [DigitChar(t + 1)]}
  }

  /** Soundness: a line the parser accepts yields an in-range command and is
      one of that command's spellings. */
  lemma ClassifySound(line: seq<char>)
    requires Classify(line).Parsed?
    ensures WellFormed(Classify(line).cmd) && line in Spellings(Classify(line).cmd)
  {
    var cmd := Classify(line).cmd;
    match cmd
    case Status =>
    case Stop =>
    case SetLed(n, on) =>
      var d := line[3];
      assert DigitChar(n) == d;
      var spelled := "LED" + [d] + " " + (if on then "ON" else "OFF");
      assert line == line[..3] + [d] + [line[4]] + line[5..];
      assert line == spelled;
    case StartPattern(p) =>
      if HasPrefix(line, "CHENILLARD") {
        var d := line[10];
        assert DigitChar(p) == d;
        assert line == line[..10] + [d] + line[11..];
        assert line == "CHENILLARD" + [DigitChar(p)] + " ON";
      } else {
        var d := line[3];
        assert DigitChar(p) == d;
        assert line == line[..3] + [d];
        assert line == "PAT" + [DigitChar(p)];
      }
    case SetFrequency(t) =>
      if HasPrefix(line, "CHENILLARD") {
        var d := line[20];
        assert DigitChar(t + 1) == d;
        assert line == line[..20] + [d];
        assert line == "CHENILLARD FREQUENCE" + [DigitChar(t + 1)];
      } else {
        var d := line[4];
        assert DigitChar(t + 1) == d;
        assert line == line[..4] + [d];
        assert line == "FREQ" + [DigitChar(t + 1)];
      }
  }

  /** Completeness: every spelling of every well-formed command is accepted as
      that command. */
  lemma ClassifyComplete(cmd: Command, line: seq<char>)
    requires WellFormed(cmd) && line in Spellings(cmd)
    ensures Classify(line) == Parsed(cmd)
  {
    match cmd
    case Status =>
    case Stop =>
    case SetLed(n, on) =>
      assert line[..3] == "LED" && line[3] == DigitChar(n) && line[4] == ' ';
      assert line[5..] == if on then "ON" else "OFF";
    case StartPattern(p) =>
      if line == "CHENILLARD" + [DigitChar(p)] + " ON" {
        assert line[..10] == "CHENILLARD" && line[10] == DigitChar(p);
        assert line[..3] == "CHE";
        var arg := line[10..];
        assert |arg| == 4 && arg[0] == DigitChar(p);
        assert arg[1..] == " ON";
        assert From(line, 11) == " ON";
      } else {
        assert line[..3] == "PAT" && line[3] == DigitChar(p);
        assert line[..4] != "CHEN";
      }
    case SetFrequency(t) =>
      if line == "CHENILLARD FREQUENCE" + [DigitChar(t + 1)] {
        assert line[..10] == "CHENILLARD" && line[20] == DigitChar(t + 1);
        assert line[10..][..10] == " FREQUENCE";
        assert line[..20] == "CHENILLARD FREQUENCE";
        assert line[..3] == "CHE";
      } else {
        assert line[..4] == "FREQ" && line[4] == DigitChar(t + 1);
        assert line[..3] == "FRE";
      }
  }

  /** An LED line is accepted exactly when it is at least 7 characters long,
      numbers LED 1..3, has the space, and ends in exactly ON or OFF; every
      other LED line draws a specific error, never the silent Unknown. */
  lemma LedLineAccepted(line: seq<char>)
    requires HasPrefix(line, "LED")
    ensures Classify(line).Parsed? <==>
              |line| >= 7 && IsOneToThree(line[3]) && line[4] == ' ' && (line[5..] == "ON" || line[5..] == "OFF")
    ensures !Classify(line).Parsed? ==> Classify(line).Malformed?
  {
    assert "STATUS"[..3] == "STA" && "STOP"[..3] == "STO";
  }
}
