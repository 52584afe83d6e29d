/** How the host client's checks relate to the firmware's grammar. The host
    sends a typed command only when `Command_Validate` accepts it and it is
    not one of its own special commands (linux_app/main.c), as the command
    followed by CR; the firmware upper-cases what it receives. */
module HostAgreement {
  import opened Ascii
  import Grammar
  import CommandValidator
  import SpecialCommands
  import LineAssembler

  /** Every line the firmware accepts as a command, typed in any case, is
      also accepted by the host's validator: the validator's shapes contain
      the firmware's spellings. */
  lemma FirmwareCommandsPassValidator(s: seq<char>)
    requires NUL !in s
    requires Grammar.Classify(UpperString(s)).Parsed?
    ensures CommandValidator.Validated(Text(s))
  {
    var line := UpperString(s);
    var cmd := Grammar.Classify(line).cmd;
    Grammar.ClassifySound(line);
    SpellingAccepted(cmd, line);
    CStrOfPlain(s);
    assert CommandValidator.UpperCopy(s) == line;
  }

  /** Every spelling of an in-range command has one of the validator's shapes
      and at most 21 characters. */
  lemma SpellingAccepted(cmd: Grammar.Command, line: seq<char>)
    requires Grammar.WellFormed(cmd) && line in Grammar.Spellings(cmd)
    ensures |line| <= 21 && CommandValidator.Accepts(line)
  {
    match cmd
    case Status =>
    case Stop =>
    case SetLed(n, on) =>
      var d := DigitChar(n);
      if on {
        assert line == "LED" + [d] + " ON";
      } else {
        assert line == "LED" + [d] + " OFF";
      }
      CommandValidator.FormAccepted(line, d);
    case StartPattern(p) =>
      CommandValidator.FormAccepted(line, DigitChar(p));
    case SetFrequency(t) =>
      CommandValidator.FormAccepted(line, DigitChar(t + 1));
  }

  /** The converse fails: the validator does not check ranges, so a line such
      as "led7 on" (any digit outside 1..3) is sent, and the firmware answers
      it with a number error. */
  lemma ValidatorAcceptsOutOfRangeLed(d: char)
    requires IsDigit(d) && !Grammar.IsOneToThree(d)
    ensures CommandValidator.Validated(Text("led" + [d] + " on"))
    ensures Grammar.Classify(UpperString("led" + [d] + " on")) == Grammar.Malformed(Grammar.LedBadNumber)
  {
    var s := "led" + [d] + " on";
    var line := "LED" + [d] + " ON";
    LedLineUpperCased(s, d);
    CStrOfPlain(s);
    assert CommandValidator.UpperCopy(s) == line;
    CommandValidator.FormAccepted(line, d);
    LedLineOutOfRange(line, d);
  }

  lemma LedLineUpperCased(s: seq<char>, d: char)
    requires IsDigit(d) && s == "led" + [d] + " on"
    ensures NUL !in s && UpperString(s) == "LED" + [d] + " ON"
  {
    var line := "LED" + [d] + " ON";
    assert |s| == 7 && |line| == 7;
    forall i | 0 <= i < 7 ensures s[i] != NUL && UpperString(s)[i] == line[i] {
      if i < 3 {
        assert s[i] == "led"[i] && line[i] == "LED"[i];
      } else if i > 3 {
        assert s[i] == " on"[i - 4] && line[i] == " ON"[i - 4];
      }
    }
  }

  lemma LedLineOutOfRange(line: seq<char>, d: char)
    requires IsDigit(d) && !Grammar.IsOneToThree(d) && line == "LED" + [d] + " ON"
    ensures Grammar.Classify(line) == Grammar.Malformed(Grammar.LedBadNumber)
  {
    assert line[..3] == "LED" && line[3] == d;
    assert line[..3] != "STA" && line[..3] != "STO";
  }

  /** The host's own words are accepted by the validator too. */
  lemma SpecialCommandsPassValidator(command: CString)
    requires SpecialCommands.IsSpecial(command)
    ensures CommandValidator.Validated(command)
  {
    var t := CStr(command.mem);
    var k := Min(|t|, SpecialCommands.CopySize - 1);
    var n := SpecialCommands.Normalized(command.mem);
    CaseMappingsAbsorb(t[..k]);
    assert CommandValidator.UpperCopy(command.mem) == UpperString(n);
    SpecialWordUpperCased(n);
  }

  /** Upper-cased, the host's words are HELP, CLEAR and QUIT. */
  lemma SpecialWordUpperCased(w: seq<char>)
    requires w in {"help", "clear", "quit"}
    ensures UpperString(w) in {"HELP", "CLEAR", "QUIT"}
  {
    if w == "help" {
      assert UpperString(w) == "HELP";
    } else if w == "clear" {
      assert UpperString(w) == "CLEAR";
    } else {
      assert UpperString(w) == "QUIT";
    }
  }

  /** A validated command of at most 63 printable characters, typed and
      ended with CR, reaches the firmware as exactly its upper-cased text. */
  lemma SentLineArrivesUpperCased(s: seq<char>)
    requires LineAssembler.AllPrintable(s) && |s| <= LineAssembler.BufferSize - 1
    ensures LineAssembler.FeedAll(LineAssembler.Cleared(), s + [CR]).complete
    ensures LineAssembler.Line(LineAssembler.FeedAll(LineAssembler.Cleared(), s + [CR])) == UpperString(s)
  {
    LineAssembler.TypedLineThenReturn(s);
  }
}
