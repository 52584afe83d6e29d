/** `Command_Validate` of linux_app/command_validator.c: the host client's
    case-insensitive check of a command's shape before it is sent to the
    board. It checks shapes only; the numbers are checked by the firmware. */
module CommandValidator {
  import opened Ascii

  /** `sizeof(upperCommand)`: at most 127 characters are examined. */
  const CopySize := 128

  /** The upper-cased copy `upperCommand`: the C string cut to 127 characters. */
  function UpperCopy(mem: seq<char>): (u: seq<char>)
    ensures |u| == Min(|CStr(mem)|, CopySize - 1)
    ensures u == UpperString(CStr(mem)[..|u|])
  {
    var s := CStr(mem);
    UpperString(s[..Min(|s|, CopySize - 1)])
  }

  /** The format checks applied to the upper-cased copy, in source order. */
  predicate Accepts(u: seq<char>)
  {
    || u == "HELP" || u == "STATUS" || u == "STOP" || u == "CLEAR" || u == "QUIT"
    || (HasPrefix(u, "LED") && |u| >= 6 && IsDigit(u[3]) && u[4] == ' ' && (u[5..] == "ON" || u[5..] == "OFF"))
    || (HasPrefix(u, "CHENILLARD") && |u[10..]| >= 4 && IsDigit(u[10]) && u[11..] == " ON")
    || (HasPrefix(u, "CHENILLARD") && HasPrefix(u[10..], " FREQUENCE") && |u[10..]| == 11 && IsDigit(u[20]))
    || (HasPrefix(u, "PAT") && |u| == 4 && IsDigit(u[3]))
    || (HasPrefix(u, "FREQ") && |u| == 5 && IsDigit(u[4]))
  }

  /** What `Command_Validate` returns: false for NULL or the empty string,
      otherwise the format checks on the upper-cased copy. */
  predicate Validated(command: CString)
  {
    command.Text? && CStr(command.mem) != [] && Accepts(UpperCopy(command.mem))
  }

  /** `Command_Validate`: copies and upper-cases the string into a 128-slot
      array, then applies the format checks. */
  method Validate(command: CString) returns (ok: bool)
    ensures ok == Validated(command)
  {
    if command.Null? || |command.mem| == 0 || command.mem[0] == NUL {
      return false;
    }
    var mem := command.mem;
    var upperCommand := new char[CopySize];
    var len := 0;
    while len < |mem| && mem[len] != NUL && len < CopySize - 1
      invariant len <= |mem| && len <= CopySize - 1
      invariant forall i :: 0 <= i < len ==> mem[i] != NUL
      invariant upperCommand[..len] == UpperString(mem[..len])
    {
      upperCommand[len] := ToUpper(mem[len]);
      len := len + 1;
    }
    upperCommand[len] := NUL;
    CStrPrefix(mem, len);
    assert upperCommand[..len] == UpperCopy(mem);
    ok := Accepts(upperCommand[..len]);
  }

  /** When `mem` has no NUL before index k, its C string starts with `mem[..k]`. */
  lemma CStrPrefix(mem: seq<char>, k: nat)
    requires k <= |mem|
    requires forall i :: 0 <= i < k ==> mem[i] != NUL
    ensures k <= |CStr(mem)| && CStr(mem)[..k] == mem[..k]
  {
  }

  /** `Command_GetValidCommands`: the list is no longer built; it is empty. */
  function GetValidCommands(): string
  {
    ""
  }

  /** The five single words. */
  const Words: set<string> := {"HELP", "STATUS", "STOP", "CLEAR", "QUIT"}

  /** The shapes built around one digit `d`. */
  function DigitForms(d: char): set<string>
  {
    {"LED" + [d] + " ON", "LED" + [d] + " OFF", "CHENILLARD" + [d] + " ON",
     "CHENILLARD FREQUENCE" + [d], "PAT" + [d], "FREQ" + [d]}
  }

  /** The accepted copies, listed: the words, and each digit shape with any
      decimal digit, 0 and 4 to 9 included. */
  lemma AcceptsExactlyTheForms(u: seq<char>)
    ensures Accepts(u) <==> u in Words || exists d :: IsDigit(d) && u in DigitForms(d)
  {
    if Accepts(u) && u !in Words {
      AcceptedHasDigit(u);
    }
    if u !in Words && exists d :: IsDigit(d) && u in DigitForms(d) {
      var d :| IsDigit(d) && u in DigitForms(d);
      FormAccepted(u, d);
    }
  }

  lemma AcceptedHasDigit(u: seq<char>)
    requires Accepts(u) && u !in Words
    ensures exists d :: IsDigit(d) && u in DigitForms(d)
  {
    if HasPrefix(u, "LED") && |u| >= 6 && IsDigit(u[3]) && u[4] == ' ' && (u[5..] == "ON" || u[5..] == "OFF") {
      assert u == u[..3] + [u[3]] + [u[4]] + u[5..];
      if u[5..] == "ON" {
        assert u == "LED" + [u[3]] + " ON";
      } else {
        assert u == "LED" + [u[3]] + " OFF";
      }
    } else if HasPrefix(u, "CHENILLARD") && |u[10..]| >= 4 && IsDigit(u[10]) && u[11..] == " ON" {
      assert u == u[..10] + [u[10]] + u[11..];
      assert u in DigitForms(u[10]);
    } else if HasPrefix(u, "CHENILLARD") && HasPrefix(u[10..], " FREQUENCE") && |u[10..]| == 11 && IsDigit(u[20]) {
      assert u[..20] == u[..10] + u[10..][..10];
      assert u[..20] == "CHENILLARD FREQUENCE";
      assert u == u[..20] + [u[20]];
      assert u == "CHENILLARD FREQUENCE" + [u[20]];
      assert u in DigitForms(u[20]);
    } else if HasPrefix(u, "PAT") && |u| == 4 && IsDigit(u[3]) {
      assert u == u[..3] + [u[3]];
      assert u in DigitForms(u[3]);
    } else {
      assert u == u[..4] + [u[4]];
      assert u in DigitForms(u[4]);
    }
  }

  lemma FormAccepted(u: seq<char>, d: char)
    requires IsDigit(d) && u in DigitForms(d)
    ensures Accepts(u)
  {
    if u == "LED" + [d] + " ON" || u == "LED" + [d] + " OFF" {
      assert u[..3] == "LED" && u[3] == d && u[4] == ' ';
      assert u[5..] == "ON" || u[5..] == "OFF";
    } else if u == "CHENILLARD" + [d] + " ON" {
      assert u[..10] == "CHENILLARD" && u[10] == d;
      assert u[11..] == " ON";
    } else if u == "CHENILLARD FREQUENCE" + [d] {
      assert u[..10] == "CHENILLARD" && u[20] == d;
      assert u[10..][..10] == " FREQUENCE";
    } else if u == "PAT" + [d] {
      assert u[..3] == "PAT" && u[3] == d;
    } else {
      assert u[..4] == "FREQ" && u[4] == d;
    }
  }

  /** The check ignores case: a string, its upper-cased form and its
      lower-cased form are accepted alike. */
  lemma CaseInsensitive(s: seq<char>)
    ensures Validated(Text(s)) == Validated(Text(UpperString(s)))
    ensures Validated(Text(s)) == Validated(Text(LowerString(s)))
  {
    var t := CStr(s);
    CStrOfCaseMapped(s);
    var k := Min(|t|, CopySize - 1);
    assert UpperCopy(UpperString(s)) == UpperString(UpperString(t)[..k]);
    assert UpperString(t)[..k] == UpperString(t[..k]);
    CaseMappingsAbsorb(t[..k]);
    assert UpperCopy(LowerString(s)) == UpperString(LowerString(t)[..k]);
    assert LowerString(t)[..k] == LowerString(t[..k]);
  }

  /** Only the first 127 characters are examined: anything typed after them
      does not change the verdict. */
  lemma OnlyPrefixMatters(s: seq<char>, tail: seq<char>)
    requires NUL !in s && |s| >= CopySize - 1
    ensures Validated(Text(s + tail)) == Validated(Text(s))
  {
    CStrPrefix(s + tail, |s|);
    CStrOfPlain(s);
    assert (s + tail)[..|s|] == s;
    var t := CStr(s + tail);
    assert t[..CopySize - 1] == s[..CopySize - 1];
  }
}
