/** `Special_IsSpecialCommand` and `Special_ProcessCommand` of
    linux_app/special_commands.c: the host client's own commands help, clear
    and quit, recognised in any case and never sent to the board. */
module SpecialCommands {
  import opened Ascii

  /** `SpecialCommandCode`: NONE, HELP, CLEAR, QUIT are 0..3. */
  datatype SpecialCode = NoSpecial | Help | Clear | Quit

  /** `sizeof(normalizedCommand)` */
  const CopySize := 128

  /** The lower-cased copy `normalizedCommand`: `strncpy` takes at most 127
      characters of the C string, then the loop lower-cases them. */
  function Normalized(mem: seq<char>): (n: seq<char>)
    ensures |n| == Min(|CStr(mem)|, CopySize - 1)
    ensures n == LowerString(CStr(mem)[..|n|])
  {
    var s := CStr(mem);
    LowerString(s[..Min(|s|, CopySize - 1)])
  }

  /** What `Special_ProcessCommand` returns (its screen output left aside). */
  function Process(command: CString): (code: SpecialCode)
  {
    if command.Null? || CStr(command.mem) == [] then NoSpecial
    else
      var n := Normalized(command.mem);
      if n == "help" then Help
      else if n == "clear" then Clear
      else if n == "quit" then Quit
      else NoSpecial
  }

  /** What `Special_IsSpecialCommand` returns. */
  predicate IsSpecial(command: CString)
  {
    command.Text? && CStr(command.mem) != [] && Normalized(command.mem) in {"help", "clear", "quit"}
  }

  /** The copy and lower-casing shared by both functions: `strncpy` of up to
      127 characters, the terminating NUL in the last slot, then the loop
      `for (i = 0; normalizedCommand[i]; i++)` rewriting the array in place. */
  method NormalizedCopy(mem: seq<char>) returns (n: seq<char>)
    ensures n == Normalized(mem)
  {
    var copy := new char[CopySize];
    var i := 0;
    while i < CopySize - 1 && i < |mem| && mem[i] != NUL
      invariant i <= CopySize - 1 && i <= |mem|
      invariant forall j :: 0 <= j < i ==> mem[j] != NUL && copy[j] == mem[j]
    {
      copy[i] := mem[i];
      i := i + 1;
    }
    var len := i;
    while i < CopySize - 1
      invariant len <= i <= CopySize - 1
      invariant forall j :: 0 <= j < len ==> copy[j] == mem[j]
      invariant forall j :: len <= j < i ==> copy[j] == NUL
    {
      copy[i] := NUL;
      i := i + 1;
    }
    copy[CopySize - 1] := NUL;
    CStrUpTo(mem[..len], len);
    ghost var plain := copy[..len];
    assert plain == mem[..len];
    i := 0;
    while copy[i] != NUL
      invariant i <= len
      invariant forall j :: 0 <= j < i ==> copy[j] == ToLower(plain[j])
      invariant forall j :: i <= j < len ==> copy[j] == plain[j]
      invariant len < CopySize && copy[len] == NUL
      invariant forall j :: 0 <= j < len ==> plain[j] != NUL
      decreases len - i
    {
      copy[i] := ToLower(copy[i]);
      i := i + 1;
    }
    assert i == len;
    n := copy[..i];
    assert n == LowerString(plain);
    assert CStr(mem)[..len] == plain by {
      PrefixBeforeNul(mem, len);
    }
  }

  /** The C string of `mem` read up to k characters, when none of the first
      k is NUL and the copy stopped at k. */
  lemma PrefixBeforeNul(mem: seq<char>, k: nat)
    requires k <= |mem| && k <= CopySize - 1
    requires forall j :: 0 <= j < k ==> mem[j] != NUL
    requires k < |mem| && k < CopySize - 1 ==> mem[k] == NUL
    ensures Min(|CStr(mem)|, CopySize - 1) == k && CStr(mem)[..k] == mem[..k]
  {
  }

  /** `Special_IsSpecialCommand` */
  method IsSpecialCommand(command: CString) returns (special: bool)
    ensures special == IsSpecial(command)
  {
    if command.Null? || |command.mem| == 0 || command.mem[0] == NUL {
      return false;
    }
    var n := NormalizedCopy(command.mem);
    special := n == "help" || n == "clear" || n == "quit";
  }

  /** `Special_ProcessCommand`, without its calls to the screen. */
  method ProcessCommand(command: CString) returns (code: SpecialCode)
    ensures code == Process(command)
  {
    if command.Null? || |command.mem| == 0 || command.mem[0] == NUL {
      return NoSpecial;
    }
    var n := NormalizedCopy(command.mem);
    if n == "help" {
      code := Help;
    } else if n == "clear" {
      code := Clear;
    } else if n == "quit" {
      code := Quit;
    } else {
      code := NoSpecial;
    }
  }

  /** The two functions agree: a command is special exactly when processing
      it yields a code other than NONE. */
  lemma SpecialIffProcessed(command: CString)
    ensures IsSpecial(command) <==> Process(command) != NoSpecial
  {
  }

  /** The words are recognised in any case: a string, its upper-cased and its
      lower-cased forms are classified alike. */
  lemma CaseInsensitive(s: seq<char>)
    ensures Process(Text(s)) == Process(Text(UpperString(s)))
    ensures Process(Text(s)) == Process(Text(LowerString(s)))
  {
    var t := CStr(s);
    CStrOfCaseMapped(s);
    var k := Min(|t|, CopySize - 1);
    assert UpperString(t)[..k] == UpperString(t[..k]);
    assert LowerString(t)[..k] == LowerString(t[..k]);
    CaseMappingsAbsorb(t[..k]);
  }
}
