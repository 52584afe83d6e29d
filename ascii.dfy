/** Character classes of the C "C" locale used by the firmware and the host
    client (`toupper`, `tolower`, `isprint`, `isdigit`), and C strings as
    NUL-terminated character sequences. Characters outside 7-bit ASCII are
    neither printable nor digits, as in the "C" locale. */
module Ascii {

  const NUL: char := '\0'
  const LF: char := '\n'
  const CR: char := '\r'
  const BS: char := 8 as char
  const DEL: char := 127 as char

  predicate IsPrint(c: char) { ' ' <= c <= '~' }

  predicate IsDigit(c: char) { '0' <= c <= '9' }

  predicate IsLower(c: char) { 'a' <= c <= 'z' }

  predicate IsUpper(c: char) { 'A' <= c <= 'Z' }

  /** `toupper`: lower-case letters map to upper case, everything else is kept. */
  function ToUpper(c: char): (u: char)
    ensures !IsLower(u)
    ensures IsLower(c) ==> IsUpper(u) && u as int == c as int - 32
    ensures !IsLower(c) ==> u == c
  {
    if IsLower(c) then (c as int - 32) as char else c
  }

  /** `tolower`: upper-case letters map to lower case, everything else is kept. */
  function ToLower(c: char): (l: char)
    ensures !IsUpper(l)
    ensures IsUpper(c) ==> IsLower(l) && l as int == c as int + 32
    ensures !IsUpper(c) ==> l == c
  {
    if IsUpper(c) then (c as int + 32) as char else c
  }

  function UpperString(s: seq<char>): (r: seq<char>)
    ensures |r| == |s|
    ensures forall i :: 0 <= i < |s| ==> r[i] == ToUpper(s[i])
  {
    seq(|s|, i requires 0 <= i < |s| => ToUpper(s[i]))
  }

  function LowerString(s: seq<char>): (r: seq<char>)
    ensures |r| == |s|
    ensures forall i :: 0 <= i < |s| ==> r[i] == ToLower(s[i])
  {
    seq(|s|, i requires 0 <= i < |s| => ToLower(s[i]))
  }

  /** Case mapping is blind to the case of its input: upper-casing after
      lower-casing is upper-casing, and the other way round. */
  lemma CaseMappingsAbsorb(s: seq<char>)
    ensures UpperString(LowerString(s)) == UpperString(s)
    ensures LowerString(UpperString(s)) == LowerString(s)
    ensures UpperString(UpperString(s)) == UpperString(s)
  {
  }

  function Min(a: int, b: int): int { if a < b then a else b }

  /** The C string held in `mem`: the characters before the first NUL (or all of
      `mem` when it holds none). `strlen(mem)` is `|CStr(mem)|`. */
  function CStr(mem: seq<char>): (s: seq<char>)
    ensures |s| <= |mem| && s == mem[..|s|]
    ensures NUL !in s
    ensures |s| < |mem| ==> mem[|s|] == NUL
  {
    if mem == [] || mem[0] == NUL then [] else [mem[0]] + CStr(mem[1..])
  }

  /** A sequence without NUL is its own C string. */
  lemma CStrOfPlain(s: seq<char>)
    requires NUL !in s
    ensures CStr(s) == s
  {
  }

  /** When `mem` holds no NUL before index k, and either ends at k or holds NUL
      there, its C string is `mem[..k]`. */
  lemma {:induction false} CStrUpTo(mem: seq<char>, k: nat)
    requires k <= |mem|
    requires forall i :: 0 <= i < k ==> mem[i] != NUL
    requires k < |mem| ==> mem[k] == NUL
    ensures CStr(mem) == mem[..k]
    decreases k
  {
    if k > 0 {
      CStrUpTo(mem[1..], k - 1);
      assert mem[..k] == [mem[0]] + mem[1..][..k - 1];
    }
  }

  /** `strncmp(s, p, strlen(p)) == 0` for C strings `s` and `p`. */
  predicate HasPrefix(s: seq<char>, p: seq<char>)
  {
    |p| <= |s| && s[..|p|] == p
  }

  /** Case mapping keeps NUL where it is, so it commutes with reading the C string. */
  lemma CStrOfCaseMapped(s: seq<char>)
    ensures CStr(UpperString(s)) == UpperString(CStr(s))
    ensures CStr(LowerString(s)) == LowerString(CStr(s))
  {
    var k := |CStr(s)|;
    assert forall i :: 0 <= i < k ==> s[i] != NUL by {
      forall i | 0 <= i < k ensures s[i] != NUL {
        assert s[i] == CStr(s)[i];
      }
    }
    CStrUpTo(UpperString(s), k);
    CStrUpTo(LowerString(s), k);
    assert UpperString(s)[..k] == UpperString(s[..k]);
    assert LowerString(s)[..k] == LowerString(s[..k]);
  }

  /** The decimal digit character of a value 0..9 (what `%d` prints for it). */
  function DigitChar(n: int): (c: char)
    requires 0 <= n <= 9
    ensures IsDigit(c) && c as int - '0' as int == n
  {
    ('0' as int + n) as char
  }

  /** A pointer to a C string: NULL, or memory holding the string. */
  datatype CString = Null | Text(mem: seq<char>)
}
