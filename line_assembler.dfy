/** The line assembler of command_parser.c (`Command_Parser_ProcessChar`): a
    64-character buffer, a cursor and a "line complete" flag, fed one received
    character at a time. The class Firmware.Firmware keeps the same state in an
    array and updates it in place; `Feed` is the step it is proved to perform. */
module LineAssembler {
  import opened Ascii

  /** `COMMAND_BUFFER_SIZE` */
  const BufferSize := 64

  /** The buffer contents, `bufferIndex` and `commandComplete`. */
  datatype LineState = LineState(buf: seq<char>, cursor: nat, complete: bool)

  /** The assembler's invariant: the cursor stays below the last slot, so the
      buffer always ends in NUL; every slot from the cursor on is NUL and every
      slot before it holds a printable, non-lower-case character. */
  predicate Valid(l: LineState)
  {
    && |l.buf| == BufferSize
    && l.cursor <= BufferSize - 1
    && (forall i :: l.cursor <= i < BufferSize ==> l.buf[i] == NUL)
    && (forall i :: 0 <= i < l.cursor ==> IsPrint(l.buf[i]) && !IsLower(l.buf[i]))
  }

  /** A buffer after `memset(commandBuffer, 0, COMMAND_BUFFER_SIZE)`. */
  function Zeroed(): (z: seq<char>)
    ensures |z| == BufferSize && forall i :: 0 <= i < |z| ==> z[i] == NUL
  {
    seq(BufferSize, i => '\0')
  }

  /** `Command_Parser_Init`, and the reset after a line is consumed: buffer
      zeroed, cursor 0, flag down. */
  function Cleared(): (l: LineState)
    ensures Valid(l) && Line(l) == [] && !l.complete
  {
    LineState(Zeroed(), 0, false)
  }

  /** The assembled line: the buffer read as a C string. */
  function Line(l: LineState): seq<char>
  {
    CStr(l.buf)
  }

  /** In a valid state the line is exactly the characters before the cursor. */
  lemma LineIsPrefix(l: LineState)
    requires Valid(l)
    ensures Line(l) == l.buf[..l.cursor]
  {
    CStrUpTo(l.buf, l.cursor);
  }

  /** `Command_Parser_ProcessChar`: a character arriving after a complete line
      first clears the buffer; the character is upper-cased; LF is ignored; CR
      terminates the line in place; BS or DEL erases the last character (none at
      cursor 0); a printable character is stored while there is room and
      anything else is dropped. */
  function Feed(l: LineState, c: char): (r: LineState)
    requires Valid(l)
    ensures Valid(r)
  {
    var l0 := if l.complete then Cleared() else l;
    var u := ToUpper(c);
    if u == LF then l0
    else if u == CR then l0.(buf := l0.buf[l0.cursor := NUL], complete := true)
    else if u == BS || u == DEL then
      (if l0.cursor > 0 then l0.(cursor := l0.cursor - 1, buf := l0.buf[l0.cursor - 1 := NUL]) else l0)
    else if l0.cursor < BufferSize - 1 && IsPrint(u) then
      l0.(buf := l0.buf[l0.cursor := u], cursor := l0.cursor + 1)
    else l0
  }

  /** LF changes nothing while a line is being typed. After CR, however, the
      clearing of a completed line happens before the LF test, so an LF that
      arrives before the line is processed discards it. */
  lemma LineFeed(l: LineState)
    requires Valid(l)
    ensures !l.complete ==> Feed(l, LF) == l
    ensures l.complete ==> Feed(l, LF) == Cleared()
  {
  }

  /** CR marks the line complete; the cursor and the line are unchanged. */
  lemma CarriageReturn(l: LineState)
    requires Valid(l) && !l.complete
    ensures Feed(l, CR) == l.(complete := true)
    ensures Line(Feed(l, CR)) == Line(l)
  {
    assert l.buf[l.cursor := NUL] == l.buf;
  }

  /** BS and DEL: a no-op at cursor 0, otherwise the last character is erased. */
  lemma Backspace(l: LineState, c: char)
    requires Valid(l) && !l.complete && (c == BS || c == DEL)
    ensures l.cursor == 0 ==> Feed(l, c) == l
    ensures l.cursor > 0 ==> Feed(l, c).cursor == l.cursor - 1
    ensures l.cursor > 0 ==> Line(Feed(l, c)) == Line(l)[..l.cursor - 1]
  {
    var r := Feed(l, c);
    LineIsPrefix(l);
    LineIsPrefix(r);
    if l.cursor > 0 {
      assert r.buf[..r.cursor] == l.buf[..l.cursor - 1];
    }
  }

  /** A printable character (after upper-casing) is appended while the cursor
      is below 63 and silently dropped at 63; any other character that is not
      LF, CR, BS or DEL is dropped. */
  lemma Store(l: LineState, c: char)
    requires Valid(l) && !l.complete
    requires ToUpper(c) !in {LF, CR, BS, DEL}
    ensures IsPrint(ToUpper(c)) && l.cursor < BufferSize - 1 ==>
              Line(Feed(l, c)) == Line(l) + [ToUpper(c)] && Feed(l, c).cursor == l.cursor + 1
    ensures !IsPrint(ToUpper(c)) || l.cursor == BufferSize - 1 ==> Feed(l, c) == l
  {
    var r := Feed(l, c);
    LineIsPrefix(l);
    LineIsPrefix(r);
    if IsPrint(ToUpper(c)) && l.cursor < BufferSize - 1 {
      assert r.buf[..r.cursor] == l.buf[..l.cursor] + [ToUpper(c)];
    }
  }

  /** A character arriving after a complete line is fed to a cleared buffer. */
  lemma NewLineAfterComplete(l: LineState, c: char)
    requires Valid(l) && l.complete
    ensures Feed(l, c) == Feed(Cleared(), c)
  {
  }

  /** Feeding a whole sequence of characters, first to last. */
  function FeedAll(l: LineState, s: seq<char>): (r: LineState)
    requires Valid(l)
    ensures Valid(r)
    decreases |s|
  {
    if s == [] then l else Feed(FeedAll(l, s[..|s| - 1]), s[|s| - 1])
  }

  /** Characters that are printable once upper-cased (so none of LF, CR, BS, DEL). */
  predicate AllPrintable(s: seq<char>)
  {
    forall i :: 0 <= i < |s| ==> IsPrint(ToUpper(s[i]))
  }

  /** Typing printable characters into a cleared buffer yields their
      upper-cased form, truncated to the first 63 characters: a line that is
      too long is cut, never overrun. */
  lemma {:induction false} TypedLine(s: seq<char>)
    requires AllPrintable(s)
    ensures !FeedAll(Cleared(), s).complete
    ensures Line(FeedAll(Cleared(), s)) == UpperString(s)[..Min(|s|, BufferSize - 1)]
    decreases |s|
  {
    if s != [] {
      var init := s[..|s| - 1];
      var c := s[|s| - 1];
      assert s == init + [c];
      assert AllPrintable(init) by {
        forall i | 0 <= i < |init| ensures IsPrint(ToUpper(init[i])) {
          assert init[i] == s[i];
        }
      }
      TypedLine(init);
      var l := FeedAll(Cleared(), init);
      assert FeedAll(Cleared(), s) == Feed(l, c);
      var typed := UpperString(init);
      assert UpperString(s) == typed + [ToUpper(c)];
      TypedStep(l, c, typed, |init|);
    }
  }

  /** One more printable character typed after a line that holds the first
      Min(n, 63) upper-cased characters typed so far. */
  lemma TypedStep(l: LineState, c: char, typed: seq<char>, n: nat)
    requires Valid(l) && !l.complete && IsPrint(ToUpper(c)) && |typed| == n
    requires Line(l) == typed[..Min(n, BufferSize - 1)]
    ensures !Feed(l, c).complete
    ensures Line(Feed(l, c)) == (typed + [ToUpper(c)])[..Min(n + 1, BufferSize - 1)]
  {
    assert ToUpper(c) !in {LF, CR, BS, DEL};
    Store(l, c);
    LineIsPrefix(l);
    if n < BufferSize - 1 {
      assert (typed + [ToUpper(c)])[..n + 1] == typed[..n] + [ToUpper(c)];
    } else {
      assert (typed + [ToUpper(c)])[..BufferSize - 1] == typed[..BufferSize - 1];
    }
  }

  /** Typing a printable line and CR yields a complete line holding the
      upper-cased text, cut to 63 characters. */
  lemma TypedLineThenReturn(s: seq<char>)
    requires AllPrintable(s)
    ensures FeedAll(Cleared(), s + [CR]).complete
    ensures Line(FeedAll(Cleared(), s + [CR])) == UpperString(s)[..Min(|s|, BufferSize - 1)]
  {
    assert (s + [CR])[..|s|] == s;
    TypedLine(s);
    CarriageReturn(FeedAll(Cleared(), s));
  }

  /** "LED1 ON" followed by CR is assembled into exactly "LED1 ON". */
  lemma ExampleLedLine(typed: seq<char>)
    requires typed == "LED1 ON"
    ensures FeedAll(Cleared(), typed + [CR]).complete
    ensures Line(FeedAll(Cleared(), typed + [CR])) == typed
  {
    assert AllPrintable(typed);
    TypedLineThenReturn(typed);
    assert UpperString(typed) == typed;
  }

  /** "led1", one backspace and CR give the line "LED". */
  lemma ExampleBackspace(typed: seq<char>)
    requires typed == "led1"
    ensures Line(Feed(Feed(FeedAll(Cleared(), typed), BS), CR)) == "LED"
  {
    assert AllPrintable(typed);
    TypedLine(typed);
    assert UpperString(typed) == "LED1";
    var l := FeedAll(Cleared(), typed);
    Backspace(l, BS);
    CarriageReturn(Feed(l, BS));
  }
}
