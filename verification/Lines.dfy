/**
 * The newline framing of control messages. The receiver's buffer outlives the call, so neither
 * the cutting of the stream nor a silence in it can change or lose a line. Turning a line's
 * bytes into a message (UTF-8, JSON) is not part of this model.
 */
module Lines {
  import opened Base
  import opened Sockets

  const NEWLINE: byte := 10

  predicate IsSpace(b: byte) {
    b == 32 || 9 <= b <= 13
  }

  function StripLeft(s: seq<byte>): seq<byte> {
    if s != [] && IsSpace(s[0]) then StripLeft(s[1..]) else s
  }

  function StripRight(s: seq<byte>): seq<byte> {
    if s != [] && IsSpace(s[|s| - 1]) then StripRight(s[..|s| - 1]) else s
  }

  function Strip(s: seq<byte>): seq<byte> {
    StripRight(StripLeft(s))
  }

  // Where the first newline is, or the length when there is none.
  function FindNewline(s: seq<byte>): (k: nat)
    ensures k <= |s| && NEWLINE !in s[..k] && (k < |s| ==> s[k] == NEWLINE)
  {
    if s == [] || s[0] == NEWLINE then 0
    else
      var k := 1 + FindNewline(s[1..]);
      assert s[..k] == [s[0]] + s[1..][..k - 1];
      k
  }

  // The first line that is not blank, and the bytes behind it.
  function NextLine(s: seq<byte>): (r: (Option<seq<byte>>, seq<byte>))
    ensures |r.1| <= |s| && (r.0.Some? ==> |r.1| < |s|)
    decreases |s|
  {
    var k := FindNewline(s);
    if k == |s| then (None, s)
    else if Strip(s[..k]) == [] then NextLine(s[k + 1..])
    else (Some(Strip(s[..k])), s[k + 1..])
  }

  /** All non-blank lines in a stream, and what is left of it. */
  function AllLines(s: seq<byte>): (seq<seq<byte>>, seq<byte>)
    decreases |s|
  {
    var (line, rest) := NextLine(s);
    if line.None? then ([], rest)
    else
      var (more, left) := AllLines(rest);
      ([line.value] + more, left)
  }

  class LineReader {
    const sock: Socket
    var buf: seq<byte>

    ghost predicate Valid()
      reads this, sock
    {
      sock.Valid()
    }

    // What the reader still has to hand out: its buffer and everything yet to arrive.
    ghost function Pending(): seq<byte>
      reads this, sock
    {
      buf + Flat(sock.arrivals)
    }

    constructor (sock: Socket)
      requires sock.Valid()
      ensures Valid() && this.sock == sock && buf == []
    {
      this.sock := sock;
      buf := [];
    }

    /**
     * Returns the next non-blank line, or nothing on silence or at the end; then only blank
     * lines have been dropped and every later call still sees the same lines.
     */
    method RecvLine() returns (r: Option<seq<byte>>)
      requires Valid()
      modifies this, sock
      ensures Valid()
      ensures r.Some? ==> NextLine(old(Pending())) == (r, Pending())
      ensures r.None? ==> NextLine(Pending()) == NextLine(old(Pending()))
      ensures r.None? && Silence !in old(sock.arrivals) ==> NextLine(old(Pending())) == (None, Pending())
      ensures r.None? ==> FindNewline(buf) == |buf|
      ensures |sock.arrivals| <= |old(sock.arrivals)|
      ensures r.None? ==> sock.arrivals == [] || |sock.arrivals| < |old(sock.arrivals)|
    {
      ghost var all := Pending();
      while true
        invariant Valid() && |sock.arrivals| <= |old(sock.arrivals)|
        invariant NextLine(Pending()) == NextLine(all)
        invariant Silence !in old(sock.arrivals) ==> Silence !in sock.arrivals
        decreases |Pending()|, |Flat(sock.arrivals)|
      {
        var k := FindNewline(buf);
        if k < |buf| {
          var raw := Strip(buf[..k]);
          LineInFront(buf, Flat(sock.arrivals), k);
          buf := buf[k + 1..];
          if raw != [] {
            return Some(raw);
          }
        } else {
          ghost var before := sock.arrivals;
          var chunk := sock.Recv(4096);
          if chunk == [] {
            assert chunk + Flat(sock.arrivals) == Flat(sock.arrivals);
            if Silence !in before {
              UnbrokenIsPrompt(before);
            }
            return None;
          }
          assert buf + (chunk + Flat(sock.arrivals)) == (buf + chunk) + Flat(sock.arrivals);
          buf := buf + chunk;
        }
      }
    }

    /**
     * Calls RecvLine again and again until the stream has ended: however it was cut, and however
     * often it fell silent in between, the lines and the remainder are those of its bytes.
     */
    method RecvAllLines() returns (lines: seq<seq<byte>>)
      requires Valid()
      modifies this, sock
      ensures Valid() && sock.arrivals == []
      ensures (lines, Pending()) == AllLines(old(Pending()))
    {
      hide NextLine, AllLines, Flat;
      ghost var all := Pending();
      lines := [];
      assert lines + AllLines(all).0 == AllLines(all).0;
      while true
        invariant Valid()
        invariant AllLines(all) == (lines + AllLines(Pending()).0, AllLines(Pending()).1)
        decreases |sock.arrivals|, |Pending()|
      {
        ghost var before := Pending();
        var line := RecvLine();
        AllLinesStep(before);
        AllLinesStep(Pending());
        if line.Some? {
          assert lines + ([line.value] + AllLines(Pending()).0) == (lines + [line.value]) + AllLines(Pending()).0;
          lines := lines + [line.value];
        } else if sock.arrivals == [] {
          NothingPending();
          assert lines + [] == lines;
          return;
        }
      }
    }

    // With the stream ended and no newline in the buffer, the buffer is what is left.
    lemma NothingPending()
      requires sock.arrivals == [] && FindNewline(buf) == |buf|
      ensures NextLine(Pending()) == (None, Pending()) && AllLines(Pending()) == ([], Pending())
    {
      assert Pending() == buf;
    }
  }

  lemma {:induction false} LineInFront(buf: seq<byte>, more: seq<byte>, k: nat)
    requires k == FindNewline(buf) < |buf|
    ensures
      NextLine(buf + more)
      == if Strip(buf[..k]) == [] then NextLine(buf[k + 1..] + more)
         else (Some(Strip(buf[..k])), buf[k + 1..] + more)
  {
    hide Strip;
    FoundInFront(buf, more);
    assert (buf + more)[..k] == buf[..k] && (buf + more)[k + 1..] == buf[k + 1..] + more;
  }

  lemma {:induction false} FoundInFront(buf: seq<byte>, more: seq<byte>)
    requires FindNewline(buf) < |buf|
    ensures FindNewline(buf + more) == FindNewline(buf)
  {
    var k := FindNewline(buf);
    assert (buf + more)[..k] == buf[..k];
    FirstNewlineIs(buf + more, k);
  }

  lemma {:induction false} FirstNewlineIs(s: seq<byte>, k: nat)
    requires k < |s| && s[k] == NEWLINE && NEWLINE !in s[..k]
    ensures FindNewline(s) == k
  {
    if k > 0 {
      assert s[0] == s[..k][0] && s[1..][..k - 1] == s[..k][1..];
      FirstNewlineIs(s[1..], k - 1);
    }
  }

  /**
   * Reading may stop anywhere in a stream and resume: the lines found in its first part, then
   * those found in what was left with the second part behind it, are the lines of the whole.
   */
  lemma {:induction false} LinesResume(a: seq<byte>, b: seq<byte>)
    ensures
      var (first, left) := AllLines(a);
      AllLines(a + b) == (first + AllLines(left + b).0, AllLines(left + b).1)
    decreases |a|
  {
    hide Strip, FindNewline;
    var (line, rest) := NextLine(a);
    NextLineResumes(a, b);
    if line.Some? {
      LinesResume(rest, b);
      var (more, left) := AllLines(rest);
      assert [line.value] + (more + AllLines(left + b).0) == ([line.value] + more) + AllLines(left + b).0;
    } else {
      AllLinesStep(a + b);
      AllLinesStep(rest + b);
      assert [] + AllLines(rest + b).0 == AllLines(rest + b).0;
    }
  }

  lemma {:induction false} AllLinesStep(s: seq<byte>)
    ensures AllLines(s) == match NextLine(s)
                           case (None, rest) => ([], rest)
                           case (Some(l), rest) => ([l] + AllLines(rest).0, AllLines(rest).1)
  {
  }

  lemma {:induction false} NextLineResumes(a: seq<byte>, b: seq<byte>)
    ensures
      var (line, rest) := NextLine(a);
      NextLine(a + b) == if line.Some? then (line, rest + b) else NextLine(rest + b)
    decreases |a|
  {
    hide Strip;
    var k := FindNewline(a);
    if k < |a| {
      LineInFront(a, b, k);
      if Strip(a[..k]) == [] {
        NextLineResumes(a[k + 1..], b);
      }
    }
  }

  // What the sender puts on the wire for each message's text.
  function EncodeLines(texts: seq<seq<byte>>): seq<byte> {
    if texts == [] then [] else texts[0] + [NEWLINE] + EncodeLines(texts[1..])
  }

  // Compact JSON objects: no newline inside, no white space at either end.
  predicate IsLine(text: seq<byte>) {
    text != [] && NEWLINE !in text && !IsSpace(text[0]) && !IsSpace(text[|text| - 1])
  }

  /** Whatever was sent as lines is received as those lines, in order, before anything sent later. */
  lemma {:induction false} LinesRoundTrip(texts: seq<seq<byte>>, rest: seq<byte>)
    requires forall t :: t in texts ==> IsLine(t)
    ensures AllLines(EncodeLines(texts) + rest) == (texts + AllLines(rest).0, AllLines(rest).1)
  {
    hide NextLine, AllLines;
    if texts == [] {
      assert EncodeLines(texts) + rest == rest && texts + AllLines(rest).0 == AllLines(rest).0;
    } else {
      var t, tail := texts[0], EncodeLines(texts[1..]) + rest;
      assert t in texts && texts == [t] + texts[1..];
      LinesRoundTrip(texts[1..], rest);
      OneLine(t, tail);
      AllLinesStep(t + [NEWLINE] + tail);
      assert EncodeLines(texts) + rest == t + [NEWLINE] + tail;
      assert [t] + (texts[1..] + AllLines(rest).0) == texts + AllLines(rest).0;
    }
  }

  lemma {:induction false} OneLine(t: seq<byte>, tail: seq<byte>)
    requires IsLine(t)
    ensures NextLine(t + [NEWLINE] + tail) == (Some(t), tail)
  {
    var s, k := t + [NEWLINE], |t|;
    assert s[..k] == t;
    FirstNewlineIs(s, k);
    assert Strip(t) == t;
    LineInFront(s, tail, k);
    assert s[k + 1..] + tail == tail;
  }

  // ----- lines of any text -----

  // Space, tab, line feed, vertical tab, form feed and carriage return.
  predicate White(b: byte) {
    b in {32, 9, 10, 11, 12, 13}
  }

  ghost predicate Blank(s: seq<byte>) {
    forall k :: 0 <= k < |s| ==> White(s[k])
  }

  lemma WhiteIs(b: byte)
    ensures IsSpace(b) <==> White(b)
  {
  }

  lemma {:induction false} StripLeftIs(s: seq<byte>) returns (n: nat)
    ensures n <= |s| && Blank(s[..n]) && StripLeft(s) == s[n..]
    ensures n < |s| ==> !White(s[n])
  {
    hide IsSpace, White;
    n := 0;
    if s != [] {
      WhiteIs(s[0]);
      if IsSpace(s[0]) {
        var m := StripLeftIs(s[1..]);
        n := m + 1;
        assert s[..n] == [s[0]] + s[1..][..m];
        assert s[1..][m..] == s[n..];
      }
    }
  }

  lemma {:induction false} StripRightIs(s: seq<byte>) returns (n: nat)
    ensures n <= |s| && Blank(s[n..]) && StripRight(s) == s[..n]
    ensures n > 0 ==> !White(s[n - 1])
  {
    hide IsSpace, White;
    n := |s|;
    if s != [] {
      var front := s[..|s| - 1];
      WhiteIs(s[|s| - 1]);
      if IsSpace(s[|s| - 1]) {
        n := StripRightIs(front);
        assert s[n..] == front[n..] + [s[|s| - 1]];
        assert front[..n] == s[..n];
      }
    }
  }

  /**
   * Stripping takes off all white space at both ends, of the six kinds, and nothing else: what is
   * left is one piece of the text that, unless it is empty, neither begins nor ends with any.
   */
  lemma {:induction false} StripIs(s: seq<byte>) returns (from: nat, to: nat)
    ensures from <= to <= |s| && Strip(s) == s[from..to] && Blank(s[..from]) && Blank(s[to..])
    ensures from < to ==> !White(s[from]) && !White(s[to - 1])
  {
    hide White, Blank, StripLeft, StripRight;
    from := StripLeftIs(s);
    var n := StripRightIs(s[from..]);
    to := from + n;
    assert s[from..][n..] == s[to..] && s[from..][..n] == s[from..to];
  }

  // The texts that are not blank, stripped.
  function Trimmed(texts: seq<seq<byte>>): seq<seq<byte>> {
    if texts == [] then []
    else (if Strip(texts[0]) == [] then [] else [Strip(texts[0])]) + Trimmed(texts[1..])
  }

  lemma {:induction false} OneText(t: seq<byte>, tail: seq<byte>)
    requires NEWLINE !in t
    ensures NextLine(t + [NEWLINE] + tail) == if Strip(t) == [] then NextLine(tail) else (Some(Strip(t)), tail)
  {
    hide Strip;
    var s, k := t + [NEWLINE], |t|;
    assert s[..k] == t;
    FirstNewlineIs(s, k);
    LineInFront(s, tail, k);
    assert s[k + 1..] + tail == tail;
  }

  /**
   * Of any byte string, which is some texts each ended by a newline and a rest without one, reading
   * yields exactly the texts that are not blank, stripped and in order, and leaves the rest.
   */
  lemma {:induction false} AnyTextIsRead(texts: seq<seq<byte>>, rest: seq<byte>)
    requires (forall t :: t in texts ==> NEWLINE !in t) && NEWLINE !in rest
    ensures AllLines(EncodeLines(texts) + rest) == (Trimmed(texts), rest)
  {
    hide Strip, AllLines, NextLine;
    if texts == [] {
      assert EncodeLines(texts) + rest == rest;
      NoNewline(rest);
    } else {
      var t, tail := texts[0], EncodeLines(texts[1..]) + rest;
      assert t in texts;
      AnyTextIsRead(texts[1..], rest);
      OneText(t, tail);
      AllLinesStep(t + [NEWLINE] + tail);
      AllLinesStep(tail);
      assert EncodeLines(texts) + rest == t + [NEWLINE] + tail;
      assert [] + Trimmed(texts[1..]) == Trimmed(texts[1..]);
    }
  }

  lemma {:induction false} NoNewline(s: seq<byte>)
    requires NEWLINE !in s
    ensures AllLines(s) == ([], s)
  {
    hide Strip;
    var k := FindNewline(s);
    assert k == |s|;
  }
}
