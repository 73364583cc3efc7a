/** The event log's in-memory ring: the newest lines, bounded in number and in bytes. */
module LogRing {
  import opened Base

  const MAX_LINES := 3000
  const MAX_BYTES := 2_000_000

  type Line = seq<byte>

  function Bytes(lines: seq<Line>): nat {
    if lines == [] then 0 else |lines[0]| + Bytes(lines[1..])
  }

  predicate Fits(lines: seq<Line>) {
    lines == [] || (|lines| <= MAX_LINES && Bytes(lines) <= MAX_BYTES)
  }

  // The longest tail that fits.
  function Newest(lines: seq<Line>): seq<Line> {
    if Fits(lines) then lines else Newest(lines[1..])
  }

  class EventLog {
    var ring: seq<Line>
    var ringBytes: int
    var sequence: nat

    ghost predicate Valid()
      reads this
    {
      ringBytes == Bytes(ring) && Fits(ring)
    }

    constructor ()
      ensures Valid() && ring == [] && sequence == 0
    {
      ring, ringBytes, sequence := [], 0, 0;
    }

    method Record(line: Line)
      requires Valid()
      modifies this
      ensures Valid()
      ensures ring == Newest(old(ring) + [line]) && sequence == old(sequence) + 1
    {
      sequence := sequence + 1;
      BytesSnoc(ring, line);
      ring := ring + [line];
      ringBytes := ringBytes + |line|;
      ghost var all := ring;
      while ring != [] && (|ring| > MAX_LINES || ringBytes > MAX_BYTES)
        invariant ringBytes == Bytes(ring) && sequence == old(sequence) + 1
        invariant Newest(ring) == Newest(all)
        decreases |ring|
      {
        ringBytes := ringBytes - |ring[0]|;
        ring := ring[1..];
      }
      assert Fits(ring);
    }
  }

  lemma {:induction false} BytesSnoc(lines: seq<Line>, line: Line)
    ensures Bytes(lines + [line]) == Bytes(lines) + |line|
  {
    if lines == [] {
      assert lines + [line] == [line];
    } else {
      assert (lines + [line])[1..] == lines[1..] + [line];
      BytesSnoc(lines[1..], line);
    }
  }

  // Dropping more lines never costs more.
  lemma {:induction false} TailIsLighter(lines: seq<Line>, n: nat)
    requires n <= |lines|
    ensures Bytes(lines[n..]) <= Bytes(lines)
  {
    if n > 0 {
      TailIsLighter(lines[1..], n - 1);
      assert lines[1..][n - 1..] == lines[n..];
    } else {
      assert lines[0..] == lines;
    }
  }

  lemma {:induction false} NewestIsLongest(lines: seq<Line>) returns (n: nat)
    ensures n <= |lines| && Newest(lines) == lines[n..] && Fits(lines[n..])
    ensures forall k :: 0 <= k < n ==> !Fits(lines[k..])
  {
    if Fits(lines) {
      n := 0;
      assert lines[0..] == lines;
    } else {
      var m := NewestIsLongest(lines[1..]);
      n := m + 1;
      assert lines[1..][m..] == lines[n..];
      forall k | 0 <= k < n
        ensures !Fits(lines[k..])
      {
        assert k > 0 ==> lines[1..][k - 1..] == lines[k..];
        assert lines[0..] == lines;
      }
    }
  }

  // Every line of a run, recorded one after the other.
  function Ring(lines: seq<Line>): seq<Line> {
    if lines == [] then [] else Newest(Ring(lines[..|lines| - 1]) + [lines[|lines| - 1]])
  }

  // A tail that fits with one more line fitted without it.
  lemma FitsWithout(lines: seq<Line>, line: Line)
    requires Fits(lines + [line])
    ensures Fits(lines)
  {
    BytesSnoc(lines, line);
  }

  /**
   * In every run the ring is the longest tail of all lines recorded so far that stays within
   * both limits: a line is dropped only when keeping it and everything newer would not fit.
   */
  lemma {:induction false} RingIsLongestTail(lines: seq<Line>) returns (n: nat)
    ensures n <= |lines| && Ring(lines) == lines[n..]
    ensures n < |lines| ==> |lines| - n <= 3000 && Bytes(lines[n..]) <= 2_000_000
    ensures forall k :: 0 <= k < n ==> |lines| - k > 3000 || Bytes(lines[k..]) > 2_000_000
  {
    hide Ring;
    n := RingFits(lines);
  }

  lemma {:induction false} RingFits(lines: seq<Line>) returns (n: nat)
    ensures n <= |lines| && Ring(lines) == lines[n..] && Fits(lines[n..])
    ensures forall k :: 0 <= k < n ==> !Fits(lines[k..])
  {
    if lines == [] {
      n := 0;
      assert lines[n..] == [];
    } else {
      hide Ring, Newest, Fits;
      var before, last := lines[..|lines| - 1], lines[|lines| - 1];
      assert lines == before + [last];
      var m := RingFits(before);
      var d := NewestIsLongest(before[m..] + [last]);
      n := m + d;
      assert before[m..] + [last] == lines[m..];
      assert lines[m..][d..] == lines[n..];
      forall k | 0 <= k < n
        ensures !Fits(lines[k..])
      {
        if k < m {
          OneLineMore(before, last, k);
        } else {
          assert lines[m..][k - m..] == lines[k..];
        }
      }
      RingSnoc(before, last);
    }
  }

  lemma OneLineMore(before: seq<Line>, last: Line, k: nat)
    requires k <= |before| && !Fits(before[k..])
    ensures !Fits((before + [last])[k..])
  {
    hide Fits;
    assert (before + [last])[k..] == before[k..] + [last];
    if Fits(before[k..] + [last]) {
      FitsWithout(before[k..], last);
    }
  }

  lemma {:induction false} RingSnoc(before: seq<Line>, last: Line)
    ensures Ring(before + [last]) == Newest(Ring(before) + [last])
  {
    assert (before + [last])[..|before|] == before;
  }

  /** So the line just recorded is kept unless it alone is too long, which empties the ring. */
  lemma NewestLineIsKept(lines: seq<Line>)
    requires lines != []
    ensures
      var last := lines[|lines| - 1];
      if |last| <= 2_000_000 then Ring(lines) != [] && Ring(lines)[|Ring(lines)| - 1] == last else Ring(lines) == []
  {
    var n := RingFits(lines);
    var k := |lines| - 1;
    assert lines[k..] == [lines[k]] && Bytes([lines[k]]) == |lines[k]|;
    if n < |lines| {
      TailIsLighter(lines[n..], k - n);
      assert lines[n..][k - n..] == lines[k..];
    }
  }
}
