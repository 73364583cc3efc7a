/** Looks for a marker in a file read in chunks, keeping the end of each chunk for the next. */
module MarkerSearch {
  import opened Base

  predicate OccursAt(s: seq<byte>, needle: seq<byte>, i: nat) {
    i + |needle| <= |s| && s[i..i + |needle|] == needle
  }

  predicate Occurs(s: seq<byte>, needle: seq<byte>) {
    exists i :: 0 <= i <= |s| && OccursAt(s, needle, i)
  }

  // A read returns a full chunk except at the end of the file.
  function Read(file: seq<byte>, pos: nat, chunk: nat): (block: seq<byte>)
    requires pos <= |file|
    ensures pos + |block| <= |file| && block == file[pos..pos + |block|]
  {
    if pos + chunk <= |file| then file[pos..pos + chunk] else file[pos..]
  }

  // The last `keep` bytes, or all of them if there are fewer.
  function Tail(s: seq<byte>, keep: nat): seq<byte> {
    if keep <= |s| then s[|s| - keep..] else s
  }

  function Kept(block: seq<byte>, needle: seq<byte>): seq<byte> {
    if |needle| > 1 then Tail(block, |needle| - 1) else []
  }

  function Scan(file: seq<byte>, needle: seq<byte>, chunk: nat, pos: nat, prev: seq<byte>): bool
    requires pos <= |file|
    decreases |file| - pos
  {
    var block := Read(file, pos, chunk);
    if block == [] then false
    else if Occurs(prev + block, needle) then true
    else Scan(file, needle, chunk, pos + |block|, Kept(block, needle))
  }

  method FileContainsMarker(file: seq<byte>, needle: seq<byte>, chunk: nat) returns (found: bool)
    ensures found == Scan(file, needle, chunk, 0, [])
  {
    var pos, prev := 0, [];
    while true
      invariant pos <= |file|
      invariant Scan(file, needle, chunk, pos, prev) == Scan(file, needle, chunk, 0, [])
      decreases |file| - pos
    {
      var block := Read(file, pos, chunk);
      if block == [] {
        return false;
      }
      if Occurs(prev + block, needle) {
        return true;
      }
      pos, prev := pos + |block|, Kept(block, needle);
    }
  }

  // ----- it never claims too much -----

  lemma SliceOfSlice(s: seq<byte>, lo: nat, hi: nat, i: nat, n: nat)
    requires lo <= hi <= |s| && i + n <= hi - lo
    ensures s[lo..hi][i..i + n] == s[lo + i..lo + i + n]
  {
    var a, b := s[lo..hi][i..i + n], s[lo + i..lo + i + n];
    assert |a| == |b| && forall k :: 0 <= k < n ==> a[k] == b[k];
  }

  lemma OccursInside(s: seq<byte>, needle: seq<byte>, lo: nat, hi: nat)
    requires lo <= hi <= |s| && Occurs(s[lo..hi], needle)
    ensures Occurs(s, needle)
  {
    var i :| 0 <= i <= |s[lo..hi]| && OccursAt(s[lo..hi], needle, i);
    SliceOfSlice(s, lo, hi, i, |needle|);
    assert OccursAt(s, needle, lo + i);
  }

  // The bytes kept are those just before the position.
  ghost predicate Behind(file: seq<byte>, pos: nat, prev: seq<byte>) {
    |prev| <= pos <= |file| && prev == file[pos - |prev|..pos]
  }

  lemma KeptIsBehind(file: seq<byte>, needle: seq<byte>, chunk: nat, pos: nat)
    requires pos <= |file|
    ensures
      var block := Read(file, pos, chunk);
      Behind(file, pos + |block|, Kept(block, needle))
  {
  }

  lemma {:induction false} ScanIsSound(file: seq<byte>, needle: seq<byte>, chunk: nat, pos: nat, prev: seq<byte>)
    requires Behind(file, pos, prev) && Scan(file, needle, chunk, pos, prev)
    ensures Occurs(file, needle)
    decreases |file| - pos
  {
    hide Occurs, Kept;
    var block := Read(file, pos, chunk);
    if Occurs(prev + block, needle) {
      assert prev + block == file[pos - |prev|..pos + |block|];
      OccursInside(file, needle, pos - |prev|, pos + |block|);
    } else {
      KeptIsBehind(file, needle, chunk, pos);
      ScanIsSound(file, needle, chunk, pos + |block|, Kept(block, needle));
    }
  }

  // ----- it misses nothing when the chunks are long enough -----

  predicate LongEnough(needle: seq<byte>, chunk: nat) {
    chunk >= 1 && chunk >= |needle| - 1
  }

  // An occurrence that ends in the next block lies in what is kept and that block.
  lemma WindowHolds(file: seq<byte>, needle: seq<byte>, pos: nat, prev: seq<byte>, end: nat, i: nat)
    requires needle != [] && Behind(file, pos, prev) && pos <= end <= |file|
    requires |prev| >= |needle| - 1 || |prev| == pos
    requires OccursAt(file, needle, i) && pos < i + |needle| <= end
    ensures Occurs(prev + file[pos..end], needle)
  {
    var window, lo := prev + file[pos..end], pos - |prev|;
    assert window == file[lo..end];
    assert lo <= i;
    SliceOfSlice(file, lo, end, i - lo, |needle|);
    assert OccursAt(window, needle, i - lo);
  }

  lemma {:induction false} ScanIsComplete(
    file: seq<byte>, needle: seq<byte>, chunk: nat, pos: nat, prev: seq<byte>, i: nat)
    requires needle != [] && LongEnough(needle, chunk) && Behind(file, pos, prev)
    requires |prev| >= |needle| - 1 || |prev| == pos
    requires OccursAt(file, needle, i) && pos < i + |needle|
    ensures Scan(file, needle, chunk, pos, prev)
    decreases |file| - pos
  {
    hide Occurs, OccursAt;
    EndsInFile(file, needle, i);
    var block := Read(file, pos, chunk);
    var end := pos + |block|;
    if i + |needle| <= end {
      WindowHolds(file, needle, pos, prev, end, i);
    } else if !Occurs(prev + block, needle) {
      KeptIsBehind(file, needle, chunk, pos);
      ScanIsComplete(file, needle, chunk, end, Kept(block, needle), i);
    }
  }

  lemma EndsInFile(file: seq<byte>, needle: seq<byte>, i: nat)
    requires OccursAt(file, needle, i)
    ensures i + |needle| <= |file|
  {
  }

  // ----- and it can miss one when they are not -----

  function Filled(b: byte, n: nat): seq<byte> {
    seq(n, _ => b)
  }

  // The marker behind just enough other bytes to straddle three chunks.
  function Straddling(needle: seq<byte>, chunk: nat, filler: byte): seq<byte> {
    Filled(filler, if chunk > 0 then chunk - 1 else 0) + needle
  }

  lemma OnlyThere(needle: seq<byte>, chunk: nat, filler: byte, i: nat)
    requires needle != [] && filler != needle[0]
    requires OccursAt(Straddling(needle, chunk, filler), needle, i)
    ensures i == |Straddling(needle, chunk, filler)| - |needle|
  {
    var file := Straddling(needle, chunk, filler);
    assert file[i] == file[i..i + |needle|][0];
  }

  lemma NotInWindow(needle: seq<byte>, chunk: nat, filler: byte, lo: nat, hi: nat)
    requires needle != [] && filler != needle[0]
    requires lo <= hi <= |Straddling(needle, chunk, filler)|
    requires lo > |Straddling(needle, chunk, filler)| - |needle| || hi < |Straddling(needle, chunk, filler)|
    ensures !Occurs(Straddling(needle, chunk, filler)[lo..hi], needle)
  {
    var file := Straddling(needle, chunk, filler);
    if Occurs(file[lo..hi], needle) {
      var i :| 0 <= i <= |file[lo..hi]| && OccursAt(file[lo..hi], needle, i);
      SliceOfSlice(file, lo, hi, i, |needle|);
      OnlyThere(needle, chunk, filler, lo + i);
    }
  }

  // Every window the search looks at misses the marker's first or its last byte.
  lemma {:induction false} ScanMisses(needle: seq<byte>, chunk: nat, filler: byte, pos: nat, prev: seq<byte>)
    requires needle != [] && filler != needle[0] && !LongEnough(needle, chunk)
    requires Behind(Straddling(needle, chunk, filler), pos, prev) && |prev| <= chunk
    requires pos < 2 * chunk ==> pos == 0 || pos == chunk
    ensures !Scan(Straddling(needle, chunk, filler), needle, chunk, pos, prev)
    decreases |Straddling(needle, chunk, filler)| - pos
  {
    hide Occurs;
    var file := Straddling(needle, chunk, filler);
    var block := Read(file, pos, chunk);
    if block != [] {
      var lo, hi := pos - |prev|, pos + |block|;
      assert prev + block == file[lo..hi];
      NotInWindow(needle, chunk, filler, lo, hi);
      KeptIsBehind(file, needle, chunk, pos);
      ScanMisses(needle, chunk, filler, hi, Kept(block, needle));
    }
  }

  /**
   * The search is right about every file exactly when a chunk is at least one byte and at least
   * the marker's length less one. A wrong answer is always a missed marker, never a false one.
   */
  lemma {:induction false} SearchIsExactIff(needle: seq<byte>, chunk: nat)
    requires needle != []
    ensures (forall file :: Scan(file, needle, chunk, 0, []) == Occurs(file, needle)) <==> LongEnough(needle, chunk)
    ensures forall file :: Scan(file, needle, chunk, 0, []) ==> Occurs(file, needle)
  {
    hide Scan;
    forall file
      ensures Scan(file, needle, chunk, 0, []) ==> Occurs(file, needle)
      ensures LongEnough(needle, chunk) && Occurs(file, needle) ==> Scan(file, needle, chunk, 0, [])
    {
      if Scan(file, needle, chunk, 0, []) {
        ScanIsSound(file, needle, chunk, 0, []);
      }
      if LongEnough(needle, chunk) && Occurs(file, needle) {
        var i :| 0 <= i <= |file| && OccursAt(file, needle, i);
        ScanIsComplete(file, needle, chunk, 0, [], i);
      }
    }
    if !LongEnough(needle, chunk) {
      var filler: byte := if needle[0] == 0 then 1 else 0;
      var file := Straddling(needle, chunk, filler);
      ScanMisses(needle, chunk, filler, 0, []);
      assert OccursAt(file, needle, |file| - |needle|);
      assert Occurs(file, needle) && !Scan(file, needle, chunk, 0, []);
    }
  }

  /** An empty marker is found in every file but the empty one. */
  lemma {:induction false} EmptyMarker(file: seq<byte>, chunk: nat)
    ensures Scan(file, [], chunk, 0, []) <==> file != [] && chunk > 0
  {
    var block := Read(file, 0, chunk);
    assert OccursAt([] + block, [], 0);
  }
}
