/** Replaces whatever looks like a secret in a log line, over the line's UTF-8 bytes. */
module Scrub {
  import opened Base

  const DOT: byte := 46

  // "sc1.", "[redacted pairing code]" and "[redacted]".
  const CODE_PREFIX: seq<byte> := [115, 99, 49, 46]
  const PAIRING_MARK: seq<byte> :=
    [91, 114, 101, 100, 97, 99, 116, 101, 100, 32, 112, 97, 105, 114, 105, 110, 103, 32, 99, 111, 100, 101, 93]
  const TOKEN_MARK: seq<byte> := [91, 114, 101, 100, 97, 99, 116, 101, 100, 93]

  predicate IsHex(b: byte) {
    48 <= b <= 57 || 65 <= b <= 70 || 97 <= b <= 102
  }

  predicate IsCode(b: byte) {
    48 <= b <= 57 || 65 <= b <= 90 || 97 <= b <= 122 || b == 45 || b == 95 || b == 61
  }

  predicate Spells(s: seq<byte>, text: string) {
    |s| == |text| && forall k :: 0 <= k < |s| ==> (s[k] as int) as char == text[k]
  }

  /** The two alphabets, and what is looked for and written instead, character by character. */
  lemma AlphabetsAre(b: byte)
    ensures
      var c := (b as int) as char;
      && (IsHex(b) <==> '0' <= c <= '9' || 'a' <= c <= 'f' || 'A' <= c <= 'F')
      && (IsCode(b) <==> '0' <= c <= '9' || 'a' <= c <= 'z' || 'A' <= c <= 'Z' || c in {'-', '_', '='})
    ensures Spells(CODE_PREFIX, "sc1.") && Spells(TOKEN_MARK, "[redacted]")
    ensures Spells(PAIRING_MARK, "[redacted pairing code]")
  {
  }

  // How many bytes a run at the front of s has.
  function HexLen(s: seq<byte>): (n: nat)
    ensures n <= |s| && (forall k :: 0 <= k < n ==> IsHex(s[k])) && (n < |s| ==> !IsHex(s[n]))
  {
    if s != [] && IsHex(s[0]) then 1 + HexLen(s[1..]) else 0
  }

  function CodeLen(s: seq<byte>): (n: nat)
    ensures n <= |s| && (forall k :: 0 <= k < n ==> IsCode(s[k])) && (n < |s| ==> !IsCode(s[n]))
  {
    if s != [] && IsCode(s[0]) then 1 + CodeLen(s[1..]) else 0
  }

  predicate StartsPairing(s: seq<byte>) {
    |s| >= 4 && s[..4] == CODE_PREFIX && CodeLen(s[4..]) >= 16
  }

  // What is written for the front of s, and how many of its bytes that takes up.
  function Piece(s: seq<byte>): (r: (seq<byte>, nat))
    requires s != []
    ensures 0 < r.1 <= |s|
  {
    if StartsPairing(s) then (PAIRING_MARK, 4 + CodeLen(s[4..]))
    else if IsHex(s[0]) then
      var n := HexLen(s);
      (if n >= 64 then TOKEN_MARK else s[..n], n)
    else ([s[0]], 1)
  }

  function Scrubbed(s: seq<byte>): seq<byte> {
    if s == [] then [] else Piece(s).0 + Scrubbed(s[Piece(s).1..])
  }

  method ScrubText(bytes: seq<byte>) returns (out: seq<byte>)
    ensures out == Scrubbed(bytes)
  {
    hide HexLen, CodeLen, Scrubbed;
    out := [];
    var i := 0;
    assert bytes[0..] == bytes && out + Scrubbed(bytes) == Scrubbed(bytes);
    while i < |bytes|
      invariant i <= |bytes|
      invariant out + Scrubbed(bytes[i..]) == Scrubbed(bytes)
    {
      ghost var rest := bytes[i..];
      assert i + 4 <= |bytes| ==> bytes[i + 4..] == rest[4..];
      if bytes[i] == 115 && i + 4 <= |bytes| && bytes[i + 1] == 99 && bytes[i + 2] == 49 && bytes[i + 3] == 46 {
        var n := RunOfCode(bytes, i + 4);
        assert rest[..4] == CODE_PREFIX;
        if n >= 16 {
          Emits(bytes, i, PAIRING_MARK, 4 + n);
          out := out + PAIRING_MARK;
          i := i + 4 + n;
          continue;
        }
      }
      if IsHex(bytes[i]) {
        var n := RunOfHex(bytes, i);
        assert rest[..n] == bytes[i..i + n] && rest[0] == bytes[i];
        NotPrefix(rest);
        var piece := if n >= 64 then TOKEN_MARK else bytes[i..i + n];
        Emits(bytes, i, piece, n);
        out := out + piece;
        i := i + n;
      } else {
        assert rest[0] == bytes[i];
        assert |rest| >= 4 ==> rest[..4] == [bytes[i], bytes[i + 1], bytes[i + 2], bytes[i + 3]];
        Emits(bytes, i, [bytes[i]], 1);
        out := out + [bytes[i]];
        i := i + 1;
      }
    }
    NothingToScrub();
    assert bytes[i..] == [] && out + [] == out;
  }

  lemma Emits(bytes: seq<byte>, i: nat, piece: seq<byte>, n: nat)
    requires i < |bytes| && Piece(bytes[i..]) == (piece, n)
    ensures n > 0 && i + n <= |bytes|
    ensures forall out :: out + Scrubbed(bytes[i..]) == (out + piece) + Scrubbed(bytes[i + n..])
  {
    hide Piece;
    assert bytes[i..][n..] == bytes[i + n..];
  }

  lemma NotPrefix(s: seq<byte>)
    requires s != [] && IsHex(s[0])
    ensures !StartsPairing(s)
  {
    if |s| >= 4 {
      assert s[..4][0] == s[0];
    }
  }

  lemma NothingToScrub()
    ensures Scrubbed([]) == [] && !Replaces([])
  {
  }

  method RunOfCode(bytes: seq<byte>, start: nat) returns (n: nat)
    requires start <= |bytes|
    ensures n == CodeLen(bytes[start..])
  {
    var j := start;
    while j < |bytes| && IsCode(bytes[j])
      invariant start <= j <= |bytes|
      invariant CodeLen(bytes[start..]) == j - start + CodeLen(bytes[j..])
    {
      assert bytes[j..][1..] == bytes[j + 1..];
      j := j + 1;
    }
    return j - start;
  }

  method RunOfHex(bytes: seq<byte>, start: nat) returns (n: nat)
    requires start <= |bytes|
    ensures n == HexLen(bytes[start..])
    ensures start < |bytes| && IsHex(bytes[start]) ==> n > 0
  {
    var j := start;
    while j < |bytes| && IsHex(bytes[j])
      invariant start <= j <= |bytes|
      invariant HexLen(bytes[start..]) == j - start + HexLen(bytes[j..])
    {
      assert bytes[j..][1..] == bytes[j + 1..];
      j := j + 1;
    }
    return j - start;
  }

  // ----- the output byte by byte -----

  predicate Replaces(s: seq<byte>) {
    StartsPairing(s) || HexLen(s) >= 64
  }

  function Mark(s: seq<byte>): seq<byte> {
    if StartsPairing(s) then PAIRING_MARK else TOKEN_MARK
  }

  // Where scrubbing goes on behind a mark.
  function Behind(s: seq<byte>): (n: nat)
    requires Replaces(s)
    ensures 0 < n <= |s|
  {
    if StartsPairing(s) then 4 + CodeLen(s[4..]) else HexLen(s)
  }

  lemma {:induction false} ScrubbedStep(s: seq<byte>)
    requires s != []
    ensures Scrubbed(s) == if Replaces(s) then Mark(s) + Scrubbed(s[Behind(s)..]) else [s[0]] + Scrubbed(s[1..])
  {
    if !Replaces(s) && IsHex(s[0]) {
      ShortRun(s);
    }
    hide CodeLen, HexLen;
  }

  lemma {:induction false} Unfold(s: seq<byte>)
    requires s != []
    ensures Scrubbed(s) == Piece(s).0 + Scrubbed(s[Piece(s).1..])
  {
  }

  lemma {:induction false} RunIsPiece(s: seq<byte>)
    requires s != [] && IsHex(s[0]) && HexLen(s) < 64
    ensures Piece(s) == (s[..HexLen(s)], HexLen(s))
  {
    NotPrefix(s);
    hide CodeLen;
  }

  lemma {:induction false} HexLenTail(s: seq<byte>)
    requires s != [] && IsHex(s[0])
    ensures HexLen(s) == 1 + HexLen(s[1..])
    ensures HexLen(s) > 1 ==> IsHex(s[1..][0])
  {
  }

  lemma {:induction false} ShortRun(s: seq<byte>)
    requires s != [] && IsHex(s[0]) && HexLen(s) < 64
    ensures Scrubbed(s) == [s[0]] + Scrubbed(s[1..])
  {
    hide Scrubbed, HexLen, Piece;
    HexLenTail(s);
    RunIsPiece(s);
    Unfold(s);
    if HexLen(s) > 1 {
      RunIsPiece(s[1..]);
      Unfold(s[1..]);
    }
    FirstApart(s, HexLen(s), Scrubbed(s[HexLen(s)..]));
  }

  lemma FirstApart(s: seq<byte>, n: nat, rest: seq<byte>)
    requires 0 < n <= |s|
    ensures s[1..][n - 1..] == s[n..]
    ensures s[..n] + rest == [s[0]] + (s[1..][..n - 1] + rest)
    ensures n == 1 ==> s[..n] + rest == [s[0]] + rest
  {
    assert s[..n] == [s[0]] + s[1..][..n - 1];
  }

  // ----- what must not be in a log -----

  predicate AllHex(s: seq<byte>) {
    forall k :: 0 <= k < |s| ==> IsHex(s[k])
  }

  predicate AllCode(s: seq<byte>) {
    forall k :: 0 <= k < |s| ==> IsCode(s[k])
  }

  // 64 hexadecimal digits in a row: a pairing token or a certificate pin.
  predicate TokenAt(s: seq<byte>, i: nat) {
    i + 64 <= |s| && AllHex(s[i..i + 64])
  }

  // A pairing code: the prefix and at least 16 bytes of its alphabet.
  predicate PairingAt(s: seq<byte>, i: nat) {
    i + 20 <= |s| && s[i..i + 4] == CODE_PREFIX && AllCode(s[i + 4..i + 20])
  }

  ghost predicate Clean(s: seq<byte>) {
    forall i: nat :: !TokenAt(s, i) && !PairingAt(s, i)
  }

  lemma {:induction false} HexLenAtLeast(s: seq<byte>, n: nat)
    requires n <= |s| && AllHex(s[..n])
    ensures HexLen(s) >= n
  {
    if n > 0 {
      assert s[0] == s[..n][0] && s[1..][..n - 1] == s[..n][1..];
      HexLenAtLeast(s[1..], n - 1);
    }
  }

  lemma {:induction false} CodeLenAtLeast(s: seq<byte>, n: nat)
    requires n <= |s| && AllCode(s[..n])
    ensures CodeLen(s) >= n
  {
    if n > 0 {
      assert s[0] == s[..n][0] && s[1..][..n - 1] == s[..n][1..];
      CodeLenAtLeast(s[1..], n - 1);
    }
  }

  lemma TokenIff(s: seq<byte>, i: nat)
    ensures TokenAt(s, i) <==> i <= |s| && HexLen(s[i..]) >= 64
  {
    hide HexLen;
    if i + 64 <= |s| {
      assert s[i..][..64] == s[i..i + 64];
      if TokenAt(s, i) {
        HexLenAtLeast(s[i..], 64);
      }
    }
  }

  lemma PairingIff(s: seq<byte>, i: nat)
    ensures PairingAt(s, i) <==> i <= |s| && StartsPairing(s[i..])
  {
    hide CodeLen;
    if i + 4 <= |s| {
      assert s[i..][..4] == s[i..i + 4] && s[i..][4..] == s[i + 4..];
      if i + 20 <= |s| {
        assert s[i + 4..][..16] == s[i + 4..i + 20];
        if PairingAt(s, i) {
          CodeLenAtLeast(s[i + 4..], 16);
        }
      }
    }
  }

  // A line is clean when nothing in it would be replaced.
  lemma CleanIff(s: seq<byte>)
    ensures Clean(s) <==> forall i :: 0 <= i <= |s| ==> !Replaces(s[i..])
  {
    hide TokenAt, PairingAt, StartsPairing, HexLen;
    forall i: nat
      ensures (TokenAt(s, i) || PairingAt(s, i)) <==> (i <= |s| && Replaces(s[i..]))
    {
      TokenIff(s, i);
      PairingIff(s, i);
    }
  }

  lemma CleanTail(s: seq<byte>)
    requires Clean(s) && s != []
    ensures !Replaces(s) && Clean(s[1..])
  {
    hide Clean, Replaces;
    CleanIff(s);
    CleanIff(s[1..]);
    assert s[0..] == s;
    forall i | 0 <= i <= |s[1..]|
      ensures !Replaces(s[1..][i..])
    {
      assert s[1..][i..] == s[i + 1..];
    }
  }

  lemma {:induction false} CleanIsUnchanged(s: seq<byte>)
    requires Clean(s)
    ensures Scrubbed(s) == s
  {
    hide Clean, Replaces;
    if s != [] {
      CleanTail(s);
      ScrubbedStep(s);
      CleanIsUnchanged(s[1..]);
    }
  }

  // Scrubbing never makes a run at the front longer.
  lemma {:induction false} RunsShrink(s: seq<byte>)
    ensures CodeLen(Scrubbed(s)) <= CodeLen(s) && HexLen(Scrubbed(s)) <= HexLen(s)
  {
    if s != [] {
      hide Scrubbed, Replaces;
      ScrubbedStep(s);
      RunsShrink(s[1..]);
      assert ([s[0]] + Scrubbed(s[1..]))[1..] == Scrubbed(s[1..]);
    }
  }

  // A pairing code at the front of the output was one at the front of the input.
  lemma {:induction false} PairingWasThere(s: seq<byte>)
    requires StartsPairing(Scrubbed(s))
    ensures Replaces(s)
  {
    hide Scrubbed, CodeLen, HexLen;
    var r := Scrubbed(s);
    assert r[0] == r[..4][0] && r[1] == r[..4][1] && r[2] == r[..4][2] && r[3] == r[..4][3];
    Peel(s);
    Peel(s[1..]);
    Peel(s[1..][1..]);
    Peel(s[1..][1..][1..]);
    assert s[1..][1..] == s[2..] && s[2..][1..] == s[3..] && s[3..][1..] == s[4..];
    RunsShrink(s[4..]);
    assert s[..4] == CODE_PREFIX && r[4..] == Scrubbed(s[4..]);
  }

  // A first byte that opens no mark was copied.
  lemma {:induction false} Peel(s: seq<byte>)
    requires Scrubbed(s) != [] && Scrubbed(s)[0] != 91
    ensures s != [] && s[0] == Scrubbed(s)[0] && Scrubbed(s)[1..] == Scrubbed(s[1..])
  {
    ScrubbedStep(s);
    hide Replaces, HexLen, CodeLen;
  }

  predicate IsMark(mark: seq<byte>) {
    mark == PAIRING_MARK || mark == TOKEN_MARK
  }

  // Runs that start inside a mark end in it.
  lemma MarkStops(mark: seq<byte>, i: nat, rest: seq<byte>)
    requires IsMark(mark) && i < |mark|
    ensures !Replaces(mark[i..] + rest)
  {
    var t := mark[i..] + rest;
    assert t[0] == mark[i] != 115;
    if |t| >= 4 {
      assert t[..4][0] == t[0];
    }
    assert t[|mark| - 1 - i] == 93;
    hide HexLen;
    assert HexLen(t) <= |mark| - 1 - i;
  }

  lemma MarkThenRest(mark: seq<byte>, rest: seq<byte>, i: nat)
    requires IsMark(mark) && i <= |mark + rest|
    requires i >= |mark| ==> !Replaces(rest[i - |mark|..])
    ensures !Replaces((mark + rest)[i..])
  {
    hide Replaces, IsMark;
    if i < |mark| {
      assert (mark + rest)[i..] == mark[i..] + rest;
      MarkStops(mark, i, rest);
    } else {
      assert (mark + rest)[i..] == rest[i - |mark|..];
    }
  }

  lemma CopyThenRest(b: byte, rest: seq<byte>, i: nat)
    requires 0 < i <= |rest| + 1 && !Replaces(rest[i - 1..])
    ensures !Replaces(([b] + rest)[i..])
  {
    hide Replaces;
    assert ([b] + rest)[i..] == rest[i - 1..];
  }

  lemma {:induction false} OutputHoldsNothing(s: seq<byte>, i: nat)
    requires i <= |Scrubbed(s)|
    ensures !Replaces(Scrubbed(s)[i..])
    decreases |s|
  {
    hide Scrubbed, Replaces, Mark, IsMark, Behind;
    NothingToScrub();
    if s == [] {
      assert Scrubbed(s)[i..] == [];
    } else {
      ScrubbedStep(s);
      if Replaces(s) {
        var rest := s[Behind(s)..];
        MarksAreMarks(s);
        if i >= |Mark(s)| {
          OutputHoldsNothing(rest, i - |Mark(s)|);
        }
        MarkThenRest(Mark(s), Scrubbed(rest), i);
      } else if i == 0 {
        assert Scrubbed(s)[0..] == Scrubbed(s);
        FrontHoldsNothing(s);
      } else {
        OutputHoldsNothing(s[1..], i - 1);
        CopyThenRest(s[0], Scrubbed(s[1..]), i);
      }
    }
  }

  lemma MarksAreMarks(s: seq<byte>)
    ensures IsMark(Mark(s))
  {
  }

  lemma {:induction false} FrontHoldsNothing(s: seq<byte>)
    requires !Replaces(s)
    ensures !Replaces(Scrubbed(s))
  {
    hide Scrubbed, CodeLen, HexLen, StartsPairing;
    RunsShrink(s);
    if StartsPairing(Scrubbed(s)) {
      PairingWasThere(s);
    }
  }

  /**
   * For every byte string: the output holds neither a token nor a pairing code; it is the input
   * exactly when the input held neither; and scrubbing twice is scrubbing once.
   */
  lemma {:induction false} ScrubIsSound(s: seq<byte>)
    ensures Clean(Scrubbed(s))
    ensures Scrubbed(s) == s <==> Clean(s)
    ensures Scrubbed(Scrubbed(s)) == Scrubbed(s)
  {
    hide Scrubbed, Replaces, Clean;
    var r := Scrubbed(s);
    forall i | 0 <= i <= |r|
      ensures !Replaces(r[i..])
    {
      OutputHoldsNothing(s, i);
    }
    CleanIff(r);
    CleanIsUnchanged(r);
    if Clean(s) {
      CleanIsUnchanged(s);
    }
  }

  // ----- scrubbing is local -----

  // A byte that belongs to neither pattern.
  predicate Separates(b: byte) {
    !IsCode(b) && b != DOT
  }

  lemma {:induction false} RunsStop(a: seq<byte>, sep: byte, b: seq<byte>)
    requires Separates(sep)
    ensures HexLen(a + [sep] + b) == HexLen(a) && CodeLen(a + [sep] + b) == CodeLen(a)
  {
    if a != [] {
      assert (a + [sep] + b)[1..] == a[1..] + [sep] + b;
      RunsStop(a[1..], sep, b);
    }
  }

  lemma PairingStops(a: seq<byte>, sep: byte, b: seq<byte>)
    requires Separates(sep)
    ensures StartsPairing(a + [sep] + b) <==> StartsPairing(a)
    ensures |a| >= 4 ==> CodeLen((a + [sep] + b)[4..]) == CodeLen(a[4..])
  {
    hide CodeLen;
    var s := a + [sep] + b;
    if |a| >= 4 {
      assert s[..4] == a[..4] && s[4..] == a[4..] + [sep] + b;
      RunsStop(a[4..], sep, b);
    } else if |s| >= 4 {
      assert s[..4][|a|] == sep;
    }
  }

  lemma ReplacementStops(a: seq<byte>, sep: byte, b: seq<byte>)
    requires Separates(sep)
    ensures
      var s := a + [sep] + b;
      && (Replaces(s) <==> Replaces(a))
      && (Replaces(a) ==> Mark(s) == Mark(a) && Behind(s) == Behind(a) && s[Behind(s)..] == a[Behind(a)..] + [sep] + b)
  {
    hide CodeLen, HexLen;
    RunsStop(a, sep, b);
    PairingStops(a, sep, b);
  }

  /** Text on either side of a separating byte is scrubbed by itself, and the byte stays. */
  lemma {:induction false} ScrubIsLocal(a: seq<byte>, sep: byte, b: seq<byte>)
    requires Separates(sep)
    ensures Scrubbed(a + [sep] + b) == Scrubbed(a) + [sep] + Scrubbed(b)
    decreases |a|
  {
    hide Replaces, Behind, Mark, Scrubbed;
    var s := a + [sep] + b;
    ReplacementStops(a, sep, b);
    ScrubbedStep(s);
    if a == [] {
      NothingToScrub();
      assert s[1..] == b;
      assert [] + [sep] + Scrubbed(b) == [sep] + Scrubbed(b);
    } else {
      ScrubbedStep(a);
      if Replaces(a) {
        var rest := a[Behind(a)..];
        ScrubIsLocal(rest, sep, b);
        assert Mark(a) + (Scrubbed(rest) + [sep] + Scrubbed(b)) == Mark(a) + Scrubbed(rest) + [sep] + Scrubbed(b);
      } else {
        assert s[1..] == a[1..] + [sep] + b;
        ScrubIsLocal(a[1..], sep, b);
        assert [a[0]] + (Scrubbed(a[1..]) + [sep] + Scrubbed(b)) == [a[0]] + Scrubbed(a[1..]) + [sep] + Scrubbed(b);
      }
    }
  }

  /** A token between clean texts is all that is replaced. */
  lemma {:induction false} TokenIsReplaced(a: seq<byte>, token: seq<byte>, c: seq<byte>, before: byte, after: byte)
    requires Clean(a) && Clean(c) && Separates(before) && Separates(after)
    requires |token| >= 64 && AllHex(token)
    ensures Scrubbed(a + [before] + (token + [after] + c)) == a + [before] + (TOKEN_MARK + [after] + c)
  {
    hide Scrubbed, Clean, HexLen, CodeLen;
    ScrubIsLocal(a, before, token + [after] + c);
    ScrubIsLocal(token, after, c);
    CleanIsUnchanged(a);
    CleanIsUnchanged(c);
    WholeToken(token);
  }

  lemma {:induction false} WholeToken(token: seq<byte>)
    requires |token| >= 64 && AllHex(token)
    ensures Scrubbed(token) == TOKEN_MARK
  {
    assert token[..|token|] == token;
    HexLenAtLeast(token, |token|);
    NothingToScrub();
    ScrubbedStep(token);
    hide HexLen, CodeLen, Scrubbed;
    assert token[..4][0] == token[0] != 115;
    assert token[|token|..] == [];
    assert TOKEN_MARK + [] == TOKEN_MARK;
  }
}
