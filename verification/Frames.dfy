/**
 * The binary framing of activations on the data plane: a 28-byte header, the epoch with its
 * length, and the payload. UTF-8 and the 32-bit epoch hash are parameters.
 */
module Frames {
  import opened Base
  import opened Sockets
  import opened Pipeline

  const WORDS := 0x1_0000_0000
  const MAGIC: seq<byte> := [0x53, 0x43, 0x49, 0x4E]
  const HEADER_SIZE := 28
  const LARGEST_PAYLOAD := 64 * 1024 * 1024

  type word = x: int | 0 <= x < WORDS

  datatype Text = Text(encode: string -> seq<byte>, decode: seq<byte> -> Option<string>, hash32: string -> word)

  ghost predicate Faithful(text: Text) {
    forall s :: text.decode(text.encode(s)) == Some(s)
  }

  // A strict decoder accepts nothing but encodings.
  ghost predicate Strict(text: Text) {
    forall b :: text.decode(b).Some? ==> text.encode(text.decode(b).value) == b
  }

  function PackWord(n: word): (r: seq<byte>)
    ensures |r| == 4
  {
    var a := n / 256;
    var b := a / 256;
    [b / 256, b % 256, a % 256, n % 256]
  }

  function UnpackWord(b: seq<byte>): word
    requires |b| == 4
  {
    var b0: int, b1: int, b2: int, b3: int := b[0], b[1], b[2], b[3];
    ((b0 * 256 + b1) * 256 + b2) * 256 + b3
  }

  function PackShort(n: nat): (r: seq<byte>)
    requires n < 0x1_0000
    ensures |r| == 2
  {
    [n / 256, n % 256]
  }

  function UnpackShort(b: seq<byte>): nat
    requires |b| == 2
  {
    var b0: int, b1: int := b[0], b[1];
    b0 * 256 + b1
  }

  lemma WordRoundTrip(n: word)
    ensures UnpackWord(PackWord(n)) == n
  {
  }

  lemma WordUnique(b: seq<byte>)
    requires |b| == 4
    ensures PackWord(UnpackWord(b)) == b
  {
    var b0: int, b1: int, b2: int, b3: int := b[0], b[1], b[2], b[3];
    var top := b0 * 256 + b1;
    DividesBack(top * 256 + b2, b3);
    DividesBack(top, b2);
    DividesBack(b0, b1);
  }

  lemma DividesBack(a: int, b: int)
    requires 0 <= b < 256
    ensures (a * 256 + b) / 256 == a && (a * 256 + b) % 256 == b
  {
  }

  predicate Packable(text: Text, m: Msg) {
    && m.token < WORDS && m.rankFrom < WORDS && m.rankTo < WORDS
    && |m.payload| < WORDS && |text.encode(m.epoch)| < 0x1_0000
  }

  function Header(text: Text, m: Msg, reserved: word): (r: seq<byte>)
    requires Packable(text, m)
    ensures |r| == HEADER_SIZE
  {
    MAGIC + PackWord(text.hash32(m.epoch)) + PackWord(m.token) + PackWord(m.rankFrom) + PackWord(m.rankTo)
    + PackWord(|m.payload|) + PackWord(reserved)
  }

  function Frame(text: Text, m: Msg, reserved: word): seq<byte>
    requires Packable(text, m)
  {
    var epoch := text.encode(m.epoch);
    Header(text, m, reserved) + PackShort(|epoch|) + epoch + m.payload
  }

  datatype FrameError = BadMagic | Unreasonable | BeyondBudget | BadEpoch | HashMismatch

  datatype Received = Closed | Bad(why: FrameError) | Got(msg: Msg)

  /** What the receiver makes of the bytes that reach it in time, and the bytes it leaves. */
  function Decode(text: Text, budget: Option<int>, s: seq<byte>): (r: (Received, seq<byte>))
    ensures |r.1| <= |s| && (r.0.Got? ==> |r.1| < |s|)
  {
    if |s| < HEADER_SIZE then (Closed, [])
    else
      var header, body := s[..HEADER_SIZE], s[HEADER_SIZE..];
      var nbytes := UnpackWord(header[20..24]);
      if header[..4] != MAGIC then (Bad(BadMagic), body)
      else if nbytes > LARGEST_PAYLOAD then (Bad(Unreasonable), body)
      else if budget.Some? && nbytes > budget.value then (Bad(BeyondBudget), body)
      else DecodeBody(text, header, body)
  }

  function DecodeBody(text: Text, header: seq<byte>, s: seq<byte>): (r: (Received, seq<byte>))
    requires |header| == HEADER_SIZE
    ensures |r.1| <= |s|
  {
    if |s| < 2 then (Closed, [])
    else
      var elen, tail := UnpackShort(s[..2]), s[2..];
      if |tail| < elen then (Closed, [])
      else DecodePayload(text, header, text.decode(tail[..elen]), tail[elen..])
  }

  function DecodePayload(text: Text, header: seq<byte>, epoch: Option<string>, s: seq<byte>): (r: (Received, seq<byte>))
    requires |header| == HEADER_SIZE
    ensures |r.1| <= |s|
  {
    var nbytes := UnpackWord(header[20..24]);
    if epoch.None? then (Bad(BadEpoch), s)
    else if text.hash32(epoch.value) != UnpackWord(header[4..8]) then (Bad(HashMismatch), s)
    else if |s| < nbytes then (Closed, [])
    else
      (Got(Msg(epoch.value, UnpackWord(header[8..12]), UnpackWord(header[12..16]), UnpackWord(header[16..20]),
               s[..nbytes])),
       s[nbytes..])
  }

  /** However the stream is cut, the receiver returns what Decode says of its bytes. */
  method RecvActivation(sock: Socket, text: Text, budget: Option<int>) returns (r: Received)
    requires sock.Valid()
    modifies sock
    ensures sock.Valid()
    ensures r == Decode(text, budget, old(Prompt(sock.arrivals))).0
    ensures !r.Closed? ==> Prompt(sock.arrivals) == Decode(text, budget, old(Prompt(sock.arrivals))).1
  {
    hide UnpackWord, UnpackShort, Prompt;
    var read := sock.RecvExact(HEADER_SIZE);
    if read.None? {
      return Closed;
    }
    var header := read.value;
    var ehash, tokenID, rankFrom, rankTo, nbytes :=
      UnpackWord(header[4..8]), UnpackWord(header[8..12]), UnpackWord(header[12..16]), UnpackWord(header[16..20]),
      UnpackWord(header[20..24]);
    if header[..4] != MAGIC {
      return Bad(BadMagic);
    }
    if nbytes > LARGEST_PAYLOAD {
      return Bad(Unreasonable);
    }
    if budget.Some? && nbytes > budget.value {
      return Bad(BeyondBudget);
    }
    var elenRaw := sock.RecvExact(2);
    if elenRaw.None? {
      return Closed;
    }
    var epochRaw := sock.RecvExact(UnpackShort(elenRaw.value));
    if epochRaw.None? {
      return Closed;
    }
    var epoch := text.decode(epochRaw.value);
    if epoch.None? {
      return Bad(BadEpoch);
    }
    if text.hash32(epoch.value) != ehash {
      return Bad(HashMismatch);
    }
    var payload := sock.RecvExact(nbytes);
    if payload.None? {
      return Closed;
    }
    return Got(Msg(epoch.value, tokenID, rankFrom, rankTo, payload.value));
  }

  // ----- encoding and decoding are inverse -----

  // The size limits the receiver sets.
  predicate WithinLimits(m: Msg, budget: Option<int>) {
    |m.payload| <= LARGEST_PAYLOAD && (budget.Some? ==> |m.payload| <= budget.value)
  }

  lemma HeaderParts(text: Text, m: Msg, reserved: word)
    requires Packable(text, m)
    ensures
      var h := Header(text, m, reserved);
      && h[..4] == MAGIC && h[4..8] == PackWord(text.hash32(m.epoch)) && h[8..12] == PackWord(m.token)
      && h[12..16] == PackWord(m.rankFrom) && h[16..20] == PackWord(m.rankTo) && h[20..24] == PackWord(|m.payload|)
  {
    hide PackWord;
  }

  // What the words of a message's header unpack to.
  lemma HeaderReads(text: Text, m: Msg, reserved: word)
    requires Packable(text, m)
    ensures
      var h := Header(text, m, reserved);
      && h[..4] == MAGIC && UnpackWord(h[4..8]) == text.hash32(m.epoch)
      && UnpackWord(h[8..12]) == m.token && UnpackWord(h[12..16]) == m.rankFrom
      && UnpackWord(h[16..20]) == m.rankTo && UnpackWord(h[20..24]) == |m.payload|
  {
    hide Header, PackWord, UnpackWord;
    HeaderParts(text, m, reserved);
    WordRoundTrip(text.hash32(m.epoch));
    WordRoundTrip(m.token);
    WordRoundTrip(m.rankFrom);
    WordRoundTrip(m.rankTo);
    WordRoundTrip(|m.payload|);
  }

  // Everything after the header.
  function Body(text: Text, m: Msg): seq<byte>
    requires Packable(text, m)
  {
    PackShort(|text.encode(m.epoch)|) + (text.encode(m.epoch) + m.payload)
  }

  lemma FrameParts(text: Text, m: Msg, reserved: word, rest: seq<byte>)
    requires Packable(text, m)
    ensures
      var s, body := Frame(text, m, reserved) + rest, Body(text, m) + rest;
      && |s| >= HEADER_SIZE && s[..HEADER_SIZE] == Header(text, m, reserved) && s[HEADER_SIZE..] == body
  {
    hide PackShort, Header;
    assert Frame(text, m, reserved) == Header(text, m, reserved) + Body(text, m);
  }

  /** A frame is read back exactly when its payload is within the receiver's limits. */
  lemma FrameRoundTrip(text: Text, budget: Option<int>, m: Msg, reserved: word, rest: seq<byte>)
    requires Faithful(text) && Packable(text, m)
    ensures
      Decode(text, budget, Frame(text, m, reserved) + rest)
      == if WithinLimits(m, budget) then (Got(m), rest)
         else (Bad(if |m.payload| > LARGEST_PAYLOAD then Unreasonable else BeyondBudget),
               (Frame(text, m, reserved) + rest)[HEADER_SIZE..])
  {
    hide Frame, Header, Body, DecodeBody, UnpackWord;
    FrameParts(text, m, reserved, rest);
    HeaderReads(text, m, reserved);
    BodyRoundTrip(text, m, reserved, rest);
  }

  lemma BodyRoundTrip(text: Text, m: Msg, reserved: word, rest: seq<byte>)
    requires Faithful(text) && Packable(text, m)
    ensures DecodeBody(text, Header(text, m, reserved), Body(text, m) + rest) == (Got(m), rest)
  {
    hide Header, PackShort, UnpackShort, UnpackWord;
    var epoch := text.encode(m.epoch);
    var s := Body(text, m) + rest;
    HeaderReads(text, m, reserved);
    ShortRoundTrip(|epoch|);
    assert s[..2] == PackShort(|epoch|) && s[2..] == epoch + (m.payload + rest);
    assert (epoch + (m.payload + rest))[..|epoch|] == epoch;
    assert (epoch + (m.payload + rest))[|epoch|..] == m.payload + rest;
  }

  lemma ShortRoundTrip(n: nat)
    requires n < 0x1_0000
    ensures UnpackShort(PackShort(n)) == n
  {
  }

  lemma ShortUnique(b: seq<byte>)
    requires |b| == 2
    ensures UnpackShort(b) < 0x1_0000 && PackShort(UnpackShort(b)) == b
  {
  }

  /** Only frames are read as messages: the stream began with the message's own frame, up to the unused word. */
  lemma OnlyFramesDecode(text: Text, budget: Option<int>, s: seq<byte>)
    requires Strict(text) && Decode(text, budget, s).0.Got?
    ensures
      var (got, rest) := Decode(text, budget, s);
      && Packable(text, got.msg) && WithinLimits(got.msg, budget)
      && s == Frame(text, got.msg, UnpackWord(s[24..28])) + rest
  {
    hide UnpackWord, UnpackShort, Header, Frame;
    var (got, rest) := Decode(text, budget, s);
    var header, body := s[..HEADER_SIZE], s[HEADER_SIZE..];
    var epoch := text.encode(got.msg.epoch);
    assert body[2..] == epoch + (got.msg.payload + rest);
    ShortUnique(body[..2]);
    HeaderIs(text, got.msg, header);
    assert header[24..28] == s[24..28];
    assert body == PackShort(|epoch|) + (epoch + (got.msg.payload + rest));
    assert body == Body(text, got.msg) + rest;
    FrameParts(text, got.msg, UnpackWord(s[24..28]), rest);
    assert s == header + body;
    assert Frame(text, got.msg, UnpackWord(s[24..28])) + rest == header + body;
  }

  // ----- which bytes are refused, and why -----

  // Four bytes at a place, the most significant first.
  function WordAt(s: seq<byte>, at: nat): int
    requires at + 4 <= |s|
  {
    var b0: int, b1: int, b2: int, b3: int := s[at], s[at + 1], s[at + 2], s[at + 3];
    0x100_0000 * b0 + 0x1_0000 * b1 + 0x100 * b2 + b3
  }

  lemma WordIsBigEndian(s: seq<byte>, at: nat)
    requires at + 4 <= |s|
    ensures UnpackWord(s[at..at + 4]) == WordAt(s, at)
  {
  }

  // "SCIN" in front, and a size within both limits.
  predicate HeaderPasses(budget: Option<int>, s: seq<byte>) {
    && |s| >= 28 && s[..4] == [0x53, 0x43, 0x49, 0x4E]
    && WordAt(s, 20) <= 67_108_864 && (budget.Some? ==> WordAt(s, 20) <= budget.value)
  }

  // The bytes of the epoch, as long as the two bytes behind the header say.
  function EpochBytes(s: seq<byte>): Option<seq<byte>> {
    if |s| < 30 then None
    else
      var high: int, low: int := s[28], s[29];
      var end := 30 + 0x100 * high + low;
      if |s| < end then None else Some(s[30..end])
  }

  /**
   * What becomes of any bytes: they are refused for their magic, then for their size, then for the
   * budget; then for an epoch that cannot be decoded or does not hash to the header's word; they
   * are a message exactly when none of that is so and all of it is there, and otherwise the
   * stream counts as closed.
   */
  lemma DecodeIsExact(text: Text, budget: Option<int>, s: seq<byte>)
    ensures
      var r, epoch := Decode(text, budget, s).0, EpochBytes(s);
      var decoded := if epoch.Some? then text.decode(epoch.value) else None;
      var ours := decoded.Some? && |s| >= 28 && text.hash32(decoded.value) == WordAt(s, 4);
      && (r == Bad(BadMagic) <==> |s| >= 28 && s[..4] != [0x53, 0x43, 0x49, 0x4E])
      && (r == Bad(Unreasonable) <==> |s| >= 28 && s[..4] == [0x53, 0x43, 0x49, 0x4E] && WordAt(s, 20) > 67_108_864)
      && (r == Bad(BeyondBudget)
          <==> |s| >= 28 && s[..4] == [0x53, 0x43, 0x49, 0x4E] && WordAt(s, 20) <= 67_108_864
               && budget.Some? && WordAt(s, 20) > budget.value)
      && (r == Bad(BadEpoch) <==> HeaderPasses(budget, s) && epoch.Some? && decoded.None?)
      && (r == Bad(HashMismatch) <==> HeaderPasses(budget, s) && decoded.Some? && !ours)
      && (r.Got? <==> HeaderPasses(budget, s) && ours && |s| >= 30 + |epoch.value| + WordAt(s, 20))
      && (r.Got? ==>
            var from := 30 + |epoch.value|;
            r.msg == Msg(decoded.value, WordAt(s, 8), WordAt(s, 12), WordAt(s, 16), s[from..from + WordAt(s, 20)]))
  {
    if |s| >= 28 {
      var header, body := s[..28], s[28..];
      HeaderWords(s);
      hide UnpackWord, WordAt;
      assert header[..4] == s[..4];
      if |body| >= 2 {
        assert body[0] == s[28] && body[1] == s[29];
        var elen := UnpackShort(body[..2]);
        if |body| >= 2 + elen {
          assert body[2..][..elen] == s[30..30 + elen] && body[2..][elen..] == s[30 + elen..];
        }
      }
    }
  }

  lemma HeaderWords(s: seq<byte>)
    requires |s| >= 28
    ensures
      var h := s[..28];
      && UnpackWord(h[4..8]) == WordAt(s, 4) && UnpackWord(h[8..12]) == WordAt(s, 8)
      && UnpackWord(h[12..16]) == WordAt(s, 12) && UnpackWord(h[16..20]) == WordAt(s, 16)
      && UnpackWord(h[20..24]) == WordAt(s, 20)
  {
    WordIsBigEndian(s, 4);
    WordIsBigEndian(s, 8);
    WordIsBigEndian(s, 12);
    WordIsBigEndian(s, 16);
    WordIsBigEndian(s, 20);
    hide UnpackWord, WordAt;
    var h := s[..28];
    assert h[4..8] == s[4..4 + 4] && h[8..12] == s[8..8 + 4] && h[12..16] == s[12..12 + 4];
    assert h[16..20] == s[16..16 + 4] && h[20..24] == s[20..20 + 4];
  }

  // A header whose words unpack to a message's is that message's header.
  lemma HeaderIs(text: Text, m: Msg, h: seq<byte>)
    requires Packable(text, m) && |h| == HEADER_SIZE && h[..4] == MAGIC
    requires UnpackWord(h[4..8]) == text.hash32(m.epoch) && UnpackWord(h[8..12]) == m.token
    requires UnpackWord(h[12..16]) == m.rankFrom && UnpackWord(h[16..20]) == m.rankTo
    requires UnpackWord(h[20..24]) == |m.payload|
    ensures h == Header(text, m, UnpackWord(h[24..28]))
  {
    hide PackWord, UnpackWord;
    WordUnique(h[4..8]);
    WordUnique(h[8..12]);
    WordUnique(h[12..16]);
    WordUnique(h[16..20]);
    WordUnique(h[20..24]);
    WordUnique(h[24..28]);
    assert h == h[..4] + h[4..8] + h[8..12] + h[12..16] + h[16..20] + h[20..24] + h[24..28];
  }

  // ----- streams of messages -----

  function EncodeAll(text: Text, ms: seq<Msg>): seq<byte>
    requires forall m :: m in ms ==> Packable(text, m)
  {
    if ms == [] then [] else Frame(text, ms[0], 0) + EncodeAll(text, ms[1..])
  }

  // Every message the receiver returns before the first failure, and what it leaves unread.
  function DecodeAll(text: Text, budget: Option<int>, s: seq<byte>): (seq<Msg>, seq<byte>)
    decreases |s|
  {
    var (got, rest) := Decode(text, budget, s);
    if got.Got? then
      var (more, left) := DecodeAll(text, budget, rest);
      ([got.msg] + more, left)
    else ([], s)
  }

  ghost predicate Sendable(text: Text, budget: Option<int>, ms: seq<Msg>) {
    forall m :: m in ms ==> Packable(text, m) && WithinLimits(m, budget)
  }

  /** Any sequence of in-range messages comes back as sent, with no byte lost or left over. */
  lemma {:induction false} StreamRoundTrip(text: Text, budget: Option<int>, ms: seq<Msg>, rest: seq<byte>)
    requires Faithful(text) && Sendable(text, budget, ms)
    ensures DecodeAll(text, budget, EncodeAll(text, ms) + rest)
            == (ms + DecodeAll(text, budget, rest).0, DecodeAll(text, budget, rest).1)
  {
    hide Decode, Frame;
    if ms == [] {
      assert EncodeAll(text, ms) + rest == rest;
      assert ms + DecodeAll(text, budget, rest).0 == DecodeAll(text, budget, rest).0;
    } else {
      assert ms[0] in ms && ms == [ms[0]] + ms[1..];
      var tail := EncodeAll(text, ms[1..]) + rest;
      assert EncodeAll(text, ms) + rest == Frame(text, ms[0], 0) + tail;
      FrameRoundTrip(text, budget, ms[0], 0, tail);
      StreamRoundTrip(text, budget, ms[1..], rest);
      assert [ms[0]] + (ms[1..] + DecodeAll(text, budget, rest).0) == ms + DecodeAll(text, budget, rest).0;
    }
  }

  /**
   * A peer's receiving loop, up to the first frame it cannot use: whatever the cuts in the
   * stream, it has read what DecodeAll says of the bytes that came in time.
   */
  method ReceiveAll(sock: Socket, text: Text, budget: Option<int>) returns (ms: seq<Msg>)
    requires sock.Valid()
    modifies sock
    ensures sock.Valid()
    ensures ms == DecodeAll(text, budget, old(Prompt(sock.arrivals))).0
  {
    hide Decode, Prompt;
    ghost var all := Prompt(sock.arrivals);
    assert [] + DecodeAll(text, budget, all).0 == DecodeAll(text, budget, all).0;
    ms := [];
    while true
      invariant sock.Valid()
      invariant ms + DecodeAll(text, budget, Prompt(sock.arrivals)).0 == DecodeAll(text, budget, all).0
      decreases |Prompt(sock.arrivals)|
    {
      var got := RecvActivation(sock, text, budget);
      if !got.Got? {
        return;
      }
      ms := ms + [got.msg];
    }
  }

  /**
   * For every sequence of in-range messages and every way of cutting its encoding into chunks,
   * what that loop reads is exactly those messages, with no byte left over.
   */
  lemma AnyCuttingIsRead(text: Text, budget: Option<int>, ms: seq<Msg>, arrivals: seq<Arrival>)
    requires Faithful(text) && Sendable(text, budget, ms)
    requires Silence !in arrivals && Flat(arrivals) == EncodeAll(text, ms)
    ensures DecodeAll(text, budget, Prompt(arrivals)) == (ms, [])
  {
    UnbrokenIsPrompt(arrivals);
    StreamRoundTrip(text, budget, ms, []);
    NothingDecodes(text, budget);
    assert EncodeAll(text, ms) + [] == EncodeAll(text, ms) && ms + [] == ms;
  }

  /** A frame cut short is never read as a message. */
  lemma CutFrameIsClosed(text: Text, budget: Option<int>, m: Msg, n: nat)
    requires Faithful(text) && Packable(text, m) && WithinLimits(m, budget) && n < |Frame(text, m, 0)|
    ensures Decode(text, budget, Frame(text, m, 0)[..n]).0 == Closed
  {
    hide Frame, Header, UnpackWord, PackShort, UnpackShort;
    var f, epoch := Frame(text, m, 0), text.encode(m.epoch);
    var s, k := f[..n], n - HEADER_SIZE;
    assert f + [] == f && Body(text, m) + [] == Body(text, m);
    FrameParts(text, m, 0, []);
    HeaderReads(text, m, 0);
    ShortRoundTrip(|epoch|);
    if k >= 0 {
      var body := s[HEADER_SIZE..];
      assert s[..HEADER_SIZE] == Header(text, m, 0) && body == Body(text, m)[..k];
      if k >= 2 {
        assert body[..2] == PackShort(|epoch|) && body[2..] == (epoch + m.payload)[..k - 2];
        if k >= 2 + |epoch| {
          assert body[2..][..|epoch|] == epoch;
        }
      }
    }
  }

  /**
   * A connection that ends anywhere in a stream of messages has delivered exactly the messages
   * whose frames arrived whole.
   */
  lemma {:induction false} CutStreamDeliversWholeFrames(
    text: Text, budget: Option<int>, ms: seq<Msg>, n: nat) returns (k: nat)
    requires Faithful(text) && Sendable(text, budget, ms) && n <= |EncodeAll(text, ms)|
    ensures k <= |ms| && DecodeAll(text, budget, EncodeAll(text, ms)[..n]).0 == ms[..k]
    ensures |EncodeAll(text, ms[..k])| <= n
    ensures k < |ms| ==> n < |EncodeAll(text, ms[..k + 1])|
  {
    hide Decode, Frame;
    if ms == [] {
      k := 0;
      NothingDecodes(text, budget);
    } else {
      var f, all := Frame(text, ms[0], 0), EncodeAll(text, ms);
      assert ms[0] in ms && all == f + EncodeAll(text, ms[1..]);
      if n < |f| {
        k := 0;
        assert all[..n] == f[..n];
        CutFrameIsClosed(text, budget, ms[0], n);
        assert ms[..1][1..] == [];
        assert EncodeAll(text, ms[..1]) == f;
      } else {
        var j := CutStreamDeliversWholeFrames(text, budget, ms[1..], n - |f|);
        k := j + 1;
        var tail := EncodeAll(text, ms[1..])[..n - |f|];
        assert all[..n] == f + tail;
        FrameRoundTrip(text, budget, ms[0], 0, tail);
        assert ms[..k] == [ms[0]] + ms[1..][..j] && ms[..k][1..] == ms[1..][..j];
        if k < |ms| {
          assert ms[..k + 1] == [ms[0]] + ms[1..][..j + 1] && ms[..k + 1][1..] == ms[1..][..j + 1];
        }
      }
    }
  }

  lemma {:induction false} NothingDecodes(text: Text, budget: Option<int>)
    ensures DecodeAll(text, budget, []) == ([], [])
  {
  }
}
