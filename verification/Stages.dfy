/**
 * The demonstration's stand-in for a model stage, and the pipeline an accepted plan sets up
 * with it. SHA-256, UTF-8 and the big-endian packing of the header words are parameters.
 */
module Stages {
  import opened Base
  import opened InferPlan
  import Pipeline

  datatype Library = Library(
    sha256: seq<byte> -> seq<byte>, utf8: string -> seq<byte>, words: (nat, nat, nat) -> seq<byte>)

  ghost predicate Digests(lib: Library) {
    forall s :: |lib.sha256(s)| == 32
  }

  function Xor(a: byte, b: byte): byte {
    ((a as bv8) ^ (b as bv8)) as byte
  }

  function Digest(lib: Library, payload: seq<byte>, layers: nat, token: nat, rank: nat): seq<byte> {
    lib.sha256(payload + lib.words(token, rank, layers))
  }

  // The first k digest bytes folded into the payload, wrapping around a shorter one.
  function Folded(payload: seq<byte>, digest: seq<byte>, k: nat): (r: seq<byte>)
    requires payload != [] && k <= |digest|
    ensures |r| == |payload|
  {
    if k == 0 then payload
    else
      var before, i := Folded(payload, digest, k - 1), (k - 1) % |payload|;
      before[i := Xor(before[i], digest[k - 1])]
  }

  // An empty payload cannot be folded into; the source divides by its length.
  function Computed(lib: Library, payload: seq<byte>, layers: nat, token: nat, rank: nat): (r: seq<byte>)
    ensures |r| == |payload|
  {
    if payload == [] then []
    else
      var digest := Digest(lib, payload, layers, token, rank);
      var out := Folded(payload, digest, |digest|);
      out[0 := (out[0] + rank + token) % 256]
  }

  method FakeCompute(lib: Library, payload: seq<byte>, layers: nat, token: nat, rank: nat) returns (r: seq<byte>)
    requires payload != []
    ensures r == Computed(lib, payload, layers, token, rank)
  {
    var digest := Digest(lib, payload, layers, token, rank);
    var out := new byte[|payload|](i requires 0 <= i < |payload| => payload[i]);
    assert out[..] == payload;
    for i := 0 to |digest|
      invariant out[..] == Folded(payload, digest, i)
    {
      var at := i % out.Length;
      out[at] := Xor(out[at], digest[i]);
    }
    out[0] := (out[0] + rank + token) % 256;
    return out[..];
  }

  // Hash blocks are appended until there are enough bytes.
  function Filled(lib: Library, seed: seq<byte>, out: seq<byte>, n: nat): (r: seq<byte>)
    requires Digests(lib)
    ensures |out| <= n ==> |r| == n && out <= r
    decreases n - |out|
  {
    if |out| >= n then out[..n]
    else
      var next := lib.sha256(seed);
      if |out + next| >= n then (out + next)[..n] else Filled(lib, next, out + next, n)
  }

  function Prompted(lib: Library, prompt: string, n: nat): (r: seq<byte>)
    requires Digests(lib)
    ensures |r| == n
  {
    Filled(lib, lib.sha256(lib.utf8(prompt)), [], n)
  }

  method MakePromptActivation(lib: Library, prompt: string, n: nat) returns (r: seq<byte>)
    requires Digests(lib)
    ensures r == Prompted(lib, prompt, n)
  {
    var seed := lib.sha256(lib.utf8(prompt));
    var out := [];
    while |out| < n
      invariant Filled(lib, seed, out, n) == Prompted(lib, prompt, n)
      decreases n - |out|
    {
      seed := lib.sha256(seed);
      out := out + seed;
    }
    return out[..n];
  }

  // ----- what the loops compute -----

  lemma {:induction false} FoldedBytes(payload: seq<byte>, digest: seq<byte>, k: nat, i: nat)
    requires k <= |digest| <= |payload| && i < |payload|
    ensures Folded(payload, digest, k)[i] == if i < k then Xor(payload[i], digest[i]) else payload[i]
  {
    hide Xor, Folded;
    if k == 0 {
      FoldedNone(payload, digest);
    } else {
      FoldedBytes(payload, digest, k - 1, i);
      FoldedBytes(payload, digest, k - 1, k - 1);
      FoldedStep(payload, digest, k);
    }
  }

  lemma {:induction false} FoldedNone(payload: seq<byte>, digest: seq<byte>)
    requires payload != []
    ensures Folded(payload, digest, 0) == payload
  {
  }

  lemma FoldedStep(payload: seq<byte>, digest: seq<byte>, k: nat)
    requires 0 < k <= |digest| <= |payload|
    ensures
      var before := Folded(payload, digest, k - 1);
      Folded(payload, digest, k) == before[k - 1 := Xor(before[k - 1], digest[k - 1])]
  {
    hide Xor;
    SmallRemainder(k - 1, |payload|);
  }

  lemma SmallRemainder(a: nat, d: nat)
    requires a < d
    ensures a % d == a
  {
  }

  // A byte with those of the first k digest bytes folded in that fall on place i of n.
  function Mixed(b: byte, digest: seq<byte>, n: nat, i: nat, k: nat): byte
    requires n > 0 && k <= |digest|
  {
    if k == 0 then b
    else
      var before := Mixed(b, digest, n, i, k - 1);
      if (k - 1) % n == i then Xor(before, digest[k - 1]) else before
  }

  lemma {:induction false} FoldedIsMixed(payload: seq<byte>, digest: seq<byte>, k: nat, i: nat)
    requires payload != [] && k <= |digest| && i < |payload|
    ensures Folded(payload, digest, k)[i] == Mixed(payload[i], digest, |payload|, i, k)
  {
    hide Xor;
    if k > 0 {
      FoldedIsMixed(payload, digest, k - 1, i);
    }
  }

  /**
   * What a stage does to a payload of any length but none: every byte has those digest bytes folded in
   * that fall on its place when the digest is laid around the payload, and the first also has the
   * rank and the token added. The digest is of the payload and of token, rank and layer count.
   */
  lemma {:induction false} StageMixes(lib: Library, payload: seq<byte>, layers: nat, token: nat, rank: nat, i: nat)
    requires Digests(lib) && i < |payload|
    ensures
      var digest := lib.sha256(payload + lib.words(token, rank, layers));
      var mixed := Mixed(payload[i], digest, |payload|, i, 32);
      Computed(lib, payload, layers, token, rank)[i] == if i == 0 then (mixed + rank + token) % 256 else mixed
  {
    hide Xor, Folded, Mixed;
    FoldedIsMixed(payload, Digest(lib, payload, layers, token, rank), 32, i);
  }

  /** On a payload of at least 32 bytes a stage changes the first 32 only, each by its digest byte. */
  lemma StageChangesTheFront(lib: Library, payload: seq<byte>, layers: nat, token: nat, rank: nat, i: nat)
    requires Digests(lib) && |payload| >= 32 && i < |payload|
    ensures
      var out, digest :=
        Computed(lib, payload, layers, token, rank), lib.sha256(payload + lib.words(token, rank, layers));
      && (i >= 32 ==> out[i] == payload[i])
      && (0 < i < 32 ==> out[i] == Xor(payload[i], digest[i]))
      && (i == 0 ==> out[i] == (Xor(payload[i], digest[i]) + rank + token) % 256)
  {
    hide Xor;
    FoldedBytes(payload, Digest(lib, payload, layers, token, rank), 32, i);
  }

  function Rehashed(lib: Library, seed: seq<byte>, n: nat): (r: seq<byte>)
    requires Digests(lib)
    ensures n > 0 ==> |r| == 32
    decreases n
  {
    if n == 0 then seed else Rehashed(lib, lib.sha256(seed), n - 1)
  }

  lemma {:induction false} FilledBytes(lib: Library, seed: seq<byte>, out: seq<byte>, n: nat, i: nat)
    requires Digests(lib) && |out| <= i < n
    ensures |Filled(lib, seed, out, n)| == n
    ensures Filled(lib, seed, out, n)[i] == Rehashed(lib, seed, (i - |out|) / 32 + 1)[(i - |out|) % 32]
    decreases n - |out|
  {
    var next := lib.sha256(seed);
    var k := i - |out|;
    assert Rehashed(lib, seed, 1) == Rehashed(lib, next, 0) == next;
    if k < 32 {
      assert (out + next)[i] == next[k] && k / 32 == 0 && k % 32 == k;
      if |out + next| < n {
        assert out + next <= Filled(lib, next, out + next, n);
      }
    } else {
      FilledBytes(lib, next, out + next, n, i);
      assert (k - 32) / 32 + 1 == k / 32 && (k - 32) % 32 == k % 32;
    }
  }

  /** A prompt's activation is the chain of its hash's hashes, 32 bytes a link. */
  lemma PromptIsHashChain(lib: Library, prompt: string, n: nat, i: nat)
    requires Digests(lib) && i < n
    ensures Prompted(lib, prompt, n)[i] == Link(lib, prompt, i / 32)[i % 32]
  {
    FilledBytes(lib, lib.sha256(lib.utf8(prompt)), [], n, i);
  }

  function Link(lib: Library, prompt: string, n: nat): (r: seq<byte>)
    requires Digests(lib)
    ensures |r| == 32
  {
    Rehashed(lib, lib.sha256(lib.utf8(prompt)), n + 1)
  }

  // Shards in rank order, as every peer receives them with the plan.
  ghost function SetupOf(
    lib: Library, epoch: string, tokens: nat, prompt: string, shards: seq<InferShard>): Pipeline.Setup
    requires Digests(lib) && forall i :: 0 <= i < |shards| ==> shards[i].startLayer <= shards[i].endLayer
  {
    Pipeline.Setup(
      epoch, tokens, prompt,
      seq(|shards|, i requires 0 <= i < |shards| => shards[i].endLayer - shards[i].startLayer),
      seq(|shards|, i requires 0 <= i < |shards| => shards[i].estimated),
      s => Prompted(lib, s, Pipeline.ACTIVATION_BYTES),
      (p, l, t, r) => Computed(lib, p, l, t, r))
  }

  /**
   * Any accepted plan of at least two peers gives a pipeline that never fails or gets stuck: in
   * every run the workers' counts fall along the ring, one token is in flight while the frontend
   * waits, every accepted result is the composition of the planned stages on its seed, until
   * "done" exactly one step is possible, and "done" comes after 2R steps a token and one more.
   */
  lemma {:induction false} PlannedPipelineIsCorrect(
    lib: Library, peers: seq<InferPeer>, load: Load, s: seq<InferShard>,
    epoch: string, tokens: nat, prompt: string, steps: seq<Pipeline.Step>, r: nat)
    requires Digests(lib) && Accepts(peers, load) && IsPlan(s, Ordered(peers), load) && 0 < r < |s|
    ensures Contiguous(s, load.layers)
    ensures
      var c := SetupOf(lib, epoch, tokens, prompt, s);
      var x := Pipeline.Exec(c, steps);
      && !x.front.phase.Broken? && x.workers[r].failure.None?
      && |x.front.accepted| == x.front.completed <= tokens
      && (forall t :: 0 <= t < |x.front.accepted| ==> x.front.accepted[t] == Pipeline.Chain(c, t, |s| - 1))
      && x.front.completed <= x.workers[r].processed <= x.front.completed + 1
      && (r + 1 < |s| ==> x.workers[r + 1].processed <= x.workers[r].processed)
      && (x.front.phase == Pipeline.Done ==> x.front.completed == x.workers[r].processed == tokens)
    ensures
      var c := SetupOf(lib, epoch, tokens, prompt, s);
      var x := Pipeline.Exec(c, steps);
      && Pipeline.InFlight(x) == (if x.front.phase == Pipeline.Waiting then 1 else 0)
      && (x.front.phase != Pipeline.Done ==> exists step :: Pipeline.Enabled(c, x, step))
      && (forall a, b :: Pipeline.Enabled(c, x, a) && Pipeline.Enabled(c, x, b) ==> a == b)
      && (x.front.phase == Pipeline.Done <==> Pipeline.Effective(c, steps) == 2 * |s| * tokens + 1)
  {
    InferPlanIsSound(peers, load, s);
    var c := SetupOf(lib, epoch, tokens, prompt, s);
    assert Pipeline.Sized(c);
    hide Ordered, ShardAt, Accepts, IsPlan, Pipeline.Sized, Pipeline.Exec, Pipeline.Enabled, Pipeline.Effective;
    hide Pipeline.Chain, Pipeline.InFlight;
    Pipeline.PipelineIsCorrect(c, steps, r);
    Pipeline.OneTokenInFlight(c, steps);
    Pipeline.PipelineProgresses(c, steps);
  }
}
