/** What a stream socket may do to the bytes sent over it: cut them anywhere, and fall silent. */
module Sockets {
  import opened Base

  // What successive waits for input bring: some bytes, or none before the deadline.
  datatype Arrival = Bytes(chunk: seq<byte>) | Silence

  predicate NoEmptyChunks(arrivals: seq<Arrival>) {
    forall a :: a in arrivals && a.Bytes? ==> a.chunk != []
  }

  // All bytes still to come.
  function Flat(arrivals: seq<Arrival>): seq<byte> {
    if arrivals == [] then []
    else (if arrivals[0].Bytes? then arrivals[0].chunk else []) + Flat(arrivals[1..])
  }

  // The bytes that come before the next silence or the end of the stream.
  function Prompt(arrivals: seq<Arrival>): seq<byte> {
    if arrivals == [] || arrivals[0].Silence? then [] else arrivals[0].chunk + Prompt(arrivals[1..])
  }

  lemma {:induction false} UnbrokenIsPrompt(arrivals: seq<Arrival>)
    requires Silence !in arrivals
    ensures Prompt(arrivals) == Flat(arrivals)
  {
    if arrivals != [] {
      assert arrivals[0] in arrivals;
      UnbrokenIsPrompt(arrivals[1..]);
    }
  }

  // Reading part of the first chunk leaves the rest of it in front.
  lemma CutFirst(arrivals: seq<Arrival>, n: nat)
    requires NoEmptyChunks(arrivals) && arrivals != [] && arrivals[0].Bytes? && 0 < n < |arrivals[0].chunk|
    ensures
      var head, after := arrivals[0].chunk[..n], [Bytes(arrivals[0].chunk[n..])] + arrivals[1..];
      && NoEmptyChunks(after)
      && head + Flat(after) == Flat(arrivals) && head + Prompt(after) == Prompt(arrivals)
      && (Silence !in arrivals ==> Silence !in after)
  {
    var chunk, tail := arrivals[0].chunk, arrivals[1..];
    assert arrivals == [Bytes(chunk)] + tail;
    InFront(chunk, tail);
    InFront(chunk[n..], tail);
    hide Flat, Prompt;
    assert chunk == chunk[..n] + chunk[n..];
    Associates(chunk[..n], chunk[n..], Flat(tail));
    Associates(chunk[..n], chunk[n..], Prompt(tail));
  }

  lemma InFront(chunk: seq<byte>, tail: seq<Arrival>)
    ensures Flat([Bytes(chunk)] + tail) == chunk + Flat(tail)
    ensures Prompt([Bytes(chunk)] + tail) == chunk + Prompt(tail)
  {
    assert ([Bytes(chunk)] + tail)[1..] == tail;
  }

  lemma Associates(a: seq<byte>, b: seq<byte>, c: seq<byte>)
    ensures a + (b + c) == (a + b) + c
  {
  }

  class Socket {
    var arrivals: seq<Arrival>

    ghost predicate Valid()
      reads this
    {
      NoEmptyChunks(arrivals)
    }

    constructor (arrivals: seq<Arrival>)
      requires NoEmptyChunks(arrivals)
      ensures Valid() && this.arrivals == arrivals
    {
      this.arrivals := arrivals;
    }

    /** Waits and reads at most n bytes; nothing arrives on silence and at the end. */
    method Recv(n: nat) returns (chunk: seq<byte>)
      requires Valid() && n > 0
      modifies this
      ensures Valid() && |chunk| <= n
      ensures chunk + Flat(arrivals) == old(Flat(arrivals))
      ensures chunk == [] <==> old(Prompt(arrivals)) == []
      ensures chunk != [] ==> chunk + Prompt(arrivals) == old(Prompt(arrivals))
      ensures Silence !in old(arrivals) ==> Silence !in arrivals
      ensures |arrivals| <= |old(arrivals)|
      ensures chunk == [] ==> arrivals == if old(arrivals) == [] then [] else old(arrivals)[1..]
    {
      if arrivals == [] {
        return [];
      }
      var first := arrivals[0];
      assert first in arrivals;
      if first.Silence? {
        arrivals := arrivals[1..];
        return [];
      }
      if |first.chunk| <= n {
        arrivals := arrivals[1..];
        return first.chunk;
      }
      CutFirst(arrivals, n);
      arrivals := [Bytes(first.chunk[n..])] + arrivals[1..];
      return first.chunk[..n];
    }

    /** Exactly n bytes, or nothing if silence or the end comes first: the bytes read are then lost. */
    method RecvExact(n: nat) returns (r: Option<seq<byte>>)
      requires Valid()
      modifies this
      ensures Valid()
      ensures r.Some? <==> n <= |old(Prompt(arrivals))|
      ensures r.Some? ==> r.value == old(Prompt(arrivals))[..n] && Prompt(arrivals) == old(Prompt(arrivals))[n..]
    {
      hide Flat, Prompt;
      ghost var all := Prompt(arrivals);
      var buf := [];
      while |buf| < n
        invariant Valid() && |buf| <= n
        invariant buf + Prompt(arrivals) == all
        decreases n - |buf|
      {
        var chunk := Recv(n - |buf|);
        if chunk == [] {
          return None;
        }
        buf := buf + chunk;
      }
      return Some(buf);
    }
  }
}
