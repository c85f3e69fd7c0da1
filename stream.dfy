/**
  The accepted client socket as the receiving side sees it: the bytes the
  simulation has sent and that have not been read yet, kept as the chunks in
  which they arrived. `recv(bufsize)` hands back at most `bufsize` bytes of
  the oldest chunk; once the peer has closed and everything is read, it hands
  back the empty packet, again and again.
 */
module Stream {
  import opened Bytes

  ghost predicate NonEmptyChunks(chunks: seq<seq<byte>>)
  {
    forall i | 0 <= i < |chunks| :: chunks[i] != []
  }

  /** One `recv(bufsize)`: the packet it returns and the chunks left unread. */
  function RecvFrom(pending: seq<seq<byte>>, bufsize: nat): (r: (seq<byte>, seq<seq<byte>>))
    requires NonEmptyChunks(pending)
    ensures |r.0| <= bufsize
    ensures r.0 <= Flatten(pending)
    ensures Flatten(r.1) == Flatten(pending)[|r.0|..]
    ensures r.0 == [] <==> pending == [] || bufsize == 0
    ensures NonEmptyChunks(r.1)
  {
    if pending == [] || bufsize == 0 then ([], pending)
    else if |pending[0]| <= bufsize then (pending[0], pending[1..])
    else
      var rest := [pending[0][bufsize..]] + pending[1..];
      assert rest[1..] == pending[1..];
      (pending[0][..bufsize], rest)
  }

  /** The packets that repeated `recv(bufsize)` calls return until the peer has closed. */
  function Packets(pending: seq<seq<byte>>, bufsize: nat): (packets: seq<seq<byte>>)
    requires NonEmptyChunks(pending) && bufsize > 0
    decreases |Flatten(pending)|
  {
    if pending == [] then []
    else
      var (packet, rest) := RecvFrom(pending, bufsize);
      [packet] + Packets(rest, bufsize)
  }

  /** Repeated receives hand back every byte, in order, each packet non-empty and no longer than asked. */
  lemma {:induction false} PacketsCoverStream(pending: seq<seq<byte>>, bufsize: nat)
    requires NonEmptyChunks(pending) && bufsize > 0
    ensures Flatten(Packets(pending, bufsize)) == Flatten(pending)
    ensures forall i | 0 <= i < |Packets(pending, bufsize)| ::
              0 < |Packets(pending, bufsize)[i]| <= bufsize
    decreases |Flatten(pending)|
  {
    if pending != [] {
      var (packet, rest) := RecvFrom(pending, bufsize);
      PacketsCoverStream(rest, bufsize);
      var ps := Packets(pending, bufsize);
      assert ps == [packet] + Packets(rest, bufsize);
      assert ps[1..] == Packets(rest, bufsize);
      assert Flatten(ps) == packet + Flatten(rest);
      assert forall i | 1 <= i < |ps| :: ps[i] == Packets(rest, bufsize)[i - 1];
    }
  }

  /** The chunks left unread after n receives of `bufsize` (all of them read once the stream has ended). */
  function PendingAfter(pending: seq<seq<byte>>, bufsize: nat, n: nat): (rest: seq<seq<byte>>)
    requires NonEmptyChunks(pending) && bufsize > 0
    ensures NonEmptyChunks(rest)
    decreases n
  {
    if n == 0 || pending == [] then pending else PendingAfter(RecvFrom(pending, bufsize).1, bufsize, n - 1)
  }

  /** One more receive takes the next packet off what n receives left. */
  lemma {:induction false} PendingAfterStep(pending: seq<seq<byte>>, bufsize: nat, n: nat)
    requires NonEmptyChunks(pending) && bufsize > 0
    ensures PendingAfter(pending, bufsize, n + 1) == RecvFrom(PendingAfter(pending, bufsize, n), bufsize).1
    decreases n
  {
    if n > 0 && pending != [] {
      PendingAfterStep(RecvFrom(pending, bufsize).1, bufsize, n - 1);
    }
  }

  /** After n receives the connection delivers exactly the packets that follow the first n. */
  lemma {:induction false} PendingAfterPackets(pending: seq<seq<byte>>, bufsize: nat, n: nat)
    requires NonEmptyChunks(pending) && bufsize > 0
    requires n <= |Packets(pending, bufsize)|
    ensures Packets(PendingAfter(pending, bufsize, n), bufsize) == Packets(pending, bufsize)[n..]
    decreases n
  {
    if n > 0 {
      var (packet, next) := RecvFrom(pending, bufsize);
      assert Packets(pending, bufsize) == [packet] + Packets(next, bufsize);
      PendingAfterPackets(next, bufsize, n - 1);
    }
  }

  /**
    After n receives the connection delivers exactly the packets that follow
    the first n, and holds exactly the bytes those n did not return.
   */
  lemma {:induction false} PendingAfterRest(pending: seq<seq<byte>>, bufsize: nat, n: nat)
    requires NonEmptyChunks(pending) && bufsize > 0
    requires n <= |Packets(pending, bufsize)|
    ensures Packets(PendingAfter(pending, bufsize, n), bufsize) == Packets(pending, bufsize)[n..]
    ensures Flatten(pending) ==
            Flatten(Packets(pending, bufsize)[..n]) + Flatten(PendingAfter(pending, bufsize, n))
  {
    var ps := Packets(pending, bufsize);
    var rest := PendingAfter(pending, bufsize, n);
    PendingAfterPackets(pending, bufsize, n);
    assert Flatten(pending) == Flatten(ps) by {
      PacketsCoverStream(pending, bufsize);
    }
    assert Flatten(rest) == Flatten(ps[n..]) by {
      PacketsCoverStream(rest, bufsize);
    }
    FlattenSplit(ps, n);
  }

  /** Nothing is left exactly when no receive has a packet to return. */
  lemma NoPacketsNoPending(pending: seq<seq<byte>>, bufsize: nat)
    requires NonEmptyChunks(pending) && bufsize > 0
    ensures Packets(pending, bufsize) == [] <==> pending == []
  {
    if pending != [] {
      var (packet, rest) := RecvFrom(pending, bufsize);
      assert Packets(pending, bufsize) == [packet] + Packets(rest, bufsize);
    }
  }

  class Connection {
    /** Chunks received from the peer and not read yet; empty once the peer has closed and all is read. */
    var pending: seq<seq<byte>>

    ghost predicate Valid()
      reads this
    {
      NonEmptyChunks(pending)
    }

    /** The bytes still to be read. */
    ghost function Remaining(): (bytes: seq<byte>)
      reads this
    {
      Flatten(pending)
    }

    constructor (chunks: seq<seq<byte>>)
      requires NonEmptyChunks(chunks)
      ensures Valid() && pending == chunks
    {
      pending := chunks;
    }

    method Recv(bufsize: nat) returns (packet: seq<byte>)
      requires Valid()
      modifies this
      ensures Valid()
      ensures (packet, pending) == RecvFrom(old(pending), bufsize)
    {
      var r := RecvFrom(pending, bufsize);
      packet, pending := r.0, r.1;
    }
  }
}
