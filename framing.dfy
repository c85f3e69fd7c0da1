/**
  The length-prefixed framing of `recvall` and `recv_msg`: a 4-byte unsigned
  big-endian length L, then exactly L bytes. Both the packaged copy and its
  build copy define these two functions, word for word.
 */
module Framing {
  import opened Bytes
  import opened Stream

  /** What `recvall(sock, n)` yields when `stream` is what is left to read. */
  function TakeExactly(stream: seq<byte>, n: nat): (r: Option<seq<byte>>)
  {
    if n <= |stream| then Some(stream[..n]) else None
  }

  /** What `recv_msg(sock)` yields when `stream` is what is left to read. */
  function ReadFrame(stream: seq<byte>): (r: Option<seq<byte>>)
  {
    if |stream| < 4 then None
    else
      var len := BigEndianUInt32(stream[..4]);
      if 4 + len <= |stream| then Some(stream[4..4 + len]) else None
  }

  /** Receives until exactly n bytes are in; None as soon as a receive comes back empty. */
  method RecvAll(sock: Connection, n: nat) returns (data: Option<seq<byte>>)
    requires sock.Valid()
    modifies sock
    ensures sock.Valid()
    ensures data == TakeExactly(old(sock.Remaining()), n)
    ensures data.Some? ==> sock.Remaining() == old(sock.Remaining())[n..]
    ensures data.None? ==> sock.pending == []
  {
    var buf: seq<byte> := [];
    while |buf| < n
      invariant sock.Valid()
      invariant |buf| <= n
      invariant old(sock.Remaining()) == buf + sock.Remaining()
      decreases n - |buf|
    {
      var packet := sock.Recv(n - |buf|);
      if packet == [] {
        return None;
      }
      buf := buf + packet;
    }
    assert old(sock.Remaining())[..n] == buf;
    return Some(buf);
  }

  /** Reads one length-prefixed message; consumes exactly 4 + L bytes when it succeeds. */
  method RecvMsg(sock: Connection) returns (data: Option<seq<byte>>)
    requires sock.Valid()
    modifies sock
    ensures sock.Valid()
    ensures data == ReadFrame(old(sock.Remaining()))
    ensures data.Some? ==> sock.Remaining() == old(sock.Remaining())[4 + |data.value|..]
    ensures data.None? ==> sock.pending == []
  {
    ghost var stream := sock.Remaining();
    var rawLen := RecvAll(sock, 4);
    if rawLen.None? {
      return None;
    }
    var len := BigEndianUInt32(rawLen.value);
    data := RecvAll(sock, len);
    if 4 + len <= |stream| {
      assert stream[4..][..len] == stream[4..4 + len];
      assert stream[4..][len..] == stream[4 + len..];
    }
  }

  /** A frame written as prefix + body is read back as that body, whatever follows it. */
  lemma ReadFrameOfEncoded(body: seq<byte>, rest: seq<byte>)
    requires |body| < TwoTo32
    ensures ReadFrame(EncodeUInt32(|body|) + body + rest) == Some(body)
  {
    var s := EncodeUInt32(|body|) + body + rest;
    assert s[..4] == EncodeUInt32(|body|);
    DecodeEncodeUInt32(|body|);
    assert s[4..4 + |body|] == body;
  }

  /** Conversely, whatever is read as a frame was written as prefix + body. */
  lemma ReadFrameIsEncoded(stream: seq<byte>)
    requires ReadFrame(stream).Some?
    ensures var body := ReadFrame(stream).value;
            |body| < TwoTo32 &&
            stream == EncodeUInt32(|body|) + body + stream[4 + |body|..]
  {
    var body := ReadFrame(stream).value;
    EncodeDecodeUInt32(stream[..4]);
    assert stream == stream[..4] + stream[4..4 + |body|] + stream[4 + |body|..];
  }

  /** Two peers that send the same bytes in different chunks get the same message read. */
  method RecvMsgIgnoresChunking(a: seq<seq<byte>>, b: seq<seq<byte>>)
    returns (fromA: Option<seq<byte>>, fromB: Option<seq<byte>>)
    requires NonEmptyChunks(a) && NonEmptyChunks(b) && Flatten(a) == Flatten(b)
    ensures fromA == fromB
    ensures fromA == ReadFrame(Flatten(a))
  {
    var sockA := new Connection(a);
    fromA := RecvMsg(sockA);
    var sockB := new Connection(b);
    fromB := RecvMsg(sockB);
  }
}
