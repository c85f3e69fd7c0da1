/**
  Bytes on the wire: the byte type, an Option wrapper, the concatenation of
  received packets, and the 4-byte unsigned big-endian length prefix that
  `struct.unpack('>I', ...)` decodes.
 */
module Bytes {

  newtype byte = x: int | 0 <= x < 256

  datatype Option<T> = None | Some(value: T)

  /** The bytes of a sequence of packets, concatenated in order. */
  function Flatten(chunks: seq<seq<byte>>): (r: seq<byte>)
  {
    if chunks == [] then [] else chunks[0] + Flatten(chunks[1..])
  }

  lemma {:induction false} FlattenAppend(a: seq<seq<byte>>, b: seq<seq<byte>>)
    ensures Flatten(a + b) == Flatten(a) + Flatten(b)
  {
    if a == [] {
      assert a + b == b;
    } else {
      assert (a + b)[1..] == a[1..] + b;
      FlattenAppend(a[1..], b);
    }
  }

  /** The bytes of a sequence of packets are those of its first n followed by those of the rest. */
  lemma FlattenSplit(chunks: seq<seq<byte>>, n: nat)
    requires n <= |chunks|
    ensures Flatten(chunks) == Flatten(chunks[..n]) + Flatten(chunks[n..])
  {
    assert chunks == chunks[..n] + chunks[n..];
    FlattenAppend(chunks[..n], chunks[n..]);
  }

  const TwoTo32: nat := 0x1_0000_0000

  /** `struct.unpack('>I', b)[0]`: four bytes, most significant first. */
  function BigEndianUInt32(b: seq<byte>): (n: nat)
    requires |b| == 4
    ensures n < TwoTo32
  {
    ((b[0] as nat * 256 + b[1] as nat) * 256 + b[2] as nat) * 256 + b[3] as nat
  }

  /** `struct.pack('>I', n)`: what a peer writes in front of an n-byte message. */
  function EncodeUInt32(n: nat): (b: seq<byte>)
    requires n < TwoTo32
    ensures |b| == 4
  {
    [(n / 0x100_0000) as byte, (n / 0x1_0000 % 256) as byte,
     (n / 0x100 % 256) as byte, (n % 256) as byte]
  }

  lemma DecodeEncodeUInt32(n: nat)
    requires n < TwoTo32
    ensures BigEndianUInt32(EncodeUInt32(n)) == n
  {
    // n, n / 0x100 and n / 0x1_0000, each split into its quotient by 256 and its last byte
    var q1, q2, q3 := n / 0x100, n / 0x1_0000, n / 0x100_0000;
    assert n == q1 * 256 + n % 256;
    assert q1 == q2 * 256 + q1 % 256;
    assert q2 == q3 * 256 + q2 % 256;
    var b := EncodeUInt32(n);
    assert b[0] as nat * 256 + b[1] as nat == q2;
    assert q2 * 256 + b[2] as nat == q1;
  }

  lemma EncodeDecodeUInt32(b: seq<byte>)
    requires |b| == 4
    ensures EncodeUInt32(BigEndianUInt32(b)) == b
  {
    var n := BigEndianUInt32(b);
    var hi := (b[0] as nat * 256 + b[1] as nat) * 256 + b[2] as nat;
    assert n / 0x100 == hi && n % 256 == b[3] as nat;
    assert hi / 0x100 == b[0] as nat * 256 + b[1] as nat && hi % 256 == b[2] as nat;
    assert n / 0x1_0000 == hi / 0x100;
    assert n / 0x100_0000 == (b[0] as nat * 256 + b[1] as nat) / 0x100;
  }
}
