/** The framing in which content is streamed to the antivirus service: a command, length-prefixed chunks, a zero length. */
module ScanFraming {
  import opened Wrappers

  newtype Octet = n: int | 0 <= n < 256

  type Octets = seq<Octet>

  const CHUNK_SIZE := 64 * 1024

  // The command "zINSTREAM" and the zero octet that ends it.
  const COMMAND: Octets := [0x7a, 0x49, 0x4e, 0x53, 0x54, 0x52, 0x45, 0x41, 0x4d, 0]

  // The big-endian form of a 32-bit length.
  function Length32(n: nat): (prefix: Octets)
    requires n < 0x1_0000_0000
    ensures |prefix| == 4
  {
    var high := n / 256;
    var higher := high / 256;
    [(higher / 256) as Octet, (higher % 256) as Octet, (high % 256) as Octet, (n % 256) as Octet]
  }

  function LengthOf(prefix: Octets): nat
    requires |prefix| == 4
  {
    ((prefix[0] as nat * 256 + prefix[1] as nat) * 256 + prefix[2] as nat) * 256 + prefix[3] as nat
  }

  lemma LengthRoundTrip(n: nat)
    requires n < 0x1_0000_0000
    ensures LengthOf(Length32(n)) == n
  {
  }

  // The chunks of the content from `offset` on, each behind its length, and the terminating zero.
  function Framed(content: Octets, offset: nat): Octets
    requires offset <= |content|
    decreases |content| - offset
  {
    if offset == |content| then Length32(0)
    else
      var next := if |content| - offset < CHUNK_SIZE then |content| else offset + CHUNK_SIZE;
      Length32(next - offset) + content[offset..next] + Framed(content, next)
  }

  function Stream(content: Octets): Octets {
    COMMAND + Framed(content, 0)
  }

  lemma Regroup(a: Octets, b: Octets, c: Octets)
    ensures a + (b + c) == (a + b) + c
  {
  }

  method Send(content: Octets) returns (stream: Octets)
    ensures stream == Stream(content)
  {
    hide Length32;
    stream := COMMAND;
    var offset := 0;
    while offset < |content|
      invariant offset <= |content|
      invariant stream + Framed(content, offset) == Stream(content)
    {
      var next := if |content| - offset < CHUNK_SIZE then |content| else offset + CHUNK_SIZE;
      var chunk := content[offset..next];
      Regroup(stream, Length32(|chunk|) + chunk, Framed(content, next));
      stream := stream + (Length32(|chunk|) + chunk);
      offset := next;
    }
    stream := stream + Length32(0);
  }

  // What the service reads: chunks until the first zero length, and what is left after it. None when a length or a
  // chunk is cut short.
  function Received(stream: Octets): Option<(Octets, Octets)>
    decreases |stream|
  {
    if |stream| < 4 then None
    else
      var n := LengthOf(stream[..4]);
      if n == 0 then Some(([], stream[4..]))
      else if |stream| < 4 + n then None
      else
        match Received(stream[4 + n..])
        case None => None
        case Some((content, left)) => Some((stream[4..4 + n] + content, left))
  }

  // What the service makes of a connection that begins with the command.
  function Scanned(stream: Octets): Option<(Octets, Octets)> {
    if COMMAND <= stream then Received(stream[|COMMAND|..]) else None
  }

  lemma {:induction false} ReceivedFrom(content: Octets, offset: nat, after: Octets)
    requires offset <= |content|
    ensures Received(Framed(content, offset) + after) == Some((content[offset..], after))
    decreases |content| - offset
  {
    hide Length32, LengthOf;
    var stream := Framed(content, offset) + after;
    if offset == |content| {
      LengthRoundTrip(0);
      assert stream[..4] == Length32(0) && stream[4..] == after && content[offset..] == [];
    } else {
      var next := if |content| - offset < CHUNK_SIZE then |content| else offset + CHUNK_SIZE;
      var chunk := content[offset..next];
      LengthRoundTrip(|chunk|);
      assert stream[..4] == Length32(|chunk|);
      assert stream[4..4 + |chunk|] == chunk;
      assert stream[4 + |chunk|..] == Framed(content, next) + after;
      ReceivedFrom(content, next, after);
      assert content[offset..] == chunk + content[next..];
    }
  }

  /** The stream is uniquely decodable: whatever follows it, the service reads exactly the content and stops there. */
  lemma ReceivesExactlyTheContent(content: Octets, after: Octets)
    ensures Scanned(Stream(content) + after) == Some((content, after))
  {
    assert (Stream(content) + after)[|COMMAND|..] == Framed(content, 0) + after;
    ReceivedFrom(content, 0, after);
  }

  /** No stream begins another one: different contents are told apart even when more data follows. */
  lemma StreamsArePrefixFree(a: Octets, b: Octets)
    requires Stream(a) <= Stream(b)
    ensures a == b
  {
    var after := Stream(b)[|Stream(a)|..];
    assert Stream(a) + after == Stream(b) == Stream(b) + [];
    ReceivesExactlyTheContent(a, after);
    ReceivesExactlyTheContent(b, []);
  }

  /** A stream begins with the ten characters of the command, and content with the length of its first chunk, which is 64
      KiB unless less is left. */
  lemma StreamBegins(content: Octets)
    ensures |Stream(content)| >= 14
    ensures forall k | 0 <= k < 10 :: Stream(content)[k] as int == "zINSTREAM\0"[k] as int
    ensures LengthOf(Stream(content)[10..14]) == if |content| < 65536 then |content| else 65536
  {
    hide Length32, LengthOf;
    var n := if |content| < 65536 then |content| else 65536;
    LengthRoundTrip(n);
    assert Framed(content, 0)[..4] == Length32(n);
    assert Stream(content)[10..14] == Framed(content, 0)[..4];
  }
}
