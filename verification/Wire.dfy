/** The length-prefixed wire protocol: a 4-byte big-endian length, then the payload. */
module Wire {
  import opened Common

  const MAX_MESSAGE_SIZE: nat := 50 * 1024 * 1024

  /** The last `k` base-256 digits of `n`, most significant first: `to_be_bytes`. */
  function BigEndian(n: nat, k: nat): (b: seq<byte>)
    ensures |b| == k
  {
    if k == 0 then [] else BigEndian(n / 256, k - 1) + [n % 256]
  }

  /** `from_be_bytes`. */
  function FromBigEndian(b: seq<byte>): nat {
    if b == [] then 0 else FromBigEndian(b[..|b| - 1]) * 256 + b[|b| - 1]
  }

  function Pow256(k: nat): (p: nat)
    ensures p > 0
  {
    if k == 0 then 1 else 256 * Pow256(k - 1)
  }

  lemma {:induction false} FromBigEndianBound(b: seq<byte>)
    ensures FromBigEndian(b) < Pow256(|b|)
  {
    if b != [] {
      FromBigEndianBound(b[..|b| - 1]);
    }
  }

  /** A number that fits is read back unchanged. */
  lemma {:induction false} BigEndianRoundTrip(n: nat, k: nat)
    requires n < Pow256(k)
    ensures FromBigEndian(BigEndian(n, k)) == n
  {
    if k > 0 {
      BigEndianRoundTrip(n / 256, k - 1);
      var b := BigEndian(n, k);
      assert b[..|b| - 1] == BigEndian(n / 256, k - 1);
    }
  }

  /** Bytes are the digits of the number they stand for. */
  lemma {:induction false} HeaderIsUnique(b: seq<byte>)
    ensures BigEndian(FromBigEndian(b), |b|) == b
  {
    if b != [] {
      HeaderIsUnique(b[..|b| - 1]);
      assert b == b[..|b| - 1] + [b[|b| - 1]];
    }
  }

  lemma Powers()
    ensures Pow256(2) == 0x1_0000 && Pow256(4) == 0x1_0000_0000
  {
    assert Pow256(1) == 256 && Pow256(2) == 256 * Pow256(1) && Pow256(3) == 256 * Pow256(2) && Pow256(4) == 256 * Pow256(3);
  }

  /** The header tells the length exactly when 32 bits can hold it. */
  lemma HeaderRoundTrip(n: nat)
    ensures FromBigEndian(BigEndian(n, 4)) == n <==> n < 0x1_0000_0000
  {
    Powers();
    FromBigEndianBound(BigEndian(n, 4));
    if n < 0x1_0000_0000 {
      BigEndianRoundTrip(n, 4);
    }
  }

  function Frame(data: seq<byte>): seq<byte> {
    BigEndian(|data|, 4) + data
  }

  datatype Received = Message(data: seq<byte>, rest: seq<byte>) | Starved | TooLarge

  /** `recv_message` on a stream that holds exactly `b` before it ends. */
  function Receive(b: seq<byte>): Received {
    if |b| < 4 then Starved
    else
      var n := FromBigEndian(b[..4]);
      if n > MAX_MESSAGE_SIZE then TooLarge
      else if |b| - 4 < n then Starved
      else Message(b[4..4 + n], b[4 + n..])
  }

  /** A message survives the wire exactly when it fits the receiver's limit: a longer one is
      refused, and past 4 GiB the wrapped length never matches. */
  lemma RoundTripIff(data: seq<byte>, rest: seq<byte>)
    ensures Receive(Frame(data) + rest) == Message(data, rest) <==> |data| <= 52_428_800
    ensures 52_428_800 < |data| < 0x1_0000_0000 ==> Receive(Frame(data) + rest) == TooLarge
  {
    var b := Frame(data) + rest;
    HeaderRoundTrip(|data|);
    assert b[..4] == BigEndian(|data|, 4);
    if |data| <= MAX_MESSAGE_SIZE {
      assert b[4..4 + |data|] == data;
      assert b[4 + |data|..] == rest;
    }
  }

  /** Cutting a frame anywhere leaves the receiver waiting; it never yields a shorter message. */
  lemma CutFrameStarves(data: seq<byte>, k: nat)
    requires |data| <= MAX_MESSAGE_SIZE && k < |Frame(data)|
    ensures Receive(Frame(data)[..k]) == Starved
  {
    HeaderRoundTrip(|data|);
    if k >= 4 {
      assert Frame(data)[..k][..4] == BigEndian(|data|, 4);
    }
  }

  function FrameAll(chunks: seq<seq<byte>>): seq<byte>
    decreases |chunks|
  {
    if chunks == [] then [] else Frame(chunks[0]) + FrameAll(chunks[1..])
  }

  function Concat(chunks: seq<seq<byte>>): seq<byte>
    decreases |chunks|
  {
    if chunks == [] then [] else chunks[0] + Concat(chunks[1..])
  }

  lemma {:induction false} ConcatAppend(a: seq<seq<byte>>, b: seq<seq<byte>>)
    ensures Concat(a + b) == Concat(a) + Concat(b)
    decreases |a|
  {
    if a == [] {
      assert a + b == b;
    } else {
      assert (a + b)[1..] == a[1..] + b;
      ConcatAppend(a[1..], b);
    }
  }

  lemma {:induction false} FrameAllAppend(a: seq<seq<byte>>, b: seq<seq<byte>>)
    ensures FrameAll(a + b) == FrameAll(a) + FrameAll(b)
    decreases |a|
  {
    if a == [] {
      assert a + b == b;
    } else {
      assert (a + b)[1..] == a[1..] + b;
      FrameAllAppend(a[1..], b);
    }
  }

  lemma ConcatSnoc(a: seq<seq<byte>>, d: seq<byte>)
    ensures Concat(a + [d]) == Concat(a) + d
  {
    ConcatAppend(a, [d]);
    assert [d][1..] == [];
  }

  lemma FrameAllSnoc(a: seq<seq<byte>>, d: seq<byte>)
    ensures FrameAll(a + [d]) == FrameAll(a) + Frame(d)
  {
    FrameAllAppend(a, [d]);
    assert [d][1..] == [];
  }

  datatype Stream = Stream(data: seq<byte>, complete: bool)

  /** A peer that joins payloads until the first empty message, or until the stream fails it. */
  function ReadStream(b: seq<byte>): Stream
    decreases |b|
  {
    var r := Receive(b);
    if !r.Message? then Stream([], false)
    else if r.data == [] then Stream([], true)
    else Prepend(r.data, ReadStream(r.rest))
  }

  /** A message that is received was framed. */
  lemma ReceivedIsFramed(b: seq<byte>)
    requires Receive(b).Message?
    ensures b == Frame(Receive(b).data) + Receive(b).rest && |Receive(b).data| <= MAX_MESSAGE_SIZE
  {
    HeaderIsUnique(b[..4]);
  }

  ghost predicate Ended(b: seq<byte>, data: seq<byte>) {
    exists chunks, rest :: Chunks(chunks) && b == FrameAll(chunks) + Frame([]) + rest && data == Concat(chunks)
  }

  lemma {:induction false} CompleteIsEnded(b: seq<byte>)
    requires ReadStream(b).complete
    ensures Ended(b, ReadStream(b).data)
    decreases |b|
  {
    var r := Receive(b);
    ReceivedIsFramed(b);
    if r.data == [] {
      assert b == FrameAll([]) + Frame([]) + r.rest;
    } else {
      CompleteIsEnded(r.rest);
      var chunks, rest :| Chunks(chunks) && r.rest == FrameAll(chunks) + Frame([]) + rest && ReadStream(r.rest).data == Concat(chunks);
      OneMoreChunk(r.data, chunks, rest);
      assert b == FrameAll([r.data] + chunks) + Frame([]) + rest;
    }
  }

  lemma OneMoreChunk(data: seq<byte>, chunks: seq<seq<byte>>, rest: seq<byte>)
    requires 0 < |data| <= MAX_MESSAGE_SIZE && Chunks(chunks)
    ensures Chunks([data] + chunks) && Concat([data] + chunks) == data + Concat(chunks)
    ensures Frame(data) + (FrameAll(chunks) + Frame([]) + rest) == FrameAll([data] + chunks) + Frame([]) + rest
  {
    assert ([data] + chunks)[1..] == chunks;
  }

  /** The reader sees the end of the stream exactly when it was sent non-empty messages within the limit
      and then an empty one, and it has their contents. */
  lemma CompleteIff(b: seq<byte>, data: seq<byte>)
    ensures ReadStream(b) == Stream(data, true) <==> Ended(b, data)
  {
    if ReadStream(b).complete {
      CompleteIsEnded(b);
    }
    if Ended(b, data) {
      var chunks, rest :| Chunks(chunks) && b == FrameAll(chunks) + Frame([]) + rest && data == Concat(chunks);
      assert b == FrameAll(chunks) + (Frame([]) + rest);
      ReadChunks(chunks, Frame([]) + rest);
      RoundTripIff([], rest);
    }
  }

  predicate Chunks(chunks: seq<seq<byte>>) {
    forall i :: 0 <= i < |chunks| ==> 0 < |chunks[i]| <= MAX_MESSAGE_SIZE
  }

  function Prepend(data: seq<byte>, s: Stream): Stream {
    Stream(data + s.data, s.complete)
  }

  lemma ReadChunk(data: seq<byte>, tail: seq<byte>)
    requires 0 < |data| <= MAX_MESSAGE_SIZE
    ensures ReadStream(Frame(data) + tail) == Prepend(data, ReadStream(tail))
  {
    RoundTripIff(data, tail);
  }

  lemma ReadMore(data: seq<byte>, joined: seq<byte>, more: seq<byte>, end: Stream)
    requires 0 < |data| <= MAX_MESSAGE_SIZE && ReadStream(more) == Prepend(joined, end)
    ensures ReadStream(Frame(data) + more) == Prepend(data + joined, end)
  {
    ReadChunk(data, more);
    assert data + (joined + end.data) == data + joined + end.data;
  }

  /** Non-empty messages are read back one by one, whatever follows them. */
  lemma {:induction false} ReadChunks(chunks: seq<seq<byte>>, tail: seq<byte>)
    requires Chunks(chunks)
    ensures ReadStream(FrameAll(chunks) + tail) == Prepend(Concat(chunks), ReadStream(tail))
    decreases |chunks|
  {
    if chunks == [] {
      assert FrameAll(chunks) + tail == tail;
    } else {
      ReadChunks(chunks[1..], tail);
      ReadMore(chunks[0], Concat(chunks[1..]), FrameAll(chunks[1..]) + tail, ReadStream(tail));
      assert FrameAll(chunks) + tail == Frame(chunks[0]) + (FrameAll(chunks[1..]) + tail);
    }
  }

  /** The first `k` bytes, or all of them. */
  function Cut(b: seq<byte>, k: nat): (r: seq<byte>)
    ensures r <= b && |r| == if k < |b| then k else |b|
  {
    if k < |b| then b[..k] else b
  }

  /** A last frame that may be cut short ends the stream only if it is empty and whole. */
  lemma ReadLast(data: seq<byte>, k: nat)
    requires |data| <= MAX_MESSAGE_SIZE
    ensures var s := ReadStream(Cut(Frame(data), k));
      s == if k < |Frame(data)| then Stream([], false) else Stream(data, data == [])
  {
    if k < |Frame(data)| {
      CutFrameStarves(data, k);
    } else {
      RoundTripIff(data, []);
      assert Frame(data) + [] == Frame(data);
    }
  }
}
