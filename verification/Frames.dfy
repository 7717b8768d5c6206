/**
 Length-prefixed frames (cluster/src/frame.rs:1-42): four bytes of length, most significant
 first, then the body. A stream of bytes takes the place of the socket.
 */
module Frames {

  type Byte = b: nat | b < 256

  const MAX_FRAME_SIZE: nat := 16 * 1024 * 1024

  function BigEndian(n: nat): (r: seq<Byte>)
    requires n < 0x1_0000_0000
    ensures |r| == 4
  {
    [n / 256 / 256 / 256, n / 256 / 256 % 256, n / 256 % 256, n % 256]
  }

  function FromBigEndian(b: seq<Byte>): (r: nat)
    requires |b| == 4
    ensures r < 0x1_0000_0000
  {
    var b0: nat, b1: nat, b2: nat, b3: nat := b[0], b[1], b[2], b[3];
    ((b0 * 256 + b1) * 256 + b2) * 256 + b3
  }

  lemma LengthRoundTrip(n: nat)
    requires n < 0x1_0000_0000
    ensures FromBigEndian(BigEndian(n)) == n
  {
  }

  /** The most significant byte comes first. */
  lemma MostSignificantFirst(n: nat)
    requires n < 0x1_0000_0000
    ensures var b0: nat, b1: nat, b2: nat, b3: nat :=
              BigEndian(n)[0], BigEndian(n)[1], BigEndian(n)[2], BigEndian(n)[3];
            n == b0 * 0x100_0000 + b1 * 0x1_0000 + b2 * 0x100 + b3
  {
    LengthRoundTrip(n);
  }

  /** Every four bytes are the encoding of exactly one length. */
  lemma LengthIsCanonical(b: seq<Byte>)
    requires |b| == 4
    ensures BigEndian(FromBigEndian(b)) == b
  {
    var n := FromBigEndian(b);
    var b0: nat, b1: nat, b2: nat := b[0], b[1], b[2];
    assert n / 256 == (b0 * 256 + b1) * 256 + b2;
    assert n / 256 / 256 == b0 * 256 + b1;
  }

  // ----- specification -----

  function Frame(body: seq<Byte>): seq<Byte>
    requires |body| <= MAX_FRAME_SIZE
  {
    BigEndian(|body|) + body
  }

  datatype ReadResult = Got(body: seq<Byte>, rest: seq<Byte>) | TooLarge | EndOfStream

  function Read(s: seq<Byte>): ReadResult {
    if |s| < 4 then EndOfStream
    else if FromBigEndian(s[..4]) > MAX_FRAME_SIZE then TooLarge
    else if |s| < 4 + FromBigEndian(s[..4]) then EndOfStream
    else Got(s[4..4 + FromBigEndian(s[..4])], s[4 + FromBigEndian(s[..4])..])
  }

  ghost predicate Sendable(bodies: seq<seq<Byte>>) {
    forall i :: 0 <= i < |bodies| ==> |bodies[i]| <= MAX_FRAME_SIZE
  }

  function Stream(bodies: seq<seq<Byte>>): seq<Byte>
    requires Sendable(bodies)
  {
    if bodies == [] then [] else Frame(bodies[0]) + Stream(bodies[1..])
  }

  /** Frames read until something is missing or wrong, and what is then left. */
  function ReadAll(s: seq<Byte>): (seq<seq<Byte>>, seq<Byte>)
    decreases |s|
  {
    match Read(s)
    case Got(body, rest) => var (bodies, left) := ReadAll(rest); ([body] + bodies, left)
    case _ => ([], s)
  }

  // ----- round trips -----

  lemma ReadWritten(body: seq<Byte>, rest: seq<Byte>)
    requires |body| <= MAX_FRAME_SIZE
    ensures Read(Frame(body) + rest) == Got(body, rest)
  {
    LengthRoundTrip(|body|);
    var s := Frame(body) + rest;
    assert s[..4] == BigEndian(|body|);
    assert s[4..4 + |body|] == body && s[4 + |body|..] == rest;
  }

  /** The converse: a frame that reads successfully is the one frame with that body. */
  lemma ReadIsInverse(s: seq<Byte>, body: seq<Byte>, rest: seq<Byte>)
    requires Read(s) == Got(body, rest)
    ensures |body| <= MAX_FRAME_SIZE && s == Frame(body) + rest
  {
    LengthIsCanonical(s[..4]);
    assert s == s[..4] + s[4..4 + |body|] + s[4 + |body|..];
  }

  lemma ProperPrefix(body: seq<Byte>, n: nat)
    requires |body| <= MAX_FRAME_SIZE && n < |Frame(body)|
    ensures Read(Frame(body)[..n]) == EndOfStream
  {
    LengthRoundTrip(|body|);
    if n >= 4 {
      assert Frame(body)[..n][..4] == BigEndian(|body|);
    }
  }

  lemma ReadAllCons(body: seq<Byte>, rest: seq<Byte>)
    requires |body| <= MAX_FRAME_SIZE
    ensures ReadAll(Frame(body) + rest).0 == [body] + ReadAll(rest).0
    ensures ReadAll(Frame(body) + rest).1 == ReadAll(rest).1
  {
    ReadWritten(body, rest);
  }

  /** `s` is the beginning of `Stream(bodies)`: its frames, then less than one more frame. */
  ghost predicate Recovers(s: seq<Byte>, got: seq<seq<Byte>>, left: seq<Byte>, bodies: seq<seq<Byte>>) {
    && Sendable(bodies) && Sendable(got)
    && got <= bodies
    && s == Stream(got) + left
    && (if got == bodies then left == [] else |left| < |Frame(bodies[|got|])|)
  }

  lemma RecoversCons(body: seq<Byte>, s: seq<Byte>, got: seq<seq<Byte>>, left: seq<Byte>, bodies: seq<seq<Byte>>)
    requires |body| <= MAX_FRAME_SIZE && Recovers(s, got, left, bodies)
    ensures Recovers(Frame(body) + s, [body] + got, left, [body] + bodies)
  {
    StreamCons(body, got);
    StreamCons(body, bodies);
    assert Frame(body) + (Stream(got) + left) == Frame(body) + Stream(got) + left;
    assert got != bodies ==> ([body] + bodies)[|[body] + got|] == bodies[|got|];
    assert got != bodies ==> ([body] + got) != ([body] + bodies) by {
      assert |[body] + got| == 1 + |got| && |[body] + bodies| == 1 + |bodies|;
    }
  }

  /**
   However much of a stream of frames has arrived, what can be read is a prefix of the
   bodies, in order; what is left is less than the next frame; and the whole stream gives
   back all bodies with nothing left over.
   */
  lemma {:induction false} StreamRoundTrip(bodies: seq<seq<Byte>>, n: nat)
    requires Sendable(bodies) && n <= |Stream(bodies)|
    ensures Recovers(Stream(bodies)[..n], ReadAll(Stream(bodies)[..n]).0, ReadAll(Stream(bodies)[..n]).1, bodies)
    ensures n == |Stream(bodies)| ==> ReadAll(Stream(bodies)[..n]) == (bodies, [])
    decreases |bodies|, 1
  {
    var s := Stream(bodies);
    if bodies == [] {
      assert s[..n] == [];
    } else {
      var first := Frame(bodies[0]);
      if n < |first| {
        assert s[..n] == first[..n];
        ProperPrefix(bodies[0], n);
        assert first[..n] == [] + first[..n];
      } else {
        StreamRoundTripRest(bodies, n);
      }
    }
  }

  lemma {:induction false} StreamRoundTripRest(bodies: seq<seq<Byte>>, n: nat)
    requires Sendable(bodies) && bodies != [] && |Frame(bodies[0])| <= n <= |Stream(bodies)|
    ensures Recovers(Stream(bodies)[..n], ReadAll(Stream(bodies)[..n]).0, ReadAll(Stream(bodies)[..n]).1, bodies)
    ensures n == |Stream(bodies)| ==> ReadAll(Stream(bodies)[..n]) == (bodies, [])
    decreases |bodies|, 0
  {
    var first, tail := Frame(bodies[0]), bodies[1..];
    var m := n - |first|;
    var rest := Stream(tail)[..m];
    assert Stream(bodies)[..n] == first + rest;
    assert [bodies[0]] + tail == bodies;
    ReadAllCons(bodies[0], rest);
    StreamRoundTrip(tail, m);
    RecoversCons(bodies[0], rest, ReadAll(rest).0, ReadAll(rest).1, tail);
  }

  lemma StreamCons(body: seq<Byte>, bodies: seq<seq<Byte>>)
    requires |body| <= MAX_FRAME_SIZE && Sendable(bodies)
    ensures Sendable([body] + bodies) && Stream([body] + bodies) == Frame(body) + Stream(bodies)
  {
    assert ([body] + bodies)[1..] == bodies;
  }

  // ----- writing and reading in place -----

  /** One direction of a connection: bytes written and not yet read. */
  class Wire {
    var bytes: seq<Byte>

    constructor ()
      ensures bytes == []
    {
      bytes := [];
    }

    method WriteAll(more: seq<Byte>)
      modifies this
      ensures bytes == old(bytes) + more
    {
      bytes := bytes + more;
    }

    /** Takes exactly `n` bytes, or fails when there are fewer. */
    method ReadExact(n: nat) returns (ok: bool, out: seq<Byte>)
      modifies this
      ensures ok <==> n <= |old(bytes)|
      ensures ok ==> out == old(bytes)[..n] && bytes == old(bytes)[n..]
    {
      if n > |bytes| {
        bytes := [];
        return false, [];
      }
      ok, out := true, bytes[..n];
      bytes := bytes[n..];
    }

    /** A body that is too large is refused before anything is written. */
    method WriteFrame(body: seq<Byte>) returns (ok: bool)
      modifies this
      ensures ok <==> |body| <= MAX_FRAME_SIZE
      ensures bytes == if |body| <= MAX_FRAME_SIZE then old(bytes) + Frame(body) else old(bytes)
    {
      if |body| > MAX_FRAME_SIZE {
        return false;
      }
      WriteAll(BigEndian(|body|));
      WriteAll(body);
      assert bytes == old(bytes) + Frame(body);
      return true;
    }

    method ReadFrame() returns (ok: bool, body: seq<Byte>)
      modifies this
      ensures ok <==> Read(old(bytes)).Got?
      ensures ok ==> Read(old(bytes)) == Got(body, bytes)
    {
      var head;
      ok, head := ReadExact(4);
      if !ok {
        return false, [];
      }
      var len := FromBigEndian(head);
      if len > MAX_FRAME_SIZE {
        return false, [];
      }
      ghost var was := old(bytes);
      assert bytes == was[4..];
      ok, body := ReadExact(len);
      if ok {
        assert was[4..][..len] == was[4..4 + len] && was[4..][len..] == was[4 + len..];
      }
    }
  }
}
