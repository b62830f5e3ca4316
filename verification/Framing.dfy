/** The byte grammar of the IPC stream: a 4-byte big-endian length, then a body of that many bytes.
    `ParseFrame` is one look at the receive buffer; the theorems say what any split of a stream
    into socket chunks decodes to. */
module Framing {
  type byte = x: int | 0 <= x < 256
  type Bytes = seq<byte>

  /** The receiver's limit on a body. */
  const MAX_FRAME: nat := 16 * 1024 * 1024
  /** `struct.pack(">I", n)` refuses n at or above this. */
  const LENGTH_LIMIT: nat := 0x1_0000_0000

  function PackLength(n: nat): (h: Bytes)
    requires n < LENGTH_LIMIT
    ensures |h| == 4
  {
    [n / 0x100_0000, n / 0x1_0000 % 256, n / 256 % 256, n % 256]
  }

  function UnpackLength(h: Bytes): (n: nat)
    requires |h| == 4
    ensures n < LENGTH_LIMIT
  {
    (h[0] as int) * 0x100_0000 + (h[1] as int) * 0x1_0000 + (h[2] as int) * 256 + h[3]
  }

  lemma UnpackPack(n: nat)
    requires n < LENGTH_LIMIT
    ensures UnpackLength(PackLength(n)) == n
  {
    var a := n / 256;
    var b := a / 256;
    assert n == a * 256 + n % 256 && a == b * 256 + a % 256 && b == b / 256 * 256 + b % 256;
    assert n / 0x1_0000 == b && n / 0x100_0000 == b / 256;
  }

  /** Headers stand in the order of their lengths, the first byte weighing most: the first byte in which two headers
      differ tells which length is smaller. */
  lemma HeadersOrderAsLengths(m: nat, n: nat, k: nat)
    requires m < LENGTH_LIMIT && n < LENGTH_LIMIT && k < 4
    requires PackLength(m)[..k] == PackLength(n)[..k] && PackLength(m)[k] < PackLength(n)[k]
    ensures m < n
  {
    var a, b := PackLength(m), PackLength(n);
    assert forall i :: 0 <= i < k ==> a[i] == a[..k][i] == b[..k][i] == b[i];
    UnpackPack(m);
    UnpackPack(n);
    assert m == a[0] as int * 0x100_0000 + a[1] as int * 0x1_0000 + a[2] as int * 256 + a[3] as int;
    assert n == b[0] as int * 0x100_0000 + b[1] as int * 0x1_0000 + b[2] as int * 256 + b[3] as int;
    hide PackLength;
  }

  /** A header has one meaning only: packing the length read from four bytes gives those bytes back. */
  lemma PackUnpack(h: Bytes)
    requires |h| == 4
    ensures PackLength(UnpackLength(h)) == h
  {
    var n := UnpackLength(h);
    assert n / 256 == (h[0] as int) * 0x1_0000 + (h[1] as int) * 256 + h[2];
    assert n / 0x1_0000 == (h[0] as int) * 256 + h[1];
  }

  function Frame(body: Bytes): Bytes
    requires |body| < LENGTH_LIMIT
  {
    PackLength(|body|) + body
  }

  datatype Parsed = NeedMore | TooLarge | Body(body: Bytes, rest: Bytes)

  function ParseFrame(buf: Bytes): Parsed {
    if |buf| < 4 then NeedMore
    else
      var length := UnpackLength(buf[..4]);
      if length > MAX_FRAME then TooLarge
      else if |buf| < 4 + length then NeedMore
      else Body(buf[4..4 + length], buf[4 + length..])
  }

  /** Parsing undoes framing, whatever follows, exactly for bodies within the receiver's limit. */
  lemma ParseOfFrame(body: Bytes, rest: Bytes)
    requires |body| < LENGTH_LIMIT
    ensures ParseFrame(Frame(body) + rest) == if |body| <= 16 * 1024 * 1024 then Body(body, rest) else TooLarge
  {
    var buf := Frame(body) + rest;
    UnpackPack(|body|);
    assert buf[..4] == PackLength(|body|);
    if |body| <= MAX_FRAME {
      assert buf[4..4 + |body|] == body;
      assert buf[4 + |body|..] == rest;
    }
  }

  /** ... and framing undoes parsing: a parsed body came from exactly its own frame. */
  lemma FrameOfParse(buf: Bytes)
    requires ParseFrame(buf).Body?
    ensures |ParseFrame(buf).body| <= MAX_FRAME
    ensures buf == Frame(ParseFrame(buf).body) + ParseFrame(buf).rest
  {
    PackUnpack(buf[..4]);
    var n := UnpackLength(buf[..4]);
    assert buf == buf[..4] + buf[4..4 + n] + buf[4 + n..];
  }

  /** More bytes never change what a complete frame, or an oversize header, was read as. */
  lemma ParseIsStable(buf: Bytes, more: Bytes)
    ensures ParseFrame(buf).Body? ==>
              ParseFrame(buf + more) == Body(ParseFrame(buf).body, ParseFrame(buf).rest + more)
    ensures ParseFrame(buf).TooLarge? ==> ParseFrame(buf + more).TooLarge?
  {
    if ParseFrame(buf).Body? {
      FrameOfParse(buf);
      var p := ParseFrame(buf);
      ParseOfFrame(p.body, p.rest + more);
      assert buf + more == Frame(p.body) + (p.rest + more);
    } else if ParseFrame(buf).TooLarge? {
      assert (buf + more)[..4] == buf[..4];
    }
  }

  datatype Drained = Drained(bodies: seq<Bytes>, rest: Bytes)

  /** Everything the parser takes out of a buffer before it wants more bytes or gets stuck. */
  function Drain(buf: Bytes): (d: Drained)
    decreases |buf|
  {
    match ParseFrame(buf)
    case Body(b, r) => var d := Drain(r); Drained([b] + d.bodies, d.rest)
    case _ => Drained([], buf)
  }

  /** Draining can be interrupted anywhere: drain a prefix, then drain the leftover with the suffix. */
  lemma {:induction false} DrainIsIncremental(a: Bytes, b: Bytes)
    ensures Drain(a + b) ==
            Drained(Drain(a).bodies + Drain(Drain(a).rest + b).bodies, Drain(Drain(a).rest + b).rest)
    decreases |a|
  {
    ParseIsStable(a, b);
    match ParseFrame(a) {
      case Body(x, r) =>
        DrainIsIncremental(r, b);
        assert [x] + (Drain(r).bodies + Drain(Drain(r).rest + b).bodies)
            == ([x] + Drain(r).bodies) + Drain(Drain(r).rest + b).bodies;
      case _ =>
    }
  }

  function Concat(chunks: seq<Bytes>): Bytes {
    if chunks == [] then [] else chunks[0] + Concat(chunks[1..])
  }

  /** A receiver that appends each chunk and drains after it. */
  function Feed(buf: Bytes, chunks: seq<Bytes>): Drained
    decreases |chunks|
  {
    if chunks == [] then Drained([], buf)
    else
      var d := Drain(buf + chunks[0]);
      var e := Feed(d.rest, chunks[1..]);
      Drained(d.bodies + e.bodies, e.rest)
  }

  lemma {:induction false} DrainRestIsDry(buf: Bytes)
    ensures Drain(Drain(buf).rest) == Drained([], Drain(buf).rest)
    decreases |buf|
  {
    match ParseFrame(buf) {
      case Body(x, r) => DrainRestIsDry(r);
      case _ =>
    }
  }

  lemma Associative<T>(a: seq<T>, b: seq<T>, c: seq<T>)
    ensures (a + b) + c == a + (b + c)
  {
  }

  /** How the network cuts the stream does not matter: any chunks decode to what their concatenation does. */
  lemma {:induction false} ChunkingDoesNotMatter(buf: Bytes, chunks: seq<Bytes>)
    requires Drain(buf).bodies == []
    ensures Feed(buf, chunks) == Drain(buf + Concat(chunks))
    decreases |chunks|
  {
    if chunks == [] {
      assert buf + [] == buf;
      DrainRestIsDry(buf);
    } else {
      var first := buf + chunks[0];
      DrainRestIsDry(first);
      ChunkingDoesNotMatter(Drain(first).rest, chunks[1..]);
      DrainIsIncremental(first, Concat(chunks[1..]));
      Associative(buf, chunks[0], Concat(chunks[1..]));
    }
  }

  ghost predicate Sendable(bodies: seq<Bytes>) {
    forall b :: b in bodies ==> |b| < LENGTH_LIMIT
  }

  ghost predicate Receivable(bodies: seq<Bytes>) {
    forall b :: b in bodies ==> |b| <= MAX_FRAME
  }

  function Stream(bodies: seq<Bytes>): Bytes
    requires forall b :: b in bodies ==> |b| < LENGTH_LIMIT
  {
    if bodies == [] then [] else Frame(bodies[0]) + Stream(bodies[1..])
  }

  lemma {:induction false} StreamAppend(a: seq<Bytes>, b: seq<Bytes>)
    requires Sendable(a) && Sendable(b)
    ensures Sendable(a + b)
    ensures Stream(a + b) == Stream(a) + Stream(b)
  {
    if a == [] {
      assert a + b == b;
    } else {
      StreamAppend(a[1..], b);
      assert (a + b)[0] == a[0] && (a + b)[1..] == a[1..] + b;
      Associative(Frame(a[0]), Stream(a[1..]), Stream(b));
    }
  }

  lemma DrainOneFrame(body: Bytes, rest: Bytes)
    requires |body| <= MAX_FRAME
    ensures Drain(Frame(body) + rest) == Drained([body] + Drain(rest).bodies, Drain(rest).rest)
  {
    ParseOfFrame(body, rest);
  }

  /** Frames within the limit come out one by one; whatever follows is drained as if it stood alone. */
  lemma {:induction false} DrainOfStream(bodies: seq<Bytes>, tail: Bytes)
    requires Receivable(bodies)
    ensures Sendable(bodies)
    ensures Drain(Stream(bodies) + tail) == Drained(bodies + Drain(tail).bodies, Drain(tail).rest)
  {
    if bodies == [] {
      assert Stream(bodies) + tail == tail;
      assert bodies + Drain(tail).bodies == Drain(tail).bodies;
    } else {
      var first, later := bodies[0], bodies[1..];
      DrainOfStream(later, tail);
      DrainOneFrame(first, Stream(later) + tail);
      Associative(Frame(first), Stream(later), tail);
      Associative([first], later, Drain(tail).bodies);
      assert bodies == [first] + later;
    }
  }

  /** An oversize header is never consumed: no later chunk lets anything through. */
  lemma OversizeIsStuckForever(buf: Bytes, chunks: seq<Bytes>)
    requires ParseFrame(buf).TooLarge?
    ensures Feed(buf, chunks).bodies == []
  {
    ParseIsStable(buf, Concat(chunks));
    ChunkingDoesNotMatter(buf, chunks);
  }

  lemma {:induction false} FirstOversize(bodies: seq<Bytes>) returns (before: seq<Bytes>, big: Bytes, after: seq<Bytes>)
    requires Sendable(bodies) && !Receivable(bodies)
    ensures bodies == before + ([big] + after)
    ensures Receivable(before) && MAX_FRAME < |big| < LENGTH_LIMIT && Sendable(after)
  {
    if |bodies[0]| > MAX_FRAME {
      before, big, after := [], bodies[0], bodies[1..];
    } else {
      assert bodies == [bodies[0]] + bodies[1..];
      before, big, after := FirstOversize(bodies[1..]);
      Associative([bodies[0]], before, [big] + after);
      before := [bodies[0]] + before;
    }
  }

  /** The exact guarantee: whatever the chunks, a sent stream arrives whole and leaves an empty buffer
      if and only if no body exceeds 16 MiB. The sender checks no such limit. */
  lemma RoundTripExactly(bodies: seq<Bytes>, chunks: seq<Bytes>)
    requires Sendable(bodies) && Concat(chunks) == Stream(bodies)
    ensures Feed([], chunks) == Drained(bodies, []) <==> Receivable(bodies)
  {
    ChunkingDoesNotMatter([], chunks);
    assert [] + Concat(chunks) == Stream(bodies);
    if Receivable(bodies) {
      DrainOfStream(bodies, []);
      assert Stream(bodies) + [] == Stream(bodies);
      assert bodies + [] == bodies;
    } else {
      var before, big, after := FirstOversize(bodies);
      OversizeStopsTheStream(before, big, after);
    }
  }

  /** Everything before the first oversize frame is delivered; that frame and all after it stay in the buffer. */
  lemma OversizeStopsTheStream(before: seq<Bytes>, big: Bytes, after: seq<Bytes>)
    requires Receivable(before) && Sendable(after) && MAX_FRAME < |big| < LENGTH_LIMIT
    ensures Sendable(before + ([big] + after))
    ensures Drain(Stream(before + ([big] + after))) == Drained(before, Stream([big] + after))
    ensures Stream([big] + after) != []
  {
    var tail := [big] + after;
    assert tail[0] == big && tail[1..] == after;
    StreamAppend(before, tail);
    ParseOfFrame(big, Stream(after));
    DrainOfStream(before, Stream(tail));
    assert before + [] == before;
  }

  /** The number of frames that are complete within the first `n` bytes of a stream. */
  function CompleteFrames(bodies: seq<Bytes>, n: nat): (k: nat)
    requires forall b :: b in bodies ==> |b| < LENGTH_LIMIT
    ensures k <= |bodies|
  {
    if bodies == [] || n < 4 + |bodies[0]| then 0
    else 1 + CompleteFrames(bodies[1..], n - 4 - |bodies[0]|)
  }

  /** `CompleteFrames` counts what it says: the first k frames fit in n bytes, the next one does not. */
  lemma {:induction false} CompleteFramesFit(bodies: seq<Bytes>, n: nat)
    requires Sendable(bodies) && n <= |Stream(bodies)|
    ensures var k := CompleteFrames(bodies, n);
            && |Stream(bodies[..k])| <= n
            && (k < |bodies| ==> n < |Stream(bodies[..k])| + 4 + |bodies[k]|)
            && (k == |bodies| ==> n == |Stream(bodies)|)
  {
    var k := CompleteFrames(bodies, n);
    if k != 0 {
      CompleteFramesFit(bodies[1..], n - 4 - |bodies[0]|);
      assert bodies[..k][1..] == bodies[1..][..k - 1];
    }
  }

  lemma IncompleteIsHeld(todo: seq<Bytes>, m: nat)
    requires Receivable(todo) && Sendable(todo) && m <= |Stream(todo)|
    requires todo != [] ==> m < 4 + |todo[0]|
    ensures Drain(Stream(todo)[..m]) == Drained([], Stream(todo)[..m])
  {
    if todo != [] && 4 <= m {
      UnpackPack(|todo[0]|);
      assert Stream(todo)[..m][..4] == PackLength(|todo[0]|);
    }
  }

  lemma PrefixOfConcat<T>(a: seq<T>, b: seq<T>, n: nat)
    requires |a| <= n <= |a| + |b|
    ensures (a + b)[..n] == a + b[..n - |a|]
    ensures (a + b)[|a|..n] == b[..n - |a|]
  {
  }

  lemma DrainWithHeld(done: seq<Bytes>, todo: seq<Bytes>, n: nat)
    requires Receivable(done) && Receivable(todo) && Sendable(done) && Sendable(todo) && Sendable(done + todo)
    requires |Stream(done)| <= n <= |Stream(done + todo)|
    requires todo != [] ==> n - |Stream(done)| < 4 + |todo[0]|
    ensures Drain(Stream(done + todo)[..n]) == Drained(done, Stream(done + todo)[|Stream(done)|..n])
  {
    var m := n - |Stream(done)|;
    StreamAppend(done, todo);
    PrefixOfConcat(Stream(done), Stream(todo), n);
    IncompleteIsHeld(todo, m);
    DrainOfStream(done, Stream(todo)[..m]);
    assert done + [] == done;
  }

  /** Before all bytes have arrived, exactly the complete frames have been delivered and the rest is held. */
  lemma PartialArrival(bodies: seq<Bytes>, n: nat)
    requires Receivable(bodies) && Sendable(bodies) && n <= |Stream(bodies)|
    ensures var k := CompleteFrames(bodies, n);
            && |Stream(bodies[..k])| <= n
            && Drain(Stream(bodies)[..n]) == Drained(bodies[..k], Stream(bodies)[|Stream(bodies[..k])|..n])
  {
    var k := CompleteFrames(bodies, n);
    var done, todo := bodies[..k], bodies[k..];
    CompleteFramesFit(bodies, n);
    assert bodies == done + todo;
    DrainWithHeld(done, todo, n);
  }

  /** Damage stays local: a frame inside the stream, however its body decodes, is one element of the
      output, and the frames on either side come out as if it had never been sent. */
  lemma DamageIsContained(before: seq<Bytes>, bad: Bytes, after: seq<Bytes>, chunks: seq<Bytes>)
    requires Receivable(before) && Receivable(after) && |bad| <= MAX_FRAME
    requires Sendable(before + [bad] + after) && Concat(chunks) == Stream(before + [bad] + after)
    ensures Feed([], chunks) == Drained(before + [bad] + after, [])
    ensures Drain(Stream(before + after)) == Drained(before + after, [])
  {
    assert Receivable(before + [bad] + after);
    RoundTripExactly(before + [bad] + after, chunks);
    DrainOfStream(before + after, []);
    assert Stream(before + after) + [] == Stream(before + after);
    assert (before + after) + [] == before + after;
  }
}
