/** The client side of the IPC stream: stamping and framing what is sent, reassembling what is received,
    and matching replies to requests. */
module TcpTransport {
  import opened Common
  import opened Framing
  import opened Envelope

  datatype ConnectionState = DISCONNECTED | CONNECTING | CONNECTED | HEALTHY | DEGRADED | RECOVERING

  /** One answer of the socket to `recv`: bytes (none of them means the peer closed), a timeout, or an OSError. */
  datatype SockEvent = Data(chunk: Bytes) | Idle | Reset

  datatype SendResult = Sent | SendNotConnected | LengthUnpackable | SendFailed

  datatype Received =
    | Got(message: Message)
    | Nothing
    | NotConnected
    | RecvFailed
    | PeerClosed
    | FrameTooLarge
    | Malformed
    | UncaughtTypeError

  datatype Reply = Replied(message: Message) | NotSent(why: SendResult) | TimedOut | Failed(how: Received)

  function DataOf(events: seq<SockEvent>): Bytes {
    if events == [] then []
    else (if events[0].Data? then events[0].chunk else []) + DataOf(events[1..])
  }

  lemma {:induction false} DataOfAppend(a: seq<SockEvent>, b: seq<SockEvent>)
    ensures DataOf(a + b) == DataOf(a) + DataOf(b)
  {
    if a == [] {
      assert a + b == b;
    } else {
      DataOfAppend(a[1..], b);
      assert (a + b)[0] == a[0] && (a + b)[1..] == a[1..] + b;
      Associative(if a[0].Data? then a[0].chunk else [], DataOf(a[1..]), DataOf(b));
    }
  }

  /** What the socket had delivered after its first `n` answers, on top of what was buffered. */
  function Arrived(buffer: Bytes, events: seq<SockEvent>, n: nat): Bytes
    requires n <= |events|
  {
    buffer + DataOf(events[..n])
  }

  lemma ArrivedInTwoSteps(buffer: Bytes, events: seq<SockEvent>, n: nat, m: nat)
    requires n + m <= |events|
    ensures Arrived(buffer, events, 0) == buffer
    ensures Arrived(buffer, events, n + m) == Arrived(Arrived(buffer, events, n), events[n..], m)
    ensures events[n + m..] == events[n..][m..]
  {
    assert events[..n + m] == events[..n] + events[n..][..m];
    DataOfAppend(events[..n], events[n..][..m]);
    Associative(buffer, DataOf(events[..n]), DataOf(events[n..][..m]));
  }

  lemma ArrivedAtFirst(buffer: Bytes, events: seq<SockEvent>)
    ensures Arrived(buffer, events, 0) == buffer
    ensures events != [] ==> Arrived(buffer, events, 1) == if events[0].Data? then buffer + events[0].chunk else buffer
  {
    if events != [] {
      assert events[..1] == [events[0]];
      assert DataOf([events[0]]) == if events[0].Data? then events[0].chunk else [];
    }
  }

  lemma StreamOfNothing(rest: Bytes)
    ensures Stream([]) + rest == rest
  {
  }

  lemma ArrivedAfter(done: Bytes, buffer: Bytes, events: seq<SockEvent>, n: nat)
    requires n <= |events|
    ensures Arrived(done + buffer, events, n) == done + Arrived(buffer, events, n)
  {
    Associative(done, buffer, DataOf(events[..n]));
  }

  /** No frame could be read before the n-th answer of the socket. */
  ghost predicate DryUntil(buffer: Bytes, events: seq<SockEvent>, n: nat)
    requires n <= |events|
  {
    forall j :: 0 <= j < n ==> ParseFrame(Arrived(buffer, events, j)).NeedMore?
  }

  lemma NothingArrivedWith(buffer: Bytes, events: seq<SockEvent>, n: nat)
    requires 0 < n <= |events| && events[n - 1] in {Reset, Data([])}
    ensures Arrived(buffer, events, n) == Arrived(buffer, events, n - 1)
  {
    assert events[..n] == events[..n - 1] + [events[n - 1]];
    DataOfAppend(events[..n - 1], [events[n - 1]]);
    assert DataOf([events[n - 1]]) == [];
  }

  /** A message is numbered by the sender only if it carries no number yet. */
  function Stamp(m: Message, sequence: int): Message {
    if m.sequence == 0 then m.(sequence := sequence) else m
  }

  predicate Matches(m: Message, target: string) {
    m.requestId == target || m.correlationId == Str(target)
  }

  /** Bodies that decode to messages neither of whose two ids is the one waited for. */
  ghost predicate Unrelated(py: Python, target: string, bodies: seq<Bytes>) {
    forall i :: 0 <= i < |bodies| ==>
      && Decode(py, bodies[i]).Good?
      && Decode(py, bodies[i]).value.requestId != target
      && Decode(py, bodies[i]).value.correlationId != Str(target)
  }

  /** A stamp fills in a missing number, is never overwritten by a later one, and touches nothing else. */
  lemma StampedOnce(m: Message, a: int, b: int)
    ensures Stamp(m, a) == m.(sequence := Stamp(m, a).sequence)
    ensures m.sequence == 0 ==> Stamp(m, a).sequence == a
    ensures m.sequence != 0 ==> Stamp(m, a) == m
    ensures a != 0 ==> Stamp(Stamp(m, a), b) == Stamp(m, a)
  {
  }

  /** How one look at the buffer reads it, byte for byte: nothing before a header and its body are there, too large
      from the header alone, and otherwise what the body decodes to; only a whole frame leaves the buffer. */
  lemma LooksExactly(py: Python, buf: Bytes)
    requires |buf| >= 4
    ensures var length: int := 0x100_0000 * (buf[0] as int) + 0x1_0000 * (buf[1] as int) + 0x100 * (buf[2] as int)
                               + (buf[3] as int);
            var r := ParseResult(py, buf);
            && (r.FrameTooLarge? <==> length > 16 * 1024 * 1024)
            && (r.Nothing? <==> length <= 16 * 1024 * 1024 && |buf| < 4 + length)
            && (r.Nothing? || r.FrameTooLarge? ==> ParseLeftover(buf) == buf)
            && (!r.Nothing? && !r.FrameTooLarge? ==>
                  && ParseLeftover(buf) == buf[4 + length..]
                  && (Decode(py, buf[4..4 + length]).Good? ==> r == Got(Decode(py, buf[4..4 + length]).value))
                  && (Decode(py, buf[4..4 + length]).ValueError? ==> r == Malformed)
                  && (Decode(py, buf[4..4 + length]).TypeError? ==> r == UncaughtTypeError))
  {
    hide Decode;
    assert forall i :: 0 <= i < 4 ==> buf[..4][i] == buf[i];
  }


  /** How one `_try_parse` reads a buffer. */
  function ParseResult(py: Python, buf: Bytes): Received {
    match ParseFrame(buf)
    case NeedMore => Nothing
    case TooLarge => FrameTooLarge
    case Body(body, _) =>
      match Decode(py, body)
      case Good(m) => Got(m)
      case ValueError => Malformed
      case TypeError => UncaughtTypeError
  }

  function ParseLeftover(buf: Bytes): Bytes {
    if ParseFrame(buf).Body? then ParseFrame(buf).rest else buf
  }

  class TcpTransport {
    const py: Python
    var hasSocket: bool
    var state: ConnectionState
    var sequence: nat
    var recvBuffer: Bytes
    /** What the socket will answer to the coming `recv` calls; after the last answer it only times out. */
    var inbox: seq<SockEvent>
    /** Every byte handed to the socket so far. */
    var outbox: Bytes

    constructor (py: Python, injected: bool, inbox: seq<SockEvent>)
      ensures this.py == py && hasSocket == injected && state == DISCONNECTED
      ensures sequence == 0 && recvBuffer == [] && outbox == [] && this.inbox == inbox
    {
      this.py, hasSocket, state := py, injected, DISCONNECTED;
      sequence, recvBuffer, outbox := 0, [], [];
      this.inbox := inbox;
    }

    method Connect(dialSucceeds: bool) returns (ok: bool)
      modifies this
      ensures sequence == old(sequence) && inbox == old(inbox) && outbox == old(outbox)
      ensures old(state) in {CONNECTED, HEALTHY} ==>
                ok && state == old(state) && hasSocket == old(hasSocket) && recvBuffer == old(recvBuffer)
      ensures old(state) !in {CONNECTED, HEALTHY} ==>
                && ok == hasSocket == (old(hasSocket) || dialSucceeds)
                && state == (if ok then CONNECTED else DISCONNECTED)
                && recvBuffer == (if ok then [] else old(recvBuffer))
    {
      if state in {CONNECTED, HEALTHY} {
        return true;
      }
      state := CONNECTING;
      if !hasSocket {
        if !dialSucceeds {
          state := DISCONNECTED;
          return false;
        }
        hasSocket := true;
      }
      state := CONNECTED;
      recvBuffer := [];
      ok := true;
    }

    method Disconnect()
      modifies this
      ensures !hasSocket && state == DISCONNECTED && recvBuffer == []
      ensures sequence == old(sequence) && inbox == old(inbox) && outbox == old(outbox)
    {
      hasSocket := false;
      state := DISCONNECTED;
      recvBuffer := [];
    }

    /** `written` is how many bytes a failing `sendall` got out; None when it succeeds. */
    method Send(message: Message, written: Option<nat>) returns (r: SendResult, stamped: Message)
      modifies this
      ensures hasSocket == old(hasSocket) && recvBuffer == old(recvBuffer) && inbox == old(inbox)
      ensures r.SendNotConnected? <==> !old(hasSocket) || old(state) == DISCONNECTED
      ensures r.SendNotConnected? ==> stamped == message && sequence == old(sequence)
      ensures !r.SendNotConnected? ==> sequence == old(sequence) + 1 && stamped == Stamp(message, sequence)
      ensures r.Sent? || r.SendFailed? ==> |Encode(py, stamped)| < LENGTH_LIMIT
      ensures r.Sent? ==> outbox == old(outbox) + Frame(Encode(py, stamped)) && state == old(state)
      ensures r.LengthUnpackable? ==> |Encode(py, stamped)| >= LENGTH_LIMIT
      ensures r.SendFailed? ==> state == DISCONNECTED
      ensures r.SendFailed? ==> old(outbox) <= outbox <= old(outbox) + Frame(Encode(py, stamped))
      ensures r.SendNotConnected? || r.LengthUnpackable? ==> outbox == old(outbox) && state == old(state)
      ensures r.Sent? ==> written.None?
      ensures r.SendFailed? ==> written.Some?
    {
      stamped := message;
      if !hasSocket || state == DISCONNECTED {
        return SendNotConnected, message;
      }
      sequence := sequence + 1;
      if message.sequence == 0 {
        stamped := message.(sequence := sequence);
      }
      var raw := Encode(py, stamped);
      if |raw| >= LENGTH_LIMIT {
        return LengthUnpackable, stamped;
      }
      var frame := Frame(raw);
      match written {
        case None =>
          outbox := outbox + frame;
          r := Sent;
        case Some(n) =>
          outbox := outbox + frame[..if n < |frame| then n else |frame|];
          state := DISCONNECTED;
          r := SendFailed;
      }
    }

    method TryParse() returns (r: Received)
      modifies this
      ensures r == ParseResult(py, old(recvBuffer)) && recvBuffer == ParseLeftover(old(recvBuffer))
      ensures r.Nothing? || r.FrameTooLarge? ==> recvBuffer == old(recvBuffer)
      ensures r.Got? || r.Malformed? || r.UncaughtTypeError? ==>
                |ParseFrame(old(recvBuffer)).body| <= MAX_FRAME
                && old(recvBuffer) == Frame(ParseFrame(old(recvBuffer)).body) + recvBuffer
      ensures hasSocket == old(hasSocket) && state == old(state) && sequence == old(sequence)
      ensures inbox == old(inbox) && outbox == old(outbox)
    {
      if |recvBuffer| < 4 {
        return Nothing;
      }
      var length := UnpackLength(recvBuffer[..4]);
      if length > MAX_FRAME {
        return FrameTooLarge;
      }
      if |recvBuffer| < 4 + length {
        return Nothing;
      }
      FrameOfParse(recvBuffer);
      var body := recvBuffer[4..4 + length];
      recvBuffer := recvBuffer[4 + length..];
      match Decode(py, body) {
        case Good(m) => r := Got(m);
        case ValueError => r := Malformed;
        case TypeError => r := UncaughtTypeError;
      }
    }

    /** One `recv` of at most one chunk: None to look at the buffer again, Some to give up. */
    method RecvChunk() returns (failure: Option<Received>, ghost n: nat)
      modifies this
      ensures n <= |old(inbox)| && inbox == old(inbox)[n..]
      ensures n == if old(inbox) == [] then 0 else 1
      ensures recvBuffer == Arrived(old(recvBuffer), old(inbox), n)
      ensures failure == Some(RecvFailed) <==> n == 1 && old(inbox)[0].Reset?
      ensures failure == Some(PeerClosed) <==> n == 1 && old(inbox)[0] == Data([])
      ensures failure in {None, Some(RecvFailed), Some(PeerClosed)}
      ensures state == if failure.Some? then DISCONNECTED else old(state)
      ensures hasSocket == old(hasSocket) && sequence == old(sequence) && outbox == old(outbox)
    {
      hide Arrived, DataOf;
      failure, n := None, 0;
      ArrivedAtFirst(recvBuffer, inbox);
      if inbox == [] {
        return;
      }
      var event := inbox[0];
      inbox := inbox[1..];
      n := 1;
      match event {
        case Idle =>
        case Reset =>
          state := DISCONNECTED;
          failure := Some(RecvFailed);
        case Data(chunk) =>
          if chunk == [] {
            state := DISCONNECTED;
            failure := Some(PeerClosed);
          } else {
            recvBuffer := recvBuffer + chunk;
          }
      }
    }

    /** `budget` is the number of deadline checks that still find time left. The answer is read off the bytes
        that had arrived after `n` answers of the socket, and after no smaller number was there an answer. */
    method Receive(budget: nat) returns (r: Received, left: nat, ghost n: nat)
      modifies this
      ensures left <= budget && sequence == old(sequence) && outbox == old(outbox) && hasSocket == old(hasSocket)
      ensures r.NotConnected? <==> !old(hasSocket)
      ensures n <= |old(inbox)| && inbox == old(inbox)[n..]
      ensures r.NotConnected? ==> n == 0 && recvBuffer == old(recvBuffer)
      ensures !r.NotConnected? ==> recvBuffer == ParseLeftover(Arrived(old(recvBuffer), old(inbox), n))
      ensures !r.NotConnected? && !r.RecvFailed? && !r.PeerClosed? ==>
                ParseResult(py, Arrived(old(recvBuffer), old(inbox), n)) == r
      ensures r.Nothing? ==> left == 0
      ensures r.RecvFailed? || r.PeerClosed? ==>
                0 < n && old(inbox)[n - 1] == (if r.RecvFailed? then Reset else Data([]))
      ensures r.Nothing? || r.FrameTooLarge? || r.RecvFailed? || r.PeerClosed? ==>
                recvBuffer == Arrived(old(recvBuffer), old(inbox), n)
      ensures DryUntil(old(recvBuffer), old(inbox), n)
      ensures state == if r.RecvFailed? || r.PeerClosed? then DISCONNECTED else old(state)
    {
      hide ParseFrame, Decode, Arrived;
      left, n := budget, 0;
      if !hasSocket {
        return NotConnected, left, n;
      }
      ghost var buffer0, inbox0 := recvBuffer, inbox;
      ArrivedInTwoSteps(buffer0, inbox0, 0, 0);
      while true
        invariant left <= budget && sequence == old(sequence) && outbox == old(outbox)
        invariant hasSocket && state == old(state)
        invariant n <= |inbox0| && inbox == inbox0[n..]
        invariant recvBuffer == Arrived(buffer0, inbox0, n)
        invariant DryUntil(buffer0, inbox0, n)
        decreases left
      {
        r := TryParse();
        if !r.Nothing? {
          return;
        }
        if left == 0 {
          return;
        }
        left := left - 1;
        ghost var used;
        var failure;
        failure, used := RecvChunk();
        ArrivedInTwoSteps(buffer0, inbox0, n, used);
        n := n + used;
        if failure.Some? {
          NothingArrivedWith(buffer0, inbox0, n);
          return failure.value, left, n;
        }
      }
    }

    /** Sends, then discards unrelated messages until one answers. `frames` are the bodies it took out of
        the stream, in order: all but the last are unrelated, and what follows them is still buffered. */
    method Request(message: Message, written: Option<nat>, budget: nat)
      returns (r: Reply, ghost frames: seq<Bytes>, ghost n: nat)
      modifies this
      ensures r.NotSent? ==> frames == [] && n == 0 && recvBuffer == old(recvBuffer) && inbox == old(inbox)
      ensures n <= |old(inbox)| && inbox == old(inbox)[n..]
      ensures Receivable(frames) && Sendable(frames)
      ensures Arrived(old(recvBuffer), old(inbox), n) == Stream(frames) + recvBuffer
      ensures Drain(Arrived(old(recvBuffer), old(inbox), n))
           == Drained(frames + Drain(recvBuffer).bodies, Drain(recvBuffer).rest)
      ensures r.Replied? || r == Failed(Malformed) || r == Failed(UncaughtTypeError) ==>
                frames != [] && Unrelated(py, message.requestId, frames[..|frames| - 1])
      ensures r.Replied? ==> Decode(py, frames[|frames| - 1]) == Good(r.message)
      ensures r.Replied? ==>
                r.message.requestId == message.requestId || r.message.correlationId == Str(message.requestId)
      ensures r == Failed(Malformed) ==> Decode(py, frames[|frames| - 1]).ValueError?
      ensures r == Failed(UncaughtTypeError) ==> Decode(py, frames[|frames| - 1]).TypeError?
      ensures r.TimedOut? || r == Failed(FrameTooLarge) || r == Failed(RecvFailed) || r == Failed(PeerClosed) ==>
                Unrelated(py, message.requestId, frames)
      ensures r.Failed? ==> !r.how.Got? && !r.how.Nothing? && !r.how.NotConnected?
      ensures !r.NotSent? ==> sequence == old(sequence) + 1
      ensures !r.NotSent? ==> |Encode(py, Stamp(message, sequence))| < LENGTH_LIMIT
      ensures !r.NotSent? ==> outbox == old(outbox) + Frame(Encode(py, Stamp(message, sequence)))
    {
      hide ParseFrame, ParseResult, ParseLeftover, Decode, Drain, Encode, Frame, Arrived, Stream;
      frames, n := [], 0;
      ghost var buffer0, inbox0 := recvBuffer, inbox;
      ArrivedInTwoSteps(buffer0, inbox0, 0, 0);
      StreamOfNothing(buffer0);
      var sendResult, _ := Send(message, written);
      if !sendResult.Sent? {
        DrainOfStream(frames, recvBuffer);
        return NotSent(sendResult), frames, n;
      }
      ghost var sent := outbox;
      var target := message.requestId;
      var left := budget;
      while true
        invariant hasSocket && sequence == old(sequence) + 1 && outbox == sent
        invariant n <= |inbox0| && inbox == inbox0[n..]
        invariant Receivable(frames) && Sendable(frames) && Unrelated(py, target, frames)
        invariant Arrived(buffer0, inbox0, n) == Stream(frames) + recvBuffer
        decreases left
      {
        if left == 0 {
          DrainOfStream(frames, recvBuffer);
          return TimedOut, frames, n;
        }
        ghost var before, more := recvBuffer, inbox;
        var received, rest, used := Receive(left - 1);
        left := rest;
        ghost var arrived := Arrived(before, more, used);
        ArrivedInTwoSteps(buffer0, inbox0, n, used);
        ArrivedAfter(Stream(frames), before, more, used);
        n := n + used;
        if received.Got? || received.Malformed? || received.UncaughtTypeError? {
          frames := TakeFrame(py, frames, arrived);
        }
        if received.Nothing? {
          DrainOfStream(frames, recvBuffer);
          return TimedOut, frames, n;
        }
        if !received.Got? {
          DrainOfStream(frames, recvBuffer);
          return Failed(received), frames, n;
        }
        if Matches(received.message, target) {
          DrainOfStream(frames, recvBuffer);
          return Replied(received.message), frames, n;
        }
      }
    }

    /** A caller's run of sends on a healthy socket; it ends early only at a message too long for the length field. */
    method SendRun(messages: seq<Message>) returns (sent: nat)
      modifies this
      ensures hasSocket == old(hasSocket) && state == old(state)
      ensures recvBuffer == old(recvBuffer) && inbox == old(inbox)
      ensures sent <= |messages|
      ensures !old(hasSocket) || old(state) == DISCONNECTED ==> sent == 0
      ensures old(hasSocket) && old(state) != DISCONNECTED && sent < |messages| ==>
                |Encode(py, Stamped(messages, old(sequence))[sent])| >= LENGTH_LIMIT
      ensures Sendable(Bodies(py, Stamped(messages[..sent], old(sequence))))
      ensures outbox == old(outbox) + Stream(Bodies(py, Stamped(messages[..sent], old(sequence))))
    {
      hide Encode, Frame, Stream, Stamp;
      sent := 0;
      ghost var counter := sequence;
      StreamOfNothing([]);
      while sent < |messages|
        invariant sent <= |messages|
        invariant hasSocket == old(hasSocket) && state == old(state)
        invariant recvBuffer == old(recvBuffer) && inbox == old(inbox)
        invariant sequence == counter + sent
        invariant sent == 0 || (hasSocket && state != DISCONNECTED)
        invariant Sendable(Bodies(py, Stamped(messages[..sent], counter)))
        invariant outbox == old(outbox) + Stream(Bodies(py, Stamped(messages[..sent], counter)))
      {
        StampedAt(messages, counter, sent);
        var result, stamped := Send(messages[sent], None);
        if !result.Sent? {
          return;
        }
        OneMoreSent(py, messages, counter, sent, old(outbox));
        sent := sent + 1;
      }
    }

    /** A caller's run of receives, one for each budget, up to the first that yields no message. `frames` are the
        bodies taken out of the stream: one for each message, and the malformed one if that is how the run ended. */
    method ReceiveRun(budgets: seq<nat>)
      returns (got: seq<Message>, last: Option<Received>, ghost frames: seq<Bytes>, ghost n: nat)
      modifies this
      ensures sequence == old(sequence) && outbox == old(outbox) && hasSocket == old(hasSocket)
      ensures n <= |old(inbox)| && inbox == old(inbox)[n..]
      ensures Receivable(frames) && Sendable(frames)
      ensures Arrived(old(recvBuffer), old(inbox), n) == Stream(frames) + recvBuffer
      ensures |frames| == |got| + if last in {Some(Malformed), Some(UncaughtTypeError)} then 1 else 0
      ensures forall i :: 0 <= i < |got| ==> Decode(py, frames[i]) == Good(got[i])
      ensures last == Some(Malformed) ==> Decode(py, frames[|got|]).ValueError?
      ensures last == Some(UncaughtTypeError) ==> Decode(py, frames[|got|]).TypeError?
      ensures last.None? ==> |got| == |budgets|
      ensures last.Some? ==> !last.value.Got?
    {
      hide ParseFrame, ParseResult, ParseLeftover, Decode, Drain, Encode, Frame, Arrived, Stream;
      got, last, frames, n := [], None, [], 0;
      ghost var buffer0, inbox0 := recvBuffer, inbox;
      ArrivedInTwoSteps(buffer0, inbox0, 0, 0);
      StreamOfNothing(buffer0);
      while |got| < |budgets|
        invariant sequence == old(sequence) && outbox == old(outbox) && hasSocket == old(hasSocket)
        invariant n <= |inbox0| && inbox == inbox0[n..]
        invariant Receivable(frames) && Sendable(frames) && |frames| == |got| <= |budgets|
        invariant Arrived(buffer0, inbox0, n) == Stream(frames) + recvBuffer
        invariant forall i :: 0 <= i < |got| ==> Decode(py, frames[i]) == Good(got[i])
      {
        ghost var before, more := recvBuffer, inbox;
        var received, _, used := Receive(budgets[|got|]);
        ghost var arrived := Arrived(before, more, used);
        ArrivedInTwoSteps(buffer0, inbox0, n, used);
        ArrivedInTwoSteps(before, more, 0, 0);
        ArrivedAfter(Stream(frames), before, more, used);
        n := n + used;
        if received.Got? || received.Malformed? || received.UncaughtTypeError? {
          frames := TakeFrame(py, frames, arrived);
        }
        if !received.Got? {
          last := Some(received);
          return;
        }
        got := got + [received.message];
      }
    }
  }

  /** The ghost step of `Request`: the frame at the front of `buf` joins the consumed ones. */
  lemma TakeFrame(py: Python, frames: seq<Bytes>, buf: Bytes) returns (more: seq<Bytes>)
    requires Receivable(frames) && Sendable(frames)
    requires var r := ParseResult(py, buf); r.Got? || r.Malformed? || r.UncaughtTypeError?
    ensures |more| == |frames| + 1 && more[..|more| - 1] == frames && Receivable(more) && Sendable(more)
    ensures Stream(more) + ParseLeftover(buf) == Stream(frames) + buf
    ensures ParseResult(py, buf) ==
            match Decode(py, more[|more| - 1])
            case Good(m) => Got(m)
            case ValueError => Malformed
            case TypeError => UncaughtTypeError
  {
    FrameOfParse(buf);
    var p := ParseFrame(buf);
    more := frames + [p.body];
    AppendFrame(frames, p.body, p.rest);
  }

  lemma AppendFrame(frames: seq<Bytes>, body: Bytes, rest: Bytes)
    requires Receivable(frames) && Sendable(frames) && |body| <= MAX_FRAME
    ensures Sendable(frames + [body])
    ensures Stream(frames + [body]) + rest == Stream(frames) + (Frame(body) + rest)
  {
    StreamAppend(frames, [body]);
    assert Stream([body]) == Frame(body) + [];
    Associative(Stream(frames), Frame(body), rest);
  }

  /** The bodies that a run of successful sends puts on the wire, starting from a sequence counter. */
  function Stamped(messages: seq<Message>, counter: nat): (r: seq<Message>)
    ensures |r| == |messages|
  {
    if messages == [] then [] else [Stamp(messages[0], counter + 1)] + Stamped(messages[1..], counter + 1)
  }

  lemma {:induction false} StampedAt(messages: seq<Message>, counter: nat, i: nat)
    requires i < |messages|
    ensures Stamped(messages, counter)[i] == Stamp(messages[i], counter + i + 1)
  {
    if i > 0 {
      StampedAt(messages[1..], counter + 1, i - 1);
    }
  }

  function Bodies(py: Python, messages: seq<Message>): (r: seq<Bytes>)
    ensures |r| == |messages| && forall i :: 0 <= i < |r| ==> r[i] == Encode(py, messages[i])
  {
    seq(|messages|, i requires 0 <= i < |messages| => Encode(py, messages[i]))
  }

  lemma {:induction false} StampedAppend(messages: seq<Message>, counter: nat, m: Message)
    ensures Stamped(messages + [m], counter) == Stamped(messages, counter) + [Stamp(m, counter + |messages| + 1)]
  {
    if messages == [] {
      assert messages + [m] == [m];
    } else {
      StampedAppend(messages[1..], counter + 1, m);
      assert (messages + [m])[1..] == messages[1..] + [m];
    }
  }

  lemma OneMoreSent(py: Python, messages: seq<Message>, counter: nat, i: nat, before: Bytes)
    requires i < |messages| && |Encode(py, Stamp(messages[i], counter + i + 1))| < LENGTH_LIMIT
    requires Sendable(Bodies(py, Stamped(messages[..i], counter)))
    ensures Sendable(Bodies(py, Stamped(messages[..i + 1], counter)))
    ensures before + Stream(Bodies(py, Stamped(messages[..i + 1], counter)))
         == before + Stream(Bodies(py, Stamped(messages[..i], counter)))
            + Frame(Encode(py, Stamp(messages[i], counter + i + 1)))
  {
    hide Encode, Stamp;
    var done, m := messages[..i], messages[i];
    var body := Encode(py, Stamp(m, counter + i + 1));
    assert messages[..i + 1] == done + [m];
    StampedAppend(done, counter, m);
    var bodies := Bodies(py, Stamped(done, counter));
    assert Bodies(py, Stamped(done + [m], counter)) == bodies + [body];
    StreamAppend(bodies, [body]);
    assert Stream([body]) == Frame(body) + [] == Frame(body);
    Associative(before, Stream(bodies), Frame(body));
  }

  function DecodeAll(py: Python, bodies: seq<Bytes>): (r: seq<Outcome<Message>>)
    ensures |r| == |bodies| && forall i :: 0 <= i < |r| ==> r[i] == Decode(py, bodies[i])
  {
    seq(|bodies|, i requires 0 <= i < |bodies| => Decode(py, bodies[i]))
  }

  /** Sent messages arrive as stamped, in order, for every way the network cuts their frames into chunks,
      if and only if no body exceeds the receiver's limit. */
  lemma SentMessagesArrive(py: Python, messages: seq<Message>, counter: nat, chunks: seq<Bytes>)
    requires forall m :: m in Stamped(messages, counter) ==> ReadsBack(py, m)
    requires var bodies := Bodies(py, Stamped(messages, counter));
             Sendable(bodies) && Concat(chunks) == Stream(bodies)
    ensures var bodies := Bodies(py, Stamped(messages, counter));
            var got := Feed([], chunks);
            Receivable(bodies) <==>
              && got.rest == []
              && |got.bodies| == |messages|
              && forall i :: 0 <= i < |messages| ==>
                   DecodeAll(py, got.bodies)[i] == Good(Stamp(messages[i], counter + i + 1))
  {
    var stamped := Stamped(messages, counter);
    var bodies := Bodies(py, stamped);
    var got := Feed([], chunks);
    RoundTripExactly(bodies, chunks);
    if Receivable(bodies) {
      forall i | 0 <= i < |messages|
        ensures DecodeAll(py, got.bodies)[i] == Good(Stamp(messages[i], counter + i + 1))
      {
        StampedAt(messages, counter, i);
        CodecRoundTrip(py, stamped[i]);
      }
    } else {
      ChunkingDoesNotMatter([], chunks);
      assert [] + Concat(chunks) == Stream(bodies);
      var before, big, after := FirstOversize(bodies);
      OversizeStopsTheStream(before, big, after);
      assert |got.bodies| < |bodies|;
    }
  }

  /** What has arrived of a run, however cut and however much is still missing, is a prefix of it: the frames taken
      out so far are the first ones sent, and each decodes to its message as stamped. */
  lemma ReceivedIsPrefixOfSent(py: Python, messages: seq<Message>, counter: nat, frames: seq<Bytes>, rest: Bytes,
                               missing: Bytes)
    requires forall m :: m in Stamped(messages, counter) ==> ReadsBack(py, m)
    requires Receivable(frames) && Sendable(frames)
    requires var bodies := Bodies(py, Stamped(messages, counter));
             Receivable(bodies) && Sendable(bodies) && Stream(frames) + (rest + missing) == Stream(bodies)
    ensures |frames| <= |messages|
    ensures frames == Bodies(py, Stamped(messages, counter))[..|frames|]
    ensures forall i :: 0 <= i < |frames| ==> Decode(py, frames[i]) == Good(Stamp(messages[i], counter + i + 1))
  {
    hide Decode, Encode, Stream, Stamp, Stamped;
    var stamped := Stamped(messages, counter);
    var bodies := Bodies(py, stamped);
    FramesArePrefix(frames, rest + missing, bodies);
    forall i | 0 <= i < |frames| ensures Decode(py, frames[i]) == Good(Stamp(messages[i], counter + i + 1)) {
      StampedAt(messages, counter, i);
      CodecRoundTrip(py, stamped[i]);
      assert frames[i] == bodies[i] == Encode(py, stamped[i]);
    }
  }

  lemma PrefixOfSum<T>(a: seq<T>, b: seq<T>, c: seq<T>)
    requires a + b == c
    ensures |a| <= |c| && a == c[..|a|]
  {
  }

  lemma DrainWhole(bodies: seq<Bytes>)
    requires Receivable(bodies) && Sendable(bodies)
    ensures Drain(Stream(bodies)).bodies == bodies
  {
    DrainOfStream(bodies, []);
    assert Drain([]).bodies == [];
    hide Stream, Drain;
    assert Stream(bodies) + [] == Stream(bodies) && bodies + [] == bodies;
  }

  /** A stream that begins with these frames is a stream of bodies that begin with theirs. */
  lemma FramesArePrefix(frames: seq<Bytes>, rest: Bytes, bodies: seq<Bytes>)
    requires Receivable(frames) && Sendable(frames) && Receivable(bodies) && Sendable(bodies)
    requires Stream(frames) + rest == Stream(bodies)
    ensures |frames| <= |bodies| && frames == bodies[..|frames|]
  {
    hide *;
    DrainOfStream(frames, rest);
    DrainWhole(bodies);
    PrefixOfSum(frames, Drain(rest).bodies, bodies);
  }
}
