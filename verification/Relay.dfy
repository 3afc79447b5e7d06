/** The frame relay, as a transformer of byte streams. */
module Relay {
  import opened Bytes
  import W = Wire
  import Frames
  import Resolution
  import Rows

  const FRAME_HEADER_LEN: nat := 5
  const MAX_MESSAGE_LEN: nat := 0x4000_0000
  const MAX_PRE_AUTH_MESSAGE_LEN: nat := 0x4000

  // ---------------------------------------------------------------- headers

  /** The type and body length a header announces. The length field counts itself. */
  function FrameBodyLen(header: bytes): (r: Result<(byte, nat), W.Error>)
    requires |header| == FRAME_HEADER_LEN
  {
    var len := W.Signed32(ReadBigEndian32(header[1..]));
    if len < 4 || len > MAX_MESSAGE_LEN then Err(W.BadMessageLength(len)) else Ok((header[0], len - 4))
  }

  function EncodeFrameHeader(msgType: byte, bodyLen: nat): (r: Option<bytes>)
    ensures r.Some? ==> |r.value| == FRAME_HEADER_LEN
  {
    if bodyLen + 4 > MAX_MESSAGE_LEN then None else Some([msgType] + BigEndian32(bodyLen + 4))
  }

  /** A header is written exactly for the lengths one can be read for, and reads back. */
  lemma {:induction false} HeaderRoundTrip(msgType: byte, bodyLen: nat, header: bytes)
    requires |header| == FRAME_HEADER_LEN
    ensures EncodeFrameHeader(msgType, bodyLen).Some? ==>
              FrameBodyLen(EncodeFrameHeader(msgType, bodyLen).value) == Ok((msgType, bodyLen))
    ensures FrameBodyLen(header).Ok? ==>
              EncodeFrameHeader(FrameBodyLen(header).value.0, FrameBodyLen(header).value.1) == Some(header)
  {
    if EncodeFrameHeader(msgType, bodyLen).Some? {
      var written := EncodeFrameHeader(msgType, bodyLen).value;
      assert written[1..] == BigEndian32(bodyLen + 4);
      BigEndian32Inverse(bodyLen + 4, BigEndian32(bodyLen + 4));
    }
    if FrameBodyLen(header).Ok? {
      BigEndian32Inverse(0, header[1..]);
      assert header == [header[0]] + header[1..];
    }
  }

  /** A rewritten DataRow always gets a header. */
  lemma {:induction false} RewrittenRowFrames(
    ops: Rows.Ops, positions: seq<Resolution.Column>, formats: Frames.ResultFormats, body: bytes, maxValue: nat)
    requires Resolution.Ascending(positions)
    ensures var r := Rows.Decrypted(ops, positions, formats, body, Rows.Bounds(maxValue, MAX_MESSAGE_LEN - 4));
            r.Ok? && r.value.Some? ==> EncodeFrameHeader(68, |r.value.value|).Some?
    ensures var r := Rows.Decrypted(ops, positions, formats, body, Rows.Bounds(maxValue, MAX_MESSAGE_LEN - 4));
            r.Err? && r.error.OnWire? ==> W.ParseDataRow(body) == Err(r.error.wireError)
  {
    var bounds := Rows.Bounds(maxValue, MAX_MESSAGE_LEN - 4);
    if Rows.UpFront(positions).None? && W.ParseDataRow(body).Ok? {
      var r := Rows.RowAfter(ops, positions, formats, W.ParseDataRow(body).value, bounds, |positions|);
      if r.Ok? {
        Rows.RewrittenRowPrints(ops, positions, formats, body, bounds, r.value);
      } else {
        NoWireError(ops, positions, formats, W.ParseDataRow(body).value, bounds, |positions|);
      }
    } else if Rows.UpFront(positions).Some? {
      UpFrontIsNotWire(positions);
    }
  }

  lemma {:induction false} UpFrontIsNotWire(positions: seq<Resolution.Column>)
    ensures Rows.UpFront(positions).Some? ==> !Rows.UpFront(positions).value.OnWire?
  {
    if positions != [] {
      UpFrontIsNotWire(positions[1..]);
    }
  }

  lemma {:induction false} NoWireError(
    ops: Rows.Ops, positions: seq<Resolution.Column>, formats: Frames.ResultFormats, original: Rows.Row,
    bounds: Rows.Bounds, n: nat)
    requires n <= |positions|
    ensures var r := Rows.RowAfter(ops, positions, formats, original, bounds, n); r.Err? ==> !r.error.OnWire?
  {
    if n > 0 {
      NoWireError(ops, positions, formats, original, bounds, n - 1);
    }
  }

  // ---------------------------------------------------------------- the relay

  datatype Action = Forward | Replace(body: bytes) | Reply(frames: bytes) | RefuseAndClose(frames: bytes)

  datatype Error =
    | OnWire(error: W.Error)
    | PreAuthFrameTooLarge(bodyLen: nat, max: nat)
    | UnexpectedEof
    | FrameTooLarge(bodyLen: nat)
    | TransformFailed

  /** What surrounds one direction: the transform, which may do anything with the `k`-th frame and
      remember anything about those before it; whether the peer was known to be authenticated when
      the `k`-th frame's header was read; and whether a shutdown was seen before it. */
  datatype Peer = Peer(act: (nat, byte, bytes) -> Option<Action>, authenticated: nat -> bool, stopped: nat -> bool)

  datatype Outcome = Outcome(forward: bytes, back: bytes, error: Option<Error>)

  function MaxBody(p: Peer, k: nat): (n: nat) {
    if p.authenticated(k) then MAX_MESSAGE_LEN else MAX_PRE_AUTH_MESSAGE_LEN
  }

  /** What the `k`-th frame lets happen before anything of it is forwarded. */
  datatype Taken = Finished(error: Option<Error>) | Frame(msgType: byte, bodyLen: nat)

  function Take(p: Peer, k: nat, input: bytes): (t: Taken)
    ensures t.Frame? ==> FRAME_HEADER_LEN + t.bodyLen <= |input| && t.bodyLen <= MaxBody(p, k)
  {
    if p.stopped(k) || |input| < FRAME_HEADER_LEN then Finished(None)
    else
      match FrameBodyLen(input[..FRAME_HEADER_LEN])
      case Err(e) => Finished(Some(OnWire(e)))
      case Ok(h) =>
        if h.1 > MaxBody(p, k) then Finished(Some(PreAuthFrameTooLarge(h.1, MaxBody(p, k))))
        else if |input| < FRAME_HEADER_LEN + h.1 then Finished(Some(UnexpectedEof))
        else Frame(h.0, h.1)
  }

  /** What one frame writes, and whether the relay goes on. */
  datatype Written = Written(forward: bytes, back: bytes, end: Option<Option<Error>>)

  function Write(p: Peer, k: nat, msgType: byte, frame: bytes): (w: Written)
    requires |frame| >= FRAME_HEADER_LEN
  {
    match p.act(k, msgType, frame[FRAME_HEADER_LEN..])
    case None => Written([], [], Some(Some(TransformFailed)))
    case Some(Forward) => Written(frame, [], None)
    case Some(Replace(body)) =>
      (match EncodeFrameHeader(msgType, |body|)
       case None => Written([], [], Some(Some(FrameTooLarge(|body|))))
       case Some(header) => Written(header + body, [], None))
    case Some(Reply(frames)) => Written([], frames, None)
    case Some(RefuseAndClose(frames)) => Written(frames, [], Some(None))
  }

  function After(forward: bytes, back: bytes, o: Outcome): (r: Outcome) {
    Outcome(forward + o.forward, back + o.back, o.error)
  }

  function Relayed(p: Peer, k: nat, input: bytes): (o: Outcome)
    decreases |input|
  {
    match Take(p, k, input)
    case Finished(e) => Outcome([], [], e)
    case Frame(msgType, bodyLen) =>
      var n := FRAME_HEADER_LEN + bodyLen;
      var w := Write(p, k, msgType, input[..n]);
      match w.end
      case Some(e) => Outcome(w.forward, w.back, e)
      case None => After(w.forward, w.back, Relayed(p, k + 1, input[n..]))
  }

  lemma {:induction false} AfterTwice(a: bytes, b: bytes, c: bytes, d: bytes, o: Outcome)
    ensures After(a, b, After(c, d, o)) == After(a + c, b + d, o)
  {
    assert a + (c + o.forward) == (a + c) + o.forward && b + (d + o.back) == (b + d) + o.back;
  }

  lemma {:induction false} AfterNothing(a: bytes, b: bytes, e: Option<Error>, o: Outcome)
    ensures After(a, b, Outcome([], [], e)) == Outcome(a, b, e) && After([], [], o) == o
  {
    assert a + [] == a && b + [] == b && [] + o.forward == o.forward && [] + o.back == o.back;
  }

  /** The same with what has been written so far in hand, as the loop has it. */
  function Continued(p: Peer, k: nat, forward: bytes, back: bytes, rest: bytes): (o: Outcome)
    decreases |rest|
  {
    match Take(p, k, rest)
    case Finished(e) => Outcome(forward, back, e)
    case Frame(msgType, bodyLen) =>
      var n := FRAME_HEADER_LEN + bodyLen;
      var w := Write(p, k, msgType, rest[..n]);
      match w.end
      case Some(e) => Outcome(forward + w.forward, back + w.back, e)
      case None => Continued(p, k + 1, forward + w.forward, back + w.back, rest[n..])
  }

  lemma {:induction false} ContinuedIsAfter(p: Peer, k: nat, forward: bytes, back: bytes, rest: bytes)
    ensures Continued(p, k, forward, back, rest) == After(forward, back, Relayed(p, k, rest))
    decreases |rest|
  {
    var t := Take(p, k, rest);
    if t.Finished? {
      AfterNothing(forward, back, t.error, Outcome([], [], None));
    } else {
      var n := FRAME_HEADER_LEN + t.bodyLen;
      var w := Write(p, k, t.msgType, rest[..n]);
      if w.end.None? {
        ContinuedIsAfter(p, k + 1, forward + w.forward, back + w.back, rest[n..]);
        AfterTwice(forward, back, w.forward, w.back, Relayed(p, k + 1, rest[n..]));
      }
    }
  }

  datatype Progress = Stopped(outcome: Outcome) | Going(forward: bytes, back: bytes, rest: bytes)

  /** What one turn of the loop comes to. */
  function OneTurn(p: Peer, k: nat, forward: bytes, back: bytes, rest: bytes): (r: Progress)
    ensures r.Going? ==> |r.rest| < |rest|
  {
    match Take(p, k, rest)
    case Finished(e) => Stopped(Outcome(forward, back, e))
    case Frame(msgType, bodyLen) =>
      var n := FRAME_HEADER_LEN + bodyLen;
      var w := Write(p, k, msgType, rest[..n]);
      match w.end
      case Some(e) => Stopped(Outcome(forward + w.forward, back + w.back, e))
      case None => Going(forward + w.forward, back + w.back, rest[n..])
  }

  /** What is still to come from where a direction has got to. */
  function Finally(p: Peer, k: nat, r: Progress): (o: Outcome) {
    match r
    case Stopped(o) => o
    case Going(forward, back, rest) => Continued(p, k, forward, back, rest)
  }

  lemma {:induction false} TurnContinues(p: Peer, k: nat, forward: bytes, back: bytes, rest: bytes)
    ensures Continued(p, k, forward, back, rest) == Finally(p, k + 1, OneTurn(p, k, forward, back, rest))
  {
  }

  lemma {:induction false} Onward(p: Peer, k: nat, r: Progress, turn: Progress, o: Outcome)
    requires r.Going? && o == Finally(p, k, r) && turn == OneTurn(p, k, r.forward, r.back, r.rest)
    ensures o == Finally(p, k + 1, turn)
  {
    TurnContinues(p, k, r.forward, r.back, r.rest);
  }

  /** What one turn writes, each part under the lock of the socket it goes to. */
  function WrittenBy(p: Peer, k: nat, rest: bytes): (w: (bytes, bytes)) {
    match Take(p, k, rest)
    case Finished(_) => ([], [])
    case Frame(msgType, bodyLen) =>
      var w := Write(p, k, msgType, rest[..FRAME_HEADER_LEN + bodyLen]);
      (w.forward, w.back)
  }

  /** One turn of the loop: read a header, hold at most one bounded body, write. */
  method Turn(p: Peer, k: nat, forward: bytes, back: bytes, rest: bytes)
    returns (r: Progress, w: (bytes, bytes), ghost held: Option<nat>)
    ensures r == OneTurn(p, k, forward, back, rest) && w == WrittenBy(p, k, rest)
    ensures r.Going? ==> held.Some?
    ensures held.Some? ==> held.value <= MaxBody(p, k)
  {
    held := None;
    var next := Take(p, k, rest);
    if next.Finished? {
      return Stopped(Outcome(forward, back, next.error)), ([], []), held;
    }
    held := Some(next.bodyLen);
    var n := FRAME_HEADER_LEN + next.bodyLen;
    var written := Write(p, k, next.msgType, rest[..n]);
    w := (written.forward, written.back);
    if written.end.Some? {
      return Stopped(Outcome(forward + w.0, back + w.1, written.end.value)), w, held;
    }
    r := Going(forward + w.0, back + w.1, rest[n..]);
  }

  /** The loop. `buffered` lists the length of every body it held, in order. */
  method Run(p: Peer, input: bytes) returns (o: Outcome, ghost buffered: seq<nat>)
    ensures o == Relayed(p, 0, input)
    ensures forall k | 0 <= k < |buffered| :: buffered[k] <= MaxBody(p, k)
  {
    buffered := [];
    var at, k := Going([], [], input), 0;
    ContinuedIsAfter(p, 0, [], [], input);
    AfterNothing([], [], None, Relayed(p, 0, input));
    while at.Going?
      invariant Relayed(p, 0, input) == Finally(p, k, at)
      invariant |buffered| <= k && (at.Going? ==> |buffered| == k)
      invariant forall j | 0 <= j < |buffered| :: buffered[j] <= MaxBody(p, j)
      decreases if at.Going? then |at.rest| + 1 else 0
    {
      var turn, _, held := Turn(p, k, at.forward, at.back, at.rest);
      Onward(p, k, at, turn, Relayed(p, 0, input));
      buffered := if held.Some? then buffered + [held.value] else buffered;
      at, k := turn, k + 1;
    }
    o := at.outcome;
  }

  // ---------------------------------------------------------------- framing

  /** A complete frame with a valid header starts here. */
  predicate HasFrame(b: bytes) {
    && |b| >= FRAME_HEADER_LEN && FrameBodyLen(b[..FRAME_HEADER_LEN]).Ok?
    && |b| >= FRAME_HEADER_LEN + FrameBodyLen(b[..FRAME_HEADER_LEN]).value.1
  }

  function FirstLen(b: bytes): (n: nat)
    requires HasFrame(b)
    ensures FRAME_HEADER_LEN <= n <= |b|
  {
    FRAME_HEADER_LEN + FrameBodyLen(b[..FRAME_HEADER_LEN]).value.1
  }

  /** Complete frames, one after another, each with a header that matches its body. */
  predicate WellFramed(b: bytes)
    decreases |b|
  {
    b == [] || (HasFrame(b) && WellFramed(b[FirstLen(b)..]))
  }

  /** Refusals and replies are framed already. */
  predicate AnswersFramed(p: Peer, k: nat, msgType: byte, body: bytes) {
    match p.act(k, msgType, body)
    case Some(Reply(frames)) => WellFramed(frames)
    case Some(RefuseAndClose(frames)) => WellFramed(frames)
    case _ => true
  }

  /** What follows a frame does not change it. */
  lemma {:induction false} FirstOfConcat(a: bytes, b: bytes)
    requires HasFrame(a)
    ensures HasFrame(a + b) && FirstLen(a + b) == FirstLen(a)
    ensures (a + b)[..FirstLen(a)] == a[..FirstLen(a)] && (a + b)[FirstLen(a)..] == a[FirstLen(a)..] + b
  {
    assert (a + b)[..FRAME_HEADER_LEN] == a[..FRAME_HEADER_LEN];
  }

  // ---------------------------------------------------------------- frame by frame

  type Stream = seq<(byte, bytes)>

  /** The type and body of one complete frame. */
  function Parts(frame: bytes): (f: (byte, bytes))
    requires |frame| >= FRAME_HEADER_LEN
  {
    (frame[0], frame[FRAME_HEADER_LEN..])
  }

  /** The frames a well-framed stream is made of. */
  function FramesIn(b: bytes): (fs: Stream)
    requires WellFramed(b)
    decreases |b|
  {
    if b == [] then [] else [Parts(b[..FirstLen(b)])] + FramesIn(b[FirstLen(b)..])
  }

  lemma {:induction false} FramesConcat(a: bytes, b: bytes)
    requires WellFramed(a) && WellFramed(b)
    ensures WellFramed(a + b) && FramesIn(a + b) == FramesIn(a) + FramesIn(b)
    decreases |a|
  {
    if a == [] {
      assert a + b == b;
    } else {
      FirstOfConcat(a, b);
      FramesConcat(a[FirstLen(a)..], b);
    }
  }

  lemma {:induction false} SingleFrame(header: bytes, body: bytes)
    requires |header| == FRAME_HEADER_LEN && FrameBodyLen(header).Ok? && FrameBodyLen(header).value.1 == |body|
    ensures WellFramed(header + body) && FramesIn(header + body) == [(header[0], body)]
  {
    var frame := header + body;
    assert frame[..FRAME_HEADER_LEN] == header && frame[FRAME_HEADER_LEN..] == body;
    assert HasFrame(frame) && FirstLen(frame) == |frame| && frame[..|frame|] == frame && frame[|frame|..] == [];
  }

  /** The frames that arrive: complete, of an allowed size, before a shutdown. */
  function Arriving(p: Peer, k: nat, input: bytes): (fs: Stream)
    decreases |input|
  {
    match Take(p, k, input)
    case Finished(_) => []
    case Frame(msgType, bodyLen) =>
      var n := FRAME_HEADER_LEN + bodyLen;
      [(msgType, input[FRAME_HEADER_LEN..n])] + Arriving(p, k + 1, input[n..])
  }

  ghost predicate Framed(p: Peer) {
    forall j, t, body :: AnswersFramed(p, j, t, body)
  }

  /** What the receiver is to see of them: each forwarded or replaced under its own type, none that
      was answered, and after a refusal the refusal's frames and no more. */
  ghost function Delivered(p: Peer, k: nat, fs: Stream): (r: Stream)
    requires Framed(p)
    decreases |fs|
  {
    if fs == [] then []
    else
      assert AnswersFramed(p, k, fs[0].0, fs[0].1);
      match p.act(k, fs[0].0, fs[0].1)
      case None => []
      case Some(Forward) => [fs[0]] + Delivered(p, k + 1, fs[1..])
      case Some(Replace(body)) =>
        if |body| + 4 > MAX_MESSAGE_LEN then [] else [(fs[0].0, body)] + Delivered(p, k + 1, fs[1..])
      case Some(Reply(_)) => Delivered(p, k + 1, fs[1..])
      case Some(RefuseAndClose(frames)) => FramesIn(frames)
  }

  /** What the sender is answered. */
  ghost function Replied(p: Peer, k: nat, fs: Stream): (r: Stream)
    requires Framed(p)
    decreases |fs|
  {
    if fs == [] then []
    else
      assert AnswersFramed(p, k, fs[0].0, fs[0].1);
      match p.act(k, fs[0].0, fs[0].1)
      case None => []
      case Some(Forward) => Replied(p, k + 1, fs[1..])
      case Some(Replace(body)) => if |body| + 4 > MAX_MESSAGE_LEN then [] else Replied(p, k + 1, fs[1..])
      case Some(Reply(frames)) => FramesIn(frames) + Replied(p, k + 1, fs[1..])
      case Some(RefuseAndClose(_)) => []
  }

  /** One frame's bytes are one frame's meaning. */
  lemma {:induction false} WritesOne(p: Peer, k: nat, msgType: byte, frame: bytes)
    requires Framed(p) && HasFrame(frame) && FirstLen(frame) == |frame| && msgType == frame[0]
    ensures var w := Write(p, k, msgType, frame);
            var body := frame[FRAME_HEADER_LEN..];
            && WellFramed(w.forward) && WellFramed(w.back)
            && (match p.act(k, msgType, body)
                case Some(Forward) => FramesIn(w.forward) == [(msgType, body)] && w.back == []
                case Some(Replace(b)) =>
                  FramesIn(w.forward) == (if w.end.Some? then [] else [(msgType, b)]) && w.back == []
                case _ => true)
  {
    var body := frame[FRAME_HEADER_LEN..];
    assert AnswersFramed(p, k, msgType, body);
    match p.act(k, msgType, body)
    case Some(Forward) =>
      assert frame == frame[..FRAME_HEADER_LEN] + body;
      SingleFrame(frame[..FRAME_HEADER_LEN], body);
    case Some(Replace(b)) =>
      if EncodeFrameHeader(msgType, |b|).Some? {
        HeaderRoundTrip(msgType, |b|, frame[..FRAME_HEADER_LEN]);
        SingleFrame(EncodeFrameHeader(msgType, |b|).value, b);
      }
    case _ =>
  }

  /** What one frame adds to what is delivered and replied. */
  lemma {:induction false} OneDelivered(p: Peer, k: nat, msgType: byte, frame: bytes, rest: Stream)
    requires Framed(p) && HasFrame(frame) && FirstLen(frame) == |frame| && msgType == frame[0]
    ensures var w := Write(p, k, msgType, frame);
            var fs := [(msgType, frame[FRAME_HEADER_LEN..])] + rest;
            && WellFramed(w.forward) && WellFramed(w.back)
            && Delivered(p, k, fs) == FramesIn(w.forward) + (if w.end.None? then Delivered(p, k + 1, rest) else [])
            && Replied(p, k, fs) == FramesIn(w.back) + (if w.end.None? then Replied(p, k + 1, rest) else [])
  {
    WritesOne(p, k, msgType, frame);
    var fs := [(msgType, frame[FRAME_HEADER_LEN..])] + rest;
    assert fs[1..] == rest;
    assert AnswersFramed(p, k, msgType, frame[FRAME_HEADER_LEN..]);
  }

  /** The outcome is complete frames, those that the transform made of the frames `fs`. */
  ghost predicate Framewise(p: Peer, k: nat, fs: Stream, o: Outcome)
    requires Framed(p)
  {
    && WellFramed(o.forward) && FramesIn(o.forward) == Delivered(p, k, fs)
    && WellFramed(o.back) && FramesIn(o.back) == Replied(p, k, fs)
  }

  lemma {:induction false} TakenIsFrame(p: Peer, k: nat, input: bytes)
    requires Take(p, k, input).Frame?
    ensures var t := Take(p, k, input);
            var n := FRAME_HEADER_LEN + t.bodyLen;
            var frame := input[..n];
            && HasFrame(frame) && FirstLen(frame) == |frame| && t.msgType == frame[0]
            && frame[FRAME_HEADER_LEN..] == input[FRAME_HEADER_LEN..n]
  {
    var n := FRAME_HEADER_LEN + Take(p, k, input).bodyLen;
    assert input[..n][..FRAME_HEADER_LEN] == input[..FRAME_HEADER_LEN];
  }

  /** One frame before the others. */
  lemma {:induction false} FrameBefore(p: Peer, k: nat, msgType: byte, frame: bytes, fs: Stream, o: Outcome)
    requires Framed(p) && HasFrame(frame) && FirstLen(frame) == |frame| && msgType == frame[0]
    requires Framewise(p, k + 1, fs, o)
    ensures var w := Write(p, k, msgType, frame);
            var all := [(msgType, frame[FRAME_HEADER_LEN..])] + fs;
            match w.end
            case Some(e) => Framewise(p, k, all, Outcome(w.forward, w.back, e))
            case None => Framewise(p, k, all, After(w.forward, w.back, o))
  {
    OneDelivered(p, k, msgType, frame, fs);
    var w := Write(p, k, msgType, frame);
    if w.end.None? {
      FramesConcat(w.forward, o.forward);
      FramesConcat(w.back, o.back);
    }
  }

  /** The relay of bytes is a relay of frames: whatever arrives and however it ends, each side is sent
      complete frames and nothing else, and parsed back they are what the transform made of the
      frames that arrived, in order. */
  lemma {:induction false} RelayIsFramewise(p: Peer, k: nat, input: bytes)
    requires Framed(p)
    ensures Framewise(p, k, Arriving(p, k, input), Relayed(p, k, input))
    decreases |input|
  {
    var t := Take(p, k, input);
    if t.Frame? {
      var n := FRAME_HEADER_LEN + t.bodyLen;
      TakenIsFrame(p, k, input);
      RelayIsFramewise(p, k + 1, input[n..]);
      FrameBefore(p, k, t.msgType, input[..n], Arriving(p, k + 1, input[n..]), Relayed(p, k + 1, input[n..]));
    }
  }

  /** The `k`-th frame ends the relay like this. A shutdown, or fewer bytes than a header, ends it without an
      error; so does a refusal. A length that no frame has, a body over the limit for the peer, a body cut
      off, a transform that fails and a replacement that fits no frame are errors, each by its own. */
  predicate EndsFor(p: Peer, k: nat, rest: bytes, e: Option<Error>) {
    if p.stopped(k) || |rest| < FRAME_HEADER_LEN then e.None?
    else
      var len := W.Signed32(ReadBigEndian32(rest[1..5]));
      if len < 4 || len > MAX_MESSAGE_LEN then e == Some(OnWire(W.BadMessageLength(len)))
      else if len - 4 > (if p.authenticated(k) then MAX_MESSAGE_LEN else MAX_PRE_AUTH_MESSAGE_LEN) then
        e == Some(PreAuthFrameTooLarge(len - 4, MAX_PRE_AUTH_MESSAGE_LEN))
      else if |rest| < len + 1 then e == Some(UnexpectedEof)
      else
        match p.act(k, rest[0], rest[5..len + 1])
        case None => e == Some(TransformFailed)
        case Some(Replace(body)) => |body| + 4 > MAX_MESSAGE_LEN && e == Some(FrameTooLarge(|body|))
        case Some(RefuseAndClose(_)) => e.None?
        case _ => false
  }

  lemma {:induction false} FinishedEnds(p: Peer, k: nat, input: bytes)
    requires Take(p, k, input).Finished?
    ensures EndsFor(p, k, input, Take(p, k, input).error)
  {
    if |input| >= FRAME_HEADER_LEN {
      assert input[..FRAME_HEADER_LEN][1..] == input[1..5];
    }
  }

  lemma {:induction false} WrittenEnds(p: Peer, k: nat, input: bytes)
    requires Take(p, k, input).Frame?
    requires var t := Take(p, k, input);
             Write(p, k, t.msgType, input[..FRAME_HEADER_LEN + t.bodyLen]).end.Some?
    ensures var t := Take(p, k, input);
            EndsFor(p, k, input, Write(p, k, t.msgType, input[..FRAME_HEADER_LEN + t.bodyLen]).end.value)
  {
    assert input[..FRAME_HEADER_LEN][1..] == input[1..5];
    TakenIsFrame(p, k, input);
  }

  /** The relay goes on behind the `k`-th frame. */
  predicate GoesOn(p: Peer, k: nat, f: (byte, bytes)) {
    && !p.stopped(k)
    && match p.act(k, f.0, f.1)
       case Some(Forward) => true
       case Some(Reply(_)) => true
       case Some(Replace(body)) => |body| + 4 <= MAX_MESSAGE_LEN
       case _ => false
  }

  lemma {:induction false} WrittenGoesOn(p: Peer, k: nat, input: bytes)
    requires Take(p, k, input).Frame?
    requires var t := Take(p, k, input);
             Write(p, k, t.msgType, input[..FRAME_HEADER_LEN + t.bodyLen]).end.None?
    ensures Arriving(p, k, input) != [] && GoesOn(p, k, Arriving(p, k, input)[0])
    ensures Arriving(p, k, input)[1..] == Arriving(p, k + 1, input[FRAME_HEADER_LEN + Take(p, k, input).bodyLen..])
  {
    TakenIsFrame(p, k, input);
  }

  /** Of the frames `fs` that arrive, the relay goes on behind the first `n`, and ends with `e` for what the
      bytes behind them say. */
  predicate EndsBehind(p: Peer, k: nat, fs: Stream, e: Option<Error>, n: nat, rest: bytes) {
    && n <= |fs| && fs[n..] == Arriving(p, k + n, rest)
    && (forall j | 0 <= j < n :: GoesOn(p, k + j, fs[j])) && EndsFor(p, k + n, rest, e)
  }

  /** The relay of `input` takes a frame and goes on. */
  predicate GoesOnBehind(p: Peer, k: nat, input: bytes) {
    var t := Take(p, k, input);
    t.Frame? && Write(p, k, t.msgType, input[..FRAME_HEADER_LEN + t.bodyLen]).end.None?
  }

  lemma {:induction false} EndsNow(p: Peer, k: nat, input: bytes)
    requires !GoesOnBehind(p, k, input)
    ensures EndsBehind(p, k, Arriving(p, k, input), Relayed(p, k, input).error, 0, input)
  {
    if Take(p, k, input).Finished? {
      FinishedEnds(p, k, input);
    } else {
      WrittenEnds(p, k, input);
    }
  }

  lemma {:induction false} EndsLater(p: Peer, k: nat, input: bytes, after: bytes, n: nat, rest: bytes)
    requires GoesOnBehind(p, k, input) && after == input[FRAME_HEADER_LEN + Take(p, k, input).bodyLen..]
    requires EndsBehind(p, k + 1, Arriving(p, k + 1, after), Relayed(p, k + 1, after).error, n, rest)
    ensures EndsBehind(p, k, Arriving(p, k, input), Relayed(p, k, input).error, n + 1, rest)
  {
    WrittenGoesOn(p, k, input);
    OneMore(p, k, Arriving(p, k, input), Arriving(p, k + 1, after), n);
  }

  /** However the relay ends, it is for what the bytes behind the frames it went on behind say. */
  lemma {:induction false} RelayEnds(p: Peer, k: nat, input: bytes) returns (n: nat, rest: bytes)
    ensures EndsBehind(p, k, Arriving(p, k, input), Relayed(p, k, input).error, n, rest)
    decreases |input|
  {
    if GoesOnBehind(p, k, input) {
      var after := input[FRAME_HEADER_LEN + Take(p, k, input).bodyLen..];
      n, rest := RelayEnds(p, k + 1, after);
      EndsLater(p, k, input, after, n, rest);
      n := n + 1;
    } else {
      n, rest := 0, input;
      EndsNow(p, k, input);
    }
  }

  lemma {:induction false} OneMore(p: Peer, k: nat, all: Stream, others: Stream, n: nat)
    requires all != [] && all[1..] == others && n <= |others| && GoesOn(p, k, all[0])
    requires forall j | 0 <= j < n :: GoesOn(p, k + 1 + j, others[j])
    ensures all[n + 1..] == others[n..] && forall j | 0 <= j < n + 1 :: GoesOn(p, k + j, all[j])
  {
    forall j | 0 <= j < n + 1 ensures GoesOn(p, k + j, all[j]) {
      if j > 0 {
        assert all[j] == others[j - 1];
        assert GoesOn(p, k + 1 + (j - 1), others[j - 1]);
      }
    }
  }

  /** A transform that forwards everything, to an authenticated peer, with no shutdown. */
  ghost predicate Transparent(p: Peer) {
    && (forall k, t, body :: p.act(k, t, body) == Some(Forward))
    && (forall k :: p.authenticated(k) && !p.stopped(k))
  }

  /** The longest prefix of the input made of complete frames, nothing answered, and no error exactly
      when less than one header is left over. */
  predicate IsWholeFrames(input: bytes, o: Outcome) {
    && o.forward <= input && WellFramed(o.forward) && !HasFrame(input[|o.forward|..]) && o.back == []
    && (o.error.None? <==> |input| - |o.forward| < FRAME_HEADER_LEN)
  }

  /** Relaying everything forwards the whole frames of the input. */
  lemma {:induction false} TransparentIsPrefix(p: Peer, k: nat, input: bytes)
    requires Transparent(p)
    ensures IsWholeFrames(input, Relayed(p, k, input))
    decreases |input|
  {
    TransparentTakes(p, k, input);
    if HasFrame(input) {
      TransparentIsPrefix(p, k + 1, input[FirstLen(input)..]);
      WholeFramesGrow(input, Relayed(p, k + 1, input[FirstLen(input)..]));
    } else {
      assert input[0..] == input;
    }
  }

  /** One frame of a transparent relay. */
  lemma {:induction false} TransparentTakes(p: Peer, k: nat, input: bytes)
    requires Transparent(p)
    ensures if HasFrame(input)
            then Relayed(p, k, input)
              == After(input[..FirstLen(input)], [], Relayed(p, k + 1, input[FirstLen(input)..]))
            else Relayed(p, k, input).forward == [] && Relayed(p, k, input).back == []
                 && (Relayed(p, k, input).error.None? <==> |input| < FRAME_HEADER_LEN)
  {
    assert p.authenticated(k) && !p.stopped(k);
    if HasFrame(input) {
      var frame := input[..FirstLen(input)];
      assert p.act(k, input[0], frame[FRAME_HEADER_LEN..]) == Some(Forward);
    }
  }

  lemma {:induction false} FirstIsFrame(input: bytes)
    requires HasFrame(input)
    ensures HasFrame(input[..FirstLen(input)]) && FirstLen(input[..FirstLen(input)]) == FirstLen(input)
  {
    assert input[..FirstLen(input)][..FRAME_HEADER_LEN] == input[..FRAME_HEADER_LEN];
  }

  lemma {:induction false} FrameThen(frame: bytes, rest: bytes)
    requires HasFrame(frame) && FirstLen(frame) == |frame| && WellFramed(rest)
    ensures WellFramed(frame + rest)
  {
    FirstOfConcat(frame, rest);
    assert frame[|frame|..] + rest == rest;
  }

  lemma {:induction false} PrefixThen(input: bytes, n: nat, rest: bytes)
    requires n <= |input| && rest <= input[n..]
    ensures input[..n] + rest <= input && input[n + |rest|..] == input[n..][|rest|..]
  {
    assert input == input[..n] + input[n..];
  }

  lemma {:induction false} WholeFramesGrow(input: bytes, o: Outcome)
    requires HasFrame(input) && IsWholeFrames(input[FirstLen(input)..], o)
    ensures IsWholeFrames(input, After(input[..FirstLen(input)], [], o))
  {
    FirstIsFrame(input);
    FrameThen(input[..FirstLen(input)], o.forward);
    PrefixThen(input, FirstLen(input), o.forward);
  }

  // ---------------------------------------------------------------- before authentication

  const AUTHENTICATION: byte := 82

  predicate IsAuthenticationOk(msgType: byte, body: bytes) {
    msgType == AUTHENTICATION && |body| >= 4 && body[..4] == [0, 0, 0, 0]
  }

  /** The flag after one backend frame: set once, never cleared. */
  method NoteAuthentication(seen: bool, msgType: byte, body: bytes) returns (now: bool)
    ensures now <==> seen || IsAuthenticationOk(msgType, body)
  {
    now := seen;
    if msgType == AUTHENTICATION && |body| >= 4 && ReadBigEndian32(body[..4]) == 0 {
      BigEndian32Inverse(0, body[..4]);
      now := true;
    }
    if |body| >= 4 && body[..4] == [0, 0, 0, 0] {
      assert ReadBigEndian32(body[..4]) == 0;
    }
  }

  predicate Accepted(backend: seq<(byte, bytes)>, n: nat)
    requires n <= |backend|
  {
    exists i | 0 <= i < n :: IsAuthenticationOk(backend[i].0, backend[i].1)
  }

  lemma {:induction false} AcceptedNext(seen: Stream, f: (byte, bytes), n: nat)
    requires n <= |seen|
    ensures Accepted(seen + [f], n) == Accepted(seen, n)
    ensures Accepted(seen + [f], |seen| + 1) <==> Accepted(seen, |seen|) || IsAuthenticationOk(f.0, f.1)
  {
    var more := seen + [f];
    assert forall i | 0 <= i < |seen| :: more[i] == seen[i];
    assert more[|seen|] == f;
    if Accepted(seen, n) {
      var i :| 0 <= i < n && IsAuthenticationOk(seen[i].0, seen[i].1);
      assert IsAuthenticationOk(more[i].0, more[i].1);
    }
    if Accepted(seen, |seen|) {
      var i :| 0 <= i < |seen| && IsAuthenticationOk(seen[i].0, seen[i].1);
      assert IsAuthenticationOk(more[i].0, more[i].1);
    }
  }

  // ---------------------------------------------------------------- both directions

  /** One direction, turn by turn: where a turn leaves it, the frame the turn takes, if any, and what it
      writes, forward and back. */
  datatype Lane = Lane(
    turn: (nat, Progress) -> Progress, frame: (nat, Progress) -> Option<(byte, bytes)>,
    writes: (nat, Progress) -> (bytes, bytes))

  function TakenFrame(p: Peer, k: nat, rest: bytes): (f: Option<(byte, bytes)>) {
    match Take(p, k, rest)
    case Finished(_) => None
    case Frame(msgType, bodyLen) => Some((msgType, rest[FRAME_HEADER_LEN..FRAME_HEADER_LEN + bodyLen]))
  }

  function LaneOf(p: Peer): (lane: Lane) {
    Lane((k: nat, r: Progress) => if r.Stopped? then r else OneTurn(p, k, r.forward, r.back, r.rest),
         (k: nat, r: Progress) => if r.Stopped? then None else TakenFrame(p, k, r.rest),
         (k: nat, r: Progress) => if r.Stopped? then ([], []) else WrittenBy(p, k, r.rest))
  }

  function WithFlag(p: Peer, flag: bool): (r: Peer) {
    p.(authenticated := _ => flag)
  }

  /** The client's direction, told at its `k`-th header what the flag was then. */
  function WithFlags(p: Peer, flags: seq<bool>): (r: Peer) {
    p.(authenticated := (k: nat) => k < |flags| && flags[k])
  }

  /** The client's direction for each value of the flag. */
  function Flagged(client: Peer): (lanes: bool -> Lane) {
    flag => LaneOf(WithFlag(client, flag))
  }

  datatype Side = FromClient | FromBackend

  /** What one turn of the direction from `side` wrote: forward to the other side, back to its own. */
  datatype Wrote = Wrote(side: Side, forward: bytes, back: bytes)

  /** What the peer on `side` is sent, by both directions, in the order of their turns. */
  function Received(wrote: seq<Wrote>, side: Side): (b: bytes) {
    if wrote == [] then []
    else
      var last := wrote[|wrote| - 1];
      Received(wrote[..|wrote| - 1], side) + (if last.side == side then last.back else last.forward)
  }

  /** Both directions under way. `authenticated` is the flag they share. Of the client's direction:
      `flags` what the flag was at each header, `noted` how many backend frames had been handled by
      then, and `held` the length of every body it held. Of the backend's: `seen` the frames
      handled in its `received` turns. `wrote` is what each turn of either wrote. */
  datatype Link = Link(
    up: Progress, down: Progress, received: nat, authenticated: bool,
    flags: seq<bool>, noted: seq<nat>, held: seq<nat>, seen: Stream, wrote: seq<Wrote>)

  function Linked(up: Progress, down: Progress): (l: Link) {
    Link(up, down, 0, false, [], [], [], [], [])
  }

  /** A turn of the client's direction, with the flag as it is now. */
  function ClientTurn(client: bool -> Lane, l: Link): (r: Link) {
    var lane, k := client(l.authenticated), |l.flags|;
    var frame, w := lane.frame(k, l.up), lane.writes(k, l.up);
    l.(up := lane.turn(k, l.up), wrote := l.wrote + [Wrote(FromClient, w.0, w.1)],
       flags := l.flags + [l.authenticated], noted := l.noted + [|l.seen|],
       held := if frame.Some? then l.held + [|frame.value.1|] else l.held)
  }

  /** A turn of the backend's direction: its frame is noted before it is handled. */
  function BackendTurn(upstream: Lane, l: Link): (r: Link) {
    var frame, w := upstream.frame(l.received, l.down), upstream.writes(l.received, l.down);
    var n := l.(down := upstream.turn(l.received, l.down), received := l.received + 1,
                wrote := l.wrote + [Wrote(FromBackend, w.0, w.1)]);
    if frame.None? then n
    else
      n.(authenticated := l.authenticated || IsAuthenticationOk(frame.value.0, frame.value.1),
         seen := l.seen + [frame.value])
  }

  function NextTurn(client: bool -> Lane, upstream: Lane, l: Link, side: Side): (r: Link) {
    if side.FromClient? && l.up.Going? then ClientTurn(client, l)
    else if side.FromBackend? && l.down.Going? then BackendTurn(upstream, l)
    else l
  }

  /** Both directions after the first `n` turns of an interleaving. */
  function Interleaved(client: bool -> Lane, upstream: Lane, start: Link, schedule: seq<Side>, n: nat): (l: Link)
    requires n <= |schedule|
  {
    if n == 0 then start
    else NextTurn(client, upstream, Interleaved(client, upstream, start, schedule, n - 1), schedule[n - 1])
  }

  lemma {:induction false} ReceivedNext(wrote: seq<Wrote>, w: Wrote, side: Side)
    ensures Received(wrote + [w], side) == Received(wrote, side) + (if w.side == side then w.back else w.forward)
  {
    assert (wrote + [w])[..|wrote|] == wrote;
  }

  /** What a link's two sockets have been sent: the client's, and the backend's. */
  function Sent(l: Link): (b: (bytes, bytes)) {
    (Received(l.wrote, FromClient), Received(l.wrote, FromBackend))
  }

  lemma {:induction false} TurnSends(client: bool -> Lane, upstream: Lane, l: Link, side: Side)
    ensures Sent(NextTurn(client, upstream, l, side))
         == if side.FromClient? && l.up.Going? then
              var w := client(l.authenticated).writes(|l.flags|, l.up);
              (Sent(l).0 + w.1, Sent(l).1 + w.0)
            else if side.FromBackend? && l.down.Going? then
              var w := upstream.writes(l.received, l.down);
              (Sent(l).0 + w.0, Sent(l).1 + w.1)
            else Sent(l)
  {
    var n := NextTurn(client, upstream, l, side);
    if n.wrote != l.wrote {
      ReceivedNext(l.wrote, n.wrote[|l.wrote|], FromClient);
      ReceivedNext(l.wrote, n.wrote[|l.wrote|], FromBackend);
    }
  }

  /** The two relays, in the interleaving they happen to run in, and what they write to the two sockets
      they share. */
  method RelayBoth(client: Peer, upstream: Peer, fromClient: bytes, fromBackend: bytes, schedule: seq<Side>)
    returns (up: Progress, down: Progress, toClient: bytes, toBackend: bytes)
    ensures var start := Linked(Going([], [], fromClient), Going([], [], fromBackend));
            var l := Interleaved(Flagged(client), LaneOf(upstream), start, schedule, |schedule|);
            up == l.up && down == l.down && (toClient, toBackend) == Sent(l)
  {
    up, down := Going([], [], fromClient), Going([], [], fromBackend);
    toClient, toBackend := [], [];
    var authenticated, sent, received := false, 0, 0;
    ghost var start := Linked(up, down);
    ghost var l := start;
    for i := 0 to |schedule|
      invariant l == Interleaved(Flagged(client), LaneOf(upstream), start, schedule, i)
      invariant up == l.up && down == l.down && received == l.received
      invariant authenticated == l.authenticated && sent == |l.flags|
      invariant (toClient, toBackend) == Sent(l)
    {
      TurnSends(Flagged(client), LaneOf(upstream), l, schedule[i]);
      l := NextTurn(Flagged(client), LaneOf(upstream), l, schedule[i]);
      if schedule[i].FromClient? && up.Going? {
        var turn, w, _ := Turn(WithFlag(client, authenticated), sent, up.forward, up.back, up.rest);
        up, sent := turn, sent + 1;
        toBackend, toClient := toBackend + w.0, toClient + w.1;
      } else if schedule[i].FromBackend? && down.Going? {
        var frame := TakenFrame(upstream, received, down.rest);
        if frame.Some? {
          authenticated := NoteAuthentication(authenticated, frame.value.0, frame.value.1);
        }
        var turn, w, _ := Turn(upstream, received, down.forward, down.back, down.rest);
        down, received := turn, received + 1;
        toClient, toBackend := toClient + w.0, toBackend + w.1;
      }
    }
  }

  // -- the flag

  function Limit(flag: bool): (n: nat) {
    if flag then MAX_MESSAGE_LEN else MAX_PRE_AUTH_MESSAGE_LEN
  }

  ghost predicate Bounded(client: bool -> Lane) {
    forall flag: bool, k: nat, r: Progress ::
      client(flag).frame(k, r).Some? ==> |client(flag).frame(k, r).value.1| <= Limit(flag)
  }

  lemma {:induction false} RelayBounded(client: Peer)
    ensures Bounded(Flagged(client))
  {
  }

  /** The flag says whether a backend frame handled so far accepts the client, and said so at every
      client header; and no body over the limit it set was held. */
  ghost predicate FlagTold(l: Link) {
    && l.authenticated == Accepted(l.seen, |l.seen|)
    && |l.noted| == |l.flags| && |l.held| <= |l.flags|
    && (forall k | 0 <= k < |l.noted| :: l.noted[k] <= |l.seen| && l.flags[k] == Accepted(l.seen, l.noted[k]))
    && (forall i, j | 0 <= i < j < |l.noted| :: l.noted[i] <= l.noted[j])
  }

  lemma {:induction false} ClientKeepsFlag(client: bool -> Lane, l: Link)
    requires FlagTold(l)
    ensures FlagTold(ClientTurn(client, l))
  {
  }

  lemma {:induction false} BackendKeepsFlag(upstream: Lane, l: Link)
    requires FlagTold(l)
    ensures FlagTold(BackendTurn(upstream, l))
  {
    var n := BackendTurn(upstream, l);
    if n.seen != l.seen {
      var f := n.seen[|l.seen|];
      AcceptedNext(l.seen, f, |l.seen|);
      forall k | 0 <= k < |n.noted| ensures n.noted[k] <= |n.seen| && n.flags[k] == Accepted(n.seen, n.noted[k]) {
        AcceptedNext(l.seen, f, l.noted[k]);
      }
    }
  }

  /** Every body held was within the limit at its header; the `k`-th body belongs to the `k`-th turn. */
  predicate HeldWithin(l: Link) {
    && |l.held| <= |l.flags| && (l.up.Going? ==> |l.held| == |l.flags|)
    && forall k | 0 <= k < |l.held| :: l.held[k] <= Limit(l.flags[k])
  }

  /** A turn that leaves the direction going has taken a frame. */
  ghost predicate TakesToGo(client: bool -> Lane) {
    forall flag: bool, k: nat, r: Progress ::
      r.Going? && client(flag).turn(k, r).Going? ==> client(flag).frame(k, r).Some?
  }

  lemma {:induction false} RelayTakes(client: Peer)
    ensures TakesToGo(Flagged(client))
  {
  }

  lemma {:induction false} ClientHolds(client: bool -> Lane, l: Link)
    requires Bounded(client) && TakesToGo(client) && HeldWithin(l) && l.up.Going?
    ensures HeldWithin(ClientTurn(client, l))
  {
    var n, frame := ClientTurn(client, l), client(l.authenticated).frame(|l.flags|, l.up);
    forall k | 0 <= k < |n.held| ensures n.held[k] <= Limit(n.flags[k]) {
      assert k < |l.held| ==> n.held[k] == l.held[k] && n.flags[k] == l.flags[k];
      assert k == |l.held| ==> frame.Some? && n.held[k] == |frame.value.1|;
    }
  }

  /** In every interleaving of two directions that share the flag: when the client's `k`-th header is
      read, the flag says whether one of the `noted[k]` backend frames handled until then accepts the
      client, and `noted` only grows; and until one does, no body over the small limit is held. */
  lemma {:induction false} FlagThroughout(
      client: bool -> Lane, upstream: Lane, start: Link, schedule: seq<Side>, n: nat)
    requires n <= |schedule| && Bounded(client) && TakesToGo(client) && FlagTold(start) && HeldWithin(start)
    ensures FlagTold(Interleaved(client, upstream, start, schedule, n))
    ensures HeldWithin(Interleaved(client, upstream, start, schedule, n))
  {
    if n > 0 {
      FlagThroughout(client, upstream, start, schedule, n - 1);
      TurnKeepsFlag(client, upstream, Interleaved(client, upstream, start, schedule, n - 1), schedule[n - 1]);
    }
  }

  lemma {:induction false} TurnKeepsFlag(client: bool -> Lane, upstream: Lane, l: Link, side: Side)
    requires Bounded(client) && TakesToGo(client) && FlagTold(l) && HeldWithin(l)
    ensures FlagTold(NextTurn(client, upstream, l, side)) && HeldWithin(NextTurn(client, upstream, l, side))
  {
    if side.FromClient? && l.up.Going? {
      ClientKeepsFlag(client, l);
      ClientHolds(client, l);
    } else if side.FromBackend? && l.down.Going? {
      BackendKeepsFlag(upstream, l);
    }
  }

  // -- the sockets

  /** What a direction has written so far, forward and back. */
  function Output(r: Progress): (o: (bytes, bytes)) {
    match r
    case Stopped(o) => (o.forward, o.back)
    case Going(forward, back, _) => (forward, back)
  }

  /** What the turns of the direction from `side` wrote, forward and back. */
  function WrittenFrom(wrote: seq<Wrote>, side: Side): (o: (bytes, bytes)) {
    if wrote == [] then ([], [])
    else
      var (forward, back) := WrittenFrom(wrote[..|wrote| - 1], side);
      var last := wrote[|wrote| - 1];
      if last.side == side then (forward + last.forward, back + last.back) else (forward, back)
  }

  lemma {:induction false} WrittenNext(wrote: seq<Wrote>, w: Wrote, side: Side)
    ensures var o := WrittenFrom(wrote, side);
            WrittenFrom(wrote + [w], side) == if w.side == side then (o.0 + w.forward, o.1 + w.back) else o
  {
    assert (wrote + [w])[..|wrote|] == wrote;
  }

  predicate WholeTurns(wrote: seq<Wrote>) {
    forall i | 0 <= i < |wrote| :: WellFramed(wrote[i].forward) && WellFramed(wrote[i].back)
  }

  /** The frames the peer on `side` is sent, turn by turn. */
  function FramesFor(wrote: seq<Wrote>, side: Side): (fs: Stream)
    requires WholeTurns(wrote)
  {
    if wrote == [] then []
    else
      var last := wrote[|wrote| - 1];
      FramesFor(wrote[..|wrote| - 1], side) + FramesIn(if last.side == side then last.back else last.forward)
  }

  /** What a socket is sent is whole frames, those of one turn after those of the turn before it. */
  lemma {:induction false} SocketFrames(wrote: seq<Wrote>, side: Side)
    requires WholeTurns(wrote)
    ensures WellFramed(Received(wrote, side)) && FramesIn(Received(wrote, side)) == FramesFor(wrote, side)
  {
    if wrote != [] {
      var last := wrote[|wrote| - 1];
      SocketFrames(wrote[..|wrote| - 1], side);
      FramesConcat(Received(wrote[..|wrote| - 1], side), if last.side == side then last.back else last.forward);
    }
  }

  /** A lane writes whole frames, and its progress is what its turns have written. */
  ghost predicate WritesFrames(lane: Lane) {
    forall k: nat, r: Progress ::
      && WellFramed(lane.writes(k, r).0) && WellFramed(lane.writes(k, r).1)
      && Output(lane.turn(k, r)) == (Output(r).0 + lane.writes(k, r).0, Output(r).1 + lane.writes(k, r).1)
  }

  lemma {:induction false} RelayWritesTurn(p: Peer, k: nat, r: Progress)
    requires Framed(p)
    ensures var lane := LaneOf(p);
            && WellFramed(lane.writes(k, r).0) && WellFramed(lane.writes(k, r).1)
            && Output(lane.turn(k, r)) == (Output(r).0 + lane.writes(k, r).0, Output(r).1 + lane.writes(k, r).1)
  {
    assert Output(r).0 + [] == Output(r).0 && Output(r).1 + [] == Output(r).1;
    if r.Going? && Take(p, k, r.rest).Frame? {
      var t := Take(p, k, r.rest);
      TakenIsFrame(p, k, r.rest);
      WritesOne(p, k, t.msgType, r.rest[..FRAME_HEADER_LEN + t.bodyLen]);
    }
  }

  lemma {:induction false} RelayWritesFrames(p: Peer)
    requires Framed(p)
    ensures WritesFrames(LaneOf(p))
  {
    var lane := LaneOf(p);
    forall k: nat, r: Progress
      ensures && WellFramed(lane.writes(k, r).0) && WellFramed(lane.writes(k, r).1)
              && Output(lane.turn(k, r)) == (Output(r).0 + lane.writes(k, r).0, Output(r).1 + lane.writes(k, r).1)
    {
      RelayWritesTurn(p, k, r);
    }
  }

  lemma {:induction false} FlaggedWritesFrames(client: Peer, flag: bool)
    requires Framed(client)
    ensures WritesFrames(Flagged(client)(flag))
  {
    assert Framed(WithFlag(client, flag)) by {
      forall j, t, body ensures AnswersFramed(WithFlag(client, flag), j, t, body) {
        assert AnswersFramed(client, j, t, body);
      }
    }
    RelayWritesFrames(WithFlag(client, flag));
  }

  /** Every turn wrote whole frames, and the turns of each direction wrote what it has put out so far. */
  predicate Told(wrote: seq<Wrote>, up: (bytes, bytes), down: (bytes, bytes)) {
    WholeTurns(wrote) && WrittenFrom(wrote, FromClient) == up && WrittenFrom(wrote, FromBackend) == down
  }

  predicate SocketsTold(l: Link) {
    Told(l.wrote, Output(l.up), Output(l.down))
  }

  lemma {:induction false} ToldNext(wrote: seq<Wrote>, up: (bytes, bytes), down: (bytes, bytes), w: Wrote)
    requires Told(wrote, up, down) && WellFramed(w.forward) && WellFramed(w.back)
    ensures if w.side.FromClient? then Told(wrote + [w], (up.0 + w.forward, up.1 + w.back), down)
            else Told(wrote + [w], up, (down.0 + w.forward, down.1 + w.back))
  {
    WrittenNext(wrote, w, FromClient);
    WrittenNext(wrote, w, FromBackend);
  }

  lemma {:induction false} ClientKeepsSockets(client: bool -> Lane, l: Link)
    requires WritesFrames(client(l.authenticated)) && SocketsTold(l)
    ensures SocketsTold(ClientTurn(client, l))
  {
    var w := client(l.authenticated).writes(|l.flags|, l.up);
    ToldNext(l.wrote, Output(l.up), Output(l.down), Wrote(FromClient, w.0, w.1));
  }

  lemma {:induction false} BackendKeepsSockets(upstream: Lane, l: Link)
    requires WritesFrames(upstream) && SocketsTold(l)
    ensures SocketsTold(BackendTurn(upstream, l))
  {
    var w := upstream.writes(l.received, l.down);
    ToldNext(l.wrote, Output(l.up), Output(l.down), Wrote(FromBackend, w.0, w.1));
  }

  lemma {:induction false} TurnKeepsSockets(client: bool -> Lane, upstream: Lane, l: Link, side: Side)
    requires (forall flag :: WritesFrames(client(flag))) && WritesFrames(upstream) && SocketsTold(l)
    ensures SocketsTold(NextTurn(client, upstream, l, side))
  {
    if side.FromClient? && l.up.Going? {
      ClientKeepsSockets(client, l);
    } else if side.FromBackend? && l.down.Going? {
      BackendKeepsSockets(upstream, l);
    }
  }

  lemma {:induction false} SocketsThroughout(
      client: bool -> Lane, upstream: Lane, start: Link, schedule: seq<Side>, n: nat)
    requires n <= |schedule| && SocketsTold(start)
    requires (forall flag :: WritesFrames(client(flag))) && WritesFrames(upstream)
    ensures SocketsTold(Interleaved(client, upstream, start, schedule, n))
  {
    if n > 0 {
      SocketsThroughout(client, upstream, start, schedule, n - 1);
      TurnKeepsSockets(client, upstream, Interleaved(client, upstream, start, schedule, n - 1), schedule[n - 1]);
    }
  }

  /** The two relays share both sockets: in any interleaving each socket is sent complete frames and
      nothing else, those of each turn together, and of them those a direction wrote are that
      direction's own output. */
  lemma {:induction false} SocketsStayFramed(
      client: Peer, upstream: Peer, fromClient: bytes, fromBackend: bytes, schedule: seq<Side>, n: nat, side: Side)
    requires n <= |schedule| && Framed(client) && Framed(upstream)
    ensures var start := Linked(Going([], [], fromClient), Going([], [], fromBackend));
            var l := Interleaved(Flagged(client), LaneOf(upstream), start, schedule, n);
            && SocketsTold(l) && WellFramed(Received(l.wrote, side))
            && FramesIn(Received(l.wrote, side)) == FramesFor(l.wrote, side)
  {
    var start := Linked(Going([], [], fromClient), Going([], [], fromBackend));
    forall flag ensures WritesFrames(Flagged(client)(flag)) {
      FlaggedWritesFrames(client, flag);
    }
    RelayWritesFrames(upstream);
    SocketsThroughout(Flagged(client), LaneOf(upstream), start, schedule, n);
    SocketFrames(Interleaved(Flagged(client), LaneOf(upstream), start, schedule, n).wrote, side);
  }

  // -- each direction

  /** Where the client's direction gets in `n` turns, given the flag at each. */
  function Driven(client: bool -> Lane, flags: seq<bool>, n: nat, start: Progress): (r: Progress)
    requires n <= |flags|
  {
    if n == 0 then start else client(flags[n - 1]).turn(n - 1, Driven(client, flags, n - 1, start))
  }

  /** Where the backend's direction gets in `n` turns, and the frames it takes in them. */
  function Alone(upstream: Lane, n: nat, start: Progress): (r: (Progress, Stream)) {
    if n == 0 then (start, [])
    else
      var (r, fs) := Alone(upstream, n - 1, start);
      (upstream.turn(n - 1, r), fs + (match upstream.frame(n - 1, r) case Some(f) => [f] case None => []))
  }

  /** Each direction is where it would be alone, given the flag. */
  predicate EachAlone(client: bool -> Lane, upstream: Lane, start: Link, l: Link) {
    && l.up == Driven(client, l.flags, |l.flags|, start.up)
    && (l.down, l.seen) == Alone(upstream, l.received, start.down)
  }

  lemma {:induction false} SameSoFar(client: bool -> Lane, flags: seq<bool>, flag: bool, n: nat, start: Progress)
    requires n <= |flags|
    ensures Driven(client, flags + [flag], n, start) == Driven(client, flags, n, start)
  {
    if n > 0 {
      SameSoFar(client, flags, flag, n - 1, start);
    }
  }

  lemma {:induction false} AloneThroughout(
      client: bool -> Lane, upstream: Lane, start: Link, schedule: seq<Side>, n: nat)
    requires n <= |schedule| && start.flags == [] && start.seen == [] && start.received == 0
    ensures EachAlone(client, upstream, start, Interleaved(client, upstream, start, schedule, n))
  {
    if n > 0 {
      AloneThroughout(client, upstream, start, schedule, n - 1);
      TurnAlone(client, upstream, start, Interleaved(client, upstream, start, schedule, n - 1), schedule[n - 1]);
    }
  }

  lemma {:induction false} TurnAlone(client: bool -> Lane, upstream: Lane, start: Link, l: Link, side: Side)
    requires EachAlone(client, upstream, start, l)
    ensures EachAlone(client, upstream, start, NextTurn(client, upstream, l, side))
  {
    if side.FromClient? && l.up.Going? {
      SameSoFar(client, l.flags, l.authenticated, |l.flags|, start.up);
    } else if side.FromBackend? && l.down.Going? {
      assert l.seen + [] == l.seen;
    }
  }

  // -- the relays

  lemma {:induction false} SetOut(p: Peer, input: bytes)
    ensures Finally(p, 0, Going([], [], input)) == Relayed(p, 0, input)
  {
    ContinuedIsAfter(p, 0, [], [], input);
    AfterNothing([], [], None, Relayed(p, 0, input));
  }

  lemma {:induction false} SameTurn(p: Peer, q: Peer, k: nat, forward: bytes, back: bytes, rest: bytes)
    requires p.act == q.act && p.authenticated(k) == q.authenticated(k) && p.stopped == q.stopped
    ensures OneTurn(p, k, forward, back, rest) == OneTurn(q, k, forward, back, rest)
  {
    assert MaxBody(p, k) == MaxBody(q, k);
  }

  /** What is still to come of a direction is the same before and after a turn. */
  lemma {:induction false} TurnKeepsOutcome(p: Peer, q: Peer, k: nat, r: Progress)
    requires p.act == q.act && p.authenticated(k) == q.authenticated(k) && p.stopped == q.stopped
    ensures Finally(p, k + 1, LaneOf(q).turn(k, r)) == Finally(p, k, r)
  {
    if r.Going? {
      SameTurn(p, q, k, r.forward, r.back, r.rest);
      TurnContinues(p, k, r.forward, r.back, r.rest);
    }
  }

  lemma {:induction false} DrivenKeeps(
      client: bool -> Lane, flags: seq<bool>, n: nat, start: Progress, outcome: (nat, Progress) -> Outcome)
    requires n <= |flags|
    requires forall k: nat, r | k < |flags| :: outcome(k + 1, client(flags[k]).turn(k, r)) == outcome(k, r)
    ensures outcome(n, Driven(client, flags, n, start)) == outcome(0, start)
  {
    if n > 0 {
      DrivenKeeps(client, flags, n - 1, start, outcome);
    }
  }

  lemma {:induction false} AloneKeeps(upstream: Lane, n: nat, start: Progress, outcome: (nat, Progress) -> Outcome)
    requires forall k: nat, r :: outcome(k + 1, upstream.turn(k, r)) == outcome(k, r)
    ensures outcome(n, Alone(upstream, n, start).0) == outcome(0, start)
  {
    if n > 0 {
      AloneKeeps(upstream, n - 1, start, outcome);
    }
  }

  /** The client's direction is on the way to its outcome. */
  lemma {:induction false} DrivenIsRelayed(client: Peer, flags: seq<bool>, input: bytes)
    ensures var r := Driven(Flagged(client), flags, |flags|, Going([], [], input));
            r.Stopped? ==> r.outcome == Relayed(WithFlags(client, flags), 0, input)
  {
    var p := WithFlags(client, flags);
    var outcome := (k: nat, r: Progress) => Finally(p, k, r);
    forall k: nat, r | k < |flags|
      ensures outcome(k + 1, Flagged(client)(flags[k]).turn(k, r)) == outcome(k, r)
    {
      TurnKeepsOutcome(p, WithFlag(client, flags[k]), k, r);
    }
    DrivenKeeps(Flagged(client), flags, |flags|, Going([], [], input), outcome);
    SetOut(p, input);
  }

  /** The backend's direction is on the way to its outcome. */
  lemma {:induction false} AloneIsRelayed(p: Peer, n: nat, input: bytes)
    ensures var r := Alone(LaneOf(p), n, Going([], [], input)).0;
            r.Stopped? ==> r.outcome == Relayed(p, 0, input)
  {
    var outcome := (k: nat, r: Progress) => Finally(p, k, r);
    forall k: nat, r ensures outcome(k + 1, LaneOf(p).turn(k, r)) == outcome(k, r) {
      TurnKeepsOutcome(p, p, k, r);
    }
    AloneKeeps(LaneOf(p), n, Going([], [], input), outcome);
    SetOut(p, input);
  }

  /** What a direction has still to take. */
  function StillArriving(p: Peer, k: nat, r: Progress): (fs: Stream) {
    if r.Stopped? then [] else Arriving(p, k, r.rest)
  }

  /** A turn takes the first of the frames `left`, and leaves the others. */
  predicate TakesFirst(lane: Lane, left: (nat, Progress) -> Stream, k: nat, r: Progress) {
    var n, f := lane.turn(k, r), lane.frame(k, r);
    if r.Stopped? then n == r && f.None?
    else if f.None? then n.Stopped?
    else left(k, r) != [] && left(k, r)[0] == f.value && (n.Going? ==> left(k, r)[1..] == left(k + 1, n))
  }

  lemma {:induction false} RelayTakesFirst(p: Peer, k: nat, r: Progress, left: (nat, Progress) -> Stream)
    requires left == ((k: nat, r: Progress) => StillArriving(p, k, r))
    ensures TakesFirst(LaneOf(p), left, k, r)
  {
    if r.Going? && Take(p, k, r.rest).Frame? {
      TurnRest(p, k, r);
    }
  }

  lemma {:induction false} TurnRest(p: Peer, k: nat, r: Progress)
    requires r.Going? && Take(p, k, r.rest).Frame?
    ensures var n, f := LaneOf(p).turn(k, r), LaneOf(p).frame(k, r);
            && f.Some? && StillArriving(p, k, r) != [] && StillArriving(p, k, r)[0] == f.value
            && (n.Going? ==> StillArriving(p, k, r)[1..] == StillArriving(p, k + 1, n))
  {
  }

  /** The frames a direction takes in `n` turns are the first of those it starts with. */
  lemma {:induction false} AloneTakes(upstream: Lane, n: nat, start: Progress, left: (nat, Progress) -> Stream)
    requires forall k: nat, r :: TakesFirst(upstream, left, k, r)
    ensures var (r, fs) := Alone(upstream, n, start);
            && fs <= left(0, start)
            && (r.Going? ==> fs + left(n, r) == left(0, start))
  {
    if n > 0 {
      AloneTakes(upstream, n - 1, start, left);
      var (r, fs) := Alone(upstream, n - 1, start);
      assert TakesFirst(upstream, left, n - 1, r);
      if r.Going? {
        TakesNext(fs, left(n - 1, r), left(0, start));
      }
      assert fs + [] == fs;
    }
  }

  lemma {:induction false} TakesNext(done: Stream, left: Stream, all: Stream)
    requires done + left == all
    ensures left != [] ==> done + [left[0]] <= all && (done + [left[0]]) + left[1..] == all
  {
    if left != [] {
      assert left == [left[0]] + left[1..];
      assert done + ([left[0]] + left[1..]) == (done + [left[0]]) + left[1..];
    }
  }

  /** The two relays, in any interleaving: the flag is right at every client header and no body over the
      limit it sets is held; the frames noted are the first of those that arrive from the backend;
      and a direction that has ended has the outcome it has alone, given the flag. */
  lemma {:induction false} RelayedTogether(
      client: Peer, upstream: Peer, fromClient: bytes, fromBackend: bytes, schedule: seq<Side>, n: nat)
    requires n <= |schedule|
    ensures var start := Linked(Going([], [], fromClient), Going([], [], fromBackend));
            var l := Interleaved(Flagged(client), LaneOf(upstream), start, schedule, n);
            && FlagTold(l) && HeldWithin(l) && l.seen <= Arriving(upstream, 0, fromBackend)
            && (l.up.Stopped? ==> l.up.outcome == Relayed(WithFlags(client, l.flags), 0, fromClient))
            && (l.down.Stopped? ==> l.down.outcome == Relayed(upstream, 0, fromBackend))
  {
    var start := Linked(Going([], [], fromClient), Going([], [], fromBackend));
    var l := Interleaved(Flagged(client), LaneOf(upstream), start, schedule, n);
    RelayBounded(client);
    RelayTakes(client);
    FlagThroughout(Flagged(client), LaneOf(upstream), start, schedule, n);
    AloneThroughout(Flagged(client), LaneOf(upstream), start, schedule, n);
    DrivenIsRelayed(client, l.flags, fromClient);
    AloneIsRelayed(upstream, l.received, fromBackend);
    var left := (k: nat, r: Progress) => StillArriving(upstream, k, r);
    forall k: nat, r ensures TakesFirst(LaneOf(upstream), left, k, r) {
      RelayTakesFirst(upstream, k, r, left);
    }
    AloneTakes(LaneOf(upstream), l.received, start.down, left);
  }
}
