/** The queue of owed responses between a client and a pipelining backend.

    The state is the history of recorded client frames, how far the backend has consumed it, the
    messages the backend has sent and the read path has not handled yet, and `tags`: for every
    entry of the proxy's `pending` queue, the position in the history of the frame that queued it.
    What the two relay directions do to the queue depends on the kinds of its entries only, so it
    is defined here on tags; `Session` ties it to the tracker itself.

    Beside the queue the state keeps what the proxy cannot know: `ideal`, the queue of a proxy that
    removes an entry as soon as the backend has consumed its frame without answering it, the
    positions `lost` in that way, the positions `dropped` from the real queue by copy frames, and the
    positions of the Parse, Bind and Close frames that the backend has `taken`: consumed neither
    with an error nor while discarding. */
module Queue {
  import opened Bytes
  import opened Frames
  import opened Backend

  type Tags = seq<nat>

  /** What the messages handled so far have told the client side: whether an error of the current
      batch is unresolved, and which frame the last RowDescription answered. */
  datatype Reader = Reader(err: bool, desc: Option<nat>)

  /** The Execute, by position, whose copy the client is taken to be feeding. */
  datatype Copy = NotCopying | Copying(execute: Option<nat>)

  /** `missed` counts the ReadyForQuery messages that found no marker. `feeding`: the client has seen
      a CopyInResponse and has not ended that copy yet. `open`: it has sent extended-protocol
      frames that no Sync has closed. */
  datatype Queue = Queue(
    log: Log, consumed: nat, mode: Mode, down: seq<Message>,
    tags: Tags, copy: Copy, reader: Reader,
    ideal: Tags, lost: set<nat>, dropped: set<nat>, missed: nat, taken: set<nat>,
    feeding: bool, open: bool)

  const Empty: Queue :=
    Queue([], 0, Normal, [], [], NotCopying, Reader(false, None), [], {}, {}, 0, {}, false, false)

  // ---------------------------------------------------------------- walks over the queue

  /** The expectations recorded from position `k` on. */
  function TrackedFrom(log: Log, k: nat): (r: Tags)
    decreases |log| - k
  {
    if k >= |log| then []
    else if IsTracked(log[k]) then [k] + TrackedFrom(log, k + 1)
    else TrackedFrom(log, k + 1)
  }

  /** The queue from its first batch marker on. */
  function FromMarker(log: Log, tags: Tags): (r: Tags)
    ensures r != [] ==> BatchAt(log, r[0])
  {
    if tags == [] then []
    else if BatchAt(log, tags[0]) then tags
    else FromMarker(log, tags[1..])
  }

  /** `batch_answered`: everything up to and including the first batch marker is settled. */
  function AfterMarker(log: Log, tags: Tags): (r: Tags) {
    var m := FromMarker(log, tags);
    if m == [] then [] else m[1..]
  }

  /** A queue without the run of batch markers at its front. */
  function DropMarkers(log: Log, tags: Tags): (r: Tags) {
    if tags != [] && BatchAt(log, tags[0]) then DropMarkers(log, tags[1..]) else tags
  }

  /** The queue without the run of batch markers directly behind the entry of frame `e`. */
  function DropBehind(log: Log, tags: Tags, e: nat): (r: Tags) {
    if tags == [] then []
    else if tags[0] == e then [e] + DropMarkers(log, tags[1..])
    else [tags[0]] + DropBehind(log, tags[1..], e)
  }

  /** A sequence without the `n` elements from `i` on. */
  function Cut<T>(s: seq<T>, i: nat, n: nat): (r: seq<T>)
    requires i + n <= |s|
    ensures |r| == |s| - n && forall j | 0 <= j < |r| :: r[j] == s[if j < i then j else j + n]
  {
    s[..i] + s[i + n..]
  }

  function Without(tags: Tags, k: nat): (r: Tags) {
    if tags == [] then []
    else if tags[0] == k then Without(tags[1..], k)
    else [tags[0]] + Without(tags[1..], k)
  }

  // ---------------------------------------------------------------- the read path

  function PopDescribe(log: Log, tags: Tags): (r: Tags) {
    if tags != [] && DescribeAt(log, tags[0]) then tags[1..] else tags
  }

  function PopExecute(log: Log, tags: Tags): (r: Tags) {
    if tags != [] && ExecuteAt(log, tags[0]) then tags[1..] else tags
  }

  /** What handling one message does to the queue. */
  function HandleTags(log: Log, tags: Tags, m: Message): (r: Tags) {
    if m.RowDescription? || m.NoData? then PopDescribe(log, tags)
    else if m.Complete? || m.ErrorResponse? then PopExecute(log, tags)
    else if m.ReadyForQuery? then AfterMarker(log, tags)
    else tags
  }

  function HandleReader(log: Log, rd: Reader, m: Message): (r: Reader) {
    match m
    case RowDescription(r, _) => rd.(desc := Some(r))
    case NoData(_) => rd.(desc := None)
    case Complete(_) => rd.(desc := None)
    case ErrorResponse(r) => Reader(rd.err || (r < |log| && IsExtended(log[r])), None)
    case ReadyForQuery(_) => Reader(false, None)
    case DataRow(_) => rd
    case CopyInResponse(_) => rd
  }

  function HandleCopy(log: Log, tags: Tags, copy: Copy, m: Message): (r: Copy) {
    match m
    case CopyInResponse(_) =>
      Copying(if tags != [] && ExecuteAt(log, tags[0]) then Some(tags[0]) else None)
    case ReadyForQuery(_) => NotCopying
    case _ => copy
  }

  /** The message answers the expectation it finds at the front of the queue. */
  predicate Expected(log: Log, tags: Tags, rd: Reader, m: Message) {
    var front := tags != [] && tags[0] == m.origin;
    match m
    case RowDescription(r, _) => !rd.err && front && (DescribeAt(log, r) || QueryAt(log, r))
    case NoData(r) => !rd.err && front && DescribeAt(log, r)
    case DataRow(r) =>
      !rd.err && front && (ExecuteAt(log, r) || (QueryAt(log, r) && rd.desc == Some(r)))
    case Complete(r) => !rd.err && front && (ExecuteAt(log, r) || QueryAt(log, r))
    case ErrorResponse(r) =>
      !rd.err && r < |log| && (IsExtended(log[r]) || BatchAt(log, r))
      && (TrackedAt(log, r) ==> front)
    case ReadyForQuery(r) =>
      BatchAt(log, r)
      && var m := FromMarker(log, tags); m != [] && m[0] == r && (rd.err || m == tags)
    case CopyInResponse(r) => !rd.err && front && (ExecuteAt(log, r) || QueryAt(log, r))
  }

  // ---------------------------------------------------------------- steps

  /** The effect of a copy frame: while a copy started by an Execute is being fed, the markers directly
      behind that Execute are dropped. */
  function PayloadTags(q: Queue): (r: Tags) {
    if q.copy.Copying? && q.copy.execute.Some?
    then DropBehind(q.log, q.tags, q.copy.execute.value) else q.tags
  }

  function Removed(before: Tags, after: Tags): (r: set<nat>) {
    set x | x in before && x !in after
  }

  function Added(log: Log, f: Frame): (r: Tags) {
    if IsTracked(f) then [|log|] else []
  }

  function Opens(f: Frame, open: bool): (r: bool) {
    if IsExtended(f) then true else if IsBoundary(f) then false else open
  }

  /** The write path records frame `f`. */
  function Send(q: Queue, f: Frame): (r: Queue) {
    var tags := if OpensCopyPayload(f) then PayloadTags(q) else q.tags + Added(q.log, f);
    q.(log := q.log + [f],
       tags := tags,
       copy := if f.CopyDone? || f.CopyFail? then NotCopying else q.copy,
       ideal := q.ideal + Added(q.log, f),
       dropped := if OpensCopyPayload(f) then q.dropped + Removed(q.tags, tags) else q.dropped,
       feeding := q.feeding && !f.CopyDone? && !f.CopyFail?,
       open := Opens(f, q.open))
  }

  function Lose(tags: Tags, k: nat, loses: bool): (r: Tags) {
    if loses then Without(tags, k) else tags
  }

  /** The next frame names or forgets something, and takes effect: the backend goes on to `mode` with
      neither an error nor a discarded frame. */
  predicate Takes(q: Queue, mode: Mode) {
    q.consumed < |q.log| && IsNaming(q.log[q.consumed]) && q.mode.Normal? && mode.Normal?
  }

  /** The next frame is consumed; the backend sends `msgs` and continues in `mode`. */
  function Advance(q: Queue, msgs: seq<Message>, mode: Mode): (r: Queue) {
    var loses := Loses(q.log, q.consumed, q.mode);
    q.(consumed := q.consumed + 1, mode := mode, down := q.down + msgs,
       ideal := Lose(q.ideal, q.consumed, loses),
       lost := if loses then q.lost + {q.consumed} else q.lost,
       taken := if Takes(q, mode) then q.taken + {q.consumed} else q.taken)
  }

  /** The backend consumes the next frame. */
  function Consume(q: Queue, c: Choice): (r: Queue)
    requires q.consumed < |q.log| && MayChoose(q.log, q.consumed, q.mode, c)
  {
    var (msgs, mode) := Respond(q.log, q.consumed, q.mode, c);
    Advance(q, msgs, mode)
  }

  /** The backend aborts the copy in progress of its own accord. */
  function Abort(q: Queue): (r: Queue)
    requires q.mode.CopyIn?
  {
    var (msgs, mode) := Aborted(q.log, q.mode.starter);
    q.(mode := mode, down := q.down + msgs)
  }

  /** The read path handles the next message. */
  function Handle(q: Queue): (r: Queue)
    requires q.down != []
  {
    var m := q.down[0];
    q.(down := q.down[1..],
       tags := HandleTags(q.log, q.tags, m),
       copy := HandleCopy(q.log, q.tags, q.copy, m),
       reader := HandleReader(q.log, q.reader, m),
       ideal := HandleTags(q.log, q.ideal, m),
       missed := q.missed + (if m.ReadyForQuery? && FromMarker(q.log, q.tags) == [] then 1 else 0),
       feeding := m.CopyInResponse?
                  || (q.feeding && !m.Complete? && !m.ErrorResponse? && !m.ReadyForQuery?),
       open := q.open || (m.CopyInResponse? && ExecuteAt(q.log, m.origin)))
  }

  // ---------------------------------------------------------------- the ideal queue

  /** The ideal queue and the backend agree, with nothing in flight downstream. */
  predicate AtRest(log: Log, k: nat, mode: Mode, tags: Tags, rd: Reader) {
    && rd.err == mode.Skipping?
    && match mode
       case Normal => tags == TrackedFrom(log, k)
       case Skipping => FromMarker(log, tags) == FromMarker(log, TrackedFrom(log, k))
       case CopyIn(r, _) =>
         (ExecuteAt(log, r) || QueryAt(log, r)) && r < k && tags == [r] + TrackedFrom(log, k)
  }

  /** Every message in flight will find the expectation it answers at the front of the queue, and
      once all are handled the queue and the backend agree. */
  predicate Explains(log: Log, k: nat, mode: Mode, tags: Tags, down: seq<Message>, rd: Reader)
    decreases |down|
  {
    if down == [] then AtRest(log, k, mode, tags, rd)
    else
      && down[0].origin < k
      && Expected(log, tags, rd, down[0])
      && Explains(log, k, mode, HandleTags(log, tags, down[0]), down[1..],
                  HandleReader(log, rd, down[0]))
  }

  predicate Increasing(tags: Tags) {
    forall i, j | 0 <= i < j < |tags| :: tags[i] < tags[j]
  }

  predicate Recorded(log: Log, tags: Tags) {
    Increasing(tags) && forall i | 0 <= i < |tags| :: TrackedAt(log, tags[i])
  }

  /** Nothing recorded after an entry of the queue is missing from it, unless it has been lost. */
  ghost predicate Gapless(log: Log, tags: Tags, lost: set<nat>) {
    forall x, y | y in tags && x !in lost :: y < x && TrackedAt(log, x) ==> x in tags
  }

  /** What holds of the ideal queue in every state of every session. */
  ghost predicate Ideal(q: Queue) {
    && q.consumed <= |q.log|
    && (q.mode.CopyIn? ==> q.mode.starter <= q.mode.since < q.consumed)
    && Explains(q.log, q.consumed, q.mode, q.ideal, q.down, q.reader)
    && Recorded(q.log, q.ideal) && Gapless(q.log, q.ideal, q.lost)
    && (forall x | x in q.lost :: x < q.consumed && TrackedAt(q.log, x) && x !in q.ideal)
  }

  // ---------------------------------------------------------------- the real queue

  /** The entry of frame `x` still matters: no error is unresolved, or the batch it belongs to is
      behind the one whose error is. */
  predicate Live(q: Queue, x: nat) {
    || BatchAt(q.log, x) || !q.reader.err
    || exists b :: b in q.ideal && BatchAt(q.log, b) && b < x
  }

  predicate AgreeOn(q: Queue, x: nat) {
    x in q.tags <==> (x in q.ideal || x in q.lost) && x !in q.dropped
  }

  /** The real queue is the ideal one, with the lost entries and without the dropped ones. */
  ghost predicate Mirrors(q: Queue) {
    && Recorded(q.log, q.tags)
    && (forall x: nat | x in q.dropped :: BatchAt(q.log, x) && (x in q.ideal || x in q.lost))
    && (forall x: nat | Live(q, x) :: AgreeOn(q, x))
  }

  /** Nothing is in the way of the next message: no lost entry is queued ahead of the frame it answers,
      and that frame's own entry has not been dropped, or, for a frame that queues none, the marker
      that closes its batch. */
  predicate Clear(q: Queue)
    requires q.down != []
  {
    var r, m := q.down[0].origin, FromMarker(q.log, q.ideal);
    && (forall x | x in q.lost && x !in q.dropped :: r < x)
    && if TrackedAt(q.log, r) then r !in q.dropped else m != [] ==> m[0] !in q.dropped
  }
}
