/** A discipline of client and backend under which every message is handled in a clear state, so that
    the guarantees of `SessionTheorems` hold for the whole session. */
module Discipline {
  import opened Bytes
  import opened Frames
  import opened Backend
  import opened Queue
  import opened QueueProofs
  import opened Mirror
  import opened Session
  import opened Descriptions
  import opened MarkerLaw
  import opened SessionTheorems

  // ---------------------------------------------------------------- the discipline

  /** Frame `f` may be sent behind the copy of frame `r` before the client knows of the copy: the Sync
      of its own batch, and what the backend does not see or passes over. */
  predicate Quiet(log: Log, r: nat, f: Frame) {
    f.Flush? || f.RefusedBind? || (f.Sync? && ExecuteAt(log, r))
  }

  /** The client has not seen the CopyInResponse of the copy in progress. */
  predicate Unseen(q: Queue) {
    q.mode.CopyIn? && CopyInResponse(q.mode.starter) in q.down
  }

  /** A simple Query or a FunctionCall is not sent inside an extended-protocol batch that no Sync has
      closed; nothing but the Sync of its own batch is sent behind a copy before the client has seen
      its CopyInResponse; and from then until it has ended the copy, the client sends copy frames
      only. */
  predicate MaySend(q: Queue, f: Frame) {
    && (f.Query? || f.FunctionCall? ==> !q.open)
    && (q.feeding ==> OpensCopyPayload(f))
    && (Unseen(q) ==> Quiet(q.log, q.mode.starter, f))
  }

  /** The backend starts a copy only when nothing else is pipelined behind it. */
  predicate MayConsume(q: Queue, c: Choice) {
    c.StartsCopy? ==>
      var r := if q.mode.CopyIn? then q.mode.starter else q.consumed;
      forall j | q.consumed < j < |q.log| :: Quiet(q.log, r, q.log[j])
  }

  /** Both keep to the discipline, and the backend aborts no copy unprompted. */
  predicate Polite(s: Session, step: Step) {
    match step
    case ClientSends(f, refused) =>
      s.awaiting || (if !refused then MaySend(s.q, f)
                     else f.Bind? ==> MaySend(s.q, RefusedBind(f.portal, f.statement, f.formats)))
    case BackendConsumes(c) => MayConsume(s.q, c)
    case BackendAborts => false
    case ReadPathHandles(_) => true
  }

  // ---------------------------------------------------------------- what it keeps

  /** The first copy frame from `k` on. */
  function FirstPayload(log: Log, k: nat): (q: nat)
    requires k <= |log|
    ensures k <= q <= |log|
    ensures q < |log| ==> OpensCopyPayload(log[q])
    ensures forall j | k <= j < q :: !OpensCopyPayload(log[j])
    decreases |log| - k
  {
    if k == |log| || OpensCopyPayload(log[k]) then k else FirstPayload(log, k + 1)
  }

  /** The end of the run of CopyData frames from `k` on. */
  function PayloadEnd(log: Log, k: nat): (e: nat)
    requires k <= |log|
    ensures k <= e <= |log|
    ensures forall j | k <= j < e :: log[j].CopyData?
    ensures e < |log| ==> !log[e].CopyData?
    decreases |log| - k
  {
    if k == |log| || !log[k].CopyData? then k else PayloadEnd(log, k + 1)
  }

  /** The frames behind a copy: the ignored Syncs, then copy frames up to the end of the copy, which the
      backend has not consumed. */
  predicate CopyFrames(log: Log, k: nat, r: nat, since: nat) {
    && r <= since < k <= |log| && (ExecuteAt(log, r) ==> since == r)
    && var p := FirstPayload(log, since + 1);
       var e := PayloadEnd(log, p);
       && k <= e && (e < |log| ==> log[e].CopyDone? || log[e].CopyFail?)
       && forall j | since < j < p :: Quiet(log, r, log[j])
  }

  /** The first copy frame of the copy in progress, or the end of the history. */
  function Payload(q: Queue): (p: nat)
    requires q.mode.CopyIn? && q.mode.since < |q.log|
  {
    FirstPayload(q.log, q.mode.since + 1)
  }

  /** A Sync ignored by the backend whose marker the first copy frame is still to drop. */
  predicate Early(q: Queue, x: nat) {
    && q.mode.CopyIn? && q.mode.since < |q.log| && Payload(q) == |q.log|
    && q.mode.since < x < q.consumed && BatchAt(q.log, x)
  }

  /** A Sync whose marker has been dropped and that the backend is still to ignore. */
  predicate Late(q: Queue, x: nat) {
    && q.mode.CopyIn? && q.mode.since < |q.log| && q.consumed <= x < Payload(q) < |q.log|
    && BatchAt(q.log, x)
  }

  predicate AccountedFor(q: Queue, x: nat) {
    && (x in q.lost ==> BatchAt(q.log, x))
    && (x in q.lost && x !in q.dropped <==> Early(q, x))
    && (x in q.dropped && x !in q.lost <==> Late(q, x))
  }

  /** Every marker lost is dropped and every one dropped is lost, but for the copy in progress. */
  ghost predicate Accounted(q: Queue) {
    forall x: nat :: AccountedFor(q, x)
  }

  /** Nothing is sent behind a CopyInResponse until the client has seen it. */
  predicate Announced(down: seq<Message>, mode: Mode) {
    && (forall i | 0 <= i < |down| :: down[i].CopyInResponse? ==> mode.CopyIn? && i == |down| - 1)
    && (mode.CopyIn? ==>
          && (forall i | 0 <= i < |down| :: down[i].origin <= mode.since)
          && (down != [] ==> down[|down| - 1] == CopyInResponse(mode.starter)))
  }

  /** The copy in progress: no copy frame before the client knows of it, and from then on the client is
      feeding it or has ended it. */
  predicate InOrder(q: Queue) {
    q.mode.CopyIn? ==>
      && CopyFrames(q.log, q.consumed, q.mode.starter, q.mode.since)
      && (q.down != [] ==> !q.feeding && Payload(q) == |q.log|)
      && (q.down == [] && !q.feeding ==> PayloadEnd(q.log, Payload(q)) < |q.log|)
  }

  predicate CopyOrder(q: Queue) {
    Announced(q.down, q.mode) && InOrder(q)
  }

  /** The client feeding a copy, beside the Execute the tracker takes it to feed. */
  predicate Fed(q: Queue) {
    && (q.copy.Copying? && q.copy.execute.Some? ==>
          && ExecuteAt(q.log, q.copy.execute.value)
          && if q.feeding then q.tags != [] && q.tags[0] == q.copy.execute.value
             else q.copy.execute.value !in q.tags)
    && (q.feeding ==>
          && q.copy.Copying?
          && if q.mode.CopyIn? then
               && q.mode.since < |q.log| && PayloadEnd(q.log, Payload(q)) == |q.log|
               && q.copy.execute == if ExecuteAt(q.log, q.mode.starter) then Some(q.mode.starter) else None
             else
               && (forall j | q.consumed <= j < |q.log| :: q.log[j].CopyData?)
               && (q.copy.execute.Some? ==> |q.tags| == 1))
  }

  /** The next frame from `k` on that ends a batch is a Sync, or the batch is still open. */
  predicate SyncAhead(log: Log, k: nat, open: bool)
    decreases |log| - k
  {
    if k >= |log| then open
    else if log[k].Sync? then true
    else !IsBoundary(log[k]) && SyncAhead(log, k + 1, open)
  }

  predicate BatchesClosed(log: Log, k: nat, open: bool) {
    forall j | k <= j < |log| && IsExtended(log[j]) :: SyncAhead(log, j + 1, open)
  }

  /** Whatever the backend may come to discard is closed by a Sync. */
  predicate Closed(q: Queue) {
    && BatchesClosed(q.log, q.consumed, q.open)
    && (q.mode.Skipping? ==> SyncAhead(q.log, q.consumed, q.open))
    && (q.mode.CopyIn? && q.mode.since < |q.log| && ExecuteAt(q.log, q.mode.starter) && q.down == [] ==>
          SyncAhead(q.log, Payload(q), q.open))
  }

  ghost predicate Orderly(q: Queue) {
    Accounted(q) && CopyOrder(q) && Fed(q) && Closed(q)
  }

  /** An orderly queue is clear. */
  lemma {:induction false} OrderlyIsClear(q: Queue)
    requires Ideal(q) && Mirrors(q) && Accounted(q) && CopyOrder(q) && q.down != []
    ensures Clear(q)
  {
    forall x | x in q.lost && x !in q.dropped ensures q.down[0].origin < x {
      assert AccountedFor(q, x);
    }
    var m := FromMarker(q.log, q.ideal);
    if m != [] {
      var i := FromMarkerIsSuffix(q.log, q.ideal);
      assert m[0] in q.ideal && AccountedFor(q, m[0]);
    }
  }

  // ---------------------------------------------------------------- a frame recorded

  lemma {:induction false} FirstPayloadGrows(log: Log, f: Frame, k: nat)
    requires k <= |log|
    ensures FirstPayload(log + [f], k)
         == if FirstPayload(log, k) < |log| || OpensCopyPayload(f) then FirstPayload(log, k) else |log| + 1
    decreases |log| - k
  {
    if k < |log| {
      assert (log + [f])[k] == log[k];
      if !OpensCopyPayload(log[k]) {
        FirstPayloadGrows(log, f, k + 1);
      }
    }
  }

  lemma {:induction false} PayloadEndGrows(log: Log, f: Frame, k: nat)
    requires k <= |log|
    ensures PayloadEnd(log + [f], k)
         == if PayloadEnd(log, k) < |log| || !f.CopyData? then PayloadEnd(log, k) else |log| + 1
    decreases |log| - k
  {
    if k < |log| {
      assert (log + [f])[k] == log[k];
      if log[k].CopyData? {
        PayloadEndGrows(log, f, k + 1);
      }
    }
  }

  lemma {:induction false} QuietGrows(log: Log, g: Frame, r: nat, f: Frame)
    requires r < |log|
    ensures Quiet(log + [g], r, f) == Quiet(log, r, f)
  {
  }

  /** What the discipline lets the client send during a copy. */
  lemma {:induction false} SendDuringCopy(q: Queue, f: Frame)
    requires CopyOrder(q) && Fed(q) && MaySend(q, f) && q.mode.CopyIn?
    ensures q.down != [] ==> Quiet(q.log, q.mode.starter, f)
    ensures q.down == [] && q.feeding ==> OpensCopyPayload(f)
    ensures q.down == [] && !q.feeding ==> PayloadEnd(q.log, Payload(q)) < |q.log|
  {
    if q.down != [] {
      assert q.down[|q.down| - 1] in q.down;
    }
  }

  /** A frame may follow: anything quiet before the first copy frame, copy frames from then on, and
      anything once the copy has been ended. */
  lemma {:induction false} AppendCopyFrames(log: Log, f: Frame, k: nat, r: nat, since: nat)
    requires CopyFrames(log, k, r, since)
    requires FirstPayload(log, since + 1) == |log| ==> Quiet(log, r, f) || OpensCopyPayload(f)
    requires FirstPayload(log, since + 1) < |log| == PayloadEnd(log, FirstPayload(log, since + 1)) ==>
               OpensCopyPayload(f)
    ensures CopyFrames(log + [f], k, r, since)
    ensures Quiet(log, r, f) && FirstPayload(log, since + 1) == |log| ==>
              FirstPayload(log + [f], since + 1) == |log| + 1
    ensures PayloadEnd(log, FirstPayload(log, since + 1)) < |log| || f.CopyDone? || f.CopyFail? ==>
              PayloadEnd(log + [f], FirstPayload(log + [f], since + 1)) < |log| + 1
  {
    var log', p := log + [f], FirstPayload(log, since + 1);
    FirstPayloadGrows(log, f, since + 1);
    PayloadEndGrows(log, f, p);
    if p == |log| && !OpensCopyPayload(f) {
      assert PayloadEnd(log', |log'|) == |log'|;
    }
    forall j | since < j < FirstPayload(log', since + 1) ensures Quiet(log', r, log'[j]) {
      assert log'[j] == if j < |log| then log[j] else f;
      QuietGrows(log, f, r, log'[j]);
    }
  }

  lemma {:induction false} SendInOrder(q: Queue, f: Frame)
    requires InOrder(q) && Fed(q) && q.mode.CopyIn?
    requires q.down != [] ==> Quiet(q.log, q.mode.starter, f)
    requires q.down == [] && q.feeding ==> OpensCopyPayload(f)
    ensures InOrder(Send(q, f))
  {
    AppendCopyFrames(q.log, f, q.consumed, q.mode.starter, q.mode.since);
  }

  lemma {:induction false} SendCopyOrder(q: Queue, f: Frame)
    requires CopyOrder(q) && Fed(q) && MaySend(q, f)
    ensures CopyOrder(Send(q, f))
  {
    if q.mode.CopyIn? {
      SendDuringCopy(q, f);
      SendInOrder(q, f);
    }
  }

  lemma {:induction false} NothingBehind(log: Log, tags: Tags, e: nat)
    requires e !in tags
    ensures DropBehind(log, tags, e) == tags
  {
    if tags != [] {
      NothingBehind(log, tags[1..], e);
    }
  }

  lemma {:induction false} EverythingBehind(log: Log, tags: Tags, e: nat)
    requires tags != [] && tags[0] == e && forall i | 1 <= i < |tags| :: BatchAt(log, tags[i])
    ensures DropBehind(log, tags, e) == [e]
  {
    var rest := tags[1..];
    assert forall i | 0 <= i < |rest| :: BatchAt(log, rest[i]);
    DropsAll(log, rest);
  }

  lemma {:induction false} DropsAll(log: Log, tags: Tags)
    requires forall i | 0 <= i < |tags| :: BatchAt(log, tags[i])
    ensures DropMarkers(log, tags) == []
  {
    if tags != [] {
      DropsAll(log, tags[1..]);
    }
  }

  /** The queue while an Execute's copy is in progress and nothing is in flight. */
  lemma {:induction false} CopyTags(q: Queue, x: nat)
    requires Ideal(q) && Mirrors(q) && Accounted(q) && CopyOrder(q) && q.mode.CopyIn? && q.down == []
    requires ExecuteAt(q.log, q.mode.starter)
    ensures x in q.tags <==>
              || x == q.mode.starter
              || (TrackedAt(q.log, x) && if Payload(q) == |q.log| then q.mode.since < x
                                         else q.consumed <= x && Payload(q) <= x)
  {
    assert Live(q, x) && AgreeOn(q, x) && AccountedFor(q, x);
    TrackedFromHas(q.log, q.consumed, x);
    assert x in q.ideal <==> x == q.mode.starter || x in TrackedFrom(q.log, q.consumed);
    if TrackedAt(q.log, x) && q.mode.since < x < Payload(q) {
      assert Quiet(q.log, q.mode.starter, q.log[x]);
    }
  }

  /** The first copy frame drops every marker behind the copying Execute; later ones drop none. */
  lemma {:induction false} PayloadDuringCopy(q: Queue)
    requires Ideal(q) && Mirrors(q) && Orderly(q) && q.mode.CopyIn? && q.down == [] && q.feeding
    requires ExecuteAt(q.log, q.mode.starter)
    ensures PayloadTags(q) == [q.mode.starter]
    ensures Payload(q) < |q.log| ==> q.tags == [q.mode.starter]
  {
    var r := q.mode.starter;
    forall i | 1 <= i < |q.tags| ensures BatchAt(q.log, q.tags[i]) && Payload(q) == |q.log| {
      assert q.tags[i] in q.tags;
      CopyTags(q, q.tags[i]);
      var x := q.tags[i];
      if q.mode.since < x < Payload(q) {
        assert Quiet(q.log, r, q.log[x]);
      }
    }
    EverythingBehind(q.log, q.tags, r);
  }

  lemma {:induction false} PayloadElsewhere(q: Queue)
    requires Ideal(q) && Mirrors(q) && Orderly(q)
    requires !(q.mode.CopyIn? && q.feeding && ExecuteAt(q.log, q.mode.starter))
    ensures PayloadTags(q) == q.tags
  {
    if q.copy.Copying? && q.copy.execute.Some? {
      if q.feeding {
        EverythingBehind(q.log, q.tags, q.copy.execute.value);
      } else {
        NothingBehind(q.log, q.tags, q.copy.execute.value);
      }
    }
  }

  /** The entries left by a copy frame: the copying Execute's alone, if it is being fed, or all. */
  lemma {:induction false} PayloadLeaves(q: Queue)
    requires Ideal(q) && Mirrors(q) && Orderly(q)
    ensures q.feeding && q.mode.CopyIn? && ExecuteAt(q.log, q.mode.starter) && q.down == [] ==>
              PayloadTags(q) == [q.mode.starter]
    ensures !(q.feeding && q.mode.CopyIn? && ExecuteAt(q.log, q.mode.starter)) ==> PayloadTags(q) == q.tags
  {
    if q.mode.CopyIn? && q.feeding && ExecuteAt(q.log, q.mode.starter) {
      if q.down == [] {
        PayloadDuringCopy(q);
      }
    } else {
      PayloadElsewhere(q);
    }
  }

  lemma {:induction false} SendFed(q: Queue, f: Frame)
    requires Ideal(q) && Mirrors(q) && Orderly(q) && MaySend(q, f)
    ensures Fed(Send(q, f))
  {
    PayloadLeaves(q);
    if q.feeding && q.mode.CopyIn? {
      assert q.down == [];
    }
    FeedGrows(q, f, Send(q, f));
  }

  lemma {:induction false} FeedGrows(q: Queue, f: Frame, n: Queue)
    requires Fed(q) && (q.feeding ==> OpensCopyPayload(f))
    requires n.log == q.log + [f] && n.consumed == q.consumed && n.mode == q.mode
    requires n.feeding == (q.feeding && f.CopyData?) && (f.CopyData? || !OpensCopyPayload(f) ==> n.copy == q.copy)
    requires f.CopyDone? || f.CopyFail? ==> n.copy.NotCopying?
    requires if !OpensCopyPayload(f) then n.tags == q.tags + Added(q.log, f)
             else if q.feeding && q.mode.CopyIn? && ExecuteAt(q.log, q.mode.starter)
                  then n.tags == [q.mode.starter] else n.tags == q.tags
    ensures Fed(n)
  {
    if q.feeding && q.mode.CopyIn? {
      FirstPayloadGrows(q.log, f, q.mode.since + 1);
      PayloadEndGrows(q.log, f, Payload(q));
    }
  }

  lemma {:induction false} SendAccounted(q: Queue, f: Frame)
    requires Ideal(q) && Mirrors(q) && Orderly(q) && MaySend(q, f) && !OpensCopyPayload(f)
    ensures Accounted(Send(q, f))
  {
    var n := Send(q, f);
    if q.mode.CopyIn? {
      FirstPayloadGrows(q.log, f, q.mode.since + 1);
    }
    forall x: nat ensures AccountedFor(n, x) {
      assert AccountedFor(q, x);
      assert x < |q.log| ==> BatchAt(n.log, x) == BatchAt(q.log, x);
    }
  }

  /** The first copy frame turns the markers still to be dropped into markers still to be ignored. */
  lemma {:induction false} FeedAccounted(q: Queue, f: Frame)
    requires Ideal(q) && Mirrors(q) && Orderly(q) && OpensCopyPayload(f)
    requires q.mode.CopyIn? && q.down == [] && q.feeding && ExecuteAt(q.log, q.mode.starter)
    ensures Accounted(Send(q, f))
  {
    var n := Send(q, f);
    FirstPayloadGrows(q.log, f, q.mode.since + 1);
    PayloadDuringCopy(q);
    forall x: nat ensures AccountedFor(n, x) {
      assert AccountedFor(q, x);
      CopyTags(q, x);
      assert x < |q.log| ==> BatchAt(n.log, x) == BatchAt(q.log, x);
    }
  }

  lemma {:induction false} StrayAccounted(q: Queue, f: Frame)
    requires Ideal(q) && Accounted(q) && InOrder(q) && OpensCopyPayload(f) && PayloadTags(q) == q.tags
    requires q.mode.CopyIn? ==> !ExecuteAt(q.log, q.mode.starter) || Payload(q) < |q.log|
    ensures Accounted(Send(q, f))
  {
    var n := Send(q, f);
    if q.mode.CopyIn? {
      FirstPayloadGrows(q.log, f, q.mode.since + 1);
    }
    forall x: nat ensures AccountedFor(n, x) {
      assert AccountedFor(q, x);
      assert x < |q.log| ==> BatchAt(n.log, x) == BatchAt(q.log, x);
      if q.mode.CopyIn? && q.mode.since < x < Payload(q) {
        assert Quiet(q.log, q.mode.starter, q.log[x]);
      }
    }
  }

  lemma {:induction false} PayloadAccounted(q: Queue, f: Frame)
    requires Ideal(q) && Mirrors(q) && Orderly(q) && MaySend(q, f) && OpensCopyPayload(f)
    ensures Accounted(Send(q, f))
  {
    if q.mode.CopyIn? {
      SendDuringCopy(q, f);
    }
    if q.mode.CopyIn? && q.feeding && ExecuteAt(q.log, q.mode.starter) {
      FeedAccounted(q, f);
    } else {
      PayloadElsewhere(q);
      StrayAccounted(q, f);
    }
  }

  lemma {:induction false} SyncAheadGrows(log: Log, f: Frame, k: nat, open: bool, open': bool)
    requires k <= |log| && SyncAhead(log, k, open)
    requires open ==> f.Sync? || (!IsBoundary(f) && open')
    ensures SyncAhead(log + [f], k, open')
    decreases |log| - k
  {
    if k < |log| {
      assert (log + [f])[k] == log[k];
      if !log[k].Sync? {
        SyncAheadGrows(log, f, k + 1, open, open');
      }
    } else {
      assert SyncAhead(log + [f], k + 1, open') == open';
    }
  }

  lemma {:induction false} SyncAheadMoves(log: Log, q: nat, k: nat, open: bool)
    requires q <= k <= |log| && SyncAhead(log, q, open)
    requires forall j | q <= j < k :: !IsBoundary(log[j])
    ensures SyncAhead(log, k, open)
    decreases k - q
  {
    if q < k {
      SyncAheadMoves(log, q + 1, k, open);
    }
  }

  lemma {:induction false} SyncAheadOpens(log: Log, k: nat, open: bool)
    requires SyncAhead(log, k, open)
    ensures SyncAhead(log, k, true)
    decreases |log| - k
  {
    if k < |log| && !log[k].Sync? {
      SyncAheadOpens(log, k + 1, open);
    }
  }

  lemma {:induction false} SendExtended(log: Log, f: Frame, k: nat, open: bool)
    requires f.Query? || f.FunctionCall? ==> !open
    requires BatchesClosed(log, k, open)
    ensures BatchesClosed(log + [f], k, Opens(f, open))
  {
    forall j | k <= j < |log + [f]| && IsExtended((log + [f])[j])
      ensures SyncAhead(log + [f], j + 1, Opens(f, open))
    {
      if j < |log| {
        assert (log + [f])[j] == log[j];
        SyncAheadGrows(log, f, j + 1, open, Opens(f, open));
      }
    }
  }

  lemma {:induction false} SendClosesCopy(log: Log, f: Frame, k: nat, open: bool)
    requires f.Query? || f.FunctionCall? ==> !open
    requires k <= |log| && SyncAhead(log, FirstPayload(log, k), open)
    requires OpensCopyPayload(f) || FirstPayload(log, k) < |log|
    ensures SyncAhead(log + [f], FirstPayload(log + [f], k), Opens(f, open))
  {
    FirstPayloadGrows(log, f, k);
    SyncAheadGrows(log, f, FirstPayload(log, k), open, Opens(f, open));
  }

  /** Once the client knows of a copy, the first copy frame has been sent or is sent now. */
  lemma {:induction false} SendsPayload(q: Queue, f: Frame)
    requires CopyOrder(q) && Fed(q) && MaySend(q, f) && q.mode.CopyIn? && q.down == []
    ensures OpensCopyPayload(f) || Payload(q) < |q.log|
  {
    SendDuringCopy(q, f);
  }

  lemma {:induction false} SendClosed(q: Queue, f: Frame, n: Queue)
    requires q.consumed <= |q.log| && Closed(q) && (f.Query? || f.FunctionCall? ==> !q.open)
    requires q.mode.CopyIn? ==> q.mode.starter <= q.mode.since < |q.log|
    requires q.mode.CopyIn? && q.down == [] ==> OpensCopyPayload(f) || Payload(q) < |q.log|
    requires n.log == q.log + [f] && n.consumed == q.consumed && n.mode == q.mode && n.down == q.down
    requires n.open == Opens(f, q.open)
    ensures Closed(n)
  {
    SendExtended(q.log, f, q.consumed, q.open);
    if q.mode.Skipping? {
      SyncAheadGrows(q.log, f, q.consumed, q.open, n.open);
    } else if q.mode.CopyIn? && ExecuteAt(q.log, q.mode.starter) && q.down == [] {
      SendClosesCopy(q.log, f, q.mode.since + 1, q.open);
    }
  }

  lemma {:induction false} SendOrderly(q: Queue, f: Frame)
    requires Ideal(q) && Mirrors(q) && Orderly(q) && MaySend(q, f)
    ensures Orderly(Send(q, f))
  {
    SendCopyOrder(q, f);
    SendFed(q, f);
    if q.mode.CopyIn? && q.down == [] {
      SendsPayload(q, f);
    }
    SendClosed(q, f, Send(q, f));
    if OpensCopyPayload(f) {
      PayloadAccounted(q, f);
    } else {
      SendAccounted(q, f);
    }
  }

  // ---------------------------------------------------------------- a frame consumed

  /** What the discipline lets the backend meet during a copy. */
  lemma {:induction false} FrameInCopy(q: Queue)
    requires CopyOrder(q) && q.mode.CopyIn? && q.consumed < |q.log|
    ensures q.consumed < Payload(q) ==> Quiet(q.log, q.mode.starter, q.log[q.consumed])
    ensures Payload(q) <= q.consumed ==> q.down == [] && OpensCopyPayload(q.log[q.consumed])
  {
  }

  lemma {:induction false} RespondModes(log: Log, k: nat, mode: Mode, c: Choice)
    requires k < |log| && MayChoose(log, k, mode, c)
    ensures var (msgs, mode') := Respond(log, k, mode, c);
            && (mode'.Skipping? ==>
                  match mode
                  case Normal => IsExtended(log[k])
                  case Skipping => !log[k].Sync?
                  case CopyIn(r, _) => !QueryAt(log, r) && !IgnoredInCopy(log[k]))
            && (mode'.CopyIn? && mode' != mode ==>
                  && c.StartsCopy? && mode'.since == k && msgs != []
                  && msgs[|msgs| - 1] == CopyInResponse(mode'.starter)
                  && mode'.starter == if mode.CopyIn? then mode.starter else k)
  {
  }

  lemma {:induction false} NoCopyInRows(r: nat, n: nat)
    ensures forall i | 0 <= i < |Rows(r, n)| :: Rows(r, n)[i] == DataRow(r)
  {
    if n > 0 {
      NoCopyInRows(r, n - 1);
    }
  }

  lemma {:induction false} NoCopyInItems(r: nat, items: seq<Item>)
    ensures forall i | 0 <= i < |ItemMessages(r, items)| ::
              !ItemMessages(r, items)[i].CopyInResponse? && ItemMessages(r, items)[i].origin == r
  {
    if items != [] {
      NoCopyInItems(r, items[1..]);
      if items[0].RowSet? {
        NoCopyInRows(r, items[0].rows);
      }
    }
  }

  /** A CopyInResponse is the last message of the frame that starts a copy, and of no other. */
  lemma {:induction false} RespondAnnounces(log: Log, k: nat, mode: Mode, c: Choice)
    requires k < |log| && MayChoose(log, k, mode, c)
    requires mode.CopyIn? ==> mode.starter <= mode.since < k
    ensures var (msgs, mode') := Respond(log, k, mode, c);
            forall i | 0 <= i < |msgs| ::
              && msgs[i].origin <= k
              && (msgs[i].CopyInResponse? ==> mode'.CopyIn? && mode' != mode && i == |msgs| - 1)
  {
    if c.Returns? || c.Fails? {
      NoCopyInRows(k, c.rows);
    } else if c.Results? {
      NoCopyInItems(k, c.items);
      if mode.CopyIn? {
        NoCopyInItems(mode.starter, c.items);
      }
    } else if c.StartsCopy? {
      NoCopyInItems(k, c.before);
      if mode.CopyIn? {
        NoCopyInItems(mode.starter, c.before);
      }
    }
  }

  lemma {:induction false} OriginsBefore(
      log: Log, k: nat, mode: Mode, tags: Tags, down: seq<Message>, rd: Reader)
    requires Explains(log, k, mode, tags, down, rd)
    ensures forall i | 0 <= i < |down| :: down[i].origin < k
    decreases |down|
  {
    if down != [] {
      OriginsBefore(log, k, mode, HandleTags(log, tags, down[0]), down[1..], HandleReader(log, rd, down[0]));
      assert forall i | 1 <= i < |down| :: down[i] == down[1..][i - 1];
    }
  }

  /** A disciplined backend leaves copy-in mode, or enters it again, only once nothing is in flight. */
  lemma {:induction false} LeavesCopy(q: Queue, c: Choice)
    requires CopyOrder(q) && q.mode.CopyIn? && q.consumed < |q.log|
    requires MayChoose(q.log, q.consumed, q.mode, c)
    ensures var (msgs, mode) := Respond(q.log, q.consumed, q.mode, c);
            if mode == q.mode then msgs == [] && q.consumed < PayloadEnd(q.log, Payload(q))
            else q.down == [] && Payload(q) <= q.consumed
  {
    FrameInCopy(q);
  }

  lemma {:induction false} ExtendAnnounced(
      down: seq<Message>, mode: Mode, msgs: seq<Message>, mode': Mode, k: nat)
    requires Announced(down, mode) && forall i | 0 <= i < |down| :: down[i].origin < k
    requires forall i | 0 <= i < |msgs| ::
               msgs[i].origin <= k
               && (msgs[i].CopyInResponse? ==> mode'.CopyIn? && mode' != mode && i == |msgs| - 1)
    requires mode'.CopyIn? && mode' != mode ==>
               mode'.since == k && msgs != [] && msgs[|msgs| - 1] == CopyInResponse(mode'.starter)
    requires mode.CopyIn? ==> (mode' == mode && msgs == []) || down == []
    requires mode'.CopyIn? && mode' == mode ==> msgs == []
    ensures Announced(down + msgs, mode')
  {
    var all := down + msgs;
    assert forall i | 0 <= i < |all| :: all[i] == if i < |down| then down[i] else msgs[i - |down|];
  }

  /** A client feeding a copy has nothing pipelined that could start another. */
  lemma {:induction false} FeedingStartsNone(q: Queue, c: Choice)
    requires Fed(q) && CopyOrder(q) && q.feeding && q.consumed < |q.log|
    requires MayChoose(q.log, q.consumed, q.mode, c)
    ensures !c.StartsCopy?
  {
  }

  /** What a disciplined backend's step does. */
  predicate Moves(q: Queue, n: Queue) {
    var k := q.consumed;
    && k < |q.log|
    && n == q.(consumed := k + 1, mode := n.mode, down := n.down, ideal := n.ideal, lost := n.lost, taken := n.taken)
    && n.lost == (if Loses(q.log, k, q.mode) then q.lost + {k} else q.lost)
    && (n.mode.Skipping? ==>
          match q.mode
          case Normal => IsExtended(q.log[k])
          case Skipping => !q.log[k].Sync?
          case CopyIn(r, _) => !QueryAt(q.log, r))
    && (n.mode.CopyIn? && n.mode != q.mode ==>
          && n.mode.since == k && n.down != [] && !q.feeding
          && (ExecuteAt(q.log, n.mode.starter) ==> n.mode.starter == k) && n.mode.starter <= k
          && forall j | k < j < |q.log| :: Quiet(q.log, n.mode.starter, q.log[j]))
    && (q.mode.CopyIn? ==>
          && q.mode.since < k
          && if n.mode == q.mode then n.down == q.down && k < PayloadEnd(q.log, Payload(q))
             else q.down == [] && Payload(q) <= k)
  }

  lemma {:induction false} StartsQuietly(q: Queue, c: Choice)
    requires Ideal(q) && CopyOrder(q) && Fed(q)
    requires q.consumed < |q.log| && MayChoose(q.log, q.consumed, q.mode, c) && MayConsume(q, c)
    ensures var (msgs, mode) := Respond(q.log, q.consumed, q.mode, c);
            mode.CopyIn? && mode != q.mode ==> StartsAt(q, msgs, mode)
  {
    RespondModes(q.log, q.consumed, q.mode, c);
    if q.feeding {
      FeedingStartsNone(q, c);
    }
  }

  /** The frame being consumed starts a copy with nothing but quiet frames behind it. */
  predicate StartsAt(q: Queue, msgs: seq<Message>, mode: Mode)
    requires mode.CopyIn?
  {
    && mode.since == q.consumed && msgs != [] && !q.feeding
    && (ExecuteAt(q.log, mode.starter) ==> mode.starter == q.consumed) && mode.starter <= q.consumed
    && forall j | q.consumed < j < |q.log| :: Quiet(q.log, mode.starter, q.log[j])
  }

  lemma {:induction false} AdvanceMoves(q: Queue, msgs: seq<Message>, mode: Mode)
    requires q.consumed < |q.log|
    requires mode.Skipping? ==>
               match q.mode
               case Normal => IsExtended(q.log[q.consumed])
               case Skipping => !q.log[q.consumed].Sync?
               case CopyIn(r, _) => !QueryAt(q.log, r)
    requires mode.CopyIn? && mode != q.mode ==> StartsAt(q, msgs, mode)
    requires q.mode.CopyIn? ==>
               && q.mode.since < q.consumed
               && if mode == q.mode then msgs == [] && q.consumed < PayloadEnd(q.log, Payload(q))
                  else q.down == [] && Payload(q) <= q.consumed
    ensures Moves(q, Advance(q, msgs, mode))
  {
    assert q.down + [] == q.down;
  }

  lemma {:induction false} ConsumeMoves(q: Queue, c: Choice)
    requires Ideal(q) && CopyOrder(q) && Fed(q)
    requires q.consumed < |q.log| && MayChoose(q.log, q.consumed, q.mode, c) && MayConsume(q, c)
    ensures Moves(q, Consume(q, c))
  {
    var (msgs, mode) := Respond(q.log, q.consumed, q.mode, c);
    RespondModes(q.log, q.consumed, q.mode, c);
    StartsQuietly(q, c);
    if q.mode.CopyIn? {
      LeavesCopy(q, c);
    }
    AdvanceMoves(q, msgs, mode);
  }

  lemma {:induction false} ConsumeAnnounced(q: Queue, c: Choice)
    requires Ideal(q) && CopyOrder(q) && q.consumed < |q.log| && MayChoose(q.log, q.consumed, q.mode, c)
    ensures Announced(Consume(q, c).down, Consume(q, c).mode)
  {
    var k := q.consumed;
    var (msgs, mode) := Respond(q.log, k, q.mode, c);
    RespondAnnounces(q.log, k, q.mode, c);
    RespondModes(q.log, k, q.mode, c);
    OriginsBefore(q.log, k, q.mode, q.ideal, q.down, q.reader);
    if q.mode.CopyIn? {
      LeavesCopy(q, c);
    }
    ExtendAnnounced(q.down, q.mode, msgs, mode, k);
  }

  lemma {:induction false} NewCopyFrames(log: Log, k: nat, r: nat)
    requires k < |log| && r <= k && (ExecuteAt(log, r) ==> r == k)
    requires forall j | k < j < |log| :: Quiet(log, r, log[j])
    ensures FirstPayload(log, k + 1) == |log| && CopyFrames(log, k + 1, r, k)
  {
    assert forall j | k < j < |log| :: Quiet(log, r, log[j]) && !OpensCopyPayload(log[j]);
  }

  lemma {:induction false} MoveInOrder(q: Queue, n: Queue)
    requires InOrder(q) && Moves(q, n)
    ensures InOrder(n)
  {
    if n.mode.CopyIn? && n.mode != q.mode {
      NewCopyFrames(q.log, q.consumed, n.mode.starter);
    }
  }

  lemma {:induction false} MoveDuringCopy(q: Queue, n: Queue, x: nat)
    requires AccountedFor(q, x) && CopyOrder(q) && Moves(q, n) && q.mode.CopyIn?
    requires forall y | y in q.lost :: y < q.consumed
    requires n.mode.CopyIn? && n.mode != q.mode ==> Payload(n) == |n.log|
    ensures AccountedFor(n, x)
  {
    FrameInCopy(q);
  }

  lemma {:induction false} MoveOutsideCopy(q: Queue, n: Queue, x: nat)
    requires AccountedFor(q, x) && Closed(q) && Moves(q, n) && !q.mode.CopyIn?
    requires n.mode.CopyIn? ==> Payload(n) == |n.log|
    ensures AccountedFor(n, x)
  {
    if q.mode.Skipping? {
      assert SyncAhead(q.log, q.consumed, q.open);
    }
  }

  lemma {:induction false} MoveAccounted(q: Queue, n: Queue)
    requires Ideal(q) && Accounted(q) && CopyOrder(q) && Closed(q) && Moves(q, n)
    ensures Accounted(n)
  {
    if n.mode.CopyIn? && n.mode != q.mode {
      NewCopyFrames(q.log, q.consumed, n.mode.starter);
    }
    forall x: nat ensures AccountedFor(n, x) {
      assert AccountedFor(q, x);
      if q.mode.CopyIn? {
        MoveDuringCopy(q, n, x);
      } else {
        MoveOutsideCopy(q, n, x);
      }
    }
  }

  lemma {:induction false} MoveFed(q: Queue, n: Queue)
    requires Ideal(q) && Mirrors(q) && Orderly(q) && Moves(q, n)
    ensures Fed(n)
  {
    if q.feeding && q.mode.CopyIn? && n.mode != q.mode && ExecuteAt(q.log, q.mode.starter) {
      PayloadDuringCopy(q);
    }
  }

  lemma {:induction false} MoveClosed(q: Queue, n: Queue)
    requires CopyOrder(q) && Closed(q) && Moves(q, n)
    requires q.mode.CopyIn? ==> ExecuteAt(q.log, q.mode.starter) || QueryAt(q.log, q.mode.starter)
    ensures Closed(n)
  {
    if q.mode.CopyIn? && n.mode.Skipping? {
      FrameInCopy(q);
      SyncAheadMoves(q.log, Payload(q), q.consumed + 1, q.open);
    }
  }

  lemma {:induction false} CopyStarter(
      log: Log, k: nat, mode: Mode, tags: Tags, down: seq<Message>, rd: Reader)
    requires mode.CopyIn? && Explains(log, k, mode, tags, down, rd)
    ensures ExecuteAt(log, mode.starter) || QueryAt(log, mode.starter)
    decreases |down|
  {
    if down != [] {
      CopyStarter(log, k, mode, HandleTags(log, tags, down[0]), down[1..], HandleReader(log, rd, down[0]));
    }
  }

  lemma {:induction false} ConsumeOrderly(q: Queue, c: Choice)
    requires Ideal(q) && Mirrors(q) && Orderly(q)
    requires q.consumed < |q.log| && MayChoose(q.log, q.consumed, q.mode, c) && MayConsume(q, c)
    ensures Orderly(Consume(q, c))
  {
    var n := Consume(q, c);
    ConsumeMoves(q, c);
    ConsumeAnnounced(q, c);
    MoveInOrder(q, n);
    MoveAccounted(q, n);
    MoveFed(q, n);
    if q.mode.CopyIn? {
      CopyStarter(q.log, q.consumed, q.mode, q.ideal, q.down, q.reader);
    }
    MoveClosed(q, n);
  }

  // ---------------------------------------------------------------- a message handled

  lemma {:induction false} HandleAnnounced(q: Queue)
    requires q.down != [] && CopyOrder(q)
    ensures CopyOrder(Handle(q))
  {
    var n := Handle(q);
    assert forall i | 0 <= i < |n.down| :: n.down[i] == q.down[i + 1];
    if q.mode.CopyIn? && |q.down| > 1 {
      assert !q.down[0].CopyInResponse?;
    }
  }

  lemma {:induction false} HandleAccounted(q: Queue)
    requires q.down != [] && Accounted(q)
    ensures Accounted(Handle(q))
  {
    forall x: nat ensures AccountedFor(Handle(q), x) {
      assert AccountedFor(q, x);
    }
  }

  lemma {:induction false} HandleFed(q: Queue)
    requires q.down != [] && Fed(q) && CopyOrder(q) && Increasing(q.tags)
    requires Expected(q.log, q.tags, q.reader, q.down[0])
    ensures Fed(Handle(q))
  {
    var m, n := q.down[0], Handle(q);
    var i := HandleTagsIsSuffix(q.log, q.tags, m);
    forall x: nat ensures x in n.tags ==> x in q.tags {
    }
    if q.feeding && !n.feeding && q.copy.execute.Some? && !m.ReadyForQuery? {
      SuffixHas(q.tags, 1, q.tags[0]);
    }
    if m.CopyInResponse? {
      assert |q.down| == 1 && q.mode.CopyIn?;
    }
  }

  lemma {:induction false} HandleClosed(q: Queue)
    requires q.down != [] && Closed(q) && CopyOrder(q)
    ensures Closed(Handle(q))
  {
    var n := Handle(q);
    if n.open != q.open {
      forall j | n.consumed <= j < |n.log| && IsExtended(n.log[j]) ensures SyncAhead(n.log, j + 1, true) {
        SyncAheadOpens(q.log, j + 1, q.open);
      }
    }
    if q.mode.CopyIn? && n.down == [] {
      assert q.down[0] == CopyInResponse(q.mode.starter);
    }
  }

  lemma {:induction false} HandleOrderly(q: Queue)
    requires Ideal(q) && Mirrors(q) && Orderly(q) && q.down != []
    ensures Clear(q) && Orderly(Handle(q))
  {
    OrderlyIsClear(q);
    FindsExpectation(q);
    HandleAnnounced(q);
    HandleAccounted(q);
    HandleFed(q);
    HandleClosed(q);
  }

  // ---------------------------------------------------------------- whole runs

  lemma {:induction false} StepOrderly(s: Session, step: Step, n: Session)
    requires Coupled(s) && Informed(s) && Orderly(s.q) && Next(s, step, n) && Polite(s, step)
    ensures Orderly(n.q) && (step.ReadPathHandles? ==> Clear(s.q))
  {
    match step
    case ClientSends(f, refused) =>
      if !s.awaiting {
        if !refused {
          SendOrderly(s.q, f);
        } else if f.Bind? {
          SendOrderly(s.q, RefusedBind(f.portal, f.statement, f.formats));
        }
      }
    case BackendConsumes(c) => ConsumeOrderly(s.q, c);
    case BackendAborts =>
    case ReadPathHandles(_) => HandleOrderly(s.q);
  }

  predicate PoliteUntil(states: seq<Session>, steps: seq<Step>, i: nat)
    requires i <= |steps| < |states|
  {
    forall j | 0 <= j < i :: Polite(states[j], steps[j])
  }

  lemma {:induction false} ClearExtends(states: seq<Session>, steps: seq<Step>, i: nat)
    requires i < |steps| < |states| && ClearUntil(states, steps, i)
    requires steps[i].ReadPathHandles? && states[i].q.down != [] ==> Clear(states[i].q)
    ensures ClearUntil(states, steps, i + 1)
  {
  }

  lemma {:induction false} StartOrderly()
    ensures Orderly(Empty)
  {
    forall x: nat ensures AccountedFor(Empty, x) {
    }
  }

  lemma {:induction false} RunsOrderly(states: seq<Session>, steps: seq<Step>, i: nat)
    requires IsRun(states, steps) && i < |states| && PoliteUntil(states, steps, i)
    ensures Orderly(states[i].q) && ClearUntil(states, steps, i)
  {
    if i == 0 {
      StartOrderly();
    } else {
      var s, step := states[i - 1], steps[i - 1];
      RunsOrderly(states, steps, i - 1);
      RunsCoupled(states, steps, i - 1);
      RunsInformed(states, steps, i - 1);
      assert Next(s, step, states[i]) && Polite(s, step);
      StepOrderly(s, step, states[i]);
      ClearExtends(states, steps, i - 1);
    }
  }

  /** While client and backend keep to the discipline, every message is handled in a clear state, and the
      markers lost and those dropped differ only during a copy: by the Syncs ignored before its
      first copy frame, or not ignored yet after it. */
  lemma {:induction false} DisciplineClears(states: seq<Session>, steps: seq<Step>, i: nat, x: nat)
    requires IsRun(states, steps) && i < |states| && PoliteUntil(states, steps, i)
    ensures ClearUntil(states, steps, i) && (states[i].q.down != [] ==> Clear(states[i].q))
    ensures AccountedFor(states[i].q, x)
  {
    RunsOrderly(states, steps, i);
    RunsCoupled(states, steps, i);
    RunsInformed(states, steps, i);
    if states[i].q.down != [] {
      OrderlyIsClear(states[i].q);
    }
  }

  /** So outside copies the queue is aligned: it holds one marker for every ReadyForQuery owed and no other.
      In particular a copy ended by CopyDone or CopyFail leaves it aligned. */
  lemma {:induction false} DisciplineAligns(states: seq<Session>, steps: seq<Step>, i: nat)
    requires IsRun(states, steps) && i < |states| && PoliteUntil(states, steps, i)
    requires !states[i].q.mode.CopyIn?
    ensures Aligned(states[i].q) && Markers(states[i].t.pending) == Owed(states[i].q)
  {
    RunsOrderly(states, steps, i);
    AllAccounted(states[i].q);
    AlignedIff(states, steps, i);
    AlignedCounts(states, steps, i);
  }

  lemma {:induction false} AllAccounted(q: Queue)
    requires Accounted(q) && !q.mode.CopyIn?
    ensures LostMarkers(q.log, q.lost) == q.dropped
  {
    forall x: nat ensures x in LostMarkers(q.log, q.lost) <==> x in q.dropped {
      assert AccountedFor(q, x);
    }
  }
}
