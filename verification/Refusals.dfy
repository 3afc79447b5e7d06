/** The write path refuses frames: what of the client's discipline is left in the eyes of the
    backend. */
module Refusals {
  import opened Frames
  import opened Backend
  import opened Queue

  /** A frame as the client sent it, and whether the write path refuses it. */
  datatype Sent = Sent(frame: Frame, refused: bool)

  predicate Simple(f: Frame) {
    f.Query? || f.FunctionCall?
  }

  /** After refusing a Parse or a Bind the write path discards everything up to the next Sync. */
  predicate AwaitingAt(sent: seq<Sent>, n: nat)
    requires n <= |sent|
  {
    n > 0
    && var f := sent[n - 1].frame;
    if AwaitingAt(sent, n - 1) then !f.Sync? else sent[n - 1].refused && (f.Parse? || f.Bind?)
  }

  /** The frame at `i` reaches the backend. */
  predicate ForwardedAt(sent: seq<Sent>, i: nat)
    requires i < |sent|
  {
    var f := sent[i].frame;
    !AwaitingAt(sent, i) && !(sent[i].refused && (f.Parse? || f.Bind? || f.Query?))
  }

  /** The frames that reach the backend, of the first `n`. */
  function Forwarded(sent: seq<Sent>, n: nat): (log: Log)
    requires n <= |sent|
  {
    if n == 0 then []
    else Forwarded(sent, n - 1) + (if ForwardedAt(sent, n - 1) then [sent[n - 1].frame] else [])
  }

  function FramesOf(sent: seq<Sent>, n: nat): (log: Log)
    requires n <= |sent|
    ensures |log| == n && forall i | 0 <= i < n :: log[i] == sent[i].frame
  {
    if n == 0 then [] else FramesOf(sent, n - 1) + [sent[n - 1].frame]
  }

  /** The first `n` frames leave an extended-protocol batch open that no batch-ending frame has closed. */
  predicate OpenAt(log: Log, n: nat)
    requires n <= |log|
  {
    n > 0 && Opens(log[n - 1], OpenAt(log, n - 1))
  }

  /** No Query or FunctionCall inside an extended-protocol batch that no Sync has closed. */
  predicate ClosedBefore(log: Log) {
    forall j | 0 <= j < |log| && Simple(log[j]) :: !OpenAt(log, j)
  }

  /** The frames the backend has seen of the first `n` leave a batch open. */
  predicate OpenUpstream(sent: seq<Sent>, n: nat)
    requires n <= |sent|
  {
    OpenAt(Forwarded(sent, n), |Forwarded(sent, n)|)
  }

  /** The write path refuses a Parse or a Bind at `i`, inside a batch of which the backend has already
      seen a part. */
  predicate RefusedMidBatch(sent: seq<Sent>, i: nat)
    requires i < |sent|
  {
    var f := sent[i].frame;
    !AwaitingAt(sent, i) && sent[i].refused && (f.Parse? || f.Bind?) && OpenUpstream(sent, i)
  }

  predicate SyncBetween(sent: seq<Sent>, i: nat, j: nat)
    requires j <= |sent|
  {
    exists l :: i < l < j && ForwardedAt(sent, l) && sent[l].frame.Sync?
  }

  /** Whenever the write path refuses inside a batch, the next batch-ending frame that reaches the
      backend is a Sync. */
  predicate SyncFollowsRefusals(sent: seq<Sent>) {
    forall i, j | 0 <= i < j < |sent| ::
      RefusedMidBatch(sent, i) && ForwardedAt(sent, j) && Simple(sent[j].frame) ==> SyncBetween(sent, i, j)
  }

  // ---------------------------------------------------------------- open batches

  lemma {:induction false} OpenGrows(log: Log, f: Frame, n: nat)
    requires n <= |log|
    ensures OpenAt(log + [f], n) == OpenAt(log, n)
  {
    if n > 0 {
      OpenGrows(log, f, n - 1);
    }
  }

  lemma {:induction false} ClosedGrows(log: Log, f: Frame)
    ensures ClosedBefore(log + [f]) <==> ClosedBefore(log) && (Simple(f) ==> !OpenAt(log, |log|))
  {
    var log' := log + [f];
    forall j | 0 <= j <= |log| ensures OpenAt(log', j) == OpenAt(log, j) && (j < |log| ==> log'[j] == log[j]) {
      OpenGrows(log, f, j);
    }
    assert log'[|log|] == f;
    if ClosedBefore(log') {
      forall j | 0 <= j < |log| && Simple(log[j]) ensures !OpenAt(log, j) {
        assert log'[j] == log[j];
      }
    }
  }

  lemma {:induction false} UpstreamStep(sent: seq<Sent>, n: nat)
    requires n < |sent|
    ensures OpenUpstream(sent, n + 1)
         == if ForwardedAt(sent, n) then Opens(sent[n].frame, OpenUpstream(sent, n)) else OpenUpstream(sent, n)
  {
    var log := Forwarded(sent, n);
    if ForwardedAt(sent, n) {
      OpenGrows(log, sent[n].frame, |log|);
      assert (log + [sent[n].frame])[|log|] == sent[n].frame;
    } else {
      assert log + [] == log;
    }
  }

  /** The forwarded frames are closed exactly when no forwarded Query or FunctionCall finds a batch open
      upstream. */
  lemma {:induction false} ForwardedClosed(sent: seq<Sent>, n: nat)
    requires n <= |sent|
    ensures ClosedBefore(Forwarded(sent, n)) <==>
              forall j | 0 <= j < n && ForwardedAt(sent, j) && Simple(sent[j].frame) :: !OpenUpstream(sent, j)
  {
    if n > 0 {
      ForwardedClosed(sent, n - 1);
      var log := Forwarded(sent, n - 1);
      if ForwardedAt(sent, n - 1) {
        ClosedGrows(log, sent[n - 1].frame);
      } else {
        assert log + [] == log;
      }
    }
  }

  /** An open batch stays open upstream until a batch-ending frame is forwarded. */
  lemma {:induction false} StaysOpen(sent: seq<Sent>, i: nat, j: nat)
    requires i <= j <= |sent| && OpenUpstream(sent, i)
    requires forall l | i <= l < j && ForwardedAt(sent, l) :: !IsBoundary(sent[l].frame)
    ensures OpenUpstream(sent, j)
    decreases j - i
  {
    if i < j {
      UpstreamStep(sent, i);
      StaysOpen(sent, i + 1, j);
    }
  }

  /** A batch that is open upstream was opened by a forwarded frame, and none since has ended it. */
  lemma {:induction false} Opener(sent: seq<Sent>, j: nat) returns (e: nat)
    requires j <= |sent| && OpenUpstream(sent, j)
    ensures e < j && ForwardedAt(sent, e) && IsExtended(sent[e].frame)
    ensures forall l | e < l < j && ForwardedAt(sent, l) :: !IsBoundary(sent[l].frame)
  {
    UpstreamStep(sent, j - 1);
    if ForwardedAt(sent, j - 1) && IsExtended(sent[j - 1].frame) {
      e := j - 1;
    } else {
      e := Opener(sent, j - 1);
    }
  }

  /** The client has closed its batch since `e`: the first frame that did so. */
  lemma {:induction false} Closer(log: Log, e: nat, j: nat) returns (b: nat)
    requires e < j <= |log| && OpenAt(log, e + 1) && !OpenAt(log, j)
    ensures e < b < j && IsBoundary(log[b]) && OpenAt(log, b)
    decreases j - e
  {
    if IsBoundary(log[e + 1]) {
      b := e + 1;
    } else {
      b := Closer(log, e + 1, j);
    }
  }

  /** Discarding at `b` but not at `e`, the write path refused a frame in between. */
  lemma {:induction false} Refusal(sent: seq<Sent>, e: nat, b: nat) returns (i: nat)
    requires e <= b <= |sent| && !AwaitingAt(sent, e) && AwaitingAt(sent, b)
    ensures e <= i < b && !AwaitingAt(sent, i) && sent[i].refused
    ensures sent[i].frame.Parse? || sent[i].frame.Bind?
    decreases b
  {
    if AwaitingAt(sent, b - 1) {
      i := Refusal(sent, e, b - 1);
    } else {
      i := b - 1;
    }
  }

  lemma {:induction false} FramesOpen(sent: seq<Sent>, n: nat, m: nat)
    requires n <= m <= |sent|
    ensures OpenAt(FramesOf(sent, m), n) == OpenAt(FramesOf(sent, n), n)
  {
    if n > 0 {
      FramesOpen(sent, n - 1, m);
      FramesOpen(sent, n - 1, n);
    }
  }

  /** A forwarded Query or FunctionCall that a disciplined client sent, and that finds a batch open
      upstream, has lost its Sync to a refusal in that batch. */
  lemma {:induction false} WithheldSync(sent: seq<Sent>, j: nat) returns (i: nat)
    requires ClosedBefore(FramesOf(sent, |sent|))
    requires j < |sent| && ForwardedAt(sent, j) && Simple(sent[j].frame) && OpenUpstream(sent, j)
    ensures i < j && RefusedMidBatch(sent, i) && !SyncBetween(sent, i, j)
  {
    var log := FramesOf(sent, |sent|);
    var e := Opener(sent, j);
    assert log[e] == sent[e].frame && log[j] == sent[j].frame;
    var b := Closer(log, e, j);
    assert log[b] == sent[b].frame && log[b].Sync?;
    assert !ForwardedAt(sent, b);
    i := Refusal(sent, e, b);
    assert i != e;
    UpstreamStep(sent, e);
    StaysOpen(sent, e + 1, i);
  }

  /** If no Sync is forwarded in between, the first Query or FunctionCall forwarded after a refusal inside
      a batch finds that batch open. */
  lemma {:induction false} FirstSimple(sent: seq<Sent>, i: nat, j: nat) returns (l: nat)
    requires i < j < |sent| && ForwardedAt(sent, j) && Simple(sent[j].frame)
    requires forall x | i < x < j && ForwardedAt(sent, x) :: !sent[x].frame.Sync?
    ensures i < l <= j && ForwardedAt(sent, l) && Simple(sent[l].frame)
    ensures forall x | i < x < l && ForwardedAt(sent, x) :: !IsBoundary(sent[x].frame)
    decreases j
  {
    if x: nat :| i < x < j && ForwardedAt(sent, x) && IsBoundary(sent[x].frame) {
      l := FirstSimple(sent, i, x);
    } else {
      l := j;
    }
  }

  /** For a client that closes its batches, the backend sees closed batches exactly when every refusal
      inside a batch is followed by a forwarded Sync before the next forwarded Query or
      FunctionCall. */
  lemma {:induction false} ForwardedClosedIff(sent: seq<Sent>)
    requires ClosedBefore(FramesOf(sent, |sent|))
    ensures ClosedBefore(Forwarded(sent, |sent|)) <==> SyncFollowsRefusals(sent)
  {
    ForwardedClosed(sent, |sent|);
    if ClosedBefore(Forwarded(sent, |sent|)) {
      forall i, j | 0 <= i < j < |sent| && RefusedMidBatch(sent, i) && ForwardedAt(sent, j) && Simple(sent[j].frame)
        ensures SyncBetween(sent, i, j)
      {
        if !SyncBetween(sent, i, j) {
          var l := FirstSimple(sent, i, j);
          UpstreamStep(sent, i);
          StaysOpen(sent, i + 1, l);
        }
      }
    } else {
      var j :| 0 <= j < |sent| && ForwardedAt(sent, j) && Simple(sent[j].frame) && OpenUpstream(sent, j);
      var i := WithheldSync(sent, j);
    }
  }
}
