/** The balance of batch markers, over every session: what the queue holds against what the backend
    still owes, whatever client, backend and write path do. */
module MarkerLaw {
  import opened Frames
  import opened Backend
  import opened Queue
  import opened QueueProofs
  import opened Mirror
  import opened Portals
  import opened Session

  function Markers(pending: seq<Pending>): (n: nat) {
    if pending == [] then 0 else (if pending[0].OwedBatch? then 1 else 0) + Markers(pending[1..])
  }

  /** ReadyForQuery messages sent and not handled yet. */
  function ReadysIn(down: seq<Message>): (n: nat) {
    if down == [] then 0 else (if down[0].ReadyForQuery? then 1 else 0) + ReadysIn(down[1..])
  }

  /** Batch-ending frames from `k` on. */
  function BoundariesFrom(log: Log, k: nat): (n: nat)
    decreases |log| - k
  {
    if k >= |log| then 0 else (if IsBoundary(log[k]) then 1 else 0) + BoundariesFrom(log, k + 1)
  }

  function OwedByCopy(log: Log, mode: Mode): (n: nat) {
    if mode.CopyIn? && QueryAt(log, mode.starter) then 1 else 0
  }

  /** The ReadyForQuery messages still owed: those in flight, one for every batch-ending frame the
      backend has yet to consume, and one for the Query whose copy is in progress. */
  function Owed(q: Queue): (n: nat) {
    ReadysIn(q.down) + BoundariesFrom(q.log, q.consumed) + OwedByCopy(q.log, q.mode)
  }

  /** The markers whose frames the backend has discarded or ignored. */
  function LostMarkers(log: Log, lost: set<nat>): (r: set<nat>) {
    set x | x in lost && BatchAt(log, x)
  }

  function TagMarkers(log: Log, tags: Tags): (n: nat) {
    if tags == [] then 0 else (if BatchAt(log, tags[0]) then 1 else 0) + TagMarkers(log, tags[1..])
  }

  predicate Balanced(q: Queue) {
    && TagMarkers(q.log, q.tags) + |q.dropped| == Owed(q) + |LostMarkers(q.log, q.lost)| + q.missed
    && (forall x | x in q.dropped :: x < |q.log| && x !in q.tags)
  }

  // ---------------------------------------------------------------- counting

  lemma {:induction false} TagMarkersConcat(log: Log, a: Tags, b: Tags)
    ensures TagMarkers(log, a + b) == TagMarkers(log, a) + TagMarkers(log, b)
  {
    if a == [] {
      assert a + b == b;
    } else {
      assert (a + b)[1..] == a[1..] + b;
      TagMarkersConcat(log, a[1..], b);
    }
  }

  lemma {:induction false} TagMarkersGrow(log: Log, f: Frame, tags: Tags)
    requires forall i | 0 <= i < |tags| :: tags[i] < |log|
    ensures TagMarkers(log + [f], tags) == TagMarkers(log, tags)
  {
    if tags != [] {
      TagMarkersGrow(log, f, tags[1..]);
    }
  }

  lemma {:induction false} BoundariesGrow(log: Log, f: Frame, k: nat)
    requires k <= |log|
    ensures BoundariesFrom(log + [f], k) == BoundariesFrom(log, k) + (if IsBoundary(f) then 1 else 0)
    decreases |log| - k
  {
    if k < |log| {
      BoundariesGrow(log, f, k + 1);
    } else {
      assert BoundariesFrom(log + [f], k + 1) == 0;
    }
  }

  function Elements(tags: Tags): (r: set<nat>) {
    set x | x in tags
  }

  lemma {:induction false} ElementsCount(tags: Tags)
    requires Increasing(tags)
    ensures |Elements(tags)| == |tags|
  {
    if tags != [] {
      var rest := tags[1..];
      ElementsCount(rest);
      assert tags == [tags[0]] + rest;
      assert Elements(tags) == {tags[0]} + Elements(rest);
    }
  }

  lemma {:induction false} RunMarkers(log: Log, run: Tags)
    requires forall i | 0 <= i < |run| :: BatchAt(log, run[i])
    ensures TagMarkers(log, run) == |run|
  {
    if run != [] {
      RunMarkers(log, run[1..]);
    }
  }

  /** Cutting a run out of the queue removes its elements. */
  lemma {:induction false} RemovedRun(tags: Tags, i: nat, n: nat)
    requires Increasing(tags) && i + n <= |tags|
    ensures Removed(tags, Cut(tags, i, n)) == Elements(tags[i..i + n])
  {
    var rest, run := Cut(tags, i, n), tags[i..i + n];
    assert forall l | 0 <= l < |run| :: run[l] == tags[i + l];
    forall x: nat ensures x in Removed(tags, rest) <==> x in Elements(run) {
      if x in tags {
        var j :| 0 <= j < |tags| && tags[j] == x;
        if j < i {
          assert rest[j] == x;
        } else if i + n <= j {
          assert rest[j - n] == x;
        } else {
          assert run[j - i] == x;
        }
      }
    }
  }

  /** A copy frame removes as many markers as it drops. */
  lemma {:induction false} DropCounts(log: Log, tags: Tags, e: nat)
    requires Recorded(log, tags)
    ensures var rest := DropBehind(log, tags, e);
            TagMarkers(log, tags) == TagMarkers(log, rest) + |Removed(tags, rest)|
  {
    var i, n := DropBehindIs(log, tags, e);
    CutCounts(log, tags, i, n);
  }

  lemma {:induction false} CutMarkers(log: Log, tags: Tags, i: nat, n: nat)
    requires i + n <= |tags| && forall j | i <= j < i + n :: BatchAt(log, tags[j])
    ensures TagMarkers(log, tags) == TagMarkers(log, Cut(tags, i, n)) + n
  {
    var a, run, b := tags[..i], tags[i..i + n], tags[i + n..];
    assert tags == a + (run + b) && Cut(tags, i, n) == a + b;
    TagMarkersConcat(log, a, run + b);
    TagMarkersConcat(log, run, b);
    TagMarkersConcat(log, a, b);
    RunMarkers(log, run);
  }

  lemma {:induction false} CutCounts(log: Log, tags: Tags, i: nat, n: nat)
    requires Increasing(tags) && i + n <= |tags|
    requires forall j | i <= j < i + n :: BatchAt(log, tags[j])
    ensures TagMarkers(log, tags) == TagMarkers(log, Cut(tags, i, n)) + |Removed(tags, Cut(tags, i, n))|
  {
    CutMarkers(log, tags, i, n);
    RemovedRun(tags, i, n);
    ElementsCount(tags[i..i + n]);
  }

  lemma {:induction false} ReadysConcat(a: seq<Message>, b: seq<Message>)
    ensures ReadysIn(a + b) == ReadysIn(a) + ReadysIn(b)
  {
    if a == [] {
      assert a + b == b;
    } else {
      assert (a + b)[1..] == a[1..] + b;
      ReadysConcat(a[1..], b);
    }
  }

  lemma {:induction false} RowsHaveNone(r: nat, n: nat)
    ensures ReadysIn(Rows(r, n)) == 0
  {
    if n > 0 {
      ReadysConcat([DataRow(r)], Rows(r, n - 1));
      RowsHaveNone(r, n - 1);
    }
  }

  lemma {:induction false} ItemsHaveNone(r: nat, items: seq<Item>)
    ensures ReadysIn(ItemMessages(r, items)) == 0
  {
    if items != [] {
      ItemsHaveNone(r, items[1..]);
      match items[0]
      case RowSet(fields, n) =>
        RowsHaveNone(r, n);
        ReadysConcat(Rows(r, n), [Complete(r)]);
        ReadysConcat([RowDescription(r, fields)], Rows(r, n) + [Complete(r)]);
        ReadysConcat([RowDescription(r, fields)] + (Rows(r, n) + [Complete(r)]), ItemMessages(r, items[1..]));
      case Command =>
        ReadysConcat([Complete(r)], ItemMessages(r, items[1..]));
    }
  }

  lemma {:induction false} QueryEndHasOne(r: nat, failed: bool)
    ensures ReadysIn(QueryEnd(r, failed)) == 1
  {
    var one := [ReadyForQuery(r)];
    assert one[1..] == [];
    ReadysConcat(if failed then [ErrorResponse(r)] else [], one);
    assert failed ==> [ErrorResponse(r)][1..] == [];
  }

  lemma {:induction false} AbortedReadys(log: Log, r: nat)
    ensures ReadysIn(Aborted(log, r).0) == if QueryAt(log, r) then 1 else 0
  {
    QueryEndHasOne(r, true);
  }

  lemma {:induction false} CopiedReadys(log: Log, k: nat, r: nat, c: Choice)
    requires QueryAt(log, r) ==> c.Results? || c.StartsCopy?
    requires !QueryAt(log, r) ==> c.Succeeds?
    ensures var (msgs, mode) := Copied(log, k, r, c);
            ReadysIn(msgs) + OwedByCopy(log, mode) == if QueryAt(log, r) then 1 else 0
  {
    if c.Results? {
      ItemsHaveNone(r, c.items);
      QueryEndHasOne(r, c.failed);
      ReadysConcat(ItemMessages(r, c.items), QueryEnd(r, c.failed));
      ReadysConcat([Complete(r)], ItemMessages(r, c.items) + QueryEnd(r, c.failed));
    } else if c.StartsCopy? {
      ItemsHaveNone(r, c.before);
      ReadysConcat(ItemMessages(r, c.before), [CopyInResponse(r)]);
      ReadysConcat([Complete(r)], ItemMessages(r, c.before) + [CopyInResponse(r)]);
    }
  }

  lemma {:induction false} NormalReadys(log: Log, k: nat, c: Choice)
    requires k < |log| && MayChoose(log, k, Normal, c)
    ensures var (msgs, mode) := Respond(log, k, Normal, c);
            ReadysIn(msgs) + OwedByCopy(log, mode) == if IsBoundary(log[k]) then 1 else 0
  {
    var f := log[k];
    if f.Execute? && !c.StartsCopy? {
      RowsHaveNone(k, c.rows);
      ReadysConcat(Rows(k, c.rows), if c.Returns? then [Complete(k)] else [ErrorResponse(k)]);
    } else if f.Query? {
      if c.Results? {
        ItemsHaveNone(k, c.items);
        QueryEndHasOne(k, c.failed);
        ReadysConcat(ItemMessages(k, c.items), QueryEnd(k, c.failed));
      } else {
        ItemsHaveNone(k, c.before);
        ReadysConcat(ItemMessages(k, c.before), [CopyInResponse(k)]);
      }
    } else if IsBoundary(f) {
      QueryEndHasOne(k, c.Fails?);
    }
  }

  /** A batch-ending frame consumed by the backend is answered by one ReadyForQuery, now or at the end
      of its copy, or is lost. */
  lemma {:induction false} RespondReadys(log: Log, k: nat, mode: Mode, c: Choice)
    requires k < |log| && MayChoose(log, k, mode, c)
    ensures var (msgs, mode') := Respond(log, k, mode, c);
            ReadysIn(msgs) + OwedByCopy(log, mode')
            + (if BatchAt(log, k) && Loses(log, k, mode) then 1 else 0)
            == OwedByCopy(log, mode) + (if IsBoundary(log[k]) then 1 else 0)
  {
    match mode
    case Normal => NormalReadys(log, k, c);
    case Skipping =>
    case CopyIn(r, _) =>
      AbortedReadys(log, r);
      if log[k].CopyDone? && !c.Fails? {
        CopiedReadys(log, k, r, c);
      }
  }

  // ---------------------------------------------------------------- steps

  lemma {:induction false} SameLost(log: Log, f: Frame, lost: set<nat>)
    requires forall x | x in lost :: x < |log|
    ensures LostMarkers(log + [f], lost) == LostMarkers(log, lost)
  {
  }

  lemma {:induction false} SendTags(q: Queue, f: Frame)
    requires Recorded(q.log, q.tags) && forall x | x in q.dropped :: x < |q.log| && x !in q.tags
    ensures var n := Send(q, f);
            && TagMarkers(n.log, n.tags) + |n.dropped|
               == TagMarkers(q.log, q.tags) + |q.dropped| + (if IsBoundary(f) then 1 else 0)
            && (forall x | x in n.dropped :: x < |n.log| && x !in n.tags)
  {
    var n := Send(q, f);
    if OpensCopyPayload(f) {
      if q.copy.Copying? && q.copy.execute.Some? {
        var e := q.copy.execute.value;
        DropCounts(q.log, q.tags, e);
        DropBehindRecorded(q.log, q.tags, e);
        forall x: nat ensures x in n.tags ==> x in q.tags {
          DropBehindHas(q.log, q.tags, e, x);
        }
        assert q.dropped !! Removed(q.tags, n.tags);
      } else {
        assert Removed(q.tags, n.tags) == {};
      }
      TagMarkersGrow(q.log, f, n.tags);
    } else {
      TagMarkersGrow(q.log, f, q.tags);
      TagMarkersConcat(n.log, q.tags, Added(q.log, f));
      var one := [|q.log|];
      assert one[1..] == [];
    }
  }

  lemma {:induction false} SendBalanced(q: Queue, f: Frame)
    requires Ideal(q) && Recorded(q.log, q.tags) && Balanced(q)
    ensures Balanced(Send(q, f))
  {
    SendTags(q, f);
    BoundariesGrow(q.log, f, q.consumed);
    SameLost(q.log, f, q.lost);
  }

  lemma {:induction false} AdvanceBalanced(q: Queue, msgs: seq<Message>, mode: Mode)
    requires Balanced(q) && q.consumed < |q.log| && q.consumed !in q.lost
    requires ReadysIn(msgs) + OwedByCopy(q.log, mode)
             + (if BatchAt(q.log, q.consumed) && Loses(q.log, q.consumed, q.mode) then 1 else 0)
             == OwedByCopy(q.log, q.mode) + (if IsBoundary(q.log[q.consumed]) then 1 else 0)
    ensures Balanced(Advance(q, msgs, mode))
  {
    var k, n := q.consumed, Advance(q, msgs, mode);
    ReadysConcat(q.down, msgs);
    if Loses(q.log, k, q.mode) {
      assert LostMarkers(q.log, n.lost) == LostMarkers(q.log, q.lost) + (if BatchAt(q.log, k) then {k} else {});
    }
  }

  lemma {:induction false} ConsumeBalanced(q: Queue, c: Choice)
    requires Ideal(q) && Balanced(q) && q.consumed < |q.log| && MayChoose(q.log, q.consumed, q.mode, c)
    ensures Balanced(Consume(q, c))
  {
    var (msgs, mode) := Respond(q.log, q.consumed, q.mode, c);
    RespondReadys(q.log, q.consumed, q.mode, c);
    assert q.consumed !in q.lost;
    AdvanceBalanced(q, msgs, mode);
  }

  lemma {:induction false} AbortBalanced(q: Queue)
    requires q.mode.CopyIn? && Balanced(q)
    ensures Balanced(Abort(q))
  {
    AbortedReadys(q.log, q.mode.starter);
    ReadysConcat(q.down, Aborted(q.log, q.mode.starter).0);
  }

  lemma {:induction false} FromMarkerMarkers(log: Log, tags: Tags)
    ensures TagMarkers(log, FromMarker(log, tags)) == TagMarkers(log, tags)
  {
    if tags != [] && !BatchAt(log, tags[0]) {
      FromMarkerMarkers(log, tags[1..]);
    }
  }

  lemma {:induction false} HandleBalanced(q: Queue)
    requires q.down != [] && Balanced(q)
    ensures Balanced(Handle(q))
  {
    FromMarkerMarkers(q.log, q.tags);
    var i := HandleTagsIsSuffix(q.log, q.tags, q.down[0]);
  }

  // ---------------------------------------------------------------- whole runs

  lemma {:induction false} RunsBalanced(states: seq<Session>, steps: seq<Step>, i: nat)
    requires IsRun(states, steps) && i < |states|
    ensures Balanced(states[i].q)
  {
    if i > 0 {
      RunsBalanced(states, steps, i - 1);
      RunsCoupled(states, steps, i - 1);
      var s := states[i - 1];
      assert Next(s, steps[i - 1], states[i]);
      EntriesRecorded(s.q.log, s.q.tags, s.t.pending);
      match steps[i - 1]
      case ClientSends(f, refused) =>
        if !s.awaiting {
          if !refused {
            SendBalanced(s.q, f);
          } else if f.Bind? {
            SendBalanced(s.q, RefusedBind(f.portal, f.statement, f.formats));
          }
        }
      case BackendConsumes(c) => ConsumeBalanced(s.q, c);
      case BackendAborts => AbortBalanced(s.q);
      case ReadPathHandles(_) => HandleBalanced(s.q);
    }
  }

  lemma {:induction false} PendingMarkers(log: Log, tags: Tags, pending: seq<Pending>)
    requires SameKinds(log, tags, pending)
    ensures Markers(pending) == TagMarkers(log, tags)
  {
    if tags != [] {
      PendingMarkers(log, tags[1..], pending[1..]);
    }
  }

  /** In every state of every session, the markers in the tracker's queue, with those that copy frames
      have dropped, are the ReadyForQuery messages still owed, with the markers whose frames the
      backend has discarded or ignored and the ReadyForQuery messages that found no marker. So there
      are as many markers as are owed exactly when as many were dropped as were lost or missed. */
  lemma {:induction false} MarkersBalance(states: seq<Session>, steps: seq<Step>, i: nat)
    requires IsRun(states, steps) && i < |states|
    ensures var q := states[i].q;
            && Markers(states[i].t.pending) + |q.dropped|
               == Owed(q) + |LostMarkers(q.log, q.lost)| + q.missed
            && (Markers(states[i].t.pending) == Owed(q) <==>
                  |q.dropped| == |LostMarkers(q.log, q.lost)| + q.missed)
  {
    RunsBalanced(states, steps, i);
    RunsCoupled(states, steps, i);
    EntriesKinds(states[i].q.log, states[i].q.tags, states[i].t.pending);
    PendingMarkers(states[i].q.log, states[i].q.tags, states[i].t.pending);
  }
}
