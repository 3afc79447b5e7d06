/** What the tracker guarantees over whole sessions, and exactly for how long. */
module SessionTheorems {
  import opened Bytes
  import opened Resolution
  import opened Frames
  import opened Backend
  import opened Queue
  import opened QueueProofs
  import opened Mirror
  import opened History
  import opened Upstream
  import opened Portals
  import opened Session
  import opened Descriptions
  import opened MarkerLaw

  // ---------------------------------------------------------------- alignment

  /** The markers in the queue are exactly those whose ReadyForQuery is still owed. */
  ghost predicate Aligned(q: Queue) {
    forall x: nat | BatchAt(q.log, x) :: x in q.tags <==> OwedAt(q, x)
  }

  /** In every session whose messages have been handled in clear states: a marker is queued exactly
      when its ReadyForQuery is owed or its frame was lost, and no copy frame has dropped it. So the
      queue is aligned exactly when the markers that copy frames dropped are those of the frames
      the backend discarded or ignored. */
  lemma {:induction false} AlignedIff(states: seq<Session>, steps: seq<Step>, i: nat)
    requires IsRun(states, steps) && i < |states| && ClearUntil(states, steps, i)
    ensures var q := states[i].q;
            && (forall x: nat | BatchAt(q.log, x) ::
                  x in q.tags <==> (OwedAt(q, x) || x in q.lost) && x !in q.dropped)
            && (Aligned(q) <==> LostMarkers(q.log, q.lost) == q.dropped)
  {
    RunsCoupled(states, steps, i);
    RunsInformed(states, steps, i);
    var q := states[i].q;
    forall x: nat | BatchAt(q.log, x)
      ensures x in q.tags <==> (OwedAt(q, x) || x in q.lost) && x !in q.dropped
      ensures x in q.lost ==> !OwedAt(q, x)
      ensures x in q.dropped ==> OwedAt(q, x) || x in q.lost
    {
      assert Live(q, x) && AgreeOn(q, x);
      IdealIsOwed(q, x);
    }
    if Aligned(q) {
      forall x: nat ensures x in LostMarkers(q.log, q.lost) <==> x in q.dropped {
        if BatchAt(q.log, x) {
          assert x in q.tags <==> OwedAt(q, x);
        }
      }
    }
    if LostMarkers(q.log, q.lost) == q.dropped {
      forall x: nat | BatchAt(q.log, x) ensures x in q.tags <==> OwedAt(q, x) {
        assert x in LostMarkers(q.log, q.lost) <==> x in q.lost;
      }
    }
  }

  /** In such a session no ReadyForQuery has missed its marker. */
  lemma {:induction false} NothingMissed(states: seq<Session>, steps: seq<Step>, i: nat)
    requires IsRun(states, steps) && i < |states| && ClearUntil(states, steps, i)
    ensures states[i].q.missed == 0
  {
    if i > 0 {
      NothingMissed(states, steps, i - 1);
      var s := states[i - 1];
      assert Next(s, steps[i - 1], states[i]);
      if steps[i - 1].ReadPathHandles? {
        RunsCoupled(states, steps, i - 1);
        RunsInformed(states, steps, i - 1);
        FindsExpectation(s.q);
      }
    }
  }

  /** Hence an aligned queue holds one marker for every ReadyForQuery owed, and no other. */
  lemma {:induction false} AlignedCounts(states: seq<Session>, steps: seq<Step>, i: nat)
    requires IsRun(states, steps) && i < |states| && ClearUntil(states, steps, i)
    ensures Aligned(states[i].q) ==> Markers(states[i].t.pending) == Owed(states[i].q)
  {
    AlignedIff(states, steps, i);
    NothingMissed(states, steps, i);
    MarkersBalance(states, steps, i);
  }

  // ---------------------------------------------------------------- one message

  /** The message finds the frame it answers: a ReadyForQuery at the first marker, any other message at
      the front of the queue. */
  predicate Found(q: Queue)
    requires q.down != []
  {
    var from := if q.down[0].ReadyForQuery? then FromMarker(q.log, q.tags) else q.tags;
    from != [] && from[0] == q.down[0].origin
  }

  /** Its own entry has not been dropped, and no marker that was lost and not dropped is queued ahead of
      it. */
  predicate Unobstructed(q: Queue)
    requires q.down != []
  {
    var r := q.down[0].origin;
    r !in q.dropped && forall x | x in q.lost && x !in q.dropped && BatchAt(q.log, x) :: r < x
  }

  lemma {:induction false} ReadyIsOwed(q: Queue)
    requires Ideal(q) && q.down != [] && q.down[0].ReadyForQuery?
    ensures BatchAt(q.log, q.down[0].origin) && q.down[0].origin in q.ideal && q.down[0].origin !in q.lost
  {
    var i := FromMarkerIsSuffix(q.log, q.ideal);
  }

  lemma {:induction false} ReadyFound(q: Queue)
    requires Ideal(q) && Mirrors(q) && q.down != [] && q.down[0].ReadyForQuery? && Unobstructed(q)
    ensures Found(q)
  {
    var r := q.down[0].origin;
    ReadyIsOwed(q);
    assert Live(q, r) && AgreeOn(q, r);
    FirstMarkerIsLeast(q.log, q.tags, r);
    var y := FromMarker(q.log, q.tags)[0];
    assert Live(q, y) && AgreeOn(q, y);
    if y in q.ideal {
      FirstMarkerIsLeast(q.log, q.ideal, y);
    }
  }

  lemma {:induction false} ReadyUnobstructed(q: Queue)
    requires Ideal(q) && Mirrors(q) && q.down != [] && q.down[0].ReadyForQuery? && Found(q)
    ensures Unobstructed(q)
  {
    var r := q.down[0].origin;
    ReadyIsOwed(q);
    InFromMarker(q.log, q.tags, r);
    assert Live(q, r) && AgreeOn(q, r);
    forall x | x in q.lost && x !in q.dropped && BatchAt(q.log, x) ensures r < x {
      assert Live(q, x) && AgreeOn(q, x);
      FirstMarkerIsLeast(q.log, q.tags, x);
    }
  }

  lemma {:induction false} OtherFoundIff(q: Queue)
    requires Ideal(q) && Mirrors(q) && q.down != [] && !q.down[0].ReadyForQuery?
    requires TrackedAt(q.log, q.down[0].origin)
    ensures Found(q) <==> Clear(q)
  {
    var r := q.down[0].origin;
    assert !q.reader.err && q.ideal[0] == r && r in q.ideal && Live(q, r) && AgreeOn(q, r);
    if Found(q) {
      assert r in q.tags;
      forall x | x in q.lost && x !in q.dropped ensures r < x {
        assert Live(q, x) && AgreeOn(q, x);
        FirstIsLeast(q.tags, x);
      }
    } else if r !in q.dropped {
      FirstIsLeast(q.tags, r);
      var y := q.tags[0];
      assert Live(q, y) && AgreeOn(q, y);
      if y in q.ideal {
        FirstIsLeast(q.ideal, y);
      }
    }
  }

  /** Exactly when the next message finds the frame it answers: a ReadyForQuery, which settles everything
      up to a marker, when no lost marker is in its way; any other message when nothing is. */
  lemma {:induction false} FoundIff(states: seq<Session>, steps: seq<Step>, i: nat)
    requires IsRun(states, steps) && i < |states| && ClearUntil(states, steps, i)
    requires states[i].q.down != [] && TrackedAt(states[i].q.log, states[i].q.down[0].origin)
    ensures var q := states[i].q;
            Found(q) <==> if q.down[0].ReadyForQuery? then Unobstructed(q) else Clear(q)
  {
    RunsCoupled(states, steps, i);
    RunsInformed(states, steps, i);
    var q := states[i].q;
    if !q.down[0].ReadyForQuery? {
      OtherFoundIff(q);
    } else if Unobstructed(q) {
      ReadyFound(q);
    } else if Found(q) {
      ReadyUnobstructed(q);
    }
  }

  /** Handling the ReadyForQuery that answers frame `r` leaves in the queue exactly the expectations
      recorded after `r`, less the markers that copy frames have dropped. */
  lemma {:induction false} ReadySettlesItsBatch(states: seq<Session>, steps: seq<Step>, i: nat)
    requires IsRun(states, steps) && i < |steps| && ClearUntil(states, steps, i + 1)
    requires steps[i].ReadPathHandles? && states[i].q.down != [] && states[i].q.down[0].ReadyForQuery?
    ensures var log, r, n := states[i].q.log, states[i].q.down[0].origin, states[i + 1];
            && BatchAt(log, r)
            && (forall x: nat :: x in n.q.tags <==> r < x && TrackedAt(log, x) && x !in n.q.dropped)
            && EntriesAgree(log, n.q.tags, n.t.pending)
  {
    RunsCoupled(states, steps, i);
    RunsCoupled(states, steps, i + 1);
    RunsInformed(states, steps, i);
    RunsInformed(states, steps, i + 1);
    var q, n, r := states[i].q, states[i + 1].q, states[i].q.down[0].origin;
    assert Next(states[i], steps[i], states[i + 1]);
    var j := FromMarkerIsSuffix(q.log, q.ideal);
    assert r in q.ideal;
    forall x: nat ensures x in n.tags <==> r < x && TrackedAt(q.log, x) && x !in n.dropped {
      assert Live(n, x) && AgreeOn(n, x);
      AfterMarkerHas(q.log, q.ideal, r, x);
    }
  }

  // ---------------------------------------------------------------- row attribution

  /** Whenever a DataRow reaches the read path with nothing in its way: the rows of an Execute are
      attributed to the incarnation its portal's statement denoted when the Execute was recorded, with
      the formats of the Bind recorded last, and are refused exactly when no Describe of that
      incarnation has been answered; the rows of a simple Query are read with that Query's own
      RowDescription. */
  lemma {:induction false} RowAttribution(states: seq<Session>, steps: seq<Step>, i: nat)
    requires IsRun(states, steps) && i < |states| && ClearUntil(states, steps, i)
    requires states[i].q.down != [] && states[i].q.down[0].DataRow? && Clear(states[i].q)
    ensures var s, r := states[i], states[i].q.down[0].origin;
            || (ExecuteAt(s.q.log, r)
                && match RowSourceOf(s.t)
                   case FromPortal(p, f) =>
                     && f == ExecuteFormats(s.q.log, r)
                     && ExecuteTarget(s.q.log, r).Some?
                     && DerivedFrom(s.answers, s.q.log, ExecuteTarget(s.q.log, r).value, p)
                   case Undescribed =>
                     ExecuteTarget(s.q.log, r).Some? ==>
                       !Known(s.answers, s.q.log, ExecuteTarget(s.q.log, r).value)
                   case LastDescription => false)
            || (QueryAt(s.q.log, r)
                && RowSourceOf(s.t).LastDescription?
                && s.described.Some? && (r, s.described.value) in s.answers)
  {
    RunsCoupled(states, steps, i);
    RunsInformed(states, steps, i);
    var s := states[i];
    OtherFoundIff(s.q);
    assert EntryAgrees(s.q.log, s.q.tags[0], s.t.pending[0]);
    assert EntryDescribed(s.answers, s.q.log, s.q.tags[0], s.t.pending[0]);
  }

  // ---------------------------------------------------------------- what the backend executes

  /** The entry names the incarnation and the formats that the backend executes at `x`. */
  predicate NamesExecuted(log: Log, taken: set<nat>, x: nat, e: Pending)
    requires ExecuteAt(log, x)
  {
    var u := Executed(log, taken, x);
    && e.OwedExecute? && e.formats == ExecutedFormats(log, taken, x)
    && e.incarnation == if u.None? then None else Some(ParseCount(log, u.value))
  }

  /** In every state of every session, and for every queued Execute that the backend has consumed and that
      runs a statement: the queue entry names the incarnation and the formats the backend executes
      exactly when, since the Parse that the portal's Bind planned, nothing recorded parses or closes
      that statement's name, and since that Bind nothing recorded binds or closes the portal, or
      what was bound since asks for the same. */
  lemma {:induction false} EntryAttributedIff(states: seq<Session>, steps: seq<Step>, i: nat, j: nat)
    requires IsRun(states, steps) && i < |states|
    requires j < |states[i].q.tags| && ExecuteAt(states[i].q.log, states[i].q.tags[j])
    requires states[i].q.tags[j] < states[i].q.consumed
    requires Executed(states[i].q.log, states[i].q.taken, states[i].q.tags[j]).Some?
    ensures var log, taken, x := states[i].q.log, states[i].q.taken, states[i].q.tags[j];
            var p, u := PortalAt(log, x, log[x].portal), HeldAt(log, taken, x, log[x].portal).value;
            && j < |states[i].t.pending|
            && (NamesExecuted(log, taken, x, states[i].t.pending[j]) <==>
                  && StatementKept(log, Executed(log, taken, x).value, x)
                  && (PortalKept(log, u, x) || SameRequest(log, p, u)))
  {
    RunsCoupled(states, steps, i);
    var log, taken, x := states[i].q.log, states[i].q.taken, states[i].q.tags[j];
    assert EntryAgrees(log, x, states[i].t.pending[j]);
    AttributedIff(log, taken, x);
    var p, u := ExecuteTarget(log, x), Executed(log, taken, x);
    if p.Some? {
      SameIncarnation(log, p.value, u.value);
    }
  }

  /** The row of the Execute at `r` is read with the description that the backend gave for the Describe at
      `d` and with formats `f`, and both are those of what it executes. */
  predicate ReadAsExecuted(log: Log, taken: set<nat>, d: nat, r: nat, f: ResultFormats)
    requires DescribeAt(log, d) && ExecuteAt(log, r)
  {
    DescribesExecuted(log, taken, d, r) && f == ExecutedFormats(log, taken, r)
  }

  /** Whenever a row of an Execute is read, it is read with the answer to some Describe, or one re-derived
      from it. That answer and the formats are those of what the backend executes exactly when the
      Describe and the executed portal's Bind were looked up under the same statement name, that name
      was neither parsed nor closed with effect between the two, and the Bind recorded last, refused,
      failed or discarded as it may have been, asks for the formats of the one the backend holds. */
  lemma {:induction false} RowsFollowBackend(states: seq<Session>, steps: seq<Step>, i: nat)
      returns (a: (nat, Described))
    requires IsRun(states, steps) && i < |states| && ClearUntil(states, steps, i)
    requires states[i].q.down != [] && states[i].q.down[0].DataRow? && Clear(states[i].q)
    requires ExecuteAt(states[i].q.log, states[i].q.down[0].origin) && RowSourceOf(states[i].t).FromPortal?
    ensures a in states[i].answers && Covers(RowSourceOf(states[i].t).positions, a.1)
    ensures var log, taken, r := states[i].q.log, states[i].q.taken, states[i].q.down[0].origin;
            var p, u := PortalAt(log, r, log[r].portal), HeldAt(log, taken, r, log[r].portal);
            && r < states[i].q.consumed && DescribeAt(log, a.0) && p.Some?
            && var at := AskedAt(log, taken, a.0);
               (ReadAsExecuted(log, taken, a.0, r, RowSourceOf(states[i].t).formats) <==>
                  && Executed(log, taken, r).Some? && at.Some? && at.value.1 == log[u.value].statement
                  && Unchanged(log, taken, Earlier(at.value.0, u.value), Later(at.value.0, u.value), at.value.1)
                  && log[p.value].formats == log[u.value].formats)
  {
    RunsCoupled(states, steps, i);
    RowAttribution(states, steps, i);
    var s, log, r := states[i], states[i].q.log, states[i].q.down[0].origin;
    var x, p := ExecuteTarget(log, r).value, RowSourceOf(s.t).positions;
    a :| a in s.answers && AsksAbout(log, a.0, x) && Covers(p, a.1);
    DescribesExecutedIff(log, s.q.taken, a.0, r);
  }

  // ---------------------------------------------------------------- what a Bind does to its parameters

  lemma {:induction false} StatementLater(log: Log, later: Log, n: nat, name: bytes)
    requires n <= |log| && log <= later
    ensures StatementAt(later, n, name) == StatementAt(log, n, name)
    decreases |later| - |log|
  {
    if |log| < |later| {
      PastNames(log, later[|log|], n, name);
      StatementLater(log + [later[|log|]], later, n, name);
    } else {
      assert later == log;
    }
  }

  /** In every state of every session, the parameter actions that a Bind of `statement` is answered are
      those of the Parse that the name denotes in the recorded history, and it is answered none
      exactly when the name denotes no Parse. */
  lemma {:induction false} BindActions(states: seq<Session>, steps: seq<Step>, i: nat, statement: bytes)
    requires IsRun(states, steps) && i < |states|
    ensures var log := states[i].q.log;
            var x := StatementAt(log, |log|, statement);
            ActionsFor(states[i].t, statement) == if x.None? then None else Some(log[x.value].params)
  {
    RunsCoupled(states, steps, i);
    assert StatementAgrees(states[i].t, states[i].q.log, statement);
  }

  /** A Bind recorded in state `i`, once the backend has taken it and planned the Parse at `x`: its
      parameters were transformed as that very Parse asks exactly when nothing recorded between the
      two, refused, failed or discarded as it may have been, parses or closes the name; or when what
      was parsed since asks for the same. */
  lemma {:induction false} BoundAsPlannedIff(states: seq<Session>, steps: seq<Step>, i: nat, j: nat, x: nat)
    requires IsRun(states, steps) && i <= j < |states|
    requires var b, log := |states[i].q.log|, states[j].q.log;
             b < |log| && log[b].Bind? && Planned(log, states[j].q.taken, b) == Some(x)
    ensures var b, log := |states[i].q.log|, states[j].q.log;
            var now := StatementAt(log, b, log[b].statement);
            ActionsFor(states[i].t, log[b].statement) == Some(log[x].params) <==>
              StatementKept(log, x, b) || (now.Some? && log[now.value].params == log[x].params)
  {
    var b, log := |states[i].q.log|, states[j].q.log;
    RunsGrow(states, steps, i, j);
    BindActions(states, steps, i, log[b].statement);
    StatementLater(states[i].q.log, log, b, log[b].statement);
    RecordedKept(log, x, b);
  }

  // ---------------------------------------------------------------- attribution is fixed

  /** Histories grow, and the backend does not take back what it has consumed. */
  lemma {:induction false} RunsGrow(states: seq<Session>, steps: seq<Step>, i: nat, j: nat)
    requires IsRun(states, steps) && i <= j < |states|
    ensures states[i].q.log <= states[j].q.log && states[i].q.consumed <= states[j].q.consumed
    ensures SameBefore(states[i].q.taken, states[j].q.taken, states[i].q.consumed)
    decreases j
  {
    if i < j {
      RunsGrow(states, steps, i, j - 1);
      assert Next(states[j - 1], steps[j - 1], states[j]);
      StepGrows(states[j - 1], steps[j - 1], states[j]);
    }
  }

  lemma {:induction false} StepGrows(s: Session, step: Step, n: Session)
    requires Next(s, step, n)
    ensures s.q.log <= n.q.log && s.q.consumed <= n.q.consumed
    ensures SameBefore(s.q.taken, n.q.taken, s.q.consumed)
  {
  }

  lemma {:induction false} RecordedLater(log: Log, later: Log, x: nat)
    requires ExecuteAt(log, x) && log <= later
    ensures ExecuteAt(later, x)
    ensures ExecuteTarget(later, x) == ExecuteTarget(log, x) && ExecuteFormats(later, x) == ExecuteFormats(log, x)
    ensures ExecuteCount(later, x) == ExecuteCount(log, x)
    ensures forall y: nat | y <= x :: ParseCount(later, y) == ParseCount(log, y)
    decreases |later| - |log|
  {
    if |log| < |later| {
      var f := later[|log|];
      PastExecute(log, f, x);
      PastCounts(log, f, x);
      forall y: nat | y <= x ensures ParseCount(log + [f], y) == ParseCount(log, y) {
        PastCounts(log, f, y);
      }
      RecordedLater(log + [f], later, x);
    } else {
      assert later == log;
    }
  }

  /** Nothing that happens after an Execute is recorded changes what it is attributed to: in any later state
      in which it is still queued its entry has the same id, incarnation and formats; and once the
      backend has consumed it, what it executes is the same in every later state. */
  lemma {:induction false} AttributionIsFixed(
      states: seq<Session>, steps: seq<Step>, i: nat, j: nat, a: nat, b: nat)
    requires IsRun(states, steps) && i <= j < |states|
    requires a < |states[i].q.tags| && b < |states[j].q.tags| && states[i].q.tags[a] == states[j].q.tags[b]
    requires ExecuteAt(states[i].q.log, states[i].q.tags[a])
    ensures a < |states[i].t.pending| && b < |states[j].t.pending|
    ensures var e, n := states[i].t.pending[a], states[j].t.pending[b];
            && e.OwedExecute? && n.OwedExecute?
            && n.id == e.id && n.incarnation == e.incarnation && n.formats == e.formats
    ensures var q, l, x := states[i].q, states[j].q, states[i].q.tags[a];
            && ExecuteAt(l.log, x)
            && (x < q.consumed ==>
                  && Executed(l.log, l.taken, x) == Executed(q.log, q.taken, x)
                  && ExecutedFormats(l.log, l.taken, x) == ExecutedFormats(q.log, q.taken, x))
  {
    RunsCoupled(states, steps, i);
    RunsCoupled(states, steps, j);
    RunsGrow(states, steps, i, j);
    var q, l, x := states[i].q, states[j].q, states[i].q.tags[a];
    assert EntryAgrees(q.log, x, states[i].t.pending[a]) && EntryAgrees(l.log, x, states[j].t.pending[b]);
    RecordedLater(q.log, l.log, x);
    if x < q.consumed {
      ExecutedLater(q.log, l.log, q.taken, l.taken, x);
    }
  }

  // ---------------------------------------------------------------- copy frames

  /** Inside copy mode a copy frame removes the maximal run of batch markers directly behind the Execute
      that started the copy and keeps every other entry in order; when that Execute is no longer
      queued it removes nothing. */
  lemma {:induction false} CopyFrameRemoves(t: Tracked, more: bool, id: nat) returns (at: nat, n: nat)
    requires t.copyIn == Started(Some(id))
    ensures at <= |t.pending|
    ensures forall j | 0 <= j < at :: !(t.pending[j].OwedExecute? && t.pending[j].id == id)
    ensures at == |t.pending| ==> CopyFrame(t, more).pending == t.pending
    ensures at < |t.pending| ==>
              && t.pending[at].OwedExecute? && t.pending[at].id == id && at + 1 + n <= |t.pending|
              && CopyFrame(t, more).pending == t.pending[..at + 1] + t.pending[at + 1 + n..]
              && (forall j | at < j < at + 1 + n :: t.pending[j].OwedBatch?)
              && (at + 1 + n < |t.pending| ==> !t.pending[at + 1 + n].OwedBatch?)
  {
    at, n := 0, 0;
    while at < |t.pending| && !(t.pending[at].OwedExecute? && t.pending[at].id == id)
      invariant at <= |t.pending|
      invariant forall j | 0 <= j < at :: !(t.pending[j].OwedExecute? && t.pending[j].id == id)
    {
      at := at + 1;
    }
    if at == |t.pending| {
      UnmarkedAbsent(t.pending, id);
      return;
    }
    while at + 1 + n < |t.pending| && t.pending[at + 1 + n].OwedBatch?
      invariant at + 1 + n <= |t.pending|
      invariant forall j | at < j < at + 1 + n :: t.pending[j].OwedBatch?
    {
      n := n + 1;
    }
    UnmarkedIs(t.pending, id, at, n);
  }
}
