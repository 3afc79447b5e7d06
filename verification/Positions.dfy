/** What the rows of a queued Execute will be read with: fixed once it is described, until its own rows
    bring something newer. */
module Positions {
  import opened Bytes
  import opened Resolution
  import opened Frames
  import opened Queue
  import opened History
  import opened Portals
  import opened Session

  /** The same entry, described meanwhile if it was not. */
  predicate Kept(e: Pending, later: Pending) {
    || later == e
    || (e.OwedExecute? && e.positions.None? && later.OwedExecute? && later == e.(positions := later.positions))
  }

  /** It was queued before. */
  predicate KeptFrom(before: seq<Pending>, later: Pending) {
    exists a | 0 <= a < |before| :: Kept(before[a], later)
  }

  lemma {:induction false} DropsFrom(pending: seq<Pending>, e: Pending)
    requires e in DropBatches(pending)
    ensures e in pending
  {
    if pending != [] && pending[0].OwedBatch? {
      DropsFrom(pending[1..], e);
    }
  }

  lemma {:induction false} UnmarkedFrom(pending: seq<Pending>, id: nat, e: Pending)
    requires e in Unmarked(pending, id)
    ensures e in pending
  {
    if pending[0].OwedExecute? && pending[0].id == id {
      if e != pending[0] {
        DropsFrom(pending[1..], e);
      }
    } else if e != pending[0] {
      UnmarkedFrom(pending[1..], id, e);
    }
  }

  lemma {:induction false} SettledFrom(pending: seq<Pending>, e: Pending)
    requires e in AfterBatch(pending)
    ensures e in pending
  {
    if !pending[0].OwedBatch? {
      SettledFrom(pending[1..], e);
    }
  }

  lemma {:induction false} MemberKept(before: seq<Pending>, e: Pending)
    requires e in before
    ensures KeptFrom(before, e)
  {
    var a :| 0 <= a < |before| && before[a] == e;
    assert Kept(before[a], e);
  }

  /** Recording a frame queues at most one Execute, under a fresh id, and changes no other. */
  lemma {:induction false} RecordKeeps(t: Tracked, f: Frame, e: Pending)
    requires Record(t, f).Ok? && e in Record(t, f).value.pending && e.OwedExecute? && e.id != t.nextExecute
    ensures KeptFrom(t.pending, e)
  {
    if OpensCopyPayload(f) && t.copyIn.Started? && t.copyIn.execute.Some? {
      UnmarkedFrom(t.pending, t.copyIn.execute.value, e);
    }
    MemberKept(t.pending, e);
  }

  /** A row of the Execute `id` is handled. */
  predicate HandlesRowOf(s: Session, step: Step, id: nat) {
    && step.ReadPathHandles? && s.q.down != [] && s.q.down[0].DataRow?
    && s.t.pending != [] && s.t.pending[0].OwedExecute? && s.t.pending[0].id == id
  }

  lemma {:induction false} AnswerKeeps(t: Tracked, positions: Described, e: Pending)
    requires e in DescribeAnswered(t, positions).pending
    ensures KeptFrom(t.pending, e)
  {
    if t.pending != [] && t.pending[0].OwedDescribe? && t.pending[0].statement.Some? {
      var rest, id := t.pending[1..], t.pending[0].statement.value.id;
      var b :| 0 <= b < |rest| && BackFilled(rest, id, positions)[b] == e;
      assert Kept(t.pending[b + 1], e);
    } else {
      MemberKept(t.pending, e);
    }
  }

  /** Handling a message changes no entry that is described, but the one whose row it is. */
  lemma {:induction false} ApplyKeeps(s: Session, positions: Described, e: Pending)
    requires s.q.down != [] && e in Apply(s.t, s.q.down[0], positions).pending && e.OwedExecute?
    requires !HandlesRowOf(s, ReadPathHandles(positions), e.id)
    ensures KeptFrom(s.t.pending, e)
  {
    match s.q.down[0]
    case RowDescription(_, _) => AnswerKeeps(s.t, positions, e);
    case NoData(_) => AnswerKeeps(s.t, NoRows, e);
    case ReadyForQuery(_) =>
      SettledFrom(s.t.pending, e);
      MemberKept(s.t.pending, e);
    case _ => MemberKept(s.t.pending, e);
  }

  lemma {:induction false} StepKeeps(s: Session, step: Step, n: Session, e: Pending)
    requires Next(s, step, n) && e in n.t.pending && e.OwedExecute? && e.id != s.t.nextExecute
    requires !HandlesRowOf(s, step, e.id)
    ensures KeptFrom(s.t.pending, e)
  {
    match step
    case ClientSends(f, refused) =>
      if n.t != s.t {
        if refused {
          RecordKeeps(s.t, RefusedBind(f.portal, f.statement, f.formats), e);
        } else {
          RecordKeeps(s.t, f, e);
        }
      } else {
        MemberKept(s.t.pending, e);
      }
    case ReadPathHandles(positions) => ApplyKeeps(s, positions, e);
    case _ => MemberKept(s.t.pending, e);
  }

  /** Ids name queued Executes, and none is used again. */
  lemma {:induction false} IdsUnique(s: Session, e: Pending, f: Pending)
    requires Coupled(s) && e in s.t.pending && f in s.t.pending && e.OwedExecute? && f.OwedExecute?
    ensures e.id < s.t.nextExecute && (e.id == f.id ==> e == f)
  {
    var a :| 0 <= a < |s.t.pending| && s.t.pending[a] == e;
    var b :| 0 <= b < |s.t.pending| && s.t.pending[b] == f;
    var log, x, y := s.q.log, s.q.tags[a], s.q.tags[b];
    assert EntryAgrees(log, x, e) && EntryAgrees(log, y, f);
    ParseCountMonotone(log, x, |log|);
    SameExecute(log, x, y);
  }

  lemma {:induction false} IdsRise(states: seq<Session>, steps: seq<Step>, i: nat, j: nat)
    requires IsRun(states, steps) && i <= j < |states|
    ensures states[i].t.nextExecute <= states[j].t.nextExecute
    decreases j
  {
    if i < j {
      IdsRise(states, steps, i, j - 1);
      assert Next(states[j - 1], steps[j - 1], states[j]);
      NextRises(states[j - 1], steps[j - 1], states[j]);
    }
  }

  lemma {:induction false} NextRises(s: Session, step: Step, n: Session)
    requires Next(s, step, n)
    ensures s.t.nextExecute <= n.t.nextExecute
  {
  }

  /** In every session: an Execute that is described keeps its description for as long as it is queued and no
      row of it is handled, whatever else is described, parsed, bound or closed meanwhile. */
  lemma {:induction false} DescriptionIsFixed(
    states: seq<Session>, steps: seq<Step>, i: nat, j: nat, e: Pending, later: Pending)
    requires IsRun(states, steps) && i <= j < |states|
    requires e in states[i].t.pending && later in states[j].t.pending && e.OwedExecute? && later.OwedExecute?
    requires e.id == later.id && e.positions.Some?
    requires forall k {:trigger steps[k]} | i <= k < j :: !HandlesRowOf(states[k], steps[k], e.id)
    ensures later.positions == e.positions
    decreases j
  {
    if i == j {
      RunsCoupled(states, steps, i);
      IdsUnique(states[i], e, later);
    } else {
      var step := steps[j - 1];
      var earlier := WasQueued(states, steps, i, j, e, later);
      DescriptionIsFixed(states, steps, i, j - 1, e, earlier);
    }
  }

  /** The entry was queued one step earlier. */
  lemma {:induction false} WasQueued(
    states: seq<Session>, steps: seq<Step>, i: nat, j: nat, e: Pending, later: Pending) returns (earlier: Pending)
    requires IsRun(states, steps) && i < j < |states| && e in states[i].t.pending && later in states[j].t.pending
    requires e.OwedExecute? && later.OwedExecute? && e.id == later.id
    requires !HandlesRowOf(states[j - 1], steps[j - 1], e.id)
    ensures earlier in states[j - 1].t.pending && Kept(earlier, later)
  {
    RunsCoupled(states, steps, i);
    IdsUnique(states[i], e, e);
    IdsRise(states, steps, i, j - 1);
    assert Next(states[j - 1], steps[j - 1], states[j]);
    StepKeeps(states[j - 1], steps[j - 1], states[j], later);
    var a :| 0 <= a < |states[j - 1].t.pending| && Kept(states[j - 1].t.pending[a], later);
    earlier := states[j - 1].t.pending[a];
  }

  /** Handling a row of an Execute leaves the next one to be read with the positions this one was. */
  lemma {:induction false} RowKeepsPositions(s: Session, positions: Described, n: Session)
    requires Next(s, ReadPathHandles(positions), n) && s.q.down[0].DataRow? && RowSourceOf(s.t).FromPortal?
    ensures RowSourceOf(n.t) == FromPortal(positions, RowSourceOf(s.t).formats)
  {
  }
}
