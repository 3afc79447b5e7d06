/** Copy frames sent while no copy is being fed, over whole sessions. */
module StrayCopies {
  import opened Bytes
  import opened Resolution
  import opened Frames
  import opened Queue
  import QueueProofs
  import opened Mirror
  import opened History
  import opened Portals
  import opened Session

  /** No copy is being fed: the tracker is out of copy mode, or in it on behalf of no Execute, or of one
      that has been answered. */
  predicate Unfed(t: Tracked) {
    t.copyIn.Started? && t.copyIn.execute.Some? ==>
      && t.copyIn.execute.value < t.nextExecute
      && forall e | e in t.pending && e.OwedExecute? :: e.id != t.copyIn.execute.value
  }

  /** One thing that happens to the tracker. */
  datatype Event = Records(frame: Frame) | Handles(message: Message, positions: Described)

  function After(t: Tracked, events: seq<Event>): (r: Result<Tracked, Error>)
    decreases |events|
  {
    if events == [] then Ok(t)
    else
      match events[0]
      case Records(f) =>
        (match Record(t, f)
         case Ok(n) => After(n, events[1..])
         case Err(e) => Err(e))
      case Handles(m, p) => After(Apply(t, m, p), events[1..])
  }

  /** The two trackers differ at most in a copy mode that feeds nothing. */
  predicate Alike(a: Tracked, b: Tracked) {
    a.(copyIn := b.copyIn) == b && (a.copyIn == b.copyIn || (Unfed(a) && Unfed(b)))
  }

  // ---------------------------------------------------------------- one event

  /** Frames other than copy frames do not feed a copy. */
  lemma {:induction false} RecordUnfed(t: Tracked, f: Frame)
    requires Unfed(t) && Record(t, f).Ok?
    ensures Unfed(Record(t, f).value)
    ensures OpensCopyPayload(f) ==> Record(t, f).value == t.(copyIn := Record(t, f).value.copyIn)
  {
    var n := Record(t, f).value;
    if OpensCopyPayload(f) {
      if t.copyIn.Started? && t.copyIn.execute.Some? {
        UnmarkedAbsent(t.pending, t.copyIn.execute.value);
      }
    } else {
      forall e | e in n.pending && e.OwedExecute? ensures e in t.pending || e.id == t.nextExecute {
      }
    }
  }

  lemma {:induction false} AfterBatchHas(pending: seq<Pending>, e: Pending)
    requires e in AfterBatch(pending)
    ensures e in pending
  {
    if pending != [] && !pending[0].OwedBatch? {
      AfterBatchHas(pending[1..], e);
    }
  }

  /** A message leaves in the queue only Executes that were there. */
  lemma {:induction false} HandledIds(t: Tracked, m: Message, p: Described, e: Pending)
    requires e in Apply(t, m, p).pending && e.OwedExecute?
    ensures exists d :: d in t.pending && d.OwedExecute? && d.id == e.id
  {
    var n := Apply(t, m, p);
    var i :| 0 <= i < |n.pending| && n.pending[i] == e;
    if m.ReadyForQuery? {
      AfterBatchHas(t.pending, e);
    } else if |n.pending| == |t.pending| {
      assert t.pending[i] in t.pending;
    } else {
      assert t.pending[i + 1] in t.pending;
    }
  }

  lemma {:induction false} ApplyUnfed(t: Tracked, m: Message, p: Described)
    requires Unfed(t) && !m.CopyInResponse?
    ensures Unfed(Apply(t, m, p))
  {
    var n := Apply(t, m, p);
    if n.copyIn.Started? && n.copyIn.execute.Some? {
      forall e | e in n.pending && e.OwedExecute? ensures e.id != n.copyIn.execute.value {
        HandledIds(t, m, p, e);
      }
    }
  }

  lemma {:induction false} RecordAlike(a: Tracked, b: Tracked, f: Frame)
    requires Alike(a, b)
    ensures Record(a, f).Ok? <==> Record(b, f).Ok?
    ensures Record(a, f).Ok? ==> Alike(Record(a, f).value, Record(b, f).value)
    ensures Record(a, f).Err? ==> Record(a, f) == Record(b, f)
  {
    if a.copyIn != b.copyIn && Record(a, f).Ok? && Record(b, f).Ok? {
      RecordUnfed(a, f);
      RecordUnfed(b, f);
    }
  }

  lemma {:induction false} ApplyAlike(a: Tracked, b: Tracked, m: Message, p: Described)
    requires Alike(a, b)
    ensures Alike(Apply(a, m, p), Apply(b, m, p))
  {
    if a.copyIn != b.copyIn && !m.CopyInResponse? {
      ApplyUnfed(a, m, p);
      ApplyUnfed(b, m, p);
    }
  }

  // ---------------------------------------------------------------- all that follows

  /** Whatever happens next happens alike to both trackers. */
  lemma {:induction false} StayAlike(a: Tracked, b: Tracked, events: seq<Event>)
    requires Alike(a, b)
    ensures After(a, events).Ok? <==> After(b, events).Ok?
    ensures After(a, events).Ok? ==> Alike(After(a, events).value, After(b, events).value)
    ensures After(a, events).Err? ==> After(a, events) == After(b, events)
    decreases |events|
  {
    if events != [] {
      match events[0]
      case Records(f) =>
        RecordAlike(a, b, f);
        if Record(a, f).Ok? {
          StayAlike(Record(a, f).value, Record(b, f).value, events[1..]);
        }
      case Handles(m, p) =>
        ApplyAlike(a, b, m, p);
        StayAlike(Apply(a, m, p), Apply(b, m, p), events[1..]);
    }
  }

  /** Any sequence of copy frames sent while no copy is being fed leaves the tracker alike. */
  lemma {:induction false} StraysLeaveAlike(t: Tracked, strays: seq<Event>)
    requires Unfed(t) && forall i | 0 <= i < |strays| :: strays[i].Records? && OpensCopyPayload(strays[i].frame)
    ensures After(t, strays).Ok? && Alike(t, After(t, strays).value) && Unfed(After(t, strays).value)
    decreases |strays|
  {
    if strays != [] {
      var f := strays[0].frame;
      RecordUnfed(t, f);
      StraysLeaveAlike(Record(t, f).value, strays[1..]);
    }
  }

  // ---------------------------------------------------------------- sessions

  /** In every state of every session, and for every sequence of copy frames sent while no copy is being
      fed: the statements, the portals and the queue stay as they are, and after any further
      frames and messages the next row is attributed as it would have been without them. */
  lemma {:induction false} StrayCopyFrames(
      states: seq<Session>, steps: seq<Step>, i: nat, strays: seq<Event>, later: seq<Event>)
    requires IsRun(states, steps) && i < |states| && FeedsNone(states[i].q)
    requires forall j | 0 <= j < |strays| :: strays[j].Records? && OpensCopyPayload(strays[j].frame)
    ensures After(states[i].t, strays).Ok?
    ensures var t, n := states[i].t, After(states[i].t, strays).value;
            && n.statements == t.statements && n.portals == t.portals && n.pending == t.pending
            && (After(n, later).Ok? <==> After(t, later).Ok?)
            && (After(t, later).Ok? ==>
                  && RowSourceOf(After(n, later).value) == RowSourceOf(After(t, later).value)
                  && After(n, later).value.pending == After(t, later).value.pending)
  {
    RunsCoupled(states, steps, i);
    FeedsNoneUnfed(states[i]);
    StraysLeaveAlike(states[i].t, strays);
    StayAlike(states[i].t, After(states[i].t, strays).value, later);
  }

  /** No copy is being fed, as the queue sees it. */
  predicate FeedsNone(q: Queue) {
    q.copy.Copying? && q.copy.execute.Some? ==> q.copy.execute.value !in q.tags
  }

  lemma {:induction false} FeedsNoneUnfed(s: Session)
    requires Coupled(s)
    ensures Unfed(s.t) <==> FeedsNone(s.q)
  {
    if s.q.copy.Copying? && s.q.copy.execute.Some? {
      var x := s.q.copy.execute.value;
      EntriesExecutes(s.q.log, s.q.tags, s.t.pending, x);
      ParseCountMonotone(s.q.log, x, |s.q.log|);
      if x in s.q.tags {
        var i :| 0 <= i < |s.q.tags| && s.q.tags[i] == x;
        assert s.t.pending[i] in s.t.pending;
      } else {
        forall e | e in s.t.pending && e.OwedExecute? ensures e.id != ExecuteCount(s.q.log, x) {
          var i :| 0 <= i < |s.t.pending| && s.t.pending[i] == e;
          assert s.q.tags[i] in s.q.tags;
        }
      }
    }
  }

  /** The step ends the copy the client was feeding: it sends CopyDone or CopyFail, or the copying Execute
      is answered, or a ReadyForQuery is handled. */
  predicate EndsCopy(s: Session, step: Step) {
    || (step.ClientSends? && !s.awaiting && !step.refused && (step.frame.CopyDone? || step.frame.CopyFail?))
    || (step.ReadPathHandles? && s.q.down != []
        && (|| s.q.down[0].ReadyForQuery?
            || ((s.q.down[0].Complete? || s.q.down[0].ErrorResponse?)
                && s.q.tags != [] && s.q.copy == Copying(Some(s.q.tags[0])))))
  }

  predicate StartsCopyIn(s: Session, step: Step) {
    step.ReadPathHandles? && s.q.down != [] && s.q.down[0].CopyInResponse?
  }

  lemma {:induction false} SendFeedsNone(s: Session, f: Frame, refused: bool, n: Session)
    requires Coupled(s) && Next(s, ClientSends(f, refused), n)
    requires FeedsNone(s.q) || EndsCopy(s, ClientSends(f, refused))
    ensures FeedsNone(n.q)
  {
    if OpensCopyPayload(f) && !s.awaiting && s.q.copy.Copying? && s.q.copy.execute.Some? {
      EntriesRecorded(s.q.log, s.q.tags, s.t.pending);
      DropBehindHas(s.q.log, s.q.tags, s.q.copy.execute.value, s.q.copy.execute.value);
    }
  }

  lemma {:induction false} HandleFeedsNone(s: Session, positions: Described, n: Session)
    requires Coupled(s) && Next(s, ReadPathHandles(positions), n) && !StartsCopyIn(s, ReadPathHandles(positions))
    requires FeedsNone(s.q) || EndsCopy(s, ReadPathHandles(positions))
    ensures FeedsNone(n.q)
  {
    var i := QueueProofs.HandleTagsIsSuffix(s.q.log, s.q.tags, s.q.down[0]);
    if s.q.tags != [] && s.q.copy == Copying(Some(s.q.tags[0])) && i > 0 {
      QueueProofs.SuffixHas(s.q.tags, i, s.q.tags[0]);
    }
  }

  lemma {:induction false} StepFeedsNone(s: Session, step: Step, n: Session)
    requires Coupled(s) && Next(s, step, n) && !StartsCopyIn(s, step)
    requires FeedsNone(s.q) || EndsCopy(s, step)
    ensures FeedsNone(n.q)
  {
    match step
    case ClientSends(f, refused) => SendFeedsNone(s, f, refused, n);
    case BackendConsumes(_) =>
    case BackendAborts =>
    case ReadPathHandles(p) => HandleFeedsNone(s, p, n);
  }

  lemma {:induction false} RunStepFeedsNone(states: seq<Session>, steps: seq<Step>, i: nat)
    requires IsRun(states, steps) && i < |steps| && !StartsCopyIn(states[i], steps[i])
    requires FeedsNone(states[i].q) || EndsCopy(states[i], steps[i])
    ensures FeedsNone(states[i + 1].q)
  {
    RunsCoupled(states, steps, i);
    assert Next(states[i], steps[i], states[i + 1]);
    StepFeedsNone(states[i], steps[i], states[i + 1]);
  }

  /** In every session: once the client has sent CopyDone or CopyFail, or the copying Execute has been
      answered, or a ReadyForQuery has been handled, no copy is fed in any later state until a
      CopyInResponse is handled. */
  lemma {:induction false} CopyEnds(states: seq<Session>, steps: seq<Step>, i: nat, j: nat)
    requires IsRun(states, steps) && i < j < |states|
    requires FeedsNone(states[i].q) || EndsCopy(states[i], steps[i])
    requires forall k {:trigger steps[k]} | i <= k < j :: !StartsCopyIn(states[k], steps[k])
    ensures FeedsNone(states[j].q)
    decreases j
  {
    var step := steps[j - 1];
    if i < j - 1 {
      CopyEnds(states, steps, i, j - 1);
    }
    RunStepFeedsNone(states, steps, j - 1);
  }
}
