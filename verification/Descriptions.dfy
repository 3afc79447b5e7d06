/** Which description the tracker holds for which Execute, over every session whose messages are
    handled in clear states. */
module Descriptions {
  import opened Bytes
  import opened Resolution
  import opened Frames
  import opened Backend
  import opened Queue
  import opened Mirror
  import opened History
  import opened Portals
  import opened Session

  type Answers = set<(nat, Described)>

  /** The Describe at `r` asks about incarnation `x`. */
  predicate AsksAbout(log: Log, r: nat, x: nat) {
    DescribeAt(log, r) && DescribeTarget(log, r) == Some(x)
  }

  /** A Describe of incarnation `x` has been answered. */
  predicate Known(answers: Answers, log: Log, x: nat) {
    exists a :: a in answers && AsksAbout(log, a.0, x)
  }

  /** `p` is the answer to a Describe of incarnation `x`, or was re-derived from one. */
  predicate DerivedFrom(answers: Answers, log: Log, x: nat, p: Described) {
    exists a :: a in answers && AsksAbout(log, a.0, x) && Covers(p, a.1)
  }

  /** Positions are present exactly when the incarnation has been described, and come from there. */
  predicate PositionsAgree(answers: Answers, log: Log, x: Option<nat>, positions: Option<Described>) {
    match positions
    case None => x.Some? ==> !Known(answers, log, x.value)
    case Some(p) => x.Some? && DerivedFrom(answers, log, x.value, p)
  }

  predicate EntryDescribed(answers: Answers, log: Log, i: nat, e: Pending) {
    ExecuteAt(log, i) && e.OwedExecute? ==>
      PositionsAgree(answers, log, ExecuteTarget(log, i), e.positions)
  }

  ghost predicate EntriesDescribed(answers: Answers, log: Log, tags: Tags, pending: seq<Pending>) {
    |tags| == |pending| && forall i | 0 <= i < |tags| :: EntryDescribed(answers, log, tags[i], pending[i])
  }

  predicate StatementDescribed(answers: Answers, log: Log, t: Tracked, n: bytes) {
    n in t.statements ==> PositionsAgree(answers, log, StatementAt(log, |log|, n), t.statements[n].described)
  }

  predicate RememberedAgrees(s: Session) {
    match s.q.reader.desc
    case None => s.described == None
    case Some(r) => s.described.Some? && (r, s.described.value) in s.answers
  }

  /** The real queue mirrors the ideal one, and every description held by the tracker is the answer to
      a Describe of the incarnation it is held for. */
  ghost predicate Informed(s: Session) {
    && Mirrors(s.q)
    && (forall a | a in s.answers :: a.0 < |s.q.log|)
    && EntriesDescribed(s.answers, s.q.log, s.q.tags, s.t.pending)
    && (forall n :: StatementDescribed(s.answers, s.q.log, s.t, n))
    && RememberedAgrees(s)
  }

  // ---------------------------------------------------------------- positions

  lemma {:induction false} PositionsGrow(
      answers: Answers, log: Log, f: Frame, x: Option<nat>, positions: Option<Described>)
    requires forall a | a in answers :: a.0 < |log|
    requires PositionsAgree(answers, log, x, positions)
    ensures PositionsAgree(answers, log + [f], x, positions)
  {
    if x.Some? {
      forall a | a in answers
        ensures AsksAbout(log + [f], a.0, x.value) == AsksAbout(log, a.0, x.value)
      {
        if DescribeAt(log, a.0) {
          PastDescribe(log, f, a.0);
        }
      }
    }
  }

  /** Another incarnation's answer changes nothing. */
  lemma {:induction false} PositionsKeep(
      answers: Answers, log: Log, a: (nat, Described), x: Option<nat>, positions: Option<Described>)
    requires PositionsAgree(answers, log, x, positions)
    requires x.Some? && positions.None? ==> !AsksAbout(log, a.0, x.value)
    ensures PositionsAgree(answers + {a}, log, x, positions)
  {
    if positions.Some? {
      var b :| b in answers && AsksAbout(log, b.0, x.value) && Covers(positions.value, b.1);
      assert b in answers + {a};
    }
  }

  lemma {:induction false} PositionsFill(answers: Answers, log: Log, a: (nat, Described), x: nat)
    requires AsksAbout(log, a.0, x)
    ensures PositionsAgree(answers + {a}, log, Some(x), Some(a.1))
  {
    assert a in answers + {a} && Covers(a.1, a.1);
  }

  lemma {:induction false} SameIncarnation(log: Log, x: nat, y: nat)
    requires x < |log| && y < |log| && log[x].Parse? && log[y].Parse?
    ensures x == y <==> ParseCount(log, x) == ParseCount(log, y)
  {
    if x < y {
      ParseCountMonotone(log, x, y);
    } else {
      ParseCountMonotone(log, y, x);
    }
  }

  /** Back-filling by id reaches exactly the Executes of the incarnation that was described. */
  lemma {:induction false} FillEntry(answers: Answers, log: Log, a: (nat, Described), i: nat, e: Pending, x: nat)
    requires AsksAbout(log, a.0, x) && x < |log| && log[x].Parse?
    requires EntryAgrees(log, i, e) && EntryDescribed(answers, log, i, e)
    ensures EntryDescribed(answers + {a}, log, i, Filled(e, ParseCount(log, x), a.1))
  {
    if log[i].Execute? {
      var y := ExecuteTarget(log, i);
      if y.Some? {
        SameIncarnation(log, x, y.value);
      }
      if y == Some(x) && e.positions.None? {
        PositionsFill(answers, log, a, x);
      } else {
        PositionsKeep(answers, log, a, y, e.positions);
      }
    }
  }

  lemma {:induction false} FillStatement(
      answers: Answers, log: Log, a: (nat, Described), t: Tracked, n: bytes, x: nat)
    requires AsksAbout(log, a.0, x) && x < |log| && log[x].Parse?
    requires StatementAgrees(t, log, n) && StatementDescribed(answers, log, t, n)
    ensures var ref := StatementRef(log[x].statement, ParseCount(log, x));
            StatementDescribed(answers + {a}, log, t.(statements := Redescribed(t.statements, ref, a.1)), n)
  {
    var y := StatementAt(log, |log|, n);
    if y.Some? {
      SameIncarnation(log, x, y.value);
      if y == Some(x) {
        PositionsFill(answers, log, a, x);
      } else {
        PositionsKeep(answers, log, a, y, t.statements[n].described);
      }
    }
  }

  // ---------------------------------------------------------------- a frame recorded

  lemma {:induction false} RecordStatements(answers: Answers, t: Tracked, log: Log, f: Frame, n: bytes)
    requires forall a | a in answers :: a.0 < |log|
    requires StatementAgrees(t, log, n) && StatementDescribed(answers, log, t, n) && Record(t, f).Ok?
    ensures StatementDescribed(answers, log + [f], Record(t, f).value, n)
  {
    var log', t' := log + [f], Record(t, f).value;
    PastNames(log, f, |log|, n);
    assert log'[|log|] == f;
    if f.Parse? && f.statement == n {
      NothingKnown(answers, log, f);
    } else if n in t.statements {
      PositionsGrow(answers, log, f, StatementAt(log, |log|, n), t.statements[n].described);
    }
  }

  /** Nothing recorded before a Parse asked about the incarnation it creates. */
  lemma {:induction false} NothingKnown(answers: Answers, log: Log, f: Frame)
    requires forall a | a in answers :: a.0 < |log|
    ensures !Known(answers, log + [f], |log|)
  {
  }

  lemma {:induction false} EntriesDescribedGrow(
      answers: Answers, log: Log, f: Frame, tags: Tags, pending: seq<Pending>)
    requires forall a | a in answers :: a.0 < |log|
    requires EntriesAgree(log, tags, pending) && EntriesDescribed(answers, log, tags, pending)
    ensures EntriesDescribed(answers, log + [f], tags, pending)
  {
    forall i | 0 <= i < |tags| ensures EntryDescribed(answers, log + [f], tags[i], pending[i]) {
      assert EntryAgrees(log, tags[i], pending[i]) && EntryDescribed(answers, log, tags[i], pending[i]);
      if ExecuteAt(log, tags[i]) {
        PastExecute(log, f, tags[i]);
        PositionsGrow(answers, log, f, ExecuteTarget(log, tags[i]), pending[i].positions);
      }
    }
  }

  lemma {:induction false} PayloadDescribed(answers: Answers, t: Tracked, q: Queue, more: bool)
    requires EntriesAgree(q.log, q.tags, t.pending) && CopyAgrees(t, q.log, q.copy)
    requires EntriesDescribed(answers, q.log, q.tags, t.pending)
    ensures EntriesDescribed(answers, q.log, PayloadTags(q), CopyFrame(t, more).pending)
  {
    if q.copy.Copying? && q.copy.execute.Some? {
      var e := q.copy.execute.value;
      EntriesKinds(q.log, q.tags, t.pending);
      EntriesExecutes(q.log, q.tags, t.pending, e);
      var i, n := DropsParallel(q.log, q.tags, t.pending, e, ExecuteCount(q.log, e));
      DescribedCut(answers, q.log, q.tags, t.pending, i, n);
    }
  }

  lemma {:induction false} DescribedCut(
      answers: Answers, log: Log, tags: Tags, pending: seq<Pending>, i: nat, n: nat)
    requires EntriesDescribed(answers, log, tags, pending) && i + n <= |tags|
    ensures EntriesDescribed(answers, log, Cut(tags, i, n), Cut(pending, i, n))
  {
    var tags', pending' := Cut(tags, i, n), Cut(pending, i, n);
    forall j | 0 <= j < |tags'| ensures EntryDescribed(answers, log, tags'[j], pending'[j]) {
      var at := if j < i then j else j + n;
      assert tags'[j] == tags[at] && pending'[j] == pending[at];
    }
  }

  lemma {:induction false} NewEntryDescribed(s: Session, f: Frame, e: Pending)
    requires Coupled(s) && Informed(s) && IsTracked(f) && Record(s.t, f).Ok?
    requires f.Execute? ==> e == ExecuteEntry(s.t, f.portal)
    ensures EntryDescribed(s.answers, s.q.log + [f], |s.q.log|, e)
  {
    if f.Execute? {
      NewExecute(s.t, s.q.log, f.portal);
      var x := ExecuteTarget(s.q.log + [f], |s.q.log|);
      if x.Some? {
        assert StatementDescribed(s.answers, s.q.log, s.t, s.q.log[x.value].statement);
        PositionsGrow(s.answers, s.q.log, f, x, e.positions);
      }
    }
  }

  lemma {:induction false} DescribedAppend(
      answers: Answers, log: Log, tags: Tags, pending: seq<Pending>, i: nat, e: Pending)
    requires EntriesDescribed(answers, log, tags, pending) && EntryDescribed(answers, log, i, e)
    ensures EntriesDescribed(answers, log, tags + [i], pending + [e])
  {
  }

  lemma {:induction false} RecordDescribed(s: Session, f: Frame)
    requires Coupled(s) && Informed(s) && Record(s.t, f).Ok?
    ensures EntriesDescribed(s.answers, Send(s.q, f).log, Send(s.q, f).tags, Record(s.t, f).value.pending)
  {
    var log, tags, pending := s.q.log, s.q.tags, s.t.pending;
    EntriesDescribedGrow(s.answers, log, f, tags, pending);
    if IsTracked(f) {
      var e := RecordTracked(s.t, log, f);
      NewEntryDescribed(s, f, e);
      DescribedAppend(s.answers, log + [f], tags, pending, |log|, e);
    } else if OpensCopyPayload(f) {
      PayloadEntries(s.t, s.q, f.CopyData?);
      PayloadDescribed(s.answers, s.t, s.q, f.CopyData?);
      EntriesDescribedGrow(s.answers, log, f, PayloadTags(s.q), CopyFrame(s.t, f.CopyData?).pending);
    }
  }

  lemma {:induction false} RecordInformed(s: Session, f: Frame, n: Session)
    requires Coupled(s) && Informed(s) && Records(s, f, n)
    ensures Informed(n)
  {
    if OpensCopyPayload(f) {
      PayloadKeepsMirror(s.q, f);
    } else {
      SendKeepsMirror(s.q, f);
    }
    RecordDescribed(s, f);
    forall name ensures StatementDescribed(n.answers, n.q.log, n.t, name) {
      assert StatementAgrees(s.t, s.q.log, name) && StatementDescribed(s.answers, s.q.log, s.t, name);
      RecordStatements(s.answers, s.t, s.q.log, f, name);
    }
  }

  lemma {:induction false} SendInformed(s: Session, f: Frame, refused: bool, n: Session)
    requires Coupled(s) && Informed(s) && Next(s, ClientSends(f, refused), n)
    ensures Informed(n)
  {
    if !s.awaiting {
      if !refused {
        RecordInformed(s, f, n);
      } else if f.Bind? {
        RecordInformed(s, RefusedBind(f.portal, f.statement, f.formats), n.(awaiting := false));
      }
    }
  }

  // ---------------------------------------------------------------- a message handled

  lemma {:induction false} FillAll(
      answers: Answers, log: Log, tags: Tags, pending: seq<Pending>, a: (nat, Described), x: nat)
    requires EntriesAgree(log, tags, pending) && EntriesDescribed(answers, log, tags, pending)
    requires AsksAbout(log, a.0, x) && x < |log| && log[x].Parse?
    ensures EntriesDescribed(answers + {a}, log, tags, BackFilled(pending, ParseCount(log, x), a.1))
  {
    var filled := BackFilled(pending, ParseCount(log, x), a.1);
    forall i | 0 <= i < |tags| ensures EntryDescribed(answers + {a}, log, tags[i], filled[i]) {
      FillEntry(answers, log, a, tags[i], pending[i], x);
    }
  }

  /** An answer that describes no incarnation changes nothing. */
  lemma {:induction false} KeepAll(
      answers: Answers, log: Log, t: Tracked, tags: Tags, pending: seq<Pending>, a: (nat, Described))
    requires EntriesDescribed(answers, log, tags, pending)
    requires forall n :: StatementDescribed(answers, log, t, n)
    requires DescribeAt(log, a.0) ==> DescribeTarget(log, a.0).None?
    ensures EntriesDescribed(answers + {a}, log, tags, pending)
    ensures forall n :: StatementDescribed(answers + {a}, log, t, n)
  {
    forall i | 0 <= i < |tags| ensures EntryDescribed(answers + {a}, log, tags[i], pending[i]) {
      assert EntryDescribed(answers, log, tags[i], pending[i]);
      if ExecuteAt(log, tags[i]) && pending[i].OwedExecute? {
        PositionsKeep(answers, log, a, ExecuteTarget(log, tags[i]), pending[i].positions);
      }
    }
    forall n ensures StatementDescribed(answers + {a}, log, t, n) {
      assert StatementDescribed(answers, log, t, n);
      if n in t.statements {
        PositionsKeep(answers, log, a, StatementAt(log, |log|, n), t.statements[n].described);
      }
    }
  }

  /** A Describe is answered: the entry it finds at the front is its own, and every queued Execute and
      every live statement of the incarnation it asked about is described, and no other. */
  lemma {:induction false} AnswerDescribed(
      answers: Answers, log: Log, t: Tracked, tags: Tags, a: (nat, Described))
    requires NamesAgree(t, log) && EntriesAgree(log, tags, t.pending)
    requires EntriesDescribed(answers, log, tags, t.pending)
    requires forall n :: StatementDescribed(answers, log, t, n)
    requires tags != [] && tags[0] == a.0 && DescribeAt(log, a.0)
    ensures var t' := DescribeAnswered(t, a.1);
            && EntriesDescribed(answers + {a}, log, tags[1..], t'.pending)
            && (forall n :: StatementDescribed(answers + {a}, log, t', n))
  {
    assert EntryAgrees(log, tags[0], t.pending[0]);
    var x := DescribeTarget(log, a.0);
    if x.Some? {
      EntriesSettled(log, tags, t.pending, 1, t.pending[1..]);
      FillAll(answers, log, tags[1..], t.pending[1..], a, x.value);
      FillStatements(answers, log, t, a, x.value);
    } else {
      KeepAll(answers, log, t, tags[1..], t.pending[1..], a);
      SameStatements(answers + {a}, log, t, DescribeAnswered(t, a.1));
    }
  }

  lemma {:induction false} FillStatements(answers: Answers, log: Log, t: Tracked, a: (nat, Described), x: nat)
    requires NamesAgree(t, log) && (forall n :: StatementDescribed(answers, log, t, n))
    requires AsksAbout(log, a.0, x) && x < |log| && log[x].Parse?
    requires t.pending != [] && t.pending[0] == OwedDescribe(Some(StatementRef(log[x].statement, ParseCount(log, x))))
    ensures forall n :: StatementDescribed(answers + {a}, log, DescribeAnswered(t, a.1), n)
  {
    var ref := StatementRef(log[x].statement, ParseCount(log, x));
    var filled := t.(statements := Redescribed(t.statements, ref, a.1));
    forall n ensures StatementDescribed(answers + {a}, log, filled, n) {
      assert StatementAgrees(t, log, n) && StatementDescribed(answers, log, t, n);
      FillStatement(answers, log, a, t, n, x);
    }
    SameStatements(answers + {a}, log, filled, DescribeAnswered(t, a.1));
  }

  lemma {:induction false} SameStatements(answers: Answers, log: Log, t: Tracked, t': Tracked)
    requires t'.statements == t.statements && forall n :: StatementDescribed(answers, log, t, n)
    ensures forall n :: StatementDescribed(answers, log, t', n)
  {
    forall n ensures StatementDescribed(answers, log, t', n) {
      assert StatementDescribed(answers, log, t, n);
    }
  }

  /** The tracker after a message that describes nothing, with `i` entries settled. */
  lemma {:induction false} PopInformed(s: Session, n: Session, i: nat)
    requires Informed(s) && Mirrors(n.q) && n.q.log == s.q.log
    requires i <= |s.q.tags| && n.q.tags == s.q.tags[i..]
    requires n.t == s.t.(pending := s.t.pending[i..], copyIn := n.t.copyIn)
    requires n.answers == s.answers && RememberedAgrees(n)
    ensures Informed(n)
  {
    forall name ensures StatementDescribed(n.answers, n.q.log, n.t, name) {
      assert StatementDescribed(s.answers, s.q.log, s.t, name);
    }
  }

  lemma {:induction false} HandleSettles(s: Session, n: Session)
    requires Coupled(s) && Informed(s) && Mirrors(n.q) && s.q.down != []
    requires s.q.down[0].Complete? || s.q.down[0].ErrorResponse? || s.q.down[0].ReadyForQuery?
             || s.q.down[0].CopyInResponse?
    requires Next(s, ReadPathHandles(NoRows), n)
    ensures Informed(n)
  {
    if s.q.tags != [] {
      assert EntryAgrees(s.q.log, s.q.tags[0], s.t.pending[0]);
    }
    if s.q.down[0].ReadyForQuery? {
      EntriesKinds(s.q.log, s.q.tags, s.t.pending);
      var i := MarkersParallel(s.q.log, s.q.tags, s.t.pending);
      PopInformed(s, n, i);
    } else {
      var i := if n.q.tags == s.q.tags then 0 else 1;
      assert s.q.tags[0..] == s.q.tags && s.t.pending[0..] == s.t.pending;
      PopInformed(s, n, i);
    }
  }

  lemma {:induction false} HandleQueryDescription(s: Session, positions: Described, n: Session)
    requires Coupled(s) && Informed(s) && Mirrors(n.q) && s.q.down != [] && s.q.down[0].RowDescription?
    requires Expected(s.q.log, s.q.tags, s.q.reader, s.q.down[0])
    requires QueryAt(s.q.log, s.q.down[0].origin) && Next(s, ReadPathHandles(positions), n)
    ensures Informed(n)
  {
    assert EntryAgrees(s.q.log, s.q.tags[0], s.t.pending[0]);
    KeepAll(s.answers, s.q.log, s.t, s.q.tags, s.t.pending, (s.q.down[0].origin, positions));
  }

  lemma {:induction false} HandleDescribed(s: Session, positions: Described, n: Session, a: (nat, Described))
    requires Coupled(s) && Informed(s) && Mirrors(n.q)
    requires s.q.down != [] && (s.q.down[0].RowDescription? || s.q.down[0].NoData?)
    requires a == (s.q.down[0].origin, if s.q.down[0].RowDescription? then positions else NoRows)
    requires Expected(s.q.log, s.q.tags, s.q.reader, s.q.down[0])
    requires DescribeAt(s.q.log, a.0) && Next(s, ReadPathHandles(positions), n)
    ensures Informed(n)
  {
    AnswerDescribed(s.answers, s.q.log, s.t, s.q.tags, a);
  }

  lemma {:induction false} HandleRow(s: Session, positions: Described, n: Session)
    requires Coupled(s) && Informed(s) && Mirrors(n.q) && s.q.down != [] && s.q.down[0].DataRow?
    requires Next(s, ReadPathHandles(positions), n)
    ensures Informed(n)
  {
    forall name ensures StatementDescribed(s.answers, s.q.log, n.t, name) {
      assert StatementDescribed(s.answers, s.q.log, s.t, name);
    }
    forall i | 0 <= i < |n.q.tags| ensures EntryDescribed(n.answers, n.q.log, n.q.tags[i], n.t.pending[i]) {
      assert EntryDescribed(s.answers, s.q.log, s.q.tags[i], s.t.pending[i]);
    }
  }

  /** A message handled in a clear state keeps every description where it belongs. */
  lemma {:induction false} HandleInformed(s: Session, positions: Described, n: Session)
    requires Coupled(s) && Informed(s) && Next(s, ReadPathHandles(positions), n) && Clear(s.q)
    ensures Informed(n)
  {
    HandleKeepsMirror(s.q);
    FindsExpectation(s.q);
    var m := s.q.down[0];
    if m.RowDescription? || m.NoData? {
      if QueryAt(s.q.log, m.origin) {
        HandleQueryDescription(s, positions, n);
      } else {
        HandleDescribed(s, positions, n, (m.origin, if m.RowDescription? then positions else NoRows));
      }
    } else if m.DataRow? {
      HandleRow(s, positions, n);
    } else {
      HandleSettles(s, n);
    }
  }

  // ---------------------------------------------------------------- whole runs

  lemma {:induction false} StepInformed(s: Session, step: Step, n: Session)
    requires Coupled(s) && Informed(s) && Next(s, step, n)
    requires step.ReadPathHandles? ==> Clear(s.q)
    ensures Informed(n)
  {
    match step
    case ClientSends(f, refused) => SendInformed(s, f, refused, n);
    case BackendConsumes(c) => ConsumeKeepsMirror(s.q, c);
    case BackendAborts =>
      forall x: nat | Live(n.q, x) ensures AgreeOn(n.q, x) {
        assert Live(s.q, x) && AgreeOn(s.q, x);
      }
    case ReadPathHandles(p) => HandleInformed(s, p, n);
  }

  /** Every state of a run is informed, up to the first message handled in a state that is not clear. */
  lemma {:induction false} RunsInformed(states: seq<Session>, steps: seq<Step>, i: nat)
    requires IsRun(states, steps) && i < |states| && ClearUntil(states, steps, i)
    ensures Informed(states[i])
  {
    if i == 0 {
      assert forall n :: StatementDescribed({}, [], Fresh, n);
    } else {
      RunsInformed(states, steps, i - 1);
      RunsCoupled(states, steps, i - 1);
      assert Next(states[i - 1], steps[i - 1], states[i]);
      StepInformed(states[i - 1], steps[i - 1], states[i]);
    }
  }
}
