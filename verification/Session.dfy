/** One proxied session: the tracker shared by the two relay directions, beside the client, the
    backend and the read path, over every interleaving of their steps. The client may send any frame
    at any time; the backend may answer, fail, start or abort a copy at any time; the write path may
    refuse any Query, Parse or Bind. */
module Session {
  import opened Bytes
  import opened Resolution
  import opened Frames
  import opened Backend
  import opened Queue
  import opened QueueProofs
  import opened History
  import opened Portals

  /** `described` is the read path's memory of the last RowDescription. `awaiting`: the write path has
      refused a frame and discards everything up to the client's next Sync. `answers` is the
      history of descriptions handled so far, each with the frame it answered. */
  datatype Session = Session(
    t: Tracked, described: Option<Described>, awaiting: bool, q: Queue, answers: set<(nat, Described)>)

  datatype Step =
    | ClientSends(frame: Frame, refused: bool)
    | BackendConsumes(choice: Choice)
    | BackendAborts
    | ReadPathHandles(positions: Described)

  const Start: Session := Session(Fresh, None, false, Empty, {})

  /** What the write path records for a frame before it forwards or refuses it. */
  function Record(t: Tracked, f: Frame): (r: Result<Tracked, Error>) {
    match f
    case Parse(statement, params) => Parsed(t, statement, params)
    case Bind(portal, statement, formats) => Bound(t, portal, statement, formats)
    case RefusedBind(portal, statement, formats) => Bound(t, portal, statement, formats)
    case Describe(target, name) => DescribeExpected(t, target, name)
    case Execute(portal) => ExecuteExpected(t, portal)
    case Close(StatementTarget, name) => Ok(StatementClosed(t, name))
    case Close(PortalTarget, name) => Ok(PortalClosed(t, name))
    case Flush => Ok(t)
    case CopyData => Ok(CopyFrame(t, true))
    case CopyDone => Ok(CopyFrame(t, false))
    case CopyFail => Ok(CopyFrame(t, false))
    case _ => Pushed(t, OwedBatch)
  }

  /** What the read path does to the tracker for a message. `positions` is the description built from
      a RowDescription, or the one a DataRow's cached description is re-derived into. */
  function Apply(t: Tracked, m: Message, positions: Described): (r: Tracked) {
    match m
    case RowDescription(_, _) => DescribeAnswered(t, positions)
    case NoData(_) => DescribeAnswered(t, NoRows)
    case DataRow(_) => Rederived(t, positions)
    case Complete(_) => ExecuteAnswered(t)
    case ErrorResponse(_) => ExecuteAnswered(t)
    case ReadyForQuery(_) => BatchAnswered(t)
    case CopyInResponse(_) => CopyInStarted(t)
  }

  function Remembered(s: Session, m: Message, positions: Described): (r: Option<Described>) {
    match m
    case RowDescription(_, _) => Some(positions)
    case DataRow(_) => s.described
    case CopyInResponse(_) => s.described
    case _ => None
  }

  function Answered(s: Session, m: Message, positions: Described): (r: set<(nat, Described)>) {
    match m
    case RowDescription(origin, _) => s.answers + {(origin, positions)}
    case NoData(origin) => s.answers + {(origin, NoRows)}
    case _ => s.answers
  }

  /** A description is built from the fields of its RowDescription; a row keeps the description it
      has, or one that covers it. */
  predicate MayDescribe(t: Tracked, m: Message, positions: Described) {
    && (m.RowDescription? ==> positions.fields == m.fields)
    && (m.DataRow? && RowSourceOf(t).FromPortal? ==> Covers(positions, RowSourceOf(t).positions))
  }

  /** The write path takes a frame from the client. A refused Query or Parse leaves no trace; a refused
      Bind has been recorded by the time it is refused. Refusing a Parse or a Bind, the write path
      discards what follows up to the next Sync, which it answers itself. */
  predicate Sends(s: Session, f: Frame, refused: bool, n: Session) {
    if f.RefusedBind? then false
    else if s.awaiting then n == s.(awaiting := !f.Sync?)
    else if refused then
      match f
      case Query => n == s
      case Parse(_, _) => n == s.(awaiting := true)
      case Bind(portal, statement, formats) =>
        && Records(s, RefusedBind(portal, statement, formats), n.(awaiting := false))
        && n.awaiting
      case _ => false
    else Records(s, f, n)
  }

  predicate Records(s: Session, f: Frame, n: Session) {
    Record(s.t, f).Ok? && n == s.(t := Record(s.t, f).value, q := Send(s.q, f))
  }

  predicate Next(s: Session, step: Step, n: Session) {
    match step
    case ClientSends(f, refused) => Sends(s, f, refused, n)
    case BackendConsumes(c) =>
      && s.q.consumed < |s.q.log| && MayChoose(s.q.log, s.q.consumed, s.q.mode, c)
      && n == s.(q := Consume(s.q, c))
    case BackendAborts => s.q.mode.CopyIn? && n == s.(q := Abort(s.q))
    case ReadPathHandles(positions) =>
      && s.q.down != [] && MayDescribe(s.t, s.q.down[0], positions)
      && n == s.(t := Apply(s.t, s.q.down[0], positions),
                 described := Remembered(s, s.q.down[0], positions),
                 q := Handle(s.q),
                 answers := Answered(s, s.q.down[0], positions))
  }

  /** A run from the start of a session: `states[i]` steps to `states[i + 1]` by `steps[i]`. */
  predicate IsRun(states: seq<Session>, steps: seq<Step>) {
    && |states| == |steps| + 1 && states[0] == Start
    && forall i {:trigger steps[i]} | 0 <= i < |steps| :: Next(states[i], steps[i], states[i + 1])
  }

  /** Every message handled before state `i` was handled in a clear state. */
  predicate ClearUntil(states: seq<Session>, steps: seq<Step>, i: nat)
    requires i <= |steps| < |states|
  {
    forall j | 0 <= j < i :: steps[j].ReadPathHandles? && states[j].q.down != [] ==> Clear(states[j].q)
  }

  // ---------------------------------------------------------------- the tracker against the history

  predicate StatementAgrees(t: Tracked, log: Log, n: bytes) {
    var at := StatementAt(log, |log|, n);
    && (n in t.statements <==> at.Some?)
    && (at.Some? ==>
          t.statements[n].id == ParseCount(log, at.value) && t.statements[n].params == log[at.value].params)
  }

  predicate PortalAgrees(t: Tracked, log: Log, n: bytes) {
    var at := PortalAt(log, |log|, n);
    && (n in t.portals <==> at.Some?)
    && (at.Some? ==> t.portals[n] == Portal(log[at.value].statement, log[at.value].formats))
  }

  ghost predicate NamesAgree(t: Tracked, log: Log) {
    && t.nextStatement == ParseCount(log, |log|) && t.nextExecute == ExecuteCount(log, |log|)
    && (forall n :: StatementAgrees(t, log, n))
    && (forall n :: PortalAgrees(t, log, n))
  }

  /** The queue entry records what the frame at `i` asked for, in the sense of the history. */
  predicate EntryAgrees(log: Log, i: nat, e: Pending) {
    && i < |log|
    && match log[i]
       case Describe(_, _) =>
         && e.OwedDescribe?
         && var x := DescribeTarget(log, i);
         && e.statement
            == if x.None? then None else Some(StatementRef(log[x.value].statement, ParseCount(log, x.value)))
       case Execute(_) =>
         && e.OwedExecute? && e.id == ExecuteCount(log, i) && e.formats == ExecuteFormats(log, i)
         && var x := ExecuteTarget(log, i);
         && e.incarnation == if x.None? then None else Some(ParseCount(log, x.value))
       case _ => IsBoundary(log[i]) && e.OwedBatch?
  }

  ghost predicate EntriesAgree(log: Log, tags: Tags, pending: seq<Pending>) {
    && |pending| == |tags|
    && (forall i | 0 <= i < |tags| :: EntryAgrees(log, tags[i], pending[i]))
    && (forall i, j | 0 <= i < j < |tags| :: tags[i] < tags[j])
  }

  lemma {:induction false} RecordStatement(t: Tracked, log: Log, f: Frame, n: bytes)
    requires t.nextStatement == ParseCount(log, |log|) && StatementAgrees(t, log, n) && Record(t, f).Ok?
    ensures StatementAgrees(Record(t, f).value, log + [f], n)
  {
    var at := StatementAt(log, |log|, n);
    PastNames(log, f, |log|, n);
    PastCounts(log, f, |log|);
    if at.Some? {
      PastCounts(log, f, at.value);
    }
    assert (log + [f])[|log|] == f;
  }

  lemma {:induction false} RecordPortal(t: Tracked, log: Log, f: Frame, n: bytes)
    requires PortalAgrees(t, log, n) && Record(t, f).Ok?
    ensures PortalAgrees(Record(t, f).value, log + [f], n)
  {
    PastNames(log, f, |log|, n);
    assert (log + [f])[|log|] == f;
  }

  lemma {:induction false} RecordNames(t: Tracked, log: Log, f: Frame)
    requires NamesAgree(t, log) && Record(t, f).Ok?
    ensures NamesAgree(Record(t, f).value, log + [f])
  {
    PastCounts(log, f, |log|);
    forall n ensures StatementAgrees(Record(t, f).value, log + [f], n) {
      assert StatementAgrees(t, log, n);
      RecordStatement(t, log, f, n);
    }
    forall n ensures PortalAgrees(Record(t, f).value, log + [f], n) {
      assert PortalAgrees(t, log, n);
      RecordPortal(t, log, f, n);
    }
  }

  // ---------------------------------------------------------------- the queue against the history

  lemma {:induction false} EntryGrows(log: Log, f: Frame, i: nat, e: Pending)
    requires EntryAgrees(log, i, e)
    ensures EntryAgrees(log + [f], i, e)
  {
    assert (log + [f])[i] == log[i];
    match log[i]
    case Describe(_, _) =>
      PastDescribe(log, f, i);
      var x := DescribeTarget(log, i);
      if x.Some? {
        PastCounts(log, f, x.value);
      }
    case Execute(_) =>
      PastExecute(log, f, i);
      PastCounts(log, f, i);
      var x := ExecuteTarget(log, i);
      if x.Some? {
        PastCounts(log, f, x.value);
      }
    case _ =>
  }

  lemma {:induction false} EntriesGrow(log: Log, f: Frame, tags: Tags, pending: seq<Pending>)
    requires EntriesAgree(log, tags, pending)
    ensures EntriesAgree(log + [f], tags, pending)
  {
    forall i | 0 <= i < |tags| ensures EntryAgrees(log + [f], tags[i], pending[i]) {
      EntryGrows(log, f, tags[i], pending[i]);
    }
  }

  lemma {:induction false} NewExecute(t: Tracked, log: Log, portal: bytes)
    requires NamesAgree(t, log)
    ensures EntryAgrees(log + [Execute(portal)], |log|, ExecuteEntry(t, portal))
    ensures var x := ExecuteTarget(log + [Execute(portal)], |log|);
            && (x.None? ==> ExecuteEntry(t, portal).positions == None)
            && (x.Some? ==>
                  && log[x.value].statement in t.statements
                  && StatementAt(log, |log|, log[x.value].statement) == x
                  && ExecuteEntry(t, portal).positions == t.statements[log[x.value].statement].described)
  {
    var f := Execute(portal);
    var log' := log + [f];
    PastCounts(log, f, |log|);
    PastNames(log, f, |log|, portal);
    assert PortalAgrees(t, log, portal);
    var bound := PortalAt(log, |log|, portal);
    if bound.Some? {
      var name := log[bound.value].statement;
      PastNames(log, f, |log|, name);
      assert StatementAgrees(t, log, name);
      var x := StatementAt(log, |log|, name);
      if x.Some? {
        PastCounts(log, f, x.value);
      }
    }
  }

  lemma {:induction false} NewDescribe(t: Tracked, log: Log, target: Target, name: bytes)
    requires NamesAgree(t, log)
    ensures EntryAgrees(log + [Describe(target, name)], |log|, OwedDescribe(Referenced(t, target, name)))
  {
    var f := Describe(target, name);
    PastNames(log, f, |log|, name);
    assert PortalAgrees(t, log, name) && StatementAgrees(t, log, name);
    var statement := name;
    if target.PortalTarget? {
      var bound := PortalAt(log, |log|, name);
      if bound.None? {
        return;
      }
      statement := log[bound.value].statement;
    }
    PastNames(log, f, |log|, statement);
    assert StatementAgrees(t, log, statement);
    var x := StatementAt(log, |log|, statement);
    if x.Some? {
      PastCounts(log, f, x.value);
    }
  }

  lemma {:induction false} RecordTracked(t: Tracked, log: Log, f: Frame) returns (e: Pending)
    requires NamesAgree(t, log) && IsTracked(f) && Record(t, f).Ok?
    ensures Record(t, f).value.pending == t.pending + [e]
    ensures EntryAgrees(log + [f], |log|, e)
    ensures f.Execute? ==> e == ExecuteEntry(t, f.portal)
  {
    e := match f
         case Describe(target, name) => OwedDescribe(Referenced(t, target, name))
         case Execute(portal) => ExecuteEntry(t, portal)
         case _ => OwedBatch;
    match f
    case Describe(target, name) => NewDescribe(t, log, target, name);
    case Execute(portal) => NewExecute(t, log, portal);
    case _ =>
  }

  predicate SameKinds(log: Log, tags: Tags, pending: seq<Pending>) {
    |pending| == |tags| && forall i | 0 <= i < |tags| :: BatchAt(log, tags[i]) == pending[i].OwedBatch?
  }

  lemma {:induction false} EntriesKinds(log: Log, tags: Tags, pending: seq<Pending>)
    requires EntriesAgree(log, tags, pending)
    ensures SameKinds(log, tags, pending)
  {
    forall i | 0 <= i < |tags| ensures BatchAt(log, tags[i]) == pending[i].OwedBatch? {
      assert EntryAgrees(log, tags[i], pending[i]);
    }
  }

  lemma {:induction false} EntriesRecorded(log: Log, tags: Tags, pending: seq<Pending>)
    requires EntriesAgree(log, tags, pending)
    ensures Recorded(log, tags)
  {
    forall i | 0 <= i < |tags| ensures TrackedAt(log, tags[i]) {
      assert EntryAgrees(log, tags[i], pending[i]);
    }
  }

  lemma {:induction false} MarkersParallel(log: Log, tags: Tags, pending: seq<Pending>) returns (i: nat)
    requires SameKinds(log, tags, pending)
    ensures i <= |tags| && AfterMarker(log, tags) == tags[i..] && AfterBatch(pending) == pending[i..]
  {
    if tags == [] {
      i := 0;
    } else if BatchAt(log, tags[0]) {
      i := 1;
    } else {
      i := MarkersParallel(log, tags[1..], pending[1..]);
      i := i + 1;
    }
  }

  /** The tracker's copy state names the Execute that the queue's does. */
  predicate CopyAgrees(t: Tracked, log: Log, copy: Copy) {
    match copy
    case NotCopying => t.copyIn.Idle?
    case Copying(None) => t.copyIn == Started(None)
    case Copying(Some(e)) => ExecuteAt(log, e) && t.copyIn == Started(Some(ExecuteCount(log, e)))
  }

  lemma {:induction false} SameExecute(log: Log, x: nat, y: nat)
    requires ExecuteAt(log, x) && ExecuteAt(log, y)
    ensures x == y <==> ExecuteCount(log, x) == ExecuteCount(log, y)
  {
    if x < y {
      ParseCountMonotone(log, x, y);
    } else {
      ParseCountMonotone(log, y, x);
    }
  }

  /** Entry by entry, the tags and the tracker's queue agree on the markers and on the Execute `e`. */
  predicate SameExecutes(tags: Tags, pending: seq<Pending>, e: nat, id: nat) {
    && |pending| == |tags|
    && forall i | 0 <= i < |tags| :: tags[i] == e <==> pending[i].OwedExecute? && pending[i].id == id
  }

  lemma {:induction false} EntriesExecutes(log: Log, tags: Tags, pending: seq<Pending>, e: nat)
    requires EntriesAgree(log, tags, pending) && ExecuteAt(log, e)
    ensures SameExecutes(tags, pending, e, ExecuteCount(log, e))
  {
    forall i | 0 <= i < |tags|
      ensures tags[i] == e <==> pending[i].OwedExecute? && pending[i].id == ExecuteCount(log, e)
    {
      assert EntryAgrees(log, tags[i], pending[i]);
      if ExecuteAt(log, tags[i]) {
        SameExecute(log, tags[i], e);
      }
    }
  }

  /** What a copy frame removes from the tracker's queue is what it removes from the tags. */
  lemma {:induction false} DropsParallel(log: Log, tags: Tags, pending: seq<Pending>, e: nat, id: nat)
      returns (i: nat, n: nat)
    requires SameKinds(log, tags, pending) && SameExecutes(tags, pending, e, id)
    ensures i + n <= |tags| && DropBehind(log, tags, e) == Cut(tags, i, n)
    ensures Unmarked(pending, id) == Cut(pending, i, n)
  {
    if tags == [] {
      i, n := 0, 0;
    } else if tags[0] == e {
      n := RunsParallel(log, tags[1..], pending[1..]);
      i := 1;
      CutAfterFirst(tags, n);
      CutAfterFirst(pending, n);
    } else {
      i, n := DropsParallel(log, tags[1..], pending[1..], e, id);
      CutCons(tags, i, n);
      CutCons(pending, i, n);
      i := i + 1;
    }
  }

  lemma {:induction false} RunsParallel(log: Log, tags: Tags, pending: seq<Pending>) returns (n: nat)
    requires SameKinds(log, tags, pending)
    ensures n <= |tags| && DropMarkers(log, tags) == tags[n..] && DropBatches(pending) == pending[n..]
  {
    n := 0;
    if tags != [] && BatchAt(log, tags[0]) {
      n := RunsParallel(log, tags[1..], pending[1..]);
      n := n + 1;
    }
  }

  lemma {:induction false} EntriesCut(log: Log, tags: Tags, pending: seq<Pending>, i: nat, n: nat)
    requires EntriesAgree(log, tags, pending) && i + n <= |tags|
    ensures EntriesAgree(log, Cut(tags, i, n), Cut(pending, i, n))
  {
    var tags', pending' := Cut(tags, i, n), Cut(pending, i, n);
    forall j | 0 <= j < |tags'| ensures EntryAgrees(log, tags'[j], pending'[j]) {
      var at := if j < i then j else j + n;
      assert tags'[j] == tags[at] && pending'[j] == pending[at] && EntryAgrees(log, tags[at], pending[at]);
    }
  }

  // ---------------------------------------------------------------- the coupling invariant

  /** The tracker's tables and queue say what the recorded history says, and the ideal queue explains
      the backend. */
  ghost predicate Coupled(s: Session) {
    && Ideal(s.q)
    && NamesAgree(s.t, s.q.log)
    && EntriesAgree(s.q.log, s.q.tags, s.t.pending)
    && CopyAgrees(s.t, s.q.log, s.q.copy)
  }

  // -- a frame recorded

  lemma {:induction false} PayloadEntries(t: Tracked, q: Queue, more: bool)
    requires EntriesAgree(q.log, q.tags, t.pending) && CopyAgrees(t, q.log, q.copy)
    ensures EntriesAgree(q.log, PayloadTags(q), CopyFrame(t, more).pending)
  {
    if q.copy.Copying? && q.copy.execute.Some? {
      var e := q.copy.execute.value;
      EntriesKinds(q.log, q.tags, t.pending);
      EntriesExecutes(q.log, q.tags, t.pending, e);
      var i, n := DropsParallel(q.log, q.tags, t.pending, e, ExecuteCount(q.log, e));
      EntriesCut(q.log, q.tags, t.pending, i, n);
    }
  }

  lemma {:induction false} EntriesAppend(log: Log, tags: Tags, pending: seq<Pending>, i: nat, e: Pending)
    requires EntriesAgree(log, tags, pending) && EntryAgrees(log, i, e)
    requires forall j | 0 <= j < |tags| :: tags[j] < i
    ensures EntriesAgree(log, tags + [i], pending + [e])
  {
  }

  lemma {:induction false} RecordEntries(s: Session, f: Frame)
    requires Coupled(s) && Record(s.t, f).Ok?
    ensures EntriesAgree(Send(s.q, f).log, Send(s.q, f).tags, Record(s.t, f).value.pending)
  {
    var log, tags, pending := s.q.log, s.q.tags, s.t.pending;
    EntriesGrow(log, f, tags, pending);
    if IsTracked(f) {
      var e := RecordTracked(s.t, log, f);
      EntriesAppend(log + [f], tags, pending, |log|, e);
    } else if OpensCopyPayload(f) {
      PayloadEntries(s.t, s.q, f.CopyData?);
      EntriesGrow(log, f, PayloadTags(s.q), CopyFrame(s.t, f.CopyData?).pending);
    }
  }

  /** Recording any frame, forwarded or not, keeps the tracker coupled to the history. */
  lemma {:induction false} RecordCoupled(s: Session, f: Frame, n: Session)
    requires Coupled(s) && Records(s, f, n)
    ensures Coupled(n)
  {
    SendKeepsIdeal(s.q, f);
    RecordNames(s.t, s.q.log, f);
    RecordEntries(s, f);
    if s.q.copy.Copying? && s.q.copy.execute.Some? {
      PastCounts(s.q.log, f, s.q.copy.execute.value);
    }
  }

  lemma {:induction false} SendCoupled(s: Session, f: Frame, refused: bool, n: Session)
    requires Coupled(s) && Next(s, ClientSends(f, refused), n)
    ensures Coupled(n)
  {
    if !s.awaiting {
      if !refused {
        RecordCoupled(s, f, n);
      } else if f.Bind? {
        RecordCoupled(s, RefusedBind(f.portal, f.statement, f.formats), n.(awaiting := false));
      }
    }
  }

  // -- a message handled by the read path

  lemma {:induction false} KeepNames(t: Tracked, t': Tracked, log: Log)
    requires NamesAgree(t, log) && t'.portals == t.portals
    requires t'.nextStatement == t.nextStatement && t'.nextExecute == t.nextExecute
    requires forall n :: n in t.statements <==> n in t'.statements
    requires forall n | n in t.statements ::
               t'.statements[n].id == t.statements[n].id && t'.statements[n].params == t.statements[n].params
    ensures NamesAgree(t', log)
  {
    forall n ensures StatementAgrees(t', log, n) && PortalAgrees(t', log, n) {
      assert StatementAgrees(t, log, n) && PortalAgrees(t, log, n);
    }
  }

  predicate Redescribes(e': Pending, e: Pending) {
    || e' == e
    || (e'.OwedExecute? && e.OwedExecute? && e' == e.(positions := e'.positions))
  }

  /** The same queue with `i` entries settled and others re-described. */
  lemma {:induction false} EntriesSettled(
      log: Log, tags: Tags, pending: seq<Pending>, i: nat, pending': seq<Pending>)
    requires EntriesAgree(log, tags, pending) && i <= |tags| && |pending'| == |pending| - i
    requires forall j | 0 <= j < |pending'| :: Redescribes(pending'[j], pending[i + j])
    ensures EntriesAgree(log, tags[i..], pending')
  {
    forall j | 0 <= j < |pending'| ensures EntryAgrees(log, tags[i..][j], pending'[j]) {
      assert EntryAgrees(log, tags[i + j], pending[i + j]) && Redescribes(pending'[j], pending[i + j]);
    }
  }

  lemma {:induction false} HandleEntries(s: Session, positions: Described)
    requires Coupled(s) && s.q.down != []
    ensures EntriesAgree(s.q.log, Handle(s.q).tags, Apply(s.t, s.q.down[0], positions).pending)
  {
    var m, log, tags, pending := s.q.down[0], s.q.log, s.q.tags, s.t.pending;
    var pending' := Apply(s.t, m, positions).pending;
    if tags != [] {
      assert EntryAgrees(log, tags[0], pending[0]);
    }
    if m.ReadyForQuery? {
      EntriesKinds(log, tags, pending);
      var i := MarkersParallel(log, tags, pending);
      EntriesSettled(log, tags, pending, i, pending');
    } else {
      var i := if Handle(s.q).tags == tags then 0 else 1;
      EntriesSettled(log, tags, pending, i, pending');
      assert tags[0..] == tags;
    }
  }

  lemma {:induction false} HandleNames(t: Tracked, log: Log, m: Message, positions: Described)
    requires NamesAgree(t, log)
    ensures NamesAgree(Apply(t, m, positions), log)
  {
    var t' := Apply(t, m, positions);
    assert t'.statements.Keys == t.statements.Keys;
    KeepNames(t, t', log);
  }

  lemma {:induction false} HandleCopyAgrees(t: Tracked, q: Queue, positions: Described)
    requires q.down != [] && EntriesAgree(q.log, q.tags, t.pending) && CopyAgrees(t, q.log, q.copy)
    ensures CopyAgrees(Apply(t, q.down[0], positions), q.log, Handle(q).copy)
  {
    if q.tags != [] {
      assert EntryAgrees(q.log, q.tags[0], t.pending[0]);
    }
  }

  /** Whatever message the read path handles, and whatever it finds at the front of the queue, the
      tracker stays coupled to the history. */
  lemma {:induction false} HandleCoupled(s: Session, positions: Described, n: Session)
    requires Coupled(s) && Next(s, ReadPathHandles(positions), n)
    ensures Coupled(n)
  {
    HandleKeepsIdeal(s.q);
    HandleEntries(s, positions);
    HandleNames(s.t, s.q.log, s.q.down[0], positions);
    HandleCopyAgrees(s.t, s.q, positions);
  }

  lemma {:induction false} StartCoupled()
    ensures Coupled(Start)
  {
    assert forall n :: StatementAgrees(Fresh, [], n) && PortalAgrees(Fresh, [], n);
  }

  lemma {:induction false} StepCoupled(s: Session, step: Step, n: Session)
    requires Coupled(s) && Next(s, step, n)
    ensures Coupled(n)
  {
    match step
    case ClientSends(f, refused) => SendCoupled(s, f, refused, n);
    case BackendConsumes(c) => ConsumeKeepsIdeal(s.q, c);
    case BackendAborts => AbortKeepsIdeal(s.q);
    case ReadPathHandles(p) => HandleCoupled(s, p, n);
  }

  /** Every state of every run is coupled. */
  lemma {:induction false} RunsCoupled(states: seq<Session>, steps: seq<Step>, i: nat)
    requires IsRun(states, steps) && i < |states|
    ensures Coupled(states[i])
  {
    if i == 0 {
      StartCoupled();
    } else {
      RunsCoupled(states, steps, i - 1);
      assert Next(states[i - 1], steps[i - 1], states[i]);
      StepCoupled(states[i - 1], steps[i - 1], states[i]);
    }
  }
}
