/** Everything a client can grow is bounded, in every state of every session, and a frame is refused for a
    limit exactly when it would exceed it. */
module Capacity {
  import opened Bytes
  import opened Resolution
  import opened Params
  import opened Frames
  import opened Portals
  import opened Session

  /** The name of the frame that is too long, if one is: of two, the portal's. */
  function LongName(f: Frame): (r: Option<nat>) {
    match f
    case Parse(statement, _) => if |statement| > 256 then Some(|statement|) else None
    case Bind(portal, statement, _) =>
      if |portal| > 256 then Some(|portal|) else if |statement| > 256 then Some(|statement|) else None
    case RefusedBind(portal, statement, _) =>
      if |portal| > 256 then Some(|portal|) else if |statement| > 256 then Some(|statement|) else None
    case Describe(_, name) => if |name| > 256 then Some(|name|) else None
    case _ => None
  }

  /** The limit the frame would exceed, if it would: a statement or a portal under a new name beside 1024
      others, or one more response beside 4096 owed. */
  function Overfull(t: Tracked, f: Frame): (r: Option<nat>) {
    match f
    case Parse(statement, _) => if statement !in t.statements && |t.statements| >= 1024 then Some(1024) else None
    case Bind(portal, _, _) => if portal !in t.portals && |t.portals| >= 1024 then Some(1024) else None
    case RefusedBind(portal, _, _) => if portal !in t.portals && |t.portals| >= 1024 then Some(1024) else None
    case _ => if IsTracked(f) && |t.pending| >= 4096 then Some(4096) else None
  }

  /** A frame is refused exactly for a name that is too long, or else for a limit it would exceed. */
  lemma {:induction false} RefusedIffOver(t: Tracked, f: Frame, e: Error)
    ensures Record(t, f) == Err(e) <==>
              if LongName(f).Some? then e == NameTooLong(LongName(f).value, 256)
              else Overfull(t, f).Some? && e == SessionLimit(Overfull(t, f).value)
  {
  }

  lemma {:induction false} NewKey<K, V>(m: map<K, V>, k: K, v: V)
    ensures |m[k := v]| == |m| + (if k in m then 0 else 1)
  {
    assert m[k := v].Keys == m.Keys + {k};
  }

  lemma {:induction false} ClosedCapped(t: Tracked, statement: bytes)
    requires Capped(t)
    ensures Capped(StatementClosed(t, statement))
  {
    var n := StatementClosed(t, statement);
    SubsetCardinality(n.statements.Keys, t.statements.Keys);
    SubsetCardinality(n.portals.Keys, t.portals.Keys);
  }

  lemma {:induction false} UnmarkedShorter(pending: seq<Pending>, id: nat)
    ensures |Unmarked(pending, id)| <= |pending|
  {
    if pending != [] {
      if pending[0].OwedExecute? && pending[0].id == id {
        DropsShorter(pending[1..]);
      } else {
        UnmarkedShorter(pending[1..], id);
      }
    }
  }

  lemma {:induction false} DropsShorter(pending: seq<Pending>)
    ensures |DropBatches(pending)| <= |pending|
  {
    if pending != [] && pending[0].OwedBatch? {
      DropsShorter(pending[1..]);
    }
  }

  lemma {:induction false} SettlesShorter(pending: seq<Pending>)
    ensures |AfterBatch(pending)| <= |pending|
  {
    if pending != [] {
      SettlesShorter(pending[1..]);
    }
  }

  lemma {:induction false} ParsedCapped(t: Tracked, statement: bytes, params: ParamTransforms)
    requires Capped(t) && Parsed(t, statement, params).Ok?
    ensures Capped(Parsed(t, statement, params).value)
  {
    NewKey(t.statements, statement, Statement(t.nextStatement, params, None));
  }

  lemma {:induction false} BoundCapped(t: Tracked, portal: bytes, statement: bytes, formats: ResultFormats)
    requires Capped(t) && Bound(t, portal, statement, formats).Ok?
    ensures Capped(Bound(t, portal, statement, formats).value)
  {
    NewKey(t.portals, portal, Portal(statement, formats));
  }

  lemma {:induction false} PortalClosedCapped(t: Tracked, portal: bytes)
    requires Capped(t)
    ensures Capped(PortalClosed(t, portal))
  {
    SubsetCardinality(PortalClosed(t, portal).portals.Keys, t.portals.Keys);
  }

  lemma {:induction false} CopyCapped(t: Tracked, more: bool)
    requires Capped(t)
    ensures Capped(CopyFrame(t, more))
  {
    if t.copyIn.Started? && t.copyIn.execute.Some? {
      UnmarkedShorter(t.pending, t.copyIn.execute.value);
    }
  }

  lemma {:induction false} RecordCapped(t: Tracked, f: Frame)
    requires Capped(t) && Record(t, f).Ok?
    ensures Capped(Record(t, f).value)
  {
    match f
    case Parse(statement, params) => ParsedCapped(t, statement, params);
    case Bind(portal, statement, formats) => BoundCapped(t, portal, statement, formats);
    case RefusedBind(portal, statement, formats) => BoundCapped(t, portal, statement, formats);
    case Close(StatementTarget, name) => ClosedCapped(t, name);
    case Close(PortalTarget, name) => PortalClosedCapped(t, name);
    case CopyData => CopyCapped(t, true);
    case CopyDone => CopyCapped(t, false);
    case CopyFail => CopyCapped(t, false);
    case _ =>
  }

  lemma {:induction false} ApplyCapped(t: Tracked, m: Message, positions: Described)
    requires Capped(t)
    ensures Capped(Apply(t, m, positions))
  {
    var n := Apply(t, m, positions);
    assert n.statements.Keys == t.statements.Keys && n.portals == t.portals;
    SubsetCardinality(n.statements.Keys, t.statements.Keys);
    SettlesShorter(t.pending);
  }

  lemma {:induction false} StepCapped(s: Session, step: Step, n: Session)
    requires Capped(s.t) && Next(s, step, n)
    ensures Capped(n.t)
  {
    match step
    case ClientSends(f, refused) =>
      if n.t != s.t {
        RecordCapped(s.t, if refused then RefusedBind(f.portal, f.statement, f.formats) else f);
      }
    case ReadPathHandles(positions) => ApplyCapped(s.t, s.q.down[0], positions);
    case _ =>
  }

  /** In every state of every session the tracker holds at most 1024 statements, 1024 portals and 4096 owed
      responses, and no name longer than 256. */
  lemma {:induction false} RunsCapped(states: seq<Session>, steps: seq<Step>, i: nat)
    requires IsRun(states, steps) && i < |states|
    ensures var t := states[i].t;
            && |t.statements| <= 1024 && |t.portals| <= 1024 && |t.pending| <= 4096
            && (forall n | n in t.statements :: |n| <= 256)
            && (forall n | n in t.portals :: |n| <= 256 && |t.portals[n].statement| <= 256)
  {
    CappedThroughout(states, steps, i);
  }

  lemma {:induction false} CappedThroughout(states: seq<Session>, steps: seq<Step>, i: nat)
    requires IsRun(states, steps) && i < |states|
    ensures Capped(states[i].t)
  {
    if i > 0 {
      CappedThroughout(states, steps, i - 1);
      assert Next(states[i - 1], steps[i - 1], states[i]);
      StepCapped(states[i - 1], steps[i - 1], states[i]);
    }
  }
}
