/** The extended-protocol state the two relay directions share: prepared statements, portals, and
    the queue of responses the backend still owes. */
module Portals {
  import opened Bytes
  import opened Resolution
  import opened Params
  import opened Frames

  const MAX_PREPARED_STATEMENTS: nat := 1024
  const MAX_PORTALS: nat := 1024
  const MAX_NAME_LEN: nat := 256
  const MAX_PENDING_RESPONSES: nat := 4096

  datatype Error = NameTooLong(len: nat, max: nat) | SessionLimit(limit: nat)

  /** `id` names one incarnation of a statement name. */
  datatype StatementRef = StatementRef(name: bytes, id: nat)

  datatype Statement = Statement(id: nat, params: ParamTransforms, described: Option<Described>)

  datatype Portal = Portal(statement: bytes, formats: ResultFormats)

  /** A response the backend still owes. */
  datatype Pending =
    | OwedDescribe(statement: Option<StatementRef>)
    | OwedExecute(id: nat, incarnation: Option<nat>, positions: Option<Described>, formats: ResultFormats)
    | OwedBatch

  datatype CopyState = Idle | Started(execute: Option<nat>)

  datatype RowSource = FromPortal(positions: Described, formats: ResultFormats) | LastDescription | Undescribed

  datatype Tracked = Tracked(
    statements: map<bytes, Statement>,
    portals: map<bytes, Portal>,
    pending: seq<Pending>,
    nextStatement: nat,
    nextExecute: nat,
    copyIn: CopyState)

  const Fresh: Tracked := Tracked(map[], map[], [], 0, 0, Idle)

  // ---------------------------------------------------------------- specifications

  function Pushed(t: Tracked, e: Pending): (r: Result<Tracked, Error>) {
    if |t.pending| >= MAX_PENDING_RESPONSES then Err(SessionLimit(MAX_PENDING_RESPONSES))
    else Ok(t.(pending := t.pending + [e]))
  }

  function Parsed(t: Tracked, statement: bytes, params: ParamTransforms): (r: Result<Tracked, Error>) {
    if |statement| > MAX_NAME_LEN then Err(NameTooLong(|statement|, MAX_NAME_LEN))
    else if statement !in t.statements && |t.statements| >= MAX_PREPARED_STATEMENTS then
      Err(SessionLimit(MAX_PREPARED_STATEMENTS))
    else
      Ok(t.(statements := t.statements[statement := Statement(t.nextStatement, params, None)],
            nextStatement := t.nextStatement + 1))
  }

  function Bound(t: Tracked, portal: bytes, statement: bytes, formats: ResultFormats)
    : (r: Result<Tracked, Error>)
  {
    if |portal| > MAX_NAME_LEN then Err(NameTooLong(|portal|, MAX_NAME_LEN))
    else if |statement| > MAX_NAME_LEN then Err(NameTooLong(|statement|, MAX_NAME_LEN))
    else if portal !in t.portals && |t.portals| >= MAX_PORTALS then Err(SessionLimit(MAX_PORTALS))
    else Ok(t.(portals := t.portals[portal := Portal(statement, formats)]))
  }

  /** What Bind is told to do to the parameters of a statement; `None` for one it does not know. */
  function ActionsFor(t: Tracked, statement: bytes): (r: Option<ParamTransforms>) {
    if statement in t.statements then Some(t.statements[statement].params) else None
  }

  function StatementClosed(t: Tracked, statement: bytes): (r: Tracked) {
    t.(statements := t.statements - {statement},
       portals := map p | p in t.portals && t.portals[p].statement != statement :: t.portals[p])
  }

  function PortalClosed(t: Tracked, portal: bytes): (r: Tracked) {
    t.(portals := t.portals - {portal})
  }

  function Referenced(t: Tracked, target: Target, name: bytes): (r: Option<StatementRef>) {
    var statement :=
      match target
      case StatementTarget => Some(name)
      case PortalTarget => if name in t.portals then Some(t.portals[name].statement) else None;
    if statement.Some? && statement.value in t.statements
    then Some(StatementRef(statement.value, t.statements[statement.value].id)) else None
  }

  function DescribeExpected(t: Tracked, target: Target, name: bytes): (r: Result<Tracked, Error>) {
    if |name| > MAX_NAME_LEN then Err(NameTooLong(|name|, MAX_NAME_LEN))
    else Pushed(t, OwedDescribe(Referenced(t, target, name)))
  }

  function ExecuteEntry(t: Tracked, portal: bytes): (e: Pending)
    ensures e.OwedExecute?
  {
    if portal !in t.portals then OwedExecute(t.nextExecute, None, None, AllText)
    else
      var bound := t.portals[portal];
      if bound.statement !in t.statements then OwedExecute(t.nextExecute, None, None, bound.formats)
      else
        var s := t.statements[bound.statement];
        OwedExecute(t.nextExecute, Some(s.id), s.described, bound.formats)
  }

  /** The execute id is spent even when the queue is full. */
  function ExecuteExpected(t: Tracked, portal: bytes): (r: Result<Tracked, Error>) {
    Pushed(t.(nextExecute := t.nextExecute + 1), ExecuteEntry(t, portal))
  }

  function CopyInStarted(t: Tracked): (r: Tracked) {
    t.(copyIn := Started(if t.pending != [] && t.pending[0].OwedExecute? then Some(t.pending[0].id) else None))
  }

  function DropBatches(pending: seq<Pending>): (r: seq<Pending>) {
    if pending != [] && pending[0].OwedBatch? then DropBatches(pending[1..]) else pending
  }

  /** The queue without the run of batch markers directly behind the Execute with this id. */
  function Unmarked(pending: seq<Pending>, id: nat): (r: seq<Pending>) {
    if pending == [] then []
    else if pending[0].OwedExecute? && pending[0].id == id then [pending[0]] + DropBatches(pending[1..])
    else [pending[0]] + Unmarked(pending[1..], id)
  }

  /** A CopyData (`more`), or a CopyDone or CopyFail, from the client. */
  function CopyFrame(t: Tracked, more: bool): (r: Tracked) {
    if t.copyIn.Idle? then t
    else
      t.(copyIn := if more then t.copyIn else Idle,
         pending := if t.copyIn.execute.None? then t.pending else Unmarked(t.pending, t.copyIn.execute.value))
  }

  function Filled(e: Pending, id: nat, positions: Described): (r: Pending) {
    if e.OwedExecute? && e.incarnation == Some(id) && e.positions.None?
    then e.(positions := Some(positions)) else e
  }

  function BackFilled(pending: seq<Pending>, id: nat, positions: Described): (r: seq<Pending>)
    ensures |r| == |pending|
    ensures forall i | 0 <= i < |pending| :: r[i] == Filled(pending[i], id, positions)
  {
    seq(|pending|, i requires 0 <= i < |pending| => Filled(pending[i], id, positions))
  }

  function Redescribed(statements: map<bytes, Statement>, ref: StatementRef, positions: Described)
    : (r: map<bytes, Statement>)
  {
    if ref.name in statements && statements[ref.name].id == ref.id
    then statements[ref.name := statements[ref.name].(described := Some(positions))] else statements
  }

  function DescribeAnswered(t: Tracked, positions: Described): (r: Tracked) {
    if t.pending == [] || !t.pending[0].OwedDescribe? then t
    else
      match t.pending[0].statement
      case None => t.(pending := t.pending[1..])
      case Some(ref) =>
        t.(statements := Redescribed(t.statements, ref, positions),
           pending := BackFilled(t.pending[1..], ref.id, positions))
  }

  function Rederived(t: Tracked, positions: Described): (r: Tracked) {
    if t.pending != [] && t.pending[0].OwedExecute? && t.pending[0].positions.Some?
    then t.(pending := t.pending[0 := t.pending[0].(positions := Some(positions))]) else t
  }

  function RowSourceOf(t: Tracked): (r: RowSource) {
    if t.pending == [] || !t.pending[0].OwedExecute? then LastDescription
    else if t.pending[0].positions.None? then Undescribed
    else FromPortal(t.pending[0].positions.value, t.pending[0].formats)
  }

  function ExecuteAnswered(t: Tracked): (r: Tracked) {
    if t.pending != [] && t.pending[0].OwedExecute? then t.(pending := t.pending[1..]) else t
  }

  function AfterBatch(pending: seq<Pending>): (r: seq<Pending>) {
    if pending == [] then [] else if pending[0].OwedBatch? then pending[1..] else AfterBatch(pending[1..])
  }

  function BatchAnswered(t: Tracked): (r: Tracked) {
    t.(copyIn := Idle, pending := AfterBatch(t.pending))
  }

  /** Every map and queue keyed or grown by the client is bounded. */
  predicate Capped(t: Tracked) {
    && |t.statements| <= MAX_PREPARED_STATEMENTS && |t.portals| <= MAX_PORTALS
    && |t.pending| <= MAX_PENDING_RESPONSES
    && (forall n | n in t.statements :: |n| <= MAX_NAME_LEN)
    && (forall n | n in t.portals :: |n| <= MAX_NAME_LEN && |t.portals[n].statement| <= MAX_NAME_LEN)
  }

  lemma {:induction false} SubsetCardinality<T>(a: set<T>, b: set<T>)
    requires a <= b
    ensures |a| <= |b|
  {
    assert b == a + (b - a);
  }

  // ---------------------------------------------------------------- walks over the queue

  lemma {:induction false} DropBatchesIs(pending: seq<Pending>, n: nat)
    requires n <= |pending| && (forall j | 0 <= j < n :: pending[j].OwedBatch?)
    requires n < |pending| ==> !pending[n].OwedBatch?
    ensures DropBatches(pending) == pending[n..]
  {
    if n > 0 {
      DropBatchesIs(pending[1..], n - 1);
      assert pending[1..][n - 1..] == pending[n..];
    }
  }

  /** The queue around the Execute at position `at`, whose run of markers has length `n`. */
  lemma {:induction false} UnmarkedIs(pending: seq<Pending>, id: nat, at: nat, n: nat)
    requires at < |pending| && at + 1 + n <= |pending|
    requires forall j | 0 <= j < at :: !(pending[j].OwedExecute? && pending[j].id == id)
    requires pending[at].OwedExecute? && pending[at].id == id
    requires forall j | at < j < at + 1 + n :: pending[j].OwedBatch?
    requires at + 1 + n < |pending| ==> !pending[at + 1 + n].OwedBatch?
    ensures Unmarked(pending, id) == pending[..at + 1] + pending[at + 1 + n..]
    decreases at
  {
    var rest := pending[1..];
    if at == 0 {
      DropBatchesIs(rest, n);
      assert rest[n..] == pending[n + 1..] && pending[..1] == [pending[0]];
    } else {
      UnmarkedIs(rest, id, at - 1, n);
      assert rest[..at] == pending[1..at + 1] && rest[at + n..] == pending[at + 1 + n..];
      assert [pending[0]] + pending[1..at + 1] == pending[..at + 1];
    }
  }

  lemma {:induction false} UnmarkedAbsent(pending: seq<Pending>, id: nat)
    requires forall e | e in pending && e.OwedExecute? :: e.id != id
    ensures Unmarked(pending, id) == pending
  {
    if pending != [] {
      UnmarkedAbsent(pending[1..], id);
    }
  }

  method RemoveMarkers(pending: seq<Pending>, id: nat) returns (r: seq<Pending>)
    ensures r == Unmarked(pending, id) && |r| <= |pending|
  {
    var at := 0;
    while at < |pending| && !(pending[at].OwedExecute? && pending[at].id == id)
      invariant at <= |pending|
      invariant forall j | 0 <= j < at :: !(pending[j].OwedExecute? && pending[j].id == id)
    {
      at := at + 1;
    }
    r := pending;
    if at == |pending| {
      UnmarkedAbsent(pending, id);
      return;
    }
    ghost var n := 0;
    while at + 1 < |r| && r[at + 1].OwedBatch?
      invariant at + 1 + n <= |pending| && r == pending[..at + 1] + pending[at + 1 + n..]
      invariant forall j | at < j < at + 1 + n :: pending[j].OwedBatch?
      decreases |r|
    {
      r := r[..at + 1] + r[at + 2..];
      n := n + 1;
    }
    UnmarkedIs(pending, id, at, n);
  }

  method FillPositions(pending: seq<Pending>, id: nat, positions: Described) returns (r: seq<Pending>)
    ensures r == BackFilled(pending, id, positions)
  {
    r := pending;
    for i := 0 to |pending|
      invariant |r| == |pending|
      invariant forall j | 0 <= j < i :: r[j] == Filled(pending[j], id, positions)
      invariant forall j | i <= j < |pending| :: r[j] == pending[j]
    {
      if r[i].OwedExecute? && r[i].incarnation == Some(id) && r[i].positions.None? {
        r := r[i := r[i].(positions := Some(positions))];
      }
    }
  }

  method PopBatch(pending: seq<Pending>) returns (r: seq<Pending>)
    ensures r == AfterBatch(pending) && |r| <= |pending|
  {
    r := pending;
    while r != []
      invariant |r| <= |pending| && AfterBatch(r) == AfterBatch(pending)
      decreases |r|
    {
      var settled := r[0];
      r := r[1..];
      if settled.OwedBatch? {
        return;
      }
    }
  }

  // ---------------------------------------------------------------- the shared object

  class SessionPortals {
    var statements: map<bytes, Statement>
    var portals: map<bytes, Portal>
    var pending: seq<Pending>
    var nextStatement: nat
    var nextExecute: nat
    var copyIn: CopyState

    function State(): (t: Tracked)
      reads this
    {
      Tracked(statements, portals, pending, nextStatement, nextExecute, copyIn)
    }

    predicate Valid()
      reads this
    {
      Capped(State())
    }

    constructor ()
      ensures State() == Fresh && Valid()
    {
      statements, portals, pending := map[], map[], [];
      nextStatement, nextExecute, copyIn := 0, 0, Idle;
    }

    method Parse(statement: bytes, params: ParamTransforms) returns (r: Result<(), Error>)
      requires Valid()
      modifies this
      ensures Valid()
      ensures match Parsed(old(State()), statement, params)
              case Ok(t) => r.Ok? && State() == t
              case Err(e) => r == Err(e) && State() == old(State())
    {
      if |statement| > MAX_NAME_LEN {
        return Err(NameTooLong(|statement|, MAX_NAME_LEN));
      }
      if statement !in statements && |statements| >= MAX_PREPARED_STATEMENTS {
        return Err(SessionLimit(MAX_PREPARED_STATEMENTS));
      }
      var id := nextStatement;
      nextStatement := nextStatement + 1;
      statements := statements[statement := Statement(id, params, None)];
      return Ok(());
    }

    method Bind(portal: bytes, statement: bytes, formats: ResultFormats)
      returns (r: Result<Option<ParamTransforms>, Error>)
      requires Valid()
      modifies this`portals
      ensures Valid()
      ensures match Bound(old(State()), portal, statement, formats)
              case Ok(t) => State() == t && r == Ok(ActionsFor(t, statement))
              case Err(e) => r == Err(e) && State() == old(State())
    {
      if |portal| > MAX_NAME_LEN {
        return Err(NameTooLong(|portal|, MAX_NAME_LEN));
      }
      if |statement| > MAX_NAME_LEN {
        return Err(NameTooLong(|statement|, MAX_NAME_LEN));
      }
      if portal !in portals && |portals| >= MAX_PORTALS {
        return Err(SessionLimit(MAX_PORTALS));
      }
      portals := portals[portal := Portal(statement, formats)];
      return Ok(if statement in statements then Some(statements[statement].params) else None);
    }

    method CloseStatement(statement: bytes)
      requires Valid()
      modifies this`statements, this`portals
      ensures Valid() && State() == StatementClosed(old(State()), statement)
    {
      SubsetCardinality((statements - {statement}).Keys, statements.Keys);
      statements := statements - {statement};
      var kept := map p | p in portals && portals[p].statement != statement :: portals[p];
      SubsetCardinality(kept.Keys, portals.Keys);
      portals := kept;
    }

    method ClosePortal(portal: bytes)
      requires Valid()
      modifies this`portals
      ensures Valid() && State() == PortalClosed(old(State()), portal)
    {
      SubsetCardinality((portals - {portal}).Keys, portals.Keys);
      portals := portals - {portal};
    }

    method Push(e: Pending) returns (r: Result<(), Error>)
      requires Valid()
      modifies this`pending
      ensures Valid()
      ensures match Pushed(old(State()), e)
              case Ok(t) => r.Ok? && State() == t
              case Err(x) => r == Err(x) && State() == old(State())
    {
      if |pending| >= MAX_PENDING_RESPONSES {
        return Err(SessionLimit(MAX_PENDING_RESPONSES));
      }
      pending := pending + [e];
      return Ok(());
    }

    method ExpectDescribe(target: Target, name: bytes) returns (r: Result<(), Error>)
      requires Valid()
      modifies this`pending
      ensures Valid()
      ensures match DescribeExpected(old(State()), target, name)
              case Ok(t) => r.Ok? && State() == t
              case Err(e) => r == Err(e) && State() == old(State())
    {
      if |name| > MAX_NAME_LEN {
        return Err(NameTooLong(|name|, MAX_NAME_LEN));
      }
      var statement: Option<bytes> :=
        match target
        case StatementTarget => Some(name)
        case PortalTarget => if name in portals then Some(portals[name].statement) else None;
      var ref := None;
      if statement.Some? && statement.value in statements {
        ref := Some(StatementRef(statement.value, statements[statement.value].id));
      }
      r := Push(OwedDescribe(ref));
    }

    method ExpectExecute(portal: bytes) returns (r: Result<(), Error>)
      requires Valid()
      modifies this`pending, this`nextExecute
      ensures Valid()
      ensures match ExecuteExpected(old(State()), portal)
              case Ok(t) => r.Ok? && State() == t
              case Err(e) => r == Err(e) && State() == old(State()).(nextExecute := old(nextExecute) + 1)
    {
      var formats, incarnation, positions := AllText, None, None;
      if portal in portals {
        var bound := portals[portal];
        formats := bound.formats;
        if bound.statement in statements {
          incarnation := Some(statements[bound.statement].id);
          positions := statements[bound.statement].described;
        }
      }
      var id := nextExecute;
      nextExecute := nextExecute + 1;
      r := Push(OwedExecute(id, incarnation, positions, formats));
    }

    method ExpectBatch() returns (r: Result<(), Error>)
      requires Valid()
      modifies this`pending
      ensures Valid()
      ensures match Pushed(old(State()), OwedBatch)
              case Ok(t) => r.Ok? && State() == t
              case Err(e) => r == Err(e) && State() == old(State())
    {
      r := Push(OwedBatch);
    }

    method NoteCopyIn()
      requires Valid()
      modifies this`copyIn
      ensures Valid() && State() == CopyInStarted(old(State()))
    {
      copyIn := Started(if pending != [] && pending[0].OwedExecute? then Some(pending[0].id) else None);
    }

    method CopyData(more: bool)
      requires Valid()
      modifies this`pending, this`copyIn
      ensures Valid() && State() == CopyFrame(old(State()), more)
    {
      if copyIn.Idle? {
        return;
      }
      var starter := copyIn.execute;
      if !more {
        copyIn := Idle;
      }
      if starter.None? {
        return;
      }
      pending := RemoveMarkers(pending, starter.value);
    }

    method AnswerDescribe(positions: Described)
      requires Valid()
      modifies this`pending, this`statements
      ensures Valid() && State() == DescribeAnswered(old(State()), positions)
    {
      if pending == [] || !pending[0].OwedDescribe? {
        return;
      }
      var statement := pending[0].statement;
      pending := pending[1..];
      if statement.None? {
        return;
      }
      var StatementRef(name, id) := statement.value;
      if name in statements && statements[name].id == id {
        statements := statements[name := statements[name].(described := Some(positions))];
      }
      pending := FillPositions(pending, id, positions);
    }

    method Rederive(positions: Described)
      requires Valid()
      modifies this`pending
      ensures Valid() && State() == Rederived(old(State()), positions)
    {
      if pending != [] && pending[0].OwedExecute? && pending[0].positions.Some? {
        pending := pending[0 := pending[0].(positions := Some(positions))];
      }
    }

    method Source() returns (r: RowSource)
      ensures r == RowSourceOf(State())
    {
      if pending == [] || !pending[0].OwedExecute? {
        return LastDescription;
      }
      match pending[0].positions
      case None => return Undescribed;
      case Some(positions) => return FromPortal(positions, pending[0].formats);
    }

    method AnswerExecute()
      requires Valid()
      modifies this`pending
      ensures Valid() && State() == ExecuteAnswered(old(State()))
    {
      if pending != [] && pending[0].OwedExecute? {
        pending := pending[1..];
      }
    }

    method AnswerBatch()
      requires Valid()
      modifies this`pending, this`copyIn
      ensures Valid() && State() == BatchAnswered(old(State()))
    {
      copyIn := Idle;
      pending := PopBatch(pending);
    }
  }
}
