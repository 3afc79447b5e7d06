/** Sessions in which a row is read with the description of another statement than the one the backend
    executes: a Bind that the write path records and then refuses, a Bind that the backend fails, and
    a Parse of the statement's name between Bind and Execute. No copy is involved in any of them, and
    the row is found where it is expected. */
module Misattribution {
  import opened Bytes
  import opened Resolution
  import opened Params
  import opened Frames
  import opened Backend
  import opened Queue
  import opened History
  import opened Upstream
  import opened Portals
  import opened Session
  import opened Closed

  /** A session at rest in which the backend holds portal `name`, planned from a statement. */
  predicate Holds(s: Session, name: bytes) {
    && Rested(s)
    && var u := HeldAt(s.q.log, s.q.taken, |s.q.log|, name);
       u.Some? && Planned(s.q.log, s.q.taken, u.value).Some?
  }

  function HeldBind(s: Session, name: bytes): (f: Frame)
    requires Holds(s, name)
    ensures f.Bind?
  {
    s.q.log[HeldAt(s.q.log, s.q.taken, |s.q.log|, name).value]
  }

  /** And in which statement `other` has been described as `p`. */
  predicate Prepared(s: Session, name: bytes, other: bytes, p: Described) {
    Holds(s, name) && other in s.t.statements && s.t.statements[other].described == Some(p)
  }

  /** A row of the Execute recorded last is next, nothing is in its way, and the tracker reads it with
      `source`, which is not what the backend executes. */
  predicate Misread(s: Session, source: RowSource) {
    var r := |s.q.log| - 1;
    && s.q.log != [] && ExecuteAt(s.q.log, r) && s.q.consumed == |s.q.log|
    && s.q.down != [] && s.q.down[0] == DataRow(r) && Clear(s.q)
    && RowSourceOf(s.t) == source && Executed(s.q.log, s.q.taken, r).Some?
    && !Attributed(s.q.log, s.q.taken, r)
  }

  /** A row of an Execute of portal `name`, recorded behind `log`, is next and alone. */
  predicate RowNext(s: Session, log: Log, taken: set<nat>, name: bytes, e: Pending) {
    && s.q.log == log + [Execute(name)] && s.q.taken == taken && s.q.consumed == |s.q.log|
    && s.q.down != [] && s.q.down[0] == DataRow(|log|) && Clear(s.q) && s.t.pending == [e]
  }

  lemma {:induction false} RowIsMisread(s: Session, log: Log, taken: set<nat>, name: bytes, e: Pending)
    requires RowNext(s, log, taken, name, e) && e.OwedExecute? && e.positions.Some?
    requires Executed(s.q.log, taken, |log|).Some? && !Attributed(s.q.log, taken, |log|)
    ensures Misread(s, FromPortal(e.positions.value, e.formats))
  {
  }

  // ---------------------------------------------------------------- parts of the runs

  lemma {:induction false} HeldSkips(log: Log, taken: set<nat>, m: nat, n: nat, name: bytes)
    requires m <= n <= |log| && forall k | m <= k < n :: k !in taken
    ensures HeldAt(log, taken, n, name) == HeldAt(log, taken, m, name)
    decreases n
  {
    if m < n {
      HeldSkips(log, taken, m, n - 1, name);
    }
  }

  lemma {:induction false} TakenBounded(states: seq<Session>, steps: seq<Step>, i: nat)
    requires IsRun(states, steps) && i < |states|
    ensures forall k | k in states[i].q.taken :: k < states[i].q.consumed
  {
    if i > 0 {
      TakenBounded(states, steps, i - 1);
      assert Next(states[i - 1], steps[i - 1], states[i]);
      TakenBelow(states[i - 1], steps[i - 1], states[i]);
    }
  }

  lemma {:induction false} TakenBelow(s: Session, step: Step, n: Session)
    requires Next(s, step, n) && forall k | k in s.q.taken :: k < s.q.consumed
    ensures forall k | k in n.q.taken :: k < n.q.consumed
  {
  }

  /** The write path records a Bind, refuses it, and discards what follows up to the client's Sync. */
  lemma {:induction false} RefuseStep(
      states: seq<Session>, steps: seq<Step>, name: bytes, other: bytes, f: ResultFormats)
      returns (states': seq<Session>, steps': seq<Step>)
    requires IsRun(states, steps) && CopyFree(steps, |steps|) && !Last(states).awaiting
    requires Record(Last(states).t, Bind(name, other, f)).Ok?
    ensures IsRun(states', steps') && CopyFree(steps', |steps'|)
    ensures var s, frame := Last(states), RefusedBind(name, other, f);
            Last(states') == s.(t := Record(s.t, frame).value, q := Send(s.q, frame))
  {
    var s, frame := Last(states), RefusedBind(name, other, f);
    var closed := s.(t := Record(s.t, frame).value, q := Send(s.q, frame));
    var n := closed.(awaiting := true);
    assert n.(awaiting := false) == closed;
    Extended(states, steps, ClientSends(Bind(name, other, f), true), n);
    states', steps' := states + [n], steps + [ClientSends(Bind(name, other, f), true)];
    Extended(states', steps', ClientSends(Sync, false), closed);
    states', steps' := states' + [closed], steps' + [ClientSends(Sync, false)];
  }

  /** And the backend passes over it. */
  lemma {:induction false} Refuse(states: seq<Session>, steps: seq<Step>, name: bytes, other: bytes, f: ResultFormats)
      returns (states': seq<Session>, steps': seq<Step>)
    requires IsRun(states, steps) && CopyFree(steps, |steps|) && Rested(Last(states))
    requires Record(Last(states).t, Bind(name, other, f)).Ok?
    ensures IsRun(states', steps') && CopyFree(steps', |steps'|) && Rested(Last(states'))
    ensures Last(states').q.log == Last(states).q.log + [RefusedBind(name, other, f)]
    ensures Last(states').q.taken == Last(states).q.taken
    ensures Last(states').t == Record(Last(states).t, RefusedBind(name, other, f)).value
  {
    assert Last(states).q.down + [] == Last(states).q.down;
    states', steps' := RefuseStep(states, steps, name, other, f);
    states', steps' := ConsumeStep(states', steps', Succeeds);
  }

  lemma {:induction false} ResyncQueue(q: Queue)
    requires Quiescent(q, q.log, Skipping) && q.tags == []
    ensures var n := |q.log|;
            var r := Handle(Advance(Send(q, Sync), [ReadyForQuery(n)], Normal));
            Quiescent(r, q.log + [Sync], Normal) && r.taken == q.taken
  {
    var n := |q.log|;
    assert (q.log + [Sync])[n] == Sync && [] + [n] == [n];
    SingleMarker(q.log + [Sync], n);
    assert ([] + [ReadyForQuery(n)])[1..] == [];
  }

  /** A Sync ends the discarding. */
  lemma {:induction false} Resync(states: seq<Session>, steps: seq<Step>)
      returns (states': seq<Session>, steps': seq<Step>)
    requires IsRun(states, steps) && CopyFree(steps, |steps|)
    requires Discarding(Last(states)) && Last(states).t.pending == []
    ensures IsRun(states', steps') && CopyFree(steps', |steps'|) && Rested(Last(states'))
    ensures Last(states').q.log == Last(states).q.log + [Sync] && Last(states').q.taken == Last(states).q.taken
    ensures Last(states').t == Last(states).t
  {
    var s := Last(states);
    RunsCoupled(states, steps, |states| - 1);
    assert s.q.tags == [];
    ResyncQueue(s.q);
    ExchangedEmpty(s.t, Sync);
    assert (s.q.log + [Sync])[|s.q.log|] == Sync;
    states', steps' := SendStep(states, steps, Sync);
    states', steps' := ConsumeStep(states', steps', Succeeds);
    states', steps' := HandleStep(states', steps', NoRows);
  }

  /** The backend fails a Bind; a Sync ends the batch, and a Query follows. */
  lemma {:induction false} FailBind(states: seq<Session>, steps: seq<Step>, bind: Frame)
      returns (states': seq<Session>, steps': seq<Step>)
    requires IsRun(states, steps) && CopyFree(steps, |steps|) && Rested(Last(states))
    requires bind.Bind? && Record(Last(states).t, bind).Ok?
    ensures IsRun(states', steps') && CopyFree(steps', |steps'|) && Rested(Last(states'))
    ensures Last(states').q.log == Last(states).q.log + [bind] + [Sync] + [Query]
    ensures Last(states').q.taken == Last(states).q.taken
    ensures Last(states').t == Record(Last(states).t, bind).value
  {
    states', steps' := Failure(states, steps, bind);
    states', steps' := Resync(states', steps');
    ExchangedEmpty(Last(states').t, Query);
    states', steps' := Exchange(states', steps', Query);
  }

  /** The client executes a portal, and the backend returns one row. */
  lemma {:induction false} OneRow(states: seq<Session>, steps: seq<Step>, name: bytes)
      returns (states': seq<Session>, steps': seq<Step>)
    requires IsRun(states, steps) && CopyFree(steps, |steps|) && Rested(Last(states))
    ensures IsRun(states', steps') && CopyFree(steps', |steps'|)
    ensures var s := Last(states);
            RowNext(Last(states'), s.q.log, s.q.taken, name, ExecuteEntry(s.t, name))
  {
    var n := |Last(states).q.log|;
    states', steps' := SendStep(states, steps, Execute(name));
    assert (Last(states).q.log + [Execute(name)])[n] == Execute(name);
    assert Rows(n, 1) == [DataRow(n)] + Rows(n, 0);
    states', steps' := ConsumeStep(states', steps', Returns(1));
  }

  // ---------------------------------------------------------------- a Bind without effect

  /** A Bind of another request was recorded at `at` and had no effect: the Execute at `r` is not attributed
      as the backend executes it. */
  lemma {:induction false} BindDiffers(log: Log, later: Log, taken: set<nat>, name: bytes, r: nat)
    requires log <= later && |log| < r < |later| && later[r] == Execute(name)
    requires HeldAt(log, taken, |log|, name).Some? && (forall k | k in taken :: k < |log|)
    requires var u := HeldAt(log, taken, |log|, name).value;
             && Planned(log, taken, u).Some? && Binds(later[|log|]) && later[|log|].portal == name
             && (later[|log|].statement != log[u].statement || later[|log|].formats != log[u].formats)
    requires forall k | |log| < k < r :: IsBoundary(later[k])
    ensures Executed(later, taken, r).Some? && !Attributed(later, taken, r)
  {
    var u := HeldAt(log, taken, |log|, name).value;
    HeldLater(log, later, taken, taken, |log|, name);
    ParsedLater(log, later, taken, taken, u, log[u].statement);
    HeldSkips(later, taken, |log|, r, name);
    LastBound(later, |log|, r, name);
    assert Rebinds(later[|log|], later[u].portal);
    AttributedIff(later, taken, r);
  }

  lemma {:induction false} LastBound(log: Log, b: nat, r: nat, name: bytes)
    requires b < r <= |log| && Binds(log[b]) && log[b].portal == name && forall k | b < k < r :: IsBoundary(log[k])
    ensures PortalAt(log, r, name) == Some(b)
  {
    if b + 1 < r {
      LastBound(log, b, r - 1, name);
    }
  }

  /** In any session so prepared, let the write path refuse a Bind of portal `name` to another statement or
      other formats, and let the client execute the portal. The backend returns a row of the portal
      it holds; the tracker reads it with the description and formats of the refused Bind. */
  lemma {:induction false} RefusedBindMisattributes(
      states: seq<Session>, steps: seq<Step>, name: bytes, other: bytes, p: Described, f: ResultFormats)
      returns (states': seq<Session>, steps': seq<Step>)
    requires IsRun(states, steps) && CopyFree(steps, |steps|) && Prepared(Last(states), name, other, p)
    requires Record(Last(states).t, Bind(name, other, f)).Ok?
    requires HeldBind(Last(states), name).statement != other || HeldBind(Last(states), name).formats != f
    ensures IsRun(states', steps') && CopyFree(steps', |steps'|)
    ensures Last(states').q.log == Last(states).q.log + [RefusedBind(name, other, f)] + [Execute(name)]
    ensures Misread(Last(states'), FromPortal(p, f))
  {
    var log := Last(states).q.log;
    TakenBounded(states, steps, |states| - 1);
    states', steps' := Refuse(states, steps, name, other, f);
    var bound := Last(states');
    states', steps' := OneRow(states', steps', name);
    BindDiffers(log, Last(states').q.log, bound.q.taken, name, |log| + 1);
    RowIsMisread(Last(states'), bound.q.log, bound.q.taken, name, ExecuteEntry(bound.t, name));
  }

  /** The same of a Bind that is forwarded and that the backend fails, as it must when a portal of that
      name exists: the Sync ends the batch, a Query rolls back to a savepoint, and the portal the
      backend still holds is executed. */
  lemma {:induction false} FailedBindMisattributes(
      states: seq<Session>, steps: seq<Step>, name: bytes, other: bytes, p: Described, f: ResultFormats)
      returns (states': seq<Session>, steps': seq<Step>)
    requires IsRun(states, steps) && CopyFree(steps, |steps|) && Prepared(Last(states), name, other, p)
    requires Record(Last(states).t, Bind(name, other, f)).Ok?
    requires HeldBind(Last(states), name).statement != other || HeldBind(Last(states), name).formats != f
    ensures IsRun(states', steps') && CopyFree(steps', |steps'|)
    ensures Last(states').q.log == Last(states).q.log + [Bind(name, other, f)] + [Sync] + [Query] + [Execute(name)]
    ensures Misread(Last(states'), FromPortal(p, f))
  {
    var log := Last(states).q.log;
    TakenBounded(states, steps, |states| - 1);
    states', steps' := FailBind(states, steps, Bind(name, other, f));
    var bound := Last(states');
    states', steps' := OneRow(states', steps', name);
    BindDiffers(log, Last(states').q.log, bound.q.taken, name, |log| + 3);
    RowIsMisread(Last(states'), bound.q.log, bound.q.taken, name, ExecuteEntry(bound.t, name));
  }

  // ---------------------------------------------------------------- a Parse after the Bind

  /** A Parse of the statement's name and a Describe of it follow the Bind, with effect: the Execute runs
      what the Bind planned, and the Describe is about the new incarnation. */
  lemma {:induction false} ParseDiffers(log: Log, later: Log, taken: set<nat>, name: bytes)
    requires HeldAt(log, taken, |log|, name).Some? && (forall k | k in taken :: k < |log|)
    requires var u := HeldAt(log, taken, |log|, name).value;
             && Planned(log, taken, u).Some? && PortalAt(log, |log|, name) == Some(u)
             && |later| == |log| + 3 && log <= later
             && later[|log|].Parse? && later[|log|].statement == log[u].statement
             && later[|log| + 1] == Describe(StatementTarget, log[u].statement)
             && later[|log| + 2] == Execute(name)
    ensures var taken', d, r := taken + {|log|}, |log| + 1, |log| + 2;
            && Executed(later, taken', r).Some? && !Attributed(later, taken', r)
            && ExecuteTarget(later, r) == Some(|log|) && !DescribesExecuted(later, taken', d, r)
  {
    var taken', r := taken + {|log|}, |log| + 2;
    var u := HeldAt(log, taken, |log|, name).value;
    HeldLater(log, later, taken, taken', |log|, name);
    ParsedLater(log, later, taken, taken', u, log[u].statement);
    assert HeldAt(later, taken', |log| + 1, name) == Some(u);
    assert HeldAt(later, taken', r, name) == Some(u);
    RecordedNames(log, later, |log|, name);
    assert PortalAt(later, |log| + 1, name) == Some(u) && PortalAt(later, r, name) == Some(u);
    assert StatementAt(later, |log| + 1, log[u].statement) == Some(|log|);
    assert ParsedAt(later, taken', |log| + 1, log[u].statement) == Some(|log|);
  }

  lemma {:induction false} RecordedNames(log: Log, later: Log, n: nat, name: bytes)
    requires n <= |log| && log <= later
    ensures PortalAt(later, n, name) == PortalAt(log, n, name)
    decreases |later| - |log|
  {
    if |log| < |later| {
      PastNames(log, later[|log|], n, name);
      RecordedNames(log + [later[|log|]], later, n, name);
    } else {
      assert later == log;
    }
  }

  /** In any session in which the backend holds portal `name` as the tracker has it recorded, let the
      client parse the portal's statement name again and describe it, and then execute the portal, as
      it may with the unnamed statement. The backend returns a row of the statement it planned at the
      Bind; the tracker reads it with the description of the new one. */
  lemma {:induction false} ReparseMisattributes(
      states: seq<Session>, steps: seq<Step>, name: bytes, params: ParamTransforms)
      returns (states': seq<Session>, steps': seq<Step>)
    requires IsRun(states, steps) && CopyFree(steps, |steps|) && Holds(Last(states), name)
    requires var s := Last(states);
             && PortalAt(s.q.log, |s.q.log|, name) == HeldAt(s.q.log, s.q.taken, |s.q.log|, name)
             && HeldBind(s, name).statement in s.t.statements && |HeldBind(s, name).statement| <= MAX_NAME_LEN
    ensures IsRun(states', steps') && CopyFree(steps', |steps'|)
    ensures var s, held := Last(states'), HeldBind(Last(states), name);
            && s.q.log == Last(states).q.log + [Parse(held.statement, params)]
                          + [Describe(StatementTarget, held.statement)] + [Execute(name)]
            && Misread(s, FromPortal(NoRows, held.formats))
            && !DescribesExecuted(s.q.log, s.q.taken, |s.q.log| - 2, |s.q.log| - 1)
  {
    var s0, statement := Last(states), HeldBind(Last(states), name).statement;
    HeldAsRecorded(states, steps, name);
    states', steps' := ParseAgain(states, steps, statement, params, name);
    var again := Last(states');
    states', steps' := OneRow(states', steps', name);
    ReparsedRow(s0, again, Last(states'), name, params);
  }

  /** The tracker has the portal with the statement name and the formats of the Bind the backend took. */
  lemma {:induction false} HeldAsRecorded(states: seq<Session>, steps: seq<Step>, name: bytes)
    requires IsRun(states, steps) && Holds(Last(states), name)
    requires var q := Last(states).q; PortalAt(q.log, |q.log|, name) == HeldAt(q.log, q.taken, |q.log|, name)
    ensures var s, held := Last(states), HeldBind(Last(states), name);
            name in s.t.portals && s.t.portals[name] == Portal(held.statement, held.formats)
    ensures forall k | k in Last(states).q.taken :: k < |Last(states).q.log|
  {
    TakenBounded(states, steps, |states| - 1);
    RunsCoupled(states, steps, |states| - 1);
    assert PortalAgrees(Last(states).t, Last(states).q.log, name);
  }

  lemma {:induction false} ReparsedRow(s0: Session, again: Session, s: Session, name: bytes, params: ParamTransforms)
    requires Holds(s0, name) && (forall k | k in s0.q.taken :: k < |s0.q.log|)
    requires PortalAt(s0.q.log, |s0.q.log|, name) == HeldAt(s0.q.log, s0.q.taken, |s0.q.log|, name)
    requires var held := HeldBind(s0, name);
             && again.q.log == s0.q.log + [Parse(held.statement, params)] + [Describe(StatementTarget, held.statement)]
             && again.q.taken == s0.q.taken + {|s0.q.log|}
    requires var e := ExecuteEntry(again.t, name);
             RowNext(s, again.q.log, again.q.taken, name, e) && e.positions.Some?
    ensures var e := ExecuteEntry(again.t, name); Misread(s, FromPortal(e.positions.value, e.formats))
    ensures !DescribesExecuted(s.q.log, s.q.taken, |s.q.log| - 2, |s.q.log| - 1)
  {
    ParseDiffers(s0.q.log, s.q.log, s0.q.taken, name);
    RowIsMisread(s, again.q.log, again.q.taken, name, ExecuteEntry(again.t, name));
  }

  lemma {:induction false} ParseAgain(
      states: seq<Session>, steps: seq<Step>, statement: bytes, params: ParamTransforms, name: bytes)
      returns (states': seq<Session>, steps': seq<Step>)
    requires IsRun(states, steps) && CopyFree(steps, |steps|) && Rested(Last(states))
    requires var t := Last(states).t;
             && statement in t.statements && |statement| <= MAX_NAME_LEN
             && name in t.portals && t.portals[name].statement == statement
    ensures IsRun(states', steps') && CopyFree(steps', |steps'|) && Rested(Last(states'))
    ensures Last(states').q.log
         == Last(states).q.log + [Parse(statement, params)] + [Describe(StatementTarget, statement)]
    ensures Last(states').q.taken == Last(states).q.taken + {|Last(states).q.log|}
    ensures var e := ExecuteEntry(Last(states').t, name);
            e.positions == Some(NoRows) && e.formats == Last(states).t.portals[name].formats
  {
    DescribedAgain(Last(states).t, statement, params, name);
    states', steps' := Exchange(states, steps, Parse(statement, params));
    states', steps' := Exchange(states', steps', Describe(StatementTarget, statement));
  }

  /** The tracker after the Parse and the Describe have been answered. */
  lemma {:induction false} DescribedAgain(t: Tracked, statement: bytes, params: ParamTransforms, name: bytes)
    requires t.pending == [] && statement in t.statements && |statement| <= MAX_NAME_LEN
    requires name in t.portals && t.portals[name].statement == statement
    ensures Parsed(t, statement, params).Ok?
    ensures var parsed := Parsed(t, statement, params).value;
            && Record(parsed, Describe(StatementTarget, statement)).Ok?
            && var n := Exchanged(parsed, Describe(StatementTarget, statement));
               && n.portals == t.portals
               && ExecuteEntry(n, name).positions == Some(NoRows)
               && ExecuteEntry(n, name).formats == t.portals[name].formats
  {
  }

  // ---------------------------------------------------------------- such sessions exist

  /** A session prepared for the first two, for any two statement names and any portal; by the unnamed
      statement and the unnamed portal it is also one for the third. */
  lemma {:induction false} PreparedRun(
      name: bytes, statement: bytes, other: bytes, params: ParamTransforms, f: ResultFormats)
      returns (states: seq<Session>, steps: seq<Step>)
    requires statement != other && |name| <= MAX_NAME_LEN
    requires |statement| <= MAX_NAME_LEN && |other| <= MAX_NAME_LEN
    ensures IsRun(states, steps) && CopyFree(steps, |steps|) && Prepared(Last(states), name, other, NoRows)
    ensures Last(states).q.log
         == [Parse(statement, params), Parse(other, params), Describe(StatementTarget, other),
             Bind(name, statement, f)]
    ensures var s := Last(states);
            && PortalAt(s.q.log, 4, name) == HeldAt(s.q.log, s.q.taken, 4, name) == Some(3)
            && statement in s.t.statements
  {
    states, steps := DescribedRun(statement, other, params);
    states, steps := Exchange(states, steps, Bind(name, statement, f));
    PreparedNames(Last(states).q.log, Last(states).q.taken, name, statement);
  }

  lemma {:induction false} DescribedRun(statement: bytes, other: bytes, params: ParamTransforms)
      returns (states: seq<Session>, steps: seq<Step>)
    requires statement != other && |statement| <= MAX_NAME_LEN && |other| <= MAX_NAME_LEN
    ensures IsRun(states, steps) && CopyFree(steps, |steps|) && Rested(Last(states))
    ensures var t := Last(states).t;
            && t.portals == map[] && statement in t.statements
            && other in t.statements && t.statements[other].described == Some(NoRows)
    ensures Last(states).q.log
         == [Parse(statement, params), Parse(other, params), Describe(StatementTarget, other)]
    ensures Last(states).q.taken == {0, 1}
  {
    states, steps := [Start], [];
    states, steps := Exchange(states, steps, Parse(statement, params));
    states, steps := Exchange(states, steps, Parse(other, params));
    states, steps := Exchange(states, steps, Describe(StatementTarget, other));
  }

  lemma {:induction false} PreparedNames(log: Log, taken: set<nat>, name: bytes, statement: bytes)
    requires |log| == 4 && taken == {0, 1, 3} && log[0].Parse? && log[0].statement == statement
    requires log[1].Parse? && log[1].statement != statement && log[2].Describe?
    requires log[3].Bind? && log[3].portal == name && log[3].statement == statement
    ensures HeldAt(log, taken, 4, name) == Some(3) && Planned(log, taken, 3) == Some(0)
    ensures PortalAt(log, 4, name) == Some(3)
  {
    assert ParsedAt(log, taken, 1, statement) == Some(0);
    assert ParsedAt(log, taken, 2, statement) == Some(0);
    assert ParsedAt(log, taken, 3, statement) == Some(0);
  }
}
