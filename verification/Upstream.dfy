/** What statement names and portal names mean to the backend. Only the Parse, Bind and Close frames
    that have taken effect count (`taken`), and a portal runs what its Bind planned: the statement its
    Bind's statement name denoted at the Bind. Refused, failed and discarded frames mean nothing here,
    and neither does what has become of the statement's name since the Bind. */
module Upstream {
  import opened Bytes
  import opened Frames
  import opened Backend
  import opened History

  /** The Parse that statement `name` denotes to the backend just before position `n`. */
  function ParsedAt(log: Log, taken: set<nat>, n: nat, name: bytes): (r: Option<nat>)
    requires n <= |log|
    ensures r.Some? ==> r.value < n && r.value in taken && log[r.value].Parse? && log[r.value].statement == name
  {
    if n == 0 then None
    else if n - 1 !in taken then ParsedAt(log, taken, n - 1, name)
    else
      match log[n - 1]
      case Parse(statement, _) => if statement == name then Some(n - 1) else ParsedAt(log, taken, n - 1, name)
      case Close(StatementTarget, closed) => if closed == name then None else ParsedAt(log, taken, n - 1, name)
      case _ => ParsedAt(log, taken, n - 1, name)
  }

  /** The incarnation that the Bind at `b` planned. */
  function Planned(log: Log, taken: set<nat>, b: nat): (r: Option<nat>)
    requires b < |log| && log[b].Bind?
    ensures r.Some? ==> r.value < b && log[r.value].Parse? && log[r.value].statement == log[b].statement
  {
    ParsedAt(log, taken, b, log[b].statement)
  }

  /** The Bind whose portal the backend holds under `name` just before position `n`: the last one to take
      effect that neither a Close of the portal nor a Close of the incarnation it planned has
      followed. */
  function HeldAt(log: Log, taken: set<nat>, n: nat, name: bytes): (r: Option<nat>)
    requires n <= |log|
    ensures r.Some? ==> r.value < n && r.value in taken && log[r.value].Bind? && log[r.value].portal == name
  {
    if n == 0 then None
    else
      var held := HeldAt(log, taken, n - 1, name);
      if n - 1 !in taken then held
      else
        match log[n - 1]
        case Bind(portal, _, _) => if portal == name then Some(n - 1) else held
        case Close(PortalTarget, closed) => if closed == name then None else held
        case Close(StatementTarget, closed) =>
          var gone := ParsedAt(log, taken, n - 1, closed);
          if held.Some? && gone.Some? && Planned(log, taken, held.value) == gone then None else held
        case _ => held
  }

  /** The incarnation whose rows the Execute at `i` returns. */
  function Executed(log: Log, taken: set<nat>, i: nat): (r: Option<nat>)
    requires ExecuteAt(log, i)
    ensures r.Some? ==> r.value < i && log[r.value].Parse?
  {
    var held := HeldAt(log, taken, i, log[i].portal);
    if held.None? then None else Planned(log, taken, held.value)
  }

  /** The formats they come in. */
  function ExecutedFormats(log: Log, taken: set<nat>, i: nat): (r: ResultFormats)
    requires ExecuteAt(log, i)
  {
    var held := HeldAt(log, taken, i, log[i].portal);
    if held.None? then AllText else log[held.value].formats
  }

  /** Where the backend looked up the statement that the Describe at `i` is about: at the Describe itself,
      or at the Bind of the portal it names. */
  function AskedAt(log: Log, taken: set<nat>, i: nat): (r: Option<(nat, bytes)>)
    requires DescribeAt(log, i)
    ensures r.Some? ==> r.value.0 <= i
  {
    match log[i].target
    case StatementTarget => Some((i, log[i].name))
    case PortalTarget =>
      var held := HeldAt(log, taken, i, log[i].name);
      if held.None? then None else Some((held.value, log[held.value].statement))
  }

  /** The incarnation the backend describes for the Describe at `i`. */
  function Asked(log: Log, taken: set<nat>, i: nat): (r: Option<nat>)
    requires DescribeAt(log, i)
  {
    var at := AskedAt(log, taken, i);
    if at.None? then None else ParsedAt(log, taken, at.value.0, at.value.1)
  }

  // ---------------------------------------------------------------- what happens to a name

  /** The frame parses or closes statement `name`. */
  predicate Renames(f: Frame, name: bytes) {
    (f.Parse? && f.statement == name) || (f.Close? && f.target.StatementTarget? && f.name == name)
  }

  /** The frame binds or closes portal `name`. */
  predicate Rebinds(f: Frame, name: bytes) {
    (Binds(f) && f.portal == name) || (f.Close? && f.target.PortalTarget? && f.name == name)
  }

  /** Since the Parse at `x` nothing recorded before `n`, refused, failed or discarded as it may have been,
      parses or closes its name. */
  predicate StatementKept(log: Log, x: nat, n: nat)
    requires x < |log| && log[x].Parse? && n <= |log|
  {
    forall j | x < j < n :: !Renames(log[j], log[x].statement)
  }

  /** Since the Bind at `b` nothing recorded before `n` binds or closes its portal. */
  predicate PortalKept(log: Log, b: nat, n: nat)
    requires b < |log| && log[b].Bind? && n <= |log|
  {
    forall j | b < j < n :: !Rebinds(log[j], log[b].portal)
  }

  /** Nothing from `a` up to `b` has parsed or closed `name` with effect. */
  predicate Unchanged(log: Log, taken: set<nat>, a: nat, b: nat, name: bytes)
    requires b <= |log|
  {
    forall j | a <= j < b && j in taken :: !Renames(log[j], name)
  }

  lemma {:induction false} RecordedKept(log: Log, x: nat, n: nat)
    requires x < n <= |log| && log[x].Parse?
    ensures StatementAt(log, n, log[x].statement) == Some(x) <==> StatementKept(log, x, n)
  {
    if x + 1 < n {
      RecordedKept(log, x, n - 1);
      if StatementKept(log, x, n - 1) && !Renames(log[n - 1], log[x].statement) {
        assert StatementKept(log, x, n);
      }
      if Renames(log[n - 1], log[x].statement) {
        assert !StatementKept(log, x, n);
      }
    }
  }

  /** A portal that nothing has rebound is recorded as it was bound, unless its statement was closed. */
  lemma {:induction false} RecordedPortal(log: Log, b: nat, n: nat)
    requires b < n <= |log| && log[b].Bind? && PortalKept(log, b, n)
    ensures var p := PortalAt(log, n, log[b].portal);
            && (p.Some? ==> p.value == b)
            && ((forall j | b < j < n :: !Renames(log[j], log[b].statement)) ==> p == Some(b))
  {
    if b + 1 < n {
      RecordedPortal(log, b, n - 1);
    }
  }

  lemma {:induction false} ParsedUnchanged(log: Log, taken: set<nat>, a: nat, b: nat, name: bytes)
    requires a <= b <= |log| && ParsedAt(log, taken, a, name).Some?
    ensures ParsedAt(log, taken, b, name) == ParsedAt(log, taken, a, name) <==> Unchanged(log, taken, a, b, name)
    decreases b
  {
    if a < b {
      ParsedUnchanged(log, taken, a, b - 1, name);
      if b - 1 in taken && Renames(log[b - 1], name) {
        assert !Unchanged(log, taken, a, b, name);
      } else if Unchanged(log, taken, a, b - 1, name) {
        assert Unchanged(log, taken, a, b, name);
      }
    }
  }

  // ---------------------------------------------------------------- attribution

  /** The records attribute the Execute at `i` to the incarnation and the formats that the backend
      executes. */
  predicate Attributed(log: Log, taken: set<nat>, i: nat)
    requires ExecuteAt(log, i)
  {
    && ExecuteTarget(log, i) == Executed(log, taken, i)
    && ExecuteFormats(log, i) == ExecutedFormats(log, taken, i)
  }

  /** The Bind recorded last asks for the statement name and the formats of the one the backend holds. */
  predicate SameRequest(log: Log, p: Option<nat>, u: nat)
    requires u < |log| && log[u].Bind? && (p.Some? ==> p.value < |log| && Binds(log[p.value]))
  {
    p.Some? && log[p.value].statement == log[u].statement && log[p.value].formats == log[u].formats
  }

  /** An Execute of a portal the backend holds is attributed as the backend executes it exactly when,
      since the Parse that the portal's Bind planned, nothing recorded parses or closes that
      statement's name, and since that Bind nothing recorded binds or closes the portal, or what was
      bound since asks for the same. Refused, failed and discarded frames are recorded like any other. */
  lemma {:induction false} AttributedIff(log: Log, taken: set<nat>, i: nat)
    requires ExecuteAt(log, i)
    ensures var p, u := PortalAt(log, i, log[i].portal), HeldAt(log, taken, i, log[i].portal);
            var x := Executed(log, taken, i);
            Attributed(log, taken, i) <==>
              if x.Some? then
                && StatementKept(log, x.value, i)
                && (PortalKept(log, u.value, i) || SameRequest(log, p, u.value))
              else ExecuteTarget(log, i).None? && ExecuteFormats(log, i) == ExecutedFormats(log, taken, i)
  {
    var x := Executed(log, taken, i);
    if x.Some? {
      var u := HeldAt(log, taken, i, log[i].portal).value;
      RecordedKept(log, x.value, i);
      if PortalKept(log, u, i) {
        RecordedPortal(log, u, i);
      }
      if StatementKept(log, x.value, i) {
        assert forall j | u < j < i :: !Renames(log[j], log[u].statement);
      }
    }
  }

  /** The backend's answer to the Describe at `d` describes what it executes at `i`. */
  predicate DescribesExecuted(log: Log, taken: set<nat>, d: nat, i: nat)
    requires DescribeAt(log, d) && ExecuteAt(log, i)
  {
    Executed(log, taken, i).Some? && Asked(log, taken, d) == Executed(log, taken, i)
  }

  function Earlier(a: nat, b: nat): (r: nat) {
    if a < b then a else b
  }

  function Later(a: nat, b: nat): (r: nat) {
    if a < b then b else a
  }

  /** It does exactly when the Describe and the executed portal's Bind were looked up under the same
      statement name, and that name was neither parsed nor closed with effect between the two. */
  lemma {:induction false} DescribesExecutedIff(log: Log, taken: set<nat>, d: nat, i: nat)
    requires DescribeAt(log, d) && ExecuteAt(log, i)
    ensures var at, u := AskedAt(log, taken, d), HeldAt(log, taken, i, log[i].portal);
            DescribesExecuted(log, taken, d, i) <==>
              && Executed(log, taken, i).Some? && at.Some? && at.value.1 == log[u.value].statement
              && Unchanged(log, taken, Earlier(at.value.0, u.value), Later(at.value.0, u.value), at.value.1)
  {
    var at, x := AskedAt(log, taken, d), Executed(log, taken, i);
    if x.Some? && at.Some? {
      var u := HeldAt(log, taken, i, log[i].portal).value;
      var name := log[u].statement;
      if at.value.1 == name {
        if at.value.0 < u {
          LookedUpEarlier(log, taken, at.value.0, u, name);
        } else {
          ParsedUnchanged(log, taken, u, at.value.0, name);
        }
      }
    }
  }

  lemma {:induction false} LookedUpEarlier(log: Log, taken: set<nat>, a: nat, b: nat, name: bytes)
    requires a <= b <= |log| && ParsedAt(log, taken, b, name).Some?
    ensures ParsedAt(log, taken, a, name) == ParsedAt(log, taken, b, name) <==> Unchanged(log, taken, a, b, name)
  {
    if ParsedAt(log, taken, a, name).Some? {
      ParsedUnchanged(log, taken, a, b, name);
    } else if Unchanged(log, taken, a, b, name) {
      NeverParsed(log, taken, a, b, name);
    }
  }

  lemma {:induction false} NeverParsed(log: Log, taken: set<nat>, a: nat, b: nat, name: bytes)
    requires a <= b <= |log| && ParsedAt(log, taken, a, name).None? && Unchanged(log, taken, a, b, name)
    ensures ParsedAt(log, taken, b, name).None?
    decreases b
  {
    if a < b {
      NeverParsed(log, taken, a, b - 1, name);
    }
  }

  // ---------------------------------------------------------------- later frames

  /** What the backend takes from position `n` on does not change what names meant before it. */
  predicate SameBefore(taken: set<nat>, later: set<nat>, n: nat) {
    forall k | 0 <= k < n :: k in taken <==> k in later
  }

  lemma {:induction false} ParsedLater(
      log: Log, later: Log, taken: set<nat>, taken': set<nat>, n: nat, name: bytes)
    requires n <= |log| && log <= later && SameBefore(taken, taken', n)
    ensures ParsedAt(later, taken', n, name) == ParsedAt(log, taken, n, name)
  {
    if n > 0 {
      ParsedLater(log, later, taken, taken', n - 1, name);
      assert later[n - 1] == log[n - 1] && (n - 1 in taken <==> n - 1 in taken');
    }
  }

  lemma {:induction false} HeldLater(
      log: Log, later: Log, taken: set<nat>, taken': set<nat>, n: nat, name: bytes)
    requires n <= |log| && log <= later && SameBefore(taken, taken', n)
    ensures HeldAt(later, taken', n, name) == HeldAt(log, taken, n, name)
  {
    if n > 0 {
      HeldLater(log, later, taken, taken', n - 1, name);
      assert later[n - 1] == log[n - 1] && (n - 1 in taken <==> n - 1 in taken');
      var held := HeldAt(log, taken, n - 1, name);
      if log[n - 1].Close? && held.Some? {
        ParsedLater(log, later, taken, taken', n - 1, log[n - 1].name);
        ParsedLater(log, later, taken, taken', held.value, log[held.value].statement);
      }
    }
  }

  /** What an Execute executes is fixed once the backend has consumed it. */
  lemma {:induction false} ExecutedLater(log: Log, later: Log, taken: set<nat>, taken': set<nat>, i: nat)
    requires ExecuteAt(log, i) && log <= later && SameBefore(taken, taken', i)
    ensures ExecuteAt(later, i) && Executed(later, taken', i) == Executed(log, taken, i)
    ensures ExecutedFormats(later, taken', i) == ExecutedFormats(log, taken, i)
  {
    HeldLater(log, later, taken, taken', i, log[i].portal);
    var held := HeldAt(log, taken, i, log[i].portal);
    if held.Some? {
      ParsedLater(log, later, taken, taken', held.value, log[held.value].statement);
    }
  }
}
