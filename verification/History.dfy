/** What statement names and portal names mean at each point of the recorded history, to a reader of
    the records: every Parse, Bind and Close counts, and a portal's statement is looked up when the
    portal is used. These definitions look only at the history, never at the tracker: they are what
    the tracker is proved to compute. `Upstream` is what the same names mean to the backend. */
module History {
  import opened Bytes
  import opened Frames
  import opened Backend

  /** The Parse that statement `name` denotes just before position `n`: the last Parse of that name
      that no Close of it has followed. Its position identifies the incarnation. */
  function StatementAt(log: Log, n: nat, name: bytes): (r: Option<nat>)
    requires n <= |log|
    ensures r.Some? ==> r.value < n && log[r.value].Parse? && log[r.value].statement == name
  {
    if n == 0 then None
    else
      match log[n - 1]
      case Parse(statement, _) => if statement == name then Some(n - 1) else StatementAt(log, n - 1, name)
      case Close(StatementTarget, closed) => if closed == name then None else StatementAt(log, n - 1, name)
      case _ => StatementAt(log, n - 1, name)
  }

  predicate Binds(f: Frame) {
    f.Bind? || f.RefusedBind?
  }

  /** The Bind in force for portal `name` just before position `n`: the last Bind of that name, refused
      or not, that neither a Close of the portal nor a Close of its statement's name has followed. */
  function PortalAt(log: Log, n: nat, name: bytes): (r: Option<nat>)
    requires n <= |log|
    ensures r.Some? ==> r.value < n && Binds(log[r.value]) && log[r.value].portal == name
  {
    if n == 0 then None
    else if Binds(log[n - 1]) && log[n - 1].portal == name then Some(n - 1)
    else
      match log[n - 1]
      case Close(PortalTarget, closed) => if closed == name then None else PortalAt(log, n - 1, name)
      case Close(StatementTarget, closed) =>
        var bound := PortalAt(log, n - 1, name);
        if bound.Some? && log[bound.value].statement == closed then None else bound
      case _ => PortalAt(log, n - 1, name)
  }

  function ParseCount(log: Log, n: nat): (c: nat)
    requires n <= |log|
  {
    if n == 0 then 0 else ParseCount(log, n - 1) + (if log[n - 1].Parse? then 1 else 0)
  }

  function ExecuteCount(log: Log, n: nat): (c: nat)
    requires n <= |log|
  {
    if n == 0 then 0 else ExecuteCount(log, n - 1) + (if log[n - 1].Execute? then 1 else 0)
  }

  /** The incarnation that the portal's statement name denoted when the Execute at `i` was recorded. */
  function ExecuteTarget(log: Log, i: nat): (r: Option<nat>)
    requires ExecuteAt(log, i)
    ensures r.Some? ==> r.value < i && log[r.value].Parse?
  {
    var bound := PortalAt(log, i, log[i].portal);
    if bound.None? then None else StatementAt(log, i, log[bound.value].statement)
  }

  /** The result formats of the Bind in force when the Execute at `i` was recorded. */
  function ExecuteFormats(log: Log, i: nat): (r: ResultFormats)
    requires ExecuteAt(log, i)
  {
    var bound := PortalAt(log, i, log[i].portal);
    if bound.None? then AllText else log[bound.value].formats
  }

  /** The incarnation the Describe at `i` asks about. */
  function DescribeTarget(log: Log, i: nat): (r: Option<nat>)
    requires DescribeAt(log, i)
    ensures r.Some? ==> r.value < i && log[r.value].Parse?
  {
    match log[i].target
    case StatementTarget => StatementAt(log, i, log[i].name)
    case PortalTarget =>
      var bound := PortalAt(log, i, log[i].name);
      if bound.None? then None else StatementAt(log, i, log[bound.value].statement)
  }

  // ---------------------------------------------------------------- the past does not change

  lemma {:induction false} PastNames(log: Log, f: Frame, n: nat, name: bytes)
    requires n <= |log|
    ensures StatementAt(log + [f], n, name) == StatementAt(log, n, name)
    ensures PortalAt(log + [f], n, name) == PortalAt(log, n, name)
  {
    if n > 0 {
      assert (log + [f])[n - 1] == log[n - 1];
      PastNames(log, f, n - 1, name);
    }
  }

  lemma {:induction false} PastCounts(log: Log, f: Frame, n: nat)
    requires n <= |log|
    ensures ParseCount(log + [f], n) == ParseCount(log, n)
    ensures ExecuteCount(log + [f], n) == ExecuteCount(log, n)
  {
    if n > 0 {
      assert (log + [f])[n - 1] == log[n - 1];
      PastCounts(log, f, n - 1);
    }
  }

  lemma {:induction false} PastExecute(log: Log, f: Frame, i: nat)
    requires ExecuteAt(log, i)
    ensures ExecuteAt(log + [f], i)
    ensures ExecuteTarget(log + [f], i) == ExecuteTarget(log, i)
    ensures ExecuteFormats(log + [f], i) == ExecuteFormats(log, i)
  {
    PastNames(log, f, i, log[i].portal);
    var bound := PortalAt(log, i, log[i].portal);
    if bound.Some? {
      PastNames(log, f, i, log[bound.value].statement);
    }
  }

  lemma {:induction false} PastDescribe(log: Log, f: Frame, i: nat)
    requires DescribeAt(log, i)
    ensures DescribeAt(log + [f], i) && DescribeTarget(log + [f], i) == DescribeTarget(log, i)
  {
    PastNames(log, f, i, log[i].name);
    var bound := PortalAt(log, i, log[i].name);
    if bound.Some? {
      PastNames(log, f, i, log[bound.value].statement);
    }
  }

  /** Incarnation ids identify incarnations. */
  lemma {:induction false} ParseCountMonotone(log: Log, i: nat, j: nat)
    requires i <= j <= |log|
    ensures ParseCount(log, i) <= ParseCount(log, j)
    ensures i < j && log[i].Parse? ==> ParseCount(log, i) < ParseCount(log, j)
    ensures ExecuteCount(log, i) <= ExecuteCount(log, j)
    ensures i < j && log[i].Execute? ==> ExecuteCount(log, i) < ExecuteCount(log, j)
    decreases j
  {
    if i < j {
      ParseCountMonotone(log, i, j - 1);
    }
  }
}
