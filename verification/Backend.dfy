/** A pipelining PostgreSQL backend, consuming the recorded history frame by frame.

    It follows sections 55.2.3, 55.2.4 and 55.2.6 of the PostgreSQL 16 documentation: it answers in
    order; after an error in an extended-protocol message it discards everything up to the next
    Sync; during copy-in it ignores Flush and Sync, and any other frame that is not a copy frame
    aborts the copy. Nothing is asked of the client here: every frame may follow every other. */
module Backend {
  import opened Resolution
  import opened Frames

  type Log = seq<Frame>

  /** `CopyIn`: fed by the client on behalf of frame `starter`, since the frame at `since`. */
  datatype Mode = Normal | Skipping | CopyIn(starter: nat, since: nat)

  predicate BatchAt(log: Log, i: nat) { i < |log| && IsBoundary(log[i]) }
  predicate ExecuteAt(log: Log, i: nat) { i < |log| && log[i].Execute? }
  predicate DescribeAt(log: Log, i: nat) { i < |log| && log[i].Describe? }
  predicate QueryAt(log: Log, i: nat) { i < |log| && log[i].Query? }
  predicate TrackedAt(log: Log, i: nat) { i < |log| && IsTracked(log[i]) }

  /** One result set of a simple Query: rows behind their own RowDescription, or a bare command. */
  datatype Item = RowSet(fields: seq<Field>, rows: nat) | Command

  /** What the backend decides about the frame it is consuming. */
  datatype Choice =
    | Succeeds
    | Fails(rows: nat)
    | DescribesRows(fields: seq<Field>)
    | DescribesNothing
    | Returns(rows: nat)
    | StartsCopy(before: seq<Item>)
    | Results(items: seq<Item>, failed: bool)

  function Rows(r: nat, n: nat): (m: seq<Message>) {
    if n == 0 then [] else [DataRow(r)] + Rows(r, n - 1)
  }

  function ItemMessages(r: nat, items: seq<Item>): (m: seq<Message>) {
    if items == [] then []
    else
      (match items[0]
       case RowSet(fields, n) => [RowDescription(r, fields)] + (Rows(r, n) + [Complete(r)])
       case Command => [Complete(r)])
      + ItemMessages(r, items[1..])
  }

  /** The end of a simple Query: an error if it failed, then always ReadyForQuery. */
  function QueryEnd(r: nat, failed: bool): (m: seq<Message>) {
    (if failed then [ErrorResponse(r)] else []) + [ReadyForQuery(r)]
  }

  predicate MayFail(c: Choice) {
    c.Succeeds? || (c.Fails? && c.rows == 0)
  }

  /** The backend may make this choice for the frame at `k`. */
  predicate MayChoose(log: Log, k: nat, mode: Mode, c: Choice)
    requires k < |log|
  {
    match mode
    case Skipping => c.Succeeds?
    case CopyIn(r, _) =>
      (match log[k]
       case CopyData => MayFail(c)
       case CopyDone => if QueryAt(log, r) then c.Results? || c.StartsCopy? || c == Fails(0) else MayFail(c)
       case _ => c.Succeeds?)
    case Normal =>
      (match log[k]
       case Describe(_, _) => c.DescribesRows? || c.DescribesNothing? || c == Fails(0)
       case Execute(_) => c.Returns? || c.Fails? || c == StartsCopy([])
       case Query => c.Results? || c.StartsCopy?
       case _ => if IsExtended(log[k]) || IsBoundary(log[k]) then MayFail(c) else c.Succeeds?)
  }

  /** Frames a backend in copy-in mode passes over. */
  predicate IgnoredInCopy(f: Frame) {
    f.Flush? || f.Sync? || f.RefusedBind?
  }

  /** The copy on behalf of frame `r` is aborted. */
  function Aborted(log: Log, r: nat): (a: (seq<Message>, Mode)) {
    if QueryAt(log, r) then (QueryEnd(r, true), Normal) else ([ErrorResponse(r)], Skipping)
  }

  /** The copy on behalf of frame `r` ends with the CopyDone at `k`. */
  function Copied(log: Log, k: nat, r: nat, c: Choice): (a: (seq<Message>, Mode)) {
    match c
    case Results(items, failed) => ([Complete(r)] + (ItemMessages(r, items) + QueryEnd(r, failed)), Normal)
    case StartsCopy(before) =>
      ([Complete(r)] + (ItemMessages(r, before) + [CopyInResponse(r)]), CopyIn(r, k))
    case _ => ([Complete(r)], Normal)
  }

  /** The messages the backend sends for the frame at `k`, and the mode it continues in. */
  function Respond(log: Log, k: nat, mode: Mode, c: Choice): (a: (seq<Message>, Mode))
    requires k < |log| && MayChoose(log, k, mode, c)
  {
    var f := log[k];
    match mode
    case Skipping => if f.Sync? then ([ReadyForQuery(k)], Normal) else ([], Skipping)
    case CopyIn(r, _) =>
      if IgnoredInCopy(f) || (f.CopyData? && c.Succeeds?) then ([], mode)
      else if f.CopyDone? && !c.Fails? then Copied(log, k, r, c)
      else Aborted(log, r)
    case Normal =>
      (match f
       case Describe(_, _) =>
         (match c
          case DescribesRows(fields) => ([RowDescription(k, fields)], Normal)
          case Fails(_) => ([ErrorResponse(k)], Skipping)
          case _ => ([NoData(k)], Normal))
       case Execute(_) =>
         (match c
          case Returns(n) => (Rows(k, n) + [Complete(k)], Normal)
          case Fails(n) => (Rows(k, n) + [ErrorResponse(k)], Skipping)
          case _ => ([CopyInResponse(k)], CopyIn(k, k)))
       case Query =>
         (match c
          case Results(items, failed) => (ItemMessages(k, items) + QueryEnd(k, failed), Normal)
          case StartsCopy(before) => (ItemMessages(k, before) + [CopyInResponse(k)], CopyIn(k, k))
          case _ => ([], Normal))
       case Sync => (QueryEnd(k, c.Fails?), Normal)
       case FunctionCall => (QueryEnd(k, c.Fails?), Normal)
       case _ => if IsExtended(f) && c.Fails? then ([ErrorResponse(k)], Skipping) else ([], Normal))
  }

  /** The frame at `k` is consumed and no answer to it will ever come, although it was recorded as
      owing one: a Query or FunctionCall discarded behind an error, a Sync ignored during a copy, or
      the frame that aborts a copy. (Describes and Executes discarded behind an error are not
      counted: the ReadyForQuery that ends the discarding settles them.) */
  predicate Loses(log: Log, k: nat, mode: Mode) {
    match mode
    case Normal => false
    case Skipping => BatchAt(log, k) && !log[k].Sync?
    case CopyIn(r, _) => BatchAt(log, k) || (QueryAt(log, r) && TrackedAt(log, k))
  }
}
