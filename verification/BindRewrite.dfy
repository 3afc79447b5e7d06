/** What the write path makes of a Bind: every parameter that feeds a protected position is sealed or
    indexed, under a row key read from the same Bind, before the Bind is forwarded. */
module BindRewrite {
  import opened Bytes
  import opened Params
  import E = Envelope
  import W = Wire
  import RowKeys
  import Rows

  /** The transforms by number: any at all. `seal` is told which action asks, since sealing a value twice
      gives two different results. */
  datatype Ops = Ops(
    bytea: nat -> bool,
    seal: (nat, nat, bytes, Option<bytes>) -> Result<bytes, E.Error>,
    index: (nat, bytes) -> Result<Option<bytes>, E.Error>,
    indexArray: (nat, bytes, bool) -> Result<Option<bytes>, E.Error>)

  /** Why a Bind is not forwarded. The first two are refusals that the client is told about; the others
      end the session. */
  datatype Stop =
    | UnusableRowKey(placeholder: nat, column: bytes)
    | Unindexed(columns: seq<bytes>)
    | Failed(error: E.Error)
    | OnWire(wireError: W.Error)

  type Values = seq<Option<bytes>>

  // ---------------------------------------------------------------- one parameter

  predicate IsBinary(bind: W.BindBody, index: nat) {
    W.FormatCode(bind.paramFormats, index) == 1
  }

  function ParamKey(bind: W.BindBody, index: nat, typeOid: nat): (r: Result<bytes, E.Error>) {
    var code := W.FormatCode(bind.paramFormats, index);
    if code != 0 && code != 1 then Err(E.RowKeyType)
    else
      RowKeys.Canonical(typeOid, if code == 1 then RowKeys.Binary else RowKeys.Textual,
                        if index < |bind.params| then bind.params[index] else None)
  }

  /** `bind_row_key`. */
  function BoundKey(row: RowKeySource, bind: W.BindBody): (r: Result<Option<bytes>, Stop>) {
    match row
    case NoRow => Ok(None)
    case Literal(key) => Ok(Some(key))
    case Param(index, typeOid, column) =>
      match ParamKey(bind, index, typeOid)
      case Ok(key) => Ok(Some(key))
      case Err(_) => Err(UnusableRowKey(index + 1, column))
  }

  /** `encode_param`: a BYTEA form in a text parameter is hex. */
  function EncodeParam(value: bytes, bytea: bool, binary: bool): (r: bytes) {
    Rows.OnTheWire(value, bytea && !binary)
  }

  /** What action `n` makes of a value; `None` leaves it, as an array that cannot be indexed. */
  function Acted(ops: Ops, bind: W.BindBody, actions: ParamTransforms, n: nat, value: bytes)
    : (r: Result<Option<bytes>, Stop>)
    requires n < |actions|
  {
    var (i, action) := actions[n];
    match action
    case Seal(t, row) =>
      (match BoundKey(row, bind)
       case Err(stop) => Err(stop)
       case Ok(key) =>
         match ops.seal(n, t, value, key)
         case Err(e) => Err(Failed(e))
         case Ok(v) => Ok(Some(EncodeParam(v, ops.bytea(t), IsBinary(bind, i)))))
    case SearchIndex(t) =>
      (match ops.index(t, value)
       case Err(e) => Err(Failed(e))
       case Ok(None) => Err(Failed(E.Malformed))
       case Ok(Some(v)) => Ok(Some(EncodeParam(v, true, IsBinary(bind, i)))))
    case SearchIndexArray(t, _) =>
      match ops.indexArray(t, value, IsBinary(bind, i))
      case Err(e) => Err(Failed(e))
      case Ok(v) => Ok(v)
  }

  // ---------------------------------------------------------------- all of them

  predicate HasValue(values: Values, i: nat) {
    i < |values| && values[i].Some?
  }

  /** The values after the first `n` actions, each computed from the Bind as it arrived, and the columns
      whose array was left. */
  function After(ops: Ops, bind: W.BindBody, actions: ParamTransforms, n: nat): (r: Result<(Values, seq<bytes>), Stop>)
    requires n <= |actions|
    ensures r.Ok? ==> |r.value.0| == |bind.params|
  {
    if n == 0 then Ok((bind.params, []))
    else
      match After(ops, bind, actions, n - 1)
      case Err(stop) => Err(stop)
      case Ok((values, left)) =>
        var (i, action) := actions[n - 1];
        if !HasValue(bind.params, i) then Ok((values, left))
        else
          match Acted(ops, bind, actions, n - 1, bind.params[i].value)
          case Err(stop) => Err(stop)
          case Ok(None) => Ok((values, if action.SearchIndexArray? then left + [action.column] else left))
          case Ok(Some(v)) => Ok((values[i := Some(v)], left))
  }

  /** What is forwarded for a Bind whose statement asks for `known`: `None` relays it as it came. With
      `reject`, a Bind with an array that cannot be indexed is refused. */
  function Rewritten(ops: Ops, reject: bool, bind: W.BindBody, known: Option<ParamTransforms>)
    : (r: Result<Option<bytes>, Stop>)
  {
    if known.None? || known.value == [] then Ok(None)
    else
      match After(ops, bind, known.value, |known.value|)
      case Err(stop) => Err(stop)
      case Ok((values, left)) =>
        if reject && left != [] then Err(Unindexed(left))
        else
          match W.EncodeBind(bind.(params := values))
          case Err(e) => Err(OnWire(e))
          case Ok(body) => Ok(Some(body))
  }

  // ---------------------------------------------------------------- the loop

  predicate DistinctPlaceholders(actions: ParamTransforms) {
    forall i, j | 0 <= i < j < |actions| :: actions[i].0 != actions[j].0
  }

  /** A statement's recorded actions have distinct placeholders. */
  lemma {:induction false} RecordedAreDistinct(calls: ParamTransforms)
    requires RecordedAll(calls).Ok?
    ensures DistinctPlaceholders(RecordedAll(calls).value)
  {
    RecordsIffConsistent(calls);
    forall i, j | 0 <= i < j < |FirstSeen(calls)| ensures FirstSeen(calls)[i].0 != FirstSeen(calls)[j].0 {
      FirstSeenDistinct(calls, i, j);
    }
  }

  /** A parameter whose action is still to come holds what arrived. */
  lemma {:induction false} NotYetActed(ops: Ops, bind: W.BindBody, actions: ParamTransforms, n: nat, i: nat)
    requires n <= |actions| && i < |bind.params| && After(ops, bind, actions, n).Ok?
    requires forall k | 0 <= k < n :: actions[k].0 != i
    ensures After(ops, bind, actions, n).value.0[i] == bind.params[i]
  {
    if n > 0 {
      NotYetActed(ops, bind, actions, n - 1, i);
    }
  }

  lemma {:induction false} StaysStopped(ops: Ops, bind: W.BindBody, actions: ParamTransforms, n: nat, m: nat)
    requires n <= m <= |actions| && After(ops, bind, actions, n).Err?
    ensures After(ops, bind, actions, m) == After(ops, bind, actions, n)
    decreases m
  {
    if n < m {
      StaysStopped(ops, bind, actions, n, m - 1);
    }
  }

  /** One action of the loop, on the value as it stands. */
  method Act(ops: Ops, bind: W.BindBody, actions: ParamTransforms, n: nat, value: bytes)
    returns (r: Result<Option<bytes>, Stop>)
    requires n < |actions|
    ensures r == Acted(ops, bind, actions, n, value)
  {
    var binary := IsBinary(bind, actions[n].0);
    match actions[n].1 {
      case Seal(t, row) =>
        var key := BoundKey(row, bind);
        if key.Err? {
          return Err(key.error);
        }
        match ops.seal(n, t, value, key.value) {
          case Ok(v) => r := Ok(Some(EncodeParam(v, ops.bytea(t), binary)));
          case Err(e) => r := Err(Failed(e));
        }
      case SearchIndex(t) =>
        match ops.index(t, value) {
          case Ok(Some(v)) => r := Ok(Some(EncodeParam(v, true, binary)));
          case Ok(None) => r := Err(Failed(E.Malformed));
          case Err(e) => r := Err(Failed(e));
        }
      case SearchIndexArray(t, _) =>
        match ops.indexArray(t, value, binary) {
          case Ok(v) => r := Ok(v);
          case Err(e) => r := Err(Failed(e));
        }
    }
  }

  /** The loop over a statement's actions, which replaces values in place. */
  method ActAll(ops: Ops, bind: W.BindBody, actions: ParamTransforms) returns (r: Result<(Values, seq<bytes>), Stop>)
    requires DistinctPlaceholders(actions)
    ensures r == After(ops, bind, actions, |actions|)
  {
    var values, left := bind.params, [];
    for n := 0 to |actions|
      invariant After(ops, bind, actions, n) == Ok((values, left))
    {
      var i := actions[n].0;
      if i < |values| && values[i].Some? {
        NotYetActed(ops, bind, actions, n, i);
        var acted := Act(ops, bind, actions, n, values[i].value);
        if acted.Err? {
          StaysStopped(ops, bind, actions, n + 1, |actions|);
          return Err(acted.error);
        }
        if acted.value.Some? {
          values := values[i := acted.value];
        } else if actions[n].1.SearchIndexArray? {
          left := left + [actions[n].1.column];
        }
      } else if i < |values| {
        NotYetActed(ops, bind, actions, n, i);
      }
    }
    r := Ok((values, left));
  }

  method RewriteBind(ops: Ops, reject: bool, bind: W.BindBody, known: Option<ParamTransforms>)
    returns (r: Result<Option<bytes>, Stop>)
    requires known.Some? ==> DistinctPlaceholders(known.value)
    ensures r == Rewritten(ops, reject, bind, known)
  {
    if known.None? || |known.value| == 0 {
      return Ok(None);
    }
    var acted := ActAll(ops, bind, known.value);
    if acted.Err? {
      return Err(acted.error);
    }
    var (values, left) := acted.value;
    if |left| > 0 && reject {
      return Err(Unindexed(left));
    }
    var printed := W.WriteBind(bind.(params := values));
    match printed {
      case Ok(body) => r := Ok(Some(body));
      case Err(e) => r := Err(OnWire(e));
    }
  }

  // ---------------------------------------------------------------- what is forwarded

  /** The key a value is sealed under is that of the row the Bind itself names: none, the statement's
      literal, or the canonical form of another parameter as it arrived. */
  predicate NamesRow(row: RowKeySource, bind: W.BindBody, key: Option<bytes>) {
    match row
    case NoRow => key.None?
    case Literal(k) => key == Some(k)
    case Param(j, typeOid, _) =>
      && HasValue(bind.params, j) && key.Some?
      && exists format | format in {RowKeys.Textual, RowKeys.Binary} ::
           && W.FormatCode(bind.paramFormats, j) == (if format == RowKeys.Binary then 1 else 0)
           && RowKeys.Canonical(typeOid, format, bind.params[j]) == Ok(key.value)
  }

  lemma {:induction false} BoundKeyNamesRow(row: RowKeySource, bind: W.BindBody, key: Option<bytes>)
    ensures BoundKey(row, bind) == Ok(key) <==> NamesRow(row, bind, key)
  {
    if row.Param? {
      var code := W.FormatCode(bind.paramFormats, row.index);
      var format := if code == 1 then RowKeys.Binary else RowKeys.Textual;
      assert format in {RowKeys.Textual, RowKeys.Binary};
    }
  }

  /** `sent` is what the transform made of `value`, in the format the parameter arrived in. */
  ghost predicate SentAs(
    ops: Ops, bind: W.BindBody, actions: ParamTransforms, k: nat, value: bytes, sent: Option<bytes>)
    requires k < |actions|
  {
    var (i, action) := actions[k];
    var binary := W.FormatCode(bind.paramFormats, i) == 1;
    match action
    case Seal(t, row) =>
      exists key {:trigger NamesRow(row, bind, key)} ::
        && NamesRow(row, bind, key) && ops.seal(k, t, value, key).Ok?
        && sent == Some(Rows.OnTheWire(ops.seal(k, t, value, key).value, ops.bytea(t) && !binary))
    case SearchIndex(t) =>
      && ops.index(t, value).Ok? && ops.index(t, value).value.Some?
      && sent == Some(Rows.OnTheWire(ops.index(t, value).value.value, !binary))
    case SearchIndexArray(t, _) =>
      var indexed := ops.indexArray(t, value, binary);
      indexed.Ok? && sent == if indexed.value.Some? then indexed.value else Some(value)
  }

  lemma {:induction false} ActedIsSent(ops: Ops, bind: W.BindBody, actions: ParamTransforms, k: nat, value: bytes)
    requires k < |actions| && Acted(ops, bind, actions, k, value).Ok?
    ensures var o := Acted(ops, bind, actions, k, value).value;
            SentAs(ops, bind, actions, k, value, if o.Some? then o else Some(value))
  {
    if actions[k].1.Seal? {
      var row := actions[k].1.row;
      BoundKeyNamesRow(row, bind, BoundKey(row, bind).value);
    }
  }

  /** Parameter by parameter: those with no action and NULLs are untouched, and every other one is what its
      own action makes of the Bind as it arrived, whatever the other actions do. */
  lemma {:induction false} EachParameterItsOwn(
    ops: Ops, bind: W.BindBody, actions: ParamTransforms, n: nat, i: nat)
    requires n <= |actions| && DistinctPlaceholders(actions) && After(ops, bind, actions, n).Ok? && i < |bind.params|
    ensures var values := After(ops, bind, actions, n).value.0;
            && (bind.params[i].None? ==> values[i].None?)
            && ((forall k | 0 <= k < n :: actions[k].0 != i) ==> values[i] == bind.params[i])
            && (forall k | 0 <= k < n && actions[k].0 == i && bind.params[i].Some? ::
                  SentAs(ops, bind, actions, k, bind.params[i].value, values[i]))
  {
    if n > 0 {
      EachParameterItsOwn(ops, bind, actions, n - 1, i);
      if actions[n - 1].0 == i && bind.params[i].Some? {
        NotYetActed(ops, bind, actions, n - 1, i);
        ActedIsSent(ops, bind, actions, n - 1, bind.params[i].value);
      }
    }
  }

  /** The array of action `k` could not be indexed. */
  predicate LeavesArray(ops: Ops, bind: W.BindBody, actions: ParamTransforms, k: nat)
    requires k < |actions|
  {
    var (i, action) := actions[k];
    action.SearchIndexArray? && HasValue(bind.params, i)
    && ops.indexArray(action.transform, bind.params[i].value, W.FormatCode(bind.paramFormats, i) == 1) == Ok(None)
  }

  /** The columns reported are those whose array was left. */
  lemma {:induction false} LeftExact(ops: Ops, bind: W.BindBody, actions: ParamTransforms, n: nat, column: bytes)
    requires n <= |actions| && After(ops, bind, actions, n).Ok?
    ensures column in After(ops, bind, actions, n).value.1 <==>
              exists k | 0 <= k < n :: LeavesArray(ops, bind, actions, k) && actions[k].1.column == column
  {
    if n > 0 {
      LeftExact(ops, bind, actions, n - 1, column);
      assert LeavesArray(ops, bind, actions, n - 1) && actions[n - 1].1.column == column ==>
          column in After(ops, bind, actions, n).value.1;
    }
  }

  /** `body` is the Bind with its parameters sent as the actions say: each as its own action makes of the
      Bind as it arrived, those without one and NULLs as they came; all else is the same. */
  ghost predicate ForwardedAs(ops: Ops, bind: W.BindBody, actions: ParamTransforms, body: bytes) {
    && W.ParseBind(body).Ok?
    && var sent := W.ParseBind(body).value;
       && sent == bind.(params := sent.params) && |sent.params| == |bind.params|
       && (forall i | 0 <= i < |bind.params| ::
             bind.params[i].None? || (forall k | 0 <= k < |actions| :: actions[k].0 != i) ==>
               sent.params[i] == bind.params[i])
       && (forall k | 0 <= k < |actions| && HasValue(bind.params, actions[k].0) ::
             SentAs(ops, bind, actions, k, bind.params[actions[k].0].value, sent.params[actions[k].0]))
  }

  /** A Bind is relayed as it came only if its statement asks for nothing; whatever is forwarded otherwise is
      forwarded as the actions say, and with no array left where that is to be refused. */
  lemma {:induction false} ForwardedParameters(
    ops: Ops, reject: bool, bind: W.BindBody, actions: ParamTransforms, r: Option<bytes>)
    requires DistinctPlaceholders(actions) && 0 !in bind.portal && 0 !in bind.statement
    requires Rewritten(ops, reject, bind, Some(actions)) == Ok(r)
    ensures r.None? <==> actions == []
    ensures r.Some? ==> ForwardedAs(ops, bind, actions, r.value)
    ensures r.Some? && reject ==> forall k | 0 <= k < |actions| :: !LeavesArray(ops, bind, actions, k)
  {
    if r.Some? {
      var (values, left) := After(ops, bind, actions, |actions|).value;
      W.BindRoundTrip(bind.(params := values));
      forall i | 0 <= i < |bind.params|
        ensures bind.params[i].None? || (forall k | 0 <= k < |actions| :: actions[k].0 != i) ==>
                  values[i] == bind.params[i]
      {
        EachParameterItsOwn(ops, bind, actions, |actions|, i);
      }
      forall k | 0 <= k < |actions| && HasValue(bind.params, actions[k].0)
        ensures SentAs(ops, bind, actions, k, bind.params[actions[k].0].value, values[actions[k].0])
      {
        EachParameterItsOwn(ops, bind, actions, |actions|, actions[k].0);
      }
      forall k | 0 <= k < |actions| && LeavesArray(ops, bind, actions, k) ensures !reject {
        LeftExact(ops, bind, actions, |actions|, actions[k].1.column);
      }
    }
  }

  /** A Bind is refused for its arrays only where that is asked for, and by the columns whose array was left. */
  lemma {:induction false} RefusedForArrays(
    ops: Ops, reject: bool, bind: W.BindBody, actions: ParamTransforms, columns: seq<bytes>)
    requires Rewritten(ops, reject, bind, Some(actions)) == Err(Unindexed(columns))
    ensures reject && columns != []
    ensures forall column :: column in columns <==>
              exists k | 0 <= k < |actions| :: LeavesArray(ops, bind, actions, k) && actions[k].1.column == column
  {
    if After(ops, bind, actions, |actions|).Err? {
      var k := StopsAtFirst(ops, bind, actions, |actions|, Unindexed(columns));
    } else {
      forall column ensures column in columns <==>
          exists k | 0 <= k < |actions| :: LeavesArray(ops, bind, actions, k) && actions[k].1.column == column
      {
        LeftExact(ops, bind, actions, |actions|, column);
      }
    }
  }

  /** The first action that cannot be carried out stops the Bind: a row key that cannot be read refuses it by
      placeholder and column, and what a transform answers ends the session. */
  lemma {:induction false} StopsAtFirst(
    ops: Ops, bind: W.BindBody, actions: ParamTransforms, n: nat, why: Stop) returns (k: nat)
    requires n <= |actions| && After(ops, bind, actions, n) == Err(why)
    ensures k < n && After(ops, bind, actions, k).Ok? && HasValue(bind.params, actions[k].0)
    ensures var (i, action) := actions[k];
            var value, binary := bind.params[i].value, W.FormatCode(bind.paramFormats, i) == 1;
            match action
            case Seal(t, row) =>
              || (row.Param? && why == UnusableRowKey(row.index + 1, row.column)
                  && forall key :: !NamesRow(row, bind, key))
              || (exists key {:trigger NamesRow(row, bind, key)} ::
                    && NamesRow(row, bind, key) && ops.seal(k, t, value, key).Err?
                    && why == Failed(ops.seal(k, t, value, key).error))
            case SearchIndex(t) =>
              why == Failed(if ops.index(t, value).Err? then ops.index(t, value).error else E.Malformed)
              && (ops.index(t, value).Ok? ==> ops.index(t, value).value.None?)
            case SearchIndexArray(t, _) =>
              ops.indexArray(t, value, binary).Err? && why == Failed(ops.indexArray(t, value, binary).error)
  {
    if After(ops, bind, actions, n - 1).Err? {
      k := StopsAtFirst(ops, bind, actions, n - 1, why);
    } else {
      k := n - 1;
      if actions[k].1.Seal? {
        KeyOrNone(actions[k].1.row, bind);
      }
    }
  }

  lemma {:induction false} KeyOrNone(row: RowKeySource, bind: W.BindBody)
    ensures match BoundKey(row, bind)
            case Ok(key) => NamesRow(row, bind, key)
            case Err(why) =>
              && row.Param? && why == UnusableRowKey(row.index + 1, row.column)
              && forall key :: !NamesRow(row, bind, key)
  {
    forall key ensures BoundKey(row, bind) == Ok(key) <==> NamesRow(row, bind, key) {
      BoundKeyNamesRow(row, bind, key);
    }
  }
}
