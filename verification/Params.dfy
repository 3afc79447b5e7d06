/** What Bind must do to each placeholder of a prepared statement. */
module Params {
  import opened Bytes

  datatype RowKeySource = NoRow | Literal(key: bytes) | Param(index: nat, typeOid: nat, column: bytes)

  /** `transform` identifies a transform object: two actions share one exactly when the source's
      `Arc::ptr_eq` holds. */
  datatype ParamAction =
    | Seal(transform: nat, row: RowKeySource)
    | SearchIndex(transform: nat)
    | SearchIndexArray(transform: nat, column: bytes)

  type ParamTransforms = seq<(nat, ParamAction)>

  /** Both actions ask for the same wire value. */
  predicate Agrees(a: ParamAction, b: ParamAction) {
    match (a, b)
    case (Seal(t, left), Seal(u, right)) => t == u && left == right
    case (SearchIndex(t), SearchIndex(u)) => t == u
    case (SearchIndexArray(t, left), SearchIndexArray(u, right)) => t == u && left == right
    case _ => false
  }

  function Find(entries: ParamTransforms, index: nat): (a: Option<ParamAction>)
    ensures a.Some? ==> (index, a.value) in entries
    ensures a.None? ==> forall e | e in entries :: e.0 != index
  {
    if entries == [] then None
    else if entries[0].0 == index then Some(entries[0].1)
    else Find(entries[1..], index)
  }

  /** One call; a conflict names the placeholder, counted from one. */
  function Recorded(entries: ParamTransforms, index: nat, action: ParamAction): (r: Result<ParamTransforms, nat>) {
    match Find(entries, index)
    case Some(existing) => if Agrees(existing, action) then Ok(entries) else Err(index + 1)
    case None => Ok(entries + [(index, action)])
  }

  class Recorder {
    var entries: ParamTransforms

    constructor ()
      ensures entries == []
    {
      entries := [];
    }

    method Record(index: nat, action: ParamAction) returns (r: Result<(), nat>)
      modifies this
      ensures match Recorded(old(entries), index, action)
              case Ok(after) => r == Ok(()) && entries == after
              case Err(e) => r == Err(e) && entries == old(entries)
    {
      var found := Find(entries, index);
      if found.Some? {
        if Agrees(found.value, action) {
          return Ok(());
        }
        return Err(index + 1);
      }
      entries := entries + [(index, action)];
      r := Ok(());
    }
  }

  /** All calls of one statement, in order; the first conflict refuses it. */
  function RecordedAll(calls: ParamTransforms): (r: Result<ParamTransforms, nat>) {
    if calls == [] then Ok([])
    else
      var last := |calls| - 1;
      match RecordedAll(calls[..last])
      case Err(e) => Err(e)
      case Ok(entries) => Recorded(entries, calls[last].0, calls[last].1)
  }

  /** Calls for one placeholder all ask for one thing: the same kind of action with the same transform
      object, and for a sealed value the same source of its row. */
  predicate Consistent(calls: ParamTransforms) {
    forall i, j | 0 <= i < j < |calls| && calls[i].0 == calls[j].0 :: calls[i].1 == calls[j].1
  }

  /** An earlier call had the same placeholder as the last one. */
  predicate LastIsRepeat(calls: ParamTransforms)
    requires calls != []
  {
    exists i | 0 <= i < |calls| - 1 :: calls[i].0 == calls[|calls| - 1].0
  }

  /** The first call for each placeholder, in order. */
  function FirstSeen(calls: ParamTransforms): (r: ParamTransforms) {
    if calls == [] then []
    else
      var last := |calls| - 1;
      if LastIsRepeat(calls) then FirstSeen(calls[..last]) else FirstSeen(calls[..last]) + [calls[last]]
  }

  lemma {:induction false} FirstSeenIsCall(calls: ParamTransforms, e: (nat, ParamAction)) returns (i: nat)
    requires e in FirstSeen(calls)
    ensures i < |calls| && calls[i] == e
  {
    var last := |calls| - 1;
    if e in FirstSeen(calls[..last]) {
      i := FirstSeenIsCall(calls[..last], e);
    } else {
      i := last;
    }
  }

  lemma {:induction false} FirstSeenHas(calls: ParamTransforms, i: nat) returns (e: (nat, ParamAction))
    requires i < |calls|
    ensures e in FirstSeen(calls) && e.0 == calls[i].0
  {
    var last := |calls| - 1;
    if i < last {
      e := FirstSeenHas(calls[..last], i);
    } else if LastIsRepeat(calls) {
      var j :| 0 <= j < last && calls[j].0 == calls[last].0;
      e := FirstSeenHas(calls[..last], j);
    } else {
      e := calls[last];
    }
  }

  /** One entry per placeholder. */
  lemma {:induction false} FirstSeenDistinct(calls: ParamTransforms, i: nat, j: nat)
    requires i < j < |FirstSeen(calls)|
    ensures FirstSeen(calls)[i].0 != FirstSeen(calls)[j].0
  {
    var last := |calls| - 1;
    var before := FirstSeen(calls[..last]);
    if j < |before| {
      FirstSeenDistinct(calls[..last], i, j);
    } else {
      var k := FirstSeenIsCall(calls[..last], before[i]);
      assert calls[k].0 != calls[last].0;
    }
  }

  /** A statement's calls all succeed exactly when the calls for each placeholder agree with each
      other, and what is then recorded is the first call for each, whatever was repeated. */
  lemma {:induction false} RecordsIffConsistent(calls: ParamTransforms)
    ensures RecordedAll(calls).Ok? <==> Consistent(calls)
    ensures RecordedAll(calls).Ok? ==> RecordedAll(calls).value == FirstSeen(calls)
  {
    if calls != [] {
      var last := |calls| - 1;
      RecordsIffConsistent(calls[..last]);
      if Consistent(calls[..last]) {
        FindsRepeat(calls);
        if LastIsRepeat(calls) {
          LastAgrees(calls);
        } else {
          NewPlaceholder(calls);
        }
      }
    }
  }

  /** A conflict is reported for the placeholder, counted from one, of the first call that differs from an
      earlier one. */
  lemma {:induction false} ConflictNamed(calls: ParamTransforms, placeholder: nat) returns (i: nat, j: nat)
    requires RecordedAll(calls) == Err(placeholder)
    ensures i < j < |calls| && calls[i].0 == calls[j].0 && placeholder == calls[j].0 + 1
    ensures calls[i].1 != calls[j].1 && Consistent(calls[..j])
  {
    var last := |calls| - 1;
    RecordsIffConsistent(calls[..last]);
    if RecordedAll(calls[..last]).Err? {
      i, j := ConflictNamed(calls[..last], placeholder);
      assert calls[..last][..j] == calls[..j];
    } else {
      j := last;
      i := FirstSeenIsCall(calls[..last], (calls[last].0, Find(FirstSeen(calls[..last]), calls[last].0).value));
    }
  }

  lemma {:induction false} NewPlaceholder(calls: ParamTransforms)
    requires calls != [] && Consistent(calls[..|calls| - 1]) && !LastIsRepeat(calls)
    ensures Consistent(calls)
  {
    var before := calls[..|calls| - 1];
    forall i, j | 0 <= i < j < |calls| && calls[i].0 == calls[j].0 ensures calls[i].1 == calls[j].1 {
      assert j < |calls| - 1;
      assert before[i] == calls[i] && before[j] == calls[j];
    }
  }

  /** A repeated placeholder is found with one of its earlier calls; a new one is not found. */
  lemma {:induction false} FindsRepeat(calls: ParamTransforms)
    requires calls != []
    ensures var last := |calls| - 1;
            Find(FirstSeen(calls[..last]), calls[last].0).Some? <==> LastIsRepeat(calls)
  {
    var last := |calls| - 1;
    var before := calls[..last];
    var found := Find(FirstSeen(before), calls[last].0);
    if found.Some? {
      var i := FirstSeenIsCall(before, (calls[last].0, found.value));
      assert calls[i].0 == calls[last].0;
    }
    if LastIsRepeat(calls) {
      var i :| 0 <= i < last && calls[i].0 == calls[last].0;
      var e := FirstSeenHas(before, i);
    }
  }

  /** What is recorded for a repeated placeholder agrees with the last call exactly when every earlier
      call for it does. */
  lemma {:induction false} LastAgrees(calls: ParamTransforms)
    requires calls != [] && Consistent(calls[..|calls| - 1]) && LastIsRepeat(calls)
    requires Find(FirstSeen(calls[..|calls| - 1]), calls[|calls| - 1].0).Some?
    ensures var last := |calls| - 1;
            Agrees(Find(FirstSeen(calls[..last]), calls[last].0).value, calls[last].1) <==> Consistent(calls)
  {
    var last := |calls| - 1;
    var before := calls[..last];
    var found := Find(FirstSeen(before), calls[last].0).value;
    var k := FirstSeenIsCall(before, (calls[last].0, found));
    assert calls[k] == (calls[last].0, found);
    if Agrees(found, calls[last].1) {
      forall i, j | 0 <= i < j < |calls| && calls[i].0 == calls[j].0 ensures calls[i].1 == calls[j].1 {
        if j < last {
          assert before[i] == calls[i] && before[j] == calls[j];
        } else {
          assert before[i] == calls[i];
        }
      }
    }
  }
}
