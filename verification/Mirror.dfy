/** The real queue beside the ideal one: it mirrors it, up to lost and dropped entries, for as long
    as every message is handled in a clear state, and then every message finds its expectation. */
module Mirror {
  import opened Frames
  import opened Backend
  import opened Queue
  import opened QueueProofs

  // ---------------------------------------------------------------- what copy frames drop

  lemma {:induction false} DropMarkersIsSuffix(log: Log, tags: Tags) returns (i: nat)
    ensures i <= |tags| && DropMarkers(log, tags) == tags[i..]
    ensures forall j | 0 <= j < i :: BatchAt(log, tags[j])
  {
    i := 0;
    if tags != [] && BatchAt(log, tags[0]) {
      i := DropMarkersIsSuffix(log, tags[1..]);
      i := i + 1;
    }
  }

  lemma {:induction false} DropBehindIs(log: Log, tags: Tags, e: nat) returns (i: nat, n: nat)
    ensures i + n <= |tags| && DropBehind(log, tags, e) == Cut(tags, i, n)
    ensures forall j | i <= j < i + n :: BatchAt(log, tags[j])
  {
    if tags == [] {
      i, n := 0, 0;
    } else if tags[0] == e {
      n := DropMarkersIsSuffix(log, tags[1..]);
      i := 1;
      CutAfterFirst(tags, n);
    } else {
      i, n := DropBehindIs(log, tags[1..], e);
      CutCons(tags, i, n);
      assert forall j | i <= j < i + n :: tags[1..][j] == tags[j + 1];
      i := i + 1;
    }
  }

  lemma {:induction false} DropBehindHas(log: Log, tags: Tags, e: nat, x: nat)
    ensures x in DropBehind(log, tags, e) ==> x in tags
    ensures x in tags && !BatchAt(log, x) ==> x in DropBehind(log, tags, e)
  {
    var i, n := DropBehindIs(log, tags, e);
    var rest := DropBehind(log, tags, e);
    if x in rest {
      var j :| 0 <= j < |rest| && rest[j] == x;
      assert tags[if j < i then j else j + n] == x;
    }
    if x in tags && !BatchAt(log, x) {
      var j :| 0 <= j < |tags| && tags[j] == x;
      assert rest[if j < i then j else j - n] == x;
    }
  }

  lemma {:induction false} DropBehindRecorded(log: Log, tags: Tags, e: nat)
    requires Recorded(log, tags)
    ensures Recorded(log, DropBehind(log, tags, e))
  {
    var i, n := DropBehindIs(log, tags, e);
  }

  // ---------------------------------------------------------------- steps

  lemma {:induction false} SendKeepsMirror(q: Queue, f: Frame)
    requires Ideal(q) && Mirrors(q) && !OpensCopyPayload(f)
    ensures Mirrors(Send(q, f))
  {
    var n := Send(q, f);
    RecordedGrows(q.log, f, q.tags);
    forall x: nat | Live(n, x)
      ensures AgreeOn(n, x)
    {
      if x < |q.log| {
        SameLive(q, f, x);
      }
    }
  }

  lemma {:induction false} SameLive(q: Queue, f: Frame, x: nat)
    requires Recorded(q.log, q.ideal) && x < |q.log|
    ensures Live(Send(q, f), x) == Live(q, x)
  {
    var n := Send(q, f);
    assert forall b | b in q.ideal :: b in n.ideal && BatchAt(n.log, b) == BatchAt(q.log, b);
    assert forall b | b in n.ideal && b < x :: b in q.ideal;
  }

  lemma {:induction false} PayloadKeepsMirror(q: Queue, f: Frame)
    requires Ideal(q) && Mirrors(q) && OpensCopyPayload(f)
    ensures Mirrors(Send(q, f))
  {
    var n := Send(q, f);
    if q.copy.Copying? && q.copy.execute.Some? {
      var e := q.copy.execute.value;
      DropBehindRecorded(q.log, q.tags, e);
      forall x: nat
        ensures x in n.tags ==> x in q.tags
        ensures x in q.tags && !BatchAt(q.log, x) ==> x in n.tags
      {
        DropBehindHas(q.log, q.tags, e, x);
      }
    }
    RecordedGrows(q.log, f, n.tags);
    forall x: nat | x in n.dropped ensures BatchAt(n.log, x) && (x in n.ideal || x in n.lost) {
      if x in Removed(q.tags, n.tags) {
        assert Live(q, x) && AgreeOn(q, x);
      }
    }
    forall x: nat | Live(n, x)
      ensures AgreeOn(n, x)
    {
      if x < |q.log| {
        SameLive(q, f, x);
      }
    }
  }

  /** A frame the backend has not consumed is still owed its answer. */
  lemma {:induction false} Unconsumed(
      log: Log, k: nat, mode: Mode, tags: Tags, down: seq<Message>, rd: Reader, x: nat)
    requires Explains(log, k, mode, tags, down, rd) && k <= x && TrackedAt(log, x)
    requires BatchAt(log, x) || !mode.Skipping?
    ensures x in tags
    decreases |down|
  {
    if down == [] {
      TrackedFromHas(log, k, x);
      var i := FromMarkerIsSuffix(log, tags);
      var j := FromMarkerIsSuffix(log, TrackedFrom(log, k));
    } else {
      var i := HandleTagsIsSuffix(log, tags, down[0]);
      Unconsumed(log, k, mode, HandleTags(log, tags, down[0]), down[1..], HandleReader(log, rd, down[0]), x);
    }
  }

  lemma {:induction false} ConsumeKeepsMirror(q: Queue, c: Choice)
    requires Ideal(q) && Mirrors(q) && q.consumed < |q.log| && MayChoose(q.log, q.consumed, q.mode, c)
    ensures Mirrors(Consume(q, c))
  {
    var k, n := q.consumed, Consume(q, c);
    if Loses(q.log, k, q.mode) {
      Unconsumed(q.log, k, q.mode, q.ideal, q.down, q.reader, k);
      forall x: nat ensures x in n.ideal <==> x in q.ideal && x != k {
        WithoutHas(q.ideal, k, x);
      }
    }
    forall x: nat | Live(n, x) ensures AgreeOn(n, x) {
      assert Live(q, x) && AgreeOn(q, x);
    }
  }

  // ---------------------------------------------------------------- a message

  lemma {:induction false} FirstIsLeast(tags: Tags, x: nat)
    requires Increasing(tags) && x in tags
    ensures tags[0] <= x
  {
    var i :| 0 <= i < |tags| && tags[i] == x;
  }

  lemma {:induction false} FirstMarkerIsLeast(log: Log, tags: Tags, x: nat)
    requires Increasing(tags) && x in tags && BatchAt(log, x)
    ensures FromMarker(log, tags) != [] && FromMarker(log, tags)[0] <= x
    ensures FromMarker(log, tags)[0] in tags
  {
    var i := FromMarkerIsSuffix(log, tags);
    var j :| 0 <= j < |tags| && tags[j] == x;
  }

  /** With no error unresolved, the frame answered next is at the front of both queues. */
  lemma {:induction false} FrontsAgree(q: Queue)
    requires Ideal(q) && Mirrors(q) && q.down != [] && Clear(q) && !q.reader.err
    requires q.ideal != [] && q.ideal[0] == q.down[0].origin
    ensures q.tags != [] && q.tags[0] == q.ideal[0]
  {
    var r := q.ideal[0];
    assert Live(q, r) && r in q.ideal && r in q.tags;
    FirstIsLeast(q.tags, r);
    var x := q.tags[0];
    assert x in q.tags && Live(q, x);
    if x in q.ideal {
      FirstIsLeast(q.ideal, x);
    }
  }

  /** The first markers of the two queues are the same. */
  lemma {:induction false} MarkersAgree(q: Queue)
    requires Ideal(q) && Mirrors(q) && q.down != [] && Clear(q)
    requires FromMarker(q.log, q.ideal) != [] && FromMarker(q.log, q.ideal)[0] == q.down[0].origin
    ensures FromMarker(q.log, q.tags) != [] && FromMarker(q.log, q.tags)[0] == q.down[0].origin
  {
    var r := q.down[0].origin;
    var i := FromMarkerIsSuffix(q.log, q.ideal);
    assert r in q.ideal && Live(q, r);
    FirstMarkerIsLeast(q.log, q.tags, r);
    var y := FromMarker(q.log, q.tags)[0];
    assert Live(q, y);
    if y in q.ideal {
      FirstMarkerIsLeast(q.log, q.ideal, y);
    }
  }

  /** A message handled in a clear state finds the expectation it answers at the front of the real
      queue. */
  lemma {:induction false} FindsExpectation(q: Queue)
    requires Ideal(q) && Mirrors(q) && q.down != [] && Clear(q)
    ensures Expected(q.log, q.tags, q.reader, q.down[0])
  {
    var m := q.down[0];
    if m.ReadyForQuery? {
      MarkersAgree(q);
    }
    if !q.reader.err && q.ideal != [] && q.ideal[0] == m.origin {
      FrontsAgree(q);
    }
  }

  /** Both queues lose their front. */
  lemma {:induction false} PopKeepsMirror(q: Queue, n: Queue)
    requires Mirrors(q) && Recorded(q.log, q.ideal) && (forall x | x in q.lost :: x !in q.ideal)
    requires q.tags != [] && q.ideal != [] && q.tags[0] == q.ideal[0] && !BatchAt(q.log, q.tags[0])
    requires n.log == q.log && n.tags == q.tags[1..] && n.ideal == q.ideal[1..]
    requires n.lost == q.lost && n.dropped == q.dropped && !q.reader.err && !n.reader.err
    ensures Mirrors(n)
  {
    forall x: nat ensures x in n.tags <==> x in q.tags && x != q.tags[0] {
      SuffixHas(q.tags, 1, x);
      if x in q.tags { FirstIsLeast(q.tags, x); }
    }
    forall x: nat ensures x in n.ideal <==> x in q.ideal && x != q.ideal[0] {
      SuffixHas(q.ideal, 1, x);
      if x in q.ideal { FirstIsLeast(q.ideal, x); }
    }
    assert Live(q, q.tags[0]) && q.tags[0] in q.tags;
    forall x: nat | Live(n, x)
      ensures AgreeOn(n, x)
    {
      assert Live(q, x);
    }
  }

  lemma {:induction false} AfterMarkerHas(log: Log, tags: Tags, r: nat, x: nat)
    requires Increasing(tags) && FromMarker(log, tags) != [] && FromMarker(log, tags)[0] == r
    ensures x in AfterMarker(log, tags) <==> x in tags && r < x
  {
    var i := FromMarkerIsSuffix(log, tags);
    assert tags[i..][1..] == tags[i + 1..];
    SuffixHas(tags, i + 1, x);
  }

  /** The queues of `n` are what those of `q` held behind frame `r`. */
  ghost predicate LeftBehind(q: Queue, n: Queue, r: nat) {
    && n.log == q.log && n.lost == q.lost && n.dropped == q.dropped && Recorded(n.log, n.tags)
    && (forall x: nat :: x in n.tags <==> x in q.tags && r < x)
    && (forall x: nat :: x in n.ideal <==> x in q.ideal && r < x)
  }

  lemma {:induction false} ReadyKeepsMirror(q: Queue)
    requires Ideal(q) && Mirrors(q) && q.down != [] && Clear(q) && q.down[0].ReadyForQuery?
    ensures Mirrors(Handle(q))
  {
    var r, n := q.down[0].origin, Handle(q);
    MarkersAgree(q);
    var i := HandleTagsIsSuffix(q.log, q.tags, q.down[0]);
    forall x: nat
      ensures x in n.tags <==> x in q.tags && r < x
      ensures x in n.ideal <==> x in q.ideal && r < x
    {
      AfterMarkerHas(q.log, q.tags, r, x);
      AfterMarkerHas(q.log, q.ideal, r, x);
    }
    ReadyDrops(q, n, r);
  }

  /** The batch of frame `r` has been answered: what is left agrees. */
  lemma {:induction false} ReadyDrops(q: Queue, n: Queue, r: nat)
    requires Ideal(q) && Mirrors(q) && q.down != [] && Clear(q) && q.down[0] == ReadyForQuery(r)
    requires LeftBehind(q, n, r) && !n.reader.err
    ensures Mirrors(n)
  {
    var j := FromMarkerIsSuffix(q.log, q.ideal);
    assert r in q.ideal;
    forall x: nat | x in n.dropped ensures BatchAt(n.log, x) && (x in n.ideal || x in n.lost) {
      if x in q.ideal {
        FirstMarkerIsLeast(q.log, q.ideal, x);
      }
    }
    forall x: nat | Live(n, x)
      ensures AgreeOn(n, x)
    {
      if r < x {
        assert Live(q, x);
      }
    }
  }

  /** An error empties nothing that still matters. */
  lemma {:induction false} ErrorKeepsMirror(q: Queue)
    requires Ideal(q) && Mirrors(q) && q.down != [] && Clear(q) && !q.reader.err
    requires q.down[0].ErrorResponse? && Handle(q).reader.err
    ensures Mirrors(Handle(q))
  {
    var n := Handle(q);
    var i := HandleTagsIsSuffix(q.log, q.tags, q.down[0]);
    forall x: nat | x in n.dropped ensures BatchAt(n.log, x) && (x in n.ideal || x in n.lost) {
      PopExecuteHas(q.log, q.ideal, x);
    }
    forall x: nat | Live(n, x) ensures AgreeOn(n, x) {
      assert Live(q, x) && AgreeOn(q, x);
      PopExecuteHas(q.log, q.tags, x);
      PopExecuteHas(q.log, q.ideal, x);
      if !BatchAt(q.log, x) {
        var b :| b in n.ideal && BatchAt(n.log, b) && b < x;
        FrontIsDead(q, b, x);
      }
    }
  }

  lemma {:induction false} PopExecuteHas(log: Log, tags: Tags, x: nat)
    requires Increasing(tags)
    ensures x in PopExecute(log, tags) ==> x in tags
    ensures x in tags && (BatchAt(log, x) || x != tags[0]) ==> x in PopExecute(log, tags)
  {
    if tags != [] && ExecuteAt(log, tags[0]) {
      SuffixHas(tags, 1, x);
      if x in tags {
        FirstIsLeast(tags, x);
      }
    }
  }

  lemma {:induction false} FrontIsDead(q: Queue, b: nat, x: nat)
    requires Ideal(q) && Mirrors(q) && q.down != [] && Clear(q) && !q.reader.err && q.down[0].ErrorResponse?
    requires b in q.ideal && BatchAt(q.log, b) && b < x
    ensures q.tags != [] && q.ideal != [] && x != q.tags[0] && x != q.ideal[0]
  {
    FirstIsLeast(q.ideal, b);
    if TrackedAt(q.log, q.down[0].origin) {
      FrontsAgree(q);
    } else {
      FirstMarkerIsLeast(q.log, q.ideal, b);
      var first := FromMarker(q.log, q.ideal)[0];
      assert Live(q, first) && first in q.tags;
      FirstIsLeast(q.tags, first);
    }
  }

  /** Handling a message in a clear state keeps the mirror. */
  lemma {:induction false} HandleKeepsMirror(q: Queue)
    requires Ideal(q) && Mirrors(q) && q.down != [] && Clear(q)
    ensures Mirrors(Handle(q))
  {
    var m, n := q.down[0], Handle(q);
    HandleKeepsIdeal(q);
    FindsExpectation(q);
    if m.ReadyForQuery? {
      ReadyKeepsMirror(q);
    } else if m.ErrorResponse? && n.reader.err {
      ErrorKeepsMirror(q);
    } else if n.ideal != q.ideal {
      PopKeepsMirror(q, n);
    } else {
      assert n.tags == q.tags;
      forall x: nat | Live(n, x) ensures Live(q, x) {
      }
    }
  }

  // ---------------------------------------------------------------- what is owed

  /** A ReadyForQuery for the batch-ending frame at `x` is still to be handled: it is in flight, or the
      frame is a Query whose copy is in progress, or the backend has not consumed the frame. */
  predicate OwedAt(q: Queue, x: nat) {
    || ReadyForQuery(x) in q.down
    || (q.mode.CopyIn? && q.mode.starter == x && QueryAt(q.log, x))
    || (q.consumed <= x && BatchAt(q.log, x))
  }

  lemma {:induction false} ExplainedMarkers(
      log: Log, k: nat, mode: Mode, tags: Tags, down: seq<Message>, rd: Reader, x: nat)
    requires Explains(log, k, mode, tags, down, rd) && Increasing(tags) && BatchAt(log, x)
    ensures x in tags <==>
              || ReadyForQuery(x) in down || (mode.CopyIn? && mode.starter == x && QueryAt(log, x))
              || k <= x
    decreases |down|
  {
    if down == [] {
      TrackedFromHas(log, k, x);
      var i := FromMarkerIsSuffix(log, tags);
      var j := FromMarkerIsSuffix(log, TrackedFrom(log, k));
      InFromMarker(log, tags, x);
      InFromMarker(log, TrackedFrom(log, k), x);
    } else {
      var m := down[0];
      var i := HandleTagsIsSuffix(log, tags, m);
      SuffixHas(tags, i, x);
      ExplainedMarkers(log, k, mode, HandleTags(log, tags, m), down[1..], HandleReader(log, rd, m), x);
      HandledMarker(log, tags, rd, m, x);
    }
  }

  lemma {:induction false} InFromMarker(log: Log, tags: Tags, x: nat)
    requires BatchAt(log, x)
    ensures x in tags <==> x in FromMarker(log, tags)
  {
    if tags != [] && !BatchAt(log, tags[0]) {
      InFromMarker(log, tags[1..], x);
    }
  }

  /** Handling a message removes a marker exactly when it is that marker's ReadyForQuery. */
  lemma {:induction false} HandledMarker(log: Log, tags: Tags, rd: Reader, m: Message, x: nat)
    requires Expected(log, tags, rd, m) && Increasing(tags) && BatchAt(log, x)
    ensures x in tags <==> x in HandleTags(log, tags, m) || m == ReadyForQuery(x)
    ensures m == ReadyForQuery(x) ==> x !in HandleTags(log, tags, m)
  {
    if m.ReadyForQuery? {
      AfterMarkerHas(log, tags, m.origin, x);
      if x in tags {
        FirstMarkerIsLeast(log, tags, x);
      }
      var i := FromMarkerIsSuffix(log, tags);
    }
  }

  /** The markers of the ideal queue are the ReadyForQuery messages still owed. */
  lemma {:induction false} IdealIsOwed(q: Queue, x: nat)
    requires Ideal(q) && BatchAt(q.log, x)
    ensures x in q.ideal <==> OwedAt(q, x)
  {
    ExplainedMarkers(q.log, q.consumed, q.mode, q.ideal, q.down, q.reader, x);
  }
}
