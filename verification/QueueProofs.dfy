/** The ideal queue explains every message, whatever client and backend do; and the real queue
    mirrors it for as long as no message is handled out of place. */
module QueueProofs {
  import opened Bytes
  import opened Resolution
  import opened Frames
  import opened Backend
  import opened Queue

  // ---------------------------------------------------------------- growing the history

  lemma {:induction false} CutCons<T>(s: seq<T>, i: nat, n: nat)
    requires s != [] && i + n < |s|
    ensures [s[0]] + Cut(s[1..], i, n) == Cut(s, i + 1, n)
  {
  }

  lemma {:induction false} CutAfterFirst<T>(s: seq<T>, n: nat)
    requires s != [] && n < |s|
    ensures [s[0]] + s[1..][n..] == Cut(s, 1, n)
  {
  }

  lemma {:induction false} TrackedFromGrows(log: Log, f: Frame, k: nat)
    requires k <= |log|
    ensures TrackedFrom(log + [f], k) == TrackedFrom(log, k) + Added(log, f)
    decreases |log| - k
  {
    if k < |log| {
      TrackedFromGrows(log, f, k + 1);
    } else {
      assert TrackedFrom(log + [f], k + 1) == [];
    }
  }

  lemma {:induction false} TrackedFromKinds(log: Log, k: nat)
    ensures forall i | 0 <= i < |TrackedFrom(log, k)| ::
              k <= TrackedFrom(log, k)[i] && TrackedAt(log, TrackedFrom(log, k)[i])
    decreases |log| - k
  {
    if k < |log| {
      TrackedFromKinds(log, k + 1);
    }
  }

  lemma {:induction false} TrackedFromHas(log: Log, k: nat, x: nat)
    ensures x in TrackedFrom(log, k) <==> k <= x && TrackedAt(log, x)
    decreases |log| - k
  {
    if k < |log| {
      TrackedFromHas(log, k + 1, x);
    }
  }

  lemma {:induction false} FromMarkerGrows(log: Log, f: Frame, tags: Tags, x: Tags)
    requires forall i | 0 <= i < |tags| :: TrackedAt(log, tags[i])
    ensures FromMarker(log + [f], tags + x)
         == if FromMarker(log, tags) == [] then FromMarker(log + [f], x) else FromMarker(log, tags) + x
  {
    if tags == [] {
      assert tags + x == x;
    } else {
      assert (tags + x)[1..] == tags[1..] + x;
      assert BatchAt(log + [f], tags[0]) == BatchAt(log, tags[0]);
      if !BatchAt(log, tags[0]) {
        FromMarkerGrows(log, f, tags[1..], x);
      }
    }
  }

  lemma {:induction false} FromMarkerIsSuffix(log: Log, tags: Tags) returns (i: nat)
    ensures i <= |tags| && FromMarker(log, tags) == tags[i..]
    ensures forall j | 0 <= j < i :: !BatchAt(log, tags[j])
  {
    if tags == [] || BatchAt(log, tags[0]) {
      i := 0;
    } else {
      i := FromMarkerIsSuffix(log, tags[1..]);
      i := i + 1;
    }
  }

  lemma {:induction false} AppendAtRest(log: Log, f: Frame, k: nat, mode: Mode, tags: Tags, rd: Reader)
    requires k <= |log| && (forall i | 0 <= i < |tags| :: TrackedAt(log, tags[i]))
    requires AtRest(log, k, mode, tags, rd)
    ensures AtRest(log + [f], k, mode, tags + Added(log, f), rd)
  {
    TrackedFromGrows(log, f, k);
    if mode.Skipping? {
      TrackedFromKinds(log, k);
      FromMarkerGrows(log, f, tags, Added(log, f));
      FromMarkerGrows(log, f, TrackedFrom(log, k), Added(log, f));
    }
  }

  lemma {:induction false} AfterMarkerGrows(log: Log, f: Frame, tags: Tags, x: Tags)
    requires forall i | 0 <= i < |tags| :: TrackedAt(log, tags[i])
    requires FromMarker(log, tags) != []
    ensures AfterMarker(log + [f], tags + x) == AfterMarker(log, tags) + x
  {
    FromMarkerGrows(log, f, tags, x);
    var from := FromMarker(log, tags);
    assert (from + x)[1..] == from[1..] + x;
  }

  /** Recording a frame does not change how a message already in flight is handled, unless the
      message is an error that finds the queue empty. */
  lemma {:induction false} HandleTagsGrows(log: Log, f: Frame, tags: Tags, x: Tags, m: Message)
    requires forall i | 0 <= i < |tags| :: TrackedAt(log, tags[i])
    requires tags != [] && (m.ReadyForQuery? ==> FromMarker(log, tags) != [])
    ensures HandleTags(log + [f], tags + x, m) == HandleTags(log, tags, m) + x
  {
    if m.ReadyForQuery? {
      AfterMarkerGrows(log, f, tags, x);
    }
  }

  lemma {:induction false} ExpectedGrows(log: Log, f: Frame, tags: Tags, rd: Reader, m: Message)
    requires forall i | 0 <= i < |tags| :: TrackedAt(log, tags[i])
    requires Expected(log, tags, rd, m)
    ensures Expected(log + [f], tags + Added(log, f), rd, m)
    ensures HandleReader(log + [f], rd, m) == HandleReader(log, rd, m)
  {
    if m.ReadyForQuery? {
      FromMarkerGrows(log, f, tags, Added(log, f));
    }
  }

  /** Handling a message leaves a suffix of the queue. */
  lemma {:induction false} HandleTagsIsSuffix(log: Log, tags: Tags, m: Message) returns (i: nat)
    ensures i <= |tags| && HandleTags(log, tags, m) == tags[i..]
  {
    i := FromMarkerIsSuffix(log, tags);
    if m.ReadyForQuery? {
      i := if i < |tags| then i + 1 else i;
    } else {
      i := if HandleTags(log, tags, m) == tags then 0 else 1;
    }
  }

  /** With an error unresolved, only the queue from its first marker on matters. */
  lemma {:induction false} ExplainsUpToMarker(
      log: Log, k: nat, mode: Mode, tags: Tags, tags': Tags, down: seq<Message>, rd: Reader)
    requires rd.err && Explains(log, k, mode, tags, down, rd)
    requires FromMarker(log, tags) == FromMarker(log, tags')
    ensures Explains(log, k, mode, tags', down, rd)
  {
    if down != [] {
      assert down[0].ReadyForQuery?;
      assert HandleTags(log, tags, down[0]) == HandleTags(log, tags', down[0]);
    }
  }

  /** Recording a frame keeps the relation, whatever is in flight. */
  lemma {:induction false} AppendExplains(
      log: Log, f: Frame, k: nat, mode: Mode, tags: Tags, down: seq<Message>, rd: Reader)
    requires k <= |log| && (forall i | 0 <= i < |tags| :: TrackedAt(log, tags[i]))
    requires Explains(log, k, mode, tags, down, rd)
    ensures Explains(log + [f], k, mode, tags + Added(log, f), down, rd)
    decreases |down|
  {
    var log', x := log + [f], Added(log, f);
    if down == [] {
      AppendAtRest(log, f, k, mode, tags, rd);
      return;
    }
    var m := down[0];
    var rest, rd' := HandleTags(log, tags, m), HandleReader(log, rd, m);
    var i := HandleTagsIsSuffix(log, tags, m);
    AppendExplains(log, f, k, mode, rest, down[1..], rd');
    ExpectedGrows(log, f, tags, rd, m);
    if tags != [] {
      HandleTagsGrows(log, f, tags, x, m);
    } else {
      assert m.ErrorResponse? && rest == [] && rest + x == x && tags + x == x;
      assert FromMarker(log', x) == FromMarker(log', HandleTags(log', x, m));
      ExplainsUpToMarker(log', k, mode, x, HandleTags(log', x, m), down[1..], rd');
    }
  }

  // ---------------------------------------------------------------- losing an entry

  lemma {:induction false} WithoutHas(tags: Tags, k: nat, x: nat)
    ensures x in Without(tags, k) <==> x in tags && x != k
  {
    if tags != [] {
      WithoutHas(tags[1..], k, x);
    }
  }

  lemma {:induction false} WithoutRecorded(log: Log, tags: Tags, k: nat)
    requires Recorded(log, tags)
    ensures Recorded(log, Without(tags, k))
  {
    if tags != [] {
      var rest := Without(tags[1..], k);
      WithoutRecorded(log, tags[1..], k);
      forall i | 0 <= i < |rest| ensures tags[0] < rest[i] {
        WithoutHas(tags[1..], k, rest[i]);
      }
    }
  }

  lemma {:induction false} WithoutAbsent(tags: Tags, k: nat)
    requires k !in tags
    ensures Without(tags, k) == tags
  {
    if tags != [] {
      WithoutAbsent(tags[1..], k);
    }
  }

  lemma {:induction false} FromMarkerWithout(log: Log, tags: Tags, k: nat)
    requires FromMarker(log, tags) != [] ==> FromMarker(log, tags)[0] != k
    ensures FromMarker(log, Without(tags, k)) == Without(FromMarker(log, tags), k)
  {
    if tags != [] {
      var rest := Without(tags[1..], k);
      if BatchAt(log, tags[0]) {
        assert FromMarker(log, [tags[0]] + rest) == [tags[0]] + rest;
      } else {
        FromMarkerWithout(log, tags[1..], k);
        assert ([tags[0]] + rest)[1..] == rest;
      }
    }
  }

  lemma {:induction false} FromMarkerSkipsExecute(log: Log, t: Tags)
    ensures FromMarker(log, PopExecute(log, t)) == FromMarker(log, t)
  {
  }

  /** A frame that has not been answered yet may be lost without changing how earlier ones are. */
  lemma {:induction false} LoseExpected(log: Log, tags: Tags, rd: Reader, m: Message, k: nat)
    requires Expected(log, tags, rd, m) && m.origin < k
    ensures Expected(log, Without(tags, k), rd, m)
    ensures !(m.ErrorResponse? && HandleReader(log, rd, m).err) ==>
              HandleTags(log, Without(tags, k), m) == Without(HandleTags(log, tags, m), k)
  {
    var rest := Without(tags, k);
    if m.ReadyForQuery? {
      FromMarkerWithout(log, tags, k);
      var from := FromMarker(log, tags);
      assert Without(from, k) == [from[0]] + Without(from[1..], k);
    } else if tags != [] && tags[0] == m.origin {
      assert rest == [tags[0]] + Without(tags[1..], k);
      assert rest[1..] == Without(tags[1..], k);
    }
  }

  lemma {:induction false} LosePopped(log: Log, tags: Tags, k: nat)
    ensures FromMarker(log, PopExecute(log, Without(tags, k))) == FromMarker(log, Without(PopExecute(log, tags), k))
  {
    FromMarkerSkipsExecute(log, Without(tags, k));
    if tags != [] && ExecuteAt(log, tags[0]) && tags[0] != k {
      var rest := Without(tags[1..], k);
      assert ([tags[0]] + rest)[1..] == rest;
    }
  }

  // ---------------------------------------------------------------- the backend answers

  /** What the backend adds behind the messages in flight, having consumed frames up to `k'`, is
      explained if it is explained on its own. */
  lemma {:induction false} Extend(
      log: Log, k: nat, k': nat, mode: Mode, tags: Tags, down: seq<Message>, rd: Reader,
      msgs: seq<Message>, mode': Mode, loses: bool)
    requires k <= k' && Explains(log, k, mode, tags, down, rd)
    requires forall t: Tags, d: Reader ::
               AtRest(log, k, mode, t, d) ==> Explains(log, k', mode', Lose(t, k, loses), msgs, d)
    ensures Explains(log, k', mode', Lose(tags, k, loses), down + msgs, rd)
    decreases |down|
  {
    if down == [] {
      assert down + msgs == msgs;
    } else {
      var m := down[0];
      var rest, rd' := HandleTags(log, tags, m), HandleReader(log, rd, m);
      assert (down + msgs)[0] == m && (down + msgs)[1..] == down[1..] + msgs;
      Extend(log, k, k', mode, rest, down[1..], rd', msgs, mode', loses);
      if loses {
        LoseExpected(log, tags, rd, m, k);
        if m.ErrorResponse? && rd'.err {
          LosePopped(log, tags, k);
          ExplainsUpToMarker(log, k', mode', Without(rest, k), HandleTags(log, Without(tags, k), m),
                             down[1..] + msgs, rd');
        }
      }
    }
  }

  lemma {:induction false} ExplainsCons(
      log: Log, k: nat, mode: Mode, tags: Tags, m: Message, rest: seq<Message>, rd: Reader)
    requires m.origin < k && Expected(log, tags, rd, m)
    requires Explains(log, k, mode, HandleTags(log, tags, m), rest, HandleReader(log, rd, m))
    ensures Explains(log, k, mode, tags, [m] + rest, rd)
  {
    assert ([m] + rest)[1..] == rest;
  }

  lemma Associative(a: seq<Message>, b: seq<Message>, c: seq<Message>)
    ensures (a + b) + c == a + (b + c)
  {
  }

  lemma {:induction false} ExplainsRows(
      log: Log, k: nat, mode: Mode, tags: Tags, rd: Reader, r: nat, n: nat, rest: seq<Message>)
    requires r < k && tags != [] && tags[0] == r && !rd.err
    requires ExecuteAt(log, r) || (QueryAt(log, r) && rd.desc == Some(r))
    requires Explains(log, k, mode, tags, rest, rd)
    ensures Explains(log, k, mode, tags, Rows(r, n) + rest, rd)
    decreases n
  {
    if n == 0 {
      assert Rows(r, 0) + rest == rest;
    } else {
      var tail := Rows(r, n - 1) + rest;
      assert Rows(r, n) + rest == [DataRow(r)] + tail by {
        Associative([DataRow(r)], Rows(r, n - 1), rest);
      }
      assert Explains(log, k, mode, tags, [DataRow(r)] + tail, rd) by {
        ExplainsRows(log, k, mode, tags, rd, r, n - 1, rest);
        ExplainsCons(log, k, mode, tags, DataRow(r), tail, rd);
      }
    }
  }

  lemma {:induction false} ExplainsRowSet(
      log: Log, k: nat, mode: Mode, tags: Tags, d: Option<nat>, r: nat, fields: seq<Field>, n: nat,
      rest: seq<Message>)
    requires r < k && tags != [] && tags[0] == r && QueryAt(log, r)
    requires Explains(log, k, mode, tags, rest, Reader(false, None))
    ensures Explains(log, k, mode, tags, [RowDescription(r, fields)] + (Rows(r, n) + ([Complete(r)] + rest)),
                     Reader(false, d))
  {
    var described := Reader(false, Some(r));
    ExplainsCons(log, k, mode, tags, Complete(r), rest, described);
    ExplainsRows(log, k, mode, tags, described, r, n, [Complete(r)] + rest);
    ExplainsCons(log, k, mode, tags, RowDescription(r, fields), Rows(r, n) + ([Complete(r)] + rest),
                 Reader(false, d));
  }

  lemma {:induction false} ExplainsItems(
      log: Log, k: nat, mode: Mode, tags: Tags, d: Option<nat>, r: nat, items: seq<Item>,
      rest: seq<Message>)
    requires r < k && tags != [] && tags[0] == r && QueryAt(log, r)
    requires forall d' :: Explains(log, k, mode, tags, rest, Reader(false, d'))
    ensures Explains(log, k, mode, tags, ItemMessages(r, items) + rest, Reader(false, d))
    decreases |items|
  {
    if items == [] {
      assert ItemMessages(r, items) + rest == rest;
    } else {
      var more := ItemMessages(r, items[1..]);
      ExplainsItems(log, k, mode, tags, None, r, items[1..], rest);
      match items[0]
      case RowSet(fields, n) =>
        assert ItemMessages(r, items) + rest
            == [RowDescription(r, fields)] + (Rows(r, n) + ([Complete(r)] + (more + rest))) by {
          Associative([RowDescription(r, fields)] + (Rows(r, n) + [Complete(r)]), more, rest);
          Associative([RowDescription(r, fields)], Rows(r, n) + [Complete(r)], more + rest);
          Associative(Rows(r, n), [Complete(r)], more + rest);
        }
        ExplainsRowSet(log, k, mode, tags, d, r, fields, n, more + rest);
      case Command =>
        assert ItemMessages(r, items) + rest == [Complete(r)] + (more + rest) by {
          Associative([Complete(r)], more, rest);
        }
        ExplainsCons(log, k, mode, tags, Complete(r), more + rest, Reader(false, d));
    }
  }

  lemma {:induction false} ExplainsQueryEnd(
      log: Log, k: nat, tags: Tags, rd: Reader, r: nat, failed: bool)
    requires r < k && BatchAt(log, r) && !rd.err
    requires tags == [r] + TrackedFrom(log, k)
    ensures Explains(log, k, Normal, tags, QueryEnd(r, failed), rd)
  {
    assert tags[1..] == TrackedFrom(log, k);
    var mid := if failed then Reader(false, None) else rd;
    ExplainsCons(log, k, Normal, tags, ReadyForQuery(r), [], mid);
    assert [ReadyForQuery(r)] + [] == [ReadyForQuery(r)];
    if failed {
      ExplainsCons(log, k, Normal, tags, ErrorResponse(r), [ReadyForQuery(r)], rd);
    } else {
      assert QueryEnd(r, failed) == [ReadyForQuery(r)];
    }
  }

  // ---------------------------------------------------------------- one frame consumed

  /** An extended-protocol frame that fails, behind any rows it returned. */
  lemma {:induction false} ExplainsFailure(log: Log, k: nat, t: Tags, d: Reader, rows: nat)
    requires k < |log| && IsExtended(log[k]) && (rows > 0 ==> log[k].Execute?)
    requires AtRest(log, k, Normal, t, d)
    ensures Explains(log, k + 1, Skipping, t, Rows(k, rows) + [ErrorResponse(k)], d)
  {
    FromMarkerSkipsExecute(log, t);
    assert FromMarker(log, t) == FromMarker(log, TrackedFrom(log, k + 1)) by {
      if IsTracked(log[k]) {
        assert t[1..] == TrackedFrom(log, k + 1);
      }
    }
    ExplainsCons(log, k + 1, Skipping, t, ErrorResponse(k), [], d);
    assert [ErrorResponse(k)] + [] == [ErrorResponse(k)];
    if rows > 0 {
      ExplainsRows(log, k + 1, Skipping, t, d, k, rows, [ErrorResponse(k)]);
    } else {
      assert Rows(k, rows) + [ErrorResponse(k)] == [ErrorResponse(k)];
    }
  }

  /** The backend enters copy-in mode on behalf of frame `r`. */
  lemma {:induction false} StartCopy(log: Log, k: nat, since: nat, r: nat, t: Tags, d: Reader)
    requires r < k && (ExecuteAt(log, r) || QueryAt(log, r)) && !d.err
    requires t == [r] + TrackedFrom(log, k)
    ensures Explains(log, k, CopyIn(r, since), t, [CopyInResponse(r)], d)
  {
    ExplainsCons(log, k, CopyIn(r, since), t, CopyInResponse(r), [], d);
    assert [CopyInResponse(r)] + [] == [CopyInResponse(r)];
  }

  lemma {:induction false} RespondExecute(log: Log, k: nat, c: Choice, t: Tags, d: Reader)
    requires k < |log| && log[k].Execute? && MayChoose(log, k, Normal, c)
    requires AtRest(log, k, Normal, t, d)
    ensures var (msgs, mode) := Respond(log, k, Normal, c); Explains(log, k + 1, mode, t, msgs, d)
  {
    assert t[1..] == TrackedFrom(log, k + 1);
    if c.Fails? {
      ExplainsFailure(log, k, t, d, c.rows);
    } else if c.Returns? {
      ExplainsCons(log, k + 1, Normal, t, Complete(k), [], d);
      assert [Complete(k)] + [] == [Complete(k)];
      ExplainsRows(log, k + 1, Normal, t, d, k, c.rows, [Complete(k)]);
    } else {
      StartCopy(log, k + 1, k, k, t, d);
    }
  }

  /** A simple Query answered from here to its end. */
  lemma {:induction false} ExplainsResults(
      log: Log, k: nat, r: nat, t: Tags, d: Option<nat>, items: seq<Item>, failed: bool)
    requires r < k && QueryAt(log, r) && t == [r] + TrackedFrom(log, k)
    ensures Explains(log, k, Normal, t, ItemMessages(r, items) + QueryEnd(r, failed), Reader(false, d))
  {
    forall d' ensures Explains(log, k, Normal, t, QueryEnd(r, failed), Reader(false, d')) {
      ExplainsQueryEnd(log, k, t, Reader(false, d'), r, failed);
    }
    ExplainsItems(log, k, Normal, t, d, r, items, QueryEnd(r, failed));
  }

  /** A simple Query answered from here to a copy. */
  lemma {:induction false} ExplainsCopy(
      log: Log, k: nat, since: nat, r: nat, t: Tags, d: Option<nat>, before: seq<Item>)
    requires r < k && QueryAt(log, r) && t == [r] + TrackedFrom(log, k)
    ensures Explains(log, k, CopyIn(r, since), t, ItemMessages(r, before) + [CopyInResponse(r)], Reader(false, d))
  {
    forall d' ensures Explains(log, k, CopyIn(r, since), t, [CopyInResponse(r)], Reader(false, d')) {
      StartCopy(log, k, since, r, t, Reader(false, d'));
    }
    ExplainsItems(log, k, CopyIn(r, since), t, d, r, before, [CopyInResponse(r)]);
  }

  lemma {:induction false} RespondNormal(log: Log, k: nat, c: Choice, t: Tags, d: Reader)
    requires k < |log| && MayChoose(log, k, Normal, c)
    requires AtRest(log, k, Normal, t, d)
    ensures var (msgs, mode) := Respond(log, k, Normal, c); Explains(log, k + 1, mode, t, msgs, d)
  {
    if log[k].Execute? {
      RespondExecute(log, k, c, t, d);
    } else if log[k].Query? {
      if c.Results? {
        ExplainsResults(log, k + 1, k, t, d.desc, c.items, c.failed);
      } else {
        ExplainsCopy(log, k + 1, k, k, t, d.desc, c.before);
      }
    } else if IsBoundary(log[k]) {
      ExplainsQueryEnd(log, k + 1, t, d, k, c.Fails?);
    } else if IsExtended(log[k]) && c.Fails? {
      ExplainsFailure(log, k, t, d, 0);
      assert Rows(k, 0) + [ErrorResponse(k)] == [ErrorResponse(k)];
    } else if log[k].Describe? {
      assert t[1..] == TrackedFrom(log, k + 1);
      var m := if c.DescribesRows? then RowDescription(k, c.fields) else NoData(k);
      ExplainsCons(log, k + 1, Normal, t, m, [], d);
      assert [m] + [] == [m];
    }
  }

  lemma {:induction false} LoseFirst(log: Log, k: nat)
    requires TrackedAt(log, k)
    ensures Without(TrackedFrom(log, k), k) == TrackedFrom(log, k + 1)
  {
    var all := TrackedFrom(log, k);
    assert all == [k] + TrackedFrom(log, k + 1) && all[1..] == TrackedFrom(log, k + 1);
    TrackedFromKinds(log, k + 1);
    WithoutAbsent(TrackedFrom(log, k + 1), k);
  }

  /** An entry is lost between the front of the queue and what was recorded after it. */
  lemma {:induction false} LoseNext(log: Log, k: nat, r: nat)
    requires TrackedAt(log, k) && r < k
    ensures Without([r] + TrackedFrom(log, k), k) == [r] + TrackedFrom(log, k + 1)
  {
    LoseFirst(log, k);
    assert ([r] + TrackedFrom(log, k))[1..] == TrackedFrom(log, k);
  }

  /** With an error unresolved, losing the next marker loses the next marker of both. */
  lemma {:induction false} LoseSkipped(log: Log, k: nat, t: Tags)
    requires BatchAt(log, k) && FromMarker(log, t) == FromMarker(log, TrackedFrom(log, k))
    ensures FromMarker(log, Without(t, k)) == FromMarker(log, TrackedFrom(log, k + 1))
  {
    var all := TrackedFrom(log, k);
    assert all == [k] + TrackedFrom(log, k + 1) && FromMarker(log, all) == all;
    var rest := Without(t[1..], k);
    if BatchAt(log, t[0]) {
      assert t == all;
      LoseFirst(log, k);
    } else {
      LoseSkipped(log, k, t[1..]);
      assert ([t[0]] + rest)[1..] == rest;
    }
  }

  lemma {:induction false} RespondSkipping(log: Log, k: nat, t: Tags, d: Reader)
    requires k < |log| && AtRest(log, k, Skipping, t, d)
    ensures var (msgs, mode) := Respond(log, k, Skipping, Succeeds);
            Explains(log, k + 1, mode, Lose(t, k, Loses(log, k, Skipping)), msgs, d)
  {
    if log[k].Sync? {
      assert FromMarker(log, t)[1..] == TrackedFrom(log, k + 1);
      ExplainsCons(log, k + 1, Normal, t, ReadyForQuery(k), [], d);
      assert [ReadyForQuery(k)] + [] == [ReadyForQuery(k)];
    } else if IsBoundary(log[k]) {
      LoseSkipped(log, k, t);
    } else if IsTracked(log[k]) {
      assert TrackedFrom(log, k)[1..] == TrackedFrom(log, k + 1);
    }
  }

  lemma {:induction false} FromMarkerSkipsEntry(log: Log, k: nat)
    requires k < |log| && !IsBoundary(log[k])
    ensures FromMarker(log, TrackedFrom(log, k)) == FromMarker(log, TrackedFrom(log, k + 1))
  {
    if IsTracked(log[k]) {
      assert TrackedFrom(log, k)[1..] == TrackedFrom(log, k + 1);
    }
  }

  /** A copy is aborted; `k'` is past the frame that aborted it, if one did. */
  lemma {:induction false} ExplainsAbort(log: Log, k: nat, r: nat, t: Tags, d: Reader)
    requires r < k && (ExecuteAt(log, r) || QueryAt(log, r)) && !d.err
    requires t != [] && t[0] == r
    requires QueryAt(log, r) ==> t[1..] == TrackedFrom(log, k)
    requires ExecuteAt(log, r) ==> FromMarker(log, t[1..]) == FromMarker(log, TrackedFrom(log, k))
    ensures var (msgs, mode) := Aborted(log, r); Explains(log, k, mode, t, msgs, d)
  {
    if QueryAt(log, r) {
      assert t == [r] + t[1..];
      ExplainsQueryEnd(log, k, t, d, r, true);
    } else {
      ExplainsCons(log, k, Skipping, t, ErrorResponse(r), [], d);
      assert [ErrorResponse(r)] + [] == [ErrorResponse(r)];
    }
  }

  lemma {:induction false} CopyDoneResponds(log: Log, k: nat, r: nat, since: nat, c: Choice, t: Tags, d: Reader)
    requires k < |log| && log[k].CopyDone? && MayChoose(log, k, CopyIn(r, since), c) && !c.Fails?
    requires AtRest(log, k, CopyIn(r, since), t, d)
    ensures var (msgs, mode) := Copied(log, k, r, c); Explains(log, k + 1, mode, t, msgs, d)
  {
    assert t[1..] == TrackedFrom(log, k + 1);
    if c.Results? {
      var rest := ItemMessages(r, c.items) + QueryEnd(r, c.failed);
      ExplainsResults(log, k + 1, r, t, None, c.items, c.failed);
      ExplainsCons(log, k + 1, Normal, t, Complete(r), rest, d);
    } else if c.StartsCopy? {
      var rest := ItemMessages(r, c.before) + [CopyInResponse(r)];
      ExplainsCopy(log, k + 1, k, r, t, None, c.before);
      ExplainsCons(log, k + 1, CopyIn(r, k), t, Complete(r), rest, d);
    } else {
      ExplainsCons(log, k + 1, Normal, t, Complete(r), [], d);
      assert [Complete(r)] + [] == [Complete(r)];
    }
  }

  lemma {:induction false} RespondCopy(log: Log, k: nat, r: nat, since: nat, c: Choice, t: Tags, d: Reader)
    requires k < |log| && MayChoose(log, k, CopyIn(r, since), c)
    requires AtRest(log, k, CopyIn(r, since), t, d)
    ensures var (msgs, mode) := Respond(log, k, CopyIn(r, since), c);
            Explains(log, k + 1, mode, Lose(t, k, Loses(log, k, CopyIn(r, since))), msgs, d)
  {
    var t' := Lose(t, k, Loses(log, k, CopyIn(r, since)));
    if Loses(log, k, CopyIn(r, since)) {
      LoseNext(log, k, r);
    }
    assert t' != [] && t'[0] == r && t' == [r] + t'[1..];
    if log[k].CopyDone? && !c.Fails? {
      CopyDoneResponds(log, k, r, since, c, t, d);
    } else if !(IgnoredInCopy(log[k]) || (log[k].CopyData? && c.Succeeds?)) {
      if !IsBoundary(log[k]) {
        FromMarkerSkipsEntry(log, k);
      }
      ExplainsAbort(log, k + 1, r, t', d);
    }
  }

  lemma {:induction false} RespondAny(log: Log, k: nat, mode: Mode, c: Choice, t: Tags, d: Reader)
    requires k < |log| && MayChoose(log, k, mode, c) && AtRest(log, k, mode, t, d)
    ensures var (msgs, mode') := Respond(log, k, mode, c);
            Explains(log, k + 1, mode', Lose(t, k, Loses(log, k, mode)), msgs, d)
  {
    match mode
    case Normal => RespondNormal(log, k, c, t, d);
    case Skipping => RespondSkipping(log, k, t, d);
    case CopyIn(r, since) => RespondCopy(log, k, r, since, c, t, d);
  }

  // ---------------------------------------------------------------- the ideal queue, step by step

  lemma {:induction false} RecordedGrows(log: Log, f: Frame, tags: Tags)
    requires Recorded(log, tags)
    ensures Recorded(log + [f], tags) && Recorded(log + [f], tags + Added(log, f))
  {
  }

  lemma {:induction false} GaplessGrows(log: Log, f: Frame, tags: Tags, lost: set<nat>)
    requires Recorded(log, tags) && Gapless(log, tags, lost)
    ensures Gapless(log + [f], tags + Added(log, f), lost)
  {
    var log', tags' := log + [f], tags + Added(log, f);
    forall x: nat, y: nat | y in tags' && x !in lost && y < x && TrackedAt(log', x) ensures x in tags' {
      if x == |log| {
        assert tags'[|tags|] == x;
      } else {
        assert y in tags && TrackedAt(log, x);
      }
    }
  }

  /** Recording any frame keeps the ideal queue. */
  lemma {:induction false} SendKeepsIdeal(q: Queue, f: Frame)
    requires Ideal(q)
    ensures Ideal(Send(q, f))
  {
    AppendExplains(q.log, f, q.consumed, q.mode, q.ideal, q.down, q.reader);
    RecordedGrows(q.log, f, q.ideal);
    GaplessGrows(q.log, f, q.ideal, q.lost);
  }

  lemma {:induction false} RespondStarts(log: Log, k: nat, mode: Mode, c: Choice)
    requires k < |log| && MayChoose(log, k, mode, c)
    ensures var mode' := Respond(log, k, mode, c).1;
            mode'.CopyIn? ==>
              mode' == mode || mode' == CopyIn(k, k) || (mode.CopyIn? && mode' == CopyIn(mode.starter, k))
  {
  }

  /** Whatever the backend does with the next frame keeps the ideal queue. */
  lemma {:induction false} ConsumeKeepsIdeal(q: Queue, c: Choice)
    requires Ideal(q) && q.consumed < |q.log| && MayChoose(q.log, q.consumed, q.mode, c)
    ensures Ideal(Consume(q, c))
  {
    var k, n := q.consumed, Consume(q, c);
    var (msgs, mode') := Respond(q.log, k, q.mode, c);
    var loses := Loses(q.log, k, q.mode);
    RespondStarts(q.log, k, q.mode, c);
    forall t: Tags, d: Reader | AtRest(q.log, k, q.mode, t, d)
      ensures Explains(q.log, k + 1, mode', Lose(t, k, loses), msgs, d)
    {
      RespondAny(q.log, k, q.mode, c, t, d);
    }
    Extend(q.log, k, k + 1, q.mode, q.ideal, q.down, q.reader, msgs, mode', loses);
    WithoutRecorded(q.log, q.ideal, k);
    forall x ensures x in Without(q.ideal, k) <==> x in q.ideal && x != k {
      WithoutHas(q.ideal, k, x);
    }
  }

  lemma {:induction false} AbortKeepsIdeal(q: Queue)
    requires Ideal(q) && q.mode.CopyIn?
    ensures Ideal(Abort(q))
  {
    var (msgs, mode') := Aborted(q.log, q.mode.starter);
    forall t: Tags, d: Reader | AtRest(q.log, q.consumed, q.mode, t, d)
      ensures Explains(q.log, q.consumed, mode', Lose(t, q.consumed, false), msgs, d)
    {
      ExplainsAbort(q.log, q.consumed, q.mode.starter, t, d);
    }
    Extend(q.log, q.consumed, q.consumed, q.mode, q.ideal, q.down, q.reader, msgs, mode', false);
  }

  lemma {:induction false} SuffixHas(tags: Tags, i: nat, x: nat)
    requires Increasing(tags) && i <= |tags|
    ensures x in tags[i..] <==> x in tags && (i > 0 ==> tags[i - 1] < x)
  {
    if x in tags {
      var j :| 0 <= j < |tags| && tags[j] == x;
      if j >= i {
        assert tags[i..][j - i] == x;
      }
    }
  }

  lemma {:induction false} SuffixRecorded(log: Log, tags: Tags, i: nat)
    requires Recorded(log, tags) && i <= |tags|
    ensures Recorded(log, tags[i..])
  {
  }

  lemma {:induction false} SuffixGapless(log: Log, tags: Tags, lost: set<nat>, i: nat)
    requires Increasing(tags) && Gapless(log, tags, lost) && i <= |tags|
    ensures Gapless(log, tags[i..], lost)
  {
    forall x: nat, y: nat | y in tags[i..] && x !in lost && y < x && TrackedAt(log, x) ensures x in tags[i..] {
      SuffixHas(tags, i, y);
      SuffixHas(tags, i, x);
    }
  }

  lemma {:induction false} SuffixWithout(tags: Tags, i: nat, x: nat)
    requires x !in tags && i <= |tags|
    ensures x !in tags[i..]
  {
  }

  /** Messages already explained stay so. */
  lemma {:induction false} ExplainedNext(
      log: Log, k: nat, mode: Mode, tags: Tags, down: seq<Message>, rd: Reader)
    requires down != [] && Explains(log, k, mode, tags, down, rd)
    ensures Expected(log, tags, rd, down[0])
    ensures Explains(log, k, mode, HandleTags(log, tags, down[0]), down[1..], HandleReader(log, rd, down[0]))
  {
  }

  /** Handling the next message keeps the ideal queue: the message found its expectation there. */
  lemma {:induction false} HandleKeepsIdeal(q: Queue)
    requires Ideal(q) && q.down != []
    ensures Ideal(Handle(q)) && Expected(q.log, q.ideal, q.reader, q.down[0])
  {
    ExplainedNext(q.log, q.consumed, q.mode, q.ideal, q.down, q.reader);
    var i := HandleTagsIsSuffix(q.log, q.ideal, q.down[0]);
    SuffixRecorded(q.log, q.ideal, i);
    SuffixGapless(q.log, q.ideal, q.lost, i);
    forall x | x in q.lost ensures x !in q.ideal[i..] {
      SuffixWithout(q.ideal, i, x);
    }
  }
}
