/** Copies outside the discipline: runs in which the queue does lose alignment, one for each clause
    that keeps the Syncs a backend ignores and the markers copy frames drop the same. */
module CopyLimits {
  import opened Bytes
  import opened Resolution
  import opened Frames
  import opened Backend
  import opened Queue
  import opened Portals
  import opened Session
  import opened MarkerLaw
  import opened SessionTheorems
  import opened Closed

  // ---------------------------------------------------------------- stages of a run

  /** What the runs below follow of a session: how far client and backend are, what is in flight, and
      which markers have been lost and dropped. */
  datatype Stage = Stage(
    log: Log, consumed: nat, mode: Mode, down: seq<Message>, copy: Copy, lost: set<nat>, dropped: set<nat>)

  predicate Reached(states: seq<Session>, steps: seq<Step>, g: Stage, room: nat) {
    && IsRun(states, steps)
    && var s := Last(states);
       && !s.awaiting && |s.t.pending| <= room && s.q.missed == 0
       && g == Stage(s.q.log, s.q.consumed, s.q.mode, s.q.down, s.q.copy, s.q.lost, s.q.dropped)
  }

  /** An Execute or a batch-ending frame is sent. */
  lemma {:induction false} Push(states: seq<Session>, steps: seq<Step>, g: Stage, room: nat, f: Frame)
      returns (states': seq<Session>, steps': seq<Step>)
    requires Reached(states, steps, g, room) && room < MAX_PENDING_RESPONSES && (f.Execute? || IsBoundary(f))
    ensures Reached(states', steps', g.(log := g.log + [f]), room + 1)
    ensures Last(states').q.tags == Last(states).q.tags + [|g.log|]
  {
    states', steps' := SendStep(states, steps, f);
  }

  lemma {:induction false} NotFed(states: seq<Session>, steps: seq<Step>)
    requires IsRun(states, steps) && Last(states).q.copy == NotCopying
    ensures Last(states).t.copyIn.Idle?
  {
    RunsCoupled(states, steps, |states| - 1);
  }

  /** Copy frames sent while no copy is being fed. */
  lemma {:induction false} Strays(states: seq<Session>, steps: seq<Step>, g: Stage, room: nat, frames: Log)
      returns (states': seq<Session>, steps': seq<Step>)
    requires Reached(states, steps, g, room) && g.copy == NotCopying
    requires forall i | 0 <= i < |frames| :: OpensCopyPayload(frames[i])
    ensures Reached(states', steps', g.(log := g.log + frames), room)
    decreases |frames|
  {
    if frames == [] {
      states', steps' := states, steps;
      assert g.log + frames == g.log;
    } else {
      NotFed(states, steps);
      assert Removed(Last(states).q.tags, Last(states).q.tags) == {};
      states', steps' := SendStep(states, steps, frames[0]);
      var next := g.(log := g.log + [frames[0]]);
      assert next.log + frames[1..] == g.log + frames;
      states', steps' := Strays(states', steps', next, room, frames[1..]);
    }
  }

  /** The backend consumes a frame. */
  lemma {:induction false} Take(states: seq<Session>, steps: seq<Step>, g: Stage, room: nat, c: Choice)
      returns (states': seq<Session>, steps': seq<Step>)
    requires Reached(states, steps, g, room) && g.consumed < |g.log| && MayChoose(g.log, g.consumed, g.mode, c)
    ensures var (msgs, mode) := Respond(g.log, g.consumed, g.mode, c);
            Reached(states', steps',
                    g.(consumed := g.consumed + 1, mode := mode, down := g.down + msgs,
                       lost := if Loses(g.log, g.consumed, g.mode) then g.lost + {g.consumed} else g.lost), room)
    ensures Last(states').q.tags == Last(states).q.tags
  {
    states', steps' := ConsumeStep(states, steps, c);
  }

  /** The backend aborts the copy in progress. */
  lemma {:induction false} GiveUp(states: seq<Session>, steps: seq<Step>, g: Stage, room: nat)
      returns (states': seq<Session>, steps': seq<Step>)
    requires Reached(states, steps, g, room) && g.mode.CopyIn?
    ensures var (msgs, mode) := Aborted(g.log, g.mode.starter);
            Reached(states', steps', g.(mode := mode, down := g.down + msgs), room)
    ensures Last(states').q.tags == Last(states).q.tags
  {
    var n := Last(states).(q := Abort(Last(states).q));
    states', steps' := states + [n], steps + [BackendAborts];
    Extended(states, steps, BackendAborts, n);
  }

  /** A message other than a ReadyForQuery is handled. */
  lemma {:induction false} Handled(states: seq<Session>, steps: seq<Step>, g: Stage, room: nat)
      returns (states': seq<Session>, steps': seq<Step>)
    requires Reached(states, steps, g, room) && g.down != []
    requires g.down[0].CopyInResponse? || g.down[0].Complete? || g.down[0].ErrorResponse?
    ensures Reached(states', steps',
                    g.(down := g.down[1..], copy := HandleCopy(g.log, Last(states).q.tags, g.copy, g.down[0])), room)
    ensures Last(states').q.tags == HandleTags(g.log, Last(states).q.tags, g.down[0])
  {
    states', steps' := HandleStep(states, steps, NoRows);
  }

  lemma {:induction false} MarkersFound(log: Log, tags: Tags)
    requires TagMarkers(log, tags) > 0
    ensures FromMarker(log, tags) != []
  {
    FromMarkerMarkers(log, tags);
  }

  /** A ReadyForQuery is handled while more markers are queued than were dropped. */
  lemma {:induction false} Settled(states: seq<Session>, steps: seq<Step>, g: Stage, room: nat)
      returns (states': seq<Session>, steps': seq<Step>)
    requires Reached(states, steps, g, room) && g.down != [] && g.down[0].ReadyForQuery? && g.dropped == {}
    ensures Reached(states', steps', g.(down := g.down[1..], copy := NotCopying), room)
  {
    RunsBalanced(states, steps, |states| - 1);
    MarkersFound(g.log, Last(states).q.tags);
    AfterBatchShrinks(Last(states).t.pending);
    states', steps' := HandleStep(states, steps, NoRows);
  }

  lemma {:induction false} AfterBatchShrinks(pending: seq<Pending>)
    ensures |AfterBatch(pending)| <= |pending|
  {
    if pending != [] {
      AfterBatchShrinks(pending[1..]);
    }
  }

  /** The client has been answered everything, and as many markers are left over as were lost. */
  lemma {:induction false} LeftOver(states: seq<Session>, steps: seq<Step>, g: Stage, room: nat)
    requires Reached(states, steps, g, room) && g.down == [] && g.consumed == |g.log| && !g.mode.CopyIn?
    requires g.dropped == {} && forall x | x in g.lost :: BatchAt(g.log, x)
    ensures Owed(Last(states).q) == 0 && Markers(Last(states).t.pending) == |g.lost|
  {
    MarkersBalance(states, steps, |states| - 1);
    assert LostMarkers(g.log, g.lost) == g.lost;
  }

  lemma {:induction false} RestReached(states: seq<Session>, steps: seq<Step>)
    requires IsRun(states, steps) && Rested(Last(states))
    ensures var log := Last(states).q.log;
            Reached(states, steps, Stage(log, |log|, Normal, [], NotCopying, {}, {}), 0)
    ensures Last(states).q.tags == []
  {
    RunsCoupled(states, steps, |states| - 1);
  }

  /** The client pipelines `n` Syncs. */
  lemma {:induction false} Syncs(states: seq<Session>, steps: seq<Step>, g: Stage, room: nat, n: nat)
      returns (states': seq<Session>, steps': seq<Step>)
    requires Reached(states, steps, g, room) && room + n <= MAX_PENDING_RESPONSES
    ensures Reached(states', steps', g.(log := g.log + Repeat(Sync, n)), room + n)
    ensures n == 0 ==> Last(states').q.tags == Last(states).q.tags
    decreases n
  {
    if n == 0 {
      states', steps' := states, steps;
      assert g.log + Repeat(Sync, 0) == g.log;
    } else {
      states', steps' := Syncs(states, steps, g, room, n - 1);
      states', steps' := Push(states', steps', g.(log := g.log + Repeat(Sync, n - 1)), room + n - 1, Sync);
      assert g.log + Repeat(Sync, n) == (g.log + Repeat(Sync, n - 1)) + [Sync];
    }
  }

  function Repeat(f: Frame, n: nat): (r: Log)
    ensures |r| == n && forall i | 0 <= i < n :: r[i] == f
  {
    seq(n, _ => f)
  }

  /** The positions from `low` up to `high`. */
  function Span(low: nat, high: nat): (r: set<nat>)
    decreases high
  {
    if high <= low then {} else Span(low, high - 1) + {high - 1}
  }

  lemma {:induction false} SpanHas(low: nat, high: nat)
    ensures forall x :: x in Span(low, high) <==> low <= x < high
    ensures low <= high ==> |Span(low, high)| == high - low
    decreases high
  {
    if low < high {
      SpanHas(low, high - 1);
    }
  }

  lemma {:induction false} SyncsSpan(log: Log, low: nat, high: nat)
    requires low <= high <= |log| && forall j | low <= j < high :: log[j] == Sync
    ensures |Span(low, high)| == high - low && forall x | x in Span(low, high) :: BatchAt(log, x)
  {
    SpanHas(low, high);
  }

  /** The backend ignores the Syncs behind the copying Execute at `r`. */
  lemma {:induction false} Ignored(states: seq<Session>, steps: seq<Step>, g: Stage, room: nat, r: nat, n: nat)
      returns (states': seq<Session>, steps': seq<Step>)
    requires Reached(states, steps, g, room) && g.mode == CopyIn(r, r) && ExecuteAt(g.log, r)
    requires g.consumed + n <= |g.log| && forall j | g.consumed <= j < g.consumed + n :: g.log[j] == Sync
    ensures Reached(states', steps',
                    g.(consumed := g.consumed + n, lost := g.lost + Span(g.consumed, g.consumed + n)), room)
    ensures Last(states').q.tags == Last(states).q.tags
    decreases n
  {
    if n == 0 {
      states', steps' := states, steps;
      assert g.lost + Span(g.consumed, g.consumed) == g.lost;
    } else {
      states', steps' := Ignored(states, steps, g, room, r, n - 1);
      var k, before := g.consumed + n - 1, g.lost + Span(g.consumed, g.consumed + n - 1);
      assert g.log[k] == Sync;
      states', steps' := Take(states', steps', g.(consumed := k, lost := before), room, Succeeds);
      assert g.down + [] == g.down && before + {k} == g.lost + Span(g.consumed, g.consumed + n);
    }
  }

  /** From any run at rest, the client sends an Execute and pipelines `n` Syncs behind it, and the backend
      starts a copy. */
  lemma {:induction false} CopyStarts(
      states: seq<Session>, steps: seq<Step>, portal: bytes, n: nat)
      returns (states': seq<Session>, steps': seq<Step>)
    requires IsRun(states, steps) && Rested(Last(states)) && n < MAX_PENDING_RESPONSES
    ensures var r := |Last(states).q.log|;
            Reached(states', steps',
                    Stage(Last(states).q.log + [Execute(portal)] + Repeat(Sync, n), r + 1, CopyIn(r, r),
                          [CopyInResponse(r)], NotCopying, {}, {}), n + 1)
    ensures n == 0 ==> Last(states').q.tags == [|Last(states).q.log|]
  {
    var log := Last(states).q.log;
    var r := |log|;
    var g := Stage(log, r, Normal, [], NotCopying, {}, {});
    RestReached(states, steps);
    states', steps' := Push(states, steps, g, 0, Execute(portal));
    g := g.(log := log + [Execute(portal)]);
    states', steps' := Syncs(states', steps', g, 1, n);
    g := g.(log := g.log + Repeat(Sync, n));
    states', steps' := Take(states', steps', g, n + 1, StartsCopy([]));
    assert [] + [CopyInResponse(r)] == [CopyInResponse(r)];
  }

  /** And ignores the Syncs. */
  lemma {:induction false} CopyIgnores(states: seq<Session>, steps: seq<Step>, portal: bytes, n: nat)
      returns (states': seq<Session>, steps': seq<Step>, lost: set<nat>)
    requires IsRun(states, steps) && Rested(Last(states)) && n < MAX_PENDING_RESPONSES
    ensures var r, log := |Last(states).q.log|, Last(states).q.log + [Execute(portal)] + Repeat(Sync, n);
            && Reached(states', steps',
                       Stage(log, r + 1 + n, CopyIn(r, r), [CopyInResponse(r)], NotCopying, lost, {}), n + 1)
            && |lost| == n && ExecuteAt(log, r) && forall x | x in lost :: BatchAt(log, x)
  {
    var r, log := |Last(states).q.log|, Last(states).q.log + [Execute(portal)] + Repeat(Sync, n);
    var g := Stage(log, r + 1, CopyIn(r, r), [CopyInResponse(r)], NotCopying, {}, {});
    lost := g.lost + Span(g.consumed, g.consumed + n);
    SyncsSpan(log, g.consumed, g.consumed + n);
    assert lost == Span(g.consumed, g.consumed + n);
    states', steps' := CopyStarts(states, steps, portal, n);
    states', steps' := Ignored(states', steps', g, n + 1, r, n);
  }

  // ---------------------------------------------------------------- an abort

  /** From any run at rest: the client sends an Execute and pipelines `n` Syncs; the backend starts a copy,
      ignores the Syncs and aborts; the client sends another Sync. Once everything has been
      answered nothing is owed, and `n` markers are left over. */
  lemma {:induction false} AbortedCopyDesyncs(states: seq<Session>, steps: seq<Step>, portal: bytes, n: nat)
      returns (states': seq<Session>, steps': seq<Step>)
    requires IsRun(states, steps) && Rested(Last(states)) && n + 2 <= MAX_PENDING_RESPONSES
    ensures IsRun(states', steps') && Last(states').q.down == []
    ensures Last(states').q.log == Last(states).q.log + [Execute(portal)] + Repeat(Sync, n) + [Sync]
    ensures Owed(Last(states').q) == 0 && Markers(Last(states').t.pending) == n
  {
    var r := |Last(states).q.log|;
    var log := Last(states).q.log + [Execute(portal)] + Repeat(Sync, n);
    var lost;
    states', steps', lost := CopyIgnores(states, steps, portal, n);
    var g := Stage(log, r + 1 + n, CopyIn(r, r), [CopyInResponse(r)], NotCopying, lost, {});
    states', steps' := AbortedTail(states', steps', g, n + 1, r);
  }

  lemma {:induction false} AbortedTail(states: seq<Session>, steps: seq<Step>, g: Stage, room: nat, r: nat)
      returns (states': seq<Session>, steps': seq<Step>)
    requires Reached(states, steps, g, room) && room < MAX_PENDING_RESPONSES
    requires g.mode == CopyIn(r, r) && ExecuteAt(g.log, r) && g.down == [CopyInResponse(r)]
    requires g.consumed == |g.log| && g.dropped == {} && forall x | x in g.lost :: BatchAt(g.log, x)
    ensures IsRun(states', steps') && Last(states').q.down == [] && Last(states').q.log == g.log + [Sync]
    ensures Owed(Last(states').q) == 0 && Markers(Last(states').t.pending) == |g.lost|
  {
    var h := g;
    states', steps' := GiveUp(states, steps, h, room);
    h := h.(mode := Skipping, down := [CopyInResponse(r), ErrorResponse(r)]);
    states', steps' := Answered(states', steps', h, room);
    h := h.(down := [], copy := Last(states').q.copy);
    states', steps' := Push(states', steps', h, room, Sync);
    h := h.(log := h.log + [Sync]);
    states', steps' := Take(states', steps', h, room + 1, Succeeds);
    h := h.(consumed := |h.log|, mode := Normal, down := [ReadyForQuery(|g.log|)]);
    states', steps' := Settled(states', steps', h, room + 1);
    h := h.(down := [], copy := NotCopying);
    LeftOver(states', steps', h, room + 1);
  }

  /** The answers to a copy are handled. */
  lemma {:induction false} Answered(states: seq<Session>, steps: seq<Step>, g: Stage, room: nat)
      returns (states': seq<Session>, steps': seq<Step>)
    requires Reached(states, steps, g, room) && |g.down| == 2
    requires g.down[0].CopyInResponse? && (g.down[1].Complete? || g.down[1].ErrorResponse?)
    ensures IsRun(states', steps')
    ensures Reached(states', steps', g.(down := [], copy := Last(states').q.copy), room)
  {
    states', steps' := Handled(states, steps, g, room);
    var h := g.(down := g.down[1..], copy := Last(states').q.copy);
    states', steps' := Handled(states', steps', h, room);
    assert h.down[1..] == [];
  }

  // ---------------------------------------------------------------- a payload sent early

  /** The backend takes `n` CopyData frames of the copy in progress. */
  lemma {:induction false} Eaten(states: seq<Session>, steps: seq<Step>, g: Stage, room: nat, n: nat)
      returns (states': seq<Session>, steps': seq<Step>)
    requires Reached(states, steps, g, room) && g.mode.CopyIn?
    requires g.consumed + n <= |g.log| && forall j | g.consumed <= j < g.consumed + n :: g.log[j] == CopyData
    ensures Reached(states', steps', g.(consumed := g.consumed + n), room)
    decreases n
  {
    if n == 0 {
      states', steps' := states, steps;
    } else {
      states', steps' := Eaten(states, steps, g, room, n - 1);
      var k := g.consumed + n - 1;
      assert g.log[k] == CopyData;
      states', steps' := Take(states', steps', g.(consumed := k), room, Succeeds);
      assert g.down + [] == g.down;
    }
  }

  /** The copy is done, and the Sync behind it is answered. */
  lemma {:induction false} DoneTail(states: seq<Session>, steps: seq<Step>, g: Stage, room: nat, r: nat)
      returns (states': seq<Session>, steps': seq<Step>)
    requires Reached(states, steps, g, room)
    requires g.mode == CopyIn(r, r) && ExecuteAt(g.log, r) && g.down == [CopyInResponse(r)]
    requires g.consumed + 2 == |g.log| && g.log[g.consumed] == CopyDone && g.log[g.consumed + 1] == Sync
    requires g.dropped == {} && forall x | x in g.lost :: BatchAt(g.log, x)
    ensures IsRun(states', steps') && Last(states').q.down == [] && Last(states').q.log == g.log
    ensures Owed(Last(states').q) == 0 && Markers(Last(states').t.pending) == |g.lost|
  {
    var h := g;
    states', steps' := Take(states, steps, h, room, Succeeds);
    h := h.(consumed := g.consumed + 1, mode := Normal, down := [CopyInResponse(r), Complete(r)]);
    states', steps' := Answered(states', steps', h, room);
    h := h.(down := [], copy := Last(states').q.copy);
    states', steps' := Take(states', steps', h, room, Succeeds);
    h := h.(consumed := |g.log|, down := [ReadyForQuery(|g.log| - 1)]);
    states', steps' := Settled(states', steps', h, room);
    h := h.(down := [], copy := NotCopying);
    LeftOver(states', steps', h, room);
  }

  /** From any run at rest: the client sends an Execute and `n` Syncs, and then the whole payload and a
      Sync before it has seen the CopyInResponse; the copy succeeds. Once everything has been
      answered nothing is owed, and the markers of the `n` Syncs are left over. */
  lemma {:induction false} EarlyPayloadDesyncs(
      states: seq<Session>, steps: seq<Step>, portal: bytes, n: nat, size: nat)
      returns (states': seq<Session>, steps': seq<Step>)
    requires IsRun(states, steps) && Rested(Last(states)) && n + 2 <= MAX_PENDING_RESPONSES
    ensures IsRun(states', steps') && Last(states').q.down == []
    ensures Last(states').q.log
         == Last(states).q.log + [Execute(portal)] + Repeat(Sync, n) + (Repeat(CopyData, size) + [CopyDone]) + [Sync]
    ensures Owed(Last(states').q) == 0 && Markers(Last(states').t.pending) == n
  {
    var r := |Last(states).q.log|;
    var start := Last(states).q.log + [Execute(portal)] + Repeat(Sync, n);
    states', steps' := CopyStarts(states, steps, portal, n);
    var g := Stage(start, r + 1, CopyIn(r, r), [CopyInResponse(r)], NotCopying, {}, {});
    var payload := Repeat(CopyData, size) + [CopyDone];
    states', steps' := Strays(states', steps', g, n + 1, payload);
    g := g.(log := start + payload);
    states', steps' := Push(states', steps', g, n + 1, Sync);
    g := g.(log := start + payload + [Sync]);
    states', steps' := PayloadTail(states', steps', g, n, size, r);
  }

  /** From `k` on: CopyData frames, the CopyDone that ends the copy, and a Sync. */
  predicate PayloadFrom(log: Log, k: nat, size: nat) {
    && |log| == k + size + 2 && (forall j | k <= j < k + size :: log[j] == CopyData)
    && log[k + size] == CopyDone && log[k + size + 1] == Sync
  }

  lemma {:induction false} PayloadTail(
      states: seq<Session>, steps: seq<Step>, g: Stage, n: nat, size: nat, r: nat)
      returns (states': seq<Session>, steps': seq<Step>)
    requires Reached(states, steps, g, n + 2) && g.consumed == r + 1 && g.mode == CopyIn(r, r)
    requires g.down == [CopyInResponse(r)] && g.lost == {} && g.dropped == {} && ExecuteAt(g.log, r)
    requires r + 1 + n <= |g.log| && (forall j | r < j < r + 1 + n :: g.log[j] == Sync)
    requires PayloadFrom(g.log, r + 1 + n, size)
    ensures IsRun(states', steps') && Last(states').q.down == [] && Last(states').q.log == g.log
    ensures Owed(Last(states').q) == 0 && Markers(Last(states').t.pending) == n
  {
    SyncsSpan(g.log, g.consumed, g.consumed + n);
    var h := g.(consumed := g.consumed + n, lost := g.lost + Span(g.consumed, g.consumed + n));
    assert h.lost == Span(g.consumed, g.consumed + n);
    states', steps' := Ignored(states, steps, g, n + 2, r, n);
    states', steps' := EatenTail(states', steps', h, n, size, r);
  }

  lemma {:induction false} EatenTail(
      states: seq<Session>, steps: seq<Step>, h: Stage, n: nat, size: nat, r: nat)
      returns (states': seq<Session>, steps': seq<Step>)
    requires Reached(states, steps, h, n + 2) && h.consumed == r + 1 + n && h.mode == CopyIn(r, r)
    requires h.down == [CopyInResponse(r)] && |h.lost| == n && h.dropped == {}
    requires ExecuteAt(h.log, r) && PayloadFrom(h.log, r + 1 + n, size)
    requires forall x | x in h.lost :: BatchAt(h.log, x)
    ensures IsRun(states', steps') && Last(states').q.down == [] && Last(states').q.log == h.log
    ensures Owed(Last(states').q) == 0 && Markers(Last(states').t.pending) == n
  {
    states', steps' := Eaten(states, steps, h, n + 2, size);
    states', steps' := DoneTail(states', steps', h.(consumed := r + 1 + n + size), n + 2, r);
  }

  // ---------------------------------------------------------------- a batch behind the copy

  /** From any run at rest: the client pipelines a second batch, Execute and Sync, behind an Execute that
      starts a copy and its `n` Syncs; the backend aborts the copy on the second Execute. Once
      everything has been answered nothing is owed, and the markers of the `n` Syncs are left
      over. */
  lemma {:induction false} BatchBehindCopyDesyncs(
      states: seq<Session>, steps: seq<Step>, portal: bytes, second: bytes, n: nat)
      returns (states': seq<Session>, steps': seq<Step>)
    requires IsRun(states, steps) && Rested(Last(states)) && n + 3 <= MAX_PENDING_RESPONSES
    ensures IsRun(states', steps') && Last(states').q.down == []
    ensures Last(states').q.log
         == Last(states).q.log + [Execute(portal)] + Repeat(Sync, n) + [Execute(second)] + [Sync]
    ensures Owed(Last(states').q) == 0 && Markers(Last(states').t.pending) == n
  {
    var r := |Last(states).q.log|;
    var log := Last(states).q.log + [Execute(portal)] + Repeat(Sync, n);
    var lost;
    states', steps', lost := CopyIgnores(states, steps, portal, n);
    var g := Stage(log, r + 1 + n, CopyIn(r, r), [CopyInResponse(r)], NotCopying, lost, {});
    states', steps' := Push(states', steps', g, n + 1, Execute(second));
    g := g.(log := log + [Execute(second)]);
    states', steps' := SecondBatchTail(states', steps', g, n + 2, r);
  }

  lemma {:induction false} SecondBatchTail(states: seq<Session>, steps: seq<Step>, g: Stage, room: nat, r: nat)
      returns (states': seq<Session>, steps': seq<Step>)
    requires Reached(states, steps, g, room) && room < MAX_PENDING_RESPONSES
    requires g.mode == CopyIn(r, r) && ExecuteAt(g.log, r) && g.down == [CopyInResponse(r)]
    requires g.consumed + 1 == |g.log| && g.log[g.consumed].Execute?
    requires g.dropped == {} && forall x | x in g.lost :: BatchAt(g.log, x)
    ensures IsRun(states', steps') && Last(states').q.down == [] && Last(states').q.log == g.log + [Sync]
    ensures Owed(Last(states').q) == 0 && Markers(Last(states').t.pending) == |g.lost|
  {
    var h := g;
    states', steps' := Push(states, steps, h, room, Sync);
    h := h.(log := g.log + [Sync]);
    states', steps' := Take(states', steps', h, room + 1, Succeeds);
    h := h.(consumed := |g.log|, mode := Skipping, down := [CopyInResponse(r), ErrorResponse(r)]);
    states', steps' := Answered(states', steps', h, room + 1);
    h := h.(down := [], copy := Last(states').q.copy);
    states', steps' := Take(states', steps', h, room + 1, Succeeds);
    h := h.(consumed := |h.log|, mode := Normal, down := [ReadyForQuery(|g.log|)]);
    states', steps' := Settled(states', steps', h, room + 1);
    h := h.(down := [], copy := NotCopying);
    LeftOver(states', steps', h, room + 1);
  }

  // ---------------------------------------------------------------- an owed marker dropped

  /** From any run at rest: an Execute starts a copy, the client sees the CopyInResponse, and the backend
      aborts. Before it has seen the error the client sends a Sync, which the backend will answer,
      and then a copy frame, which drops that Sync's marker: a ReadyForQuery is owed and no
      marker is queued. */
  lemma {:induction false} OwedMarkerDropped(states: seq<Session>, steps: seq<Step>, portal: bytes)
      returns (states': seq<Session>, steps': seq<Step>)
    requires IsRun(states, steps) && Rested(Last(states))
    ensures IsRun(states', steps')
    ensures Last(states').q.log == Last(states).q.log + [Execute(portal)] + [Sync] + [CopyData]
    ensures Owed(Last(states').q) == 1 && Markers(Last(states').t.pending) == 0
  {
    states', steps' := DropsOwed(states, steps, portal);
    var q, r := Last(states').q, |Last(states).q.log|;
    MarkersBalance(states', steps', |states'| - 1);
    OneOwed(q.log, r);
    assert LostMarkers(q.log, q.lost) == {};
    assert q.down[1..] == [] && ReadysIn(q.down) == ReadysIn(q.down[1..]);
  }

  /** The markers dropped need not be those lost once a message has missed its own: in the same run, when
      everything has been answered, the queue is aligned again, although the marker dropped was that
      of a frame the backend did answer. */
  lemma {:induction false} MissedMarkerRealigns(states: seq<Session>, steps: seq<Step>, portal: bytes)
      returns (states': seq<Session>, steps': seq<Step>)
    requires IsRun(states, steps) && Rested(Last(states))
    ensures IsRun(states', steps') && Last(states').q.down == []
    ensures Aligned(Last(states').q) && Last(states').q.missed == 1
    ensures LostMarkers(Last(states').q.log, Last(states').q.lost) != Last(states').q.dropped
  {
    var r := |Last(states).q.log|;
    states', steps' := DropsOwed(states, steps, portal);
    var log := Last(states').q.log;
    var g := Stage(log, r + 1, Skipping, [ErrorResponse(r)], Copying(Some(r)), {}, {r + 1});
    states', steps' := Handled(states', steps', g, 2);
    assert g.down[1..] == [] && [r][1..] == [];
    g := g.(down := []);
    states', steps' := Take(states', steps', g, 2, Succeeds);
    g := g.(consumed := r + 2, mode := Normal, down := [ReadyForQuery(r + 1)]);
    states', steps' := Take(states', steps', g, 2, Succeeds);
    assert g.down + [] == g.down;
    states', steps' := HandleStep(states', steps', NoRows);
    var q := Last(states').q;
    assert q.tags == [] && q.down == [] && q.consumed == |q.log|;
    assert LostMarkers(q.log, q.lost) == {};
  }

  lemma {:induction false} DropsOwed(states: seq<Session>, steps: seq<Step>, portal: bytes)
      returns (states': seq<Session>, steps': seq<Step>)
    requires IsRun(states, steps) && Rested(Last(states))
    ensures var r := |Last(states).q.log|;
            Reached(states', steps',
                    Stage(Last(states).q.log + [Execute(portal)] + [Sync] + [CopyData], r + 1, Skipping,
                          [ErrorResponse(r)], Copying(Some(r)), {}, {r + 1}), 2)
    ensures Last(states').q.tags == [|Last(states).q.log|]
  {
    var r := |Last(states).q.log|;
    var log := Last(states).q.log + [Execute(portal)] + Repeat(Sync, 0);
    assert log == Last(states).q.log + [Execute(portal)];
    states', steps' := CopyStarts(states, steps, portal, 0);
    var g := Stage(log, r + 1, CopyIn(r, r), [CopyInResponse(r)], NotCopying, {}, {});
    states', steps' := Handled(states', steps', g, 1);
    g := g.(down := [], copy := Copying(Some(r)));
    states', steps' := GiveUp(states', steps', g, 1);
    g := g.(mode := Skipping, down := [ErrorResponse(r)]);
    states', steps' := Push(states', steps', g, 1, Sync);
    g := g.(log := log + [Sync]);
    states', steps' := FeedDrops(states', steps', g, 2, r);
  }

  lemma {:induction false} FeedDrops(states: seq<Session>, steps: seq<Step>, g: Stage, room: nat, r: nat)
      returns (states': seq<Session>, steps': seq<Step>)
    requires Reached(states, steps, g, room) && g.copy == Copying(Some(r)) && g.dropped == {}
    requires Last(states).q.tags == [r, r + 1]
    requires |g.log| == r + 2 && g.log[r].Execute? && g.log[r + 1] == Sync
    ensures Reached(states', steps', g.(log := g.log + [CopyData], dropped := {r + 1}), room)
    ensures Last(states').q.tags == [r]
  {
    OneDropped(g.log, r);
    UnmarkedShrinks(Last(states).t);
    states', steps' := SendStep(states, steps, CopyData);
    assert Last(states').q.dropped == {r + 1};
  }

  lemma {:induction false} UnmarkedShrinks(t: Tracked)
    ensures |CopyFrame(t, true).pending| <= |t.pending|
  {
    if t.copyIn.Started? && t.copyIn.execute.Some? {
      UnmarkedLength(t.pending, t.copyIn.execute.value);
    }
  }

  lemma {:induction false} UnmarkedLength(pending: seq<Pending>, id: nat)
    ensures |Unmarked(pending, id)| <= |pending| && |DropBatches(pending)| <= |pending|
  {
    if pending != [] {
      UnmarkedLength(pending[1..], id);
    }
  }

  lemma {:induction false} OneDropped(log: Log, r: nat)
    requires |log| == r + 2 && log[r].Execute? && log[r + 1] == Sync
    ensures DropBehind(log, [r, r + 1], r) == [r] && Removed([r, r + 1], [r]) == {r + 1}
  {
    var tags := [r, r + 1];
    assert tags[1..] == [r + 1] && [r + 1][1..] == [];
    assert DropMarkers(log, [r + 1]) == DropMarkers(log, []);
  }

  lemma {:induction false} OneOwed(log: Log, r: nat)
    requires |log| == r + 3 && log[r + 1] == Sync && log[r + 2] == CopyData
    ensures BoundariesFrom(log, r + 1) == 1
  {
    assert BoundariesFrom(log, r + 3) == 0 && BoundariesFrom(log, r + 2) == 0;
  }
}
