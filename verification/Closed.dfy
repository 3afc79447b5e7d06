/** Sessions without copies: the queue stays aligned, whatever the backend does, exactly for the
    clients that close their extended-protocol batches before a Query or a FunctionCall. */
module Closed {
  import opened Resolution
  import opened Frames
  import opened Backend
  import opened Queue
  import opened Portals
  import opened Session
  import opened MarkerLaw
  import opened SessionTheorems
  import opened Discipline
  import opened Refusals

  /** The backend starts no copy in the first `i` steps. */
  predicate CopyFree(steps: seq<Step>, i: nat)
    requires i <= |steps|
  {
    forall j | 0 <= j < i :: steps[j].BackendConsumes? ==> !steps[j].choice.StartsCopy?
  }

  /** What a session without copies never shows. */
  predicate Plain(q: Queue) {
    && !q.mode.CopyIn? && !q.feeding && q.copy == NotCopying
    && (forall m | m in q.down :: !m.CopyInResponse?)
    && q.open == OpenAt(q.log, |q.log|)
  }

  lemma {:induction false} SendPlain(q: Queue, f: Frame)
    requires Plain(q)
    ensures Plain(Send(q, f))
  {
    OpenGrows(q.log, f, |q.log|);
    assert (q.log + [f])[|q.log|] == f;
  }

  lemma {:induction false} ConsumePlain(q: Queue, c: Choice)
    requires Plain(q) && q.consumed < |q.log| && MayChoose(q.log, q.consumed, q.mode, c) && !c.StartsCopy?
    ensures Plain(Consume(q, c))
  {
    RespondModes(q.log, q.consumed, q.mode, c);
    RespondAnnounces(q.log, q.consumed, q.mode, c);
    var (msgs, mode) := Respond(q.log, q.consumed, q.mode, c);
    forall m | m in q.down + msgs ensures !m.CopyInResponse? {
      if m in msgs {
        var i :| 0 <= i < |msgs| && msgs[i] == m;
      }
    }
  }

  lemma {:induction false} StepPlain(s: Session, step: Step, n: Session)
    requires Plain(s.q) && Next(s, step, n) && (step.BackendConsumes? ==> !step.choice.StartsCopy?)
    ensures Plain(n.q)
  {
    match step
    case ClientSends(f, refused) =>
      if !s.awaiting {
        if !refused {
          SendPlain(s.q, f);
        } else if f.Bind? {
          SendPlain(s.q, RefusedBind(f.portal, f.statement, f.formats));
        }
      }
    case BackendConsumes(c) => ConsumePlain(s.q, c);
    case BackendAborts =>
    case ReadPathHandles(_) => assert !s.q.down[0].CopyInResponse?;
  }

  lemma {:induction false} RunsPlain(states: seq<Session>, steps: seq<Step>, i: nat)
    requires IsRun(states, steps) && i < |states| && CopyFree(steps, i)
    ensures Plain(states[i].q)
  {
    if i > 0 {
      RunsPlain(states, steps, i - 1);
      assert Next(states[i - 1], steps[i - 1], states[i]);
      StepPlain(states[i - 1], steps[i - 1], states[i]);
    }
  }

  lemma {:induction false} StepPolite(s: Session, step: Step, n: Session)
    requires Plain(s.q) && Next(s, step, n) && (step.BackendConsumes? ==> !step.choice.StartsCopy?)
    requires ClosedBefore(n.q.log)
    ensures Polite(s, step) && ClosedBefore(s.q.log)
  {
    if step.ClientSends? && !s.awaiting {
      var f := step.frame;
      if !step.refused {
        ClosedGrows(s.q.log, f);
      } else if f.Bind? {
        ClosedGrows(s.q.log, RefusedBind(f.portal, f.statement, f.formats));
      }
    }
  }

  lemma {:induction false} RunsPolite(states: seq<Session>, steps: seq<Step>, i: nat)
    requires IsRun(states, steps) && i < |states| && CopyFree(steps, i) && ClosedBefore(states[i].q.log)
    ensures PoliteUntil(states, steps, i)
  {
    if i > 0 {
      assert Next(states[i - 1], steps[i - 1], states[i]);
      RunsPlain(states, steps, i - 1);
      StepPolite(states[i - 1], steps[i - 1], states[i]);
      RunsPolite(states, steps, i - 1);
    }
  }

  /** Without copies, a history that is closed before every Query and FunctionCall keeps the queue
      aligned in every run: every message is handled in a clear state, nothing is lost, and the
      markers are exactly the ReadyForQuery messages owed. `UnclosedDesyncs` is the converse. */
  lemma {:induction false} ClosedStaysAligned(states: seq<Session>, steps: seq<Step>, i: nat)
    requires IsRun(states, steps) && i < |states| && CopyFree(steps, i) && ClosedBefore(states[i].q.log)
    ensures ClearUntil(states, steps, i) && (states[i].q.down != [] ==> Clear(states[i].q))
    ensures Aligned(states[i].q) && Markers(states[i].t.pending) == Owed(states[i].q)
  {
    RunsPlain(states, steps, i);
    RunsPolite(states, steps, i);
    DisciplineClears(states, steps, i, 0);
    DisciplineAligns(states, steps, i);
  }

  // ---------------------------------------------------------------- building runs

  function Last<T>(s: seq<T>): (x: T)
    requires s != []
  {
    s[|s| - 1]
  }

  lemma {:induction false} Extended(states: seq<Session>, steps: seq<Step>, step: Step, n: Session)
    requires IsRun(states, steps) && Next(Last(states), step, n)
    ensures IsRun(states + [n], steps + [step])
  {
    var states', steps' := states + [n], steps + [step];
    forall i | 0 <= i < |steps'| ensures Next(states'[i], steps'[i], states'[i + 1]) {
      assert i < |steps| ==> steps'[i] == steps[i] && states'[i] == states[i] && states'[i + 1] == states[i + 1];
    }
  }

  lemma {:induction false} SendStep(states: seq<Session>, steps: seq<Step>, f: Frame)
      returns (states': seq<Session>, steps': seq<Step>)
    requires IsRun(states, steps) && !Last(states).awaiting && !f.RefusedBind? && Record(Last(states).t, f).Ok?
    ensures IsRun(states', steps')
    ensures var s := Last(states); Last(states') == s.(t := Record(s.t, f).value, q := Send(s.q, f))
    ensures CopyFree(steps, |steps|) ==> CopyFree(steps', |steps'|)
  {
    var s := Last(states);
    var n := s.(t := Record(s.t, f).value, q := Send(s.q, f));
    states', steps' := states + [n], steps + [ClientSends(f, false)];
    Extended(states, steps, ClientSends(f, false), n);
  }

  lemma {:induction false} ConsumeStep(states: seq<Session>, steps: seq<Step>, c: Choice)
      returns (states': seq<Session>, steps': seq<Step>)
    requires IsRun(states, steps)
    requires var q := Last(states).q; q.consumed < |q.log| && MayChoose(q.log, q.consumed, q.mode, c)
    ensures IsRun(states', steps') && Last(states') == Last(states).(q := Consume(Last(states).q, c))
    ensures CopyFree(steps, |steps|) && !c.StartsCopy? ==> CopyFree(steps', |steps'|)
  {
    var n := Last(states).(q := Consume(Last(states).q, c));
    states', steps' := states + [n], steps + [BackendConsumes(c)];
    Extended(states, steps, BackendConsumes(c), n);
  }

  lemma {:induction false} HandleStep(states: seq<Session>, steps: seq<Step>, positions: Described)
      returns (states': seq<Session>, steps': seq<Step>)
    requires IsRun(states, steps) && Last(states).q.down != []
    requires MayDescribe(Last(states).t, Last(states).q.down[0], positions)
    ensures IsRun(states', steps')
    ensures var s := Last(states);
            Last(states') == s.(t := Apply(s.t, s.q.down[0], positions),
                                described := Remembered(s, s.q.down[0], positions),
                                q := Handle(s.q),
                                answers := Answered(s, s.q.down[0], positions))
    ensures CopyFree(steps, |steps|) ==> CopyFree(steps', |steps'|)
  {
    var s := Last(states);
    var n := s.(t := Apply(s.t, s.q.down[0], positions), described := Remembered(s, s.q.down[0], positions),
                q := Handle(s.q), answers := Answered(s, s.q.down[0], positions));
    states', steps' := states + [n], steps + [ReadPathHandles(positions)];
    Extended(states, steps, ReadPathHandles(positions), n);
  }

  // ---------------------------------------------------------------- frames exchanged one by one

  /** Nothing is in flight, queued, lost or dropped. */
  predicate Rested(s: Session) {
    && !s.awaiting && s.t.pending == [] && s.t.copyIn.Idle? && s.q.copy == NotCopying
    && s.q.mode.Normal? && s.q.consumed == |s.q.log| && s.q.down == []
    && s.q.lost == {} && s.q.dropped == {} && s.q.missed == 0
  }

  /** The plainest success the backend can choose. */
  function Success(f: Frame): (c: Choice) {
    match f
    case Describe(_, _) => DescribesNothing
    case Execute(_) => Returns(0)
    case Query => Results([], false)
    case _ => Succeeds
  }

  /** The tracker after frame `f` has been recorded and answered by that success. */
  function Exchanged(t: Tracked, f: Frame): (r: Tracked)
    requires Record(t, f).Ok?
  {
    var sent := Record(t, f).value;
    if f.Describe? then DescribeAnswered(sent, NoRows)
    else if f.Execute? then ExecuteAnswered(sent)
    else if IsBoundary(f) then BatchAnswered(sent)
    else sent
  }

  /** The tracker accepts the frames, each answered before the next is sent. */
  predicate Accepts(t: Tracked, frames: Log)
    decreases |frames|
  {
    frames != [] ==>
      && !frames[0].RefusedBind? && Record(t, frames[0]).Ok?
      && Accepts(Exchanged(t, frames[0]), frames[1..])
  }

  lemma {:induction false} SuccessAnswer(log: Log, f: Frame)
    requires !f.RefusedBind?
    ensures var n, log' := |log|, log + [f];
            && MayChoose(log', n, Normal, Success(f)) && !Success(f).StartsCopy?
            && Respond(log', n, Normal, Success(f))
               == ((if f.Describe? then [NoData(n)]
                    else if f.Execute? then [Complete(n)]
                    else if IsBoundary(f) then [ReadyForQuery(n)]
                    else []), Normal)
  {
    var n := |log|;
    assert (log + [f])[n] == f;
    assert Rows(n, 0) + [Complete(n)] == [Complete(n)];
    assert ItemMessages(n, []) + QueryEnd(n, false) == QueryEnd(n, false) == [ReadyForQuery(n)];
  }

  /** The tracker's queue is empty again once the frame has been answered. */
  lemma {:induction false} ExchangedEmpty(t: Tracked, f: Frame)
    requires t.pending == [] && t.copyIn.Idle? && Record(t, f).Ok?
    ensures Exchanged(t, f).pending == [] && Exchanged(t, f).copyIn.Idle?
    ensures IsBoundary(f) ==> AfterBatch(Record(t, f).value.pending) == []
  {
    var sent := Record(t, f).value.pending;
    assert |sent| <= 1;
    if sent != [] {
      assert sent[1..] == [];
    }
  }

  lemma {:induction false} SingleMarker(log: Log, n: nat)
    requires BatchAt(log, n)
    ensures FromMarker(log, [n]) == [n]
  {
  }

  /** Nothing is in flight, queued, lost or dropped, as the queue sees it. */
  predicate Quiescent(q: Queue, log: Log, mode: Mode) {
    && q.log == log && q.consumed == |log| && q.mode == mode && q.down == [] && q.copy == NotCopying
    && q.lost == {} && q.dropped == {} && q.missed == 0
  }

  function TakenWith(q: Queue, f: Frame): (r: set<nat>) {
    if IsNaming(f) then q.taken + {|q.log|} else q.taken
  }

  lemma {:induction false} SentQueue(q: Queue, f: Frame)
    requires Quiescent(q, q.log, Normal) && q.tags == []
    ensures var n := Send(q, f);
            && n == q.(log := q.log + [f], tags := Added(q.log, f), ideal := n.ideal, open := n.open,
                       feeding := n.feeding)
  {
    assert [] + Added(q.log, f) == Added(q.log, f);
    assert Removed(q.tags, q.tags) == {};
  }

  /** The queue once frame `f` has been sent and answered by success. */
  lemma {:induction false} AnsweredQueue(q: Queue, f: Frame)
    requires Quiescent(q, q.log, Normal) && q.tags == [] && IsTracked(f)
    ensures var n := |q.log|;
            var m := if f.Describe? then NoData(n) else if f.Execute? then Complete(n) else ReadyForQuery(n);
            var r := Handle(Advance(Send(q, f), [m], Normal));
            Quiescent(r, q.log + [f], Normal) && r.taken == q.taken
  {
    SentQueue(q, f);
    var n := |q.log|;
    assert (q.log + [f])[n] == f;
    if IsBoundary(f) {
      SingleMarker(q.log + [f], n);
    }
    var m := if f.Describe? then NoData(n) else if f.Execute? then Complete(n) else ReadyForQuery(n);
    assert ([] + [m])[1..] == [];
  }

  lemma {:induction false} UnansweredQueue(q: Queue, f: Frame)
    requires Quiescent(q, q.log, Normal) && q.tags == [] && !IsTracked(f)
    ensures var r := Advance(Send(q, f), [], Normal);
            Quiescent(r, q.log + [f], Normal) && r.taken == TakenWith(q, f)
  {
    SentQueue(q, f);
    assert (q.log + [f])[|q.log|] == f;
  }

  /** The client sends a frame, the backend answers it, and the read path handles the answer. */
  lemma {:induction false} Exchange(states: seq<Session>, steps: seq<Step>, f: Frame)
      returns (states': seq<Session>, steps': seq<Step>)
    requires IsRun(states, steps) && CopyFree(steps, |steps|) && Rested(Last(states))
    requires !f.RefusedBind? && Record(Last(states).t, f).Ok?
    ensures IsRun(states', steps') && CopyFree(steps', |steps'|) && Rested(Last(states'))
    ensures Last(states').q.log == Last(states).q.log + [f]
    ensures Last(states').q.taken == TakenWith(Last(states).q, f)
    ensures Last(states').t == Exchanged(Last(states).t, f)
  {
    var s := Last(states);
    RunsCoupled(states, steps, |states| - 1);
    assert s.q.tags == [];
    SuccessAnswer(s.q.log, f);
    ExchangedEmpty(s.t, f);
    states', steps' := SendStep(states, steps, f);
    states', steps' := ConsumeStep(states', steps', Success(f));
    if IsTracked(f) {
      AnsweredQueue(s.q, f);
      states', steps' := HandleStep(states', steps', NoRows);
    } else {
      UnansweredQueue(s.q, f);
    }
  }

  lemma {:induction false} ExchangeAll(states: seq<Session>, steps: seq<Step>, frames: Log, n: nat)
      returns (states': seq<Session>, steps': seq<Step>)
    requires IsRun(states, steps) && CopyFree(steps, |steps|) && Rested(Last(states))
    requires n <= |frames| && Accepts(Last(states).t, frames)
    ensures IsRun(states', steps') && CopyFree(steps', |steps'|) && Rested(Last(states'))
    ensures Last(states').q.log == Last(states).q.log + frames[..n]
    ensures Accepts(Last(states').t, frames[n..])
    decreases n
  {
    if n == 0 {
      states', steps' := states, steps;
      assert frames[0..] == frames;
    } else {
      states', steps' := Exchange(states, steps, frames[0]);
      assert Last(states).q.log + frames[..n] == Last(states').q.log + frames[1..][..n - 1];
      assert frames[1..][n - 1..] == frames[n..];
      states', steps' := ExchangeAll(states', steps', frames[1..], n - 1);
    }
  }

  // ---------------------------------------------------------------- an unclosed batch

  /** The batch open before `j` was opened, or continued, by a frame that nothing tracked has followed. */
  lemma {:induction false} LastExtended(log: Log, j: nat) returns (i: nat)
    requires j <= |log| && OpenAt(log, j)
    ensures i < j && IsExtended(log[i])
    ensures forall l | i < l < j :: !IsExtended(log[l]) && !IsBoundary(log[l])
  {
    if IsExtended(log[j - 1]) {
      i := j - 1;
    } else {
      i := LastExtended(log, j - 1);
    }
  }

  /** The backend is discarding, nothing is in flight, and at most a Describe is queued. */
  predicate Discarding(s: Session) {
    && !s.awaiting && |s.t.pending| <= 1 && s.t.copyIn.Idle? && s.q.copy == NotCopying
    && s.q.mode.Skipping? && s.q.consumed == |s.q.log| && s.q.down == []
    && s.q.lost == {} && s.q.dropped == {} && s.q.missed == 0
  }

  /** The queue once frame `f` has been sent, has failed, and its error has been handled. */
  lemma {:induction false} FailedQueue(q: Queue, f: Frame)
    requires Quiescent(q, q.log, Normal) && q.tags == [] && IsExtended(f)
    ensures var r := Handle(Advance(Send(q, f), [ErrorResponse(|q.log|)], Skipping));
            Quiescent(r, q.log + [f], Skipping) && r.taken == q.taken
  {
    SentQueue(q, f);
    assert ([] + [ErrorResponse(|q.log|)])[1..] == [];
  }

  lemma {:induction false} FailedAnswer(log: Log, f: Frame)
    requires IsExtended(f)
    ensures var n, log' := |log|, log + [f];
            && MayChoose(log', n, Normal, Fails(0))
            && Respond(log', n, Normal, Fails(0)) == ([ErrorResponse(n)], Skipping)
  {
    assert (log + [f])[|log|] == f;
    assert Rows(|log|, 0) + [ErrorResponse(|log|)] == [ErrorResponse(|log|)];
  }

  lemma {:induction false} FailedTracker(t: Tracked, f: Frame)
    requires t.pending == [] && t.copyIn.Idle? && IsExtended(f) && Record(t, f).Ok?
    ensures var r := ExecuteAnswered(Record(t, f).value); |r.pending| <= 1 && r.copyIn.Idle?
    ensures IsNaming(f) ==> ExecuteAnswered(Record(t, f).value) == Record(t, f).value
    ensures IsNaming(f) ==> Record(t, f).value.pending == []
  {
  }

  /** An extended-protocol frame fails, and its error is handled. */
  lemma {:induction false} Failure(states: seq<Session>, steps: seq<Step>, f: Frame)
      returns (states': seq<Session>, steps': seq<Step>)
    requires IsRun(states, steps) && CopyFree(steps, |steps|) && Rested(Last(states))
    requires IsExtended(f) && Record(Last(states).t, f).Ok?
    ensures IsRun(states', steps') && CopyFree(steps', |steps'|) && Discarding(Last(states'))
    ensures Last(states').q.log == Last(states).q.log + [f] && Last(states').q.taken == Last(states).q.taken
    ensures IsNaming(f) ==> Last(states').t == Record(Last(states).t, f).value
  {
    var s := Last(states);
    RunsCoupled(states, steps, |states| - 1);
    assert s.q.tags == [];
    FailedAnswer(s.q.log, f);
    FailedTracker(s.t, f);
    FailedQueue(s.q, f);
    states', steps' := SendStep(states, steps, f);
    states', steps' := ConsumeStep(states', steps', Fails(0));
    states', steps' := HandleStep(states', steps', NoRows);
  }

  /** Frames that queue nothing are discarded without a trace. */
  lemma {:induction false} Discard(states: seq<Session>, steps: seq<Step>, frames: Log)
      returns (states': seq<Session>, steps': seq<Step>)
    requires IsRun(states, steps) && CopyFree(steps, |steps|) && Discarding(Last(states))
    requires forall i | 0 <= i < |frames| ::
               !IsExtended(frames[i]) && !IsBoundary(frames[i]) && !frames[i].RefusedBind?
    ensures IsRun(states', steps') && CopyFree(steps', |steps'|) && Discarding(Last(states'))
    ensures Last(states').q.log == Last(states).q.log + frames
    decreases |frames|
  {
    if frames == [] {
      states', steps' := states, steps;
    } else {
      states', steps' := SendStep(states, steps, frames[0]);
      states', steps' := ConsumeStep(states', steps', Succeeds);
      assert Last(states).q.log + frames == Last(states').q.log + frames[1..];
      states', steps' := Discard(states', steps', frames[1..]);
    }
  }

  /** A Query or FunctionCall is discarded: its marker stays although nothing is owed. */
  lemma {:induction false} DiscardSimple(states: seq<Session>, steps: seq<Step>, f: Frame)
      returns (states': seq<Session>, steps': seq<Step>)
    requires IsRun(states, steps) && CopyFree(steps, |steps|) && Discarding(Last(states)) && Simple(f)
    ensures IsRun(states', steps') && CopyFree(steps', |steps'|)
    ensures var n := Last(states');
            && n.q.log == Last(states).q.log + [f] && n.q.down == [] && n.q.consumed == |n.q.log|
            && Owed(n.q) == 0 && Markers(n.t.pending) == 1
  {
    states', steps' := SendStep(states, steps, f);
    states', steps' := ConsumeStep(states', steps', Succeeds);
    OneLost(states', steps', |Last(states).q.log|);
  }

  lemma {:induction false} OneLost(states: seq<Session>, steps: seq<Step>, x: nat)
    requires IsRun(states, steps)
    requires var q := Last(states).q;
             && q.down == [] && q.consumed == |q.log| && !q.mode.CopyIn? && BatchAt(q.log, x)
             && q.lost == {x} && q.dropped == {} && q.missed == 0
    ensures Owed(Last(states).q) == 0 && Markers(Last(states).t.pending) == 1
  {
    var q := Last(states).q;
    MarkersBalance(states, steps, |states| - 1);
    assert LostMarkers(q.log, q.lost) == {x};
  }

  /** Whatever frames the tracker accepts, if a Query or a FunctionCall comes inside an open batch, then
      the backend can leave the queue misaligned: there is a run without copies, sending the frames
      up to that one, after which nothing is in flight and nothing is owed, and a marker is still
      queued. */
  lemma {:induction false} UnclosedDesyncs(frames: Log)
      returns (states: seq<Session>, steps: seq<Step>, n: nat)
    requires !ClosedBefore(frames) && Accepts(Fresh, frames)
    ensures IsRun(states, steps) && CopyFree(steps, |steps|)
    ensures n <= |frames| && Last(states).q.log == frames[..n]
    ensures Last(states).q.down == [] && Last(states).q.consumed == n
    ensures Owed(Last(states).q) == 0 && Markers(Last(states).t.pending) == 1
  {
    var j :| 0 <= j < |frames| && Simple(frames[j]) && OpenAt(frames, j);
    var i := LastExtended(frames, j);
    NoRefusedBind(Fresh, frames);
    states, steps := ExchangeAll([Start], [], frames, i);
    assert frames[i..][0] == frames[i];
    states, steps := DiscardBatch(states, steps, frames, i, j);
    n := j + 1;
  }

  /** The frame at `i` fails, and everything up to the Query or FunctionCall at `j` is discarded. */
  lemma {:induction false} DiscardBatch(states: seq<Session>, steps: seq<Step>, frames: Log, i: nat, j: nat)
      returns (states': seq<Session>, steps': seq<Step>)
    requires IsRun(states, steps) && CopyFree(steps, |steps|) && Rested(Last(states))
    requires i < j < |frames| && Last(states).q.log == frames[..i]
    requires IsExtended(frames[i]) && Record(Last(states).t, frames[i]).Ok? && Simple(frames[j])
    requires forall l | i < l < j :: !IsExtended(frames[l]) && !IsBoundary(frames[l]) && !frames[l].RefusedBind?
    ensures IsRun(states', steps') && CopyFree(steps', |steps'|)
    ensures var n := Last(states');
            && n.q.log == frames[..j + 1] && n.q.down == [] && n.q.consumed == j + 1
            && Owed(n.q) == 0 && Markers(n.t.pending) == 1
  {
    states', steps' := Failure(states, steps, frames[i]);
    assert Last(states').q.log == frames[..i + 1];
    states', steps' := Discard(states', steps', frames[i + 1..j]);
    assert frames[..i + 1] + frames[i + 1..j] == frames[..j];
    states', steps' := DiscardSimple(states', steps', frames[j]);
    assert frames[..j] + [frames[j]] == frames[..j + 1];
  }

  lemma {:induction false} NoRefusedBind(t: Tracked, frames: Log)
    requires Accepts(t, frames)
    ensures forall i | 0 <= i < |frames| :: !frames[i].RefusedBind?
    decreases |frames|
  {
    if frames != [] {
      NoRefusedBind(Exchanged(t, frames[0]), frames[1..]);
      assert forall i | 1 <= i < |frames| :: frames[i] == frames[1..][i - 1];
    }
  }

  // ---------------------------------------------------------------- refusals in a run

  /** What the client sent in the first `n` steps. */
  function SentIn(steps: seq<Step>, n: nat): (r: seq<Sent>)
    requires n <= |steps|
  {
    if n == 0 then [] else SentIn(steps, n - 1) + SentBy(steps[n - 1])
  }

  /** The history as the backend sees it. */
  function Visible(log: Log): (r: Log) {
    if log == [] then []
    else
      var f := log[|log| - 1];
      Visible(log[..|log| - 1]) + (if f.RefusedBind? then [] else [f])
  }

  lemma {:induction false} VisibleGrows(log: Log, f: Frame)
    ensures Visible(log + [f]) == Visible(log) + (if f.RefusedBind? then [] else [f])
  {
    assert (log + [f])[..|log|] == log;
  }

  lemma {:induction false} ForwardedGrows(sent: seq<Sent>, x: Sent, n: nat)
    requires n <= |sent|
    ensures AwaitingAt(sent + [x], n) == AwaitingAt(sent, n)
    ensures Forwarded(sent + [x], n) == Forwarded(sent, n)
  {
    if n > 0 {
      ForwardedGrows(sent, x, n - 1);
    }
  }

  lemma {:induction false} ForwardedNext(sent: seq<Sent>, x: Sent)
    ensures var f, awaiting := x.frame, AwaitingAt(sent, |sent|);
            && AwaitingAt(sent + [x], |sent| + 1) == (if awaiting then !f.Sync? else x.refused && (f.Parse? || f.Bind?))
            && Forwarded(sent + [x], |sent| + 1)
            == Forwarded(sent, |sent|)
               + (if awaiting || (x.refused && (f.Parse? || f.Bind? || f.Query?)) then [] else [f])
  {
    ForwardedGrows(sent, x, |sent|);
    assert (sent + [x])[|sent|] == x;
  }

  /** The backend has seen what is forwarded of `sent`. */
  predicate Reflects(s: Session, sent: seq<Sent>) {
    Visible(s.q.log) == Forwarded(sent, |sent|) && s.awaiting == AwaitingAt(sent, |sent|)
  }

  lemma {:induction false} SendForwards(s: Session, f: Frame, refused: bool, n: Session, sent: seq<Sent>)
    requires Next(s, ClientSends(f, refused), n) && Reflects(s, sent)
    ensures Reflects(n, sent + [Sent(f, refused)])
  {
    ForwardedNext(sent, Sent(f, refused));
    VisibleGrows(s.q.log, f);
    if f.Bind? {
      VisibleGrows(s.q.log, RefusedBind(f.portal, f.statement, f.formats));
    }
    assert Visible(s.q.log) + [] == Visible(s.q.log);
  }

  lemma {:induction false} OthersSendNothing(s: Session, step: Step, n: Session)
    requires Next(s, step, n) && !step.ClientSends?
    ensures n.q.log == s.q.log && n.awaiting == s.awaiting
  {
  }

  /** What the client sends in a step. */
  function SentBy(step: Step): (r: seq<Sent>) {
    if step.ClientSends? then [Sent(step.frame, step.refused)] else []
  }

  lemma {:induction false} StepReflects(s: Session, step: Step, n: Session, sent: seq<Sent>)
    requires Next(s, step, n) && Reflects(s, sent)
    ensures Reflects(n, sent + SentBy(step))
  {
    if step.ClientSends? {
      SendForwards(s, step.frame, step.refused, n, sent);
    } else {
      OthersSendNothing(s, step, n);
      assert sent + [] == sent;
    }
  }

  /** In every run, the history that the backend sees is what `Refusals` says is forwarded. */
  lemma {:induction false} HistoryIsForwarded(states: seq<Session>, steps: seq<Step>, i: nat)
    requires IsRun(states, steps) && i < |states|
    ensures Reflects(states[i], SentIn(steps, i))
  {
    if i == 0 {
      assert Reflects(Start, []);
    } else {
      HistoryIsForwarded(states, steps, i - 1);
      assert Next(states[i - 1], steps[i - 1], states[i]);
      StepReflects(states[i - 1], steps[i - 1], states[i], SentIn(steps, i - 1));
    }
  }

  lemma {:induction false} VisibleCloses(log: Log)
    ensures OpenAt(Visible(log), |Visible(log)|) == OpenAt(log, |log|)
    ensures ClosedBefore(Visible(log)) == ClosedBefore(log)
  {
    if log != [] {
      var before, f := log[..|log| - 1], log[|log| - 1];
      assert log == before + [f];
      VisibleCloses(before);
      ClosedGrows(before, f);
      OpenGrows(before, f, |before|);
      if !f.RefusedBind? {
        ClosedGrows(Visible(before), f);
        OpenGrows(Visible(before), f, |Visible(before)|);
      } else {
        assert Visible(log) == Visible(before);
      }
    }
  }

  /** So a client that closes its batches keeps the queue aligned in every run without copies in which
      each refusal inside a batch is followed by a forwarded Sync before the next forwarded Query
      or FunctionCall. */
  lemma {:induction false} RefusalsStayAligned(states: seq<Session>, steps: seq<Step>, i: nat)
    requires IsRun(states, steps) && i < |states| && CopyFree(steps, i)
    requires var sent := SentIn(steps, i); ClosedBefore(FramesOf(sent, |sent|)) && SyncFollowsRefusals(sent)
    ensures Aligned(states[i].q) && Markers(states[i].t.pending) == Owed(states[i].q)
  {
    HistoryIsForwarded(states, steps, i);
    ForwardedClosedIff(SentIn(steps, i));
    VisibleCloses(states[i].q.log);
    ClosedStaysAligned(states, steps, i);
  }
}
