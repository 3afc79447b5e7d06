/** How a re-resolution reaches cached statements: a publisher swaps the resolution under a lock and
    then stores its generation; a session compares its description's generation, without the lock, on
    every row. Each lock section and each atomic access is one step. */
module Publication {
  import opened Resolution
  import Frames
  import Portals
  import Session

  const MAX_GENERATION: nat := 0xFFFF_FFFF_FFFF_FFFF

  /** One Execute of a cached statement: what the statement's Describe said, and what this Execute's rows
      are decrypted with now. `stale` is set between noticing a newer generation and reading the
      resolution. A re-derivation is kept for the Execute being answered only. */
  datatype Reader = Reader(original: Described, cached: Described, stale: bool)

  /** One row decrypted by a reader with these positions. */
  datatype Use = Use(reader: nat, positions: Described)

  /** `swapped` lists generations whose resolution is in the slot but whose store is still to come;
      `statements` the descriptions of the cached statements; `history` every resolution ever
      published. */
  datatype State = State(
    slot: Resolved, generation: nat, swapped: seq<nat>,
    statements: seq<Described>, readers: seq<Reader>, history: seq<Resolved>, uses: seq<Use>)

  datatype Step =
    | Swap(resolved: Resolved)
    | Store(publisher: nat)
    | Prepare(fields: seq<Field>)
    | Execute(statement: nat)
    | Check(reader: nat)
    | Reread(reader: nat)

  function Next(generation: nat): (g: nat) {
    if generation < MAX_GENERATION then generation + 1 else generation
  }

  function Start(resolved: Resolved): (s: State) {
    var first := resolved.(generation := 0);
    State(first, 0, [], [], [], [first], [])
  }

  /** `solo`: one publisher, so no swap while another publication is under way. */
  predicate Enabled(s: State, step: Step, solo: bool) {
    match step
    case Swap(_) => solo ==> s.swapped == []
    case Store(p) => p < |s.swapped|
    case Prepare(_) => true
    case Execute(i) => i < |s.statements|
    case Check(r) => r < |s.readers| && !s.readers[r].stale
    case Reread(r) => r < |s.readers| && s.readers[r].stale
  }

  function Apply(s: State, step: Step): (r: State)
    requires Enabled(s, step, false)
  {
    match step
    case Swap(resolved) =>
      var latest := resolved.(generation := Next(s.slot.generation));
      s.(slot := latest, swapped := s.swapped + [latest.generation], history := s.history + [latest])
    case Store(p) => s.(generation := s.swapped[p], swapped := s.swapped[..p] + s.swapped[p + 1..])
    case Prepare(fields) => s.(statements := s.statements + [DescribedBy(s.slot, fields)])
    case Execute(i) => s.(readers := s.readers + [Reader(s.statements[i], s.statements[i], false)])
    case Check(i) =>
      var r := s.readers[i];
      if r.cached.generation == s.generation then s.(uses := s.uses + [Use(i, r.cached)])
      else s.(readers := s.readers[i := r.(stale := true)])
    case Reread(i) =>
      var r := s.readers[i];
      var d := Refreshed(r.cached, s.slot);
      s.(readers := s.readers[i := Reader(r.original, d, false)], uses := s.uses + [Use(i, d)])
  }

  predicate Follows(s: State, step: Step, r: State, solo: bool) {
    Enabled(s, step, solo) && r == Apply(s, step)
  }

  predicate IsRun(states: seq<State>, steps: seq<Step>, solo: bool) {
    && |states| == |steps| + 1 && states[0] == Start(states[0].slot)
    && (forall i {:trigger steps[i]} | 0 <= i < |steps| :: Follows(states[i], steps[i], states[i + 1], solo))
  }

  // ---------------------------------------------------------------- what every run keeps

  predicate Carries(d: Described, c: Column) {
    c in d.columns
  }

  predicate Assigns(r: Resolved, fields: seq<Field>, c: Column) {
    c in Protected(r, fields)
  }

  /** Stamped `g`: derived against resolution `g`, all of whose columns it carries, and every column
      it carries came from a resolution no newer. */
  ghost predicate Stamped(history: seq<Resolved>, d: Described) {
    && WellDescribed(d) && d.generation < |history|
    && (forall c {:trigger Assigns(history[d.generation], d.fields, c)} ::
          Assigns(history[d.generation], d.fields, c) ==> Carries(d, c))
    && (forall c {:trigger Carries(d, c)} ::
          Carries(d, c) ==> exists g {:trigger Assigns(history[g], d.fields, c)} ::
            0 <= g <= d.generation && Assigns(history[g], d.fields, c))
  }

  ghost predicate Faithful(history: seq<Resolved>, r: Reader) {
    Stamped(history, r.original) && Stamped(history, r.cached) && Covers(r.cached, r.original)
  }

  predicate Numbered(s: State) {
    && s.history != [] && s.slot == s.history[|s.history| - 1]
    && (forall g | 0 <= g < |s.history| :: s.history[g].generation == g)
    && (if s.swapped == [] then s.generation == s.slot.generation
        else s.swapped == [s.slot.generation] && s.generation + 1 == s.slot.generation)
  }

  ghost predicate UseFaithful(s: State, u: Use) {
    && u.reader < |s.readers| && Stamped(s.history, u.positions)
    && Covers(u.positions, s.readers[u.reader].original)
  }

  ghost predicate Published(s: State) {
    && Numbered(s)
    && (forall i | 0 <= i < |s.statements| :: Stamped(s.history, s.statements[i]))
    && (forall i | 0 <= i < |s.readers| ::
          Faithful(s.history, s.readers[i]) && s.readers[i].original in s.statements)
    && (forall i | 0 <= i < |s.uses| :: UseFaithful(s, s.uses[i]))
  }

  lemma {:induction false} StampedLater(history: seq<Resolved>, later: seq<Resolved>, d: Described)
    requires Stamped(history, d) && history <= later
    ensures Stamped(later, d)
  {
    forall c | Carries(d, c) ensures exists g :: 0 <= g <= d.generation && Assigns(later[g], d.fields, c) {
      var g :| 0 <= g <= d.generation && Assigns(history[g], d.fields, c);
      assert later[g] == history[g];
    }
    assert later[d.generation] == history[d.generation];
  }

  lemma {:induction false} DescribedIsStamped(history: seq<Resolved>, g: nat, fields: seq<Field>)
    requires g < |history| && history[g].generation == g
    ensures Stamped(history, DescribedBy(history[g], fields))
  {
    DescribedByWell(history[g], fields);
    forall c | Carries(DescribedBy(history[g], fields), c)
      ensures exists k :: 0 <= k <= g && Assigns(history[k], fields, c)
    {
      assert Assigns(history[g], fields, c);
    }
  }

  lemma {:induction false} RefreshedIsStamped(history: seq<Resolved>, g: nat, d: Described)
    requires g < |history| && history[g].generation == g && Stamped(history, d) && d.generation <= g
    ensures Stamped(history, Refreshed(d, history[g]))
  {
    MergedExact(d, history[g]);
    forall c | Carries(Refreshed(d, history[g]), c)
      ensures exists k :: 0 <= k <= g && Assigns(history[k], d.fields, c)
    {
      if Assigns(history[g], d.fields, c) {
      } else {
        assert Carries(d, c);
        var k :| 0 <= k <= d.generation && Assigns(history[k], d.fields, c);
        assert 0 <= k <= g;
      }
    }
  }

  lemma {:induction false} StartPublished(resolved: Resolved)
    ensures Published(Start(resolved))
  {
  }

  lemma {:induction false} SwapKeeps(s: State, step: Step)
    requires Published(s) && step.Swap? && Enabled(s, step, true) && |s.history| <= MAX_GENERATION
    ensures Published(Apply(s, step))
  {
    var r := Apply(s, step);
    assert s.slot.generation == |s.history| - 1;
    forall i | 0 <= i < |r.statements| ensures Stamped(r.history, r.statements[i]) {
      StampedLater(s.history, r.history, s.statements[i]);
    }
    forall i | 0 <= i < |r.readers| ensures Faithful(r.history, r.readers[i]) {
      assert Faithful(s.history, s.readers[i]);
      StampedLater(s.history, r.history, s.readers[i].original);
      StampedLater(s.history, r.history, s.readers[i].cached);
    }
    forall i | 0 <= i < |r.uses| ensures UseFaithful(r, r.uses[i]) {
      assert UseFaithful(s, s.uses[i]);
      StampedLater(s.history, r.history, s.uses[i].positions);
    }
  }

  lemma {:induction false} PrepareKeeps(s: State, step: Step)
    requires Published(s) && step.Prepare?
    ensures Published(Apply(s, step))
  {
    var r := Apply(s, step);
    DescribedIsStamped(s.history, |s.history| - 1, step.fields);
    forall i | 0 <= i < |r.uses| ensures UseFaithful(r, r.uses[i]) {
      assert UseFaithful(s, s.uses[i]);
    }
  }

  /** A new Execute starts from the statement's own description again. */
  lemma {:induction false} ExecuteKeeps(s: State, step: Step)
    requires Published(s) && step.Execute? && Enabled(s, step, true)
    ensures Published(Apply(s, step))
  {
    var r := Apply(s, step);
    assert Stamped(s.history, s.statements[step.statement]);
    forall i | 0 <= i < |r.readers| ensures Faithful(r.history, r.readers[i]) {
      assert i < |s.readers| ==> Faithful(s.history, s.readers[i]);
    }
    forall i | 0 <= i < |r.uses| ensures UseFaithful(r, r.uses[i]) {
      assert UseFaithful(s, s.uses[i]);
    }
  }

  lemma {:induction false} CheckKeeps(s: State, step: Step)
    requires Published(s) && step.Check? && Enabled(s, step, true)
    ensures Published(Apply(s, step))
  {
    var r := Apply(s, step);
    assert Faithful(s.history, s.readers[step.reader]);
    forall i | 0 <= i < |r.readers| ensures Faithful(r.history, r.readers[i]) {
      assert Faithful(s.history, s.readers[i]);
    }
    forall i | 0 <= i < |r.uses| ensures UseFaithful(r, r.uses[i]) {
      assert i < |s.uses| ==> UseFaithful(s, s.uses[i]);
    }
  }

  lemma {:induction false} RefreshedFaithful(history: seq<Resolved>, g: nat, reader: Reader)
    requires g < |history| && history[g].generation == g && reader.cached.generation <= g
    requires Faithful(history, reader)
    ensures Faithful(history, Reader(reader.original, Refreshed(reader.cached, history[g]), false))
  {
    RefreshedIsStamped(history, g, reader.cached);
    RefreshedCovers(reader.cached, history[g]);
    CoversTransitive(Refreshed(reader.cached, history[g]), reader.cached, reader.original);
  }

  lemma {:induction false} RereadReaders(s: State, step: Step)
    requires Published(s) && step.Reread? && Enabled(s, step, true)
    ensures var r := Apply(s, step); forall i | 0 <= i < |r.readers| :: Faithful(r.history, r.readers[i])
  {
    var r := Apply(s, step);
    var reader := s.readers[step.reader];
    assert Faithful(s.history, reader);
    RefreshedFaithful(s.history, |s.history| - 1, reader);
  }

  lemma {:induction false} RereadKeeps(s: State, step: Step)
    requires Published(s) && step.Reread? && Enabled(s, step, true)
    ensures Published(Apply(s, step))
  {
    var r := Apply(s, step);
    RereadReaders(s, step);
    forall i | 0 <= i < |r.uses| ensures UseFaithful(r, r.uses[i]) {
      if i < |s.uses| {
        assert UseFaithful(s, s.uses[i]);
      } else {
        assert Faithful(r.history, r.readers[step.reader]);
      }
    }
  }

  lemma {:induction false} StoreKeeps(s: State, step: Step)
    requires Published(s) && step.Store? && Enabled(s, step, true)
    ensures Published(Apply(s, step))
  {
    var r := Apply(s, step);
    forall i | 0 <= i < |r.uses| ensures UseFaithful(r, r.uses[i]) {
      assert UseFaithful(s, s.uses[i]);
    }
  }

  lemma {:induction false} RunsPublished(states: seq<State>, steps: seq<Step>, i: nat)
    requires IsRun(states, steps, true) && i < |states| && |states[i].history| <= MAX_GENERATION + 1
    ensures Published(states[i])
  {
    if i == 0 {
      StartPublished(states[0].slot);
    } else {
      var s, step := states[i - 1], steps[i - 1];
      assert Follows(s, step, states[i], true);
      RunsPublished(states, steps, i - 1);
      match step
      case Swap(_) => SwapKeeps(s, step);
      case Store(_) => StoreKeeps(s, step);
      case Prepare(_) => PrepareKeeps(s, step);
      case Execute(_) => ExecuteKeeps(s, step);
      case Check(_) => CheckKeeps(s, step);
      case Reread(_) => RereadKeeps(s, step);
    }
  }

  /** Between two states of a run: generations only rise, rows are only added, and each added row used
      positions of a generation already returned when the earlier state was reached. */
  predicate Since(s: State, r: State) {
    && s.generation <= r.generation && s.history <= r.history && s.uses <= r.uses
    && (forall u | |s.uses| <= u < |r.uses| :: r.uses[u].positions.generation >= s.generation)
  }

  lemma {:induction false} HistoryGrows(states: seq<State>, steps: seq<Step>, solo: bool, i: nat, j: nat)
    requires IsRun(states, steps, solo) && i <= j < |states|
    ensures |states[i].history| <= |states[j].history|
    decreases j
  {
    if i < j {
      assert Follows(states[j - 1], steps[j - 1], states[j], solo);
      HistoryGrows(states, steps, solo, i, j - 1);
    }
  }

  lemma {:induction false} RunsSince(states: seq<State>, steps: seq<Step>, i: nat, j: nat)
    requires IsRun(states, steps, true) && i <= j < |states| && |states[j].history| <= MAX_GENERATION + 1
    ensures Since(states[i], states[j])
    decreases j
  {
    if i < j {
      assert Follows(states[j - 1], steps[j - 1], states[j], true);
      HistoryGrows(states, steps, true, j - 1, j);
      RunsSince(states, steps, i, j - 1);
      RunsPublished(states, steps, j - 1);
    }
  }

  /** Once `publish` has returned for a generation, every later row of any Execute of a cached
      statement, the first or a repeated one, uses positions that cover all of the statement's
      original description, and all of a resolution at least that new; and a description stamped
      with a generation was derived against that very resolution. With one publisher, in every
      interleaving. */
  lemma {:induction false} RowsFollowPublication(states: seq<State>, steps: seq<Step>, i: nat, j: nat, u: nat)
    requires IsRun(states, steps, true) && i <= j < |states| && |states[j].history| <= MAX_GENERATION + 1
    requires |states[i].uses| <= u < |states[j].uses|
    ensures var s := states[j]; var row := s.uses[u];
            && states[i].generation <= row.positions.generation < |s.history|
            && row.reader < |s.readers| && s.readers[row.reader].original in s.statements
            && Covers(row.positions, s.readers[row.reader].original)
            && Stamped(s.history, row.positions)
            && (forall c | c in Protected(s.history[row.positions.generation], row.positions.fields) ::
                  c in row.positions.columns)
  {
    RunsSince(states, steps, i, j);
    RunsPublished(states, steps, j);
    var s, row := states[j], states[j].uses[u];
    assert UseFaithful(s, row);
    forall c | c in Protected(s.history[row.positions.generation], row.positions.fields)
      ensures c in row.positions.columns
    {
      assert Assigns(s.history[row.positions.generation], row.positions.fields, c);
      assert Carries(row.positions, c);
    }
  }

  /** Both ways a row of the Execute being answered is read here are ones the session model allows a row
      to be read in. */
  lemma {:induction false} RowsMayDescribe(s: State, i: nat, t: Portals.Tracked, origin: nat)
    requires Published(s) && i < |s.readers|
    requires Portals.RowSourceOf(t).FromPortal? && Portals.RowSourceOf(t).positions == s.readers[i].cached
    ensures Session.MayDescribe(t, Frames.DataRow(origin), s.readers[i].cached)
    ensures Session.MayDescribe(t, Frames.DataRow(origin), Refreshed(s.readers[i].cached, s.slot))
  {
    assert Faithful(s.history, s.readers[i]);
    RefreshedCovers(s.readers[i].cached, s.slot);
  }

  // ---------------------------------------------------------------- why one publisher, and how often

  ghost function Last(states: seq<State>): (s: State)
    requires states != []
  {
    states[|states| - 1]
  }

  lemma {:induction false} Extended(states: seq<State>, steps: seq<Step>, step: Step, solo: bool)
    returns (more: seq<State>, taken: seq<Step>)
    requires IsRun(states, steps, solo) && Enabled(Last(states), step, solo)
    ensures IsRun(more, taken, solo) && Last(more) == Apply(Last(states), step)
  {
    more, taken := states + [Apply(Last(states), step)], steps + [step];
    forall i {:trigger taken[i]} | 0 <= i < |taken| ensures Follows(more[i], taken[i], more[i + 1], solo) {
      if i < |steps| {
        assert taken[i] == steps[i] && Follows(states[i], steps[i], states[i + 1], solo);
      }
    }
    assert more[0] == states[0];
  }

  /** With two publishers the stores can land out of order: both publications have returned, and a
      row still uses the older resolution, though the newer one was returned and is in the slot. */
  lemma {:induction false} TwoPublishersRegress(first: Resolved, second: Resolved, fields: seq<Field>)
    returns (states: seq<State>, steps: seq<Step>)
    ensures IsRun(states, steps, false)
    ensures var s := Last(states);
            && s.swapped == [] && s.slot == second.(generation := 2) && s.generation == 1
            && s.uses == [Use(0, DescribedBy(first.(generation := 1), fields))]
  {
    states, steps := [Start(first)], [];
    states, steps := Extended(states, steps, Swap(first), false);
    states, steps := Extended(states, steps, Prepare(fields), false);
    states, steps := Extended(states, steps, Execute(0), false);
    states, steps := Extended(states, steps, Swap(second), false);
    assert Last(states).swapped == [1, 2];
    states, steps := Extended(states, steps, Store(1), false);
    states, steps := Extended(states, steps, Store(0), false);
    states, steps := Extended(states, steps, Check(0), false);
  }

  /** The same resolution published `n` times, each publication returned before the next. */
  lemma {:induction false} Republished(resolved: Resolved, n: nat)
    returns (states: seq<State>, steps: seq<Step>)
    requires n <= MAX_GENERATION
    ensures IsRun(states, steps, true)
    ensures var s := Last(states);
            && s.slot == resolved.(generation := n) && s.generation == n && s.swapped == []
            && s.statements == [] && s.readers == [] && s.uses == []
  {
    if n == 0 {
      states, steps := [Start(resolved)], [];
    } else {
      states, steps := Republished(resolved, n - 1);
      states, steps := Extended(states, steps, Swap(resolved), true);
      assert Last(states).swapped == [n];
      states, steps := Extended(states, steps, Store(0), true);
    }
  }

  /** The generation saturates, with one publisher: after `MAX_GENERATION` publications of `older`, a
      statement is prepared and executed, `newer` is published and returned, and the row that follows is
      still read with the positions of `older`. */
  lemma {:induction false} SaturatedPublicationIsMissed(older: Resolved, newer: Resolved, fields: seq<Field>)
    returns (states: seq<State>, steps: seq<Step>)
    ensures IsRun(states, steps, true)
    ensures var s := Last(states);
            && s.slot == newer.(generation := MAX_GENERATION) && s.generation == MAX_GENERATION && s.swapped == []
            && s.uses == [Use(0, DescribedBy(older.(generation := MAX_GENERATION), fields))]
  {
    states, steps := Republished(older, MAX_GENERATION);
    states, steps := Extended(states, steps, Prepare(fields), true);
    states, steps := Extended(states, steps, Execute(0), true);
    states, steps := Extended(states, steps, Swap(newer), true);
    assert Last(states).swapped == [MAX_GENERATION];
    states, steps := Extended(states, steps, Store(0), true);
    states, steps := Extended(states, steps, Check(0), true);
  }
}
