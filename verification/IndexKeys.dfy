/** Deterministic index keys in shared storage: any number of proxies resolve, adopt or mint a key for
    a name over a store that creates a record only if it is absent. Every store request, every cache
    access and every failure is one step, and a create whose answer was lost may still be applied at
    any later time. */
module IndexKeys {
  import opened Bytes
  import Hex

  const KEY_LEN: nat := 32

  datatype Record = Record(current: nat, versions: map<nat, bytes>)

  function First(hex: bytes): (r: Record) {
    Record(1, map[1 := hex])
  }

  function DecodeKey(hex: bytes): (k: Option<bytes>) {
    match Hex.Decode(hex)
    case Some(k) => if |k| == KEY_LEN then Some(k) else None
    case None => None
  }

  function CurrentKey(r: Record): (k: Option<bytes>) {
    if r.current in r.versions then DecodeKey(r.versions[r.current]) else None
  }

  function RecordOf(key: bytes): (r: Record) {
    First(Hex.Encode(key))
  }

  lemma {:induction false} RecordRoundTrip(key: bytes)
    requires |key| == KEY_LEN
    ensures CurrentKey(RecordOf(key)) == Some(key)
  {
    Hex.DecodeEncode(key);
  }

  /** A record of any number of versions answers the one it calls current, and only if that is the
      hexadecimal form of a whole key. */
  lemma {:induction false} CurrentKeyIff(r: Record, key: bytes)
    ensures CurrentKey(r) == Some(key) <==>
              |key| == KEY_LEN && r.current in r.versions && Hex.Decode(r.versions[r.current]) == Some(key)
  {
  }

  /** So a record that was given a newer version answers the newer key, whatever older ones it keeps. */
  lemma {:induction false} NewestVersionAnswers(r: Record, version: nat, key: bytes)
    requires |key| == KEY_LEN
    ensures CurrentKey(Record(version, r.versions[version := Hex.Encode(key)])) == Some(key)
  {
    Hex.DecodeEncode(key);
    CurrentKeyIff(Record(version, r.versions[version := Hex.Encode(key)]), key);
  }

  // ---------------------------------------------------------------- the machine

  /** Where one lookup stands. */
  datatype Pc =
    | Entered
    | Reading
    | Unrecorded
    | Drawing
    | Adopting(key: bytes)
    | Minting(key: bytes)
    | Conflicted
    | Resolved(key: bytes)
    | Done(key: bytes)
    | Failed

  datatype Call = Call(proxy: nat, name: bytes, pc: Pc)

  /** `late` holds creates whose caller has given up on the answer. */
  datatype State = State(
    records: map<bytes, Record>, legacy: map<bytes, bytes>, late: set<(bytes, Record)>,
    caches: map<(nat, bytes), bytes>, calls: seq<Call>)

  datatype Step =
    | Request(proxy: nat, name: bytes)
    | Look(call: nat)
    | Read(call: nat)
    | ReadLegacy(call: nat)
    | Draw(call: nat, key: bytes)
    | Create(call: nat)
    | Reread(call: nat)
    | Cache(call: nat)
    | Fail(call: nat)
    | Deliver(name: bytes, record: Record)
    | Retire(names: set<bytes>)

  predicate Finished(pc: Pc) {
    pc.Done? || pc.Failed?
  }

  /** `premature` admits retiring a legacy entry whose record does not exist yet. */
  predicate Enabled(s: State, step: Step, premature: bool) {
    match step
    case Request(_, _) => true
    case Look(c) => c < |s.calls| && s.calls[c].pc.Entered?
    case Read(c) => c < |s.calls| && s.calls[c].pc.Reading?
    case ReadLegacy(c) => c < |s.calls| && s.calls[c].pc.Unrecorded?
    case Draw(c, key) => c < |s.calls| && s.calls[c].pc.Drawing? && |key| == KEY_LEN
    case Create(c) => c < |s.calls| && (s.calls[c].pc.Adopting? || s.calls[c].pc.Minting?)
    case Reread(c) => c < |s.calls| && s.calls[c].pc.Conflicted?
    case Cache(c) => c < |s.calls| && s.calls[c].pc.Resolved?
    case Fail(c) => c < |s.calls| && !Finished(s.calls[c].pc)
    case Deliver(name, record) => (name, record) in s.late
    case Retire(names) => premature || forall n | n in names && n in s.legacy :: n in s.records
  }

  function Moved(s: State, c: nat, pc: Pc): (r: State)
    requires c < |s.calls|
  {
    s.(calls := s.calls[c := s.calls[c].(pc := pc)])
  }

  /** Check-and-set with version 0: create only if absent. */
  function Created(records: map<bytes, Record>, name: bytes, record: Record): (r: map<bytes, Record>) {
    if name in records then records else records[name := record]
  }

  function Answer(k: Option<bytes>): (pc: Pc) {
    match k case Some(key) => Resolved(key) case None => Failed
  }

  function AfterCreate(s: State, c: nat): (pc: Pc)
    requires c < |s.calls| && (s.calls[c].pc.Adopting? || s.calls[c].pc.Minting?)
  {
    if s.calls[c].pc.Minting? && s.calls[c].name in s.records then Conflicted else Resolved(s.calls[c].pc.key)
  }

  function Apply(s: State, step: Step): (r: State)
    requires Enabled(s, step, true)
  {
    match step
    case Request(proxy, name) => s.(calls := s.calls + [Call(proxy, name, Entered)])
    case Look(c) =>
      var k := (s.calls[c].proxy, s.calls[c].name);
      Moved(s, c, if k in s.caches then Done(s.caches[k]) else Reading)
    case Read(c) =>
      Moved(s, c, if s.calls[c].name in s.records then Answer(CurrentKey(s.records[s.calls[c].name])) else Unrecorded)
    case ReadLegacy(c) =>
      if s.calls[c].name !in s.legacy then Moved(s, c, Drawing)
      else
        var k := DecodeKey(s.legacy[s.calls[c].name]);
        Moved(s, c, if k.Some? then Adopting(k.value) else Failed)
    case Draw(c, key) => Moved(s, c, Minting(key))
    case Create(c) =>
      Moved(s, c, AfterCreate(s, c)).(
        records := Created(s.records, s.calls[c].name, RecordOf(s.calls[c].pc.key)))
    case Reread(c) =>
      Moved(s, c, if s.calls[c].name in s.records then Answer(CurrentKey(s.records[s.calls[c].name])) else Failed)
    case Cache(c) =>
      Moved(s, c, Done(s.calls[c].pc.key)).(
        caches := s.caches[(s.calls[c].proxy, s.calls[c].name) := s.calls[c].pc.key])
    case Fail(c) =>
      var pc := s.calls[c].pc;
      Moved(s, c, Failed).(late :=
        if pc.Adopting? || pc.Minting? then s.late + {(s.calls[c].name, RecordOf(pc.key))} else s.late)
    case Deliver(name, record) => s.(records := Created(s.records, name, record))
    case Retire(names) => s.(legacy := s.legacy - names)
  }

  predicate Follows(s: State, step: Step, r: State, premature: bool) {
    Enabled(s, step, premature) && r == Apply(s, step)
  }

  /** Any storage to begin with; no lookup has started and nothing is cached. */
  predicate Initial(s: State) {
    s.calls == [] && s.caches == map[] && s.late == {}
  }

  predicate IsRun(states: seq<State>, steps: seq<Step>, premature: bool) {
    && |states| == |steps| + 1 && Initial(states[0])
    && (forall i {:trigger steps[i]} | 0 <= i < |steps| :: Follows(states[i], steps[i], states[i + 1], premature))
  }

  // ---------------------------------------------------------------- records never change

  /** A stored record is there for good, and never changes. */
  lemma {:induction false} RecordsNeverChange(
    states: seq<State>, steps: seq<Step>, premature: bool, i: nat, j: nat, name: bytes)
    requires IsRun(states, steps, premature) && i <= j < |states| && name in states[i].records
    ensures name in states[j].records && states[j].records[name] == states[i].records[name]
    decreases j
  {
    if i < j {
      RecordsNeverChange(states, steps, premature, i, j - 1, name);
      assert Follows(states[j - 1], steps[j - 1], states[j], premature);
    }
  }

  // ---------------------------------------------------------------- agreement

  /** The key a name must resolve to if it starts out only in the legacy map. */
  predicate Promised(origin: State, name: bytes) {
    name in origin.legacy && name !in origin.records
  }

  predicate Stored(s: State, name: bytes, key: bytes) {
    name in s.records && CurrentKey(s.records[name]) == Some(key)
  }

  /** What a create may write: the promised key, or anything once that can no longer matter. */
  predicate MayWrite(origin: State, s: State, name: bytes, key: bytes) {
    |key| == KEY_LEN && (Promised(origin, name) ==>
      DecodeKey(origin.legacy[name]) == Some(key) || name in s.records)
  }

  predicate Sound(origin: State, s: State, c: Call) {
    match c.pc
    case Adopting(key) =>
      && |key| == KEY_LEN && Promised(origin, c.name) && DecodeKey(origin.legacy[c.name]) == Some(key)
    case Unrecorded => c.name !in origin.records
    case Drawing => Promised(origin, c.name) ==> c.name in s.records
    case Minting(key) => |key| == KEY_LEN && (Promised(origin, c.name) ==> c.name in s.records)
    case Resolved(key) => Stored(s, c.name, key)
    case Done(key) => Stored(s, c.name, key)
    case _ => true
  }

  /** The legacy map only shrinks, past names already recorded, and a promised name is recorded with
      its promised key. */
  predicate Migrating(origin: State, s: State) {
    && (forall n | n in s.legacy :: n in origin.legacy && s.legacy[n] == origin.legacy[n])
    && (forall n | n in origin.legacy && n !in s.legacy :: n in s.records)
    && (forall n | n in origin.records :: n in s.records)
    && (forall n | n in s.records && Promised(origin, n) ::
          CurrentKey(s.records[n]) == DecodeKey(origin.legacy[n]) && CurrentKey(s.records[n]).Some?)
  }

  predicate LateSound(origin: State, s: State) {
    forall l | l in s.late ::
      CurrentKey(l.1).Some? && MayWrite(origin, s, l.0, CurrentKey(l.1).value)
  }

  predicate CachesSound(s: State) {
    forall k | k in s.caches :: Stored(s, k.1, s.caches[k])
  }

  predicate Agreeing(origin: State, s: State) {
    && Migrating(origin, s) && LateSound(origin, s) && CachesSound(s)
    && (forall c | 0 <= c < |s.calls| :: Sound(origin, s, s.calls[c]))
  }

  /** Records only grow, and only by keys that may be written. */
  predicate Grown(origin: State, s: State, r: State) {
    && (forall n | n in s.records :: n in r.records && r.records[n] == s.records[n])
    && (forall n | n in r.records && n !in s.records && Promised(origin, n) ::
          CurrentKey(r.records[n]) == DecodeKey(origin.legacy[n]) && CurrentKey(r.records[n]).Some?)
  }

  lemma {:induction false} SoundLater(origin: State, s: State, r: State, c: Call)
    requires Sound(origin, s, c) && Grown(origin, s, r)
    ensures Sound(origin, r, c)
  {
  }

  lemma {:induction false} CreateGrows(origin: State, s: State, name: bytes, record: Record)
    requires CurrentKey(record).Some? && MayWrite(origin, s, name, CurrentKey(record).value)
    ensures Grown(origin, s, s.(records := Created(s.records, name, record)))
  {
  }

  lemma {:induction false} StepGrows(origin: State, s: State, step: Step)
    requires Agreeing(origin, s) && Enabled(s, step, false)
    ensures Grown(origin, s, Apply(s, step))
  {
    if step.Create? {
      var c := s.calls[step.call];
      assert Sound(origin, s, c);
      RecordRoundTrip(c.pc.key);
      CreateGrows(origin, s, c.name, RecordOf(c.pc.key));
    } else if step.Deliver? {
      CreateGrows(origin, s, step.name, step.record);
    }
  }

  lemma {:induction false} StepSound(origin: State, s: State, step: Step, c: nat)
    requires Agreeing(origin, s) && Enabled(s, step, false)
    requires step.Look? || step.Read? || step.ReadLegacy? || step.Draw? || step.Create? || step.Reread? || step.Cache?
    requires c == step.call
    ensures Sound(origin, Apply(s, step), Apply(s, step).calls[c])
  {
    var call, r := s.calls[c], Apply(s, step);
    assert Sound(origin, s, call);
    StepGrows(origin, s, step);
    if step.ReadLegacy? && r.calls[c].pc.Adopting? {
      DecodedLength(s.legacy[call.name]);
    } else if step.Create? {
      RecordRoundTrip(call.pc.key);
    } else if step.Look? && r.calls[c].pc.Done? {
      assert Stored(s, call.name, s.caches[(call.proxy, call.name)]);
    }
  }

  lemma {:induction false} DecodedLength(hex: bytes)
    ensures DecodeKey(hex).Some? ==> |DecodeKey(hex).value| == KEY_LEN
  {
  }

  lemma {:induction false} CallsStaySound(origin: State, s: State, step: Step)
    requires Agreeing(origin, s) && Enabled(s, step, false)
    ensures var r := Apply(s, step); forall c | 0 <= c < |r.calls| :: Sound(origin, r, r.calls[c])
  {
    var r := Apply(s, step);
    StepGrows(origin, s, step);
    forall c | 0 <= c < |r.calls| ensures Sound(origin, r, r.calls[c]) {
      if c < |s.calls| && r.calls[c] == s.calls[c] {
        SoundLater(origin, s, r, s.calls[c]);
      } else if c < |s.calls| && !step.Fail? {
        StepSound(origin, s, step, c);
      }
    }
  }

  lemma {:induction false} LateStaysSound(origin: State, s: State, step: Step)
    requires Agreeing(origin, s) && Enabled(s, step, false)
    ensures LateSound(origin, Apply(s, step))
  {
    var r := Apply(s, step);
    StepGrows(origin, s, step);
    forall l | l in r.late ensures CurrentKey(l.1).Some? && MayWrite(origin, r, l.0, CurrentKey(l.1).value) {
      if l !in s.late {
        var call := s.calls[step.call];
        assert Sound(origin, s, call);
        RecordRoundTrip(call.pc.key);
      }
    }
  }

  lemma {:induction false} CachesStaySound(origin: State, s: State, step: Step)
    requires Agreeing(origin, s) && Enabled(s, step, false)
    ensures CachesSound(Apply(s, step))
  {
    var r := Apply(s, step);
    StepGrows(origin, s, step);
    forall k | k in r.caches ensures Stored(r, k.1, r.caches[k]) {
      if step.Cache? && k == (s.calls[step.call].proxy, s.calls[step.call].name) {
        assert Sound(origin, s, s.calls[step.call]);
      } else {
        assert Stored(s, k.1, s.caches[k]);
      }
    }
  }

  lemma {:induction false} StepKeepsMigrating(origin: State, s: State, step: Step)
    requires Agreeing(origin, s) && Enabled(s, step, false)
    ensures Migrating(origin, Apply(s, step))
  {
    var r := Apply(s, step);
    StepGrows(origin, s, step);
  }

  lemma {:induction false} RunsAgree(states: seq<State>, steps: seq<Step>, i: nat)
    requires IsRun(states, steps, false) && i < |states|
    ensures Agreeing(states[0], states[i])
  {
    if i > 0 {
      RunsAgree(states, steps, i - 1);
      var origin, s, step := states[0], states[i - 1], steps[i - 1];
      assert Follows(s, step, states[i], false);
      StepKeepsMigrating(origin, s, step);
      LateStaysSound(origin, s, step);
      CachesStaySound(origin, s, step);
      CallsStaySound(origin, s, step);
    }
  }

  /** Every lookup that succeeds, in any proxy and at any time, answers the key of the one record the
      name has; a name that started out in the legacy map keeps the key it had there. */
  lemma {:induction false} LookupsAgree(
    states: seq<State>, steps: seq<Step>, i: nat, j: nat, c: nat, d: nat)
    requires IsRun(states, steps, false) && i <= j < |states|
    requires c < |states[i].calls| && states[i].calls[c].pc.Done?
    requires d < |states[j].calls| && states[j].calls[d].pc.Done? && states[j].calls[d].name == states[i].calls[c].name
    ensures states[i].calls[c].pc.key == states[j].calls[d].pc.key
    ensures Promised(states[0], states[i].calls[c].name) ==>
              DecodeKey(states[0].legacy[states[i].calls[c].name]) == Some(states[i].calls[c].pc.key)
  {
    RunsAgree(states, steps, i);
    RunsAgree(states, steps, j);
    assert Sound(states[0], states[i], states[i].calls[c]) && Sound(states[0], states[j], states[j].calls[d]);
    RecordsNeverChange(states, steps, false, i, j, states[i].calls[c].name);
  }

  // ---------------------------------------------------------------- a failed read never creates

  /** No lookup of `name` has learnt that its record is absent. */
  predicate Untold(s: State, name: bytes) {
    && (forall c | 0 <= c < |s.calls| && s.calls[c].name == name ::
          s.calls[c].pc.Entered? || s.calls[c].pc.Reading? || s.calls[c].pc.Resolved? || Finished(s.calls[c].pc))
    && (forall l | l in s.late :: l.0 != name)
  }

  predicate ReadsAbsent(s: State, step: Step, name: bytes) {
    step.Read? && step.call < |s.calls| && s.calls[step.call].name == name && name !in s.records
  }

  lemma {:induction false} UntoldStep(s: State, step: Step, name: bytes)
    requires Untold(s, name) && Enabled(s, step, true) && !ReadsAbsent(s, step, name)
    ensures var r := Apply(s, step);
            && Untold(r, name) && (name in r.records <==> name in s.records)
            && (name in s.records ==> r.records[name] == s.records[name])
  {
  }

  /** Unless some read of this very name has succeeded and found nothing, its record is not created:
      failed reads, lookups of other names and the legacy migration of other names never touch it. */
  lemma {:induction false} OnlyConfirmedAbsenceCreates(
    states: seq<State>, steps: seq<Step>, premature: bool, i: nat, name: bytes)
    requires IsRun(states, steps, premature) && i < |states|
    requires forall k | 0 <= k < i :: !ReadsAbsent(states[k], steps[k], name)
    ensures name in states[i].records <==> name in states[0].records
    ensures name in states[0].records ==> states[i].records[name] == states[0].records[name]
    ensures Untold(states[i], name)
  {
    if i > 0 {
      OnlyConfirmedAbsenceCreates(states, steps, premature, i - 1, name);
      assert Follows(states[i - 1], steps[i - 1], states[i], premature);
      UntoldStep(states[i - 1], steps[i - 1], name);
    }
  }

  // ---------------------------------------------------------------- a lookup by itself

  ghost function Last(states: seq<State>): (s: State)
    requires states != []
  {
    states[|states| - 1]
  }

  lemma {:induction false} Extended(states: seq<State>, steps: seq<Step>, step: Step)
    returns (more: seq<State>, taken: seq<Step>)
    requires IsRun(states, steps, true) && Enabled(Last(states), step, true)
    ensures IsRun(more, taken, true) && more[0] == states[0] && taken == steps + [step]
    ensures Last(more) == Apply(Last(states), step)
  {
    more, taken := states + [Apply(Last(states), step)], steps + [step];
    forall i {:trigger taken[i]} | 0 <= i < |taken| ensures Follows(more[i], taken[i], more[i + 1], true) {
      if i < |steps| {
        assert taken[i] == steps[i] && Follows(states[i], steps[i], states[i + 1], true);
      }
    }
  }

  /** In every run, a proxy that has answered a name has its key in its cache from then on: no later lookup of
      that name in that proxy asks the store again. */
  lemma {:induction false} AnsweredStaysCached(
    states: seq<State>, steps: seq<Step>, premature: bool, i: nat, j: nat, c: nat)
    requires IsRun(states, steps, premature) && i <= j < |states| && c < |states[i].calls|
    requires states[i].calls[c].pc.Done?
    ensures (states[i].calls[c].proxy, states[i].calls[c].name) in states[j].caches
    decreases j
  {
    if i < j {
      AnsweredStaysCached(states, steps, premature, i, j - 1, c);
      assert Follows(states[j - 1], steps[j - 1], states[j], premature);
    } else {
      AnsweredIsCached(states, steps, premature, i, c);
    }
  }

  lemma {:induction false} AnsweredIsCached(states: seq<State>, steps: seq<Step>, premature: bool, i: nat, c: nat)
    requires IsRun(states, steps, premature) && i < |states| && c < |states[i].calls| && states[i].calls[c].pc.Done?
    ensures (states[i].calls[c].proxy, states[i].calls[c].name) in states[i].caches
  {
    if i > 0 {
      var s := states[i - 1];
      assert Follows(s, steps[i - 1], states[i], premature);
      if c < |s.calls| && s.calls[c].pc.Done? {
        AnsweredIsCached(states, steps, premature, i - 1, c);
      }
    }
  }

  /** A create whose caller gave up on the answer may still be applied: from any run with a call about to
      create an absent name, that call can fail and the name be recorded with its key all the same. */
  lemma {:induction false} LateCreateLands(states: seq<State>, steps: seq<Step>, c: nat)
    returns (more: seq<State>, taken: seq<Step>)
    requires IsRun(states, steps, true) && c < |Last(states).calls|
    requires var s := Last(states);
             (s.calls[c].pc.Adopting? || s.calls[c].pc.Minting?) && s.calls[c].name !in s.records
    ensures IsRun(more, taken, true) && more[0] == states[0]
    ensures var s, r := Last(states), Last(more);
            && |r.calls| == |s.calls| && r.calls[c].pc.Failed?
            && r.records == s.records[s.calls[c].name := RecordOf(s.calls[c].pc.key)]
  {
    var s := Last(states);
    more, taken := Extended(states, steps, Fail(c));
    more, taken := Extended(more, taken, Deliver(s.calls[c].name, RecordOf(s.calls[c].pc.key)));
  }

  /** How a lookup that nobody disturbs and nothing fails ends, and the records it leaves: the cached
      key, the record's, the legacy map's with a record for it, or the drawn one with a record. */
  function Alone(s: State, proxy: nat, name: bytes, drawn: bytes): (r: (Pc, map<bytes, Record>)) {
    if (proxy, name) in s.caches then (Done(s.caches[(proxy, name)]), s.records)
    else if name in s.records then
      match CurrentKey(s.records[name]) case Some(k) => (Done(k), s.records) case None => (Failed, s.records)
    else if name in s.legacy then
      match DecodeKey(s.legacy[name])
      case Some(k) => (Done(k), s.records[name := RecordOf(k)])
      case None => (Failed, s.records)
    else (Done(drawn), s.records[name := RecordOf(drawn)])
  }

  predicate OnlyCall(steps: seq<Step>, taken: seq<Step>, c: nat) {
    && steps <= taken
    && (forall i | |steps| <= i < |taken| ::
          !taken[i].Fail? && !taken[i].Deliver? && !taken[i].Retire? && (taken[i].Request? || taken[i].call == c))
  }

  predicate Ends(s: State, r: State, proxy: nat, name: bytes, drawn: bytes) {
    && r.calls == s.calls + [Call(proxy, name, Alone(s, proxy, name, drawn).0)]
    && r.records == Alone(s, proxy, name, drawn).1
  }

  /** The state with a new call at `pc`. */
  function With(s: State, proxy: nat, name: bytes, pc: Pc): (r: State) {
    s.(calls := s.calls + [Call(proxy, name, pc)])
  }

  /** One more step of the newest call. */
  lemma {:induction false} Steps(
    states: seq<State>, steps: seq<Step>, s: State, proxy: nat, name: bytes, pc: Pc, step: Step, to: Pc)
    returns (more: seq<State>, taken: seq<Step>)
    requires IsRun(states, steps, true) && Last(states) == With(s, proxy, name, pc)
    requires step.Look? || step.Read? || step.ReadLegacy? || step.Draw?
    requires step.call == |s.calls| && Enabled(Last(states), step, true)
    requires Apply(Last(states), step) == Moved(Last(states), |s.calls|, to)
    ensures IsRun(more, taken, true) && taken == steps + [step] && Last(more) == With(s, proxy, name, to)
  {
    more, taken := Extended(states, steps, step);
    assert Last(more).calls == With(s, proxy, name, to).calls;
  }

  /** From any state of any run, a lookup that nobody disturbs ends as `Alone` says, having changed no
      record but its own name's. */
  lemma {:induction false} LoneLookup(states: seq<State>, steps: seq<Step>, proxy: nat, name: bytes, drawn: bytes)
    returns (more: seq<State>, taken: seq<Step>)
    requires IsRun(states, steps, true) && |drawn| == KEY_LEN
    ensures IsRun(more, taken, true) && OnlyCall(steps, taken, |Last(states).calls|)
    ensures Ends(Last(states), Last(more), proxy, name, drawn)
  {
    var s := Last(states);
    var c := |s.calls|;
    more, taken := Extended(states, steps, Request(proxy, name));
    if (proxy, name) in s.caches {
      more, taken := Steps(more, taken, s, proxy, name, Entered, Look(c), Done(s.caches[(proxy, name)]));
    } else {
      more, taken := Steps(more, taken, s, proxy, name, Entered, Look(c), Reading);
      if name in s.records {
        more, taken := ReadsRecord(more, taken, s, proxy, name, drawn);
      } else {
        more, taken := Steps(more, taken, s, proxy, name, Reading, Read(c), Unrecorded);
        more, taken := ResolvesAbsent(more, taken, s, proxy, name, drawn);
      }
    }
  }

  lemma {:induction false} ReadsRecord(
    states: seq<State>, steps: seq<Step>, s: State, proxy: nat, name: bytes, drawn: bytes)
    returns (more: seq<State>, taken: seq<Step>)
    requires IsRun(states, steps, true) && name in s.records && (proxy, name) !in s.caches
    requires Last(states) == With(s, proxy, name, Reading)
    ensures IsRun(more, taken, true) && OnlyCall(steps, taken, |s.calls|)
    ensures Ends(s, Last(more), proxy, name, drawn)
  {
    var c, k := |s.calls|, CurrentKey(s.records[name]);
    more, taken := Steps(states, steps, s, proxy, name, Reading, Read(c), Answer(k));
    if k.Some? {
      more, taken := Extended(more, taken, Cache(c));
    }
  }

  lemma {:induction false} ResolvesAbsent(
    states: seq<State>, steps: seq<Step>, s: State, proxy: nat, name: bytes, drawn: bytes)
    returns (more: seq<State>, taken: seq<Step>)
    requires IsRun(states, steps, true) && |drawn| == KEY_LEN
    requires name !in s.records && (proxy, name) !in s.caches
    requires Last(states) == With(s, proxy, name, Unrecorded)
    ensures IsRun(more, taken, true) && OnlyCall(steps, taken, |s.calls|)
    ensures Ends(s, Last(more), proxy, name, drawn)
  {
    var c := |s.calls|;
    if name !in s.legacy {
      more, taken := Steps(states, steps, s, proxy, name, Unrecorded, ReadLegacy(c), Drawing);
      more, taken := Steps(more, taken, s, proxy, name, Drawing, Draw(c, drawn), Minting(drawn));
      more, taken := CreatesAlone(more, taken, s, proxy, name, Minting(drawn));
    } else if DecodeKey(s.legacy[name]).Some? {
      var k := DecodeKey(s.legacy[name]).value;
      more, taken := Steps(states, steps, s, proxy, name, Unrecorded, ReadLegacy(c), Adopting(k));
      more, taken := CreatesAlone(more, taken, s, proxy, name, Adopting(k));
    } else {
      more, taken := Steps(states, steps, s, proxy, name, Unrecorded, ReadLegacy(c), Failed);
    }
  }

  lemma {:induction false} CreatesAlone(
    states: seq<State>, steps: seq<Step>, s: State, proxy: nat, name: bytes, pc: Pc)
    returns (more: seq<State>, taken: seq<Step>)
    requires IsRun(states, steps, true) && name !in s.records && (pc.Minting? || pc.Adopting?)
    requires Last(states) == With(s, proxy, name, pc)
    ensures IsRun(more, taken, true) && taken == steps + [Create(|s.calls|), Cache(|s.calls|)]
    ensures Last(more).calls == s.calls + [Call(proxy, name, Done(pc.key))]
    ensures Last(more).records == s.records[name := RecordOf(pc.key)]
  {
    more, taken := Extended(states, steps, Create(|s.calls|));
    more, taken := Extended(more, taken, Cache(|s.calls|));
  }

  /** From any run, a call about to create a name that another has just recorded answers the recorded key,
      and leaves the record. */
  lemma {:induction false} LosesRace(states: seq<State>, steps: seq<Step>, c: nat, winner: bytes)
    returns (more: seq<State>, taken: seq<Step>)
    requires IsRun(states, steps, true) && c < |Last(states).calls|
    requires Last(states).calls[c].pc.Minting? && Stored(Last(states), Last(states).calls[c].name, winner)
    ensures IsRun(more, taken, true) && more[0] == states[0] && taken == steps + [Create(c), Reread(c), Cache(c)]
    ensures Last(more).records == Last(states).records
    ensures Last(more).calls == Last(states).calls[c := Last(states).calls[c].(pc := Done(winner))]
  {
    more, taken := Extended(states, steps, Create(c));
    more, taken := Extended(more, taken, Reread(c));
    more, taken := Extended(more, taken, Cache(c));
  }

  /** Two proxies that find a name neither recorded nor in the legacy map, and draw a key each. */
  lemma {:induction false} BothDraw(name: bytes, first: bytes, second: bytes)
    returns (states: seq<State>, steps: seq<Step>)
    requires |first| == KEY_LEN && |second| == KEY_LEN
    ensures IsRun(states, steps, true)
    ensures Last(states)
         == State(map[], map[], {}, map[], [Call(0, name, Minting(first)), Call(1, name, Minting(second))])
  {
    states, steps := [State(map[], map[], {}, map[], [])], [];
    states, steps := Extended(states, steps, Request(0, name));
    states, steps := Extended(states, steps, Request(1, name));
    states, steps := Extended(states, steps, Look(0));
    states, steps := Extended(states, steps, Look(1));
    states, steps := Extended(states, steps, Read(0));
    states, steps := Extended(states, steps, Read(1));
    assert Last(states).calls == [Call(0, name, Unrecorded), Call(1, name, Unrecorded)];
    states, steps := Extended(states, steps, ReadLegacy(0));
    states, steps := Extended(states, steps, ReadLegacy(1));
    states, steps := Extended(states, steps, Draw(0, first));
    states, steps := Extended(states, steps, Draw(1, second));
    assert Last(states).calls == [Call(0, name, Minting(first)), Call(1, name, Minting(second))];
  }

  /** The race itself, for any name and any two keys drawn: the first to create is recorded, and both
      proxies answer its key. */
  lemma {:induction false} LostRaceAdopts(name: bytes, first: bytes, second: bytes)
    returns (states: seq<State>, steps: seq<Step>)
    requires |first| == KEY_LEN && |second| == KEY_LEN
    ensures IsRun(states, steps, true) && Last(states).records == map[name := RecordOf(first)]
    ensures Last(states).calls == [Call(0, name, Done(first)), Call(1, name, Done(first))]
  {
    RecordRoundTrip(first);
    states, steps := BothDraw(name, first, second);
    states, steps := Extended(states, steps, Create(0));
    states, steps := Extended(states, steps, Cache(0));
    assert Last(states).calls == [Call(0, name, Done(first)), Call(1, name, Minting(second))];
    states, steps := LosesRace(states, steps, 1, first);
  }

  // ---------------------------------------------------------------- retiring too early

  /** One proxy has read the legacy key; then the entry is retired with no record yet written. */
  lemma {:induction false} RetiredUnderReader(name: bytes, l: bytes) returns (states: seq<State>, steps: seq<Step>)
    requires |l| == KEY_LEN
    ensures IsRun(states, steps, true) && states[0] == State(map[], map[name := Hex.Encode(l)], {}, map[], [])
    ensures Last(states) == State(map[], map[], {}, map[], [Call(0, name, Adopting(l)), Call(1, name, Entered)])
  {
    Hex.DecodeEncode(l);
    states, steps := [State(map[], map[name := Hex.Encode(l)], {}, map[], [])], [];
    states, steps := Extended(states, steps, Request(0, name));
    states, steps := Extended(states, steps, Request(1, name));
    states, steps := Extended(states, steps, Look(0));
    states, steps := Extended(states, steps, Read(0));
    states, steps := Extended(states, steps, ReadLegacy(0));
    states, steps := Extended(states, steps, Retire({name}));
    assert Last(states).legacy == map[];
    assert Last(states).calls == [Call(0, name, Adopting(l)), Call(1, name, Entered)];
  }

  /** The other proxy then finds neither and mints. */
  lemma {:induction false} MintedAfterRetirement(
    states: seq<State>, steps: seq<Step>, name: bytes, l: bytes, f: bytes)
    returns (more: seq<State>, taken: seq<Step>)
    requires IsRun(states, steps, true) && |f| == KEY_LEN
    requires Last(states) == State(map[], map[], {}, map[], [Call(0, name, Adopting(l)), Call(1, name, Entered)])
    ensures IsRun(more, taken, true) && more[0] == states[0]
    ensures Last(more)
         == State(map[name := RecordOf(f)], map[], {}, map[], [Call(0, name, Adopting(l)), Call(1, name, Resolved(f))])
  {
    more, taken := Extended(states, steps, Look(1));
    more, taken := Extended(more, taken, Read(1));
    more, taken := Extended(more, taken, ReadLegacy(1));
    more, taken := Extended(more, taken, Draw(1, f));
    more, taken := Extended(more, taken, Create(1));
    assert Last(more).calls == [Call(0, name, Adopting(l)), Call(1, name, Resolved(f))];
  }

  /** Agreement needs the retirement rule: retired before its record exists, a name resolves to its
      legacy key in one proxy and to a fresh one in another. */
  lemma {:induction false} PrematureRetirementDisagrees(name: bytes, l: bytes, f: bytes)
    returns (states: seq<State>, steps: seq<Step>)
    requires |l| == KEY_LEN && |f| == KEY_LEN && l != f
    ensures IsRun(states, steps, true) && states[0].legacy == map[name := Hex.Encode(l)]
    ensures |Last(states).calls| == 2
    ensures Last(states).calls[0] == Call(0, name, Done(l)) && Last(states).calls[1] == Call(1, name, Done(f))
  {
    states, steps := RetiredUnderReader(name, l);
    states, steps := MintedAfterRetirement(states, steps, name, l, f);
    states, steps := Extended(states, steps, Cache(1));
    states, steps := Extended(states, steps, Create(0));
    states, steps := Extended(states, steps, Cache(0));
  }
}
