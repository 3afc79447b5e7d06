/** The cipher cache under concurrency: threads that seal share one slot for the active key, and each
    key carries an invocation budget (section 8.3 of NIST SP 800-38D).

    Every lock section and every atomic operation is one step. The key source numbers its active keys
    by epoch, and a key id stands for its epoch. */
module DekBudget {
  import opened Bytes

  const TWO_64: nat := 0x1_0000_0000_0000_0000

  /** One cipher object: the key id it was built for, its 64-bit counter, and what it has done. */
  datatype Cipher = Cipher(id: nat, used: nat, attempts: nat, sealed: nat)

  /** The slot of the active key, and every cipher ever built for it, oldest first. */
  datatype Pool = Pool(slot: Option<nat>, ciphers: seq<Cipher>)

  datatype Outcome = Sealed | Refused | Exhausted

  function Fresh(id: nat): (c: Cipher) {
    Cipher(id, 0, 0, 0)
  }

  /** One encryption: the counter is charged before anything else can fail. */
  function Charged(c: Cipher, budget: nat, fails: bool): (r: (Cipher, Outcome)) {
    var d := c.(used := (c.used + 1) % TWO_64, attempts := c.attempts + 1);
    if c.used >= budget then (d, Exhausted)
    else if fails then (d, Refused)
    else (d.(sealed := c.sealed + 1), Sealed)
  }

  /** Fill an empty slot with a cipher for `id`; keep a full one. */
  function Installed(p: Pool, id: nat): (q: Pool) {
    if p.slot.Some? then p else Pool(Some(|p.ciphers|), p.ciphers + [Fresh(id)])
  }

  /** Replace the cipher for `spent`; keep one that is already for another key. */
  function Rolled(p: Pool, spent: nat, id: nat): (q: Pool)
    requires p.slot.Some? ==> p.slot.value < |p.ciphers|
  {
    if p.slot.Some? && p.ciphers[p.slot.value].id != spent then p
    else Pool(Some(|p.ciphers|), p.ciphers + [Fresh(id)])
  }

  /** The cache, and the lock sections its methods run. */
  class Ciphers {
    const budget: nat
    var slot: Option<nat>
    var ciphers: seq<Cipher>

    ghost predicate Valid()
      reads this
    {
      slot.Some? ==> slot.value < |ciphers|
    }

    ghost function Contents(): (p: Pool)
      reads this
    {
      Pool(slot, ciphers)
    }

    constructor (budget: nat)
      ensures Valid() && Contents() == Pool(None, []) && this.budget == budget
    {
      this.budget := budget;
      slot, ciphers := None, [];
    }

    /** The write section of `active`. */
    method GetOrInsert(id: nat) returns (c: nat)
      requires Valid()
      modifies this
      ensures Valid() && Contents() == Installed(old(Contents()), id)
      ensures slot == Some(c)
    {
      if slot.None? {
        slot, ciphers := Some(|ciphers|), ciphers + [Fresh(id)];
      }
      c := slot.value;
    }

    /** The write section of `roll_active`. */
    method Replace(spent: nat, id: nat) returns (c: nat)
      requires Valid()
      modifies this
      ensures Valid() && Contents() == Rolled(old(Contents()), spent, id)
      ensures slot == Some(c)
    {
      if slot.Some? {
        if ciphers[slot.value].id != spent {
          return slot.value;
        }
      }
      c := |ciphers|;
      slot, ciphers := Some(c), ciphers + [Fresh(id)];
    }

    method Encrypt(c: nat, fails: bool) returns (o: Outcome)
      requires Valid() && c < |ciphers|
      modifies `ciphers
      ensures Valid() && |ciphers| == |old(ciphers)|
      ensures (ciphers[c], o) == Charged(old(ciphers)[c], budget, fails)
      ensures ciphers == old(ciphers)[c := ciphers[c]]
    {
      var d := ciphers[c];
      var used := d.used;
      d := d.(used := (used + 1) % TWO_64, attempts := d.attempts + 1);
      if used >= budget {
        o := Exhausted;
      } else if fails {
        o := Refused;
      } else {
        o, d := Sealed, d.(sealed := d.sealed + 1);
      }
      ciphers := ciphers[c := d];
    }
  }

  // ---------------------------------------------------------------- the machine

  /** Where one call of `seal` stands. `rolled` tells the second encryption from the first. */
  datatype Thread =
    | Ready
    | Missed
    | Offered(id: nat)
    | Holding(cipher: nat, rolled: bool)
    | Spent(spent: nat)
    | Replacing(spent: nat, id: nat)
    | Done
    | Failed(exhausted: bool)

  /** `epoch` is the key the source would answer with now; `stored` the key ids of every envelope
      written, in order. */
  datatype State = State(epoch: nat, pool: Pool, threads: seq<Thread>, stored: seq<nat>)

  datatype Step =
    | Rotate(epoch: nat)
    | Arrive
    | Look(thread: nat)
    | Ask(thread: nat)
    | AskFails(thread: nat)
    | Install(thread: nat)
    | Encrypt(thread: nat, fails: bool)
    | Roll(thread: nat)

  function Start(epoch: nat): (s: State) {
    State(epoch, Pool(None, []), [], [])
  }

  predicate InRange(s: State) {
    && (s.pool.slot.Some? ==> s.pool.slot.value < |s.pool.ciphers|)
    && (forall t | 0 <= t < |s.threads| && s.threads[t].Holding? :: s.threads[t].cipher < |s.pool.ciphers|)
  }

  predicate Enabled(s: State, step: Step) {
    match step
    case Rotate(_) => true
    case Arrive => true
    case Look(t) => t < |s.threads| && s.threads[t].Ready?
    case Ask(t) => t < |s.threads| && (s.threads[t].Missed? || s.threads[t].Spent?)
    case AskFails(t) => t < |s.threads| && (s.threads[t].Missed? || s.threads[t].Spent?)
    case Install(t) => t < |s.threads| && s.threads[t].Offered?
    case Encrypt(t, _) => t < |s.threads| && s.threads[t].Holding?
    case Roll(t) => t < |s.threads| && s.threads[t].Replacing?
  }

  function Moved(s: State, t: nat, to: Thread): (r: State)
    requires t < |s.threads|
  {
    s.(threads := s.threads[t := to])
  }

  function Asked(s: State, t: nat): (to: Thread)
    requires Enabled(s, Ask(t))
  {
    if s.threads[t].Missed? then Offered(s.epoch)
    else if s.epoch == s.threads[t].spent then Failed(true)
    else Replacing(s.threads[t].spent, s.epoch)
  }

  function Encrypted(s: State, t: nat, budget: nat, fails: bool): (r: State)
    requires InRange(s) && Enabled(s, Encrypt(t, fails))
  {
    var c := s.threads[t].cipher;
    var (d, o) := Charged(s.pool.ciphers[c], budget, fails);
    var charged := s.(pool := s.pool.(ciphers := s.pool.ciphers[c := d]));
    match o
    case Sealed => Moved(charged, t, Done).(stored := s.stored + [d.id])
    case Refused => Moved(charged, t, Failed(false))
    case Exhausted => Moved(charged, t, if s.threads[t].rolled then Failed(true) else Spent(d.id))
  }

  function Apply(s: State, step: Step, budget: nat): (r: State)
    requires InRange(s) && Enabled(s, step)
  {
    match step
    case Rotate(epoch) => s.(epoch := epoch)
    case Arrive => s.(threads := s.threads + [Ready])
    case Look(t) => Moved(s, t, if s.pool.slot.Some? then Holding(s.pool.slot.value, false) else Missed)
    case Ask(t) => Moved(s, t, Asked(s, t))
    case AskFails(t) => Moved(s, t, Failed(false))
    case Install(t) =>
      var p := Installed(s.pool, s.threads[t].id);
      Moved(s, t, Holding(p.slot.value, false)).(pool := p)
    case Encrypt(t, fails) => Encrypted(s, t, budget, fails)
    case Roll(t) =>
      var p := Rolled(s.pool, s.threads[t].spent, s.threads[t].id);
      Moved(s, t, Holding(p.slot.value, true)).(pool := p)
  }

  predicate Follows(s: State, step: Step, r: State, budget: nat) {
    InRange(s) && Enabled(s, step) && r == Apply(s, step, budget)
  }

  /** A run of any number of threads in any interleaving. */
  predicate IsRun(states: seq<State>, steps: seq<Step>, budget: nat) {
    && |states| == |steps| + 1
    && states[0] == Start(states[0].epoch)
    && (forall i {:trigger steps[i]} | 0 <= i < |steps| ::
          Follows(states[i], steps[i], states[i + 1], budget))
  }

  /** The source never goes back to an earlier key. */
  predicate Monotone(states: seq<State>, steps: seq<Step>)
    requires |states| == |steps| + 1
  {
    forall i {:trigger steps[i]} | 0 <= i < |steps| :: states[i].epoch <= states[i + 1].epoch
  }

  // ---------------------------------------------------------------- one call

  /** How often thread `t` has encrypted in the first `n` steps. */
  function Attempts(steps: seq<Step>, t: nat, n: nat): (k: nat)
    requires n <= |steps|
  {
    if n == 0 then 0
    else Attempts(steps, t, n - 1) + (if steps[n - 1].Encrypt? && steps[n - 1].thread == t then 1 else 0)
  }

  /** What a thread may have done by where it stands: nothing before its first encryption, one before the
      second, and never more than two. */
  predicate AttemptsFit(thread: Thread, k: nat) {
    match thread
    case Ready => k == 0
    case Missed => k == 0
    case Offered(_) => k == 0
    case Holding(_, rolled) => k == if rolled then 1 else 0
    case Spent(_) => k == 1
    case Replacing(_, _) => k == 1
    case Done => 1 <= k <= 2
    case Failed(_) => k <= 2
  }

  lemma {:induction false} NoneYet(states: seq<State>, steps: seq<Step>, budget: nat, n: nat, t: nat)
    requires IsRun(states, steps, budget) && n < |states| && |states[n].threads| <= t
    ensures Attempts(steps, t, n) == 0
  {
    if n > 0 {
      assert Follows(states[n - 1], steps[n - 1], states[n], budget);
      NoneYet(states, steps, budget, n - 1, t);
    }
  }

  /** In every run, a call encrypts at most twice, and a second time only behind a new key: however often the
      keys run out, no call goes round again. */
  lemma {:induction false} AtMostTwice(states: seq<State>, steps: seq<Step>, budget: nat, n: nat, t: nat)
    requires IsRun(states, steps, budget) && n < |states| && t < |states[n].threads|
    ensures AttemptsFit(states[n].threads[t], Attempts(steps, t, n)) && Attempts(steps, t, n) <= 2
  {
    if n > 0 {
      var s := states[n - 1];
      assert Follows(s, steps[n - 1], states[n], budget);
      if t < |s.threads| {
        AtMostTwice(states, steps, budget, n - 1, t);
        AttemptStep(s, steps[n - 1], states[n], budget, t, Attempts(steps, t, n - 1));
      } else {
        NoneYet(states, steps, budget, n - 1, t);
      }
    }
  }

  lemma {:induction false} AttemptStep(s: State, step: Step, r: State, budget: nat, t: nat, k: nat)
    requires Follows(s, step, r, budget) && t < |s.threads| && AttemptsFit(s.threads[t], k)
    ensures AttemptsFit(r.threads[t], k + (if step.Encrypt? && step.thread == t then 1 else 0))
  {
  }

  function DoneCount(threads: seq<Thread>): (n: nat) {
    if threads == [] then 0
    else DoneCount(threads[..|threads| - 1]) + (if threads[|threads| - 1].Done? then 1 else 0)
  }

  lemma {:induction false} DoneCountAfter(threads: seq<Thread>, t: nat, to: Thread)
    requires t < |threads| && !threads[t].Done?
    ensures DoneCount(threads[t := to]) == DoneCount(threads) + (if to.Done? then 1 else 0)
  {
    var last, after := |threads| - 1, threads[t := to];
    if t < last {
      DoneCountAfter(threads[..last], t, to);
      assert after[..last] == threads[..last][t := to];
    } else {
      assert after[..last] == threads[..last];
    }
  }

  /** In every run, every call that has succeeded has written one envelope, and no other has written any. */
  lemma {:induction false} OneEnvelopePerCall(states: seq<State>, steps: seq<Step>, budget: nat, n: nat)
    requires IsRun(states, steps, budget) && n < |states|
    ensures |states[n].stored| == DoneCount(states[n].threads)
  {
    if n > 0 {
      var s, step := states[n - 1], steps[n - 1];
      assert Follows(s, step, states[n], budget);
      OneEnvelopePerCall(states, steps, budget, n - 1);
      StoresOnce(s, step, states[n], budget);
    }
  }

  lemma {:induction false} StoresOnce(s: State, step: Step, r: State, budget: nat)
    requires Follows(s, step, r, budget) && |s.stored| == DoneCount(s.threads)
    ensures |r.stored| == DoneCount(r.threads)
  {
    if step.Arrive? {
      assert (s.threads + [Ready])[..|s.threads|] == s.threads;
    } else if !step.Rotate? {
      MovesOne(s, step, r, budget);
      DoneCountAfter(s.threads, step.thread, r.threads[step.thread]);
    }
  }

  /** Every other step moves one thread that is not done, and stores an envelope exactly when that is. */
  lemma {:induction false} MovesOne(s: State, step: Step, r: State, budget: nat)
    requires Follows(s, step, r, budget) && !step.Arrive? && !step.Rotate?
    ensures step.thread < |s.threads| == |r.threads| && !s.threads[step.thread].Done?
    ensures r.threads == s.threads[step.thread := r.threads[step.thread]]
    ensures |r.stored| == |s.stored| + (if r.threads[step.thread].Done? then 1 else 0)
  {
  }

  /** A call fails as exhausted only when the source offers the spent key again, or when the new key was spent
      too before the call could use it. */
  lemma {:induction false} FailsExhausted(s: State, step: Step, r: State, budget: nat, t: nat)
    requires Follows(s, step, r, budget) && t < |s.threads| && !s.threads[t].Failed?
    ensures r.threads[t] == Failed(true) <==>
              || (step == Ask(t) && s.threads[t].Spent? && s.epoch == s.threads[t].spent)
              || (step.Encrypt? && step.thread == t && s.threads[t].rolled
                  && s.pool.ciphers[s.threads[t].cipher].used >= budget)
  {
  }

  // ---------------------------------------------------------------- one counter

  /** How many of `attempts` charges a 64-bit counter lets through. */
  function Granted(attempts: nat, budget: nat): (n: nat) {
    attempts / TWO_64 * (if budget < TWO_64 then budget else TWO_64)
    + (if attempts % TWO_64 < budget then attempts % TWO_64 else budget)
  }

  lemma {:induction false} GrantedNext(attempts: nat, budget: nat)
    ensures Granted(attempts + 1, budget)
         == Granted(attempts, budget) + (if attempts % TWO_64 < budget then 1 else 0)
    ensures (attempts % TWO_64 + 1) % TWO_64 == (attempts + 1) % TWO_64
  {
    var q, r := attempts / TWO_64, attempts % TWO_64;
    assert attempts == q * TWO_64 + r;
    if r + 1 < TWO_64 {
      assert (attempts + 1) / TWO_64 == q && (attempts + 1) % TWO_64 == r + 1;
    } else {
      assert (attempts + 1) / TWO_64 == q + 1 && (attempts + 1) % TWO_64 == 0;
      var b := if budget < TWO_64 then budget else TWO_64;
      assert (q + 1) * b == q * b + b;
    }
  }

  /** The counter enforces its budget exactly as long as it has not wrapped past a fresh attempt. */
  lemma {:induction false} GrantedWithinBudget(attempts: nat, budget: nat)
    requires 0 < budget < TWO_64
    ensures Granted(attempts, budget) <= budget <==> attempts <= TWO_64
    ensures attempts <= TWO_64 ==> Granted(attempts, budget) == if attempts < budget then attempts else budget
  {
    var q := attempts / TWO_64;
    if attempts > TWO_64 {
      if q == 1 {
        assert attempts % TWO_64 > 0;
      } else {
        assert q >= 2;
        assert q * budget >= 2 * budget;
      }
    }
  }

  // ---------------------------------------------------------------- what every run keeps

  /** Envelopes written under `id`, as the ciphers count them. */
  function Carried(ciphers: seq<Cipher>, id: nat): (n: nat) {
    if ciphers == [] then 0
    else
      var c := ciphers[|ciphers| - 1];
      Carried(ciphers[..|ciphers| - 1], id) + (if c.id == id then c.sealed else 0)
  }

  /** How often a cipher was built for `id`. */
  function Installs(ciphers: seq<Cipher>, id: nat): (n: nat) {
    if ciphers == [] then 0
    else Installs(ciphers[..|ciphers| - 1], id) + (if ciphers[|ciphers| - 1].id == id then 1 else 0)
  }

  predicate Counted(c: Cipher, budget: nat) {
    c.used == c.attempts % TWO_64 && c.sealed <= Granted(c.attempts, budget)
  }

  predicate Newest(p: Pool) {
    p.slot == if p.ciphers == [] then None else Some(|p.ciphers| - 1)
  }

  ghost predicate Accounted(s: State, budget: nat) {
    && InRange(s) && Newest(s.pool)
    && (forall c | 0 <= c < |s.pool.ciphers| :: Counted(s.pool.ciphers[c], budget))
    && (forall id :: multiset(s.stored)[id] == Carried(s.pool.ciphers, id))
  }

  lemma {:induction false} CarriedAfter(ciphers: seq<Cipher>, c: nat, d: Cipher, id: nat)
    requires c < |ciphers| && d.id == ciphers[c].id && d.sealed >= ciphers[c].sealed
    ensures Carried(ciphers[c := d], id)
         == Carried(ciphers, id) + (if d.id == id then d.sealed - ciphers[c].sealed else 0)
  {
    var last := |ciphers| - 1;
    var after := ciphers[c := d];
    if c == last {
      assert after[..last] == ciphers[..last];
    } else {
      assert after[..last] == ciphers[..last][c := d];
      CarriedAfter(ciphers[..last], c, d, id);
    }
  }

  lemma {:induction false} CarriedGrown(ciphers: seq<Cipher>, built: nat, id: nat)
    ensures Carried(ciphers + [Fresh(built)], id) == Carried(ciphers, id)
  {
    assert (ciphers + [Fresh(built)])[..|ciphers|] == ciphers;
  }

  lemma {:induction false} StartAccounted(epoch: nat, budget: nat)
    ensures Accounted(Start(epoch), budget)
  {
  }

  lemma {:induction false} EncryptStores(s: State, t: nat, fails: bool, budget: nat)
    requires Accounted(s, budget) && Enabled(s, Encrypt(t, fails))
    ensures var r := Apply(s, Encrypt(t, fails), budget);
            forall id :: multiset(r.stored)[id] == Carried(r.pool.ciphers, id)
  {
    var r := Apply(s, Encrypt(t, fails), budget);
    var c := s.threads[t].cipher;
    var before := s.pool.ciphers[c];
    var (d, o) := Charged(before, budget, fails);
    forall id ensures multiset(r.stored)[id] == Carried(r.pool.ciphers, id) {
      CarriedAfter(s.pool.ciphers, c, d, id);
      assert multiset(s.stored)[id] == Carried(s.pool.ciphers, id);
    }
  }

  lemma {:induction false} EncryptKeepsAccounts(s: State, t: nat, fails: bool, budget: nat)
    requires Accounted(s, budget) && Enabled(s, Encrypt(t, fails))
    ensures Accounted(Apply(s, Encrypt(t, fails), budget), budget)
  {
    var r := Apply(s, Encrypt(t, fails), budget);
    var c := s.threads[t].cipher;
    var before := s.pool.ciphers[c];
    var (d, o) := Charged(before, budget, fails);
    GrantedNext(before.attempts, budget);
    assert Counted(before, budget) && Counted(d, budget);
    EncryptStores(s, t, fails, budget);
  }

  /** Building a cipher counts nothing; neither does a step that leaves ciphers and envelopes alone. */
  lemma {:induction false} GrownKeepsAccounts(s: State, r: State, id: nat, budget: nat)
    requires Accounted(s, budget) && InRange(r) && Newest(r.pool) && r.stored == s.stored
    requires r.pool == s.pool || r.pool.ciphers == s.pool.ciphers + [Fresh(id)]
    ensures Accounted(r, budget)
  {
    GrantedNext(0, budget);
    forall c | 0 <= c < |r.pool.ciphers| ensures Counted(r.pool.ciphers[c], budget) {
      assert c < |s.pool.ciphers| ==> Counted(s.pool.ciphers[c], budget);
    }
    forall k ensures multiset(r.stored)[k] == Carried(r.pool.ciphers, k) {
      CarriedGrown(s.pool.ciphers, id, k);
      assert multiset(s.stored)[k] == Carried(s.pool.ciphers, k);
    }
  }

  lemma {:induction false} StepKeepsAccounts(s: State, step: Step, budget: nat)
    requires Accounted(s, budget) && Enabled(s, step)
    ensures Accounted(Apply(s, step, budget), budget)
  {
    if step.Encrypt? {
      EncryptKeepsAccounts(s, step.thread, step.fails, budget);
    } else {
      var id := if step.Install? || step.Roll? then s.threads[step.thread].id else 0;
      GrownKeepsAccounts(s, Apply(s, step, budget), id, budget);
    }
  }

  lemma {:induction false} RunsAccounted(states: seq<State>, steps: seq<Step>, budget: nat, i: nat)
    requires IsRun(states, steps, budget) && i < |states|
    ensures Accounted(states[i], budget)
  {
    if i == 0 {
      StartAccounted(states[0].epoch, budget);
    } else {
      RunsAccounted(states, steps, budget, i - 1);
      StepKeepsAccounts(states[i - 1], steps[i - 1], budget);
    }
  }

  predicate Unwrapped(s: State) {
    forall c | 0 <= c < |s.pool.ciphers| :: s.pool.ciphers[c].attempts <= TWO_64
  }

  lemma {:induction false} CarriedBound(ciphers: seq<Cipher>, id: nat, budget: nat)
    requires forall c | 0 <= c < |ciphers| :: ciphers[c].sealed <= budget
    ensures Carried(ciphers, id) <= Installs(ciphers, id) * budget
  {
    if ciphers != [] {
      var last := |ciphers| - 1;
      CarriedBound(ciphers[..last], id, budget);
      var n := Installs(ciphers[..last], id);
      assert (n + 1) * budget == n * budget + budget;
    }
  }

  /** Whatever the key source answers, in every interleaving, the envelopes under one key id stay
      within one budget for every time the cache built a cipher for it. */
  lemma {:induction false} BudgetPerInstall(
    states: seq<State>, steps: seq<Step>, budget: nat, i: nat, id: nat)
    requires 0 < budget < TWO_64 && IsRun(states, steps, budget) && i < |states|
    requires Unwrapped(states[i])
    ensures multiset(states[i].stored)[id] <= Installs(states[i].pool.ciphers, id) * budget
  {
    RunsAccounted(states, steps, budget, i);
    var ciphers := states[i].pool.ciphers;
    forall c | 0 <= c < |ciphers| ensures ciphers[c].sealed <= budget {
      assert Counted(ciphers[c], budget);
      GrantedWithinBudget(ciphers[c].attempts, budget);
    }
    CarriedBound(ciphers, id, budget);
  }

  // ---------------------------------------------------------------- a source that only moves forward

  predicate Increasing(ciphers: seq<Cipher>) {
    forall i, j | 0 <= i < j < |ciphers| :: ciphers[i].id < ciphers[j].id
  }

  /** Every cipher for `id` has been charged its whole budget, and `id` is no newer than the slot's. */
  predicate Drained(ciphers: seq<Cipher>, id: nat, budget: nat) {
    && ciphers != [] && id <= ciphers[|ciphers| - 1].id
    && (forall c | 0 <= c < |ciphers| && ciphers[c].id == id :: ciphers[c].attempts >= budget)
  }

  predicate Sound(t: Thread, s: State, budget: nat) {
    match t
    case Offered(id) => id <= s.epoch
    case Spent(id) => id <= s.epoch && Drained(s.pool.ciphers, id, budget)
    case Replacing(spent, id) => spent < id <= s.epoch && Drained(s.pool.ciphers, spent, budget)
    case _ => true
  }

  /** Ids rise with age of installation, none beyond the source's; all but the newest are spent. */
  predicate Ordered(ciphers: seq<Cipher>, epoch: nat, budget: nat) {
    && Increasing(ciphers)
    && (forall c | 0 <= c < |ciphers| :: ciphers[c].used <= ciphers[c].attempts)
    && (ciphers != [] ==> ciphers[|ciphers| - 1].id <= epoch)
    && (forall c | 0 <= c < |ciphers| - 1 :: ciphers[c].attempts >= budget)
  }

  predicate Forward(s: State, budget: nat) {
    && InRange(s) && Newest(s.pool) && Ordered(s.pool.ciphers, s.epoch, budget)
    && (forall t | 0 <= t < |s.threads| :: Sound(s.threads[t], s, budget))
  }

  /** Ciphers are only added, keep their ids, and are never charged less. */
  predicate Grows(ciphers: seq<Cipher>, later: seq<Cipher>) {
    && |ciphers| <= |later|
    && (forall c | 0 <= c < |ciphers| ::
          later[c].id == ciphers[c].id && later[c].attempts >= ciphers[c].attempts)
  }

  lemma {:induction false} DrainedLater(ciphers: seq<Cipher>, later: seq<Cipher>, id: nat, budget: nat)
    requires Drained(ciphers, id, budget) && Increasing(later) && Grows(ciphers, later)
    ensures Drained(later, id, budget)
  {
  }

  lemma {:induction false} SoundLater(t: Thread, s: State, r: State, budget: nat)
    requires Sound(t, s, budget) && s.epoch <= r.epoch
    requires Increasing(r.pool.ciphers) && Grows(s.pool.ciphers, r.pool.ciphers)
    ensures Sound(t, r, budget)
  {
    if t.Spent? || t.Replacing? {
      DrainedLater(s.pool.ciphers, r.pool.ciphers, t.spent, budget);
    }
  }

  lemma {:induction false} OthersStaySound(s: State, r: State, t: nat, budget: nat)
    requires forall u | 0 <= u < |s.threads| :: Sound(s.threads[u], s, budget)
    requires s.epoch <= r.epoch && Increasing(r.pool.ciphers) && Grows(s.pool.ciphers, r.pool.ciphers)
    requires t < |s.threads| == |r.threads| && r.threads == s.threads[t := r.threads[t]]
    requires Sound(r.threads[t], r, budget)
    ensures forall u | 0 <= u < |r.threads| :: Sound(r.threads[u], r, budget)
  {
    forall u | 0 <= u < |r.threads| ensures Sound(r.threads[u], r, budget) {
      if u != t { SoundLater(s.threads[u], s, r, budget); }
    }
  }

  lemma {:induction false} WrapsDown(n: nat)
    ensures n % TWO_64 <= n
  {
  }

  /** What a charge does to the ciphers, whatever its outcome. */
  lemma {:induction false} ChargedPool(s: State, t: nat, fails: bool, budget: nat)
    requires InRange(s) && Enabled(s, Encrypt(t, fails))
    ensures var r := Apply(s, Encrypt(t, fails), budget);
            && |r.pool.ciphers| == |s.pool.ciphers| && Grows(s.pool.ciphers, r.pool.ciphers) && r.pool.slot == s.pool.slot
            && r.epoch == s.epoch && r.threads == s.threads[t := r.threads[t]]
    ensures var r := Apply(s, Encrypt(t, fails), budget);
            (forall c | 0 <= c < |s.pool.ciphers| :: s.pool.ciphers[c].used <= s.pool.ciphers[c].attempts)
            ==> (forall c | 0 <= c < |r.pool.ciphers| :: r.pool.ciphers[c].used <= r.pool.ciphers[c].attempts)
    ensures var r := Apply(s, Encrypt(t, fails), budget);
            var c := s.threads[t].cipher;
            && (r.threads[t].Done? || r.threads[t].Failed? || r.threads[t] == Spent(s.pool.ciphers[c].id))
            && (r.threads[t].Spent? ==> s.pool.ciphers[c].used >= budget)
  {
    WrapsDown(s.pool.ciphers[s.threads[t].cipher].used + 1);
  }

  lemma {:induction false} EncryptKeepsForward(s: State, t: nat, fails: bool, budget: nat)
    requires Forward(s, budget) && Enabled(s, Encrypt(t, fails))
    ensures Forward(Apply(s, Encrypt(t, fails), budget), budget)
  {
    var r := Apply(s, Encrypt(t, fails), budget);
    ChargedPool(s, t, fails, budget);
    var c, last := s.threads[t].cipher, |s.pool.ciphers| - 1;
    assert s.pool.ciphers[c].id <= s.pool.ciphers[last].id;
    if r.threads[t].Spent? {
      DrainedBy(s.pool.ciphers, r.pool.ciphers, c, budget);
    }
    ChargedOrdered(s.pool.ciphers, r.pool.ciphers, s.epoch, budget);
    OthersStaySound(s, r, t, budget);
  }

  lemma {:induction false} ChargedOrdered(ciphers: seq<Cipher>, later: seq<Cipher>, epoch: nat, budget: nat)
    requires Ordered(ciphers, epoch, budget) && |ciphers| == |later| && Grows(ciphers, later)
    requires forall c | 0 <= c < |later| :: later[c].used <= later[c].attempts
    ensures Ordered(later, epoch, budget)
  {
  }

  lemma {:induction false} DrainedBy(ciphers: seq<Cipher>, later: seq<Cipher>, c: nat, budget: nat)
    requires c < |ciphers| == |later| && Grows(ciphers, later) && Increasing(ciphers)
    requires ciphers[c].attempts >= budget
    ensures Drained(later, ciphers[c].id, budget)
  {
    assert c < |ciphers| - 1 ==> ciphers[c].id < ciphers[|ciphers| - 1].id;
    forall d | 0 <= d < |later| && later[d].id == ciphers[c].id ensures later[d].attempts >= budget {
      assert ciphers[d].id == ciphers[c].id;
    }
  }

  lemma {:induction false} GrownOrdered(ciphers: seq<Cipher>, id: nat, epoch: nat, budget: nat)
    requires Ordered(ciphers, epoch, budget) && id <= epoch
    requires ciphers != [] ==> ciphers[|ciphers| - 1].id < id && ciphers[|ciphers| - 1].attempts >= budget
    ensures Ordered(ciphers + [Fresh(id)], epoch, budget)
  {
    forall i, j | 0 <= i < j < |ciphers| + 1
      ensures (ciphers + [Fresh(id)])[i].id < (ciphers + [Fresh(id)])[j].id
    {
      assert i < |ciphers| - 1 ==> ciphers[i].id < ciphers[|ciphers| - 1].id;
    }
  }

  lemma {:induction false} RollKeepsForward(s: State, t: nat, budget: nat)
    requires Forward(s, budget) && Enabled(s, Roll(t))
    ensures Forward(Apply(s, Roll(t), budget), budget)
  {
    var r := Apply(s, Roll(t), budget);
    assert Sound(s.threads[t], s, budget);
    if r.pool != s.pool {
      GrownOrdered(s.pool.ciphers, s.threads[t].id, s.epoch, budget);
    }
    OthersStaySound(s, r, t, budget);
  }

  lemma {:induction false} InstallKeepsForward(s: State, t: nat, budget: nat)
    requires Forward(s, budget) && Enabled(s, Install(t))
    ensures Forward(Apply(s, Install(t), budget), budget)
  {
    var r := Apply(s, Install(t), budget);
    assert Sound(s.threads[t], s, budget);
    if r.pool != s.pool {
      GrownOrdered(s.pool.ciphers, s.threads[t].id, s.epoch, budget);
    }
    OthersStaySound(s, r, t, budget);
  }

  lemma {:induction false} StepKeepsForward(s: State, step: Step, budget: nat)
    requires Forward(s, budget) && Enabled(s, step)
    requires step.Rotate? ==> s.epoch <= step.epoch
    ensures Forward(Apply(s, step, budget), budget)
  {
    var r := Apply(s, step, budget);
    match step
    case Encrypt(t, fails) => EncryptKeepsForward(s, t, fails, budget);
    case Roll(t) => RollKeepsForward(s, t, budget);
    case Install(t) => InstallKeepsForward(s, t, budget);
    case Rotate(_) =>
      forall u | 0 <= u < |r.threads| ensures Sound(r.threads[u], r, budget) {
        SoundLater(s.threads[u], s, r, budget);
      }
    case Arrive =>
      forall u | 0 <= u < |r.threads| ensures Sound(r.threads[u], r, budget) {
        assert u < |s.threads| ==> Sound(s.threads[u], s, budget);
      }
    case _ =>
      assert Sound(s.threads[step.thread], s, budget);
      OthersStaySound(s, r, step.thread, budget);
  }

  lemma {:induction false} RunsForward(states: seq<State>, steps: seq<Step>, budget: nat, i: nat)
    requires IsRun(states, steps, budget) && Monotone(states, steps) && i < |states|
    ensures Forward(states[i], budget)
  {
    if i > 0 {
      RunsForward(states, steps, budget, i - 1);
      var step := steps[i - 1];
      assert states[i - 1].epoch <= states[i].epoch && states[i] == Apply(states[i - 1], step, budget);
      StepKeepsForward(states[i - 1], steps[i - 1], budget);
    }
  }

  lemma {:induction false} InstalledOnce(ciphers: seq<Cipher>, id: nat)
    requires Increasing(ciphers)
    ensures Installs(ciphers, id) <= 1
    ensures Installs(ciphers, id) == 1 ==> exists c | 0 <= c < |ciphers| :: ciphers[c].id == id
  {
    if ciphers != [] {
      var last := |ciphers| - 1;
      InstalledOnce(ciphers[..last], id);
      if Installs(ciphers[..last], id) == 1 {
        var c :| 0 <= c < last && ciphers[..last][c].id == id;
        assert ciphers[c].id < ciphers[last].id;
      } else if Installs(ciphers, id) == 1 {
        assert ciphers[last].id == id;
      }
    }
  }

  /** With a source that only moves forward, keys become active in strictly increasing order, no key
      is ever installed twice, and at most `budget` envelopes ever carry one key id. */
  lemma {:induction false} BudgetHolds(states: seq<State>, steps: seq<Step>, budget: nat, i: nat, id: nat)
    requires 0 < budget < TWO_64 && IsRun(states, steps, budget) && Monotone(states, steps) && i < |states|
    requires Unwrapped(states[i])
    ensures Increasing(states[i].pool.ciphers)
    ensures multiset(states[i].stored)[id] <= budget
  {
    RunsForward(states, steps, budget, i);
    BudgetPerInstall(states, steps, budget, i, id);
    InstalledOnce(states[i].pool.ciphers, id);
    assert Installs(states[i].pool.ciphers, id) * budget <= 1 * budget;
  }

  // ---------------------------------------------------------------- no fresh key

  /** The newest key is spent and the source still answers with it. */
  predicate Dry(s: State, budget: nat) {
    && s.pool.ciphers != []
    && s.pool.ciphers[|s.pool.ciphers| - 1].id == s.epoch
    && s.pool.ciphers[|s.pool.ciphers| - 1].attempts >= budget
  }

  /** No call of `seal` has succeeded in between. */
  predicate NoneDone(s: State, r: State) {
    forall t | 0 <= t < |r.threads| && r.threads[t].Done? :: t < |s.threads| && s.threads[t].Done?
  }

  lemma {:induction false} SpentRefuses(c: Cipher, budget: nat, fails: bool)
    requires Counted(c, budget) && budget <= c.attempts < TWO_64
    ensures Charged(c, budget, fails).1 == Exhausted
  {
  }

  lemma {:induction false} DryStep(s: State, step: Step, budget: nat)
    requires Forward(s, budget) && Dry(s, budget) && Enabled(s, step)
    requires step.Rotate? ==> step.epoch == s.epoch
    requires step.Encrypt? ==>
               Charged(s.pool.ciphers[s.threads[step.thread].cipher], budget, step.fails).1 == Exhausted
    ensures var r := Apply(s, step, budget); Dry(r, budget) && r.stored == s.stored
    ensures NoneDone(s, Apply(s, step, budget))
  {
    if step.Roll? {
      assert Sound(s.threads[step.thread], s, budget);
    }
  }

  lemma {:induction false} RunStep(states: seq<State>, steps: seq<Step>, budget: nat, k: nat)
    requires IsRun(states, steps, budget) && Monotone(states, steps) && k < |steps|
    ensures Accounted(states[k], budget) && Forward(states[k], budget) && Enabled(states[k], steps[k])
    ensures states[k + 1] == Apply(states[k], steps[k], budget)
    ensures steps[k].Rotate? ==> steps[k].epoch == states[k + 1].epoch
  {
    RunsForward(states, steps, budget, k);
    RunsAccounted(states, steps, budget, k);
  }

  /** While the newest key is spent and the source offers no other, no further value is ever sealed:
      every call of `seal` that finishes, finishes with an error. */
  lemma {:induction false} NoFreshKeyNoSeal(
    states: seq<State>, steps: seq<Step>, budget: nat, i: nat, j: nat)
    requires 0 < budget < TWO_64 && IsRun(states, steps, budget) && Monotone(states, steps) && i <= j < |states|
    requires Dry(states[i], budget) && states[j].epoch == states[i].epoch
    requires forall k | i <= k <= j :: Unwrapped(states[k])
    ensures states[j].stored == states[i].stored && Dry(states[j], budget)
    ensures NoneDone(states[i], states[j])
    decreases j
  {
    if i < j {
      EpochsOrdered(states, steps, i, j - 1);
      assert states[j - 1].epoch <= states[j].epoch by { var step := steps[j - 1]; }
      NoFreshKeyNoSeal(states, steps, budget, i, j - 1);
      RunStep(states, steps, budget, j - 1);
      var s, step := states[j - 1], steps[j - 1];
      if step.Encrypt? {
        var c := s.threads[step.thread].cipher;
        assert Counted(s.pool.ciphers[c], budget) && s.pool.ciphers[c].attempts >= budget;
        assert states[j].pool.ciphers[c].attempts == s.pool.ciphers[c].attempts + 1;
        SpentRefuses(s.pool.ciphers[c], budget, step.fails);
      }
      DryStep(s, step, budget);
    }
  }

  lemma {:induction false} EpochsOrdered(states: seq<State>, steps: seq<Step>, i: nat, j: nat)
    requires |states| == |steps| + 1 && Monotone(states, steps) && i <= j < |states|
    ensures states[i].epoch <= states[j].epoch
    decreases j
  {
    if i < j {
      EpochsOrdered(states, steps, i, j - 1);
      assert states[j - 1].epoch <= states[j].epoch by { var step := steps[j - 1]; }
    }
  }

  /** A call gives up for want of a fresh key only when there is none: the newest installed key is
      spent and is still what the source answers with. */
  lemma {:induction false} GivesUpOnlyWhenDry(states: seq<State>, steps: seq<Step>, budget: nat, i: nat)
    requires IsRun(states, steps, budget) && Monotone(states, steps) && i < |steps|
    requires steps[i].Ask? && steps[i].thread < |states[i + 1].threads|
    requires states[i + 1].threads[steps[i].thread] == Failed(true)
    ensures Dry(states[i], budget)
  {
    RunsForward(states, steps, budget, i);
    var s, step := states[i], steps[i];
    assert Enabled(s, step) && states[i + 1] == Apply(s, step, budget);
    assert Sound(s.threads[steps[i].thread], s, budget);
  }

  // ---------------------------------------------------------------- a call by itself

  ghost function Last(states: seq<State>): (s: State)
    requires states != []
  {
    states[|states| - 1]
  }

  lemma {:induction false} Extended(states: seq<State>, steps: seq<Step>, budget: nat, step: Step)
    returns (more: seq<State>, taken: seq<Step>)
    requires IsRun(states, steps, budget) && InRange(Last(states)) && Enabled(Last(states), step)
    ensures IsRun(more, taken, budget) && taken == steps + [step]
    ensures Last(more) == Apply(Last(states), step, budget)
  {
    more, taken := states + [Apply(Last(states), step, budget)], steps + [step];
    forall i {:trigger taken[i]} | 0 <= i < |taken|
      ensures Follows(more[i], taken[i], more[i + 1], budget)
    {
      if i < |steps| {
        assert taken[i] == steps[i] && Follows(states[i], steps[i], states[i + 1], budget);
      }
    }
    assert more[0] == states[0];
  }

  predicate OwnStep(step: Step, t: nat) {
    !step.Rotate? && (step.Arrive? || step.thread == t)
  }

  /** Nothing but one new call moved since `steps`. */
  predicate OnlyCall(steps: seq<Step>, taken: seq<Step>, t: nat) {
    steps <= taken && forall i | |steps| <= i < |taken| :: OwnStep(taken[i], t)
  }

  function Active(s: State): (c: Cipher)
    requires InRange(s) && s.pool.slot.Some?
  {
    s.pool.ciphers[s.pool.slot.value]
  }

  /** The key a lone call seals under; none when the active one is spent and still the source's. */
  function LoneKey(s: State, budget: nat): (id: Option<nat>)
    requires InRange(s)
  {
    if s.pool.slot.None? then Some(s.epoch)
    else if Active(s).used < budget then Some(Active(s).id)
    else if Active(s).id == s.epoch then None
    else Some(s.epoch)
  }

  /** How often the cipher a lone call seals with was charged before. */
  function LoneUsed(s: State, budget: nat): (n: nat)
    requires InRange(s)
  {
    if s.pool.slot.Some? && Active(s).used < budget then Active(s).used else 0
  }

  /** What a lone call that sealed under `id` leaves behind. */
  predicate SealedOnce(s: State, r: State, id: nat, used: nat) {
    && InRange(r) && r.stored == s.stored + [id] && r.epoch == s.epoch
    && r.pool.slot.Some? && Active(r).id == id && Active(r).used == (used + 1) % TWO_64
  }

  /** From any state of any run, a call that nobody disturbs and whose encryption does not fail seals
      one value, under the active key while that has budget and else under the source's; it fails
      exactly when the active key is spent and the source offers no other. */
  lemma {:induction false} LoneSeal(states: seq<State>, steps: seq<Step>, budget: nat)
    returns (more: seq<State>, taken: seq<Step>)
    requires IsRun(states, steps, budget) && budget > 0
    ensures IsRun(more, taken, budget) && OnlyCall(steps, taken, |Last(states).threads|)
    ensures InRange(Last(states)) && |Last(more).threads| == |Last(states).threads| + 1
    ensures var s, r := Last(states), Last(more);
            match LoneKey(s, budget)
            case Some(id) => r.threads[|s.threads|] == Done && SealedOnce(s, r, id, LoneUsed(s, budget))
            case None => r.threads[|s.threads|] == Failed(true) && r.stored == s.stored
  {
    RunsAccounted(states, steps, budget, |states| - 1);
    var s := Last(states);
    if s.pool.slot.None? {
      more, taken := SealsFresh(states, steps, budget);
    } else if Active(s).used < budget {
      more, taken := SealsActive(states, steps, budget);
    } else {
      more, taken := FindsExhausted(states, steps, budget);
      if Active(s).id != s.epoch {
        more, taken := SealsRolled(more, taken, budget, Active(s).id);
      } else {
        more, taken := Extended(more, taken, budget, Ask(|s.threads|));
      }
    }
  }

  lemma {:induction false} SealsActive(states: seq<State>, steps: seq<Step>, budget: nat)
    returns (more: seq<State>, taken: seq<Step>)
    requires IsRun(states, steps, budget) && InRange(Last(states)) && Last(states).pool.slot.Some?
    requires Active(Last(states)).used < budget
    ensures IsRun(more, taken, budget) && OnlyCall(steps, taken, |Last(states).threads|)
    ensures var s, r := Last(states), Last(more);
            r.threads == s.threads + [Done] && SealedOnce(s, r, Active(s).id, Active(s).used)
  {
    var t := |Last(states).threads|;
    more, taken := Extended(states, steps, budget, Arrive);
    more, taken := Extended(more, taken, budget, Look(t));
    more, taken := Extended(more, taken, budget, Encrypt(t, false));
  }

  lemma {:induction false} AsksFirst(states: seq<State>, steps: seq<Step>, budget: nat)
    returns (more: seq<State>, taken: seq<Step>)
    requires IsRun(states, steps, budget) && InRange(Last(states)) && Last(states).pool.slot.None?
    ensures IsRun(more, taken, budget) && OnlyCall(steps, taken, |Last(states).threads|)
    ensures InRange(Last(more))
    ensures Last(more) == Last(states).(threads := Last(states).threads + [Offered(Last(states).epoch)])
  {
    var t := |Last(states).threads|;
    more, taken := Extended(states, steps, budget, Arrive);
    more, taken := Extended(more, taken, budget, Look(t));
    more, taken := Extended(more, taken, budget, Ask(t));
  }

  lemma {:induction false} SealsFresh(states: seq<State>, steps: seq<Step>, budget: nat)
    returns (more: seq<State>, taken: seq<Step>)
    requires IsRun(states, steps, budget) && InRange(Last(states)) && Last(states).pool.slot.None? && budget > 0
    ensures IsRun(more, taken, budget) && OnlyCall(steps, taken, |Last(states).threads|)
    ensures var s, r := Last(states), Last(more);
            r.threads == s.threads + [Done] && SealedOnce(s, r, s.epoch, 0)
  {
    var t := |Last(states).threads|;
    more, taken := AsksFirst(states, steps, budget);
    more, taken := Extended(more, taken, budget, Install(t));
    more, taken := Extended(more, taken, budget, Encrypt(t, false));
  }

  lemma {:induction false} FindsExhausted(states: seq<State>, steps: seq<Step>, budget: nat)
    returns (more: seq<State>, taken: seq<Step>)
    requires IsRun(states, steps, budget) && InRange(Last(states)) && Last(states).pool.slot.Some?
    requires Active(Last(states)).used >= budget
    ensures IsRun(more, taken, budget) && OnlyCall(steps, taken, |Last(states).threads|)
    ensures var s, r := Last(states), Last(more);
            && InRange(r) && r.threads == s.threads + [Spent(Active(s).id)] && r.stored == s.stored
            && r.epoch == s.epoch && r.pool.slot == s.pool.slot && Active(r).id == Active(s).id
  {
    var t := |Last(states).threads|;
    more, taken := Extended(states, steps, budget, Arrive);
    more, taken := Extended(more, taken, budget, Look(t));
    more, taken := Extended(more, taken, budget, Encrypt(t, false));
  }

  lemma {:induction false} SealsRolled(states: seq<State>, steps: seq<Step>, budget: nat, spent: nat)
    returns (more: seq<State>, taken: seq<Step>)
    requires IsRun(states, steps, budget) && InRange(Last(states)) && Last(states).pool.slot.Some? && budget > 0
    requires Active(Last(states)).id == spent != Last(states).epoch
    requires var ts := Last(states).threads; ts != [] && ts[|ts| - 1] == Spent(spent)
    ensures IsRun(more, taken, budget) && OnlyCall(steps, taken, |Last(states).threads| - 1)
    ensures var s, r := Last(states), Last(more);
            && r.threads == s.threads[|s.threads| - 1 := Done] && SealedOnce(s, r, s.epoch, 0)
  {
    var t := |Last(states).threads| - 1;
    more, taken := Extended(states, steps, budget, Ask(t));
    more, taken := Extended(more, taken, budget, Roll(t));
    more, taken := Extended(more, taken, budget, Encrypt(t, false));
  }

  // ---------------------------------------------------------------- a source that goes back

  /** Calls one after another seal `n` more values under the source's key, as long as its cipher has the
      budget left. */
  lemma {:induction false} SealMany(states: seq<State>, steps: seq<Step>, budget: nat, n: nat)
    returns (more: seq<State>, taken: seq<Step>)
    requires IsRun(states, steps, budget) && 0 < budget < TWO_64 && InRange(Last(states))
    requires var s := Last(states);
             && LoneUsed(s, budget) + n <= budget
             && (n > 0 ==> LoneKey(s, budget) == Some(s.epoch))
    ensures IsRun(more, taken, budget) && InRange(Last(more)) && Last(more).epoch == Last(states).epoch
    ensures forall id ::
              multiset(Last(more).stored)[id]
              == multiset(Last(states).stored)[id] + (if id == Last(states).epoch then n else 0)
    ensures n > 0 ==>
              && Last(more).pool.slot.Some? && Active(Last(more)).id == Last(states).epoch
              && Active(Last(more)).used == LoneUsed(Last(states), budget) + n
    ensures n == 0 ==> more == states
    decreases n
  {
    more, taken := states, steps;
    if n > 0 {
      more, taken := LoneSeal(states, steps, budget);
      assert Active(Last(more)).used == LoneUsed(Last(states), budget) + 1;
      more, taken := SealMany(more, taken, budget, n - 1);
    }
  }

  /** The source moves to key `id`, under which the whole budget is then spent. */
  lemma {:induction false} SpendUnder(states: seq<State>, steps: seq<Step>, budget: nat, id: nat)
    returns (more: seq<State>, taken: seq<Step>)
    requires IsRun(states, steps, budget) && 0 < budget < TWO_64 && InRange(Last(states))
    requires Last(states).pool.slot.Some? ==>
               Active(Last(states)).id != id && Active(Last(states)).used >= budget
    ensures IsRun(more, taken, budget) && InRange(Last(more))
    ensures forall k ::
              multiset(Last(more).stored)[k] == multiset(Last(states).stored)[k] + (if k == id then budget else 0)
    ensures Last(more).pool.slot.Some? && Active(Last(more)).id == id && Active(Last(more)).used >= budget
  {
    more, taken := Extended(states, steps, budget, Rotate(id));
    more, taken := SealMany(more, taken, budget, budget);
  }

  /** The budget does not survive a source that returns to a key it had left: for every budget, any two
      keys and any number of rounds, a source that alternates between them has that many whole
      budgets sealed under the first. */
  lemma {:induction false} ReturningSourceExceeds(budget: nat, id: nat, other: nat, rounds: nat)
    returns (states: seq<State>, steps: seq<Step>)
    requires 0 < budget < TWO_64 && id != other
    ensures IsRun(states, steps, budget) && InRange(Last(states))
    ensures multiset(Last(states).stored)[id] == rounds * budget
    ensures Last(states).pool.slot.Some? ==>
              Active(Last(states)).id == other && Active(Last(states)).used >= budget
  {
    if rounds == 0 {
      states, steps := [Start(id)], [];
    } else {
      states, steps := ReturningSourceExceeds(budget, id, other, rounds - 1);
      states, steps := SpendUnder(states, steps, budget, id);
      states, steps := SpendUnder(states, steps, budget, other);
      assert rounds * budget == (rounds - 1) * budget + budget;
    }
  }
}
