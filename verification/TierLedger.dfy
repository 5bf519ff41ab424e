/** What the counters of the tier manager are worth under concurrency: they never run ahead of the request queues, the
    counters and the descriptors of each tier always add up, and the sum get_total_mmap reads is the number of indexed
    pages. */
module TierLedger {
  import opened Basics
  import opened TierSpec
  import opened TierProtocol

  /* ---- Sums over threads ---- */

  lemma {:induction false} SumNonNegative(threads: seq<Local>, w: Local -> int, i: nat)
    requires (forall l :: w(l) >= 0) && i < |threads|
    ensures Sum(threads, w) >= w(threads[i])
    decreases i
  {
    SumIsNat(threads[1..], w);
    if i == 0 {
    } else {
      SumNonNegative(threads[1..], w, i - 1);
    }
  }

  lemma {:induction false} SumIsNat(threads: seq<Local>, w: Local -> int)
    requires forall l :: w(l) >= 0
    ensures Sum(threads, w) >= 0
  {
    if threads == [] {
    } else {
      SumIsNat(threads[1..], w);
    }
  }

  lemma {:induction false} SumOfIdle(threads: seq<Local>, w: Local -> int)
    requires w(Idle) == 0 && forall i :: 0 <= i < |threads| ==> threads[i] == Idle
    ensures Sum(threads, w) == 0
  {
    if threads == [] {
    } else {
      SumOfIdle(threads[1..], w);
    }
  }

  /* ---- The request counters ---- */

  /** Requests of a kind that are on their list and not yet counted. */
  ghost function Uncounted(f: Tier, t: Tier): Local -> int {
    (l: Local) => if l == Put(f, t) then 1 else 0
  }

  /** Pages of a kind that the migration thread has taken from the request list and not yet subtracted. */
  function Unsubtracted(m: Mig, f: Tier, t: Tier): nat {
    if m.Rest? || m.f != f || m.t != t then 0 else if m.Taking? then |m.pages| else m.n
  }

  ghost predicate Counted(s: System, f: Tier, t: Tier) {
    |s.q[Migrate(f, t)]| + Unsubtracted(s.mig, f, t) == s.num[Migrate(f, t)] + Sum(s.threads, Uncounted(f, t))
  }

  /** The request counters lag behind their lists by what is still to be counted, and lead by what is still to be
      subtracted; a batch is never larger than the counter. */
  ghost predicate Ledger(s: System) {
    && (forall f, t {:trigger Counted(s, f, t)} :: Counted(s, f, t))
    && (!s.mig.Rest? ==> s.mig.n <= s.num[Migrate(s.mig.f, s.mig.t)] && s.mig.n <= s.batch)
    && |s.desc| + s.batch < WORD
  }

  lemma QueueFits(s: System, k: QueueId)
    requires Owned(s)
    ensures |s.q[k]| <= |s.desc|
  {
    assert NoRepeats(s.q[k]);
    forall p | p in s.q[k] ensures p in s.desc.Keys {
      Standing(s, k, p);
    }
    Pigeons(s.q[k], s.desc.Keys);
  }

  /** At the head of a migration loop the counter is at most the length of the request list, and with no request
      underway it is the length, so that a zero counter then means an empty list. */
  lemma CounterBehindQueue(s: System, f: Tier, t: Tier)
    requires Ledger(s) && s.mig.Rest?
    ensures s.num[Migrate(f, t)] <= |s.q[Migrate(f, t)]|
    ensures (forall i :: 0 <= i < |s.threads| ==> !s.threads[i].Put?) ==> s.num[Migrate(f, t)] == |s.q[Migrate(f, t)]|
  {
    assert Counted(s, f, t);
    SumIsNat(s.threads, Uncounted(f, t));
    if forall i :: 0 <= i < |s.threads| ==> !s.threads[i].Put? {
      NonePut(s.threads, f, t);
    }
  }

  lemma {:induction false} NonePut(threads: seq<Local>, f: Tier, t: Tier)
    requires forall i :: 0 <= i < |threads| ==> !threads[i].Put?
    ensures Sum(threads, Uncounted(f, t)) == 0
  {
    if threads == [] {
    } else {
      NonePut(threads[1..], f, t);
    }
  }

  /** The source dequeue of a batch never finds the request list empty. */
  lemma SourceNeverEmpty(s: System)
    requires Ledger(s) && Enabled(s, MigTakePage)
    ensures s.q[Migrate(s.mig.f, s.mig.t)] != []
  {
    assert Counted(s, s.mig.f, s.mig.t);
    SumIsNat(s.threads, Uncounted(s.mig.f, s.mig.t));
  }

  /** What the steps of the other threads leave alone, and what those of the migration thread do. */
  lemma ThreadKeeps(s: System, a: Action)
    requires Enabled(s, a) && ByThread(a)
    ensures var s' := Do(s, a); s'.mig == s.mig && s'.batch == s.batch && s'.sizes == s.sizes
  {
    hide MigrationDoes;
    hide MigrationEnabled;
    hide Shifted;
    hide Front;
    hide Rest1;
    hide DescOf;
  }

  lemma MigrationKeeps(s: System, a: Action)
    requires Enabled(s, a) && !ByThread(a)
    ensures var s' := Do(s, a);
            && s'.threads == s.threads && s'.index == s.index && s'.faults == s.faults
            && s'.batch == s.batch && s'.sizes == s.sizes
  {
    hide ThreadDoes;
    hide ThreadEnabled;
    hide CountMoved;
    hide Front;
    hide Rest1;
    hide DescOf;
    hide Min;
  }

  /** The step puts a page on the request list of this kind, counts one, takes one, or subtracts the batch. */
  predicate Puts(s: System, a: Action, f: Tier, t: Tier) {
    a.ReqPut? && a.i < |s.threads| && s.threads[a.i].Holding? && s.threads[a.i].f == f && s.threads[a.i].t == t
  }

  predicate Counts(s: System, a: Action, f: Tier, t: Tier) {
    a.ReqCount? && a.i < |s.threads| && s.threads[a.i] == Put(f, t)
  }

  predicate Takes(s: System, a: Action, f: Tier, t: Tier) {
    a.MigTakePage? && s.mig.Taking? && s.mig.f == f && s.mig.t == t
  }

  predicate Subtracts(s: System, a: Action, f: Tier, t: Tier) {
    a.MigCount? && s.mig.Returning? && s.mig.f == f && s.mig.t == t
  }

  /** The steps that update counters. */
  predicate Counting(a: Action) { a.ReqCount? || a.PopulateCount? || a.UnmapCount? || a.MigCount? }

  lemma RequestsDoNotCount(s: System, a: Action)
    requires Enabled(s, a) && !Counting(a) && ByThread(a) && ByRequest(a)
    ensures Do(s, a).num == s.num
  {
    hide FaultDoes;
    hide MigrationDoes;
    hide MigrationEnabled;
    hide Shifted;
    hide CountMoved;
    hide Front;
    hide Rest1;
    hide DescOf;
  }

  lemma FaultsDoNotCount(s: System, a: Action)
    requires Enabled(s, a) && !Counting(a) && ByThread(a) && !ByRequest(a)
    ensures Do(s, a).num == s.num
  {
    hide RequestDoes;
    hide MigrationDoes;
    hide MigrationEnabled;
    hide Shifted;
    hide CountMoved;
    hide Front;
    hide Rest1;
    hide DescOf;
  }

  lemma ThreadsDoNotCount(s: System, a: Action)
    requires Enabled(s, a) && !Counting(a) && ByThread(a)
    ensures Do(s, a).num == s.num
  {
    hide *;
    if ByRequest(a) {
      RequestsDoNotCount(s, a);
    } else {
      FaultsDoNotCount(s, a);
    }
  }

  lemma MigrationDoesNotCount(s: System, a: Action)
    requires Enabled(s, a) && !Counting(a) && !ByThread(a)
    ensures Do(s, a).num == s.num
  {
    hide ThreadDoes;
    hide ThreadEnabled;
    hide Shifted;
    hide CountMoved;
    hide Front;
    hide Rest1;
    hide DescOf;
  }

  lemma OthersDoNotCount(s: System, a: Action)
    requires Enabled(s, a) && !Counting(a)
    ensures Do(s, a).num == s.num
  {
    hide *;
    if ByThread(a) {
      ThreadsDoNotCount(s, a);
    } else {
      MigrationDoesNotCount(s, a);
    }
  }

  /** Which counters a counting step moves. */
  ghost predicate MovesCounters(s: System, a: Action, num: Counters)
    requires Enabled(s, a)
  {
    num == match a
           case ReqCount(i) => Shifted(s.num, Migrate(s.threads[i].f, s.threads[i].t), Mmap(s.threads[i].f), 1)
           case PopulateCount(i) => Shifted(s.num, Mmap(s.threads[i].tier), Free(s.threads[i].tier), 1)
           case UnmapCount(i) =>
             var g := if s.desc[s.threads[i].p].inDram then Dram else Nvm;
             Shifted(s.num, Free(g), Mmap(g), 1)
           case MigCount => CountMoved(s.num, s.mig.f, s.mig.t, s.mig.n)
           case _ => s.num
  }

  lemma CountersMove(s: System, a: Action)
    requires Enabled(s, a)
    ensures MovesCounters(s, a, Do(s, a).num)
  {
    hide Shifted;
    hide CountMoved;
    if !Counting(a) {
      OthersDoNotCount(s, a);
    }
  }

  lemma ShiftedMigrate(num: Counters, up: QueueId, down: QueueId, n: nat, f: Tier, t: Tier)
    requires !down.Migrate?
    ensures Shifted(num, up, down, n)[Migrate(f, t)] ==
            if up == Migrate(f, t) then Plus(num[Migrate(f, t)], n) else num[Migrate(f, t)]
  {
  }

  lemma MovedMigrate(num: Counters, g: Tier, h: Tier, n: nat, f: Tier, t: Tier)
    ensures CountMoved(num, g, h, n)[Migrate(f, t)] ==
            if g == f && h == t then Minus(num[Migrate(f, t)], n) else num[Migrate(f, t)]
  {
  }

  lemma NumStep(s: System, a: Action, f: Tier, t: Tier)
    requires Enabled(s, a)
    ensures Do(s, a).num[Migrate(f, t)] ==
            if Counts(s, a, f, t) then Plus(s.num[Migrate(f, t)], 1)
            else if Subtracts(s, a, f, t) then Minus(s.num[Migrate(f, t)], s.mig.n) else s.num[Migrate(f, t)]
  {
    hide Plus;
    hide Minus;
    hide Shifted;
    hide CountMoved;
    hide Do;
    CountersMove(s, a);
    match a
    case MigCount => MovedMigrate(s.num, s.mig.f, s.mig.t, s.mig.n, f, t);
    case ReqCount(i) => ShiftedMigrate(s.num, Migrate(s.threads[i].f, s.threads[i].t), Mmap(s.threads[i].f), 1, f, t);
    case PopulateCount(i) => ShiftedMigrate(s.num, Mmap(s.threads[i].tier), Free(s.threads[i].tier), 1, f, t);
    case UnmapCount(i) =>
      var tier := if s.desc[s.threads[i].p].inDram then Dram else Nvm;
      ShiftedMigrate(s.num, Free(tier), Mmap(tier), 1, f, t);
    case _ =>
  }

  /** The queues a step leaves. */
  function QueuesAfter(s: System, a: Action): Queues<nat>
    requires Enabled(s, a)
  {
    match a
    case ReqTake(_, f, _) => s.q[Mmap(f) := Rest1(s.q[Mmap(f)])]
    case ReqBack(i) => s.q[Mmap(s.threads[i].f) := s.q[Mmap(s.threads[i].f)] + [s.threads[i].p]]
    case ReqPut(i) =>
      var k := Migrate(s.threads[i].f, s.threads[i].t);
      s.q[k := s.q[k] + [s.threads[i].p]]
    case FaultDram(_, _) => s.q[Free(Dram) := Rest1(s.q[Free(Dram)])]
    case FaultNvm(_) => s.q[Free(Nvm) := Rest1(s.q[Free(Nvm)])]
    case FaultMap(i, _) => s.q[Mmap(s.threads[i].tier) := s.q[Mmap(s.threads[i].tier)] + [s.threads[i].p]]
    case MigTakePage =>
      var k := Migrate(s.mig.f, s.mig.t);
      s.q[k := Rest1(s.q[k])]
    case MigTakeFree => s.q[Free(s.mig.t) := Rest1(s.q[Free(s.mig.t)])]
    case MigReturnPage => s.q[Mmap(s.mig.t) := s.q[Mmap(s.mig.t)] + [s.mig.pages[0]]]
    case MigReturnFree => s.q[Free(s.mig.f) := s.q[Free(s.mig.f)] + [s.mig.frees[0]]]
    case _ => s.q
  }

  lemma RequestQueues(s: System, a: Action)
    requires Enabled(s, a) && ByThread(a) && ByRequest(a)
    ensures Do(s, a).q == QueuesAfter(s, a)
  {
    hide FaultDoes;
    hide MigrationDoes;
    hide MigrationEnabled;
    hide Shifted;
    hide DescOf;
    if a.ReqTake? && s.q[Mmap(a.f)] == [] {
      assert s.q[Mmap(a.f) := Rest1(s.q[Mmap(a.f)])] == s.q;
    }
  }

  lemma FaultQueues(s: System, a: Action)
    requires Enabled(s, a) && ByThread(a) && !ByRequest(a)
    ensures Do(s, a).q == QueuesAfter(s, a)
  {
    hide RequestDoes;
    hide MigrationDoes;
    hide MigrationEnabled;
    hide Shifted;
    hide DescOf;
    if a.FaultDram? && s.q[Free(Dram)] == [] {
      assert s.q[Free(Dram) := Rest1(s.q[Free(Dram)])] == s.q;
    }
  }

  lemma ThreadQueues(s: System, a: Action)
    requires Enabled(s, a) && ByThread(a)
    ensures Do(s, a).q == QueuesAfter(s, a)
  {
    hide *;
    if ByRequest(a) {
      RequestQueues(s, a);
    } else {
      FaultQueues(s, a);
    }
  }

  lemma MigrationQueues(s: System, a: Action)
    requires Enabled(s, a) && !ByThread(a)
    ensures Do(s, a).q == QueuesAfter(s, a)
  {
    hide ThreadDoes;
    hide ThreadEnabled;
    hide CountMoved;
    hide Front;
    hide Rest1;
    hide DescOf;
    hide Min;
  }

  lemma QueuesStep(s: System, a: Action)
    requires Enabled(s, a)
    ensures Do(s, a).q == QueuesAfter(s, a)
  {
    hide *;
    if ByThread(a) {
      ThreadQueues(s, a);
    } else {
      MigrationQueues(s, a);
    }
  }

  lemma ThreadQueueStep(s: System, a: Action, f: Tier, t: Tier)
    requires Enabled(s, a) && ByThread(a)
    ensures |QueuesAfter(s, a)[Migrate(f, t)]| == |s.q[Migrate(f, t)]| + (if Puts(s, a, f, t) then 1 else 0)
  {
    hide MigrationEnabled;
  }

  lemma MigrationQueueStep(s: System, a: Action, f: Tier, t: Tier)
    requires Enabled(s, a) && Asserts(s, a) && !ByThread(a)
    ensures |QueuesAfter(s, a)[Migrate(f, t)]| == |s.q[Migrate(f, t)]| - (if Takes(s, a, f, t) then 1 else 0)
  {
    hide ThreadEnabled;
  }

  lemma QueueStep(s: System, a: Action, f: Tier, t: Tier)
    requires Enabled(s, a) && Asserts(s, a)
    ensures |Do(s, a).q[Migrate(f, t)]| ==
            |s.q[Migrate(f, t)]| + (if Puts(s, a, f, t) then 1 else 0) - (if Takes(s, a, f, t) then 1 else 0)
  {
    hide Do;
    hide Enabled;
    hide Asserts;
    hide QueuesAfter;
    QueuesStep(s, a);
    if ByThread(a) {
      ThreadQueueStep(s, a, f, t);
    } else {
      MigrationQueueStep(s, a, f, t);
    }
  }

  lemma UnsubtractedStep(s: System, a: Action, f: Tier, t: Tier)
    requires Enabled(s, a)
    ensures Unsubtracted(Do(s, a).mig, f, t) ==
            Unsubtracted(s.mig, f, t) + (if Takes(s, a, f, t) then 1 else 0)
            - (if Subtracts(s, a, f, t) then s.mig.n else 0)
  {
    hide ThreadDoes;
    hide ThreadEnabled;
    hide CountMoved;
    hide Dequeue;
    hide Enqueue;
    hide SetDesc;
    if ByThread(a) {
      ThreadKeeps(s, a);
    }
  }

  /** The state a step leaves its thread in. */
  function NextLocal(s: System, a: Action): Local
    requires Enabled(s, a) && ByThread(a)
  {
    match a
    case ReqDraw(i, f, t, rand) => Turning(f, t, if s.num[Mmap(f)] == 0 then 0 else rand % s.num[Mmap(f)])
    case ReqTake(i, f, t) => if s.q[Mmap(f)] == [] then Idle else Holding(f, t, s.q[Mmap(f)][0], LeftOf(s.threads[i]))
    case ReqBack(i) => Turning(s.threads[i].f, s.threads[i].t, s.threads[i].left - 1)
    case ReqPut(i) => Put(s.threads[i].f, s.threads[i].t)
    case FaultDram(i, populate) =>
      if s.q[Free(Dram)] == [] then TryNvm(populate) else Fresh(Dram, s.q[Free(Dram)][0], populate)
    case FaultNvm(i) => Fresh(Nvm, Front(s.q[Free(Nvm)]), s.threads[i].populate)
    case FaultMap(i, va) => if s.threads[i].populate then Mapped(s.threads[i].tier) else Idle
    case UnmapFind(_, va) => Found(va, s.index[va])
    case UnmapRemove(i) => Unmapped(s.threads[i].p)
    case _ => Idle
  }

  /** A step changes the state of its own thread only. */
  lemma ThreadStep(s: System, a: Action)
    requires Enabled(s, a)
    ensures ByThread(a) ==> a.i < |s.threads| && Do(s, a).threads == s.threads[a.i := NextLocal(s, a)]
    ensures !ByThread(a) ==> Do(s, a).threads == s.threads
  {
    hide MigrationDoes;
    hide MigrationEnabled;
    hide Shifted;
    hide DescOf;
    if !ByThread(a) {
      MigrationKeeps(s, a);
    }
  }

  lemma SumStep(s: System, a: Action, w: Local -> int)
    requires Enabled(s, a)
    ensures !ByThread(a) ==> Sum(Do(s, a).threads, w) == Sum(s.threads, w)
    ensures ByThread(a) ==> (
              && a.i < |s.threads|
              && Sum(Do(s, a).threads, w) == Sum(s.threads, w) - w(s.threads[a.i]) + w(NextLocal(s, a)))
  {
    hide Do;
    hide Enabled;
    hide NextLocal;
    ThreadStep(s, a);
    if ByThread(a) {
      SumUpdate(s.threads, w, a.i, NextLocal(s, a));
    }
  }

  /** How the number of uncounted requests of a kind changes. */
  lemma UncountedStep(s: System, a: Action, f: Tier, t: Tier)
    requires Enabled(s, a)
    ensures Sum(Do(s, a).threads, Uncounted(f, t)) ==
            Sum(s.threads, Uncounted(f, t)) +
                (if Puts(s, a, f, t) then 1 else 0) - (if Counts(s, a, f, t) then 1 else 0)
  {
    hide Do;
    hide Sum;
    SumStep(s, a, Uncounted(f, t));
  }

  lemma NoWrap(s: System, a: Action, f: Tier, t: Tier)
    requires Owned(s) && Ledger(s) && Counts(s, a, f, t)
    ensures s.num[Migrate(f, t)] + 1 < WORD &&
            s.num[Migrate(f, t)] + 1 <= |s.q[Migrate(f, t)]| + Unsubtracted(s.mig, f, t)
  {
    assert Counted(s, f, t) && Uncounted(f, t)(s.threads[a.i]) == 1;
    SumNonNegative(s.threads, Uncounted(f, t), a.i);
    QueueFits(s, Migrate(f, t));
    assert Unsubtracted(s.mig, f, t) <= s.batch;
  }

  lemma StepCounted(s: System, a: Action, f: Tier, t: Tier)
    requires Owned(s) && Ledger(s) && Enabled(s, a) && Asserts(s, a)
    ensures Counted(Do(s, a), f, t)
  {
    hide Owned;
    hide Do;
    hide Enabled;
    hide Asserts;
    hide Sum;
    assert Counted(s, f, t);
    NumStep(s, a, f, t);
    QueueStep(s, a, f, t);
    UnsubtractedStep(s, a, f, t);
    UncountedStep(s, a, f, t);
    if Counts(s, a, f, t) {
      NoWrap(s, a, f, t);
    }
  }

  /** Every step keeps the ledger. */
  lemma StepLedger(s: System, a: Action)
    requires Owned(s) && Ledger(s) && Enabled(s, a) && Asserts(s, a)
    ensures Ledger(Do(s, a))
  {
    forall f, t ensures Counted(Do(s, a), f, t) {
      StepCounted(s, a, f, t);
    }
    StepOwned(s, a);
    SameDescs(s, a);
    BatchWithinCounter(s, a);
  }

  lemma ThreadSameDescs(s: System, a: Action)
    requires Owned(s) && Enabled(s, a) && ByThread(a)
    ensures Do(s, a).desc.Keys == s.desc.Keys
  {
    hide Owned;
    hide Do;
    ThreadDescs(s, a);
  }

  lemma MigrationSameDescs(s: System, a: Action)
    requires Owned(s) && Enabled(s, a) && !ByThread(a)
    ensures Do(s, a).desc.Keys == s.desc.Keys
  {
    hide Owned;
    hide Do;
    MigrationDescs(s, a);
  }

  lemma SameDescs(s: System, a: Action)
    requires Owned(s) && Enabled(s, a)
    ensures Do(s, a).desc.Keys == s.desc.Keys && Do(s, a).batch == s.batch
  {
    hide *;
    if ByThread(a) {
      ThreadSameDescs(s, a);
      ThreadKeeps(s, a);
    } else {
      MigrationSameDescs(s, a);
      MigrationKeeps(s, a);
    }
  }

  /** What becomes of the batch in a step. */
  lemma BatchStep(s: System, a: Action)
    requires Enabled(s, a)
    ensures var m := Do(s, a).mig;
            || m.Rest?
            || (s.mig.Rest? && m.n <= s.num[Migrate(m.f, m.t)] && m.n <= s.batch && a.MigStart?)
            || (!s.mig.Rest? && m.f == s.mig.f && m.t == s.mig.t && m.n == s.mig.n && !a.MigCount?)
  {
    hide ThreadDoes;
    hide ThreadEnabled;
    hide CountMoved;
    hide Dequeue;
    hide Enqueue;
    hide SetDesc;
    if ByThread(a) {
      ThreadKeeps(s, a);
    }
  }

  lemma BatchWithinCounter(s: System, a: Action)
    requires Owned(s) && Ledger(s) && Enabled(s, a)
    ensures var s' := Do(s, a); !s'.mig.Rest? ==> s'.mig.n <= s'.num[Migrate(s'.mig.f, s'.mig.t)] && s'.mig.n <= s.batch
  {
    hide Owned;
    hide Do;
    hide Enabled;
    BatchStep(s, a);
    var m := Do(s, a).mig;
    if !m.Rest? {
      NumStep(s, a, m.f, m.t);
      if Counts(s, a, m.f, m.t) {
        NoWrap(s, a, m.f, m.t);
      }
    }
  }

  /* ---- What the counters of a tier add up to ---- */

  function Mod(n: int): nat { n % WORD }

  function Val(num: Counters, k: QueueId): int { num[k] }

  /** The four counters of a tier together. */
  function TierSum(num: Counters, t: Tier): nat {
    Mod(Val(num, Free(t)) + Val(num, Mmap(t)) + Val(num, Migrate(t, Dram)) + Val(num, Migrate(t, Nvm)))
  }

  lemma WholeTurns(a: int, k: int)
    ensures Mod(a + k * WORD) == Mod(a)
  {
    var q, q' := a / WORD, (a + k * WORD) / WORD;
    assert -1 < q' - q - k < 1;
  }

  lemma TwoMods(x: nat, y: nat, n: nat, rest: int)
    ensures Mod(Plus(x, n) as int + Minus(y, n) as int + rest) == Mod(x + y + rest)
  {
    hide Mod;
    var j, k := (x + n) / WORD, (y - n) / WORD;
    assert Plus(x, n) == x + n - j * WORD;
    assert Minus(y, n) == y - n - k * WORD;
    WholeTurns(x + y + rest, -j - k);
  }

  /** The counters of tier t other than up and down. */
  function Others(num: Counters, up: QueueId, down: QueueId, t: Tier): int {
    (if up == Free(t) || down == Free(t) then 0 else Val(num, Free(t)))
    + (if up == Mmap(t) || down == Mmap(t) then 0 else Val(num, Mmap(t)))
    + (if up == Migrate(t, Dram) || down == Migrate(t, Dram) then 0 else Val(num, Migrate(t, Dram)))
    + (if up == Migrate(t, Nvm) || down == Migrate(t, Nvm) then 0 else Val(num, Migrate(t, Nvm)))
  }

  lemma Split(num: Counters, up: QueueId, down: QueueId, t: Tier)
    requires TierOf(up) == TierOf(down) == t && up != down
    ensures Val(num, Free(t)) + Val(num, Mmap(t)) + Val(num, Migrate(t, Dram)) + Val(num, Migrate(t, Nvm)) ==
            Val(num, up) + Val(num, down) + Others(num, up, down, t)
  {
    hide Val;
    EightQueues(up);
    EightQueues(down);
  }

  /** Moving a count from one counter of a tier to another changes no tier's sum. */
  lemma ShiftedTierSum(num: Counters, up: QueueId, down: QueueId, n: nat, t: Tier)
    requires TierOf(up) == TierOf(down) && up != down
    ensures TierSum(Shifted(num, up, down, n), t) == TierSum(num, t)
  {
    hide Mod;
    hide Plus;
    hide Minus;
    if TierOf(up) == t {
      Split(num, up, down, t);
      Split(Shifted(num, up, down, n), up, down, t);
      TwoMods(num[up], num[down], n, Others(num, up, down, t));
    }
  }

  /** The update at the end of a batch moves counts within tiers. */
  lemma MovedIsShifted(num: Counters, f: Tier, t: Tier, n: nat)
    ensures CountMoved(num, f, t, n) ==
            if f == t then Shifted(num, Mmap(t), Migrate(f, t), n)
            else Shifted(Shifted(num, Mmap(t), Free(t), n), Free(f), Migrate(f, t), n)
  {
    hide Plus;
    hide Minus;
  }

  lemma MovedTierSum(num: Counters, f: Tier, t: Tier, n: nat, g: Tier)
    ensures TierSum(CountMoved(num, f, t, n), g) == TierSum(num, g)
  {
    hide Shifted;
    hide CountMoved;
    hide TierSum;
    MovedIsShifted(num, f, t, n);
    if f == t {
      ShiftedTierSum(num, Mmap(t), Migrate(f, t), n, g);
    } else {
      ShiftedTierSum(num, Mmap(t), Free(t), n, g);
      ShiftedTierSum(Shifted(num, Mmap(t), Free(t), n), Free(f), Migrate(f, t), n, g);
    }
  }

  /** In every step, whatever threads are in the middle of, the four counters of each tier keep their sum modulo
      2^64. */
  lemma StepTierSum(s: System, a: Action, t: Tier)
    requires Enabled(s, a)
    ensures TierSum(Do(s, a).num, t) == TierSum(s.num, t)
  {
    hide Do;
    hide Shifted;
    hide CountMoved;
    hide TierSum;
    CountersMove(s, a);
    match a
    case ReqCount(i) => ShiftedTierSum(s.num, Migrate(s.threads[i].f, s.threads[i].t), Mmap(s.threads[i].f), 1, t);
    case PopulateCount(i) => ShiftedTierSum(s.num, Mmap(s.threads[i].tier), Free(s.threads[i].tier), 1, t);
    case UnmapCount(i) =>
      var g := if s.desc[s.threads[i].p].inDram then Dram else Nvm;
      ShiftedTierSum(s.num, Free(g), Mmap(g), 1, t);
    case MigCount => MovedTierSum(s.num, s.mig.f, s.mig.t, s.mig.n, t);
    case _ =>
  }

  /* ---- The descriptors of a tier ---- */

  /** The lengths of the four queues of a tier together. */
  function Length(q: Queues<nat>, t: Tier): nat {
    |q[Free(t)]| + |q[Mmap(t)]| + |q[Migrate(t, Dram)]| + |q[Migrate(t, Nvm)]|
  }

  /** The pages of tier t that a thread holds. */
  ghost function Carried(t: Tier): Local -> int {
    (l: Local) => if (l.Holding? && l.f == t) || (l.Fresh? && l.tier == t) then 1 else 0
  }

  /** Those the migration thread holds: of a pair, the page counts for the tier it comes from and the free page for the
      other, and the one that is left of a pair counts for the tier the page came from. */
  function Batched1(m: Mig, t: Tier): nat {
    if m.Rest? then 0
    else
      var pages, frees := |MigPages(m)| + |MigDone(m)|, |m.frees|;
      var more, less := if pages >= frees then pages else frees, if pages >= frees then frees else pages;
      (if m.f == t then more else 0) + (if m.t == t then less else 0)
  }

  ghost function TierPages(s: System, t: Tier): int {
    Length(s.q, t) + Sum(s.threads, Carried(t)) + Batched1(s.mig, t)
  }

  lemma LengthUpdate(q: Queues<nat>, k: QueueId, x: seq<nat>, t: Tier)
    ensures Length(q[k := x], t) == Length(q, t) + (if TierOf(k) == t then |x| - |q[k]| else 0)
  {
    EightQueues(k);
  }

  /** How a step changes the queues of tier t: at most one of them, by one page at most. */
  function LengthChange(s: System, a: Action, t: Tier): int
    requires Enabled(s, a)
  {
    match a
    case ReqTake(_, f, _) => if f == t && s.q[Mmap(f)] != [] then -1 else 0
    case ReqBack(i) => if s.threads[i].f == t then 1 else 0
    case ReqPut(i) => if s.threads[i].f == t then 1 else 0
    case FaultDram(_, _) => if s.q[Free(Dram)] != [] && t == Dram then -1 else 0
    case FaultNvm(_) => if t == Nvm then -1 else 0
    case FaultMap(i, _) => if s.threads[i].tier == t then 1 else 0
    case MigTakePage => if s.mig.f == t then -1 else 0
    case MigTakeFree => if s.mig.t == t then -1 else 0
    case MigReturnPage => if s.mig.t == t then 1 else 0
    case MigReturnFree => if s.mig.f == t then 1 else 0
    case _ => 0
  }

  lemma ThreadLength(s: System, a: Action, t: Tier)
    requires Enabled(s, a) && Asserts(s, a) && ByThread(a)
    ensures Length(QueuesAfter(s, a), t) == Length(s.q, t) + LengthChange(s, a, t)
  {
    hide Length;
    match a
    case ReqTake(_, f, _) => LengthUpdate(s.q, Mmap(f), Rest1(s.q[Mmap(f)]), t);
    case ReqBack(i) => LengthUpdate(s.q, Mmap(s.threads[i].f), s.q[Mmap(s.threads[i].f)] + [s.threads[i].p], t);
    case ReqPut(i) =>
      var k := Migrate(s.threads[i].f, s.threads[i].t);
      LengthUpdate(s.q, k, s.q[k] + [s.threads[i].p], t);
    case FaultDram(_, _) => LengthUpdate(s.q, Free(Dram), Rest1(s.q[Free(Dram)]), t);
    case FaultNvm(_) => LengthUpdate(s.q, Free(Nvm), Rest1(s.q[Free(Nvm)]), t);
    case FaultMap(i, _) =>
      var k := Mmap(s.threads[i].tier);
      LengthUpdate(s.q, k, s.q[k] + [s.threads[i].p], t);
    case _ =>
  }

  lemma MigrationLength(s: System, a: Action, t: Tier)
    requires Enabled(s, a) && Asserts(s, a) && !ByThread(a)
    ensures Length(QueuesAfter(s, a), t) == Length(s.q, t) + LengthChange(s, a, t)
  {
    hide Length;
    match a
    case MigTakePage =>
      var k := Migrate(s.mig.f, s.mig.t);
      LengthUpdate(s.q, k, Rest1(s.q[k]), t);
    case MigTakeFree => LengthUpdate(s.q, Free(s.mig.t), Rest1(s.q[Free(s.mig.t)]), t);
    case MigReturnPage => LengthUpdate(s.q, Mmap(s.mig.t), s.q[Mmap(s.mig.t)] + [s.mig.pages[0]], t);
    case MigReturnFree => LengthUpdate(s.q, Free(s.mig.f), s.q[Free(s.mig.f)] + [s.mig.frees[0]], t);
    case _ =>
  }

  lemma LengthStep(s: System, a: Action, t: Tier)
    requires Enabled(s, a) && Asserts(s, a)
    ensures Length(Do(s, a).q, t) == Length(s.q, t) + LengthChange(s, a, t)
  {
    hide *;
    QueuesStep(s, a);
    if ByThread(a) {
      ThreadLength(s, a, t);
    } else {
      MigrationLength(s, a, t);
    }
  }

  lemma CarriedStep(s: System, a: Action, t: Tier)
    requires Enabled(s, a) && Asserts(s, a)
    ensures Sum(Do(s, a).threads, Carried(t)) == Sum(s.threads, Carried(t)) +
            match a
            case ReqTake(_, f, _) => (if f == t && s.q[Mmap(f)] != [] then 1 else 0)
            case ReqBack(i) => (if s.threads[i].f == t then -1 else 0)
            case ReqPut(i) => (if s.threads[i].f == t then -1 else 0)
            case FaultDram(_, _) => (if s.q[Free(Dram)] != [] && t == Dram then 1 else 0)
            case FaultNvm(_) => (if t == Nvm then 1 else 0)
            case FaultMap(i, _) => (if s.threads[i].tier == t then -1 else 0)
            case _ => 0
  {
    hide Do;
    hide Sum;
    SumStep(s, a, Carried(t));
  }

  lemma BatchedStep(s: System, a: Action, t: Tier)
    requires Enabled(s, a) && MigOk(s.mig, s.where)
    ensures Batched1(Do(s, a).mig, t) == Batched1(s.mig, t) +
            match a
            case MigTakePage => (if s.mig.f == t then 1 else 0)
            case MigTakeFree => (if s.mig.t == t then 1 else 0)
            case MigReturnPage => (if s.mig.t == t then -1 else 0)
            case MigReturnFree => (if s.mig.f == t then -1 else 0)
            case _ => 0
  {
    hide ThreadDoes;
    hide ThreadEnabled;
    hide CountMoved;
    hide Dequeue;
    hide Enqueue;
    hide SetDesc;
    if ByThread(a) {
      ThreadKeeps(s, a);
    }
  }

  /** In every step each tier keeps its descriptors: those on its queues and those held for it. */
  lemma StepTierPages(s: System, a: Action, t: Tier)
    requires Owned(s) && Enabled(s, a) && Asserts(s, a)
    ensures TierPages(Do(s, a), t) == TierPages(s, t)
  {
    hide Do;
    hide Asserts;
    hide Length;
    hide Sum;
    hide Batched1;
    LengthStep(s, a, t);
    CarriedStep(s, a, t);
    BatchedStep(s, a, t);
  }

  /* ---- get_total_mmap ---- */

  /** The sum get_total_mmap reads, before it is returned as an int. */
  function TotalMmap(num: Counters): nat {
    Mod(Val(num, Migrate(Dram, Dram)) + Val(num, Migrate(Dram, Nvm)) + Val(num, Mmap(Dram))
        + Val(num, Migrate(Nvm, Nvm)) + Val(num, Migrate(Nvm, Dram)) + Val(num, Mmap(Nvm)))
  }

  /** What it returns: the low 32 bits, read as a signed number. */
  function GetTotalMmap(num: Counters): int {
    var low := TotalMmap(num) % 0x1_0000_0000;
    if low < 0x8000_0000 then low else low - 0x1_0000_0000
  }

  /** Pages that populate has mapped and not yet counted; pages that munmap has unindexed and not yet counted. */
  ghost function Uncounted1(): Local -> int {
    (l: Local) => if l.Mapped? then 1 else if l.Unmapped? then -1 else 0
  }

  /** The sum, plus the pages that faults have mapped uncounted, is the number of indexed pages, up to what is still
      to be counted. */
  ghost predicate Tallied(s: System) {
    Mod(TotalMmap(s.num) + s.faults + Sum(s.threads, Uncounted1()) - |s.index|) == 0
  }

  lemma TotalIsRest(num: Counters)
    ensures TotalMmap(num) == Mod(TierSum(num, Dram) + TierSum(num, Nvm) - Val(num, Free(Dram)) - Val(num, Free(Nvm)))
  {
    hide Mod;
    var a := Val(num, Free(Dram)) + Val(num, Mmap(Dram)) + Val(num, Migrate(Dram, Dram)) + Val(num, Migrate(Dram, Nvm));
    var b := Val(num, Free(Nvm)) + Val(num, Mmap(Nvm)) + Val(num, Migrate(Nvm, Dram)) + Val(num, Migrate(Nvm, Nvm));
    ModsOf(a, b, Val(num, Free(Dram)) + Val(num, Free(Nvm)));
  }

  lemma ModsOf(a: int, b: int, c: int)
    ensures Mod(Mod(a) + Mod(b) - c) == Mod(a + b - c)
  {
  }

  lemma SameTotal(num: Counters, num': Counters, d: int)
    requires forall t :: TierSum(num', t) == TierSum(num, t)
    requires Mod(Val(num', Free(Dram)) + Val(num', Free(Nvm)) + d) == Mod(Val(num, Free(Dram)) + Val(num, Free(Nvm)))
    ensures TotalMmap(num') == Mod(TotalMmap(num) + d)
  {
    hide *;
    TotalIsRest(num);
    TotalIsRest(num');
    var tiers := TierSum(num, Dram) + TierSum(num, Nvm);
    assert TierSum(num', Dram) == TierSum(num, Dram) && TierSum(num', Nvm) == TierSum(num, Nvm);
    Complement(tiers, Val(num, Free(Dram)) + Val(num, Free(Nvm)), Val(num', Free(Dram)) + Val(num', Free(Nvm)), d);
  }

  lemma Complement(tiers: int, free: int, free': int, d: int)
    requires Mod(free' + d) == Mod(free)
    ensures Mod(tiers - free') == Mod(Mod(tiers - free) + d)
  {
  }

  function FreeSum(num: Counters): int { Val(num, Free(Dram)) + Val(num, Free(Nvm)) }

  /** What a counter step takes from the free counters. */
  function FreeDrop(a: Action): int {
    if a.PopulateCount? then 1 else if a.UnmapCount? then -1 else 0
  }

  lemma ShiftedFree(num: Counters, up: QueueId, down: QueueId, n: nat)
    requires up != down
    ensures Mod(FreeSum(Shifted(num, up, down, n)) + (if down.Free? then n else 0) - (if up.Free? then n else 0)) ==
            Mod(FreeSum(num))
  {
    hide Plus;
    hide Minus;
    hide Mod;
    EightQueues(up);
    EightQueues(down);
    if up.Free? && down.Free? {
      TwoMods(num[up], num[down], n, 0);
    } else if up.Free? {
      PlusBack(num[up], n, FreeSum(num) - num[up]);
    } else if down.Free? {
      MinusBack(num[down], n, FreeSum(num) - num[down]);
    }
  }

  lemma PlusBack(x: nat, n: nat, rest: int)
    ensures Mod(Plus(x, n) as int + rest - n) == Mod(x + rest)
  {
  }

  lemma MinusBack(x: nat, n: nat, rest: int)
    ensures Mod(Minus(x, n) as int + rest + n) == Mod(x + rest)
  {
  }

  lemma FreeStep(s: System, a: Action)
    requires Enabled(s, a)
    ensures Mod(FreeSum(Do(s, a).num) + FreeDrop(a)) == Mod(FreeSum(s.num))
  {
    hide Do;
    hide Shifted;
    hide CountMoved;
    hide FreeSum;
    hide Mod;
    CountersMove(s, a);
    match a
    case ReqCount(i) => ShiftedFree(s.num, Migrate(s.threads[i].f, s.threads[i].t), Mmap(s.threads[i].f), 1);
    case PopulateCount(i) => ShiftedFree(s.num, Mmap(s.threads[i].tier), Free(s.threads[i].tier), 1);
    case UnmapCount(i) =>
      var g := if s.desc[s.threads[i].p].inDram then Dram else Nvm;
      ShiftedFree(s.num, Free(g), Mmap(g), 1);
    case MigCount =>
      MovedFree(s.num, s.mig.f, s.mig.t, s.mig.n);
    case _ =>
  }

  lemma MovedFree(num: Counters, f: Tier, t: Tier, n: nat)
    ensures Mod(FreeSum(CountMoved(num, f, t, n))) == Mod(FreeSum(num))
  {
    MovedIsShifted(num, f, t, n);
    hide Shifted;
    hide CountMoved;
    hide FreeSum;
    hide Mod;
    if f == t {
      ShiftedFree(num, Mmap(t), Migrate(f, t), n);
    } else {
      var mid := Shifted(num, Mmap(t), Free(t), n);
      ShiftedFree(num, Mmap(t), Free(t), n);
      ShiftedFree(mid, Free(f), Migrate(f, t), n);
      Telescoped(FreeSum(Shifted(mid, Free(f), Migrate(f, t), n)), FreeSum(mid), FreeSum(num), n);
    }
  }

  lemma Telescoped(z: int, y: int, x: int, n: int)
    requires Mod(z - n) == Mod(y) && Mod(y + n) == Mod(x)
    ensures Mod(z) == Mod(x)
  {
  }

  lemma StepTotal(s: System, a: Action)
    requires Enabled(s, a)
    ensures TotalMmap(Do(s, a).num) == Mod(TotalMmap(s.num) + FreeDrop(a))
  {
    hide Do;
    hide TotalMmap;
    hide TierSum;
    FreeStep(s, a);
    forall t ensures TierSum(Do(s, a).num, t) == TierSum(s.num, t) {
      StepTierSum(s, a, t);
    }
    SameTotal(s.num, Do(s, a).num, FreeDrop(a));
  }

  /** How a step changes the number of pages that are indexed without a fault having mapped them. */
  function IndexChange(s: System, a: Action): int
    requires Enabled(s, a)
  {
    match a
    case FaultMap(i, _) => if s.threads[i].populate then 1 else 0
    case UnmapRemove(_) => -1
    case _ => 0
  }

  lemma RequestsKeepIndex(s: System, a: Action)
    requires Enabled(s, a) && !a.FaultMap? && !a.UnmapRemove? && ByThread(a) && ByRequest(a)
    ensures Do(s, a).faults == s.faults && Do(s, a).index == s.index
  {
    hide FaultDoes;
    hide MigrationDoes;
    hide MigrationEnabled;
    hide Shifted;
    hide CountMoved;
    hide Front;
    hide Rest1;
    hide DescOf;
  }

  lemma FaultsKeepIndex(s: System, a: Action)
    requires Enabled(s, a) && !a.FaultMap? && !a.UnmapRemove? && ByThread(a) && !ByRequest(a)
    ensures Do(s, a).faults == s.faults && Do(s, a).index == s.index
  {
    hide RequestDoes;
    hide MigrationDoes;
    hide MigrationEnabled;
    hide Shifted;
    hide CountMoved;
    hide Front;
    hide Rest1;
    hide DescOf;
  }

  lemma ThreadsKeepIndex(s: System, a: Action)
    requires Enabled(s, a) && !a.FaultMap? && !a.UnmapRemove? && ByThread(a)
    ensures Do(s, a).faults == s.faults && Do(s, a).index == s.index
  {
    hide *;
    if ByRequest(a) {
      RequestsKeepIndex(s, a);
    } else {
      FaultsKeepIndex(s, a);
    }
  }

  lemma MapsAt(s: System, i: nat, va: nat)
    requires Enabled(s, FaultMap(i, va))
    ensures var s' := Do(s, FaultMap(i, va));
            && s'.index == s.index[va := s.threads[i].p]
            && s'.faults == s.faults + (if s.threads[i].populate then 0 else 1)
  {
    hide RequestDoes;
    hide MigrationDoes;
    hide MigrationEnabled;
    hide DescOf;
  }

  lemma RemovesAt(s: System, i: nat)
    requires Enabled(s, UnmapRemove(i))
    ensures var s' := Do(s, UnmapRemove(i)); s'.index == s.index - {s.threads[i].va} && s'.faults == s.faults
  {
    hide RequestDoes;
    hide MigrationDoes;
    hide MigrationEnabled;
  }

  lemma IndexStep(s: System, a: Action)
    requires Enabled(s, a) && Asserts(s, a)
    ensures var s' := Do(s, a); |s'.index| - s'.faults == |s.index| - s.faults + IndexChange(s, a)
  {
    hide Do;
    match a
    case FaultMap(i, va) =>
      MapsAt(s, i, va);
      IndexGrows(s.index, va, s.threads[i].p);
    case UnmapRemove(i) =>
      RemovesAt(s, i);
      IndexShrinks(s.index, s.threads[i].va);
    case _ =>
      if ByThread(a) {
        ThreadsKeepIndex(s, a);
      } else {
        MigrationKeeps(s, a);
      }
  }

  lemma PendingStep(s: System, a: Action)
    requires Enabled(s, a)
    ensures Sum(Do(s, a).threads, Uncounted1()) == Sum(s.threads, Uncounted1()) +
            match a
            case FaultMap(i, _) => (if s.threads[i].populate then 1 else 0)
            case UnmapRemove(_) => -1
            case PopulateCount(_) => -1
            case UnmapCount(_) => 1
            case _ => 0
  {
    hide Do;
    hide Sum;
    SumStep(s, a, Uncounted1());
  }

  /** How a step changes the number of indexed pages, the pages mapped by faults and the pages still to be counted. */
  lemma TallyStep(s: System, a: Action)
    requires Enabled(s, a) && Asserts(s, a)
    ensures var s' := Do(s, a);
            s'.faults + Sum(s'.threads, Uncounted1()) - |s'.index| ==
            s.faults + Sum(s.threads, Uncounted1()) - |s.index| - FreeDrop(a)
  {
    hide Do;
    hide Sum;
    IndexStep(s, a);
    PendingStep(s, a);
  }

  lemma IndexGrows(index: map<nat, nat>, va: nat, p: nat)
    requires va !in index
    ensures |index[va := p]| == |index| + 1
  {
    assert index[va := p].Keys == index.Keys + {va};
  }

  lemma IndexShrinks(index: map<nat, nat>, va: nat)
    requires va in index
    ensures |index - {va}| == |index| - 1
  {
    assert (index - {va}).Keys == index.Keys - {va};
  }

  /** Every step keeps the tally. */
  lemma StepTallied(s: System, a: Action)
    requires Tallied(s) && Enabled(s, a) && Asserts(s, a)
    ensures Tallied(Do(s, a))
  {
    hide Do;
    hide TotalMmap;
    hide Sum;
    StepTotal(s, a);
    TallyStep(s, a);
  }

  /* ---- Runs ---- */

  ghost predicate Possible(s: System, run: seq<Action>)
    decreases |run|
  {
    run == [] || (Enabled(s, run[0]) && Possible(Do(s, run[0]), run[1..]))
  }

  ghost function After(s: System, run: seq<Action>): System
    requires Possible(s, run)
    decreases |run|
  {
    if run == [] then s else After(Do(s, run[0]), run[1..])
  }

  /** No step of the run fails an assertion of the code. */
  ghost predicate NoneFails(s: System, run: seq<Action>)
    requires Possible(s, run)
    decreases |run|
  {
    run == [] || (Asserts(s, run[0]) && NoneFails(Do(s, run[0]), run[1..]))
  }

  /** No step of the run is one of the hazards. */
  ghost predicate NoHazard(s: System, run: seq<Action>)
    requires Possible(s, run)
    decreases |run|
  {
    run == [] || (!Hazard(s, run[0]) && NoHazard(Do(s, run[0]), run[1..]))
  }

  ghost predicate Good(s: System) { Owned(s) && Inside(s) && Ledger(s) && Tallied(s) }

  /** One step that is not one of the hazards. */
  lemma StepGood(s: System, a: Action, t: Tier)
    requires Good(s) && Enabled(s, a)
    ensures Asserts(s, a) <==> !Hazard(s, a)
    ensures Asserts(s, a) ==>
              && Good(Do(s, a))
              && TierSum(Do(s, a).num, t) == TierSum(s.num, t) && TierPages(Do(s, a), t) == TierPages(s, t)
  {
    hide Owned;
    hide Inside;
    hide Ledger;
    hide Tallied;
    hide Enabled;
    hide Asserts;
    hide Do;
    hide TierSum;
    hide TierPages;
    if a.MigTakePage? {
      SourceNeverEmpty(s);
    }
    AssertsHold(s, a);
    if Asserts(s, a) {
      StepOwned(s, a);
      StepInside(s, a);
      StepLedger(s, a);
      StepTallied(s, a);
      StepTierSum(s, a, t);
      StepTierPages(s, a, t);
    }
  }

  /** Whatever the interleaving: a run fails an assertion of the code exactly when it comes upon one of the hazards;
      and as long as it does not, ownership, the request counters and the tally stay in order, present pages lie inside
      their devices, and each tier keeps the sum of its counters and the number of its descriptors. */
  lemma {:induction false} EveryRun(s: System, run: seq<Action>, t: Tier)
    requires Good(s) && Possible(s, run)
    ensures NoneFails(s, run) <==> NoHazard(s, run)
    ensures NoneFails(s, run) ==>
              && Good(After(s, run))
              && TierSum(After(s, run).num, t) == TierSum(s.num, t) && TierPages(After(s, run), t) == TierPages(s, t)
    decreases |run|
  {
    hide Good;
    hide Enabled;
    hide Asserts;
    hide Hazard;
    hide Do;
    hide TierSum;
    hide TierPages;
    if run == [] {
    } else {
      StepGood(s, run[0], t);
      if Asserts(s, run[0]) {
        EveryRun(Do(s, run[0]), run[1..], t);
      }
    }
  }

  /* ---- From pebs_init on ---- */

  function Upto(from: nat, n: nat): (r: seq<nat>)
    ensures |r| == n && forall i :: 0 <= i < n ==> r[i] == from + i
  {
    seq(n, (i: nat) => from + i)
  }

  function Ids(n: nat): (r: set<nat>)
    ensures |r| == n && forall p :: p in r <==> 0 <= p < n
  {
    if n == 0 then {} else Ids(n - 1) + {n - 1}
  }

  /** The descriptors pebs_init makes, of which the first d are for DRAM. */
  function NewDescs(ids: set<nat>, d: nat, pageSize: nat): map<nat, Info> {
    map p | p in ids :: Info(0, (if p < d then p else p - d) * pageSize, p < d, false, 0, 0)
  }

  function NewPlaces(ids: set<nat>, d: nat): map<nat, Place> {
    map p | p in ids :: On(Free(if p < d then Dram else Nvm))
  }

  /** d DRAM and n NVM descriptors, all free, and threads that have not begun. */
  ghost function Started(d: nat, n: nat, threads: nat, batch: nat, pageSize: nat): System
    requires d + n + batch < WORD
  {
    System(ForEach([])[Free(Dram) := Upto(0, d)][Free(Nvm) := Upto(d, n)], ForEach(0)[Free(Dram) := d][Free(Nvm) := n],
           NewDescs(Ids(d + n), d, pageSize), NewPlaces(Ids(d + n), d), map[], seq(threads, _ => Idle), Rest, 0,
           batch, SizesOf(d, n, pageSize))
  }

  /** Free queues of consecutive numbers, and the places that say so. */
  lemma StartPlaced(q: Queues<nat>, where: map<nat, Place>, d: nat, n: nat)
    requires q[Free(Dram)] == Upto(0, d) && q[Free(Nvm)] == Upto(d, n)
    requires forall k :: k != Free(Dram) && k != Free(Nvm) ==> q[k] == []
    requires forall p :: p in where <==> 0 <= p < d + n
    requires forall p :: p in where ==> where[p] == On(Free(if p < d then Dram else Nvm))
    ensures Placed(q, where)
  {
    forall k, p | p in q[k] ensures p in where && where[p] == On(k) {
      assert k == Free(Dram) || k == Free(Nvm);
    }
    forall k ensures NoRepeats(q[k]) {
    }
    forall p | p in where && where[p].On? ensures p in q[where[p].k] {
      assert q[where[p].k][if p < d then p else p - d] == p;
    }
  }

  lemma StartOwned(d: nat, n: nat, threads: nat, batch: nat, pageSize: nat)
    requires d + n + batch < WORD
    ensures Owned(Started(d, n, threads, batch, pageSize))
  {
    hide Placed;
    hide Upto;
    hide Ids;
    var s := Started(d, n, threads, batch, pageSize);
    StartPlaced(s.q, s.where, d, n);
    forall p | p in s.desc ensures FlagsOk(s.desc[p], s.where[p], s.threads, s.mig) {
    }
  }

  lemma StartInside(d: nat, n: nat, threads: nat, batch: nat, pageSize: nat)
    requires d + n + batch < WORD
    ensures Inside(Started(d, n, threads, batch, pageSize))
  {
    hide Fits;
  }

  lemma StartLedger(d: nat, n: nat, threads: nat, batch: nat, pageSize: nat)
    requires d + n + batch < WORD
    ensures Ledger(Started(d, n, threads, batch, pageSize))
  {
    hide Sum;
    var s := Started(d, n, threads, batch, pageSize);
    assert s.desc.Keys == Ids(d + n);
    forall f, t ensures Counted(s, f, t) {
      SumOfIdle(s.threads, Uncounted(f, t));
    }
  }

  lemma StartPages(d: nat, n: nat, threads: nat, batch: nat, pageSize: nat, t: Tier)
    requires d + n + batch < WORD
    ensures TierPages(Started(d, n, threads, batch, pageSize), t) == if t == Dram then d else n
  {
    hide Sum;
    hide Ids;
    SumOfIdle(Started(d, n, threads, batch, pageSize).threads, Carried(t));
  }

  lemma StartTallied(d: nat, n: nat, threads: nat, batch: nat, pageSize: nat)
    requires d + n + batch < WORD
    ensures var s := Started(d, n, threads, batch, pageSize);
            Tallied(s) && TierSum(s.num, Dram) == d && TierSum(s.num, Nvm) == n
  {
    hide Sum;
    hide Ids;
    SumOfIdle(Started(d, n, threads, batch, pageSize).threads, Uncounted1());
  }

  /** The start is in order, with the sizes of the tiers as the sums. */
  lemma StartGood(d: nat, n: nat, threads: nat, batch: nat, pageSize: nat)
    requires d + n + batch < WORD
    ensures var s := Started(d, n, threads, batch, pageSize);
            && Good(s) && TierSum(s.num, Dram) == TierPages(s, Dram) == d &&
                TierSum(s.num, Nvm) == TierPages(s, Nvm) == n
  {
    hide Owned;
    hide Inside;
    hide Ledger;
    hide Tallied;
    hide Started;
    hide TierSum;
    hide TierPages;
    StartOwned(d, n, threads, batch, pageSize);
    StartInside(d, n, threads, batch, pageSize);
    StartLedger(d, n, threads, batch, pageSize);
    StartTallied(d, n, threads, batch, pageSize);
    StartPages(d, n, threads, batch, pageSize, Dram);
    StartPages(d, n, threads, batch, pageSize, Nvm);
  }

  /** From pebs_init on, at every moment of every run with any number of threads. */
  lemma FromTheStart(d: nat, n: nat, threads: nat, batch: nat, pageSize: nat, run: seq<Action>)
    requires d + n + batch < WORD && Possible(Started(d, n, threads, batch, pageSize), run)
    ensures var s0 := Started(d, n, threads, batch, pageSize);
            var s := After(s0, run);
            && (NoneFails(s0, run) <==> NoHazard(s0, run))
            && (NoneFails(s0, run) ==>
                  && Owned(s) && Inside(s) && Ledger(s) && Tallied(s)
                  && TierSum(s.num, Dram) == TierPages(s, Dram) == d
                  && TierSum(s.num, Nvm) == TierPages(s, Nvm) == n)
  {
    hide *;
    var s0 := Started(d, n, threads, batch, pageSize);
    StartGood(d, n, threads, batch, pageSize);
    EveryRun(s0, run, Dram);
    EveryRun(s0, run, Nvm);
    GoodParts(After(s0, run));
  }

  lemma GoodParts(s: System)
    ensures Good(s) <==> Owned(s) && Inside(s) && Ledger(s) && Tallied(s)
  {
  }

  /* ---- Offsets from outside a device ---- */

  lemma BelowSize(k: nat, d: nat, size: nat)
    requires k < d && size > 0
    ensures k * size < d * size && k * size + size <= d * size
  {
    assert d * size == k * size + size + (d - k - 1) * size;
  }

  lemma NotLess(d: nat, e: nat, size: nat)
    requires d <= e
    ensures d * size <= e * size
  {
    assert e * size == d * size + (e - d) * size;
  }

  /** At the start every offset fits the larger device. */
  lemma StartAllFit(d: nat, n: nat, threads: nat, batch: nat, pageSize: nat, t: Tier)
    requires d + n + batch < WORD && pageSize > 0 && (if t == Dram then n <= d else d <= n)
    ensures AllFit(Started(d, n, threads, batch, pageSize), t)
  {
    var s := Started(d, n, threads, batch, pageSize);
    forall p | p in s.desc ensures Fits(s.desc[p].offset, t, s.sizes) {
      if p < d {
        BelowSize(p, d, pageSize);
      } else {
        BelowSize(p - d, n, pageSize);
      }
      NotLess(if t == Dram then n else d, if t == Dram then d else n, pageSize);
    }
  }

  lemma {:induction false} RunAllFit(s: System, run: seq<Action>, t: Tier)
    requires Good(s) && AllFit(s, t) && Possible(s, run) && NoneFails(s, run)
    ensures AllFit(After(s, run), t)
    decreases |run|
  {
    hide Owned;
    hide Inside;
    hide Ledger;
    hide Tallied;
    hide AllFit;
    hide Enabled;
    hide Asserts;
    hide Do;
    if run == [] {
    } else {
      StepGood(s, run[0], t);
      StepAllFit(s, run[0], t);
      RunAllFit(Do(s, run[0]), run[1..], t);
    }
  }

  /** In every interleaving only the smaller device is ever asked for a frame it does not have; with tiers of one size
      no offset assertion fails, and no frame outside a device is written. */
  lemma OnlyTheSmaller(d: nat, n: nat, threads: nat, batch: nat, pageSize: nat, run: seq<Action>, a: Action)
    requires d + n + batch < WORD && pageSize > 0
    requires var s0 := Started(d, n, threads, batch, pageSize);
             Possible(s0, run) && NoneFails(s0, run) && Enabled(After(s0, run), a)
    ensures var s := After(Started(d, n, threads, batch, pageSize), run);
            Misplaced(s, a) ==> if Into(s, a) == Dram then d < n else n < d
  {
    hide *;
    var s0 := Started(d, n, threads, batch, pageSize);
    var s := After(s0, run);
    var t := Into(s, a);
    if if t == Dram then n <= d else d <= n {
      StartGood(d, n, threads, batch, pageSize);
      StartAllFit(d, n, threads, batch, pageSize, t);
      EveryRun(s0, run, t);
      GoodParts(s);
      RunAllFit(s0, run, t);
      FitsInto(s, a);
    }
  }

  /* ---- What callers rely on ---- */

  /** No descriptor on a free list, and none that is held to be filled or as the target of a migration, is indexed: so
      writing the address of a fresh page never changes the key of an indexed one. */
  lemma FreeNotIndexed(s: System, p: nat)
    requires Owned(s) && p in s.where
    requires (s.where[p].On? && s.where[p].k.Free?) || s.where[p].MigFree?
             || (s.where[p].Held? && s.where[p].thread < |s.threads| && s.threads[s.where[p].thread].Fresh?)
    ensures p !in s.index.Values
  {
    assert FlagsOk(s.desc[p], s.where[p], s.threads, s.mig);
    assert !s.desc[p].present;
    assert forall va :: va in s.index ==> s.desc[s.index[va]].present;
  }

  /** munmap takes the page at va out of the index. */
  predicate Unindexes(s: System, a: Action, va: nat) {
    a.UnmapRemove? && a.i < |s.threads| && s.threads[a.i].Found? && s.threads[a.i].va == va
  }

  /** A step changes the index only as populate, faults and munmap ask, and no step changes the address of a page that
      stays indexed: lookups are right through requests and migrations. */
  lemma LookupsStable(s: System, a: Action, va: nat)
    requires Owned(s) && Enabled(s, a) && Asserts(s, a) && va in s.index && !Unindexes(s, a, va)
    ensures var s' := Do(s, a);
            && va in s'.index && s'.index[va] == s.index[va]
            && s'.index[va] in s'.desc && s'.desc[s'.index[va]].va == va
  {
    hide Asserts;
    IndexKept(s, a, va);
    StepOwned(s, a);
    hide Do;
    hide Enabled;
  }

  lemma IndexKept(s: System, a: Action, va: nat)
    requires Enabled(s, a) && Asserts(s, a) && va in s.index && !Unindexes(s, a, va)
    ensures va in Do(s, a).index && Do(s, a).index[va] == s.index[va]
  {
    hide MigrationDoes;
    hide MigrationEnabled;
    hide Shifted;
    hide DescOf;
    if !ByThread(a) {
      MigrationKeeps(s, a);
    }
  }

  /** With every thread at rest the sum get_total_mmap reads, and the pages mapped by faults, are the indexed pages. */
  lemma TotalIsIndexed(s: System)
    requires Tallied(s) && forall i :: 0 <= i < |s.threads| ==> !s.threads[i].Mapped? && !s.threads[i].Unmapped?
    ensures Mod(TotalMmap(s.num) + s.faults) == Mod(|s.index|)
  {
    NothingPending(s.threads);
  }

  lemma {:induction false} NothingPending(threads: seq<Local>)
    requires forall i :: 0 <= i < |threads| ==> !threads[i].Mapped? && !threads[i].Unmapped?
    ensures Sum(threads, Uncounted1()) == 0
  {
    if threads == [] {
    } else {
      NothingPending(threads[1..]);
    }
  }

  /** The int is the sum up to a multiple of 2^32, between the least and the greatest int; so a sum that fits is
      returned as it is. */
  lemma IntOfTotal(num: Counters)
    ensures var r, total := GetTotalMmap(num), TotalMmap(num);
            && -0x8000_0000 <= r < 0x8000_0000 && (total - r) % 0x1_0000_0000 == 0
            && (total < 0x8000_0000 ==> r == total)
  {
  }

  /** The driver's final wait: when pages were mapped through populate only and no thread is in between, get_total_mmap
      returns zero exactly when no page is indexed. */
  lemma WaitEndsWhenUnmapped(s: System)
    requires Tallied(s) && s.faults == 0 && |s.index| < 0x1_0000_0000
    requires forall i :: 0 <= i < |s.threads| ==> !s.threads[i].Mapped? && !s.threads[i].Unmapped?
    ensures GetTotalMmap(s.num) == 0 <==> s.index == map[]
  {
    TotalIsIndexed(s);
    assert TotalMmap(s.num) == |s.index|;
    assert |s.index| == 0 <==> s.index == map[];
  }
}
