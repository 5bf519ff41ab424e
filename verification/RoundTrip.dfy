/** Sending every DRAM page down and then up again: the round trip of the driver mig-test.c, for any order of the
    requests, so in sequence as well as at random. */
module RoundTrip {
  import opened Basics
  import opened TierSpec
  import opened Draining

  lemma {:induction false} NothingToDrain<P>(s: State<P>, b: nat, i: nat)
    requires b > 0 && FedFrom(s, b, i)
    requires forall j {:trigger From(j)} :: i <= j < 4 ==> s.num[Migrate(From(j), To(j))] == 0
    ensures DrainFrom(s, b, i) == s
    decreases 4 - i
  {
    if i >= 4 {
    } else {
      assert From(i) == From(i);
      FedNext(s, b, i);
      NothingToDrain(s, b, i + 1);
    }
  }

  /** When only request list j has anything to do, the pass of the migration thread is one batch of that list. */
  lemma {:induction false} OneListToDrain<P>(s: State<P>, b: nat, i: nat, j: nat)
    requires b > 0 && FedFrom(s, b, i) && WellFormed(s) && i <= j < 4
    requires forall h {:trigger From(h)} :: i <= h < 4 && h != j ==> s.num[Migrate(From(h), To(h))] == 0
    requires var num := s.num[Migrate(From(j), To(j))];
             num <= |s.q[Migrate(From(j), To(j))]| && num <= |s.q[Free(To(j))]|
    ensures DrainFrom(s, b, i) == Batch(s, From(j), To(j), s.num[Migrate(From(j), To(j))])
    decreases 4 - i
  {
    hide Batch;
    hide WellFormed;
    FedNext(s, b, i);
    if i < j {
      assert From(i) == From(i);
      OneListToDrain(s, b, i + 1, j);
    } else {
      DrainQueueIsBatch(s, From(j), To(j), b);
      var s1 := DrainQueue(s, From(j), To(j), b);
      assert DrainFrom(s, b, i) == DrainFrom(s1, b, i + 1);
      hide DrainQueue;
      hide DrainFrom;
      forall h | i + 1 <= h < 4 ensures s1.num[Migrate(From(h), To(h))] == 0 {
        DrainQueueElsewhere(s, From(j), To(j), b, From(h), To(h));
      }
      NothingToDrain(s1, b, i + 1);
    }
  }

  /** No request is waiting. */
  ghost predicate Idle<P>(s: State<P>) {
    forall f, t {:trigger s.q[Migrate(f, t)]} {:trigger s.num[Migrate(f, t)]} ::
      s.q[Migrate(f, t)] == [] && s.num[Migrate(f, t)] == 0
  }

  /** A request for all pages of tier f to go to the other tier t, in the order `picked`. */
  ghost predicate Sendable<P>(s: State<P>, f: Tier, t: Tier, picked: seq<P>) {
    && f != t && WellFormed(s) && Idle(s) && multiset(picked) == multiset(s.q[Mmap(f)]) && |picked| == |s.q[Mmap(f)]|
    && |picked| <= |s.q[Free(t)]| && |picked| < WORD
  }

  /** The state after that request. */
  function Asked<P>(s: State<P>, f: Tier, t: Tier, picked: seq<P>): State<P> {
    Handed(s, f, t, picked, [])
  }

  /** A request in sequence for all pages asks for them in the order of their list. */
  lemma SequenceAsks<P>(s: State<P>, f: Tier, t: Tier)
    ensures Requested(s, f, t, |s.q[Mmap(f)]|) == Asked(s, f, t, s.q[Mmap(f)])
  {
    var src := s.q[Mmap(f)];
    assert src[..|src|] == src && src[|src|..] == [];
  }

  /** A random request for all pages asks for them in some order. */
  lemma RandomAsks<P>(s: State<P>, f: Tier, t: Tier, rands: seq<nat>) returns (picked: seq<P>)
    requires |rands| == s.num[Mmap(f)] == |s.q[Mmap(f)]|
    ensures Survives(|s.q[Mmap(f)]|, s.num[Mmap(f)], rands) && RandomRequested(s, f, t, rands) == Asked(s, f, t, picked)
    ensures multiset(picked) == multiset(s.q[Mmap(f)]) && |picked| == |s.q[Mmap(f)]|
  {
    GetsThrough(|s.q[Mmap(f)]|, s.num[Mmap(f)], rands);
    var r := Picks(s.q[Mmap(f)], s.num[Mmap(f)], rands);
    PicksPermute(s.q[Mmap(f)], s.num[Mmap(f)], rands);
    picked := r.0;
    assert r.1 == [];
  }

  /** The state after the pass that serves the request. */
  ghost function Sent<P>(s: State<P>, f: Tier, t: Tier, picked: seq<P>): State<P>
    requires Sendable(s, f, t, picked)
  {
    Batch(Asked(s, f, t, picked), f, t, |picked|)
  }

  lemma AllAsked<P>(s: State<P>, f: Tier, t: Tier, picked: seq<P>)
    requires Sendable(s, f, t, picked)
    ensures var s1 := Asked(s, f, t, picked);
            && WellFormed(s1) && s1.info == s.info
            && s1.q[Migrate(f, t)] == picked && s1.num[Migrate(f, t)] == |picked|
            && (forall g :: s1.q[Free(g)] == s.q[Free(g)])
            && (forall h {:trigger From(h)} :: 0 <= h < 4 && (From(h) != f || To(h) != t) ==>
                  s1.num[Migrate(From(h), To(h))] == 0)
  {
    assert multiset(picked) + multiset([]) == multiset(picked);
    HandedKeeps(s, f, t, picked, []);
  }

  lemma Feeds<P>(s: State<P>, f: Tier, t: Tier, picked: seq<P>, b: nat)
    requires b > 0 && Sendable(s, f, t, picked)
    ensures FedFrom(Asked(s, f, t, picked), b, 0)
  {
    hide WellFormed;
    hide Asked;
    AllAsked(s, f, t, picked);
    assert From(0) == Dram && From(1) == Dram && From(2) == Nvm && From(3) == Nvm;
  }

  /** The pass of the migration thread after the request does just that, for any batch size. */
  lemma Sends<P>(s: State<P>, f: Tier, t: Tier, picked: seq<P>, b: nat)
    requires b > 0 && Sendable(s, f, t, picked)
    ensures var s1 := Asked(s, f, t, picked);
            FedFrom(s1, b, 0) && DrainAll(s1, b) == Sent(s, f, t, picked) && WellFormed(Sent(s, f, t, picked))
  {
    hide WellFormed;
    hide Batch;
    hide Asked;
    AllAsked(s, f, t, picked);
    Feeds(s, f, t, picked, b);
    var s1 := Asked(s, f, t, picked);
    BatchKeeps(s1, f, t, |picked|);
    OneListToDrain(s1, b, 0, if f == Dram then 1 else 2);
  }

  /** The queues after sending. */
  lemma SentQueues<P>(s: State<P>, f: Tier, t: Tier, picked: seq<P>)
    requires Sendable(s, f, t, picked)
    ensures var s', n := Sent(s, f, t, picked), |picked|;
            && s'.q[Mmap(f)] == [] && s'.q[Mmap(t)] == s.q[Mmap(t)] + picked
            && s'.q[Free(t)] == s.q[Free(t)][n..] && s'.q[Free(f)] == s.q[Free(f)] + s.q[Free(t)][..n]
  {
    hide Batch;
    hide WellFormed;
    var s1, n := Asked(s, f, t, picked), |picked|;
    AllAsked(s, f, t, picked);
    BatchQueue(s1, f, t, n, Mmap(f));
    BatchQueue(s1, f, t, n, Mmap(t));
    BatchQueue(s1, f, t, n, Free(f));
    BatchQueue(s1, f, t, n, Free(t));
  }

  lemma SentIdle<P>(s: State<P>, f: Tier, t: Tier, picked: seq<P>)
    requires Sendable(s, f, t, picked)
    ensures Idle(Sent(s, f, t, picked))
  {
    hide Batch;
    hide WellFormed;
    var s1, n := Asked(s, f, t, picked), |picked|;
    AllAsked(s, f, t, picked);
    BatchNum(s1, f, t, n);
    forall g, h ensures Sent(s, f, t, picked).q[Migrate(g, h)] == [] && Sent(s, f, t, picked).num[Migrate(g, h)] == 0 {
      BatchQueue(s1, f, t, n, Migrate(g, h));
    }
  }

  /** How sending changes the counters. */
  lemma SentCounters<P>(s: State<P>, f: Tier, t: Tier, picked: seq<P>)
    requires Sendable(s, f, t, picked)
    ensures var s', n := Sent(s, f, t, picked), |picked|;
            && s'.num[Mmap(f)] == Minus(s.num[Mmap(f)], n) && s'.num[Mmap(t)] == Plus(s.num[Mmap(t)], n)
            && s'.num[Free(f)] == Plus(s.num[Free(f)], n) && s'.num[Free(t)] == Minus(s.num[Free(t)], n)
  {
    hide WellFormed;
    hide Plus;
    hide Minus;
    hide Batch;
    AllAsked(s, f, t, picked);
    BatchNum(Asked(s, f, t, picked), f, t, |picked|);
  }

  /** Every page sent is in tier t, at its address, and counts one more migration that way and none the other way. */
  lemma SentCountsMoves<P>(s: State<P>, f: Tier, t: Tier, picked: seq<P>, i: nat)
    requires Sendable(s, f, t, picked) && i < |picked|
    ensures var p, r := picked[i], Sent(s, f, t, picked).info;
            && p in s.info && p in r && r[p].va == s.info[p].va && (r[p].inDram <==> t == Dram)
            && (if t == Nvm then r[p].down == s.info[p].down + 1 && r[p].up == s.info[p].up
                else r[p].up == s.info[p].up + 1 && r[p].down == s.info[p].down)
  {
    hide Batch;
    hide WellFormed;
    hide Asked;
    AllAsked(s, f, t, picked);
    BatchCountsMoves(Asked(s, f, t, picked), f, t, |picked|, i);
  }

  /** Every page sent has the next offset of the free list, and nothing else but its tier and its count of
      migrations is different. */
  lemma SentInfo<P>(s: State<P>, f: Tier, t: Tier, picked: seq<P>, i: nat)
    requires Sendable(s, f, t, picked) && i < |picked|
    ensures MovedTo(s.info, Sent(s, f, t, picked).info, picked[i], s.q[Free(t)][i], f, t)
  {
    hide Batch;
    hide WellFormed;
    hide Asked;
    var s1, n := Asked(s, f, t, picked), |picked|;
    AllAsked(s, f, t, picked);
    BatchMoves(s1, f, t, n);
    assert MovedTo(s1.info, Sent(s, f, t, picked).info, s1.q[Migrate(f, t)][..n][i], s1.q[Free(t)][..n][i], f, t);
  }

  /** All DRAM pages are to go down in the order `down`, with nothing mapped in NVM, and up again in the order `up`. */
  ghost predicate Returnable<P>(s: State<P>, down: seq<P>, up: seq<P>) {
    && Sendable(s, Dram, Nvm, down) && s.q[Mmap(Nvm)] == []
    && multiset(up) == multiset(down) && |up| == |down|
  }

  /** After everything went down it can all come up. */
  lemma CanReturn<P>(s: State<P>, down: seq<P>, up: seq<P>)
    requires Returnable(s, down, up)
    ensures var low := Sent(s, Dram, Nvm, down);
            Sendable(low, Nvm, Dram, up) && low.q[Mmap(Nvm)] == down && low.q[Mmap(Dram)] == []
  {
    hide Sent;
    hide WellFormed;
    Sends(s, Dram, Nvm, down, 1);
    SentQueues(s, Dram, Nvm, down);
    SentIdle(s, Dram, Nvm, down);
    assert [] + down == down;
  }

  ghost function ThereAndBack<P>(s: State<P>, down: seq<P>, up: seq<P>): State<P>
    requires Returnable(s, down, up)
  {
    CanReturn(s, down, up);
    Sent(Sent(s, Dram, Nvm, down), Nvm, Dram, up)
  }

  lemma SameQueues<P>(s: State<P>, down: seq<P>, up: seq<P>)
    requires Returnable(s, down, up)
    ensures var s' := ThereAndBack(s, down, up);
            && Idle(s') && s'.q[Mmap(Dram)] == up && s'.q[Mmap(Nvm)] == []
            && |s'.q[Free(Dram)]| == |s.q[Free(Dram)]| && |s'.q[Free(Nvm)]| == |s.q[Free(Nvm)]|
  {
    hide Sent;
    hide WellFormed;
    CanReturn(s, down, up);
    SentQueues(s, Dram, Nvm, down);
    var low := Sent(s, Dram, Nvm, down);
    SentQueues(low, Nvm, Dram, up);
    SentIdle(low, Nvm, Dram, up);
  }

  lemma SameCounter<P>(s: State<P>, down: seq<P>, up: seq<P>, k: QueueId)
    requires Returnable(s, down, up)
    ensures ThereAndBack(s, down, up).num[k] == s.num[k]
  {
    hide Sent;
    hide WellFormed;
    hide Plus;
    hide Minus;
    CanReturn(s, down, up);
    SameQueues(s, down, up);
    var low := Sent(s, Dram, Nvm, down);
    SentCounters(s, Dram, Nvm, down);
    SentCounters(low, Nvm, Dram, up);
    PlusMinus(s.num[k], |down|);
    match k
    case Free(t) =>
      match t {
        case Dram =>
        case Nvm =>
      }
    case Mmap(t) =>
      match t {
        case Dram =>
        case Nvm =>
      }
    case Migrate(f, t) =>
      assert s.num[Migrate(f, t)] == 0;
  }

  /** What a page sent down and up again has to show for it: one migration each way, and maybe another offset. */
  ghost predicate Travelled(i: Info, r: Info) {
    r == i.(offset := r.offset, up := i.up + 1, down := i.down + 1)
  }

  lemma Travels<P>(s: State<P>, down: seq<P>, up: seq<P>, p: P)
    requires Returnable(s, down, up) && p in s.q[Mmap(Dram)]
    ensures var s' := ThereAndBack(s, down, up); p in s.info && p in s'.info && Travelled(s.info[p], s'.info[p])
  {
    hide Sent;
    hide MovedTo;
    assert p in s.info && s.info[p].inDram;
    CanReturn(s, down, up);
    assert p in multiset(s.q[Mmap(Dram)]) && p in multiset(down) && p in multiset(up);
    var i :| 0 <= i < |down| && down[i] == p;
    var j :| 0 <= j < |up| && up[j] == p;
    var low := Sent(s, Dram, Nvm, down);
    SentInfo(s, Dram, Nvm, down, i);
    SentInfo(low, Nvm, Dram, up, j);
    OutAndBack(s.info, low.info, Sent(low, Nvm, Dram, up).info, p, s.q[Free(Nvm)][i], low.q[Free(Dram)][j]);
  }

  lemma OutAndBack<P>(i: map<P, Info>, j: map<P, Info>, r: map<P, Info>, p: P, x: P, y: P)
    requires MovedTo(i, j, p, x, Dram, Nvm) && MovedTo(j, r, p, y, Nvm, Dram) && p in i && i[p].inDram
    ensures p in r && Travelled(i[p], r[p])
  {
  }

  /** s' is s after the round trip, with the DRAM list in the order `up`. */
  ghost predicate BackAgain<P>(s: State<P>, s': State<P>, up: seq<P>) {
    && WellFormed(s') && Idle(s') && s'.num == s.num
    && s'.q[Mmap(Dram)] == up && s'.q[Mmap(Nvm)] == []
    && |s'.q[Free(Dram)]| == |s.q[Free(Dram)]| && |s'.q[Free(Nvm)]| == |s.q[Free(Nvm)]|
    && (forall p :: p in s.q[Mmap(Dram)] ==> p in s.info && p in s'.info && Travelled(s.info[p], s'.info[p]))
  }

  lemma SameCounters<P>(s: State<P>, down: seq<P>, up: seq<P>)
    requires Returnable(s, down, up)
    ensures ThereAndBack(s, down, up).num == s.num
  {
    hide ThereAndBack;
    hide Returnable;
    forall k: QueueId ensures ThereAndBack(s, down, up).num[k] == s.num[k] {
      SameCounter(s, down, up, k);
    }
  }

  lemma ComesBack<P>(s: State<P>, down: seq<P>, up: seq<P>)
    requires Returnable(s, down, up)
    ensures BackAgain(s, ThereAndBack(s, down, up), up)
  {
    hide Sent;
    hide WellFormed;
    hide Idle;
    hide Travelled;
    CanReturn(s, down, up);
    Sends(Sent(s, Dram, Nvm, down), Nvm, Dram, up, 1);
    SameQueues(s, down, up);
    SameCounters(s, down, up);
    var s' := ThereAndBack(s, down, up);
    forall p | p in s.q[Mmap(Dram)] ensures p in s.info && p in s'.info && Travelled(s.info[p], s'.info[p]) {
      Travels(s, down, up, p);
    }
  }

  /** Down with every DRAM page and up again, in whatever orders: when no request waits, NVM holds no mapped page and
      has a free page for each, the DRAM list has the order of the way up, the counters and the lengths of the free
      lists are as they were, and every page has one more migration each way.  The batch sizes do not matter. */
  lemma DownAndUp<P>(s: State<P>, down: seq<P>, up: seq<P>, b: nat, c: nat)
    requires b > 0 && c > 0 && Returnable(s, down, up)
    ensures var s1 := Asked(s, Dram, Nvm, down);
            FedFrom(s1, b, 0) &&
            var s2 := Asked(DrainAll(s1, b), Nvm, Dram, up);
            FedFrom(s2, c, 0) && BackAgain(s, DrainAll(s2, c), up)
  {
    hide Sent;
    hide Asked;
    hide WellFormed;
    hide Idle;
    hide BackAgain;
    CanReturn(s, down, up);
    Sends(s, Dram, Nvm, down, b);
    Sends(Sent(s, Dram, Nvm, down), Nvm, Dram, up, c);
    ComesBack(s, down, up);
  }

  /** No request waits, NVM maps nothing and has a free page for every DRAM page. */
  ghost predicate Ready<P>(s: State<P>) {
    && WellFormed(s) && Idle(s) && s.q[Mmap(Nvm)] == []
    && |s.q[Mmap(Dram)]| <= |s.q[Free(Nvm)]| && |s.q[Mmap(Dram)]| < WORD
  }

  /** With requests in sequence the DRAM list comes back in its original order. */
  lemma InSequence<P>(s: State<P>, b: nat, c: nat)
    requires b > 0 && c > 0 && Ready(s)
    ensures var n := |s.q[Mmap(Dram)]|;
            var s1 := Requested(s, Dram, Nvm, n);
            FedFrom(s1, b, 0) &&
            var s2 := Requested(DrainAll(s1, b), Nvm, Dram, n);
            FedFrom(s2, c, 0) && BackAgain(s, DrainAll(s2, c), s.q[Mmap(Dram)])
  {
    hide WellFormed;
    hide Requested;
    hide Asked;
    hide BackAgain;
    hide DrainAll;
    hide FedFrom;
    hide Idle;
    var pages := s.q[Mmap(Dram)];
    SequenceAsks(s, Dram, Nvm);
    DownAndUp(s, pages, pages, b, c);
    Sends(s, Dram, Nvm, pages, b);
    CanReturn(s, pages, pages);
    SequenceAsks(Sent(s, Dram, Nvm, pages), Nvm, Dram);
  }

  /** With random requests, as the driver makes them, the same pages come back in some order. */
  lemma AtRandom<P>(s: State<P>, b: nat, c: nat, rands: seq<nat>, rands': seq<nat>)
    requires b > 0 && c > 0 && Ready(s) && s.num[Mmap(Nvm)] == 0
    requires |rands| == |rands'| == s.num[Mmap(Dram)] == |s.q[Mmap(Dram)]|
    ensures Survives(|s.q[Mmap(Dram)]|, s.num[Mmap(Dram)], rands) &&
            var s1 := RandomRequested(s, Dram, Nvm, rands);
            FedFrom(s1, b, 0) &&
            var low := DrainAll(s1, b);
            |rands'| == low.num[Mmap(Nvm)] == |low.q[Mmap(Nvm)]| &&
            Survives(|low.q[Mmap(Nvm)]|, low.num[Mmap(Nvm)], rands') &&
            var s2 := RandomRequested(low, Nvm, Dram, rands');
            && FedFrom(s2, c, 0)
            && var s' := DrainAll(s2, c);
            BackAgain(s, s', s'.q[Mmap(Dram)]) && multiset(s'.q[Mmap(Dram)]) == multiset(s.q[Mmap(Dram)])
  {
    hide WellFormed;
    hide RandomRequested;
    hide Asked;
    hide DrainAll;
    hide FedFrom;
    hide Idle;
    hide Sent;
    var down := RandomAsks(s, Dram, Nvm, rands);
    Sends(s, Dram, Nvm, down, b);
    SentCounters(s, Dram, Nvm, down);
    CanReturn(s, down, down);
    var low := Sent(s, Dram, Nvm, down);
    var up := RandomAsks(low, Nvm, Dram, rands');
    DownAndUp(s, down, up, b, c);
  }

  /** The descriptors the way up takes from: first the free ones of DRAM, then those the way down has freed, which
      have kept their NVM offsets. */
  ghost function TakenUp<P>(s: State<P>): (r: seq<P>)
    requires Ready(s)
    ensures |r| == |s.q[Mmap(Dram)]|
  {
    (s.q[Free(Dram)] + s.q[Free(Nvm)][..|s.q[Mmap(Dram)]|])[..|s.q[Mmap(Dram)]|]
  }

  lemma TakenUpOffset<P>(s: State<P>, down: seq<P>, i: nat)
    requires Ready(s) && Sendable(s, Dram, Nvm, down) && i < |down|
    ensures var low, x := Sent(s, Dram, Nvm, down), TakenUp(s)[i];
            && i < |low.q[Free(Dram)]| && low.q[Free(Dram)][i] == x
            && x in s.info && x in low.info && low.info[x].offset == s.info[x].offset
  {
    hide Sent;
    hide MovedTo;
    SentQueues(s, Dram, Nvm, down);
    var x := TakenUp(s)[i];
    if i < |s.q[Free(Dram)]| {
      assert x == s.q[Free(Dram)][i];
      SentElsewhere(s, down, x);
    } else {
      var k := i - |s.q[Free(Dram)]|;
      assert x == s.q[Free(Nvm)][k];
      SentInfo(s, Dram, Nvm, down, k);
      Released(s.info, Sent(s, Dram, Nvm, down).info, down[k], x);
    }
  }

  lemma Released<P>(i: map<P, Info>, r: map<P, Info>, p: P, x: P)
    requires MovedTo(i, r, p, x, Dram, Nvm)
    ensures x in i && x in r && r[x].offset == i[x].offset
  {
  }

  lemma FreeInDram<P>(s: State<P>, x: P)
    requires WellFormed(s) && x in s.q[Free(Dram)]
    ensures x in s.info && x !in s.q[Mmap(Dram)] && x !in s.q[Free(Nvm)]
  {
    ApartQueues(s, Free(Dram), Mmap(Dram));
    ApartQueues(s, Free(Dram), Free(Nvm));
  }

  lemma SentElsewhere<P>(s: State<P>, down: seq<P>, x: P)
    requires Sendable(s, Dram, Nvm, down) && x in s.q[Free(Dram)]
    ensures x in s.info && Same(s.info, Sent(s, Dram, Nvm, down).info, x)
  {
    hide Batch;
    hide Asked;
    hide WellFormed;
    var s1, n := Asked(s, Dram, Nvm, down), |down|;
    AllAsked(s, Dram, Nvm, down);
    BatchMoves(s1, Dram, Nvm, n);
    FreeInDram(s, x);
    assert s1.q[Migrate(Dram, Nvm)][..n] == down;
    SameElements(down, s.q[Mmap(Dram)]);
    assert x !in s1.q[Free(Nvm)][..n];
    assert Same(s1.info, Batch(s1, Dram, Nvm, n).info, x);
  }

  /** The state before the pass that takes all pages up, after a pass that took them down. */
  ghost function Low<P>(s: State<P>, down: seq<P>, up: seq<P>): State<P>
    requires Returnable(s, down, up)
  {
    Asked(Sent(s, Dram, Nvm, down), Nvm, Dram, up)
  }

  /** The i-th move of the way up passes its assertions if and only if the offset it takes lies inside DRAM. */
  ghost predicate UpMove<P>(s: State<P>, g: Sizes, down: seq<P>, up: seq<P>, i: nat)
    requires Ready(s) && Returnable(s, down, up) && i < |up|
  {
    var low, x := Low(s, down, up), TakenUp(s)[i];
    && i < |low.q[Migrate(Nvm, Dram)]| && i < |low.q[Free(Dram)]|
    && low.q[Migrate(Nvm, Dram)][i] in low.info && low.q[Free(Dram)][i] in low.info && x in s.info
    && (Movable(low.info[low.q[Migrate(Nvm, Dram)][i]], low.info[low.q[Free(Dram)][i]].offset, Nvm, Dram, g)
        <==> Fits(s.info[x].offset, Dram, g))
  }

  lemma UpAssertsAt<P>(s: State<P>, g: Sizes, down: seq<P>, up: seq<P>, i: nat)
    requires Ready(s) && Returnable(s, down, up) && i < |up|
    requires Placeable(Asked(s, Dram, Nvm, down), Dram, Nvm, |down|, g)
    ensures UpMove(s, g, down, up, i)
  {
    hide Sent;
    hide Asked;
    hide TakenUp;
    hide WellFormed;
    assert up[i] in multiset(up) && up[i] in multiset(down);
    var j :| 0 <= j < |down| && down[j] == up[i];
    var low := Sent(s, Dram, Nvm, down);
    AllAsked(s, Dram, Nvm, down);
    SentInfo(s, Dram, Nvm, down, j);
    CanReturn(s, down, up);
    AllAsked(low, Nvm, Dram, up);
    TakenUpOffset(s, down, i);
    assert Movable(s.info[down[j]], s.info[s.q[Free(Nvm)][j]].offset, Dram, Nvm, g);
  }

  /** Exactly when the driver's way up passes the offset assertions, given that the way down did: when the offsets it
      takes, among them NVM offsets as soon as DRAM has fewer free frames than pages, all lie inside DRAM.  The order of
      the requests does not matter. */
  lemma UpAsserts<P>(s: State<P>, g: Sizes, down: seq<P>, up: seq<P>)
    requires Ready(s) && Returnable(s, down, up)
    requires Placeable(Asked(s, Dram, Nvm, down), Dram, Nvm, |down|, g)
    ensures Placeable(Low(s, down, up), Nvm, Dram, |up|, g) <==>
            forall i {:trigger TakenUp(s)[i]} :: 0 <= i < |s.q[Mmap(Dram)]| ==>
              TakenUp(s)[i] in s.info && Fits(s.info[TakenUp(s)[i]].offset, Dram, g)
  {
    hide Low;
    hide Ready;
    hide WellFormed;
    hide Idle;
    hide Movable;
    hide Fits;
    hide TakenUp;
    var n, low := |up|, Low(s, down, up);
    if n > 0 {
      UpAssertsAt(s, g, down, up, n - 1);
    }
    forall i | 0 <= i < n
      ensures TakenUp(s)[i] in s.info && i < |low.q[Migrate(Nvm, Dram)]| && i < |low.q[Free(Dram)]|
      ensures low.q[Migrate(Nvm, Dram)][i] in low.info && low.q[Free(Dram)][i] in low.info
      ensures Movable(low.info[low.q[Migrate(Nvm, Dram)][i]], low.info[low.q[Free(Dram)][i]].offset, Nvm, Dram, g)
              <==> Fits(s.info[TakenUp(s)[i]].offset, Dram, g)
    {
      UpAssertsAt(s, g, down, up, i);
    }
  }
}
