/** What pebs.c does to its queues, counters and page descriptors, as functions on values.  P is the type of page
    descriptors; a queue is the sequence of its pages in dequeue order. */
module TierSpec {
  import opened Basics

  datatype Tier = Dram | Nvm

  /** The eight queues: free pages and mapped pages of each tier, and the pages requested to move. */
  datatype QueueId = Free(tier: Tier) | Mmap(tier: Tier) | Migrate(from: Tier, to: Tier)

  const QUEUES: set<QueueId> :=
    {Free(Dram), Free(Nvm), Mmap(Dram), Mmap(Nvm),
     Migrate(Dram, Dram), Migrate(Dram, Nvm), Migrate(Nvm, Dram), Migrate(Nvm, Nvm)}

  lemma EightQueues(k: QueueId)
    ensures k in QUEUES
  {
    match k
    case Free(t) => match t { case Dram => case Nvm => }
    case Mmap(t) => match t { case Dram => case Nvm => }
    case Migrate(f, t) =>
      if f == Dram {
        match t { case Dram => case Nvm => }
      } else {
        match t { case Dram => case Nvm => }
      }
  }

  function ForEach<T>(x: T): (m: map<QueueId, T>)
    ensures forall k: QueueId :: k in m && m[k] == x
  {
    assert forall k: QueueId :: k in QUEUES by {
      forall k: QueueId ensures k in QUEUES {
        EightQueues(k);
      }
    }
    map k | k in QUEUES :: x
  }

  type Queues<P> = q: map<QueueId, seq<P>> | forall k: QueueId :: k in q
    witness ForEach([])

  type Word = n: nat | n < WORD

  /** uint64_t counters. */
  type Counters = c: map<QueueId, Word> | forall k: QueueId :: k in c
    witness ForEach(0)

  /** The fields of a descriptor other than its links. */
  datatype Info = Info(va: nat, offset: nat, inDram: bool, present: bool, up: nat, down: nat)

  /** The sizes of a page and of the two devices, as hemem.h has them. */
  datatype Sizes = Sizes(page: nat, dram: nat, nvm: nat)

  function SizeOf(g: Sizes, t: Tier): nat { if t == Dram then g.dram else g.nvm }

  /** Devices of d and n pages. */
  function SizesOf(d: nat, n: nat, size: nat): Sizes { Sizes(size, d * size, n * size) }

  /** An offset at which a page of tier t can lie: what hemem_migrate_* assert of offsets. */
  predicate Fits(offset: nat, t: Tier, g: Sizes) {
    offset < SizeOf(g, t) && offset + g.page <= SizeOf(g, t)
  }

  datatype State<P> = State(q: Queues<P>, num: Counters, info: map<P, Info>)

  /** uint64_t addition and subtraction. */
  function Plus(a: nat, b: nat): (r: Word)
    ensures a + b < WORD ==> r == a + b
  {
    (a + b) % WORD
  }

  function Minus(a: nat, b: nat): (r: Word)
    ensures b <= a < WORD ==> r == a - b
  {
    (a - b) % WORD
  }

  function TierOf(k: QueueId): Tier {
    match k
    case Free(t) => t
    case Mmap(t) => t
    case Migrate(f, _) => f
  }

  /* ---- Invariants ---- */

  /** A descriptor's queue determines its tier flag and its present flag. */
  ghost predicate Flagged<P>(s: State<P>) {
    forall k, p {:trigger p in s.q[k]} :: p in s.q[k] ==>
      p in s.info && s.info[p].inDram == (TierOf(k) == Dram) && s.info[p].present == !k.Free?
  }

  /** All the pages on the queues. */
  ghost function Total<P>(q: Queues<P>): multiset<P> {
    multiset(q[Free(Dram)]) + multiset(q[Mmap(Dram)]) + multiset(q[Migrate(Dram, Dram)]) +
        multiset(q[Migrate(Dram, Nvm)])
    + multiset(q[Free(Nvm)]) + multiset(q[Mmap(Nvm)]) + multiset(q[Migrate(Nvm, Nvm)]) + multiset(q[Migrate(Nvm, Dram)])
  }

  /** No descriptor stands on two queues or twice on one. */
  ghost predicate Apart<P>(s: State<P>) {
    forall p {:trigger Total(s.q)[p]} :: p in Total(s.q) ==> Total(s.q)[p] == 1
  }

  ghost predicate WellFormed<P>(s: State<P>) {
    Flagged(s) && Apart(s)
  }

  lemma TotalUpdate<P>(q: Queues<P>, k: QueueId, x: seq<P>)
    ensures Total(q[k := x]) + multiset(q[k]) == Total(q) + multiset(x)
  {
    EightQueues(k);
  }

  lemma Balance<P>(t0: multiset<P>, t1: multiset<P>, t2: multiset<P>,
                   a: multiset<P>, x: multiset<P>, b: multiset<P>, y: multiset<P>)
    requires t1 + a == t0 + x && t2 + b == t1 + y && x + y == a + b
    ensures t2 == t0
  {
    assert t2 + b + a == t1 + y + a == t1 + a + y == t0 + x + y == t0 + (x + y) == t0 + (a + b);
    assert t2 == t2 + b + a - (a + b);
    assert t0 == t0 + (a + b) - (a + b);
  }

  /** Two queues that exchange pages between them keep the total. */
  lemma Exchanged<P>(q: Queues<P>, j: QueueId, k: QueueId, x: seq<P>, y: seq<P>)
    requires j != k && multiset(x) + multiset(y) == multiset(q[j]) + multiset(q[k])
    ensures Total(q[j := x][k := y]) == Total(q)
  {
    hide Total;
    TotalUpdate(q, j, x);
    TotalUpdate(q[j := x], k, y);
    assert q[j := x][k] == q[k];
    Balance(Total(q), Total(q[j := x]), Total(q[j := x][k := y]), multiset(q[j]), multiset(x), multiset(q[k]),
        multiset(y));
  }

  /** Moving the first n pages of one queue to the end of another loses and duplicates nothing. */
  lemma Relocated<P>(q: Queues<P>, j: QueueId, k: QueueId, n: nat)
    requires j != k && n <= |q[j]|
    ensures Total(q[j := q[j][n..]][k := q[k] + q[j][..n]]) == Total(q)
  {
    assert q[j] == q[j][..n] + q[j][n..];
    Exchanged(q, j, k, q[j][n..], q[k] + q[j][..n]);
  }

  lemma OnQueue<P>(q: Queues<P>, k: QueueId)
    ensures multiset(q[k]) <= Total(q)
  {
    hide Total;
    TotalUpdate(q, k, []);
    assert Total(q[k := []]) + multiset(q[k]) == Total(q);
  }

  lemma OnTwoQueues<P>(q: Queues<P>, j: QueueId, k: QueueId)
    requires j != k
    ensures multiset(q[j]) + multiset(q[k]) <= Total(q)
  {
    hide Total;
    TotalUpdate(q, j, []);
    OnQueue(q[j := []], k);
    assert q[j := []][k] == q[k];
    assert Total(q[j := []]) + multiset(q[j]) == Total(q);
  }

  lemma OnceEach<P>(s: seq<P>)
    requires forall p :: p in multiset(s) ==> multiset(s)[p] == 1
    ensures NoRepeats(s)
  {
    forall i, j | 0 <= i < j < |s| ensures s[i] != s[j] {
      assert s == s[..i] + [s[i]] + s[i + 1..j] + [s[j]] + s[j + 1..];
      assert s[i] in multiset(s);
    }
  }

  /** Two different queues share no page, and one queue holds a page once. */
  lemma ApartQueues<P>(s: State<P>, j: QueueId, k: QueueId)
    requires Apart(s)
    ensures NoRepeats(s.q[j])
    ensures j != k ==> forall p :: p in s.q[j] ==> p !in s.q[k]
  {
    hide Total;
    OnQueue(s.q, j);
    assert forall p {:trigger multiset(s.q[j])[p]} :: p in multiset(s.q[j]) ==> p in Total(s.q);
    OnceEach(s.q[j]);
    if j != k {
      OnTwoQueues(s.q, j, k);
      forall p | p in s.q[j] ensures p !in s.q[k] {
        assert p in multiset(s.q[j]) && p in Total(s.q);
        assert (multiset(s.q[j]) + multiset(s.q[k]))[p] <= Total(s.q)[p];
        assert multiset(s.q[k])[p] == 0;
      }
    }
  }

  /* ---- Start ---- */

  /** The descriptors pebs_init makes for one tier: the frame of number i starts at i pages. */
  function Fresh<P>(info: map<P, Info>, pages: seq<P>, t: Tier, size: nat): (r: map<P, Info>)
  {
    if pages == [] then info
    else
      var n := |pages| - 1;
      Fresh(info, pages[..n], t, size)[pages[n] := Info(0, n * size, t == Dram, false, 0, 0)]
  }

  /** The state pebs_init leaves: every descriptor is on the free list of its tier. */
  function Init<P>(drams: seq<P>, nvms: seq<P>, size: nat): State<P>
    requires |drams| < WORD && |nvms| < WORD
  {
    State(ForEach([])[Free(Dram) := drams][Free(Nvm) := nvms],
          ForEach(0)[Free(Dram) := |drams|][Free(Nvm) := |nvms|],
          Fresh(Fresh(map[], drams, Dram, size), nvms, Nvm, size))
  }

  lemma {:induction false} FreshAt<P>(info: map<P, Info>, pages: seq<P>, t: Tier, size: nat)
    requires NoRepeats(pages)
    ensures var r := Fresh(info, pages, t, size);
            && (forall i :: 0 <= i < |pages| ==>
                  pages[i] in r && r[pages[i]] == Info(0, i * size, t == Dram, false, 0, 0))
            && (forall p :: p in r <==> p in info || p in pages)
            && (forall p :: p in info && p !in pages ==> r[p] == info[p])
    decreases |pages|
  {
    if pages == [] {
    } else {
      var n := |pages| - 1;
      FreshAt(info, pages[..n], t, size);
      assert pages == pages[..n] + [pages[n]];
      assert pages[n] !in pages[..n];
    }
  }

  lemma TwoParts<P>(a: seq<P>, b: seq<P>)
    requires NoRepeats(a + b)
    ensures NoRepeats(a) && NoRepeats(b) && forall p :: p in a ==> p !in b
  {
    assert forall i {:trigger a[i]} :: 0 <= i < |a| ==> (a + b)[i] == a[i];
    assert forall i {:trigger b[i]} :: 0 <= i < |b| ==> (a + b)[|a| + i] == b[i];
  }

  /** The descriptors of the initial state. */
  lemma InitInfo<P>(drams: seq<P>, nvms: seq<P>, size: nat)
    requires |drams| < WORD && |nvms| < WORD && NoRepeats(drams + nvms)
    ensures var r := Init(drams, nvms, size).info;
            && (forall i :: 0 <= i < |drams| ==> drams[i] in r && r[drams[i]] == Info(0, i * size, true, false, 0, 0))
            && (forall i :: 0 <= i < |nvms| ==> nvms[i] in r && r[nvms[i]] == Info(0, i * size, false, false, 0, 0))
            && (forall p :: p in r <==> p in drams || p in nvms)
  {
    hide Fresh;
    TwoParts(drams, nvms);
    FreshAt(map[], drams, Dram, size);
    FreshAt(Fresh(map[], drams, Dram, size), nvms, Nvm, size);
  }

  lemma InitKeeps<P>(drams: seq<P>, nvms: seq<P>, size: nat)
    requires |drams| < WORD && |nvms| < WORD && NoRepeats(drams + nvms)
    ensures WellFormed(Init(drams, nvms, size)) && Total(Init(drams, nvms, size).q) == multiset(drams + nvms)
  {
    var s := Init(drams, nvms, size);
    InitInfo(drams, nvms, size);
    assert Total(s.q) == multiset(drams + nvms);
    hide Total;
    hide Fresh;
    SingleEach(drams + nvms);
    forall k, p | p in s.q[k]
      ensures p in s.info && s.info[p].inDram == (TierOf(k) == Dram) && s.info[p].present == !k.Free?
    {
      assert k == Free(Dram) || k == Free(Nvm);
    }
  }

  /** The counters say how long the queues are. */
  ghost predicate CountersRight<P>(s: State<P>) {
    forall k: QueueId {:trigger s.num[k]} {:trigger s.q[k]} :: s.num[k] == |s.q[k]|
  }

  lemma InitCounters<P>(drams: seq<P>, nvms: seq<P>, size: nat)
    requires |drams| < WORD && |nvms| < WORD
    ensures CountersRight(Init(drams, nvms, size))
  {
  }

  /** Two queues together are no longer than all of them. */
  lemma LengthsBounded<P>(q: Queues<P>, j: QueueId, k: QueueId)
    ensures |q[j]| <= |Total(q)| && (j != k ==> |q[j]| + |q[k]| <= |Total(q)|)
  {
    hide Total;
    OnQueue(q, j);
    Included(multiset(q[j]), Total(q));
    if j != k {
      OnTwoQueues(q, j, k);
      Included(multiset(q[j]) + multiset(q[k]), Total(q));
    }
  }

  lemma Included<P>(a: multiset<P>, b: multiset<P>)
    requires a <= b
    ensures |a| <= |b|
  {
    assert b == a + (b - a);
  }

  lemma {:induction false} SingleEach<P>(s: seq<P>)
    requires NoRepeats(s)
    ensures forall p :: p in multiset(s) ==> multiset(s)[p] == 1
    decreases |s|
  {
    if s == [] {
    } else {
      SingleEach(s[1..]);
      assert s == [s[0]] + s[1..];
      assert s[0] !in s[1..];
    }
  }

  /* ---- Requests ---- */

  /** A request in sequence: the first n pages, or all there are, pass from the mmap list to the request list. */
  function Requested<P>(s: State<P>, f: Tier, t: Tier, n: nat): State<P> {
    var m := Min(n, |s.q[Mmap(f)]|);
    Handed(s, f, t, s.q[Mmap(f)][..m], s.q[Mmap(f)][m..])
  }

  /** `picked` go to the request list, `rest` is what the mmap list keeps. */
  function Handed<P>(s: State<P>, f: Tier, t: Tier, picked: seq<P>, rest: seq<P>): State<P> {
    s.(q := s.q[Mmap(f) := rest][Migrate(f, t) := s.q[Migrate(f, t)] + picked],
       num := s.num[Migrate(f, t) := Plus(s.num[Migrate(f, t)], |picked|)][Mmap(f) := Minus(s.num[Mmap(f)], |picked|)])
  }

  /** Whether a random request on a list of length len with counter num gets through.  Every round divides by the
      counter; while it turns the list it enqueues what it dequeues, unchecked; and a round that finds the list empty
      when it has turned it leaves the counter alone. */
  predicate Survives(len: nat, num: nat, rands: seq<nat>)
    decreases |rands|
  {
    rands == [] || (num > 0 &&
      if len == 0 then rands[0] % num == 0 && Survives(0, num, rands[1..])
      else Survives(len - 1, num - 1, rands[1..]))
  }

  /** A random request: each round turns the list by `rand % num` places, with num the counter of the mmap list,
      takes the page that is then next in turn, and leaves the list turned. */
  function Picks<P>(s: seq<P>, num: nat, rands: seq<nat>): (r: (seq<P>, seq<P>))
    requires Survives(|s|, num, rands)
    ensures |r.0| == Min(|rands|, |s|) && |r.1| == |s| - |r.0|
    decreases |rands|
  {
    if rands == [] then ([], s)
    else if s == [] then Picks(s, num, rands[1..])
    else
      var c := rands[0] % num % |s|;
      var r := Picks(s[c + 1..] + s[..c], num - 1, rands[1..]);
      ([s[c]] + r.0, r.1)
  }

  function RandomRequested<P>(s: State<P>, f: Tier, t: Tier, rands: seq<nat>): State<P>
    requires Survives(|s.q[Mmap(f)]|, s.num[Mmap(f)], rands)
  {
    var r := Picks(s.q[Mmap(f)], s.num[Mmap(f)], rands);
    Handed(s, f, t, r.0, r.1)
  }

  lemma {:induction false} GetsThrough(len: nat, num: nat, rands: seq<nat>)
    requires |rands| <= Min(num, len) || num == len + 1
    ensures Survives(len, num, rands)
    decreases |rands|
  {
    if rands == [] {
    } else if len == 0 {
      GetsThrough(0, num, rands[1..]);
    } else {
      GetsThrough(len - 1, num - 1, rands[1..]);
    }
  }

  function Ones(n: nat): (r: seq<nat>)
    ensures |r| == n && forall i :: 0 <= i < n ==> r[i] == 1
  {
    seq(n, (i: nat) => 1)
  }

  lemma {:induction false} OnesFail(len: nat, num: nat, n: nat)
    requires n > Min(num, len) && num != len + 1
    ensures !Survives(len, num, Ones(n))
    decreases n
  {
    if num == 0 || len == 0 {
    } else {
      assert Ones(n)[1..] == Ones(n - 1);
      OnesFail(len - 1, num - 1, n - 1);
    }
  }

  /** Exactly when a random request for n pages gets through whatever numbers rand() returns: when neither the list
      nor the counter is shorter than n, or when the counter is one ahead of the list, so that a request that has
      used the list up turns it by nothing. */
  lemma AlwaysSurvives(len: nat, num: nat, n: nat)
    ensures (forall rands {:trigger Survives(len, num, rands)} :: |rands| == n ==> Survives(len, num, rands))
            <==> n <= Min(num, len) || num == len + 1
  {
    if n <= Min(num, len) || num == len + 1 {
      forall rands: seq<nat> | |rands| == n ensures Survives(len, num, rands) {
        GetsThrough(len, num, rands);
      }
    } else {
      OnesFail(len, num, n);
    }
  }

  lemma Rotated<P>(s: seq<P>, c: nat)
    requires c < |s|
    ensures multiset([s[c]]) + multiset(s[c + 1..] + s[..c]) == multiset(s)
  {
    assert s == s[..c] + [s[c]] + s[c + 1..];
  }

  /** Whatever the random numbers are, the picked pages and the rest are the list rearranged. */
  lemma {:induction false} PicksPermute<P>(s: seq<P>, num: nat, rands: seq<nat>)
    requires Survives(|s|, num, rands)
    ensures var r := Picks(s, num, rands); multiset(r.0) + multiset(r.1) == multiset(s)
    decreases |rands|
  {
    if rands == [] {
    } else if s == [] {
      PicksPermute(s, num, rands[1..]);
    } else {
      var c := rands[0] % num % |s|;
      PicksPermute(s[c + 1..] + s[..c], num - 1, rands[1..]);
      Rotated(s, c);
    }
  }

  lemma HandedKeeps<P>(s: State<P>, f: Tier, t: Tier, picked: seq<P>, rest: seq<P>)
    requires WellFormed(s) && multiset(picked) + multiset(rest) == multiset(s.q[Mmap(f)])
    ensures var s' := Handed(s, f, t, picked, rest); WellFormed(s') && Total(s'.q) == Total(s.q) && s'.info == s.info
  {
    hide Total;
    Exchanged(s.q, Mmap(f), Migrate(f, t), rest, s.q[Migrate(f, t)] + picked);
    forall p | p in picked || p in rest ensures p in s.q[Mmap(f)] {
      assert p in multiset(picked) + multiset(rest);
    }
  }

  /** Requests count what they hand over. */
  lemma HandedCounters<P>(s: State<P>, f: Tier, t: Tier, picked: seq<P>, rest: seq<P>)
    requires CountersRight(s) && |Total(s.q)| < WORD && |picked| + |rest| == |s.q[Mmap(f)]|
    ensures CountersRight(Handed(s, f, t, picked, rest))
  {
    hide Total;
    LengthsBounded(s.q, Mmap(f), Migrate(f, t));
  }

  /** A random request hands over as many pages as there are random numbers, or all there are, all different, and leaves
      the queues in order. */
  lemma RandomRequestedKeeps<P>(s: State<P>, f: Tier, t: Tier, rands: seq<nat>)
    requires WellFormed(s) && Survives(|s.q[Mmap(f)]|, s.num[Mmap(f)], rands)
    ensures var s', n := RandomRequested(s, f, t, rands), Min(|rands|, |s.q[Mmap(f)]|);
            && WellFormed(s') && Total(s'.q) == Total(s.q) && s'.info == s.info
            && |s'.q[Migrate(f, t)]| == |s.q[Migrate(f, t)]| + n && NoRepeats(s'.q[Migrate(f, t)])
            && |s'.q[Mmap(f)]| == |s.q[Mmap(f)]| - n
  {
    var r := Picks(s.q[Mmap(f)], s.num[Mmap(f)], rands);
    PicksPermute(s.q[Mmap(f)], s.num[Mmap(f)], rands);
    HandedKeeps(s, f, t, r.0, r.1);
    ApartQueues(RandomRequested(s, f, t, rands), Migrate(f, t), Mmap(f));
  }

  lemma RequestedKeeps<P>(s: State<P>, f: Tier, t: Tier, n: nat)
    requires WellFormed(s)
    ensures var s' := Requested(s, f, t, n); WellFormed(s') && Total(s'.q) == Total(s.q) && s'.info == s.info
  {
    var src := s.q[Mmap(f)];
    var m := Min(n, |src|);
    assert src == src[..m] + src[m..];
    HandedKeeps(s, f, t, src[..m], src[m..]);
  }

  /* ---- Allocation ---- */

  /** pebs_allocate_page takes from DRAM first. */
  function AllocationTier<P>(s: State<P>): Tier {
    if s.q[Free(Dram)] != [] then Dram else Nvm
  }

  /** The free page next in turn becomes a present page of the same tier, mapped at va. */
  function Mapped<P>(s: State<P>, va: nat): State<P>
    requires s.q[Free(AllocationTier(s))] != []
  {
    var t := AllocationTier(s);
    var p := s.q[Free(t)][0];
    State(s.q[Free(t) := s.q[Free(t)][1..]][Mmap(t) := s.q[Mmap(t)] + [p]], s.num,
          if p in s.info then s.info[p := s.info[p].(va := va, present := true, up := 0, down := 0)] else s.info)
  }

  /** hemem_mmap_populate counts the page it has mapped; handle_missing_fault does not. */
  function CountMapped(num: Counters, t: Tier): Counters {
    num[Mmap(t) := Plus(num[Mmap(t)], 1)][Free(t) := Minus(num[Free(t)], 1)]
  }

  function Populated<P>(s: State<P>, va: nat): State<P>
    requires s.q[Free(AllocationTier(s))] != []
  {
    Mapped(s, va).(num := CountMapped(s.num, AllocationTier(s)))
  }

  lemma MappedKeeps<P>(s: State<P>, va: nat)
    requires WellFormed(s) && s.q[Free(AllocationTier(s))] != []
    ensures var s' := Mapped(s, va); WellFormed(s') && Total(s'.q) == Total(s.q) && s'.info.Keys == s.info.Keys
  {
    hide Total;
    var t := AllocationTier(s);
    var free := s.q[Free(t)];
    assert free[..1] == [free[0]];
    Relocated(s.q, Free(t), Mmap(t), 1);
    ApartQueues(s, Free(t), Free(t));
    var s' := Mapped(s, va);
    assert free[0] in s.q[Free(t)];
    forall k, p | p in s'.q[k]
      ensures p in s'.info && s'.info[p].inDram == (TierOf(k) == Dram) && s'.info[p].present == !k.Free?
    {
      if p != free[0] {
        assert p in s.q[k];
      } else {
        ApartQueues(s, Free(t), k);
        assert k == Mmap(t);
      }
    }
  }

  lemma PopulatedKeeps<P>(s: State<P>, va: nat)
    requires WellFormed(s) && s.q[Free(AllocationTier(s))] != []
    ensures var s', t := Populated(s, va), AllocationTier(s);
            && WellFormed(s') && Total(s'.q) == Total(s.q) && s'.info.Keys == s.info.Keys
            && s.q[Free(t)][0] in Mapped(s, va).q[Mmap(t)]
  {
    hide WellFormed;
    hide Total;
    MappedKeeps(s, va);
    RenumberedKeeps(Mapped(s, va), CountMapped(s.num, AllocationTier(s)));
  }

  lemma RenumberedKeeps<P>(s: State<P>, num: Counters)
    requires WellFormed(s)
    ensures WellFormed(s.(num := num))
  {
  }

  /** What an allocated page is like: of DRAM as long as there is a free page there, at its address, with the frame it
      had and no migrations; and no other descriptor has changed. */
  lemma MappedInfo<P>(s: State<P>, va: nat)
    requires WellFormed(s) && s.q[Free(AllocationTier(s))] != []
    ensures AllocationTier(s) == Dram <==> s.q[Free(Dram)] != []
    ensures var p, r := s.q[Free(AllocationTier(s))][0], Mapped(s, va).info;
            && p in s.info && r.Keys == s.info.Keys && r[p].va == va && r[p].present && r[p].up == 0 == r[p].down
            && r[p].offset == s.info[p].offset && (r[p].inDram <==> s.q[Free(Dram)] != [])
            && forall x :: x in s.info && x != p ==> r[x] == s.info[x]
  {
    assert s.q[Free(AllocationTier(s))][0] in s.q[Free(AllocationTier(s))];
  }

  /** Populate counts the page it maps; the handler of missing faults does not, and leaves two counters wrong. */
  lemma MappedCounters<P>(s: State<P>, va: nat)
    requires CountersRight(s) && |Total(s.q)| < WORD && s.q[Free(AllocationTier(s))] != []
    ensures CountersRight(Populated(s, va)) && !CountersRight(Mapped(s, va))
  {
    hide Total;
    var t := AllocationTier(s);
    LengthsBounded(s.q, Free(t), Mmap(t));
    assert Mapped(s, va).num[Free(t)] != |Mapped(s, va).q[Free(t)]|;
  }

  /* ---- A migration batch ---- */

  /** What hemem_migrate_* does to the descriptor of a page it has remapped to `offset` of tier t. */
  function Moved(i: Info, offset: nat, f: Tier, t: Tier): Info {
    i.(offset := offset, inDram := t == Dram,
       up := i.up + (if f == Nvm && t == Dram then 1 else 0),
       down := i.down + (if f == Dram && t == Nvm then 1 else 0))
  }

  /** The freed descriptor goes to tier f, with the offset it already had. */
  function Freed(i: Info, f: Tier): Info {
    i.(present := false, inDram := f == Dram)
  }

  function Offsets<P>(info: map<P, Info>, frees: seq<P>): (r: seq<nat>)
    ensures |r| == |frees| && forall i :: 0 <= i < |r| ==> r[i] == if frees[i] in info then info[frees[i]].offset else 0
  {
    if frees == [] then []
    else
      var p := frees[|frees| - 1];
      Offsets(info, frees[..|frees| - 1]) + [if p in info then info[p].offset else 0]
  }

  function Remap<P>(info: map<P, Info>, pages: seq<P>, offs: seq<nat>, f: Tier, t: Tier): (r: map<P, Info>)
    requires |pages| == |offs|
    ensures r.Keys == info.Keys
  {
    if pages == [] then info
    else
      var n := |pages| - 1;
      var prev := Remap(info, pages[..n], offs[..n], f, t);
      if pages[n] in prev then prev[pages[n] := Moved(prev[pages[n]], offs[n], f, t)] else prev
  }

  function Release<P>(info: map<P, Info>, frees: seq<P>, f: Tier): (r: map<P, Info>)
    ensures r.Keys == info.Keys
  {
    if frees == [] then info
    else
      var n := |frees| - 1;
      var prev := Release(info, frees[..n], f);
      if frees[n] in prev then prev[frees[n] := Freed(prev[frees[n]], f)] else prev
  }

  function CountMoved(num: Counters, f: Tier, t: Tier, n: nat): Counters {
    var mapped := num[Mmap(t) := Plus(num[Mmap(t)], n)];
    var freed := if f == t then mapped
                 else mapped[Free(f) := Plus(mapped[Free(f)], n)][Free(t) := Minus(mapped[Free(t)], n)];
    freed[Migrate(f, t) := Minus(freed[Migrate(f, t)], n)]
  }

  /** The queues when n pages have been taken from the request list and n from the free list. */
  function Taken<P>(q: Queues<P>, f: Tier, t: Tier, n: nat): Queues<P>
    requires n <= |q[Migrate(f, t)]| && n <= |q[Free(t)]|
  {
    q[Migrate(f, t) := q[Migrate(f, t)][n..]][Free(t) := q[Free(t)][n..]]
  }

  /** The pages go to the mmap list of their new tier and the freed descriptors to the free list of the old one. */
  function Returned<P>(q: Queues<P>, f: Tier, t: Tier, pages: seq<P>, frees: seq<P>): Queues<P> {
    q[Mmap(t) := q[Mmap(t)] + pages][Free(f) := q[Free(f)] + frees]
  }

  /** One batch of n pages of the migration thread. */
  function Batch<P>(s: State<P>, f: Tier, t: Tier, n: nat): State<P>
    requires n <= |s.q[Migrate(f, t)]| && n <= |s.q[Free(t)]|
  {
    var pages, frees := s.q[Migrate(f, t)][..n], s.q[Free(t)][..n];
    State(Returned(Taken(s.q, f, t, n), f, t, pages, frees), CountMoved(s.num, f, t, n),
          Release(Remap(s.info, pages, Offsets(s.info, frees), f, t), frees, f))
  }

  lemma {:induction false} RemapAt<P>(info: map<P, Info>, pages: seq<P>, offs: seq<nat>, f: Tier, t: Tier)
    requires |pages| == |offs| && NoRepeats(pages) && forall p :: p in pages ==> p in info
    ensures var r := Remap(info, pages, offs, f, t);
            && (forall i :: 0 <= i < |pages| ==> r[pages[i]] == Moved(info[pages[i]], offs[i], f, t))
            && (forall p :: p in info && p !in pages ==> r[p] == info[p])
    decreases |pages|
  {
    if pages == [] {
    } else {
      var n := |pages| - 1;
      var prev := Remap(info, pages[..n], offs[..n], f, t);
      RemapAt(info, pages[..n], offs[..n], f, t);
      var r := Remap(info, pages, offs, f, t);
      hide Remap;
      assert r == prev[pages[n] := Moved(prev[pages[n]], offs[n], f, t)];
      assert prev[pages[n]] == info[pages[n]] by {
        assert pages[n] !in pages[..n];
      }
      forall i | 0 <= i < |pages| ensures r[pages[i]] == Moved(info[pages[i]], offs[i], f, t) {
        if i < n {
          assert pages[..n][i] == pages[i] && offs[..n][i] == offs[i];
        }
      }
    }
  }

  lemma {:induction false} ReleaseAt<P>(info: map<P, Info>, frees: seq<P>, f: Tier)
    requires forall p :: p in frees ==> p in info
    ensures var r := Release(info, frees, f);
            && (forall p :: p in frees ==> r[p] == Freed(info[p], f))
            && (forall p :: p in info && p !in frees ==> r[p] == info[p])
    decreases |frees|
  {
    if frees == [] {
    } else {
      var n := |frees| - 1;
      ReleaseAt(info, frees[..n], f);
      assert frees == frees[..n] + [frees[n]];
    }
  }

  /** After a batch page i has the offset of free descriptor i and the new tier; the freed descriptors differ only in
      their flags, and every other descriptor is as it was. */
  lemma BatchInfo<P>(s: State<P>, f: Tier, t: Tier, n: nat)
    requires WellFormed(s) && n <= |s.q[Migrate(f, t)]| && n <= |s.q[Free(t)]|
    ensures var pages, frees, r := s.q[Migrate(f, t)][..n], s.q[Free(t)][..n], Batch(s, f, t, n).info;
            && r.Keys == s.info.Keys
            && (forall i {:trigger pages[i]} {:trigger frees[i]} :: 0 <= i < n ==>
                  pages[i] in s.info && frees[i] in s.info
                  && r[pages[i]] == Moved(s.info[pages[i]], s.info[frees[i]].offset, f, t)
                  && r[frees[i]] == Freed(s.info[frees[i]], f))
            && (forall p :: p in s.info && p !in pages && p !in frees ==> r[p] == s.info[p])
  {
    var pages, frees := s.q[Migrate(f, t)][..n], s.q[Free(t)][..n];
    BatchParties(s, f, t, n);
    hide *;
    InfoAfter(s.info, pages, frees, f, t);
  }

  /** Which migrations a batch counts: pages that go down count one more way down, pages that go up one more way up, and
      pages that stay in their tier count neither.  Their addresses stay. */
  lemma BatchCountsMoves<P>(s: State<P>, f: Tier, t: Tier, n: nat, i: nat)
    requires WellFormed(s) && i < n <= |s.q[Migrate(f, t)]| && n <= |s.q[Free(t)]|
    ensures var p, r := s.q[Migrate(f, t)][i], Batch(s, f, t, n).info;
            && p in s.info && p in r && r[p].va == s.info[p].va && r[p].present && (r[p].inDram <==> t == Dram)
            && (f == Dram && t == Nvm ==> r[p].down == s.info[p].down + 1 && r[p].up == s.info[p].up)
            && (f == Nvm && t == Dram ==> r[p].up == s.info[p].up + 1 && r[p].down == s.info[p].down)
            && (f == t ==> r[p].up == s.info[p].up && r[p].down == s.info[p].down)
  {
    hide Batch;
    hide Apart;
    BatchInfo(s, f, t, n);
    assert s.q[Migrate(f, t)][..n][i] == s.q[Migrate(f, t)][i];
    assert s.q[Migrate(f, t)][i] in s.q[Migrate(f, t)];
  }

  lemma BatchParties<P>(s: State<P>, f: Tier, t: Tier, n: nat)
    requires WellFormed(s) && n <= |s.q[Migrate(f, t)]| && n <= |s.q[Free(t)]|
    ensures var pages, frees, r := s.q[Migrate(f, t)][..n], s.q[Free(t)][..n], Batch(s, f, t, n).info;
            && NoRepeats(pages) && (forall p :: p in pages ==> p in s.info && p !in frees)
            && NoRepeats(frees) && (forall p :: p in frees ==> p in s.info && p !in pages)
            && r == Release(Remap(s.info, pages, Offsets(s.info, frees), f, t), frees, f)
  {
    hide Total;
    hide Remap;
    hide Release;
    hide Offsets;
    ApartQueues(s, Migrate(f, t), Free(t));
    ApartQueues(s, Free(t), Migrate(f, t));
    var pages, frees := s.q[Migrate(f, t)][..n], s.q[Free(t)][..n];
    assert forall p :: p in pages ==> p in s.q[Migrate(f, t)];
    assert forall p :: p in frees ==> p in s.q[Free(t)];
  }

  lemma InfoAfter<P>(info: map<P, Info>, pages: seq<P>, frees: seq<P>, f: Tier, t: Tier)
    requires |pages| == |frees| && NoRepeats(pages) && NoRepeats(frees)
    requires forall p :: p in pages ==> p in info && p !in frees
    requires forall p :: p in frees ==> p in info && p !in pages
    ensures var r := Release(Remap(info, pages, Offsets(info, frees), f, t), frees, f);
            && r.Keys == info.Keys
            && (forall i {:trigger pages[i]} {:trigger frees[i]} :: 0 <= i < |pages| ==>
                  r[pages[i]] == Moved(info[pages[i]], info[frees[i]].offset, f, t)
                  && r[frees[i]] == Freed(info[frees[i]], f))
            && (forall p :: p in info && p !in pages && p !in frees ==> r[p] == info[p])
  {
    hide Remap;
    hide Release;
    RemapAt(info, pages, Offsets(info, frees), f, t);
    ReleaseAt(Remap(info, pages, Offsets(info, frees), f, t), frees, f);
  }

  lemma Suffix<P>(s: seq<P>, n: nat)
    requires n <= |s| && NoRepeats(s)
    ensures forall p :: p in s[n..] ==> p in s && p !in s[..n]
  {
  }

  /** Where a page found on queue k after a batch came from. */
  lemma BatchPlaces<P>(s: State<P>, f: Tier, t: Tier, n: nat, k: QueueId, p: P)
    requires WellFormed(s) && n <= |s.q[Migrate(f, t)]| && n <= |s.q[Free(t)]|
    requires p in Batch(s, f, t, n).q[k]
    ensures var pages, frees := s.q[Migrate(f, t)][..n], s.q[Free(t)][..n];
            || (p in pages && k == Mmap(t))
            || (p in frees && k == Free(f))
            || (p in s.q[k] && p !in pages && p !in frees)
  {
    hide Total;
    hide Remap;
    hide Release;
    hide Offsets;
    ApartQueues(s, k, Migrate(f, t));
    ApartQueues(s, k, Free(t));
    Suffix(s.q[Free(t)], n) by { ApartQueues(s, Free(t), k); }
    Suffix(s.q[Migrate(f, t)], n) by { ApartQueues(s, Migrate(f, t), k); }
    assert forall x :: x in s.q[Migrate(f, t)][..n] ==> x in s.q[Migrate(f, t)];
    assert forall x :: x in s.q[Free(t)][..n] ==> x in s.q[Free(t)];
  }

  lemma Rearranged<P>(q: Queues<P>, k: QueueId, x: seq<P>)
    requires multiset(x) == multiset(q[k])
    ensures Total(q[k := x]) == Total(q)
  {
    hide Total;
    TotalUpdate(q, k, x);
    var c := multiset(x);
    assert Total(q) + c - c == Total(q) && Total(q[k := x]) + c - c == Total(q[k := x]);
  }

  lemma Recycled<P>(q: Queues<P>, k: QueueId, n: nat)
    requires n <= |q[k]|
    ensures Total(q[k := q[k][n..] + q[k][..n]]) == Total(q)
  {
    assert q[k] == q[k][..n] + q[k][n..];
    Rearranged(q, k, q[k][n..] + q[k][..n]);
  }

  lemma BatchQueues<P>(q: Queues<P>, f: Tier, t: Tier, n: nat)
    requires n <= |q[Migrate(f, t)]| && n <= |q[Free(t)]|
    ensures var pages, frees := q[Migrate(f, t)][..n], q[Free(t)][..n];
            var q1 := q[Migrate(f, t) := q[Migrate(f, t)][n..]][Mmap(t) := q[Mmap(t)] + pages];
            Returned(Taken(q, f, t, n), f, t, pages, frees) ==
            if f == t then q1[Free(t) := q1[Free(t)][n..] + frees]
            else q1[Free(t) := q1[Free(t)][n..]][Free(f) := q1[Free(f)] + frees]
  {
  }

  lemma SameTierTotal<P>(q: Queues<P>, q1: Queues<P>, r: Queues<P>, t: Tier, n: nat)
    requires Total(q1) == Total(q) && n <= |q1[Free(t)]| && r == q1[Free(t) := q1[Free(t)][n..] + q1[Free(t)][..n]]
    ensures Total(r) == Total(q)
  {
    hide Total;
    Recycled(q1, Free(t), n);
  }

  lemma CrossTierTotal<P>(q: Queues<P>, q1: Queues<P>, r: Queues<P>, f: Tier, t: Tier, n: nat)
    requires Total(q1) == Total(q) && n <= |q1[Free(t)]| && f != t
    requires r == q1[Free(t) := q1[Free(t)][n..]][Free(f) := q1[Free(f)] + q1[Free(t)][..n]]
    ensures Total(r) == Total(q)
  {
    hide Total;
    Relocated(q1, Free(t), Free(f), n);
  }

  lemma BatchTotal<P>(q: Queues<P>, f: Tier, t: Tier, n: nat)
    requires n <= |q[Migrate(f, t)]| && n <= |q[Free(t)]|
    ensures Total(Returned(Taken(q, f, t, n), f, t, q[Migrate(f, t)][..n], q[Free(t)][..n])) == Total(q)
  {
    hide Total;
    var r := Returned(Taken(q, f, t, n), f, t, q[Migrate(f, t)][..n], q[Free(t)][..n]);
    var q1 := q[Migrate(f, t) := q[Migrate(f, t)][n..]][Mmap(t) := q[Mmap(t)] + q[Migrate(f, t)][..n]];
    BatchQueues(q, f, t, n);
    Relocated(q, Migrate(f, t), Mmap(t), n);
    assert q1[Free(t)] == q[Free(t)];
    if f == t {
      SameTierTotal(q, q1, r, t, n);
    } else {
      CrossTierTotal(q, q1, r, f, t, n);
    }
  }

  lemma BatchFlags<P>(s: State<P>, f: Tier, t: Tier, n: nat, k: QueueId, p: P)
    requires WellFormed(s) && n <= |s.q[Migrate(f, t)]| && n <= |s.q[Free(t)]|
    requires p in Batch(s, f, t, n).q[k]
    ensures var r := Batch(s, f, t, n).info;
            p in r && r[p].inDram == (TierOf(k) == Dram) && r[p].present == !k.Free?
  {
    var pages, frees := s.q[Migrate(f, t)][..n], s.q[Free(t)][..n];
    BatchPlaces(s, f, t, n, k, p);
    BatchInfo(s, f, t, n);
    hide Batch;
    hide Apart;
    if p in pages {
      var i :| 0 <= i < n && pages[i] == p;
      assert p in s.q[Migrate(f, t)];
    } else if p in frees {
      var i :| 0 <= i < n && frees[i] == p;
    }
  }

  lemma BatchFlagged<P>(s: State<P>, f: Tier, t: Tier, n: nat)
    requires WellFormed(s) && n <= |s.q[Migrate(f, t)]| && n <= |s.q[Free(t)]|
    ensures Flagged(Batch(s, f, t, n))
  {
    hide WellFormed;
    hide Batch;
    var s' := Batch(s, f, t, n);
    forall k, p | p in s'.q[k]
      ensures p in s'.info && s'.info[p].inDram == (TierOf(k) == Dram) && s'.info[p].present == !k.Free?
    {
      BatchFlags(s, f, t, n, k, p);
    }
  }

  /** A batch keeps the flags in step with the queues, and loses and duplicates no page. */
  lemma BatchKeeps<P>(s: State<P>, f: Tier, t: Tier, n: nat)
    requires WellFormed(s) && n <= |s.q[Migrate(f, t)]| && n <= |s.q[Free(t)]|
    ensures var s' := Batch(s, f, t, n); WellFormed(s') && Total(s'.q) == Total(s.q) && s'.info.Keys == s.info.Keys
  {
    hide Total;
    hide Flagged;
    BatchTotal(s.q, f, t, n);
    BatchFlagged(s, f, t, n);
  }

  /* ---- A batch pair by pair ---- */

  lemma TakenNone<P>(q: Queues<P>, f: Tier, t: Tier)
    ensures Taken(q, f, t, 0) == q
  {
    assert q[Migrate(f, t)][0..] == q[Migrate(f, t)] && q[Free(t)][0..] == q[Free(t)];
  }

  lemma TakenOneMore<P>(q: Queues<P>, f: Tier, t: Tier, i: nat)
    requires i < |q[Migrate(f, t)]| && i < |q[Free(t)]|
    ensures var r := Taken(q, f, t, i);
            && r[Migrate(f, t)] != [] && r[Free(t)] != []
            && r[Migrate(f, t)][0] == q[Migrate(f, t)][i] && r[Free(t)][0] == q[Free(t)][i]
            && Taken(r, f, t, 1) == Taken(q, f, t, i + 1)
  {
    assert q[Migrate(f, t)][i..][1..] == q[Migrate(f, t)][i + 1..] && q[Free(t)][i..][1..] == q[Free(t)][i + 1..];
  }

  lemma RemapNone<P>(info: map<P, Info>, pages: seq<P>, offs: seq<nat>, f: Tier, t: Tier)
    ensures Remap(info, pages[..0], offs[..0], f, t) == info
  {
  }

  lemma RemapOneMore<P>(info: map<P, Info>, pages: seq<P>, offs: seq<nat>, f: Tier, t: Tier, i: nat)
    requires i < |pages| == |offs|
    ensures var r := Remap(info, pages[..i], offs[..i], f, t);
            pages[i] in r ==>
              Remap(info, pages[..i + 1], offs[..i + 1], f, t) == r[pages[i] := Moved(r[pages[i]], offs[i], f, t)]
  {
    assert pages[..i + 1][..i] == pages[..i] && offs[..i + 1][..i] == offs[..i];
  }

  lemma ReleaseNone<P>(info: map<P, Info>, frees: seq<P>, f: Tier)
    ensures Release(info, frees[..0], f) == info
  {
  }

  lemma ReleaseOneMore<P>(info: map<P, Info>, frees: seq<P>, f: Tier, i: nat)
    requires i < |frees|
    ensures var r := Release(info, frees[..i], f);
            frees[i] in r ==> Release(info, frees[..i + 1], f) == r[frees[i] := Freed(r[frees[i]], f)]
  {
    assert frees[..i + 1][..i] == frees[..i];
  }

  lemma ReturnedNone<P>(q: Queues<P>, f: Tier, t: Tier)
    ensures Returned(q, f, t, [], []) == q
  {
    assert q[Mmap(t)] + [] == q[Mmap(t)] && q[Free(f)] + [] == q[Free(f)];
  }

  lemma ReturnedOneMore<P>(q: Queues<P>, f: Tier, t: Tier, pages: seq<P>, frees: seq<P>, i: nat)
    requires i < |pages| == |frees|
    ensures var r := Returned(q, f, t, pages[..i], frees[..i]);
            var r1 := r[Mmap(t) := r[Mmap(t)] + [pages[i]]];
            Returned(q, f, t, pages[..i + 1], frees[..i + 1]) == r1[Free(f) := r1[Free(f)] + [frees[i]]]
  {
    assert pages[..i + 1] == pages[..i] + [pages[i]] && frees[..i + 1] == frees[..i] + [frees[i]];
    assert q[Mmap(t)] + pages[..i] + [pages[i]] == q[Mmap(t)] + pages[..i + 1];
    assert q[Free(f)] + frees[..i] + [frees[i]] == q[Free(f)] + frees[..i + 1];
  }
}
