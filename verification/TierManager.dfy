/** pebs.c as it runs: the eight shared queues, their counters, and the loops of the requests, the allocator and the
    migration thread, each proved to do what TierSpec says. */
module TierManager {
  import opened Basics
  import opened Fifo
  import opened TierSpec
  import opened Draining
  import opened Requesting

  /** A page between two queues: dequeued and not yet enqueued again. */
  ghost predicate Loose(p: Page)
    reads p`list, p`prev
  {
    p.list == null && p.prev == null
  }

  /** The value of a descriptor at rest. */
  ghost predicate Mirrors(p: Page, i: Info)
    reads p`va, p`devdaxOffset, p`inDram, p`present, p`migrationsUp, p`migrationsDown
  {
    && p.va == i.va && p.devdaxOffset == i.offset && p.inDram == i.inDram && p.present == i.present
    && p.migrationsUp == i.up && p.migrationsDown == i.down
  }

  ghost predicate AllLoose(s: seq<Page>)
    reads s`list, s`prev
  {
    forall p {:trigger Loose(p)} :: p in s ==> Loose(p)
  }

  /** All that hemem_wp_page and hemem_migrate_* assert of a page of tier f that is to have `offset` in tier t. */
  ghost predicate Passes(i: Info, offset: nat, f: Tier, t: Tier, g: Sizes) {
    i.inDram == (f == Dram) && Movable(i, offset, f, t, g)
  }

  class Manager {
    const queues: map<QueueId, FifoList>
    const sizes: Sizes
    const batch: nat  // NUM_BATCHS
    var num: Counters
    ghost var pool: set<Page>
    ghost var q: Queues<Page>
    ghost var info: map<Page, Info>

    ghost predicate Wired() {
      && (forall k: QueueId :: k in queues)
      && (forall j, k {:trigger queues[j], queues[k]} :: j in queues && k in queues && queues[j] == queues[k] ==>
            j == k)
    }

    /** Queue k holds what q says. */
    ghost predicate QueueOk(k: QueueId)
      requires k in queues
      reads this`q, this`pool, queues.Values, pool`next, pool`prev, pool`list
    {
      queues[k].Contents == q[k] && (forall p :: p in q[k] ==> p in pool) && queues[k].Valid()
    }

    ghost predicate Queued()
      reads this`q, this`pool, queues.Values, pool`next, pool`prev, pool`list
    {
      Wired() && forall k {:trigger QueueOk(k)} :: k in queues ==> QueueOk(k)
    }

    /** The descriptors are what info says. */
    ghost predicate Described()
      reads this`info, this`pool
      reads pool`va, pool`devdaxOffset, pool`inDram, pool`present, pool`migrationsUp, pool`migrationsDown
    {
      info.Keys == pool && forall p {:trigger info[p]} :: p in pool ==> Mirrors(p, info[p])
    }

    /** No page is marked as migrating. */
    ghost predicate Still()
      reads this`pool, pool`migrating
    {
      forall p {:trigger p.migrating} :: p in pool ==> !p.migrating
    }

    /** The abstract state. */
    ghost function S(): State<Page>
      reads this`q, this`num, this`info
    {
      State(q, num, info)
    }

    ghost predicate Valid()
      reads this`q, this`num, this`info, this`pool, queues.Values, pool
    {
      Queued() && Described() && Still() && WellFormed(S())
    }

    lemma Whole()
      ensures Valid() <==> Queued() && Described() && Still() && WellFormed(S())
      ensures S() == State(q, num, info)
    {
    }

    /** The zeroed static lists and counters. */
    constructor (sizes: Sizes, batch: nat)
      ensures Queued() && Described() && Still() && pool == {} && q == ForEach([]) && num == ForEach(0)
      ensures this.sizes == sizes && this.batch == batch
      ensures forall k :: k in queues ==> fresh(queues[k])
    {
      this.sizes, this.batch := sizes, batch;
      var lists := EmptyLists();
      queues := lists;
      num, pool, q, info := ForEach(0), {}, ForEach([]), map[];
    }

    static method EmptyLists() returns (lists: map<QueueId, FifoList>)
      ensures forall k: QueueId :: k in lists
      ensures forall k {:trigger lists[k]} :: k in lists ==> lists[k].Valid() && lists[k].Contents == []
      ensures forall j, k {:trigger lists[j], lists[k]} :: j in lists && k in lists && lists[j] == lists[k] ==> j == k
      ensures forall k :: k in lists ==> fresh(lists[k])
    {
      lists := map[];
      var todo := QUEUES;
      while todo != {}
        invariant lists.Keys == QUEUES - todo && forall k :: k in lists ==> fresh(lists[k])
        invariant forall k {:trigger lists[k]} :: k in lists ==> lists[k].Valid() && lists[k].Contents == []
        invariant forall j, k {:trigger lists[j], lists[k]} :: j in lists && k in lists && lists[j] == lists[k] ==>
                    j == k
      {
        var k :| k in todo;
        var list := new FifoList();
        lists := lists[k := list];
        todo := todo - {k};
      }
      forall k: QueueId ensures k in lists {
        EightQueues(k);
      }
    }

    /** dequeue_fifo on one of the eight queues. */
    method Take(k: QueueId) returns (p: Page?)
      requires Queued()
      modifies this`q, queues.Values, pool`next, pool`prev, pool`list
      ensures Queued()
      ensures old(q[k]) == [] ==> p == null && q == old(q)
      ensures old(q[k]) != [] ==>
                && p == old(q[k])[0] && q == old(q)[k := old(q[k])[1..]] && p in pool && Loose(p)
      ensures forall x {:trigger Loose(x)} :: x in pool && old(Loose(x)) ==> Loose(x)
    {
      hide FifoList.Valid;
      assert QueueOk(k);
      queues[k].Backed();
      p := queues[k].Dequeue();
      q := q[k := queues[k].Contents];
      forall j | j in queues ensures QueueOk(j) {
        assert old(QueueOk(j));
      }
    }

    /** enqueue_fifo. */
    method Put(k: QueueId, p: Page)
      requires Queued() && p in pool && Loose(p)
      modifies this`q, queues.Values, pool`next, pool`prev, pool`list
      ensures Queued() && q == old(q)[k := old(q[k]) + [p]]
      ensures forall x {:trigger Loose(x)} :: x in pool && x != p && old(Loose(x)) ==> Loose(x)
    {
      hide FifoList.Valid;
      assert QueueOk(k);
      queues[k].Backed();
      queues[k].Enqueue(p);
      q := q[k := queues[k].Contents];
      forall j | j in queues ensures QueueOk(j) {
        assert old(QueueOk(j));
      }
    }

    /* ---- pebs_init ---- */

    /** A descriptor joins the pool. */
    method NewPage(t: Tier, offset: nat) returns (p: Page)
      requires Queued() && Described() && Still()
      modifies this`pool, this`info
      ensures Queued() && Described() && Still() && fresh(p) && Loose(p) && p !in old(pool)
      ensures pool == old(pool) + {p} && info == old(info)[p := Info(0, offset, t == Dram, false, 0, 0)]
    {
      hide FifoList.Valid;
      p := new Page(offset, t == Dram);
      pool := pool + {p};
      info := info[p := Info(0, offset, t == Dram, false, 0, 0)];
      forall k | k in queues ensures QueueOk(k) {
        assert old(QueueOk(k));
      }
    }

    /** The body of the loops of pebs_init. */
    method AddFree(t: Tier, offset: nat) returns (p: Page)
      requires Queued() && Described() && Still()
      modifies this`pool, this`info, this`q, this`num, queues.Values, pool`next, pool`prev, pool`list
      ensures Queued() && Described() && Still() && fresh(p) && p !in old(pool)
      ensures pool == old(pool) + {p} && info == old(info)[p := Info(0, offset, t == Dram, false, 0, 0)]
      ensures q == old(q)[Free(t) := old(q[Free(t)]) + [p]]
      ensures num == old(num)[Free(t) := Plus(old(num[Free(t)]), 1)]
    {
      hide *;
      p := NewPage(t, offset);
      Put(Free(t), p);
      num := num[Free(t) := Plus(num[Free(t)], 1)];
    }

    /** The same, after the descriptors `pages` of the tier have been added to q0, num0 and info0. */
    method AddNext(t: Tier, ghost pages: seq<Page>, i: nat, ghost q0: Queues<Page>, ghost num0: Counters,
                   ghost info0: map<Page, Info>) returns (p: Page)
      requires Queued() && Described() && Still() && |pages| == i && num0[Free(t)] + i + 1 < WORD
      requires q == q0[Free(t) := q0[Free(t)] + pages] && info == Fresh(info0, pages, t, sizes.page)
      requires num == num0[Free(t) := num0[Free(t)] + i] && NoRepeats(pages) && forall x :: x in pages ==> x in pool
      modifies this`pool, this`info, this`q, this`num, queues.Values, pool`next, pool`prev, pool`list
      ensures Queued() && Described() && Still() && fresh(p) && pool == old(pool) + {p}
      ensures q == q0[Free(t) := q0[Free(t)] + (pages + [p])] && info == Fresh(info0, pages + [p], t, sizes.page)
      ensures num == num0[Free(t) := num0[Free(t)] + (i + 1)] && NoRepeats(pages + [p])
    {
      hide *;
      p := AddFree(t, i * sizes.page);
      FreshOneMore(info0, pages, p, t, sizes.page);
      Appended(q0, num0, t, pages, p);
    }

    /** One of the two loops of pebs_init. */
    method InitTier(t: Tier, n: nat) returns (ghost pages: seq<Page>)
      requires Queued() && Described() && Still() && num[Free(t)] + n < WORD
      modifies this`pool, this`info, this`q, this`num, queues.Values, pool`next, pool`prev, pool`list
      ensures Queued() && Described() && Still() && |pages| == n
      ensures q == old(q)[Free(t) := old(q[Free(t)]) + pages] && info == Fresh(old(info), pages, t, sizes.page)
      ensures num == old(num)[Free(t) := old(num[Free(t)]) + n]
      ensures NoRepeats(pages) && (forall p :: p in pages ==> p in pool && fresh(p)) && old(pool) <= pool
      ensures forall p :: p in pool ==> p in old(pool) || fresh(p)
    {
      hide *;
      pages := [];
      ghost var q0, info0, num0 := q, info, num;
      StartTier(q0, num0, t);
      FreshNone(info0, t, sizes.page);
      var i := 0;
      while i < n
        invariant i <= n && |pages| == i && Queued() && Described() && Still()
        invariant q == q0[Free(t) := q0[Free(t)] + pages] && info == Fresh(info0, pages, t, sizes.page)
        invariant num == num0[Free(t) := num0[Free(t)] + i]
        invariant NoRepeats(pages) && (forall p :: p in pages ==> p in pool && fresh(p)) && old(pool) <= pool
        invariant forall p :: p in pool ==> p in old(pool) || fresh(p)
      {
        var p := AddNext(t, pages, i, q0, num0, info0);
        pages := pages + [p];
        i := i + 1;
      }
    }

    /** pebs_init: the descriptors of both tiers, all free. */
    method Init() returns (ghost drams: seq<Page>, ghost nvms: seq<Page>)
      requires Queued() && Described() && Still() && pool == {} && info == map[] && q == ForEach([]) &&
               num == ForEach(0)
      requires 0 < sizes.page && sizes.dram / sizes.page < WORD && sizes.nvm / sizes.page < WORD
      modifies this`pool, this`info, this`q, this`num, queues.Values
      ensures |drams| == sizes.dram / sizes.page && |nvms| == sizes.nvm / sizes.page && NoRepeats(drams + nvms)
      ensures Valid() && S() == TierSpec.Init(drams, nvms, sizes.page)
    {
      hide Queued;
      hide Described;
      hide Still;
      hide WellFormed;
      hide Fresh;
      hide TierSpec.Init;
      drams := InitTier(Dram, sizes.dram / sizes.page);
      nvms := InitTier(Nvm, sizes.nvm / sizes.page);
      Disjoint(drams, nvms);
      InitKeeps(drams, nvms, sizes.page);
      InitInSteps(drams, nvms, sizes.page);
    }

    /* ---- Requests ---- */

    /** The queue half of the body of the request loops, with its assertions. */
    method Pass(f: Tier, t: Tier) returns (put: bool)
      requires Queued() && Described() && WellFormed(S())
      modifies this`q, queues.Values, pool`next, pool`prev, pool`list
      ensures Queued() && put == (old(q[Mmap(f)]) != [])
      ensures q == if !put then old(q)
                   else
                     old(q)[Mmap(f) := old(q[Mmap(f)])[1..]]
                       [Migrate(f, t) := old(q[Migrate(f, t)]) + [old(q[Mmap(f)])[0]]]
    {
      hide Queued;
      hide Described;
      hide WellFormed;
      ghost var s := S();
      var page := Take(Mmap(f));
      put := page != null;
      if page != null {
        FlagsOf(s, Mmap(f), page);
        assert page.inDram == (f == Dram);
        assert page.present;
        Put(Migrate(f, t), page);
      }
    }

    /** The body of the request loops: the page next in turn, if there is one, goes from its mmap list to the request
        list, and the counters follow. */
    method HandOver(f: Tier, t: Tier) returns (put: bool)
      requires Valid()
      modifies this`q, this`num, queues.Values, pool`next, pool`prev, pool`list
      ensures Valid() && put == (old(q[Mmap(f)]) != [])
      ensures S() == if put then Handed(old(S()), f, t, old(q[Mmap(f)])[..1], old(q[Mmap(f)])[1..]) else old(S())
    {
      hide *;
      ghost var s := S();
      Whole();
      put := Pass(f, t);
      if put {
        CountHanded(f, t);
        HandedHead(s, f, t);
      }
      Whole();
    }

    method CountHanded(f: Tier, t: Tier)
      modifies this`num
      ensures num == old(num)[Migrate(f, t) := Plus(old(num[Migrate(f, t)]), 1)][Mmap(f) := Minus(old(num[Mmap(f)]), 1)]
    {
      num := num[Migrate(f, t) := Plus(num[Migrate(f, t)], 1)];
      num := num[Mmap(f) := Minus(num[Mmap(f)], 1)];
    }

    /** The free page next in turn. */
    lemma TakenFree(s: State<Page>, t: Tier, page: Page)
      requires Described() && WellFormed(s) && s.info == info && s.q[Free(t)] != [] && page == s.q[Free(t)][0]
      ensures page in pool && page in info && page.inDram == (t == Dram) && !page.present
    {
      FlagsOf(s, Free(t), page);
    }

    /** What a page's queue says of its flags. */
    lemma FlagsOf(s: State<Page>, k: QueueId, page: Page)
      requires Described() && WellFormed(s) && s.info == info && page in s.q[k]
      ensures page in pool && page in info && page.inDram == (TierOf(k) == Dram) && page.present == !k.Free?
    {
    }

    /** mig_dram_to_dram_request, mig_nvm_to_nvm_request, migrate_down_request and migrate_up_request with
        random = false. */
    method Request(f: Tier, t: Tier, pagesNum: int) returns (pagePut: nat)
      requires Valid()
      modifies this`q, this`num, queues.Values, pool`next, pool`prev, pool`list
      ensures Valid() && S() == Requested(old(S()), f, t, if pagesNum < 0 then 0 else pagesNum)
      ensures pagePut == Min(if pagesNum < 0 then 0 else pagesNum, |old(q[Mmap(f)])|)
    {
      hide Queued;
      hide Described;
      hide WellFormed;
      hide Requested;
      hide Handed;
      ghost var s := S();
      pagePut := 0;
      var i := 0;
      RequestedNone(s, f, t);
      while i < pagesNum
        invariant Valid() && S() == Requested(s, f, t, i)
        invariant 0 <= i && (0 <= pagesNum ==> i <= pagesNum) && (pagesNum < 0 ==> i == 0)
        invariant pagePut == Min(i, |s.q[Mmap(f)]|)
      {
        var put := HandOver(f, t);
        if put {
          pagePut := pagePut + 1;
        }
        RequestedOneMore(s, f, t, i);
        assert put == (i < |s.q[Mmap(f)]|);
        i := i + 1;
      }
    }

    /** The rotation loop of a random request.  It enqueues what it dequeues unchecked. */
    method Rotate(f: Tier, choose: nat)
      requires Queued() && (q[Mmap(f)] == [] ==> choose == 0)
      modifies this`q, queues.Values, pool`next, pool`prev, pool`list
      ensures Queued() && q == old(q)[Mmap(f) := Turned(old(q[Mmap(f)]), choose)]
    {
      hide Queued;
      hide Turned;
      ghost var q0 := q;
      var i := 0;
      TurnedNone(q0[Mmap(f)]);
      assert q0[Mmap(f) := q0[Mmap(f)]] == q0;
      while i < choose
        invariant i <= choose && Queued() && q == q0[Mmap(f) := Turned(q0[Mmap(f)], i)]
      {
        TurnedOneMore(q0[Mmap(f)], i);
        var page := Take(Mmap(f));
        Put(Mmap(f), page);
        i := i + 1;
      }
    }

    /** The body of a random request. */
    method Choose(f: Tier, t: Tier, rand: nat) returns (put: bool)
      requires Valid() && 0 < num[Mmap(f)] && (q[Mmap(f)] == [] ==> rand % num[Mmap(f)] == 0)
      modifies this`q, this`num, queues.Values, pool`next, pool`prev, pool`list
      ensures Valid() && put == (old(q[Mmap(f)]) != [])
      ensures S() == var s := old(S());
                     var turned := Turned(s.q[Mmap(f)], rand % old(num[Mmap(f)]));
                     if put then Handed(s.(q := s.q[Mmap(f) := turned]), f, t, turned[..1], turned[1..]) else s
    {
      hide Queued;
      hide Described;
      hide WellFormed;
      hide Handed;
      hide Turned;
      var choose := rand % num[Mmap(f)];
      TurnedKeeps(S(), Mmap(f), choose);
      Rotate(f, choose);
      put := HandOver(f, t);
    }

    /** The same requests with random = true; rands are the numbers rand() returns. */
    method RandomRequest(f: Tier, t: Tier, pagesNum: int, rands: seq<nat>) returns (pagePut: nat)
      requires Valid() && |rands| == (if pagesNum < 0 then 0 else pagesNum)
      requires Survives(|q[Mmap(f)]|, num[Mmap(f)], rands)
      modifies this`q, this`num, queues.Values, pool`next, pool`prev, pool`list
      ensures Valid() && S() == RandomRequested(old(S()), f, t, rands)
      ensures pagePut == Min(|rands|, |old(q[Mmap(f)])|)
    {
      hide Queued;
      hide Described;
      hide WellFormed;
      hide RandomRequested;
      hide Handed;
      hide Valid;
      hide Turned;
      hide Survives;
      ghost var s := S();
      pagePut := 0;
      var i := 0;
      assert rands[0..] == rands;
      while i < pagesNum
        invariant 0 <= i <= |rands| && (pagesNum >= 0 ==> i <= pagesNum) && Valid()
        invariant pagePut == Min(i, |s.q[Mmap(f)]|) && |q[Mmap(f)]| == |s.q[Mmap(f)]| - pagePut
        invariant Survives(|q[Mmap(f)]|, num[Mmap(f)], rands[i..])
        invariant RandomRequested(S(), f, t, rands[i..]) == RandomRequested(s, f, t, rands)
      {
        RandomRound(S(), f, t, rands[i..]);
        var put := Choose(f, t, rands[i]);
        if put {
          pagePut := pagePut + 1;
        }
        assert rands[i..][1..] == rands[i + 1..];
        i := i + 1;
      }
      assert rands[i..] == [];
      RandomNone(S(), f, t);
    }

    /* ---- Faults and populate ---- */

    /** One branch of pebs_allocate_page: a free page of tier t becomes present and mapped. */
    method AllocateIn(t: Tier) returns (page: Page?)
      requires Queued() && Described() && WellFormed(S())
      modifies this`q, this`info, queues.Values, pool`next, pool`prev, pool`list, pool`present
      ensures Queued() && Described() && (page != null ==> page in pool)
      ensures old(q[Free(t)]) == [] ==> page == null && q == old(q) && info == old(info)
      ensures old(q[Free(t)]) != [] ==>
                && page == old(q[Free(t)])[0] && page in old(info) && page.inDram == (t == Dram)
                && q == old(q)[Free(t) := old(q[Free(t)])[1..]][Mmap(t) := old(q[Mmap(t)]) + [page]]
                && info == old(info)[page := old(info)[page].(present := true)]
    {
      hide *;
      ghost var s := S();
      Whole();
      page := Take(Free(t));
      if page != null {
        TakenFree(s, t, page);
        assert page.inDram == (t == Dram);
        assert !page.present;
        Occupy(t, page);
      }
    }

    method Occupy(t: Tier, page: Page)
      requires Queued() && Described() && page in pool && Loose(page)
      modifies this`q, this`info, queues.Values, pool`next, pool`prev, pool`list, page`present
      ensures Queued() && Described() && q == old(q)[Mmap(t) := old(q[Mmap(t)]) + [page]]
      ensures info == old(info)[page := old(info)[page].(present := true)]
    {
      hide *;
      MarkPresent(page);
      Put(Mmap(t), page);
    }

    method MarkPresent(page: Page)
      requires Described() && page in pool
      modifies this`info, page`present
      ensures Described() && info == old(info)[page := old(info)[page].(present := true)]
    {
      page.present := true;
      info := info[page := info[page].(present := true)];
    }

    /** pebs_allocate_page.  With both free lists empty it aborts. */
    method AllocatePage() returns (page: Page)
      requires Queued() && Described() && WellFormed(S()) && q[Free(AllocationTier(S()))] != []
      modifies this`q, this`info, queues.Values, pool`next, pool`prev, pool`list, pool`present
      ensures Queued() && Described()
      ensures var t := AllocationTier(old(S()));
              && page == old(q[Free(t)])[0] && page in old(info) && page in pool && page.inDram == (t == Dram)
              && q == old(q)[Free(t) := old(q[Free(t)])[1..]][Mmap(t) := old(q[Mmap(t)]) + [page]]
              && info == old(info)[page := old(info)[page].(present := true)]
    {
      hide Queued;
      hide Described;
      hide WellFormed;
      var p := AllocateIn(Dram);
      if p == null {
        p := AllocateIn(Nvm);
      }
      page := p;
    }

    /** The assignments of handle_missing_fault and hemem_mmap_populate to the page they have mapped. */
    method SetUp(page: Page, va: nat)
      requires Described() && Still() && page in pool
      modifies this`info, page`va, page`migrating, page`migrationsUp, page`migrationsDown
      ensures Described() && Still() && info == old(info)[page := old(info)[page].(va := va, up := 0, down := 0)]
    {
      page.va := va;
      page.migrating := false;
      page.migrationsUp, page.migrationsDown := 0, 0;
      info := info[page := info[page].(va := va, up := 0, down := 0)];
    }

    /** What handle_missing_fault does to queues and descriptors. */
    method MapPage(va: nat) returns (page: Page)
      requires Valid() && q[Free(AllocationTier(S()))] != []
      modifies this`q, this`info, queues.Values, pool`next, pool`prev, pool`list
      modifies pool`present, pool`va, pool`migrating, pool`migrationsUp, pool`migrationsDown
      ensures Valid() && S() == Mapped(old(S()), va) && page == old(q[Free(AllocationTier(S()))])[0]
      ensures page.inDram == (AllocationTier(old(S())) == Dram)
    {
      hide *;
      ghost var s := S();
      Whole();
      MappedKeeps(s, va);
      MappedInSteps(s, va);
      page := AllocatePage();
      SetUp(page, va);
      Whole();
    }

    /** What hemem_mmap_populate does to them for one page: it also counts the page. */
    method PopulatePage(va: nat) returns (page: Page)
      requires Valid() && q[Free(AllocationTier(S()))] != []
      modifies this`q, this`num, this`info, queues.Values, pool`next, pool`prev, pool`list
      modifies pool`present, pool`va, pool`migrating, pool`migrationsUp, pool`migrationsDown
      ensures Valid() && S() == Populated(old(S()), va) && page == old(q[Free(AllocationTier(S()))])[0]
    {
      hide *;
      ghost var s := S();
      Whole();
      PopulatedKeeps(s, va);
      PopulatedInSteps(s, va);
      page := MapPage(va);
      Whole();
      CountPopulated(page, AllocationTier(s));
      Whole();
    }

    method CountPopulated(page: Page, ghost t: Tier)
      requires page.inDram == (t == Dram)
      modifies this`num
      ensures num == CountMapped(old(num), t)
    {
      if page.inDram {
        num := num[Mmap(Dram) := Plus(num[Mmap(Dram)], 1)];
        num := num[Free(Dram) := Minus(num[Free(Dram)], 1)];
      } else {
        num := num[Mmap(Nvm) := Plus(num[Mmap(Nvm)], 1)];
        num := num[Free(Nvm) := Minus(num[Free(Nvm)], 1)];
      }
    }

    /* ---- The migration thread ---- */

    /** The first loop of a batch. */
    method TakeBatch(f: Tier, t: Tier, n: nat) returns (pages: seq<Page>, nextPages: seq<Page>, offsets: seq<nat>)
      requires Queued() && Described() && n <= |q[Migrate(f, t)]| && n <= |q[Free(t)]|
      modifies this`q, queues.Values, pool`next, pool`prev, pool`list
      ensures Queued() && q == Taken(old(q), f, t, n)
      ensures pages == old(q[Migrate(f, t)])[..n] && nextPages == old(q[Free(t)])[..n] &&
              offsets == Offsets(info, nextPages)
      ensures AllLoose(pages) && AllLoose(nextPages)
    {
      hide Queued;
      hide Described;
      hide Taken;
      hide Offsets;
      ghost var b, c := q[Migrate(f, t)], q[Free(t)];
      pages, nextPages, offsets := [], [], [];
      InPool(Migrate(f, t));
      InPool(Free(t));
      TakenNone(q, f, t);
      var i := 0;
      while i < n
        invariant i <= n && Queued() && q == Taken(old(q), f, t, i)
        invariant pages == b[..i] && nextPages == c[..i] && offsets == Offsets(info, nextPages)
        invariant AllLoose(pages) && AllLoose(nextPages)
      {
        TakenOneMore(old(q), f, t, i);
        assert forall p :: p in b[..i] || p in c[..i] ==> p in pool;
        var page, next, offset := TakePair(f, t, pages, nextPages);
        pages, nextPages, offsets := pages + [page], nextPages + [next], offsets + [offset];
        OffsetsOneMore(info, c[..i], next);
        i := i + 1;
      }
    }

    lemma InPool(k: QueueId)
      requires Queued()
      ensures forall p :: p in q[k] ==> p in pool
    {
      assert QueueOk(k);
    }

    method TakePair(f: Tier, t: Tier, ghost pages: seq<Page>, ghost nextPages: seq<Page>)
      returns (page: Page, next: Page, offset: nat)
      requires Queued() && Described() && q[Migrate(f, t)] != [] && q[Free(t)] != []
      requires AllLoose(pages) && AllLoose(nextPages)
      requires forall p :: p in pages || p in nextPages ==> p in pool
      modifies this`q, queues.Values, pool`next, pool`prev, pool`list
      ensures Queued() && q == Taken(old(q), f, t, 1)
      ensures page == old(q[Migrate(f, t)])[0] && next == old(q[Free(t)])[0]
      ensures next in info && offset == info[next].offset
      ensures AllLoose(pages + [page]) && AllLoose(nextPages + [next])
    {
      hide Queued;
      page := Take(Migrate(f, t));
      next := Take(Free(t));
      offset := next.devdaxOffset;
    }

    /** The loops that set and clear `migrating`. */
    method Mark(pages: seq<Page>, migrating: bool)
      requires forall p :: p in pages ==> p in pool
      modifies pages`migrating
      ensures forall p :: p in pages ==> p.migrating == migrating
    {
      var i := 0;
      while i < |pages|
        invariant i <= |pages| && forall j :: 0 <= j < i ==> pages[j].migrating == migrating
      {
        pages[i].migrating := migrating;
        i := i + 1;
      }
    }

    /** The assertions of hemem_wp_page and of the copying loop of hemem_migrate_*. */
    method Check(pages: seq<Page>, offsets: seq<nat>, f: Tier, t: Tier)
      requires |pages| == |offsets| && Described() && forall p :: p in pages ==> p in pool
      requires forall i :: 0 <= i < |pages| ==> Passes(info[pages[i]], offsets[i], f, t, sizes)
    {
      var i := 0;
      while i < |pages|
      {
        assert Passes(info[pages[i]], offsets[i], f, t, sizes) && Mirrors(pages[i], info[pages[i]]);
        assert pages[i].va != 0 && pages[i].va % sizes.page == 0;
        assert pages[i].inDram == (f == Dram);
        assert pages[i].devdaxOffset < SizeOf(sizes, f) && pages[i].devdaxOffset + sizes.page <= SizeOf(sizes, f);
        assert offsets[i] < SizeOf(sizes, t) && offsets[i] + sizes.page <= SizeOf(sizes, t);
        i := i + 1;
      }
    }

    /** The descriptor updates of the remapping loop. */
    method RemapPage(page: Page, offset: nat, f: Tier, t: Tier)
      requires Described() && page in pool
      modifies this`info, page`inDram, page`devdaxOffset, page`migrationsUp, page`migrationsDown
      ensures Described() && info == old(info)[page := Moved(old(info)[page], offset, f, t)]
      ensures page.devdaxOffset == offset && page.inDram == (t == Dram)
      ensures page.migrationsUp == old(page.migrationsUp) + (if t == Dram && f != t then 1 else 0)
      ensures page.migrationsDown == old(page.migrationsDown) + (if t == Nvm && f != t then 1 else 0)
    {
      if f == Nvm && t == Dram {
        page.migrationsUp := page.migrationsUp + 1;
      }
      if f == Dram && t == Nvm {
        page.migrationsDown := page.migrationsDown + 1;
      }
      page.inDram := t == Dram;
      page.devdaxOffset := offset;
      info := info[page := Moved(info[page], offset, f, t)];
    }

    /** The remapping loop, which is reached with every page of the batch marked. */
    method RemapPages(pages: seq<Page>, offsets: seq<nat>, f: Tier, t: Tier)
      requires |pages| == |offsets| && Described() && forall p :: p in pages ==> p in pool && p.migrating
      modifies this`info, pages`inDram, pages`devdaxOffset, pages`migrationsUp, pages`migrationsDown
      ensures Described() && info == Remap(old(info), pages, offsets, f, t)
      ensures NoRepeats(pages) ==>
                && (forall j :: 0 <= j < |pages| ==>
                      pages[j].devdaxOffset == offsets[j] && pages[j].inDram == (t == Dram))
                && (forall j :: 0 <= j < |pages| ==>
                      pages[j].migrationsUp == old(pages[j].migrationsUp) + if t == Dram && f != t then 1 else 0)
                && (forall j :: 0 <= j < |pages| ==>
                      pages[j].migrationsDown == old(pages[j].migrationsDown) + if t == Nvm && f != t then 1 else 0)
    {
      hide Described;
      hide Remap;
      ghost var info0 := info;
      AsDescribed(pages);
      var i := 0;
      RemapNone(info0, pages, offsets, f, t);
      while i < |pages|
        invariant i <= |pages| && Described() && info == Remap(info0, pages[..i], offsets[..i], f, t)
      {
        KnownPage(pages[i]);
        RemapOneMore(info0, pages, offsets, f, t, i);
        RemapPage(pages[i], offsets[i], f, t);
        i := i + 1;
      }
      assert pages[..i] == pages && offsets[..i] == offsets;
      AsDescribed(pages);
      if NoRepeats(pages) {
        RemapAt(info0, pages, offsets, f, t);
      }
    }

    lemma AsDescribed(pages: seq<Page>)
      requires Described() && forall p :: p in pages ==> p in pool
      ensures forall j {:trigger pages[j]} :: 0 <= j < |pages| ==>
                pages[j] in info && Mirrors(pages[j], info[pages[j]])
    {
    }

    lemma KnownPage(p: Page)
      requires Described() && p in pool
      ensures p in info
    {
    }

    /** pebs_migrate_dram, pebs_migrate_down, pebs_migrate_up and pebs_migrate_nvm, apart from the protection, the copy
        and the mapping, which module MigrationPath is about. */
    method MigratePages(pages: seq<Page>, offsets: seq<nat>, f: Tier, t: Tier)
      requires |pages| == |offsets| && Described() && Still() && forall p :: p in pages ==> p in pool
      requires forall i :: 0 <= i < |pages| ==> pages[i] in info && Passes(info[pages[i]], offsets[i], f, t, sizes)
      modifies this`info, pages`migrating, pages`inDram, pages`devdaxOffset, pages`migrationsUp, pages`migrationsDown
      ensures Described() && Still() && info == Remap(old(info), pages, offsets, f, t)
    {
      hide Described;
      Mark(pages, true);
      Check(pages, offsets, f, t);
      RemapPages(pages, offsets, f, t);
      Mark(pages, false);
    }

    /** The last loop of a batch. */
    method ReturnBatch(f: Tier, t: Tier, pages: seq<Page>, nextPages: seq<Page>, offsets: seq<nat>)
      requires Queued() && Described() && |pages| == |nextPages| == |offsets|
      requires (forall p :: p in pages ==> p in pool && p !in nextPages) && (forall p :: p in nextPages ==> p in pool)
      requires AllLoose(pages) && AllLoose(nextPages) && NoRepeats(pages) && NoRepeats(nextPages)
      requires forall i :: 0 <= i < |nextPages| ==> offsets[i] == nextPages[i].devdaxOffset
      modifies this`q, this`info, queues.Values, pool`next, pool`prev, pool`list
      modifies nextPages`devdaxOffset, nextPages`present, nextPages`inDram
      ensures Queued() && Described() && q == Returned(old(q), f, t, pages, nextPages)
      ensures info == Release(old(info), nextPages, f)
    {
      hide Queued;
      hide Described;
      hide Returned;
      hide Release;
      ghost var q0, info0 := q, info;
      var i := 0;
      ReturnedNone(q0, f, t);
      ReleaseNone(info0, nextPages, f);
      while i < |pages|
        invariant i <= |pages| && Queued() && Described()
        invariant q == Returned(q0, f, t, pages[..i], nextPages[..i]) && info == Release(info0, nextPages[..i], f)
        invariant AllLoose(pages[i..]) && AllLoose(nextPages[i..])
        invariant forall j :: 0 <= j < |nextPages| ==> offsets[j] == nextPages[j].devdaxOffset
      {
        ReturnNext(f, t, pages, nextPages, offsets[i], i, q0, info0);
        i := i + 1;
      }
      assert pages[..i] == pages && nextPages[..i] == nextPages;
    }

    /** Its body, for pair number i. */
    method ReturnNext(f: Tier, t: Tier, pages: seq<Page>, nextPages: seq<Page>, offset: nat, i: nat,
                      ghost q0: Queues<Page>, ghost info0: map<Page, Info>)
      requires Queued() && Described() && i < |pages| == |nextPages| && offset == nextPages[i].devdaxOffset
      requires (forall p :: p in pages ==> p in pool && p !in nextPages) && (forall p :: p in nextPages ==> p in pool)
      requires NoRepeats(pages) && NoRepeats(nextPages) && AllLoose(pages[i..]) && AllLoose(nextPages[i..])
      requires q == Returned(q0, f, t, pages[..i], nextPages[..i]) && info == Release(info0, nextPages[..i], f)
      modifies this`q, this`info, queues.Values, pool`next, pool`prev, pool`list
      modifies {nextPages[i]}`devdaxOffset, {nextPages[i]}`present, {nextPages[i]}`inDram
      ensures Queued() && Described() && nextPages[i].devdaxOffset == offset
      ensures q == Returned(q0, f, t, pages[..i + 1], nextPages[..i + 1])
      ensures info == Release(info0, nextPages[..i + 1], f)
      ensures AllLoose(pages[i + 1..]) && AllLoose(nextPages[i + 1..])
    {
      hide Queued;
      hide Described;
      hide Returned;
      hide Release;
      hide NoRepeats;
      hide Loose;
      KnownPage(nextPages[i]);
      ReturnedOneMore(q0, f, t, pages, nextPages, i);
      ReleaseOneMore(info0, nextPages, f, i);
      RestApart(pages, nextPages, i);
      ReturnPair(f, t, pages[i], nextPages[i], offset);
    }

    method ReturnPair(f: Tier, t: Tier, page: Page, nextPage: Page, offset: nat)
      requires Queued() && Described() && page in pool && nextPage in pool && page != nextPage
      requires nextPage.devdaxOffset == offset && Loose(page) && Loose(nextPage)
      modifies this`q, this`info, queues.Values, pool`next, pool`prev, pool`list
      modifies nextPage`devdaxOffset, nextPage`present, nextPage`inDram
      ensures Queued() && Described() && nextPage.devdaxOffset == offset
      ensures q == var q1 := old(q)[Mmap(t) := old(q[Mmap(t)]) + [page]]; q1[Free(f) := q1[Free(f)] + [nextPage]]
      ensures info == old(info)[nextPage := Freed(old(info)[nextPage], f)]
      ensures forall x {:trigger Loose(x)} :: x in pool && x != page && x != nextPage && old(Loose(x)) ==> Loose(x)
    {
      hide *;
      ReleaseAndPut(f, t, page, nextPage, offset);
      Put(Free(f), nextPage);
    }

    method ReleaseAndPut(f: Tier, t: Tier, page: Page, nextPage: Page, offset: nat)
      requires Queued() && Described() && page in pool && nextPage in pool
      requires nextPage.devdaxOffset == offset && Loose(page)
      modifies this`q, this`info, queues.Values, pool`next, pool`prev, pool`list
      modifies nextPage`devdaxOffset, nextPage`present, nextPage`inDram
      ensures Queued() && Described() && nextPage.devdaxOffset == offset
      ensures q == old(q)[Mmap(t) := old(q[Mmap(t)]) + [page]]
      ensures info == old(info)[nextPage := Freed(old(info)[nextPage], f)]
      ensures forall x {:trigger Loose(x)} :: x in pool && x != page && old(Loose(x)) ==> Loose(x)
    {
      hide *;
      ReleasePage(nextPage, offset, f);
      Put(Mmap(t), page);
    }

    method ReleasePage(nextPage: Page, offset: nat, f: Tier)
      requires Described() && nextPage in pool && nextPage.devdaxOffset == offset
      modifies this`info, nextPage`devdaxOffset, nextPage`present, nextPage`inDram
      ensures Described() && info == old(info)[nextPage := Freed(old(info)[nextPage], f)]
      ensures nextPage.devdaxOffset == offset
    {
      nextPage.devdaxOffset := offset;
      nextPage.present := false;
      nextPage.inDram := f == Dram;
      info := info[nextPage := Freed(info[nextPage], f)];
    }

    /** The counter updates at the end of a batch. */
    method CountBatch(f: Tier, t: Tier, n: nat)
      modifies this`num
      ensures num == CountMoved(old(num), f, t, n)
    {
      num := num[Mmap(t) := Plus(num[Mmap(t)], n)];
      if f != t {
        num := num[Free(f) := Plus(num[Free(f)], n)];
        num := num[Free(t) := Minus(num[Free(t)], n)];
      }
      num := num[Migrate(f, t) := Minus(num[Migrate(f, t)], n)];
    }

    lemma OffsetsOf(nextPages: seq<Page>)
      requires Described() && forall p :: p in nextPages ==> p in pool
      ensures forall i :: 0 <= i < |nextPages| ==> Offsets(info, nextPages)[i] == nextPages[i].devdaxOffset
    {
      forall i | 0 <= i < |nextPages| ensures Offsets(info, nextPages)[i] == nextPages[i].devdaxOffset {
        assert nextPages[i] in nextPages && Mirrors(nextPages[i], info[nextPages[i]]);
      }
    }

    /** The parties of a batch are in the pool. */
    lemma PartiesInPool(f: Tier, t: Tier, n: nat)
      requires Queued() && n <= |q[Migrate(f, t)]| && n <= |q[Free(t)]|
      ensures forall p :: p in q[Migrate(f, t)][..n] ==> p in pool
      ensures forall p :: p in q[Free(t)][..n] ==> p in pool
    {
      InPool(Migrate(f, t));
      InPool(Free(t));
    }

    /** One iteration of an inner loop of migration_request. */
    method MigrateBatch(f: Tier, t: Tier) returns (n: nat)
      requires Valid() && Placeable(S(), f, t, Min(num[Migrate(f, t)], batch), sizes)
      modifies this`q, this`info, this`num, queues.Values, pool
      ensures Valid() && n == Min(old(num[Migrate(f, t)]), batch) && S() == Batch(old(S()), f, t, n)
    {
      hide *;
      ghost var s := S();
      Whole();
      n := if num[Migrate(f, t)] > batch then batch else num[Migrate(f, t)];
      SmallerOf(num[Migrate(f, t)], batch);
      PlaceableLengths(s, f, t, n, sizes);
      BatchKeeps(s, f, t, n);
      BatchNum(s, f, t, n);
      MoveBatch(f, t, n);
      CountBatch(f, t, n);
      Whole();
    }

    lemma BatchReady(f: Tier, t: Tier, n: nat)
      requires Queued() && WellFormed(S()) && Placeable(S(), f, t, n, sizes)
      ensures n <= |q[Migrate(f, t)]| && n <= |q[Free(t)]|
      ensures var pages, nextPages := q[Migrate(f, t)][..n], q[Free(t)][..n];
              && (forall p :: p in pages ==> p in pool && p !in nextPages) && (forall p :: p in nextPages ==> p in pool)
              && (forall i :: 0 <= i < n ==>
                    pages[i] in info && Passes(info[pages[i]], Offsets(info, nextPages)[i], f, t, sizes))
    {
      hide Queued;
      hide WellFormed;
      hide Placeable;
      PlaceableLengths(S(), f, t, n, sizes);
      BatchParties(S(), f, t, n);
      PartiesInPool(f, t, n);
      PlaceableParties(S(), f, t, n, sizes);
    }

    /** The queue and descriptor work of a batch up to the freeing of the old frames. */
    method TakeAndMigrate(f: Tier, t: Tier, n: nat) returns (pages: seq<Page>, nextPages: seq<Page>, offsets: seq<nat>)
      requires Queued() && Described() && Still() && WellFormed(S()) && Placeable(S(), f, t, n, sizes)
      modifies this`q, this`info, queues.Values, pool`next, pool`prev, pool`list
      modifies pool`migrating, pool`inDram, pool`devdaxOffset, pool`migrationsUp, pool`migrationsDown
      ensures Queued() && Described() && Still() && AllLoose(pages) && AllLoose(nextPages)
      ensures pages == old(q[Migrate(f, t)])[..n] && nextPages == old(q[Free(t)])[..n]
      ensures |offsets| == n && forall i :: 0 <= i < n ==> offsets[i] == nextPages[i].devdaxOffset
      ensures q == Taken(old(q), f, t, n)
      ensures info == Remap(old(info), pages, Offsets(old(info), nextPages), f, t)
    {
      hide Queued;
      hide Described;
      hide Still;
      hide WellFormed;
      hide Placeable;
      hide Taken;
      hide Remap;
      hide Batch;
      hide Offsets;
      hide Passes;
      BatchReady(f, t, n);
      pages, nextPages, offsets := TakeBatch(f, t, n);
      MigrateTaken(pages, nextPages, offsets, f, t);
    }

    method MigrateTaken(pages: seq<Page>, nextPages: seq<Page>, offsets: seq<nat>, f: Tier, t: Tier)
      requires Described() && Still() && |pages| == |nextPages| && offsets == Offsets(info, nextPages)
      requires (forall p :: p in pages ==> p in pool && p !in nextPages) && (forall p :: p in nextPages ==> p in pool)
      requires forall i :: 0 <= i < |pages| ==> pages[i] in info && Passes(info[pages[i]], offsets[i], f, t, sizes)
      modifies this`info, pages`migrating, pages`inDram, pages`devdaxOffset, pages`migrationsUp, pages`migrationsDown
      ensures Described() && Still() && info == Remap(old(info), pages, offsets, f, t)
      ensures forall i :: 0 <= i < |offsets| ==> offsets[i] == nextPages[i].devdaxOffset
    {
      hide Described;
      hide Still;
      hide Remap;
      hide Offsets;
      hide Passes;
      OffsetsOf(nextPages);
      MigratePages(pages, offsets, f, t);
      assert forall i :: 0 <= i < |nextPages| ==> nextPages[i] !in pages;
    }

    method MoveBatch(f: Tier, t: Tier, n: nat)
      requires Queued() && Described() && Still() && WellFormed(S()) && Placeable(S(), f, t, n, sizes)
      modifies this`q, this`info, queues.Values, pool
      ensures Queued() && Described() && Still()
      ensures q == Batch(old(S()), f, t, n).q && info == Batch(old(S()), f, t, n).info
    {
      hide Queued;
      hide Described;
      hide Still;
      hide WellFormed;
      hide Taken;
      hide Returned;
      hide Remap;
      hide Release;
      ghost var s := S();
      BatchParties(s, f, t, n);
      PartiesInPool(f, t, n);
      var pages, nextPages, offsets := TakeAndMigrate(f, t, n);
      ReturnBatch(f, t, pages, nextPages, offsets);
    }

    /** One inner loop of migration_request, while no requests come in. */
    method DrainList(f: Tier, t: Tier)
      requires Valid() && batch > 0 && num[Migrate(f, t)] <= |q[Migrate(f, t)]|
      requires Placeable(S(), f, t, num[Migrate(f, t)], sizes)
      modifies this`q, this`info, this`num, queues.Values, pool
      ensures Able(old(S()), f, t, batch) && Valid() && S() == DrainQueue(old(S()), f, t, batch)
    {
      hide *;
      ghost var s := S();
      Whole();
      StartDraining(s, f, t, batch, sizes);
      while num[Migrate(f, t)] > 0
        invariant Valid() && Able(S(), f, t, batch) && DrainQueue(S(), f, t, batch) == DrainQueue(s, f, t, batch)
        invariant Placeable(S(), f, t, num[Migrate(f, t)], sizes)
        decreases num[Migrate(f, t)]
      {
        Whole();
        ghost var n := Min(num[Migrate(f, t)], batch);
        DrainStep(S(), f, t, batch, sizes);
        var moved := MigrateBatch(f, t);
        Whole();
      }
      Whole();
      DrainEnd(S(), f, t, batch);
    }

    /** Inner loop number i. */
    method DrainNumber(i: nat)
      requires i < 4 && Valid() && batch > 0 && FedFrom(S(), batch, i) && PlaceableFrom(S(), batch, i, sizes)
      modifies this`q, this`info, this`num, queues.Values, pool
      ensures Valid() && FedFrom(S(), batch, i + 1) && PlaceableFrom(S(), batch, i + 1, sizes)
      ensures DrainFrom(S(), batch, i + 1) == DrainFrom(old(S()), batch, i)
    {
      hide Valid;
      hide Placeable;
      hide PlaceableFrom;
      hide FedFrom;
      hide DrainFrom;
      hide DrainQueue;
      PassNext(S(), batch, i, sizes);
      DrainList(From(i), To(i));
    }

    /** One pass of the endless loop of migration_request. */
    method MigrationPass()
      requires Valid() && batch > 0 && FedFrom(S(), batch, 0) && PlaceableFrom(S(), batch, 0, sizes)
      modifies this`q, this`info, this`num, queues.Values, pool
      ensures Valid() && S() == DrainAll(old(S()), batch)
    {
      hide *;
      PassIsLoops(S(), batch);
      DrainNumber(0);
      DrainNumber(1);
      DrainNumber(2);
      DrainNumber(3);
      NoLoops(S(), batch);
    }
  }

  lemma Disjoint<P>(a: seq<P>, b: seq<P>)
    requires NoRepeats(a) && NoRepeats(b) && forall p :: p in b ==> p !in a
    ensures NoRepeats(a + b)
  {
    forall i, j | 0 <= i < j < |a + b| ensures (a + b)[i] != (a + b)[j] {
      assert j >= |a| ==> (a + b)[j] in b;
    }
  }

  lemma InitInSteps<P>(drams: seq<P>, nvms: seq<P>, size: nat)
    requires |drams| < WORD && |nvms| < WORD
    ensures var q1: Queues<P> := ForEach([])[Free(Dram) := ForEach([])[Free(Dram)] + drams];
            var num1: Counters := ForEach(0)[Free(Dram) := ForEach(0)[Free(Dram)] + |drams|];
            && q1[Free(Nvm)] == [] && num1[Free(Nvm)] == 0
            && TierSpec.Init(drams, nvms, size) ==
               State(q1[Free(Nvm) := q1[Free(Nvm)] + nvms], num1[Free(Nvm) := num1[Free(Nvm)] + |nvms|],
                     Fresh(Fresh(map[], drams, Dram, size), nvms, Nvm, size))
  {
    hide Fresh;
    InitMaps(ForEach<seq<P>>([]), ForEach(0), drams, nvms);
  }

  lemma InitMaps<P>(q: Queues<P>, num: Counters, drams: seq<P>, nvms: seq<P>)
    requires q[Free(Dram)] == q[Free(Nvm)] == [] && num[Free(Dram)] == num[Free(Nvm)] == 0
    requires |drams| < WORD && |nvms| < WORD
    ensures var q1: Queues<P>, num1: Counters := q[Free(Dram) := q[Free(Dram)] + drams],
            num[Free(Dram) := num[Free(Dram)] + |drams|];
            && q1[Free(Nvm)] == [] && num1[Free(Nvm)] == 0
            && q1[Free(Nvm) := q1[Free(Nvm)] + nvms] == q[Free(Dram) := drams][Free(Nvm) := nvms]
            && num1[Free(Nvm) := num1[Free(Nvm)] + |nvms|] == num[Free(Dram) := |drams|][Free(Nvm) := |nvms|]
  {
    assert [] + drams == drams && [] + nvms == nvms;
  }

  lemma StartTier<P>(q: Queues<P>, num: Counters, t: Tier)
    ensures q[Free(t) := q[Free(t)] + []] == q && num[Free(t) := num[Free(t)] + 0] == num
    ensures NoRepeats<P>([])
  {
    assert q[Free(t)] + [] == q[Free(t)];
  }

  lemma FreshNone<P>(info: map<P, Info>, t: Tier, size: nat)
    ensures Fresh(info, [], t, size) == info
  {
  }

  lemma FreshOneMore<P>(info: map<P, Info>, pages: seq<P>, p: P, t: Tier, size: nat)
    ensures Fresh(info, pages + [p], t, size) ==
            Fresh(info, pages, t, size)[p := Info(0, |pages| * size, t == Dram, false, 0, 0)]
  {
    assert (pages + [p])[..|pages|] == pages;
  }

  lemma Appended<P>(q: Queues<P>, num: Counters, t: Tier, pages: seq<P>, p: P)
    requires num[Free(t)] + |pages| + 1 < WORD && NoRepeats(pages) && p !in pages
    ensures var q1, n := q[Free(t) := q[Free(t)] + pages], num[Free(t)] + |pages|;
            && q1[Free(t) := q1[Free(t)] + [p]] == q[Free(t) := q[Free(t)] + (pages + [p])]
            && num[Free(t) := n][Free(t) := Plus(n, 1)] == num[Free(t) := n + 1]
    ensures NoRepeats(pages + [p])
  {
    assert q[Free(t)] + pages + [p] == q[Free(t)] + (pages + [p]);
  }

  lemma PopulatedInSteps<P>(s: State<P>, va: nat)
    requires s.q[Free(AllocationTier(s))] != []
    ensures Populated(s, va) == Mapped(s, va).(num := CountMapped(s.num, AllocationTier(s)))
  {
  }

  /** The allocator and the fault handler between them. */
  lemma MappedInSteps<P>(s: State<P>, va: nat)
    requires WellFormed(s) && s.q[Free(AllocationTier(s))] != []
    ensures var t := AllocationTier(s);
            var p := s.q[Free(t)][0];
            && p in s.info
            && var present := s.info[p := s.info[p].(present := true)];
            Mapped(s, va) == State(s.q[Free(t) := s.q[Free(t)][1..]][Mmap(t) := s.q[Mmap(t)] + [p]], s.num,
                                   present[p := present[p].(va := va, up := 0, down := 0)])
  {
    hide Apart;
    var t := AllocationTier(s);
    var p := s.q[Free(t)][0];
    assert p in s.q[Free(t)];
    assert Mapped(s, va).info ==
           s.info[p := s.info[p].(present := true)][p := s.info[p].(va := va, present := true, up := 0, down := 0)];
  }

  lemma OffsetsOneMore<P>(info: map<P, Info>, frees: seq<P>, p: P)
    requires p in info
    ensures Offsets(info, frees + [p]) == Offsets(info, frees) + [info[p].offset]
  {
    assert (frees + [p])[..|frees|] == frees;
  }

  lemma RestApart<P>(pages: seq<P>, frees: seq<P>, i: nat)
    requires i < |pages| == |frees| && NoRepeats(pages) && NoRepeats(frees) && forall p :: p in pages ==> p !in frees
    ensures pages[i] in pages[i..] && frees[i] in frees[i..] && pages[i] != frees[i]
    ensures forall p :: p in pages[i + 1..] ==> p in pages[i..] && p != pages[i] && p != frees[i]
    ensures forall p :: p in frees[i + 1..] ==> p in frees[i..] && p != pages[i] && p != frees[i]
  {
    assert pages[i] in pages && frees[i] in frees;
    assert forall p :: p in frees[i + 1..] ==> p in frees;
    assert forall p :: p in pages[i + 1..] ==> p in pages;
  }

  lemma SmallerOf(a: nat, b: nat)
    ensures Min(a, b) == if a > b then b else a
  {
  }

  lemma PlaceableLengths<P>(s: State<P>, f: Tier, t: Tier, n: nat, g: Sizes)
    requires Placeable(s, f, t, n, g)
    ensures n <= |s.q[Migrate(f, t)]| && n <= |s.q[Free(t)]|
  {
  }

  /** On a batch of requested pages every assertion holds, given those of addresses and offsets. */
  lemma PlaceableParties<P>(s: State<P>, f: Tier, t: Tier, n: nat, g: Sizes)
    requires WellFormed(s) && Placeable(s, f, t, n, g)
    ensures var pages, frees := s.q[Migrate(f, t)][..n], s.q[Free(t)][..n];
            forall i :: 0 <= i < n ==>
              pages[i] in s.info && Passes(s.info[pages[i]], Offsets(s.info, frees)[i], f, t, g)
  {
    hide Apart;
    var pages, frees := s.q[Migrate(f, t)][..n], s.q[Free(t)][..n];
    forall i | 0 <= i < n ensures pages[i] in s.info && Passes(s.info[pages[i]], Offsets(s.info, frees)[i], f, t, g) {
      assert pages[i] == s.q[Migrate(f, t)][i] && frees[i] == s.q[Free(t)][i];
      assert pages[i] in s.q[Migrate(f, t)];
    }
  }
}
