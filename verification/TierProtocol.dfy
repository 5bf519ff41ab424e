/** The tier manager under concurrency: any number of requesting, faulting, populating and unmapping threads beside
    the migration thread, interleaved at the granularity of the code's locks.  A queue operation, a counter update
    under its lock, an unlocked read of a counter, and a descriptor update by the thread that holds the page are one
    step each; munmap looks a page up, takes it out of the index and counts it in three.  Four assumptions of the
    model: the migration thread reads a counter once per batch; a counter update is atomic whichever lock guards it; the
    set-up of a faulted page (its address and its index entry) happens together with its enqueueing; and a lookup,
    which takes no lock, sees the index as it is between two locked operations. */
module TierProtocol {
  import opened Basics
  import opened TierSpec

  /** Where a descriptor is: on a queue (its `list` back-pointer), or held by a thread; a page of a batch before and
      after its remapping, or a free page taken for one. */
  datatype Place = On(k: QueueId) | Held(thread: nat) | MigPage | MigMoved | MigFree

  /** What a thread other than the migration thread is doing.
      Turning: a random request has drawn how many pages to pass over; `left` of them are to go;
      Holding: a request has dequeued p, to put it back if there are pages left to pass over, and else to send it;
      Put: the page is on the request list and is still to be counted;
      TryNvm: the allocator found no DRAM page;
      Fresh: the allocator holds p; Mapped: populate has mapped a page of tier t and is still to count it;
      Found: munmap has found p at va and is still to take it out of the index;
      Unmapped: it has taken p out and is still to count it. */
  datatype Local =
    | Idle
    | Turning(f: Tier, t: Tier, left: nat)
    | Holding(f: Tier, t: Tier, p: nat, left: nat)
    | Put(f: Tier, t: Tier)
    | TryNvm(populate: bool)
    | Fresh(tier: Tier, p: nat, populate: bool)
    | Mapped(tier: Tier)
    | Found(va: nat, p: nat)
    | Unmapped(p: nat)

  /** The migration thread: at the head of a loop, collecting a batch of n, remapping it page by page, or giving it
      back. todo are the pages still to be remapped. */
  datatype Mig =
    | Rest
    | Taking(f: Tier, t: Tier, n: nat, pages: seq<nat>, frees: seq<nat>)
    | Moving(f: Tier, t: Tier, n: nat, todo: seq<nat>, pages: seq<nat>, frees: seq<nat>)
    | Returning(f: Tier, t: Tier, n: nat, pages: seq<nat>, frees: seq<nat>)

  datatype System = System(
    q: Queues<nat>, num: Counters, desc: map<nat, Info>, where: map<nat, Place>, index: map<nat, nat>,
    threads: seq<Local>, mig: Mig, faults: nat, batch: nat, sizes: Sizes)

  datatype Action =
    | ReqDraw(i: nat, f: Tier, t: Tier, rand: nat)
    | ReqTake(i: nat, f: Tier, t: Tier)
    | ReqBack(i: nat)
    | ReqPut(i: nat)
    | ReqCount(i: nat)
    | FaultDram(i: nat, populate: bool)
    | FaultNvm(i: nat)
    | FaultMap(i: nat, va: nat)
    | PopulateCount(i: nat)
    | UnmapFind(i: nat, va: nat)
    | UnmapRemove(i: nat)
    | UnmapCount(i: nat)
    | WriteFault(i: nat, va: nat)
    | MigStart(f: Tier, t: Tier)
    | MigTakePage
    | MigTakeFree
    | MigCheck
    | MigMove
    | MigReturn
    | MigReturnPage
    | MigReturnFree
    | MigCount

  /** Which thread a step belongs to. */
  predicate ByThread(a: Action) {
    !(a.MigStart? || a.MigTakePage? || a.MigTakeFree? || a.MigCheck? || a.MigMove? || a.MigReturn? || a.MigReturnPage?
      || a.MigReturnFree? || a.MigCount?)
  }

  predicate ByRequest(a: Action) { a.ReqDraw? || a.ReqTake? || a.ReqBack? || a.ReqPut? || a.ReqCount? }

  predicate At(s: System, i: nat, l: Local) { i < |s.threads| && s.threads[i] == l }

  /** Thread i is about to dequeue a page from the mmap list of tier f for a request. */
  predicate Requests(s: System, i: nat, f: Tier, t: Tier) {
    i < |s.threads| &&
    (s.threads[i].Idle? || (s.threads[i].Turning? && s.threads[i].f == f && s.threads[i].t == t))
  }

  /** How many pages it passes over before it takes one. */
  function LeftOf(l: Local): nat { if l.Turning? || l.Holding? then l.left else 0 }

  /** Some page has been mapped at va, so that a write to it can meet the write-protection of a migration. */
  predicate MappedSometime(s: System, va: nat) {
    exists p :: p in s.desc && s.desc[p].present && s.desc[p].va == va
  }

  predicate ThreadEnabled(s: System, a: Action) {
    match a
    case ReqDraw(i, _, _, _) => At(s, i, Idle)
    case ReqTake(i, f, t) => Requests(s, i, f, t)
    case ReqBack(i) => i < |s.threads| && s.threads[i].Holding? && s.threads[i].left > 0
    case ReqPut(i) => i < |s.threads| && s.threads[i].Holding? && s.threads[i].left == 0
    case ReqCount(i) => i < |s.threads| && s.threads[i].Put?
    case FaultDram(i, _) => At(s, i, Idle)
    case FaultNvm(i) => i < |s.threads| && s.threads[i].TryNvm?
    case FaultMap(i, _) => i < |s.threads| && s.threads[i].Fresh?
    case PopulateCount(i) => i < |s.threads| && s.threads[i].Mapped?
    case UnmapFind(i, va) => At(s, i, Idle) && va in s.index
    case UnmapRemove(i) => i < |s.threads| && s.threads[i].Found?
    case UnmapCount(i) => i < |s.threads| && s.threads[i].Unmapped? && s.threads[i].p in s.desc
    case WriteFault(i, va) => At(s, i, Idle) && MappedSometime(s, va)
    case _ => false
  }

  predicate MigrationEnabled(s: System, a: Action) {
    match a
    case MigStart(f, t) => s.mig.Rest? && s.num[Migrate(f, t)] > 0 && s.batch > 0
    case MigTakePage => s.mig.Taking? && |s.mig.pages| == |s.mig.frees| < s.mig.n
    case MigTakeFree => s.mig.Taking? && |s.mig.frees| < |s.mig.pages|
    case MigCheck => s.mig.Taking? && |s.mig.pages| == |s.mig.frees| == s.mig.n
    case MigMove => s.mig.Moving? && s.mig.todo != [] && |s.mig.pages| < |s.mig.frees|
    case MigReturn => s.mig.Moving? && s.mig.todo == []
    case MigReturnPage => s.mig.Returning? && |s.mig.pages| == |s.mig.frees| > 0
    case MigReturnFree => s.mig.Returning? && |s.mig.pages| < |s.mig.frees|
    case MigCount => s.mig.Returning? && s.mig.pages == [] == s.mig.frees
    case _ => false
  }

  /** When a thread comes to a step: where it stands in the code, and nothing of what the step asserts or relies on. */
  predicate Enabled(s: System, a: Action) {
    if ByThread(a) then ThreadEnabled(s, a) else MigrationEnabled(s, a)
  }

  function Front(s: seq<nat>): nat { if s == [] then 0 else s[0] }

  function Rest1(s: seq<nat>): seq<nat> { if s == [] then [] else s[1..] }

  /** dequeue_fifo: the front of queue k, if there is one, goes to `place`. */
  function Dequeue(s: System, k: QueueId, place: Place): System {
    s.(q := s.q[k := Rest1(s.q[k])],
       where := if s.q[k] == [] then s.where else s.where[s.q[k][0] := place])
  }

  /** enqueue_fifo. */
  function Enqueue(s: System, k: QueueId, p: nat): System {
    s.(q := s.q[k := s.q[k] + [p]], where := s.where[p := On(k)])
  }

  function Become(s: System, i: nat, l: Local): System
    requires i < |s.threads|
  {
    s.(threads := s.threads[i := l])
  }

  /** A counter goes up by n and another down. */
  function Shifted(num: Counters, up: QueueId, down: QueueId, n: nat): Counters {
    num[up := Plus(num[up], n)][down := Minus(if up == down then Plus(num[up], n) else num[down], n)]
  }

  function SetDesc(s: System, p: nat, d: Info): System { s.(desc := s.desc[p := d]) }

  function DescOf(s: System, p: nat): Info { if p in s.desc then s.desc[p] else Info(0, 0, false, false, 0, 0) }

  function RequestDoes(s: System, a: Action): System
    requires ThreadEnabled(s, a) && ByRequest(a)
  {
    match a
    case ReqDraw(i, f, t, rand) =>
      Become(s, i, Turning(f, t, if s.num[Mmap(f)] == 0 then 0 else rand % s.num[Mmap(f)]))
    case ReqTake(i, f, t) =>
      if s.q[Mmap(f)] == [] then Become(s, i, Idle)
      else Become(Dequeue(s, Mmap(f), Held(i)), i, Holding(f, t, s.q[Mmap(f)][0], LeftOf(s.threads[i])))
    case ReqBack(i) =>
      var l := s.threads[i];
      Become(Enqueue(s, Mmap(l.f), l.p), i, Turning(l.f, l.t, l.left - 1))
    case ReqPut(i) =>
      Become(Enqueue(s, Migrate(s.threads[i].f, s.threads[i].t), s.threads[i].p), i,
          Put(s.threads[i].f, s.threads[i].t))
    case ReqCount(i) =>
      var l := s.threads[i];
      Become(s.(num := Shifted(s.num, Migrate(l.f, l.t), Mmap(l.f), 1)), i, Idle)
  }

  function FaultDoes(s: System, a: Action): System
    requires ThreadEnabled(s, a) && !ByRequest(a)
  {
    match a
    case FaultDram(i, populate) =>
      if s.q[Free(Dram)] == [] then Become(s, i, TryNvm(populate))
      else Become(Dequeue(s, Free(Dram), Held(i)), i, Fresh(Dram, s.q[Free(Dram)][0], populate))
    case FaultNvm(i) =>
      Become(Dequeue(s, Free(Nvm), Held(i)), i, Fresh(Nvm, Front(s.q[Free(Nvm)]), s.threads[i].populate))
    case FaultMap(i, va) =>
      var l := s.threads[i];
      var s1 := SetDesc(s, l.p, DescOf(s, l.p).(va := va, present := true, up := 0, down := 0));
      var s2 := Enqueue(s1, Mmap(l.tier), l.p).(index := s.index[va := l.p]);
      if l.populate then Become(s2, i, Mapped(l.tier)) else Become(s2.(faults := s.faults + 1), i, Idle)
    case PopulateCount(i) =>
      var t := s.threads[i].tier;
      Become(s.(num := Shifted(s.num, Mmap(t), Free(t), 1)), i, Idle)
    case UnmapFind(i, va) => Become(s, i, Found(va, s.index[va]))
    case UnmapRemove(i) =>
      Become(s.(index := s.index - {s.threads[i].va}), i, Unmapped(s.threads[i].p))
    case UnmapCount(i) =>
      var t := if s.desc[s.threads[i].p].inDram then Dram else Nvm;
      Become(s.(num := Shifted(s.num, Free(t), Mmap(t), 1)), i, Idle)
    case WriteFault(i, _) => Become(s, i, Idle)
  }

  function ThreadDoes(s: System, a: Action): System
    requires ThreadEnabled(s, a)
  {
    if ByRequest(a) then RequestDoes(s, a) else FaultDoes(s, a)
  }

  function MigrationDoes(s: System, a: Action): System
    requires MigrationEnabled(s, a)
  {
    match a
    case MigStart(f, t) =>
      s.(mig := Taking(f, t, Min(s.num[Migrate(f, t)], s.batch), [], []))
    case MigTakePage =>
      var k := Migrate(s.mig.f, s.mig.t);
      Dequeue(s, k, MigPage).(mig := Taking(s.mig.f, s.mig.t, s.mig.n, s.mig.pages + [Front(s.q[k])], s.mig.frees))
    case MigTakeFree =>
      var k := Free(s.mig.t);
      Dequeue(s, k, MigFree).(mig := Taking(s.mig.f, s.mig.t, s.mig.n, s.mig.pages, s.mig.frees + [Front(s.q[k])]))
    case MigCheck =>
      s.(mig := Moving(s.mig.f, s.mig.t, s.mig.n, s.mig.pages, [], s.mig.frees))
    case MigMove =>
      var p, x := s.mig.todo[0], s.mig.frees[|s.mig.pages|];
      SetDesc(s, p, TierSpec.Moved(DescOf(s, p), DescOf(s, x).offset, s.mig.f, s.mig.t))
        .(where := s.where[p := MigMoved],
          mig := Moving(s.mig.f, s.mig.t, s.mig.n, s.mig.todo[1..], s.mig.pages + [p], s.mig.frees))
    case MigReturn =>
      s.(mig := Returning(s.mig.f, s.mig.t, s.mig.n, s.mig.pages, s.mig.frees))
    case MigReturnPage =>
      Enqueue(s, Mmap(s.mig.t), s.mig.pages[0])
        .(mig := Returning(s.mig.f, s.mig.t, s.mig.n, s.mig.pages[1..], s.mig.frees))
    case MigReturnFree =>
      var p := s.mig.frees[0];
      Enqueue(SetDesc(s, p, Freed(DescOf(s, p), s.mig.f)), Free(s.mig.f), p)
        .(mig := Returning(s.mig.f, s.mig.t, s.mig.n, s.mig.pages, s.mig.frees[1..]))
    case MigCount =>
      s.(num := CountMoved(s.num, s.mig.f, s.mig.t, s.mig.n), mig := Rest)
  }

  /** A step; one that fails an assertion is given some result all the same. */
  function Do(s: System, a: Action): System
    requires Enabled(s, a)
  {
    if ByThread(a) then ThreadDoes(s, a) else MigrationDoes(s, a)
  }

  /** An address a page may be mapped at: page-aligned, and new to the index. */
  predicate AddressOk(s: System, va: nat) {
    va != 0 && s.sizes.page > 0 && va % s.sizes.page == 0 && va !in s.index
  }

  /** The free page thread i has taken lies inside the device of its tier. */
  predicate FreshFits(s: System, i: nat) {
    i < |s.threads| && s.threads[i].Fresh? && Fits(DescOf(s, s.threads[i].p).offset, s.threads[i].tier, s.sizes)
  }

  /** The offsets of the free pages of the batch, which its pages are to have, lie inside the device of the tier it
      goes to. */
  predicate FreesFit(s: System) {
    !s.mig.Rest? &&
    forall x :: x in s.mig.frees ==> x in s.desc && Fits(s.desc[x].offset, s.mig.t, s.sizes)
  }

  /** The page thread i has found is still in the index, where it found it. */
  predicate StillIndexed(s: System, i: nat) {
    i < |s.threads| && s.threads[i].Found? && s.threads[i].va in s.index &&
    s.index[s.threads[i].va] == s.threads[i].p
  }

  /** What the step asserts, divides by, dereferences, or takes for granted of a frame it writes or an entry it
      removes. */
  predicate Asserts(s: System, a: Action) {
    match a
    case ReqDraw(_, f, _, _) =>
      // rand() % dram_mmap_list_num
      s.num[Mmap(f)] != 0
    case ReqTake(i, f, _) =>
      // a page to pass over is enqueued unchecked
      i < |s.threads| && (LeftOf(s.threads[i]) > 0 ==> s.q[Mmap(f)] != [])
    case ReqPut(i) =>
      // assert(page->in_dram) or assert(!page->in_dram), and assert(page->present)
      i < |s.threads| && s.threads[i].Holding? && s.threads[i].p in s.desc &&
      s.desc[s.threads[i].p].inDram == (s.threads[i].f == Dram) && s.desc[s.threads[i].p].present
    case FaultNvm(_) =>
      // the allocator's abort when both tiers are used up
      s.q[Free(Nvm)] != []
    case FaultMap(i, va) =>
      // the flags in pebs_allocate_page; that the frame the fault handler and populate clear is inside its device; the
      // address there; add_page
      i < |s.threads| && s.threads[i].Fresh? && s.threads[i].p in s.desc &&
      s.desc[s.threads[i].p].inDram == (s.threads[i].tier == Dram) && !s.desc[s.threads[i].p].present &&
      FreshFits(s, i) && AddressOk(s, va)
    case UnmapRemove(i) =>
      // HASH_DEL relies on the page being in the table
      i < |s.threads| && s.threads[i].Found? && StillIndexed(s, i)
    case WriteFault(_, va) =>
      // assert(page != NULL) in handle_wp_fault
      va in s.index
    case MigTakePage =>
      // the dequeued page is dereferenced unchecked
      s.mig.Taking? && s.q[Migrate(s.mig.f, s.mig.t)] != []
    case MigTakeFree =>
      // and so is the free one
      s.mig.Taking? && s.q[Free(s.mig.t)] != []
    case MigCheck =>
      // hemem_wp_page and the first loop of hemem_migrate_*: tier and address of the pages, the offsets they have and
      // those they are to have
      s.mig.Taking? && FreesFit(s) && forall p :: p in s.mig.pages ==>
        && p in s.desc && s.desc[p].inDram == (s.mig.f == Dram) && Fits(s.desc[p].offset, s.mig.f, s.sizes)
        && s.desc[p].va != 0 && s.sizes.page > 0 && s.desc[p].va % s.sizes.page == 0
    case _ => true
  }

  /** A free descriptor that has brought an offset from outside the device: one that is mapped, or one that a batch is
      to move to. */
  predicate Misplaced(s: System, a: Action) {
    match a
    case FaultMap(i, _) => !FreshFits(s, i)
    case MigCheck => !FreesFit(s)
    case _ => false
  }

  /** What the code leaves to chance: a random request on a counter of zero, or turning a list others have emptied;
      the allocator finding both tiers used up; a page mapped at an address that is unaligned or already indexed; a
      page unmapped by two threads at once, or written to once it is out of the index; a batch with more pages than the
      other tier has free ones; and a free descriptor with an offset from outside the device. */
  predicate Hazard(s: System, a: Action) {
    || Misplaced(s, a)
    || match a
       case ReqDraw(_, f, _, _) => s.num[Mmap(f)] == 0
       case ReqTake(i, f, _) => i < |s.threads| && LeftOf(s.threads[i]) > 0 && s.q[Mmap(f)] == []
       case FaultNvm(_) => s.q[Free(Nvm)] == []
       case FaultMap(_, va) => !AddressOk(s, va)
       case UnmapRemove(i) => !StillIndexed(s, i)
       case WriteFault(_, va) => va !in s.index
       case MigTakeFree => s.mig.Taking? && s.q[Free(s.mig.t)] == []
       case _ => false
  }

  /* ---- Ownership ---- */

  predicate HasPage(l: Local) { l.Holding? || l.Fresh? }

  predicate Unmapping(l: Local) { l.Found? || l.Unmapped? }

  /** The pages of the batch that still have their old frames, and those that have been remapped. */
  function MigPages(m: Mig): seq<nat> { if m.Taking? then m.pages else if m.Moving? then m.todo else [] }

  function MigDone(m: Mig): seq<nat> { if m.Moving? || m.Returning? then m.pages else [] }

  function MigFrees(m: Mig): seq<nat> { if m.Rest? then [] else m.frees }

  /** The queues hold just the descriptors that are placed on them. */
  ghost predicate Placed(q: Queues<nat>, where: map<nat, Place>) {
    && (forall k, p {:trigger p in q[k]} :: p in q[k] ==> p in where && where[p] == On(k))
    && (forall k {:trigger NoRepeats(q[k])} :: NoRepeats(q[k]))
    && (forall p {:trigger where[p]} :: p in where && where[p].On? ==> p in q[where[p].k])
  }

  /** The threads hold just the descriptors that are placed with them. */
  ghost predicate HeldOk(threads: seq<Local>, where: map<nat, Place>) {
    && (forall i {:trigger threads[i]} :: 0 <= i < |threads| && HasPage(threads[i]) ==>
          threads[i].p in where && where[threads[i].p] == Held(i))
    && (forall p {:trigger where[p]} :: p in where && where[p].Held? ==>
          where[p].thread < |threads| && HasPage(threads[where[p].thread]) && threads[where[p].thread].p == p)
  }

  ghost predicate MigOk(m: Mig, where: map<nat, Place>) {
    && NoRepeats(MigPages(m)) && NoRepeats(MigDone(m)) && NoRepeats(MigFrees(m))
    && (forall p {:trigger where[p]} :: p in where ==> (where[p] == MigPage <==> p in MigPages(m)))
    && (forall p {:trigger where[p]} :: p in where ==> (where[p] == MigMoved <==> p in MigDone(m)))
    && (forall p {:trigger where[p]} :: p in where ==> (where[p] == MigFree <==> p in MigFrees(m)))
    && (forall p :: p in MigPages(m) ==> p in where) && (forall p :: p in MigDone(m) ==> p in where)
    && (forall p :: p in MigFrees(m) ==> p in where)
    && (m.Taking? ==> |m.frees| <= |m.pages| <= |m.frees| + 1 && |m.pages| <= m.n)
    && (m.Moving? ==> |m.todo| + |m.pages| == |m.frees| == m.n)
    && (m.Returning? ==> |m.pages| <= |m.frees| <= |m.pages| + 1)
  }

  /** What a descriptor's place says of its flags. */
  ghost predicate FlagsOk(d: Info, place: Place, threads: seq<Local>, m: Mig) {
    match place
    case On(k) => d.inDram == (TierOf(k) == Dram) && d.present == !k.Free?
    case Held(i) =>
      i < |threads| && (threads[i].Holding? ==> d.inDram == (threads[i].f == Dram) && d.present)
      && (threads[i].Fresh? ==> d.inDram == (threads[i].tier == Dram) && !d.present)
    case MigPage => d.present && (!m.Rest? ==> d.inDram == (m.f == Dram))
    case MigMoved => d.present && (!m.Rest? ==> d.inDram == (m.t == Dram))
    case MigFree => !d.present && (!m.Rest? ==> d.inDram == (m.t == Dram))
  }

  ghost predicate Flagged(s: System) {
    && s.desc.Keys == s.where.Keys
    && (forall p {:trigger FlagsOk(s.desc[p], s.where[p], s.threads, s.mig)} :: p in s.desc ==>
          FlagsOk(s.desc[p], s.where[p], s.threads, s.mig))
    && (forall p {:trigger s.desc[p].va} :: p in s.desc && s.desc[p].present ==>
          s.desc[p].va != 0 && s.sizes.page > 0 && s.desc[p].va % s.sizes.page == 0)
  }

  /** The index maps an address to the page that has it, and holds present pages only. */
  ghost predicate Indexed(s: System) {
    forall va {:trigger s.index[va]} :: va in s.index ==>
      s.index[va] in s.desc && s.desc[s.index[va]].va == va && s.desc[s.index[va]].present
  }

  /** Every descriptor is on exactly one queue or held by one thread, its place determines its flags, and no free
      descriptor is indexed. */
  ghost predicate Owned(s: System) {
    && Placed(s.q, s.where) && HeldOk(s.threads, s.where) && MigOk(s.mig, s.where) && Flagged(s) && Indexed(s)
    && (forall i {:trigger s.threads[i].p} :: 0 <= i < |s.threads| && Unmapping(s.threads[i]) ==>
          s.threads[i].p in s.desc)
  }

  /* ---- How one descriptor changes place ---- */

  lemma LastOf(s: seq<nat>, p: nat)
    requires NoRepeats(s) && p !in s
    ensures NoRepeats(s + [p])
  {
  }

  lemma DequeuePlaced(q: Queues<nat>, where: map<nat, Place>, k: QueueId, place: Place)
    requires Placed(q, where) && q[k] != [] && !place.On?
    ensures Placed(q[k := q[k][1..]], where[q[k][0] := place])
  {
    assert NoRepeats(q[k]);
    FirstOf(q[k]);
  }

  lemma EnqueuePlaced(q: Queues<nat>, where: map<nat, Place>, k: QueueId, p: nat)
    requires Placed(q, where) && p in where && !where[p].On?
    ensures Placed(q[k := q[k] + [p]], where[p := On(k)])
  {
    assert NoRepeats(q[k]);
    assert forall j :: p !in q[j];
  }

  lemma HeldTakes(threads: seq<Local>, where: map<nat, Place>, i: nat, l: Local)
    requires HeldOk(threads, where) && i < |threads| && !HasPage(threads[i]) && HasPage(l)
    requires l.p in where && !where[l.p].Held?
    ensures HeldOk(threads[i := l], where[l.p := Held(i)])
  {
  }

  lemma HeldPuts(threads: seq<Local>, where: map<nat, Place>, i: nat, l: Local, k: QueueId)
    requires HeldOk(threads, where) && i < |threads| && HasPage(threads[i]) && !HasPage(l)
    ensures HeldOk(threads[i := l], where[threads[i].p := On(k)])
  {
  }

  lemma HeldElsewhere(threads: seq<Local>, where: map<nat, Place>, p: nat, place: Place)
    requires HeldOk(threads, where) && p in where && !where[p].Held? && !place.Held?
    ensures HeldOk(threads, where[p := place])
  {
  }

  predicate ByMig(place: Place) { place.MigPage? || place.MigMoved? || place.MigFree? }

  lemma MigElsewhere(m: Mig, where: map<nat, Place>, p: nat, place: Place)
    requires MigOk(m, where) && p in where && !ByMig(where[p]) && !ByMig(place)
    ensures MigOk(m, where[p := place])
  {
  }

  /** All but p keep their place and description, and thread i holds nothing but p. */
  lemma FlagsKept(s: System, s': System, i: nat, p: nat)
    requires Flagged(s) && s'.mig == s.mig && s'.sizes == s.sizes && p in s.desc
    requires i < |s.threads| == |s'.threads| && s'.threads == s.threads[i := s'.threads[i]]
    requires p in s'.where && s'.where == s.where[p := s'.where[p]] && p in s'.desc &&
             s'.desc == s.desc[p := s'.desc[p]]
    requires HeldOk(s.threads, s.where) && (HasPage(s.threads[i]) ==> s.threads[i].p == p)
    requires FlagsOk(s'.desc[p], s'.where[p], s'.threads, s'.mig)
    requires s'.desc[p].present ==> s'.desc[p].va != 0 && s'.sizes.page > 0 && s'.desc[p].va % s'.sizes.page == 0
    ensures Flagged(s')
  {
    forall x | x in s'.desc ensures FlagsOk(s'.desc[x], s'.where[x], s'.threads, s'.mig) {
      if x != p {
        assert FlagsOk(s.desc[x], s.where[x], s.threads, s.mig);
        assert s.where[x] != Held(i);
      }
    }
  }

  /** A thread dequeues a page and holds it. */
  lemma ThreadTakes(s: System, k: QueueId, i: nat, l: Local)
    requires Owned(s) && i < |s.threads| && !HasPage(s.threads[i]) && HasPage(l)
    requires s.q[k] != [] && l.p == s.q[k][0]
    requires if l.Holding? then TierOf(k) == l.f && !k.Free? else TierOf(k) == l.tier && k.Free?
    ensures Owned(Become(Dequeue(s, k, Held(i)), i, l))
  {
    hide Placed;
    hide HeldOk;
    hide MigOk;
    hide Flagged;
    hide Indexed;
    Standing(s, k, l.p);
    var s' := Become(Dequeue(s, k, Held(i)), i, l);
    DequeuePlaced(s.q, s.where, k, Held(i));
    HeldTakes(s.threads, s.where, i, l);
    MigElsewhere(s.mig, s.where, l.p, Held(i));
    FlagsKept(s, s', i, l.p);
    SameIndex(s, s');
  }

  /** What is known of a page that stands on queue k. */
  lemma Standing(s: System, k: QueueId, p: nat)
    requires Owned(s) && p in s.q[k]
    ensures p in s.where && s.where[p] == On(k) && p in s.desc && FlagsOk(s.desc[p], On(k), s.threads, s.mig)
    ensures s.desc[p].present ==> s.desc[p].va != 0 && s.sizes.page > 0 && s.desc[p].va % s.sizes.page == 0
  {
    assert FlagsOk(s.desc[p], s.where[p], s.threads, s.mig);
  }

  lemma SameIndex(s: System, s': System)
    requires Indexed(s) && s'.index == s.index && s'.desc == s.desc
    ensures Indexed(s')
  {
  }

  /** A thread enqueues the page it holds; d is what it has made of the descriptor. */
  ghost predicate PutsWell(s: System, k: QueueId, i: nat, l: Local, d: Info) {
    && i < |s.threads| && HasPage(s.threads[i]) && !HasPage(l) && !Unmapping(l) && s.threads[i].p in s.desc
    && (s.threads[i].Holding? ==> TierOf(k) == s.threads[i].f && !k.Free? && d == s.desc[s.threads[i].p])
    && (s.threads[i].Fresh? ==>
          && k == Mmap(s.threads[i].tier)
          && d == s.desc[s.threads[i].p].(va := d.va, present := true, up := 0, down := 0)
          && d.va != 0 && s.sizes.page > 0 && d.va % s.sizes.page == 0)
  }

  /** What is known of the page thread i holds. */
  lemma Holds(s: System, i: nat)
    requires Owned(s) && i < |s.threads| && HasPage(s.threads[i])
    ensures var p := s.threads[i].p;
            && p in s.where && s.where[p] == Held(i) && p in s.desc && FlagsOk(s.desc[p], Held(i), s.threads, s.mig)
            && (s.desc[p].present ==> s.desc[p].va != 0 && s.sizes.page > 0 && s.desc[p].va % s.sizes.page == 0)
  {
    var p := s.threads[i].p;
    assert p in s.where && s.where[p] == Held(i) && p in s.desc;
    assert FlagsOk(s.desc[p], s.where[p], s.threads, s.mig);
  }

  lemma ThreadPuts(s: System, k: QueueId, i: nat, l: Local, d: Info, index: map<nat, nat>)
    requires Owned(s) && PutsWell(s, k, i, l, d)
    requires if s.threads[i].Fresh? then d.va !in s.index && index == s.index[d.va := s.threads[i].p]
             else index == s.index
    ensures Owned(Become(Enqueue(SetDesc(s, s.threads[i].p, d), k, s.threads[i].p).(index := index), i, l))
  {
    hide Placed;
    hide HeldOk;
    hide MigOk;
    hide Flagged;
    hide Indexed;
    var p := s.threads[i].p;
    Holds(s, i);
    var s' := Become(Enqueue(SetDesc(s, p, d), k, p).(index := index), i, l);
    EnqueuePlaced(s.q, s.where, k, p);
    HeldPuts(s.threads, s.where, i, l, k);
    MigElsewhere(s.mig, s.where, p, On(k));
    FlagsKept(s, s', i, p);
    NewIndex(s, s', p, d);
  }

  lemma NewIndex(s: System, s': System, p: nat, d: Info)
    requires Indexed(s) && p in s.desc && s'.desc == s.desc[p := d]
    requires (d == s.desc[p] && s'.index == s.index) ||
             (!s.desc[p].present && d.present && d.va !in s.index && s'.index == s.index[d.va := p])
    ensures Indexed(s')
  {
  }

  /** A thread that holds no page changes its state; the index may lose an entry. */
  lemma ThreadTurns(s: System, i: nat, l: Local, num: Counters, index: map<nat, nat>)
    requires Owned(s) && i < |s.threads| && !HasPage(s.threads[i]) && !HasPage(l) && (Unmapping(l) ==> l.p in s.desc)
    requires forall va :: va in index ==> va in s.index && index[va] == s.index[va]
    ensures Owned(Become(s.(num := num, index := index), i, l))
  {
    var s' := Become(s.(num := num, index := index), i, l);
    forall x | x in s'.desc ensures FlagsOk(s'.desc[x], s'.where[x], s'.threads, s'.mig) {
      assert FlagsOk(s.desc[x], s.where[x], s.threads, s.mig);
      assert s.where[x] != Held(i);
    }
  }

  /** The migration thread dequeues a page or a free page. */
  lemma MigTakes(s: System, k: QueueId, place: Place, m: Mig)
    requires Owned(s) && s.q[k] != [] && s.mig.Taking?
    requires if place == MigPage
             then k == Migrate(s.mig.f, s.mig.t) && |s.mig.pages| == |s.mig.frees| < s.mig.n
                  && m == Taking(s.mig.f, s.mig.t, s.mig.n, s.mig.pages + [s.q[k][0]], s.mig.frees)
             else place == MigFree && k == Free(s.mig.t) && |s.mig.frees| < |s.mig.pages|
                  && m == Taking(s.mig.f, s.mig.t, s.mig.n, s.mig.pages, s.mig.frees + [s.q[k][0]])
    ensures Owned(Dequeue(s, k, place).(mig := m))
  {
    hide Placed;
    hide HeldOk;
    hide Flagged;
    hide Indexed;
    var p := s.q[k][0];
    Standing(s, k, p);
    var s' := Dequeue(s, k, place).(mig := m);
    DequeuePlaced(s.q, s.where, k, place);
    HeldElsewhere(s.threads, s.where, p, place);
    assert !ByMig(s.where[p]);
    LastOf(if place == MigPage then s.mig.pages else s.mig.frees, p);
    FlagsMoved(s, s', p);
    SameIndex(s, s');
  }

  /** All but p keep their place, and the migration thread stays in its phase. */
  lemma FlagsMoved(s: System, s': System, p: nat)
    requires Flagged(s) && s'.sizes == s.sizes && p in s.desc && s'.threads == s.threads
    requires !s.mig.Rest? && !s'.mig.Rest?
    requires s'.mig.f == s.mig.f && s'.mig.t == s.mig.t
    requires p in s'.where && s'.where == s.where[p := s'.where[p]] && p in s'.desc &&
             s'.desc == s.desc[p := s'.desc[p]]
    requires FlagsOk(s'.desc[p], s'.where[p], s'.threads, s'.mig)
    requires s'.desc[p].present ==> s.desc[p].present && s'.desc[p].va == s.desc[p].va
    ensures Flagged(s')
  {
    forall x | x in s'.desc ensures FlagsOk(s'.desc[x], s'.where[x], s'.threads, s'.mig) {
      assert FlagsOk(s.desc[x], s.where[x], s.threads, s.mig);
    }
  }

  lemma PlacedElsewhere(q: Queues<nat>, where: map<nat, Place>, p: nat, place: Place)
    requires Placed(q, where) && p in where && !where[p].On? && !place.On?
    ensures Placed(q, where[p := place])
  {
  }

  /** One page of a batch changes tier. */
  lemma MigMoves(s: System)
    requires Owned(s) && Enabled(s, MigMove)
    ensures Owned(Do(s, MigMove))
  {
    hide Placed;
    hide HeldOk;
    hide Flagged;
    hide Indexed;
    var s', p := Do(s, MigMove), s.mig.todo[0];
    Batched(s, p);
    PlacedElsewhere(s.q, s.where, p, MigMoved);
    HeldElsewhere(s.threads, s.where, p, MigMoved);
    FirstOf(s.mig.todo);
    LastOf(s.mig.pages, p);
    FlagsMoved(s, s', p);
    MovedIndex(s, s', p, s'.desc[p]);
  }

  lemma MovedIndex(s: System, s': System, p: nat, d: Info)
    requires Indexed(s) && p in s.desc && s'.desc == s.desc[p := d] && s'.index == s.index
    requires d.va == s.desc[p].va && d.present == s.desc[p].present
    ensures Indexed(s')
  {
  }

  /** The migration thread enqueues a page, or a freed one. */
  lemma MigReturns(s: System, k: QueueId, p: nat, d: Info, m: Mig)
    requires Owned(s) && s.mig.Returning?
    requires (s.mig.pages != [] && p == s.mig.pages[0] && k == Mmap(s.mig.t) && |s.mig.pages| == |s.mig.frees|
              && p in s.desc && d == s.desc[p]
              && m == Returning(s.mig.f, s.mig.t, s.mig.n, s.mig.pages[1..], s.mig.frees))
             || (|s.mig.pages| < |s.mig.frees| && p == s.mig.frees[0] && k == Free(s.mig.f)
                 && p in s.desc && d == Freed(s.desc[p], s.mig.f)
                 && m == Returning(s.mig.f, s.mig.t, s.mig.n, s.mig.pages, s.mig.frees[1..]))
    ensures Owned(Enqueue(SetDesc(s, p, d), k, p).(mig := m))
  {
    hide Placed;
    hide HeldOk;
    hide Flagged;
    hide Indexed;
    var s' := Enqueue(SetDesc(s, p, d), k, p).(mig := m);
    Batched(s, p);
    EnqueuePlaced(s.q, s.where, k, p);
    HeldElsewhere(s.threads, s.where, p, On(k));
    if m.pages != s.mig.pages {
      FirstOf(s.mig.pages);
    } else {
      FirstOf(s.mig.frees);
    }
    FlagsMoved(s, s', p);
    FreedIndex(s, s', p, d);
  }

  lemma FreedIndex(s: System, s': System, p: nat, d: Info)
    requires Indexed(s) && p in s.desc && s'.desc == s.desc[p := d] && s'.index == s.index
    requires d == s.desc[p] || !s.desc[p].present
    ensures Indexed(s')
  {
  }

  /** What is known of a page or a free page of the batch. */
  lemma Batched(s: System, p: nat)
    requires Owned(s) && (p in MigPages(s.mig) || p in MigDone(s.mig) || p in MigFrees(s.mig))
    ensures p in s.where && p in s.desc
    ensures s.where[p] == (if p in MigPages(s.mig) then MigPage else if p in MigDone(s.mig) then MigMoved else MigFree)
    ensures FlagsOk(s.desc[p], s.where[p], s.threads, s.mig)
    ensures s.desc[p].present ==> s.desc[p].va != 0 && s.sizes.page > 0 && s.desc[p].va % s.sizes.page == 0
  {
    assert p in s.where && p in s.desc;
    assert ByMig(s.where[p]);
    assert FlagsOk(s.desc[p], s.where[p], s.threads, s.mig);
  }

  /** The migration thread begins or ends a batch, or passes on to the next part of one. */
  lemma MigTurns(s: System, m: Mig, num: Counters)
    requires Owned(s) && MigPages(m) == MigPages(s.mig) && MigDone(m) == MigDone(s.mig) &&
             MigFrees(m) == MigFrees(s.mig)
    requires (m.Taking? && s.mig.Rest?) || (m.Rest? && MigPages(s.mig) == MigDone(s.mig) == MigFrees(s.mig) == [])
             || (m.Moving? && s.mig.Taking? && m.f == s.mig.f && m.t == s.mig.t &&
                 |m.todo| + |m.pages| == |m.frees| == m.n)
             || (m.Returning? && s.mig.Moving? && m.f == s.mig.f && m.t == s.mig.t && |m.pages| == |m.frees|)
    ensures Owned(s.(mig := m, num := num))
  {
    var s' := s.(mig := m, num := num);
    forall x | x in s'.desc ensures FlagsOk(s'.desc[x], s'.where[x], s'.threads, s'.mig) {
      assert FlagsOk(s.desc[x], s.where[x], s.threads, s.mig);
    }
  }

  lemma RequestOwned(s: System, a: Action)
    requires Owned(s) && Enabled(s, a) && (a.ReqDraw? || a.ReqTake? || a.ReqBack? || a.ReqPut? || a.ReqCount?)
    ensures Owned(Do(s, a))
  {
    hide Owned;
    hide Shifted;
    match a
    case ReqDraw(i, f, t, _) => ThreadTurns(s, i, Do(s, a).threads[i], s.num, s.index);
    case ReqTake(i, f, t) =>
      if s.q[Mmap(f)] == [] {
        ThreadTurns(s, i, Idle, s.num, s.index);
      } else {
        ThreadTakes(s, Mmap(f), i, Holding(f, t, s.q[Mmap(f)][0], LeftOf(s.threads[i])));
      }
    case ReqBack(i) =>
      ThreadGivesBack(s, i, Mmap(s.threads[i].f), Turning(s.threads[i].f, s.threads[i].t, s.threads[i].left - 1));
    case ReqPut(i) => ThreadGivesBack(s, i, Migrate(s.threads[i].f, s.threads[i].t),
        Put(s.threads[i].f, s.threads[i].t));
    case ReqCount(i) => ThreadTurns(s, i, Idle, Do(s, a).num, s.index);
  }

  lemma FaultMapOwned(s: System, i: nat, va: nat)
    requires Owned(s) && Enabled(s, FaultMap(i, va)) && Asserts(s, FaultMap(i, va))
    ensures Owned(Do(s, FaultMap(i, va)))
  {
    hide Owned;
    var l := s.threads[i];
    Holds(s, i);
    ThreadPuts(s, Mmap(l.tier), i, if l.populate then Mapped(l.tier) else Idle,
               s.desc[l.p].(va := va, present := true, up := 0, down := 0), s.index[va := l.p]);
    var s' := Do(s, FaultMap(i, va));
    MoreFaults(s'.(faults := s.faults), s'.faults);
  }

  lemma FaultOwned(s: System, a: Action)
    requires Owned(s) && Enabled(s, a) && Asserts(s, a)
    requires a.FaultDram? || a.FaultNvm? || a.FaultMap? || a.PopulateCount?
    ensures Owned(Do(s, a))
  {
    hide Owned;
    hide Shifted;
    match a
    case FaultDram(i, populate) =>
      if s.q[Free(Dram)] == [] {
        ThreadTurns(s, i, TryNvm(populate), s.num, s.index);
      } else {
        ThreadTakes(s, Free(Dram), i, Fresh(Dram, s.q[Free(Dram)][0], populate));
      }
    case FaultNvm(i) => ThreadTakes(s, Free(Nvm), i, Fresh(Nvm, s.q[Free(Nvm)][0], s.threads[i].populate));
    case FaultMap(i, va) => FaultMapOwned(s, i, va);
    case PopulateCount(i) => ThreadTurns(s, i, Idle, Do(s, a).num, s.index);
  }

  lemma UnmapOwned(s: System, a: Action)
    requires Owned(s) && Enabled(s, a) && (a.UnmapFind? || a.UnmapRemove? || a.UnmapCount? || a.WriteFault?)
    ensures Owned(Do(s, a))
  {
    hide Owned;
    hide Shifted;
    match a
    case UnmapFind(i, va) =>
      KnownPage(s, va);
      ThreadTurns(s, i, Found(va, s.index[va]), s.num, s.index);
    case UnmapRemove(i) =>
      FoundPage(s, i);
      ThreadTurns(s, i, Unmapped(s.threads[i].p), s.num, s.index - {s.threads[i].va});
    case UnmapCount(i) => ThreadTurns(s, i, Idle, Do(s, a).num, s.index);
    case WriteFault(i, _) => ThreadTurns(s, i, Idle, s.num, s.index);
  }

  lemma MigrationOwned(s: System, a: Action)
    requires Owned(s) && Enabled(s, a) && Asserts(s, a) && !ByThread(a)
    ensures Owned(Do(s, a))
  {
    hide Owned;
    hide CountMoved;
    match a
    case MigStart(f, t) => MigTurns(s, Do(s, a).mig, s.num);
    case MigTakePage => MigTakes(s, Migrate(s.mig.f, s.mig.t), MigPage, Do(s, a).mig);
    case MigTakeFree => MigTakes(s, Free(s.mig.t), MigFree, Do(s, a).mig);
    case MigCheck => MigTurns(s, Do(s, a).mig, s.num);
    case MigMove => MigMoves(s);
    case MigReturn =>
      AllRemapped(s);
      MigTurns(s, Do(s, a).mig, s.num);
    case MigReturnPage =>
      Batched(s, s.mig.pages[0]);
      SameDesc(s, s.mig.pages[0]);
      MigReturns(s, Mmap(s.mig.t), s.mig.pages[0], s.desc[s.mig.pages[0]], Do(s, a).mig);
    case MigReturnFree =>
      Batched(s, s.mig.frees[0]);
      MigReturns(s, Free(s.mig.f), s.mig.frees[0], Freed(s.desc[s.mig.frees[0]], s.mig.f), Do(s, a).mig);
    case MigCount => MigTurns(s, Rest, Do(s, a).num);
  }

  lemma AllRemapped(s: System)
    requires Owned(s) && s.mig.Moving? && s.mig.todo == []
    ensures |s.mig.pages| == |s.mig.frees|
  {
  }

  /** Every step keeps ownership. */
  lemma StepOwned(s: System, a: Action)
    requires Owned(s) && Enabled(s, a) && Asserts(s, a)
    ensures Owned(Do(s, a))
  {
    hide Owned;
    hide Do;
    hide Enabled;
    hide Asserts;
    if ByRequest(a) {
      RequestOwned(s, a);
    } else if a.UnmapFind? || a.UnmapRemove? || a.UnmapCount? || a.WriteFault? {
      UnmapOwned(s, a);
    } else if ByThread(a) {
      FaultOwned(s, a);
    } else {
      MigrationOwned(s, a);
    }
  }

  lemma SameDesc(s: System, p: nat)
    requires p in s.desc
    ensures SetDesc(s, p, s.desc[p]) == s
  {
    assert s.desc[p := s.desc[p]] == s.desc;
  }

  lemma ThreadGivesBack(s: System, i: nat, k: QueueId, l: Local)
    requires Owned(s) && i < |s.threads| && s.threads[i].Holding? && TierOf(k) == s.threads[i].f && !k.Free?
    requires !HasPage(l) && !Unmapping(l)
    ensures Owned(Become(Enqueue(s, k, s.threads[i].p), i, l))
  {
    Holds(s, i);
    hide Owned;
    SameDesc(s, s.threads[i].p);
    ThreadPuts(s, k, i, l, s.desc[s.threads[i].p], s.index);
  }

  lemma MoreFaults(s: System, faults: nat)
    requires Owned(s)
    ensures Owned(s.(faults := faults))
  {
  }

  lemma FoundPage(s: System, i: nat)
    requires Owned(s) && i < |s.threads| && s.threads[i].Found?
    ensures s.threads[i].p in s.desc
  {
  }

  lemma KnownPage(s: System, va: nat)
    requires Owned(s) && va in s.index
    ensures s.index[va] in s.desc
  {
  }

  /* ---- Where the frames lie ---- */

  /** Every present page lies inside the device of its tier; and from its check on a batch has free pages that do. */
  ghost predicate Inside(s: System) {
    && (forall p {:trigger s.desc[p].offset} :: p in s.desc && s.desc[p].present ==>
          Fits(s.desc[p].offset, if s.desc[p].inDram then Dram else Nvm, s.sizes))
    && (s.mig.Moving? ==> FreesFit(s))
  }

  lemma RequestDescs(s: System, a: Action)
    requires Enabled(s, a) && ByThread(a) && ByRequest(a)
    ensures var s' := Do(s, a); s'.mig == s.mig && s'.sizes == s.sizes && s'.desc == s.desc
  {
    hide FaultDoes;
    hide MigrationDoes;
    hide MigrationEnabled;
    hide Shifted;
    hide Rest1;
    hide DescOf;
  }

  lemma FaultDescs(s: System, a: Action)
    requires Enabled(s, a) && ByThread(a) && !ByRequest(a) && !a.FaultMap?
    ensures var s' := Do(s, a); s'.mig == s.mig && s'.sizes == s.sizes && s'.desc == s.desc
  {
    hide RequestDoes;
    hide MigrationDoes;
    hide MigrationEnabled;
    hide MappedSometime;
    hide Shifted;
    hide Rest1;
    hide Front;
    hide DescOf;
  }

  lemma MapDescs(s: System, i: nat, va: nat)
    requires Enabled(s, FaultMap(i, va))
    ensures var s', p := Do(s, FaultMap(i, va)), s.threads[i].p;
            && s'.mig == s.mig && s'.sizes == s.sizes
            && s'.desc == s.desc[p := DescOf(s, p).(va := va, present := true, up := 0, down := 0)]
  {
    hide MigrationDoes;
    hide MigrationEnabled;
    hide DescOf;
  }

  /** The steps of other threads change no descriptor, but that of a page that is mapped. */
  lemma ThreadDescs(s: System, a: Action)
    requires Owned(s) && Enabled(s, a) && ByThread(a)
    ensures var s' := Do(s, a);
            && s'.mig == s.mig && s'.sizes == s.sizes
            && if !a.FaultMap? then s'.desc == s.desc
               else
                 var p := s.threads[a.i].p;
                 && p in s.desc && p !in MigFrees(s.mig) && s.desc[p].inDram == (s.threads[a.i].tier == Dram)
                 && s'.desc == s.desc[p := s.desc[p].(va := a.va, present := true, up := 0, down := 0)]
  {
    hide Owned;
    hide Do;
    if a.FaultMap? {
      MapDescs(s, a.i, a.va);
      Holds(s, a.i);
      NotTaken(s, a.i);
    } else if ByRequest(a) {
      RequestDescs(s, a);
    } else {
      FaultDescs(s, a);
    }
  }

  lemma NotTaken(s: System, i: nat)
    requires Owned(s) && i < |s.threads| && HasPage(s.threads[i])
    ensures s.threads[i].p !in MigFrees(s.mig)
  {
    assert s.where[s.threads[i].p] == Held(i);
  }

  lemma ThreadInside(s: System, a: Action)
    requires Owned(s) && Inside(s) && Enabled(s, a) && Asserts(s, a) && ByThread(a)
    ensures Inside(Do(s, a))
  {
    hide Owned;
    hide Do;
    hide Inside;
    hide AddressOk;
    hide Fits;
    ThreadDescs(s, a);
    if a.FaultMap? {
      MappedInside(s, Do(s, a), s.threads[a.i].p, a.va);
    } else {
      SameInside(s, Do(s, a));
    }
  }

  lemma SameInside(s: System, s': System)
    requires Inside(s) && s'.desc == s.desc && s'.mig == s.mig && s'.sizes == s.sizes
    ensures Inside(s')
  {
  }

  lemma MappedInside(s: System, s': System, p: nat, va: nat)
    requires Inside(s) && s'.mig == s.mig && s'.sizes == s.sizes && p in s.desc && p !in MigFrees(s.mig)
    requires s'.desc == s.desc[p := s.desc[p].(va := va, present := true, up := 0, down := 0)]
    requires Fits(s.desc[p].offset, if s.desc[p].inDram then Dram else Nvm, s.sizes)
    ensures Inside(s')
  {
  }

  /** Nor do those of the migration thread, but when it remaps a page or gives back a free one. */
  lemma MigrationDescs(s: System, a: Action)
    requires Owned(s) && Enabled(s, a) && !ByThread(a)
    ensures var s' := Do(s, a);
            && s'.sizes == s.sizes
            && (s'.mig.Moving? ==>
                  (a.MigCheck? || s.mig.Moving?) && MigFrees(s'.mig) == MigFrees(s.mig) && s'.mig.t == s.mig.t)
            && match a
               case MigMove =>
                 var p, x := s.mig.todo[0], s.mig.frees[|s.mig.pages|];
                 && p in s.desc && p !in s.mig.frees && x in s.desc
                 && s'.desc == s.desc[p := TierSpec.Moved(s.desc[p], s.desc[x].offset, s.mig.f, s.mig.t)]
               case MigReturnFree =>
                 var x := s.mig.frees[0];
                 x in s.desc && s'.desc == s.desc[x := Freed(s.desc[x], s.mig.f)]
               case _ => s'.desc == s.desc
  {
    hide Owned;
    hide ThreadDoes;
    hide ThreadEnabled;
    hide CountMoved;
    if a.MigMove? {
      Batched(s, s.mig.todo[0]);
      Batched(s, s.mig.frees[|s.mig.pages|]);
      NotFree(s, s.mig.todo[0]);
    } else if a.MigReturnFree? {
      Batched(s, s.mig.frees[0]);
    }
  }

  lemma NotFree(s: System, p: nat)
    requires Owned(s) && p in MigPages(s.mig)
    ensures p !in MigFrees(s.mig)
  {
    assert s.where[p] == MigPage;
  }

  lemma MigrationInside(s: System, a: Action)
    requires Owned(s) && Inside(s) && Enabled(s, a) && Asserts(s, a) && !ByThread(a)
    ensures Inside(Do(s, a))
  {
    hide Owned;
    hide Do;
    MigrationDescs(s, a);
    if a.MigMove? {
      var x := s.mig.frees[|s.mig.pages|];
      assert x in s.mig.frees && Fits(s.desc[x].offset, s.mig.t, s.sizes);
    }
  }

  /** Every step that fails no assertion leaves the present pages inside their devices. */
  lemma StepInside(s: System, a: Action)
    requires Owned(s) && Inside(s) && Enabled(s, a) && Asserts(s, a)
    ensures Inside(Do(s, a))
  {
    hide *;
    if ByThread(a) {
      ThreadInside(s, a);
    } else {
      MigrationInside(s, a);
    }
  }

  /** The offset of every descriptor, free or not, is one at which a page of tier t can lie. */
  ghost predicate AllFit(s: System, t: Tier) {
    forall p {:trigger s.desc[p].offset} :: p in s.desc ==> Fits(s.desc[p].offset, t, s.sizes)
  }

  /** Offsets are only ever handed on, so every step keeps such a bound. */
  lemma StepAllFit(s: System, a: Action, t: Tier)
    requires Owned(s) && AllFit(s, t) && Enabled(s, a)
    ensures AllFit(Do(s, a), t)
  {
    hide Owned;
    hide Do;
    hide Enabled;
    hide Fits;
    if ByThread(a) {
      ThreadDescs(s, a);
    } else {
      MigrationDescs(s, a);
    }
  }

  /** The tier in which a mapped page or a batch is to have its frames. */
  function Into(s: System, a: Action): Tier {
    if a.FaultMap? && a.i < |s.threads| && s.threads[a.i].Fresh? then s.threads[a.i].tier
    else if s.mig.Rest? then Dram else s.mig.t
  }

  lemma FitsInto(s: System, a: Action)
    requires Owned(s) && Enabled(s, a) && AllFit(s, Into(s, a))
    ensures !Misplaced(s, a)
  {
    match a
    case FaultMap(i, _) => Holds(s, i);
    case MigCheck =>
      forall x | x in s.mig.frees ensures x in s.desc && Fits(s.desc[x].offset, s.mig.t, s.sizes) {
        Batched(s, x);
      }
    case _ =>
  }

  /** In a state with ownership in order and present pages inside their devices, and with a page on the request list
      for every one the migration thread comes to take, a step fails an assertion exactly when it is one of the
      hazards. */
  lemma AssertsHold(s: System, a: Action)
    requires Owned(s) && Inside(s) && Enabled(s, a)
    requires a.MigTakePage? ==> s.q[Migrate(s.mig.f, s.mig.t)] != []
    ensures Asserts(s, a) <==> !Hazard(s, a)
  {
    match a
    case ReqPut(i) => Holds(s, i);
    case FaultMap(i, va) => Holds(s, i);
    case MigCheck =>
      forall p | p in s.mig.pages
        ensures p in s.desc && s.desc[p].inDram == (s.mig.f == Dram) && Fits(s.desc[p].offset, s.mig.f, s.sizes)
                && s.desc[p].va != 0 && s.sizes.page > 0 && s.desc[p].va % s.sizes.page == 0
      {
        Batched(s, p);
      }
    case _ =>
  }
}
