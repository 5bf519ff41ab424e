/** Migrating a batch while the application reads and writes: flag, write-protect, copy, remap, unflag.  The state
    has the page table, a translation buffer for every application thread, and device memory; the kernel's part is
    modelled by what it guarantees on return: write-protection and unmapping are in force when every buffer has
    dropped its entry, the copy has copied every word, in any order, and a fixed remapping puts another frame behind
    an address, writable. Every interleaving looks to the application like plain memory. */
module MigrationPath {
  import opened Basics

  /** A word of a frame, or of an address. */
  datatype Cell<A> = Cell(at: A, word: nat)

  type DeviceMemory = map<Cell<Frame>, int>

  type PlainMemory = map<Cell<nat>, int>

  datatype Pte = Pte(frame: Frame, mapped: bool, writable: bool)

  datatype Entry = Entry(frame: Frame, writable: bool)

  datatype Op = Read(va: nat, word: nat) | Write(va: nat, word: nat, value: int)

  /** An application thread: between operations, about to access memory, or waiting for handle_wp_fault to wake it. */
  datatype App = Idle | Wants(op: Op) | Faulted(op: Op)

  /** Where pebs_migrate_* stands: the page whose turn it is, and the buffer to be flushed next. */
  datatype Phase =
    | Quiet
    | Flag(i: nat)
    | Protect(i: nat)
    | Shoot(i: nat, j: nat)
    | Copy(done: set<(nat, nat)>)
    | Unmap(i: nat)
    | Flush(i: nat, j: nat)
    | Map(i: nat)
    | Unflag(i: nat)

  datatype System = System(
    mem: DeviceMemory, pt: map<nat, Pte>, tlb: seq<map<nat, Entry>>, app: seq<App>, migrating: set<nat>,
    vas: seq<nat>, dst: seq<Frame>, phase: Phase, words: nat)

  datatype Action =
    // the application
    | Issue(j: nat, op: Op)
    | Fill(j: nat, va: nat)
    | Evict(j: nat, va: nat)
    | Access(j: nat)
    | Fault(j: nat)
    | Wake(j: nat)
    // the migration thread
    | Begin(vas: seq<nat>, dst: seq<Frame>)
    | FlagNext
    | ProtectNext
    | ShootNext
    | CopyWord(k: nat, word: nat)
    | CopyEnd
    | UnmapNext
    | FlushNext
    | MapNext
    | UnflagNext

  /** What thread j of the application observes. */
  datatype Event = DidRead(j: nat, va: nat, word: nat, value: int) | DidWrite(j: nat, va: nat, word: nat, value: int)

  function Peek<A(==)>(mem: map<Cell<A>, int>, c: Cell<A>): int { if c in mem then mem[c] else 0 }

  /** No address has this frame. */
  ghost predicate Unused(pt: map<nat, Pte>, frame: Frame) { forall va :: va in pt ==> pt[va].frame != frame }

  /** A batch: different mapped pages, and as many different frames that no page has. */
  ghost predicate Batchable(pt: map<nat, Pte>, vas: seq<nat>, dst: seq<Frame>) {
    && |vas| == |dst| && NoRepeats(vas) && NoRepeats(dst)
    && (forall k :: 0 <= k < |vas| ==> vas[k] in pt)
    && (forall k {:trigger dst[k]} :: 0 <= k < |dst| ==> Unused(pt, dst[k]))
  }

  ghost predicate Enabled(s: System, a: Action) {
    match a
    case Issue(j, op) => j < |s.app| && s.app[j] == Idle && op.va in s.pt && op.word < s.words
    case Fill(j, va) => j < |s.tlb| && va in s.pt && s.pt[va].mapped
    case Evict(j, va) => j < |s.tlb|
    case Access(j) =>
      && j < |s.app| == |s.tlb| && s.app[j].Wants? && s.app[j].op.va in s.tlb[j]
      && (s.app[j].op.Write? ==> s.tlb[j][s.app[j].op.va].writable)
    case Fault(j) =>
      && j < |s.app| && s.app[j].Wants? && s.app[j].op.Write? && s.app[j].op.va in s.pt
      && s.pt[s.app[j].op.va].mapped && !s.pt[s.app[j].op.va].writable
    case Wake(j) => j < |s.app| && s.app[j].Faulted? && s.app[j].op.va !in s.migrating
    case Begin(vas, dst) => s.phase.Quiet? && Batchable(s.pt, vas, dst)
    case FlagNext => s.phase.Flag?
    case ProtectNext => s.phase.Protect?
    case ShootNext => s.phase.Shoot?
    case CopyWord(k, word) => s.phase.Copy? && k < |s.vas| && word < s.words && (k, word) !in s.phase.done
    case CopyEnd => s.phase.Copy? && forall k, w {:trigger (k, w)} :: 0 <= k < |s.vas| && 0 <= w < s.words ==>
          (k, w) in s.phase.done
    case UnmapNext => s.phase.Unmap?
    case FlushNext => s.phase.Flush?
    case MapNext => s.phase.Map?
    case UnflagNext => s.phase.Unflag?
  }

  function Va(s: System, i: nat): nat { if i < |s.vas| then s.vas[i] else 0 }

  function Dst(s: System, i: nat): Frame { if i < |s.dst| then s.dst[i] else Frame(false, 0) }

  function PteOf(s: System, va: nat): Pte { if va in s.pt then s.pt[va] else Pte(Frame(false, 0), false, false) }

  function SetPte(s: System, va: nat, p: Pte): System { s.(pt := s.pt[va := p]) }

  /** Buffer j drops its entry for va. */
  function Drop(s: System, j: nat, va: nat): System {
    if j < |s.tlb| then s.(tlb := s.tlb[j := s.tlb[j] - {va}]) else s
  }

  function Do(s: System, a: Action): System
    requires Enabled(s, a)
  {
    match a
    case Issue(j, op) => s.(app := s.app[j := Wants(op)])
    case Fill(j, va) => s.(tlb := s.tlb[j := s.tlb[j][va := Entry(s.pt[va].frame, s.pt[va].writable)]])
    case Evict(j, va) => Drop(s, j, va)
    case Access(j) =>
      var op := s.app[j].op;
      var s1 := s.(app := s.app[j := Idle]);
      if op.Read? then s1 else s1.(mem := s.mem[Cell(s.tlb[j][op.va].frame, op.word) := op.value])
    case Fault(j) => s.(app := s.app[j := Faulted(s.app[j].op)])
    case Wake(j) => s.(app := s.app[j := Wants(s.app[j].op)])
    case Begin(vas, dst) => s.(vas := vas, dst := dst, phase := Flag(0))
    case FlagNext =>
      var i := s.phase.i;
      if i >= |s.vas| then s.(phase := Protect(0)) else s.(migrating := s.migrating + {Va(s, i)}, phase := Flag(i + 1))
    case ProtectNext =>
      var i := s.phase.i;
      if i >= |s.vas| then s.(phase := Copy({}))
      else SetPte(s, Va(s, i), PteOf(s, Va(s, i)).(writable := false)).(phase := Shoot(i, 0))
    case ShootNext =>
      var i, j := s.phase.i, s.phase.j;
      if j >= |s.tlb| then s.(phase := Protect(i + 1)) else Drop(s, j, Va(s, i)).(phase := Shoot(i, j + 1))
    case CopyWord(k, word) =>
      var src := Cell(PteOf(s, Va(s, k)).frame, word);
      s.(mem := s.mem[Cell(Dst(s, k), word) := Peek(s.mem, src)], phase := Copy(s.phase.done + {(k, word)}))
    case CopyEnd => s.(phase := Unmap(0))
    case UnmapNext =>
      var i := s.phase.i;
      if i >= |s.vas| then s.(phase := Unflag(0))
      else SetPte(s, Va(s, i), PteOf(s, Va(s, i)).(mapped := false)).(phase := Flush(i, 0))
    case FlushNext =>
      var i, j := s.phase.i, s.phase.j;
      if j >= |s.tlb| then s.(phase := Map(i)) else Drop(s, j, Va(s, i)).(phase := Flush(i, j + 1))
    case MapNext =>
      var i := s.phase.i;
      SetPte(s, Va(s, i), Pte(Dst(s, i), true, true)).(phase := Unmap(i + 1))
    case UnflagNext =>
      var i := s.phase.i;
      if i >= |s.vas| then s.(phase := Quiet) else s.(migrating := s.migrating - {Va(s, i)}, phase := Unflag(i + 1))
  }

  /** What a step lets the application observe. */
  function Observed(s: System, a: Action): seq<Event>
    requires Enabled(s, a)
  {
    if !a.Access? then []
    else
      var op := s.app[a.j].op;
      if op.Read? then [DidRead(a.j, op.va, op.word, Peek(s.mem, Cell(s.tlb[a.j][op.va].frame, op.word)))]
      else [DidWrite(a.j, op.va, op.word, op.value)]
  }

  /* ---- What holds in every reachable state ---- */

  /** Page k of the batch is write-protected, and still has the frame it came with. */
  predicate Locked(p: Phase, k: nat) {
    match p
    case Protect(i) => k < i
    case Shoot(i, _) => k < i
    case Copy(_) => true
    case Unmap(i) => k >= i
    case Flush(i, _) => k >= i
    case Map(i) => k >= i
    case _ => false
  }

  /** Page k still has to be remapped. */
  predicate Pending(p: Phase, k: nat) {
    match p
    case Quiet => false
    case Unmap(i) => k >= i
    case Flush(i, _) => k >= i
    case Map(i) => k >= i
    case Unflag(_) => false
    case _ => true
  }

  /** Word w of page k has been copied and page k not been remapped yet. */
  predicate Copied(p: Phase, k: nat, w: nat) {
    match p
    case Copy(done) => (k, w) in done
    case Unmap(i) => k >= i
    case Flush(i, _) => k >= i
    case Map(i) => k >= i
    case _ => false
  }

  /** Page k has been remapped. */
  predicate Remapped(p: Phase, k: nat) {
    match p
    case Unmap(i) => k < i
    case Flush(i, _) => k < i
    case Map(i) => k < i
    case Unflag(_) => true
    case _ => false
  }

  /** Page k is marked as migrating. */
  predicate Marked(p: Phase, k: nat) {
    match p
    case Quiet => false
    case Flag(i) => k < i
    case Unflag(i) => k >= i
    case _ => true
  }

  /** The position a phase is at is within the batch. */
  predicate Within(p: Phase, n: nat) {
    match p
    case Flag(i) => i <= n
    case Protect(i) => i <= n
    case Shoot(i, _) => i < n
    case Unmap(i) => i <= n
    case Flush(i, _) => i < n
    case Map(i) => i < n
    case Unflag(i) => i <= n
    case _ => true
  }

  /** A buffer may still hold a writable entry for va after its write-protection: its turn to be flushed is to come. */
  predicate MayWrite(s: System, j: nat, va: nat) {
    PteOf(s, va).writable || (s.phase.Shoot? && va == Va(s, s.phase.i) && j >= s.phase.j)
  }

  /** Two addresses never share a frame. */
  ghost predicate Injective(pt: map<nat, Pte>) {
    forall u, v {:trigger pt[u], pt[v]} :: u in pt && v in pt && u != v ==> pt[u].frame != pt[v].frame
  }

  /** A buffer entry has the frame of the page table, and is writable only where it may be. */
  ghost predicate EntryOk(s: System, j: nat, va: nat) {
    j < |s.tlb| && va in s.tlb[j] ==>
      && va in s.pt && s.tlb[j][va].frame == s.pt[va].frame
      && (s.tlb[j][va].writable ==> MayWrite(s, j, va))
      && (s.phase.Flush? ==> va != Va(s, s.phase.i) || j >= s.phase.j)
      && (s.phase.Map? ==> va != Va(s, s.phase.i))
  }

  ghost predicate Buffers(s: System) {
    forall j, va {:trigger EntryOk(s, j, va)} :: 0 <= j < |s.tlb| ==> EntryOk(s, j, va)
  }

  /** Page k of the batch, as far as it has come. */
  ghost predicate PageOk(s: System, k: nat) {
    k < |s.vas| == |s.dst| ==>
      && s.vas[k] in s.pt
      && (Locked(s.phase, k) ==> !s.pt[s.vas[k]].writable)
      && (s.phase.Shoot? && s.phase.i == k ==> !s.pt[s.vas[k]].writable)
      && ((s.phase.Flush? || s.phase.Map?) && s.phase.i == k ==> !s.pt[s.vas[k]].mapped)
      && (Pending(s.phase, k) ==> Unused(s.pt, s.dst[k]))
      && (Remapped(s.phase, k) ==> s.pt[s.vas[k]] == Pte(s.dst[k], true, true))
      && (Marked(s.phase, k) ==> s.vas[k] in s.migrating)
      && (forall w {:trigger Copied(s.phase, k, w)} :: 0 <= w < s.words && Copied(s.phase, k, w) ==>
            Peek(s.mem, Cell(s.dst[k], w)) == Peek(s.mem, Cell(s.pt[s.vas[k]].frame, w)))
  }

  ghost predicate Pages(s: System) {
    && (!s.phase.Quiet? ==> |s.vas| == |s.dst| && NoRepeats(s.vas) && NoRepeats(s.dst) && Within(s.phase, |s.vas|))
    && (!s.phase.Quiet? ==> forall k {:trigger PageOk(s, k)} :: 0 <= k < |s.vas| ==> PageOk(s, k))
  }

  /** va is page k of the batch, and that page is, or is being, write-protected. */
  ghost predicate Protects(s: System, k: int, va: nat) {
    0 <= k < |s.vas| && s.vas[k] == va && (Locked(s.phase, k) || (s.phase.Shoot? && s.phase.i == k))
  }

  ghost predicate Marks(s: System, k: int, va: nat) {
    0 <= k < |s.vas| && s.vas[k] == va && Marked(s.phase, k)
  }

  /** An address that is unmapped, protected or marked belongs to a page of the batch whose turn explains it. */
  ghost predicate VaOk(s: System, va: nat) {
    va in s.pt ==>
      && (!s.pt[va].writable ==> exists k {:trigger Protects(s, k, va)} :: Protects(s, k, va))
      && (!s.pt[va].mapped ==> !s.pt[va].writable && (s.phase.Flush? || s.phase.Map?) && va == Va(s, s.phase.i))
  }

  ghost predicate Addresses(s: System) {
    && (forall va {:trigger VaOk(s, va)} :: va in s.pt ==> VaOk(s, va))
    && (forall va {:trigger va in s.migrating} :: va in s.migrating ==>
          exists k {:trigger Marks(s, k, va)} :: Marks(s, k, va))
    && (forall j {:trigger s.app[j]} :: 0 <= j < |s.app| && !s.app[j].Idle? ==>
          s.app[j].op.va in s.pt && s.app[j].op.word < s.words)
  }

  ghost predicate Inv(s: System) {
    |s.app| == |s.tlb| && Injective(s.pt) && Buffers(s) && Pages(s) && Addresses(s)
  }

  /* ---- Plain memory ---- */

  /** Memory without frames, page tables or migrations, by address and word. */
  ghost predicate Legal(m: PlainMemory, e: Event) {
    e.DidRead? ==> e.value == Peek(m, Cell(e.va, e.word))
  }

  ghost function Apply(m: PlainMemory, e: Event): PlainMemory {
    if e.DidWrite? then m[Cell(e.va, e.word) := e.value] else m
  }

  /** The application finds at every address what plain memory m holds there. */
  ghost predicate Looks(s: System, m: PlainMemory) {
    forall va, w {:trigger Cell(va, w)} :: va in s.pt && 0 <= w < s.words ==>
      Peek(m, Cell(va, w)) == Peek(s.mem, Cell(s.pt[va].frame, w))
  }

  /* ---- Steps of the application ---- */

  ghost predicate OpsOk(s: System) {
    forall j {:trigger s.app[j]} :: 0 <= j < |s.app| && !s.app[j].Idle? ==>
          s.app[j].op.va in s.pt && s.app[j].op.word < s.words
  }

  /** Page table, batch and memory are as they were. */
  lemma KernelKept(s: System, s': System)
    requires Pages(s) && Addresses(s) && s' == s.(app := s'.app, tlb := s'.tlb) && |s'.app| == |s.app| && OpsOk(s')
    ensures Pages(s') && Addresses(s')
  {
    forall k | 0 <= k < |s'.vas| && !s'.phase.Quiet? ensures PageOk(s', k) {
      assert PageOk(s, k);
    }
    forall va | va in s'.pt ensures VaOk(s', va) {
      assert VaOk(s, va);
      if !s'.pt[va].writable {
        var k :| Protects(s, k, va);
        assert Protects(s', k, va);
      }
    }
    forall va | va in s'.migrating ensures exists k {:trigger Marks(s', k, va)} :: Marks(s', k, va) {
      var k :| Marks(s, k, va);
      assert Marks(s', k, va);
    }
  }

  lemma AppInv(s: System, a: Action)
    requires Inv(s) && Enabled(s, a) && (a.Issue? || a.Fault? || a.Wake? || (a.Access? && s.app[a.j].op.Read?))
    ensures Inv(Do(s, a))
  {
    var s' := Do(s, a);
    KernelKept(s, s');
    hide Pages;
    hide Addresses;
    forall j, va | 0 <= j < |s'.tlb| ensures EntryOk(s', j, va) {
      assert EntryOk(s, j, va);
    }
  }

  lemma FillInv(s: System, j: nat, va: nat)
    requires Inv(s) && Enabled(s, Fill(j, va))
    ensures Inv(Do(s, Fill(j, va)))
  {
    var s' := Do(s, Fill(j, va));
    KernelKept(s, s');
    if s.phase.Flush? || s.phase.Map? {
      assert PageOk(s, s.phase.i);
    }
    forall i, u | 0 <= i < |s'.tlb| ensures EntryOk(s', i, u) {
      assert EntryOk(s, i, u);
    }
  }

  lemma EvictInv(s: System, j: nat, va: nat)
    requires Inv(s) && Enabled(s, Evict(j, va))
    ensures Inv(Do(s, Evict(j, va)))
  {
    var s' := Do(s, Evict(j, va));
    KernelKept(s, s');
    forall i, u | 0 <= i < |s'.tlb| ensures EntryOk(s', i, u) {
      assert EntryOk(s, i, u);
    }
  }

  /** What a buffer entry tells of its page: its frame is the current one, and if it is writable the page is not being
      copied or remapped. */
  lemma EntryTells(s: System, j: nat, va: nat)
    requires Inv(s) && j < |s.tlb| && va in s.tlb[j]
    ensures va in s.pt && s.tlb[j][va].frame == s.pt[va].frame
    ensures s.tlb[j][va].writable ==> forall k :: 0 <= k < |s.vas| && s.vas[k] == va ==> !Locked(s.phase, k)
  {
    assert EntryOk(s, j, va);
    if s.tlb[j][va].writable && !s.phase.Quiet? {
      forall k | 0 <= k < |s.vas| && s.vas[k] == va ensures !Locked(s.phase, k) {
        assert PageOk(s, k);
      }
    }
  }

  /** A write lands in the frame of its page, where no copy is being made from or to. */
  lemma WriteInv(s: System, j: nat)
    requires Inv(s) && Enabled(s, Access(j)) && s.app[j].op.Write?
    ensures Inv(Do(s, Access(j)))
  {
    var s', va := Do(s, Access(j)), s.app[j].op.va;
    EntryTells(s, j, va);
    forall i, u | 0 <= i < |s'.tlb| ensures EntryOk(s', i, u) {
      assert EntryOk(s, i, u);
    }
    forall k | 0 <= k < |s'.vas| && !s'.phase.Quiet? ensures PageOk(s', k) {
      assert PageOk(s, k);
      assert s.vas[k] != va ==> s.pt[s.vas[k]].frame != s.pt[va].frame;
    }
    forall u | u in s'.pt ensures VaOk(s', u) {
      assert VaOk(s, u);
      if !s'.pt[u].writable {
        var k :| Protects(s, k, u);
        assert Protects(s', k, u);
      }
    }
    forall u | u in s'.migrating ensures exists k {:trigger Marks(s', k, u)} :: Marks(s', k, u) {
      var k :| Marks(s, k, u);
      assert Marks(s', k, u);
    }
  }

  /* ---- Steps of the migration thread ---- */

  lemma BeginInv(s: System, vas: seq<nat>, dst: seq<Frame>)
    requires Inv(s) && Enabled(s, Begin(vas, dst))
    ensures Inv(Do(s, Begin(vas, dst)))
  {
    var s' := Do(s, Begin(vas, dst));
    forall j, u | 0 <= j < |s'.tlb| ensures EntryOk(s', j, u) {
      assert EntryOk(s, j, u);
    }
    forall u | u in s'.pt ensures VaOk(s', u) {
      assert VaOk(s, u);
      assert forall k :: !Protects(s, k, u);
    }
    assert forall u, k {:trigger Marks(s, k, u)} :: !Marks(s, k, u);
    assert s.migrating == {};
  }

  /** Marking and unmarking a page. */
  lemma FlagInv(s: System, a: Action)
    requires Inv(s) && Enabled(s, a) && (a.FlagNext? || a.UnflagNext?)
    ensures Inv(Do(s, a))
  {
    var s' := Do(s, a);
    forall j, u | 0 <= j < |s'.tlb| ensures EntryOk(s', j, u) {
      assert EntryOk(s, j, u);
    }
    forall k | 0 <= k < |s'.vas| && !s'.phase.Quiet? ensures PageOk(s', k) {
      assert PageOk(s, k);
    }
    forall u | u in s'.pt ensures VaOk(s', u) {
      assert VaOk(s, u);
      assert forall k :: !Protects(s, k, u);
    }
    forall u | u in s'.migrating ensures exists k {:trigger Marks(s', k, u)} :: Marks(s', k, u) {
      if u in s.migrating {
        var k :| Marks(s, k, u);
        assert Marks(s', k, u);
      } else {
        assert Marks(s', s.phase.i, u);
      }
    }
  }

  /** Steps that only advance the phase. */
  lemma TurnInv(s: System, a: Action)
    requires Inv(s) && Enabled(s, a) && (a.CopyEnd?
             || (a.ProtectNext? && s.phase.i >= |s.vas|) || (a.UnmapNext? && s.phase.i >= |s.vas|)
             || (a.ShootNext? && s.phase.j >= |s.tlb|) || (a.FlushNext? && s.phase.j >= |s.tlb|))
    ensures Inv(Do(s, a))
  {
    var s' := Do(s, a);
    forall j, u | 0 <= j < |s'.tlb| ensures EntryOk(s', j, u) {
      assert EntryOk(s, j, u);
    }
    forall k | 0 <= k < |s'.vas| ensures PageOk(s', k) {
      assert PageOk(s, k);
      forall w | 0 <= w < s'.words && Copied(s'.phase, k, w) ensures Copied(s.phase, k, w) {
        if a.CopyEnd? {
          assert (k, w) in s.phase.done;
        }
      }
    }
    forall u | u in s'.pt ensures VaOk(s', u) {
      assert VaOk(s, u);
      if !s'.pt[u].writable {
        var k :| Protects(s, k, u);
        assert PageOk(s, k) && Protects(s', k, u);
      }
    }
    forall u | u in s'.migrating ensures exists k {:trigger Marks(s', k, u)} :: Marks(s', k, u) {
      var k :| Marks(s, k, u);
      assert Marks(s', k, u);
    }
  }

  /** Write-protecting page i, or unmapping it. */
  lemma PteInv(s: System, a: Action)
    requires Inv(s) && Enabled(s, a) &&
             ((a.ProtectNext? && s.phase.i < |s.vas|) || (a.UnmapNext? && s.phase.i < |s.vas|))
    ensures Inv(Do(s, a))
  {
    var s' := Do(s, a);
    assert PageOk(s, s.phase.i);
    forall j, u | 0 <= j < |s'.tlb| ensures EntryOk(s', j, u) {
      assert EntryOk(s, j, u);
    }
    forall k | 0 <= k < |s'.vas| ensures PageOk(s', k) {
      assert PageOk(s, k);
      assert s.phase.i != k ==> s.vas[s.phase.i] != s.vas[k];
      forall w | 0 <= w < s.words && Copied(s'.phase, k, w) ensures Copied(s.phase, k, w) {
      }
    }
    forall u | u in s'.pt ensures VaOk(s', u) {
      assert VaOk(s, u);
      if u == Va(s, s.phase.i) {
        assert Protects(s', s.phase.i, u);
      } else if !s'.pt[u].writable {
        var k :| Protects(s, k, u);
        assert Protects(s', k, u);
      }
    }
    forall u | u in s'.migrating ensures exists k {:trigger Marks(s', k, u)} :: Marks(s', k, u) {
      var k :| Marks(s, k, u);
      assert Marks(s', k, u);
    }
  }

  /** Dropping one buffer's entry for page i. */
  lemma DropInv(s: System, a: Action)
    requires Inv(s) && Enabled(s, a) && ((a.ShootNext? && s.phase.j < |s.tlb|) || (a.FlushNext? && s.phase.j < |s.tlb|))
    ensures Inv(Do(s, a))
  {
    var s' := Do(s, a);
    forall j, u | 0 <= j < |s'.tlb| ensures EntryOk(s', j, u) {
      assert EntryOk(s, j, u);
    }
    forall k | 0 <= k < |s'.vas| ensures PageOk(s', k) {
      assert PageOk(s, k);
      forall w | 0 <= w < s.words && Copied(s'.phase, k, w) ensures Copied(s.phase, k, w) {
      }
    }
    forall u | u in s'.pt ensures VaOk(s', u) {
      assert VaOk(s, u);
      if !s'.pt[u].writable {
        var k :| Protects(s, k, u);
        assert Protects(s', k, u);
      }
    }
    forall u | u in s'.migrating ensures exists k {:trigger Marks(s', k, u)} :: Marks(s', k, u) {
      var k :| Marks(s, k, u);
      assert Marks(s', k, u);
    }
  }

  /** Copying one word: it comes from a frame that is not written to and goes to one that no page has. */
  lemma CopyInv(s: System, k: nat, word: nat)
    requires Inv(s) && Enabled(s, CopyWord(k, word))
    ensures Inv(Do(s, CopyWord(k, word)))
  {
    var s' := Do(s, CopyWord(k, word));
    assert PageOk(s, k);
    forall j, u | 0 <= j < |s'.tlb| ensures EntryOk(s', j, u) {
      assert EntryOk(s, j, u);
    }
    forall h | 0 <= h < |s'.vas| ensures PageOk(s', h) {
      assert PageOk(s, h);
      assert h != k ==> s.dst[h] != s.dst[k];
      forall w | 0 <= w < s.words && Copied(s'.phase, h, w) ensures Copied(s.phase, h, w) || (h == k && w == word) {
      }
    }
    forall u | u in s'.pt ensures VaOk(s', u) {
      assert VaOk(s, u);
      if !s'.pt[u].writable {
        var h :| Protects(s, h, u);
        assert Protects(s', h, u);
      }
    }
    forall u | u in s'.migrating ensures exists h {:trigger Marks(s', h, u)} :: Marks(s', h, u) {
      var h :| Marks(s, h, u);
      assert Marks(s', h, u);
    }
  }

  /** The remapping of page i: no buffer has an entry for it, and its new frame is nobody else's. */
  lemma MapInv(s: System)
    requires Inv(s) && Enabled(s, MapNext)
    ensures Inv(Do(s, MapNext))
  {
    var s', i := Do(s, MapNext), s.phase.i;
    assert PageOk(s, i);
    forall j, u | 0 <= j < |s'.tlb| ensures EntryOk(s', j, u) {
      assert EntryOk(s, j, u);
    }
    forall k | 0 <= k < |s'.vas| ensures PageOk(s', k) {
      assert PageOk(s, k);
      assert i != k ==> s.vas[i] != s.vas[k] && s.dst[i] != s.dst[k];
      forall w | 0 <= w < s.words && Copied(s'.phase, k, w) ensures Copied(s.phase, k, w) {
      }
    }
    forall u | u in s'.pt ensures VaOk(s', u) {
      assert VaOk(s, u);
      if !s'.pt[u].writable {
        var k :| Protects(s, k, u);
        assert Protects(s', k, u);
      }
    }
    forall u | u in s'.migrating ensures exists k {:trigger Marks(s', k, u)} :: Marks(s', k, u) {
      var k :| Marks(s, k, u);
      assert Marks(s', k, u);
    }
  }

  lemma StepInv(s: System, a: Action)
    requires Inv(s) && Enabled(s, a)
    ensures Inv(Do(s, a))
  {
    hide Inv;
    match a
    case Fill(j, va) => FillInv(s, j, va);
    case Evict(j, va) => EvictInv(s, j, va);
    case Access(j) =>
      if s.app[j].op.Read? {
        AppInv(s, a);
      } else {
        WriteInv(s, j);
      }
    case Begin(vas, dst) => BeginInv(s, vas, dst);
    case FlagNext => FlagInv(s, a);
    case UnflagNext => FlagInv(s, a);
    case CopyEnd => TurnInv(s, a);
    case ProtectNext =>
      if s.phase.i >= |s.vas| {
        TurnInv(s, a);
      } else {
        PteInv(s, a);
      }
    case UnmapNext =>
      if s.phase.i >= |s.vas| {
        TurnInv(s, a);
      } else {
        PteInv(s, a);
      }
    case ShootNext =>
      if s.phase.j >= |s.tlb| {
        TurnInv(s, a);
      } else {
        DropInv(s, a);
      }
    case FlushNext =>
      if s.phase.j >= |s.tlb| {
        TurnInv(s, a);
      } else {
        DropInv(s, a);
      }
    case CopyWord(k, word) => CopyInv(s, k, word);
    case MapNext => MapInv(s);
    case _ => AppInv(s, a);
  }

  /* ---- The application sees plain memory ---- */

  /** One step: what the application observes is what plain memory does, and afterwards it finds what plain memory
      holds. */
  lemma StepLooks(s: System, a: Action, m: PlainMemory)
    requires Inv(s) && Enabled(s, a) && Looks(s, m)
    ensures var es := Observed(s, a);
            && |es| <= 1 && (es != [] ==> Legal(m, es[0]))
            && Looks(Do(s, a), if es == [] then m else Apply(m, es[0]))
  {
    match a
    case Access(j) => AccessLooks(s, j, m);
    case CopyWord(k, word) =>
      assert PageOk(s, k);
    case MapNext => MapLooks(s, m);
    case ProtectNext =>
      if s.phase.i < |s.vas| {
        assert PageOk(s, s.phase.i);
      }
    case UnmapNext =>
      if s.phase.i < |s.vas| {
        assert PageOk(s, s.phase.i);
      }
    case _ =>
  }

  lemma AccessLooks(s: System, j: nat, m: PlainMemory)
    requires Inv(s) && Enabled(s, Access(j)) && Looks(s, m)
    ensures var es := Observed(s, Access(j));
            |es| == 1 && Legal(m, es[0]) && Looks(Do(s, Access(j)), Apply(m, es[0]))
  {
    var op := s.app[j].op;
    EntryTells(s, j, op.va);
    assert op.va in s.pt && op.word < s.words;
    assert Peek(m, Cell(op.va, op.word)) == Peek(s.mem, Cell(s.pt[op.va].frame, op.word));
  }

  /** The remapping changes nothing: the new frame holds what the old one does. */
  lemma MapLooks(s: System, m: PlainMemory)
    requires Inv(s) && Enabled(s, MapNext) && Looks(s, m)
    ensures Looks(Do(s, MapNext), m)
  {
    var s', i := Do(s, MapNext), s.phase.i;
    assert PageOk(s, i);
    forall va, w | va in s'.pt && 0 <= w < s'.words
      ensures Peek(m, Cell(va, w)) == Peek(s'.mem, Cell(s'.pt[va].frame, w))
    {
      assert Peek(m, Cell(va, w)) == Peek(s.mem, Cell(s.pt[va].frame, w));
      assert Copied(s.phase, i, w);
    }
  }

  ghost predicate Possible(s: System, run: seq<Action>)
    decreases |run|
  {
    run == [] || (Enabled(s, run[0]) && Possible(Do(s, run[0]), run[1..]))
  }

  ghost function After(s: System, run: seq<Action>): System
    requires Possible(s, run)
    decreases |run|
  {
    if run == [] then s else After(Do(s, run[0]), run[1..])
  }

  /** Everything the application observes in a run. */
  ghost function Trace(s: System, run: seq<Action>): seq<Event>
    requires Possible(s, run)
    decreases |run|
  {
    if run == [] then [] else Observed(s, run[0]) + Trace(Do(s, run[0]), run[1..])
  }

  /** A history of plain memory. */
  ghost predicate PlainHistory(m: PlainMemory, events: seq<Event>)
    decreases |events|
  {
    events == [] || (Legal(m, events[0]) && PlainHistory(Apply(m, events[0]), events[1..]))
  }

  ghost function PlainAfter(m: PlainMemory, events: seq<Event>): PlainMemory
    decreases |events|
  {
    if events == [] then m else PlainAfter(Apply(m, events[0]), events[1..])
  }

  /** Migration hides itself: however reads, writes, faults and buffer fills of any number of threads interleave with
      any number of batches, what the application observes is a history of plain memory, and in the end every address
      holds what that history leaves there. */
  lemma {:induction false} Hidden(s: System, run: seq<Action>, m: PlainMemory)
    requires Inv(s) && Looks(s, m) && Possible(s, run)
    ensures Inv(After(s, run)) && PlainHistory(m, Trace(s, run)) && Looks(After(s, run), PlainAfter(m, Trace(s, run)))
    decreases |run|
  {
    hide Inv;
    hide Looks;
    hide Enabled;
    hide Do;
    hide Observed;
    hide Legal;
    hide Apply;
    if run == [] {
    } else {
      var a := run[0];
      var es, s1 := Observed(s, a), Do(s, a);
      StepInv(s, a);
      StepLooks(s, a, m);
      Hidden(s1, run[1..], if es == [] then m else Apply(m, es[0]));
      if es == [] {
        assert es + Trace(s1, run[1..]) == Trace(s1, run[1..]);
      } else {
        assert (es + Trace(s1, run[1..]))[1..] == Trace(s1, run[1..]);
      }
    }
  }

  /** The application has just mapped its pages, zeroed and writable, each to a frame of its own. */
  ghost predicate Fresh(s: System) {
    && s.phase.Quiet? && s.migrating == {} && |s.app| == |s.tlb| && Injective(s.pt)
    && (forall va :: va in s.pt ==> s.pt[va].mapped && s.pt[va].writable)
    && (forall j :: 0 <= j < |s.tlb| ==> s.tlb[j] == map[]) && (forall j :: 0 <= j < |s.app| ==> s.app[j] == Idle)
    && s.mem == map[]
  }

  lemma FreshInv(s: System)
    requires Fresh(s)
    ensures Inv(s) && Looks(s, map[])
  {
    forall va | va in s.pt ensures VaOk(s, va) {
    }
  }

  /** From pages just mapped: the application cannot tell that there are migrations. */
  lemma HiddenFromTheStart(s: System, run: seq<Action>)
    requires Fresh(s) && Possible(s, run)
    ensures PlainHistory(map[], Trace(s, run)) && Looks(After(s, run), PlainAfter(map[], Trace(s, run)))
  {
    FreshInv(s);
    Hidden(s, run, map[]);
  }

  /* ---- What becomes of an operation ---- */

  /** The operation thread j has issued and not yet carried out. */
  function InHand(s: System, j: nat): seq<Op> {
    if j < |s.app| && !s.app[j].Idle? then [s.app[j].op] else []
  }

  function OpOf(e: Event): Op {
    if e.DidRead? then Read(e.va, e.word) else Write(e.va, e.word, e.value)
  }

  /** The operations that thread j issues in a run. */
  function Issued(run: seq<Action>, j: nat): seq<Op> {
    if run == [] then []
    else (if run[0].Issue? && run[0].j == j then [run[0].op] else []) + Issued(run[1..], j)
  }

  /** The operations that thread j has been seen to carry out. */
  function CarriedOut(events: seq<Event>, j: nat): seq<Op> {
    if events == [] then []
    else (if events[0].j == j then [OpOf(events[0])] else []) + CarriedOut(events[1..], j)
  }

  /** Only a thread's own issuing and accessing changes what it has in hand: no fault, no waking, no step of another
      thread and none of a migration does. */
  lemma OnlyItsOwn(s: System, a: Action, j: nat)
    requires Enabled(s, a) && !((a.Issue? || a.Access?) && a.j == j)
    ensures InHand(Do(s, a), j) == InHand(s, j)
  {
  }

  /** One step: what was in hand or is issued has been carried out or is in hand. */
  lemma StepCarries(s: System, a: Action, j: nat)
    requires Enabled(s, a)
    ensures InHand(s, j) + Issued([a], j) == CarriedOut(Observed(s, a), j) + InHand(Do(s, a), j)
  {
    if (a.Issue? || a.Access?) && a.j == j {
      assert [a][1..] == [];
    } else {
      OnlyItsOwn(s, a, j);
      assert [a][1..] == [] && CarriedOut(Observed(s, a), j) == [];
      assert InHand(s, j) + [] == InHand(s, j) == [] + InHand(Do(s, a), j);
    }
  }

  lemma {:induction false} CarriedOutJoined(d: seq<Event>, e: seq<Event>, j: nat)
    ensures CarriedOut(d + e, j) == CarriedOut(d, j) + CarriedOut(e, j)
  {
    hide OpOf;
    if d == [] {
      assert d + e == e;
    } else {
      assert (d + e)[1..] == d[1..] + e;
      CarriedOutJoined(d[1..], e, j);
      Assoc(if d[0].j == j then [OpOf(d[0])] else [], CarriedOut(d[1..], j), CarriedOut(e, j));
    }
  }

  lemma IssuedFirst(run: seq<Action>, j: nat)
    requires run != []
    ensures Issued(run, j) == Issued([run[0]], j) + Issued(run[1..], j)
  {
    assert [run[0]][1..] == [];
  }

  /** In every run, beside any number of batches, each thread carries out the operations it issues, each once and in
      the order of issue, but for the last, which it may still have in hand. */
  lemma {:induction false} EachOnceInOrder(s: System, run: seq<Action>, j: nat)
    requires Possible(s, run)
    ensures InHand(s, j) + Issued(run, j) == CarriedOut(Trace(s, run), j) + InHand(After(s, run), j)
    decreases |run|
  {
    hide Enabled;
    hide Do;
    hide Observed;
    hide InHand;
    hide CarriedOut;
    if run == [] {
      NothingIssued(s, j);
    } else {
      var a, s1, rest := run[0], Do(s, run[0]), run[1..];
      var first, later := Observed(s, a), Trace(s1, rest);
      StepCarries(s, a, j);
      EachOnceInOrder(s1, rest, j);
      IssuedFirst(run, j);
      CarriedOutJoined(first, later, j);
      Assoc(InHand(s, j), Issued([a], j), Issued(rest, j));
      Assoc(CarriedOut(first, j), InHand(s1, j), Issued(rest, j));
      Assoc(CarriedOut(first, j), CarriedOut(later, j), InHand(After(s, run), j));
    }
  }

  lemma NothingIssued(s: System, j: nat)
    ensures InHand(s, j) + Issued([], j) == CarriedOut([], j) + InHand(s, j)
  {
  }

  lemma EachOnceFromTheStart(s: System, run: seq<Action>, j: nat)
    requires Fresh(s) && Possible(s, run)
    ensures Issued(run, j) == CarriedOut(Trace(s, run), j) + InHand(After(s, run), j)
  {
    EachOnceInOrder(s, run, j);
    assert InHand(s, j) + Issued(run, j) == Issued(run, j);
  }

  /** A thread that has faulted does nothing until it is woken, whatever the others do. */
  lemma WaitsForWaking(s: System, a: Action, j: nat)
    requires Enabled(s, a) && j < |s.app|
    ensures |Do(s, a).app| == |s.app|
    ensures a == Fault(j) ==> Do(s, a).app[j].Faulted?
    ensures s.app[j].Faulted? && a != Wake(j) ==> Do(s, a).app[j] == s.app[j]
  {
  }

  /** What a thread with an operation in hand can do: access memory once its buffer has the entry, unless its page is
      being remapped; fault if it is to write to a protected page; and wake up when its page is not marked. */
  lemma NeverStranded(s: System, j: nat)
    requires Inv(s) && j < |s.app| && !s.app[j].Idle?
    ensures s.app[j].op.va in s.pt
    ensures var op := s.app[j].op;
            var p := s.pt[op.va];
            if s.app[j].Faulted? then op.va in s.migrating || Enabled(s, Wake(j))
            else if !p.mapped then !s.phase.Quiet?
            else if op.Read? || p.writable
            then Enabled(s, Fill(j, op.va)) && Enabled(Do(s, Fill(j, op.va)), Access(j))
            else Enabled(s, Fault(j))
  {
    hide Injective;
    hide Buffers;
    hide Pages;
    assert VaOk(s, s.app[j].op.va);
  }

  /** Between batches all pages are mapped, writable and unmarked. */
  lemma AllSettled(s: System)
    requires Inv(s) && s.phase.Quiet?
    ensures s.migrating == {} && forall va :: va in s.pt ==> s.pt[va].mapped && s.pt[va].writable
  {
    hide Injective;
    hide Buffers;
    forall va | va in s.pt ensures s.pt[va].mapped && s.pt[va].writable {
      assert VaOk(s, va);
      assert forall k :: !Protects(s, k, va);
    }
    assert forall va, k {:trigger Marks(s, k, va)} :: !Marks(s, k, va);
  }

  /** An operation as it will be seen: carried out by thread j. */
  ghost predicate SeenAs(e: Event, j: nat, op: Op) { e.j == j && OpOf(e) == op }

  lemma AccessCompletes(s: System, j: nat) returns (e: Event)
    requires Enabled(s, Access(j))
    ensures Possible(s, [Access(j)]) && Trace(s, [Access(j)]) == [e] && SeenAs(e, j, s.app[j].op)
    ensures After(s, [Access(j)]).app == s.app[j := Idle]
  {
    assert [Access(j)][1..] == [];
    e := Observed(s, Access(j))[0];
    assert Trace(Do(s, Access(j)), []) == [];
  }

  lemma Silent(s: System, a: Action, run: seq<Action>)
    requires Enabled(s, a) && !a.Access? && Possible(Do(s, a), run)
    ensures Possible(s, [a] + run) && Trace(s, [a] + run) == Trace(Do(s, a), run)
    ensures After(s, [a] + run) == After(Do(s, a), run)
  {
    assert ([a] + run)[1..] == run;
    assert [] + Trace(Do(s, a), run) == Trace(Do(s, a), run);
  }

  /** Between batches a thread can carry out what it has in hand, be it waiting to be woken or not. */
  lemma CanComplete(s: System, j: nat) returns (run: seq<Action>, e: Event)
    requires Inv(s) && s.phase.Quiet? && j < |s.app| && !s.app[j].Idle?
    ensures Possible(s, run) && Trace(s, run) == [e] && SeenAs(e, j, s.app[j].op)
    ensures After(s, run).app == s.app[j := Idle]
  {
    hide Inv;
    hide Possible;
    hide Trace;
    hide After;
    AllSettled(s);
    NeverStranded(s, j);
    if s.app[j].Faulted? {
      var s1 := Do(s, Wake(j));
      StepInv(s, Wake(j));
      var rest;
      rest, e := CompletesAwake(s1, j);
      Silent(s, Wake(j), rest);
      run := [Wake(j)] + rest;
    } else {
      run, e := CompletesAwake(s, j);
    }
  }

  lemma CompletesAwake(s: System, j: nat) returns (run: seq<Action>, e: Event)
    requires Inv(s) && s.phase.Quiet? && j < |s.app| && s.app[j].Wants?
    ensures Possible(s, run) && Trace(s, run) == [e] && SeenAs(e, j, s.app[j].op)
    ensures After(s, run).app == s.app[j := Idle]
  {
    hide Inv;
    hide Possible;
    hide Trace;
    hide After;
    AllSettled(s);
    NeverStranded(s, j);
    var fill := Fill(j, s.app[j].op.va);
    e := AccessCompletes(Do(s, fill), j);
    Silent(s, fill, [Access(j)]);
    run := [fill] + [Access(j)];
  }

  /* ---- Stale frames, faults and progress ---- */

  /** Whenever an address is mapped every buffer entry for it has its present frame: after the remapping nobody uses the
      old one. */
  lemma NoStaleFrame(s: System, j: nat, va: nat)
    requires Inv(s) && j < |s.tlb| && va in s.tlb[j]
    ensures va in s.pt && s.tlb[j][va].frame == s.pt[va].frame
  {
    assert EntryOk(s, j, va);
  }

  /** A writer that faulted is woken when `migrating` is clear, and then finds its page mapped and writable, and has its
      write still to do. */
  lemma WokenCanWrite(s: System, j: nat)
    requires Inv(s) && Enabled(s, Wake(j))
    ensures var p := s.pt[s.app[j].op.va]; s.app[j].op.va in s.pt && p.mapped && p.writable
    ensures InHand(Do(s, Wake(j)), j) == InHand(s, j) && Do(s, Wake(j)).app[j].Wants?
  {
    var va := s.app[j].op.va;
    assert VaOk(s, va);
    forall k {:trigger Protects(s, k, va)} ensures !Protects(s, k, va) {
      assert !s.phase.Quiet? && 0 <= k < |s.vas| ==> PageOk(s, k);
    }
  }

  /** When the flags are being cleared every page of the batch has its new frame, mapped and writable. */
  lemma BatchMoved(s: System, k: nat)
    requires Inv(s) && s.phase.Unflag? && k < |s.vas|
    ensures s.vas[k] in s.pt && s.pt[s.vas[k]] == Pte(s.dst[k], true, true)
  {
    assert PageOk(s, k);
  }

  /** The page table after a batch. */
  ghost predicate Retabled(pt: map<nat, Pte>, pt': map<nat, Pte>, vas: seq<nat>, dst: seq<Frame>) {
    && |vas| == |dst| && pt'.Keys == pt.Keys
    && (forall k {:trigger vas[k]} {:trigger dst[k]} :: 0 <= k < |vas| ==>
          vas[k] in pt && pt'[vas[k]] == Pte(dst[k], true, true))
    && (forall va {:trigger pt'[va]} :: va in pt && va !in vas ==> pt'[va] == pt[va])
  }

  /** As far as a batch has come: pages outside it are untouched, and when it is over it has moved its own. */
  ghost predicate UnderWay(pt: map<nat, Pte>, s: System, vas: seq<nat>, dst: seq<Frame>) {
    && s.vas == vas && s.dst == dst && |vas| == |dst| && s.pt.Keys == pt.Keys &&
        (forall k :: 0 <= k < |vas| ==> vas[k] in pt)
    && (forall va {:trigger s.pt[va]} :: va in pt && va !in vas ==> s.pt[va] == pt[va])
    && (s.phase.Quiet? ==> Retabled(pt, s.pt, vas, dst))
  }

  lemma LastUnderWay(pt: map<nat, Pte>, s: System, vas: seq<nat>, dst: seq<Frame>)
    requires Inv(s) && Enabled(s, UnflagNext) && UnderWay(pt, s, vas, dst)
    ensures UnderWay(pt, Do(s, UnflagNext), vas, dst)
  {
    hide Injective;
    hide Buffers;
    hide Addresses;
    forall k | 0 <= k < |vas| ensures s.pt[vas[k]] == Pte(dst[k], true, true) {
      assert PageOk(s, k);
    }
  }

  lemma StepUnderWay(pt: map<nat, Pte>, s: System, a: Action, vas: seq<nat>, dst: seq<Frame>)
    requires Inv(s) && Enabled(s, a) && !a.Begin? && UnderWay(pt, s, vas, dst)
    ensures UnderWay(pt, Do(s, a), vas, dst)
  {
    hide Injective;
    hide Buffers;
    hide Addresses;
    hide PageOk;
    if a.UnflagNext? {
      LastUnderWay(pt, s, vas, dst);
    }
  }

  lemma {:induction false} RunUnderWay(pt: map<nat, Pte>, s: System, run: seq<Action>, vas: seq<nat>, dst: seq<Frame>)
    requires Inv(s) && Possible(s, run) && UnderWay(pt, s, vas, dst) && forall i :: 0 <= i < |run| ==> !run[i].Begin?
    ensures UnderWay(pt, After(s, run), vas, dst)
    decreases |run|
  {
    hide Inv;
    hide Enabled;
    hide Do;
    hide UnderWay;
    if run == [] {
    } else {
      StepInv(s, run[0]);
      StepUnderWay(pt, s, run[0], vas, dst);
      RunUnderWay(pt, Do(s, run[0]), run[1..], vas, dst);
    }
  }

  /** Whatever the application does in the meantime: when a batch is over its pages have their new frames, mapped and
      writable, and every other page has the entry it had. */
  lemma BatchRetables(s: System, vas: seq<nat>, dst: seq<Frame>, run: seq<Action>)
    requires Inv(s) && Enabled(s, Begin(vas, dst)) && Possible(Do(s, Begin(vas, dst)), run)
    requires forall i :: 0 <= i < |run| ==> !run[i].Begin?
    requires After(Do(s, Begin(vas, dst)), run).phase.Quiet?
    ensures Retabled(s.pt, After(Do(s, Begin(vas, dst)), run).pt, vas, dst)
  {
    StepInv(s, Begin(vas, dst));
    RunUnderWay(s.pt, Do(s, Begin(vas, dst)), run, vas, dst);
  }

  predicate ByMigration(a: Action) {
    a.FlagNext? || a.ProtectNext? || a.ShootNext? || a.CopyWord? || a.CopyEnd? || a.UnmapNext? || a.FlushNext?
    || a.MapNext? || a.UnflagNext?
  }

  /** The words of the batch. */
  ghost function AllWords(n: nat, words: nat): set<(nat, nat)> {
    set k, w | 0 <= k < n && 0 <= w < words :: (k, w)
  }

  function Left(n: nat, i: nat): nat { if i < n then n - i else 0 }

  /** How far the migration thread has to go. */
  ghost function ToGo(s: System): (nat, nat, nat) {
    var n, t := |s.vas|, |s.tlb|;
    match s.phase
    case Quiet => (0, 0, 0)
    case Flag(i) => (5, Left(n, i), 0)
    case Protect(i) => (4, Left(n, i), t + 2)
    case Shoot(i, j) => (4, Left(n, i), Left(t + 1, j))
    case Copy(done) => (3, |AllWords(n, s.words) - done|, 0)
    case Unmap(i) => (2, Left(n, i), t + 3)
    case Flush(i, j) => (2, Left(n, i), Left(t + 1, j) + 1)
    case Map(i) => (2, Left(n, i), 0)
    case Unflag(i) => (1, Left(n, i), 0)
  }

  predicate Less(a: (nat, nat, nat), b: (nat, nat, nat)) {
    a.0 < b.0 || (a.0 == b.0 && (a.1 < b.1 || (a.1 == b.1 && a.2 < b.2)))
  }

  lemma CopyProgress(s: System, k: nat, word: nat)
    requires Enabled(s, CopyWord(k, word))
    ensures Less(ToGo(Do(s, CopyWord(k, word))), ToGo(s))
  {
    var all, done := AllWords(|s.vas|, s.words), s.phase.done;
    assert (k, word) in all - done;
    assert all - (done + {(k, word)}) == (all - done) - {(k, word)};
  }

  lemma AppKeepsPlace(s: System, a: Action)
    requires Enabled(s, a) && !ByMigration(a) && !a.Begin?
    ensures var s' := Do(s, a); s'.phase == s.phase && s'.vas == s.vas && |s'.tlb| == |s.tlb| && s'.words == s.words
  {
  }

  /** Every step of the migration thread brings it nearer to the end of the batch, and no step of the application
      puts it back. */
  lemma Progress(s: System, a: Action)
    requires Inv(s) && Enabled(s, a) && !a.Begin?
    ensures if ByMigration(a) then Less(ToGo(Do(s, a)), ToGo(s)) else ToGo(Do(s, a)) == ToGo(s)
  {
    hide Buffers;
    hide Addresses;
    hide PageOk;
    hide AllWords;
    match a
    case CopyWord(k, word) => CopyProgress(s, k, word);
    case FlagNext =>
    case ProtectNext =>
    case ShootNext =>
    case CopyEnd =>
    case UnmapNext =>
    case FlushNext =>
    case MapNext =>
    case UnflagNext =>
    case _ => AppKeepsPlace(s, a);
  }

  /** And it always has a step to take. */
  lemma NeverStuck(s: System) returns (a: Action)
    requires Inv(s) && !s.phase.Quiet?
    ensures ByMigration(a) && Enabled(s, a)
  {
    match s.phase
    case Flag(_) => a := FlagNext;
    case Protect(_) => a := ProtectNext;
    case Shoot(_, _) => a := ShootNext;
    case Copy(done) =>
      if k: nat, w: nat {:trigger (k, w)} :| k < |s.vas| && w < s.words && (k, w) !in done {
        a := CopyWord(k, w);
      } else {
        a := CopyEnd;
      }
    case Unmap(_) => a := UnmapNext;
    case Flush(_, _) => a := FlushNext;
    case Map(_) => a := MapNext;
    case Unflag(_) => a := UnflagNext;
  }

  lemma Stepwise(s: System, a: Action, run: seq<Action>)
    requires Enabled(s, a) && Possible(Do(s, a), run)
    ensures Possible(s, [a] + run) && After(s, [a] + run) == After(Do(s, a), run)
  {
    assert ([a] + run)[1..] == run;
  }

  /** So it can finish its batch from wherever it stands, by steps of its own that the application does not see. */
  lemma {:induction false} CanFinish(s: System) returns (run: seq<Action>)
    requires Inv(s)
    ensures Possible(s, run) && Trace(s, run) == [] && forall i :: 0 <= i < |run| ==> ByMigration(run[i])
    ensures var s' := After(s, run); Inv(s') && s'.phase.Quiet? && s'.app == s.app
    decreases ToGo(s).0, ToGo(s).1, ToGo(s).2
  {
    hide Inv;
    hide Enabled;
    hide Do;
    hide ToGo;
    if s.phase.Quiet? {
      run := [];
    } else {
      var a := NeverStuck(s);
      StepInv(s, a);
      Progress(s, a);
      ApplicationKept(s, a);
      var rest := CanFinish(Do(s, a));
      Stepwise(s, a, rest);
      Silent(s, a, rest);
      run := [a] + rest;
    }
  }

  lemma ApplicationKept(s: System, a: Action)
    requires Enabled(s, a) && ByMigration(a)
    ensures Do(s, a).app == s.app
  {
  }

  lemma {:induction false} Joined(s: System, run: seq<Action>, rest: seq<Action>)
    requires Possible(s, run) && Possible(After(s, run), rest) && Trace(s, run) == []
    ensures Possible(s, run + rest) && Trace(s, run + rest) == Trace(After(s, run), rest)
    ensures After(s, run + rest) == After(After(s, run), rest)
    decreases |run|
  {
    hide Enabled;
    hide Do;
    hide Observed;
    if run == [] {
      assert run + rest == rest;
    } else {
      assert (run + rest)[1..] == run[1..] + rest;
      Joined(Do(s, run[0]), run[1..], rest);
    }
  }

  /** At any time, in the middle of a batch as well, a thread can still carry out what it has in hand: once the batch is
      over. */
  lemma NeverLost(s: System, j: nat) returns (run: seq<Action>, e: Event)
    requires Inv(s) && j < |s.app| && !s.app[j].Idle?
    ensures Possible(s, run) && Trace(s, run) == [e] && SeenAs(e, j, s.app[j].op)
  {
    hide Inv;
    hide Possible;
    hide Trace;
    hide After;
    var batch := CanFinish(s);
    var rest;
    rest, e := CanComplete(After(s, batch), j);
    Joined(s, batch, rest);
    run := batch + rest;
  }

  /** Between batches every batch the descriptors allow can be begun, and brought to its end. */
  lemma CanMigrate(s: System, vas: seq<nat>, dst: seq<Frame>) returns (run: seq<Action>)
    requires Inv(s) && s.phase.Quiet? && Batchable(s.pt, vas, dst)
    ensures Possible(s, [Begin(vas, dst)] + run) && forall i :: 0 <= i < |run| ==> ByMigration(run[i])
    ensures var s' := After(s, [Begin(vas, dst)] + run); s'.phase.Quiet? && Retabled(s.pt, s'.pt, vas, dst)
  {
    hide Inv;
    hide Batchable;
    hide Retabled;
    hide Possible;
    hide After;
    var a := Begin(vas, dst);
    StepInv(s, a);
    run := CanFinish(Do(s, a));
    Stepwise(s, a, run);
    BatchRetables(s, vas, dst, run);
  }

  /** A buffer may drop any entry at any time, and take it up again as the page table then has it. */
  lemma CanRefill(s: System, j: nat, va: nat)
    requires Inv(s) && j < |s.tlb| && va in s.pt && s.pt[va].mapped
    ensures Enabled(s, Evict(j, va)) && Do(s, Evict(j, va)) == s.(tlb := s.tlb[j := s.tlb[j] - {va}])
    ensures var s' := Do(s, Evict(j, va));
            && Enabled(s', Fill(j, va))
            && Do(s', Fill(j, va)).tlb[j] == s.tlb[j][va := Entry(s.pt[va].frame, s.pt[va].writable)]
  {
    assert s.tlb[j][va := Entry(s.pt[va].frame, s.pt[va].writable)] ==
           (s.tlb[j] - {va})[va := Entry(s.pt[va].frame, s.pt[va].writable)];
  }
}
