/** Which descriptor owns which frame.  The migration thread lets a freed descriptor keep its own offset instead of
    giving it the offset the migrated page leaves behind, so ownership survives a batch only by coincidence; this
    module says exactly when. */
module FrameOwnership {
  import opened Basics
  import opened TierSpec
  import opened Draining

  function FrameOf(i: Info): Frame { Frame(i.inDram, i.offset) }

  /** All the frames of d DRAM and n NVM pages. */
  ghost function Frames(d: nat, n: nat, size: nat): set<Frame> {
    (set i | 0 <= i < d :: Frame(true, i * size)) + (set i | 0 <= i < n :: Frame(false, i * size))
  }

  ghost predicate Owns<P>(info: map<P, Info>, p: P, x: Frame) {
    p in info && FrameOf(info[p]) == x
  }

  ghost predicate Exists<P>(info: map<P, Info>, p: P, frames: set<Frame>) {
    p in info && FrameOf(info[p]) in frames
  }

  ghost predicate NotShared<P>(info: map<P, Info>, p: P, q: P) {
    p in info && q in info && FrameOf(info[p]) == FrameOf(info[q]) ==> p == q
  }

  ghost predicate HasOwner<P>(info: map<P, Info>, x: Frame) {
    exists p {:trigger Owns(info, p, x)} :: p in info && Owns(info, p, x)
  }

  /** Descriptors and frames correspond one to one. */
  ghost predicate Owned<P>(info: map<P, Info>, frames: set<Frame>) {
    && (forall p {:trigger Exists(info, p, frames)} :: p in info ==> Exists(info, p, frames))
    && (forall p, q {:trigger NotShared(info, p, q)} :: p in info && q in info ==> NotShared(info, p, q))
    && (forall x {:trigger HasOwner(info, x)} :: x in frames ==> HasOwner(info, x))
  }

  lemma TimesInjective(i: nat, j: nat, size: nat)
    requires size > 0
    ensures i != j ==> i * size != j * size
  {
    if i < j {
      assert j * size == i * size + (j - i) * size;
    } else if j < i {
      assert i * size == j * size + (i - j) * size;
    }
  }

  lemma SpacedApart<P>(info: map<P, Info>, s: seq<P>, dram: bool, size: nat, p: P, q: P)
    requires size > 0 && p in s && q in s
    requires forall i :: 0 <= i < |s| ==> s[i] in info && info[s[i]] == Info(0, i * size, dram, false, 0, 0)
    ensures NotShared(info, p, q)
  {
    var i :| 0 <= i < |s| && s[i] == p;
    var j :| 0 <= j < |s| && s[j] == q;
    TimesInjective(i, j, size);
  }

  /** Frame i of a tier belongs to descriptor s[i]. */
  ghost predicate Numbered<P>(info: map<P, Info>, s: seq<P>, dram: bool, size: nat) {
    forall i :: 0 <= i < |s| ==> s[i] in info && info[s[i]] == Info(0, i * size, dram, false, 0, 0)
  }

  lemma NumberedExists<P>(info: map<P, Info>, s: seq<P>, dram: bool, size: nat, p: P) returns (i: nat)
    requires Numbered(info, s, dram, size) && p in s
    ensures i < |s| && FrameOf(info[p]) == Frame(dram, i * size)
  {
    i :| 0 <= i < |s| && s[i] == p;
  }

  lemma NumberedOwned<P>(info: map<P, Info>, drams: seq<P>, nvms: seq<P>, size: nat)
    requires Numbered(info, drams, true, size) && Numbered(info, nvms, false, size) && size > 0
    requires forall p :: p in info <==> p in drams || p in nvms
    ensures Owned(info, Frames(|drams|, |nvms|, size))
  {
    var frames := Frames(|drams|, |nvms|, size);
    forall p | p in info ensures Exists(info, p, frames) {
      if p in drams {
        var i := NumberedExists(info, drams, true, size, p);
      } else {
        var i := NumberedExists(info, nvms, false, size, p);
      }
    }
    forall p, q | p in info && q in info ensures NotShared(info, p, q) {
      if p in drams && q in drams {
        SpacedApart(info, drams, true, size, p, q);
      } else if p in nvms && q in nvms {
        SpacedApart(info, nvms, false, size, p, q);
      }
    }
    forall x | x in frames ensures HasOwner(info, x) {
      if x.dram {
        var i :| 0 <= i < |drams| && x == Frame(true, i * size);
        assert Owns(info, drams[i], x);
      } else {
        var i :| 0 <= i < |nvms| && x == Frame(false, i * size);
        assert Owns(info, nvms[i], x);
      }
    }
  }

  /** pebs_init gives every frame one descriptor. */
  lemma InitOwned<P>(drams: seq<P>, nvms: seq<P>, size: nat)
    requires |drams| < WORD && |nvms| < WORD && NoRepeats(drams + nvms) && size > 0
    ensures Owned(Init(drams, nvms, size).info, Frames(|drams|, |nvms|, size))
  {
    InitInfo(drams, nvms, size);
    hide Init;
    hide Owned;
    NumberedOwned(Init(drams, nvms, size).info, drams, nvms, size);
  }

  ghost predicate SameFrame<P>(i: map<P, Info>, r: map<P, Info>, p: P) {
    p in i && p in r && FrameOf(r[p]) == FrameOf(i[p])
  }

  /** Only the offset and the tier of a descriptor matter. */
  lemma SameFrames<P>(i: map<P, Info>, r: map<P, Info>, frames: set<Frame>)
    requires Owned(i, frames) && r.Keys == i.Keys && forall p {:trigger SameFrame(i, r, p)} :: p in i ==>
               SameFrame(i, r, p)
    ensures Owned(r, frames)
  {
    forall p | p in r ensures Exists(r, p, frames) {
      assert SameFrame(i, r, p) && Exists(i, p, frames);
    }
    forall p, q | p in r && q in r ensures NotShared(r, p, q) {
      assert SameFrame(i, r, p) && SameFrame(i, r, q) && NotShared(i, p, q);
    }
    forall x | x in frames ensures HasOwner(r, x) {
      assert HasOwner(i, x);
      var p :| p in i && Owns(i, p, x);
      assert SameFrame(i, r, p) && Owns(r, p, x);
    }
  }

  /** Allocation keeps ownership; so do requests, which change no descriptor. */
  lemma MappedOwned<P>(s: State<P>, va: nat, frames: set<Frame>)
    requires WellFormed(s) && s.q[Free(AllocationTier(s))] != [] && Owned(s.info, frames)
    ensures Owned(Mapped(s, va).info, frames)
  {
    forall p | p in s.info ensures SameFrame(s.info, Mapped(s, va).info, p) {
    }
    SameFrames(s.info, Mapped(s, va).info, frames);
  }

  /* ---- Batches ---- */

  /** The pages of a batch and the free descriptors paired with them. */
  ghost predicate Parties<P>(i: map<P, Info>, pages: seq<P>, frees: seq<P>, f: Tier, t: Tier) {
    && |pages| == |frees| && NoRepeats(pages) && NoRepeats(frees)
    && (forall p :: p in pages ==> p in i && i[p].inDram == (f == Dram) && p !in frees)
    && (forall p :: p in frees ==> p in i && i[p].inDram == (t == Dram))
  }

  lemma SameTierNotOwned<P>(i: map<P, Info>, r: map<P, Info>, pages: seq<P>, frees: seq<P>, f: Tier, frames: set<Frame>)
    requires Parties(i, pages, frees, f, f) && InfoMoved(i, r, pages, frees, f, f) && pages != []
    ensures !Owned(r, frames)
  {
    assert MovedTo(i, r, pages[0], frees[0], f, f);
    assert pages[0] in pages && !NotShared(r, pages[0], frees[0]);
  }

  /** The frames of the pages of a batch are vacated, those of the free descriptors are taken. */
  ghost predicate SameOffsets(vacated: seq<nat>, taken: seq<nat>) {
    multiset(vacated) == multiset(taken)
  }

  lemma {:induction false} SameOnce(a: seq<nat>, b: seq<nat>)
    requires NoRepeats(a) && NoRepeats(b) && (forall x :: x in a ==> x in b) && (forall x :: x in b ==> x in a)
    ensures multiset(a) == multiset(b)
  {
    SingleEach(a);
    SingleEach(b);
    forall x ensures multiset(a)[x] == multiset(b)[x] {
      assert x in a <==> x in multiset(a);
      assert x in b <==> x in multiset(b);
    }
  }

  lemma OffsetsDiffer<P>(i: map<P, Info>, s: seq<P>, dram: bool, frames: set<Frame>)
    requires Owned(i, frames) && NoRepeats(s) && forall p :: p in s ==> p in i && i[p].inDram == dram
    ensures NoRepeats(Offsets(i, s))
  {
    var o := Offsets(i, s);
    forall j, k | 0 <= j < k < |o| ensures o[j] != o[k] {
      assert s[j] in i && s[k] in i && s[j] != s[k];
      assert NotShared(i, s[j], s[k]);
    }
  }

  /** If the batch leaves ownership intact, a vacated frame has been taken over by a freed descriptor. */
  lemma VacatedIsTaken<P>(i: map<P, Info>, r: map<P, Info>, pages: seq<P>, frees: seq<P>, f: Tier, t: Tier,
                          frames: set<Frame>, j: nat)
    requires Parties(i, pages, frees, f, t) && InfoMoved(i, r, pages, frees, f, t) && f != t
    requires Owned(i, frames) && Owned(r, frames) && j < |pages|
    ensures i[pages[j]].offset in Offsets(i, frees)
  {
    assert pages[j] in pages;
    var x := FrameOf(i[pages[j]]);
    assert Exists(i, pages[j], frames) && HasOwner(r, x);
    var p :| p in r && Owns(r, p, x);
    assert forall k :: 0 <= k < |pages| ==> MovedTo(i, r, pages[k], frees[k], f, t);
    assert p !in pages && NotShared(i, p, pages[j]);
    assert p !in frees ==> Same(i, r, p);
    var k :| 0 <= k < |frees| && frees[k] == p;
    assert Offsets(i, frees)[k] == x.offset;
  }

  /** And the frame a freed descriptor claims is one that was vacated. */
  lemma TakenIsVacated<P>(i: map<P, Info>, r: map<P, Info>, pages: seq<P>, frees: seq<P>, f: Tier, t: Tier,
                          frames: set<Frame>, j: nat)
    requires Parties(i, pages, frees, f, t) && InfoMoved(i, r, pages, frees, f, t) && f != t
    requires Owned(i, frames) && Owned(r, frames) && j < |pages|
    ensures i[frees[j]].offset in Offsets(i, pages)
  {
    assert frees[j] in frees && MovedTo(i, r, pages[j], frees[j], f, t);
    var x := FrameOf(r[frees[j]]);
    assert Exists(r, frees[j], frames) && HasOwner(i, x);
    var p :| p in i && Owns(i, p, x);
    assert p !in frees && NotShared(r, p, frees[j]);
    assert p !in pages ==> Same(i, r, p);
    var k :| 0 <= k < |pages| && pages[k] == p;
    assert Offsets(i, pages)[k] == x.offset;
  }

  lemma OwnedOnlyIf<P>(i: map<P, Info>, r: map<P, Info>, pages: seq<P>, frees: seq<P>, f: Tier, t: Tier,
      frames: set<Frame>)
    requires Parties(i, pages, frees, f, t) && InfoMoved(i, r, pages, frees, f, t) && f != t
    requires Owned(i, frames) && Owned(r, frames)
    ensures SameOffsets(Offsets(i, pages), Offsets(i, frees))
  {
    var v, o := Offsets(i, pages), Offsets(i, frees);
    OffsetsDiffer(i, pages, f == Dram, frames);
    OffsetsDiffer(i, frees, t == Dram, frames);
    forall x | x in v ensures x in o {
      var j :| 0 <= j < |v| && v[j] == x;
      VacatedIsTaken(i, r, pages, frees, f, t, frames, j);
    }
    forall x | x in o ensures x in v {
      var j :| 0 <= j < |o| && o[j] == x;
      TakenIsVacated(i, r, pages, frees, f, t, frames, j);
    }
    SameOnce(v, o);
  }

  /** The descriptor that owned, before the batch, the frame p owns after it. */
  ghost predicate Heir<P>(i: map<P, Info>, r: map<P, Info>, pages: seq<P>, frees: seq<P>, p: P, q: P) {
    && p in r && q in i && FrameOf(r[p]) == FrameOf(i[q])
    && (p in pages <==> q in frees) && (p in frees <==> q in pages)
    && (p in pages ==> exists k :: 0 <= k < |pages| == |frees| && p == pages[k] && q == frees[k])
    && (p !in pages && p !in frees ==> p == q)
  }

  lemma HasPredecessor<P>(i: map<P, Info>, r: map<P, Info>, pages: seq<P>, frees: seq<P>, f: Tier, t: Tier, p: P)
    returns (q: P)
    requires Parties(i, pages, frees, f, t) && InfoMoved(i, r, pages, frees, f, t) && f != t && p in r
    requires SameOffsets(Offsets(i, pages), Offsets(i, frees))
    ensures Heir(i, r, pages, frees, p, q)
  {
    if p in pages {
      var k :| 0 <= k < |pages| && pages[k] == p;
      assert MovedTo(i, r, pages[k], frees[k], f, t);
      q := frees[k];
    } else if p in frees {
      var k :| 0 <= k < |frees| && frees[k] == p;
      assert MovedTo(i, r, pages[k], frees[k], f, t);
      assert Offsets(i, frees)[k] in multiset(Offsets(i, pages));
      var j :| 0 <= j < |pages| && Offsets(i, pages)[j] == Offsets(i, frees)[k];
      q := pages[j];
    } else {
      assert Same(i, r, p);
      q := p;
    }
  }

  lemma HasSuccessor<P>(i: map<P, Info>, r: map<P, Info>, pages: seq<P>, frees: seq<P>, f: Tier, t: Tier, q: P)
    returns (p: P)
    requires Parties(i, pages, frees, f, t) && InfoMoved(i, r, pages, frees, f, t) && f != t && q in i
    requires SameOffsets(Offsets(i, pages), Offsets(i, frees))
    ensures p in r && FrameOf(r[p]) == FrameOf(i[q])
  {
    if q in frees {
      var k :| 0 <= k < |frees| && frees[k] == q;
      assert MovedTo(i, r, pages[k], frees[k], f, t);
      p := pages[k];
    } else if q in pages {
      var k :| 0 <= k < |pages| && pages[k] == q;
      assert Offsets(i, pages)[k] in multiset(Offsets(i, frees));
      var j :| 0 <= j < |frees| && Offsets(i, frees)[j] == Offsets(i, pages)[k];
      assert MovedTo(i, r, pages[j], frees[j], f, t);
      p := frees[j];
    } else {
      assert Same(i, r, q);
      p := q;
    }
  }

  lemma SameHeir<P>(i: map<P, Info>, r: map<P, Info>, pages: seq<P>, frees: seq<P>, f: Tier, t: Tier,
      frames: set<Frame>,
                    p: P, p': P)
    requires Parties(i, pages, frees, f, t) && InfoMoved(i, r, pages, frees, f, t) && f != t
    requires Owned(i, frames) && SameOffsets(Offsets(i, pages), Offsets(i, frees))
    requires p in r && p' in r && FrameOf(r[p]) == FrameOf(r[p'])
    ensures p == p'
  {
    var q := HasPredecessor(i, r, pages, frees, f, t, p);
    var q' := HasPredecessor(i, r, pages, frees, f, t, p');
    assert NotShared(i, q, q');
    if p in frees {
      var k :| 0 <= k < |frees| && frees[k] == p;
      var k' :| 0 <= k' < |frees| && frees[k'] == p';
      assert MovedTo(i, r, pages[k], frees[k], f, t) && MovedTo(i, r, pages[k'], frees[k'], f, t);
      assert NotShared(i, p, p');
    }
  }

  lemma OwnedIf<P>(i: map<P, Info>, r: map<P, Info>, pages: seq<P>, frees: seq<P>, f: Tier, t: Tier, frames: set<Frame>)
    requires Parties(i, pages, frees, f, t) && InfoMoved(i, r, pages, frees, f, t) && f != t
    requires Owned(i, frames) && SameOffsets(Offsets(i, pages), Offsets(i, frees))
    ensures Owned(r, frames)
  {
    hide Parties;
    hide InfoMoved;
    hide SameOffsets;
    forall p | p in r ensures Exists(r, p, frames) {
      var q := HasPredecessor(i, r, pages, frees, f, t, p);
      assert Exists(i, q, frames);
    }
    forall p, p' | p in r && p' in r ensures NotShared(r, p, p') {
      if FrameOf(r[p]) == FrameOf(r[p']) {
        SameHeir(i, r, pages, frees, f, t, frames, p, p');
      }
    }
    forall x | x in frames ensures HasOwner(r, x) {
      assert HasOwner(i, x);
      var q :| q in i && Owns(i, q, x);
      var p := HasSuccessor(i, r, pages, frees, f, t, q);
      assert Owns(r, p, x);
    }
  }

  lemma BatchHasParties<P>(s: State<P>, f: Tier, t: Tier, n: nat)
    requires WellFormed(s) && n <= |s.q[Migrate(f, t)]| && n <= |s.q[Free(t)]|
    ensures Parties(s.info, s.q[Migrate(f, t)][..n], s.q[Free(t)][..n], f, t)
  {
    hide Batch;
    hide Apart;
    hide Total;
    hide Offsets;
    BatchParties(s, f, t, n);
    forall p | p in s.q[Migrate(f, t)][..n] ensures s.info[p].inDram == (f == Dram) {
      assert p in s.q[Migrate(f, t)];
    }
    forall p | p in s.q[Free(t)][..n] ensures s.info[p].inDram == (t == Dram) {
      assert p in s.q[Free(t)];
    }
  }

  /** Exactly when a batch of the code as it is written keeps ownership: when it moves nothing, or when it goes across
      tiers and the offsets it vacates are the offsets it takes, in some order.  A batch within a tier never does. */
  lemma BatchOwned<P>(s: State<P>, f: Tier, t: Tier, n: nat, frames: set<Frame>)
    requires WellFormed(s) && n <= |s.q[Migrate(f, t)]| && n <= |s.q[Free(t)]| && Owned(s.info, frames)
    ensures Owned(Batch(s, f, t, n).info, frames) <==>
            n == 0 || (f != t &&
              SameOffsets(Offsets(s.info, s.q[Migrate(f, t)][..n]), Offsets(s.info, s.q[Free(t)][..n])))
  {
    var pages, frees, r := s.q[Migrate(f, t)][..n], s.q[Free(t)][..n], Batch(s, f, t, n).info;
    hide *;
    BatchHasParties(s, f, t, n);
    BatchMoves(s, f, t, n);
    BatchOfNone(s, f, t);
    if n > 0 {
      if f == t {
        SameTierNotOwned(s.info, r, pages, frees, f, frames);
      } else if Owned(r, frames) {
        OwnedOnlyIf(s.info, r, pages, frees, f, t, frames);
      } else if SameOffsets(Offsets(s.info, pages), Offsets(s.info, frees)) {
        OwnedIf(s.info, r, pages, frees, f, t, frames);
      }
    }
  }

  /** A batch within a tier gives no frame an owner that had none: the frames its pages take already have one. */
  lemma WithinTierFrames<P>(i: map<P, Info>, r: map<P, Info>, pages: seq<P>, frees: seq<P>, f: Tier, x: Frame)
    requires Parties(i, pages, frees, f, f) && InfoMoved(i, r, pages, frees, f, f) && HasOwner(r, x)
    ensures HasOwner(i, x)
  {
    var p :| p in r && Owns(r, p, x);
    if p in pages {
      var k :| 0 <= k < |pages| && pages[k] == p;
      assert MovedTo(i, r, pages[k], frees[k], f, f);
      assert frees[k] in frees && Owns(i, frees[k], x);
    } else if p in frees {
      var k :| 0 <= k < |frees| && frees[k] == p;
      assert MovedTo(i, r, pages[k], frees[k], f, f);
      assert Owns(i, p, x);
    } else {
      assert Same(i, r, p) && Owns(i, p, x);
    }
  }

  /** The first page's frame has no owner after a batch within a tier. */
  lemma WithinTierLoses<P>(i: map<P, Info>, r: map<P, Info>, pages: seq<P>, frees: seq<P>, f: Tier, frames: set<Frame>)
    requires Parties(i, pages, frees, f, f) && InfoMoved(i, r, pages, frees, f, f) && pages != [] && Owned(i, frames)
    ensures pages[0] in i && FrameOf(i[pages[0]]) in frames && !HasOwner(r, FrameOf(i[pages[0]]))
  {
    assert pages[0] in pages && Exists(i, pages[0], frames);
    var x := FrameOf(i[pages[0]]);
    forall p | p in r ensures !Owns(r, p, x) {
      if p in pages {
        var k :| 0 <= k < |pages| && pages[k] == p;
        assert MovedTo(i, r, pages[k], frees[k], f, f) && frees[k] in frees;
        assert NotShared(i, frees[k], pages[0]);
      } else if p in frees {
        var k :| 0 <= k < |frees| && frees[k] == p;
        assert MovedTo(i, r, pages[k], frees[k], f, f) && NotShared(i, p, pages[0]);
      } else {
        assert Same(i, r, p) && NotShared(i, p, pages[0]);
      }
    }
  }

  lemma {:induction false} LostStaysLost<P>(s: State<P>, t: Tier, b: nat, x: Frame)
    requires b > 0 && Able(s, t, t, b) && WellFormed(s) && !HasOwner(s.info, x)
    ensures !HasOwner(DrainQueue(s, t, t, b).info, x)
    decreases s.num[Migrate(t, t)]
  {
    hide WellFormed;
    hide Batch;
    hide HasOwner;
    var num := s.num[Migrate(t, t)];
    if num == 0 {
    } else {
      var n := Min(num, b);
      AbleNext(s, t, t, b);
      BatchKeeps(s, t, t, n);
      BatchHasParties(s, t, t, n);
      BatchMoves(s, t, t, n);
      var s1 := Batch(s, t, t, n);
      if HasOwner(s1.info, x) {
        WithinTierFrames(s.info, s1.info, s.q[Migrate(t, t)][..n], s.q[Free(t)][..n], t, x);
      }
      LostStaysLost(s1, t, b, x);
    }
  }

  /** Draining within a tier, even with a single free page to go round, loses a frame for good. */
  lemma WithinTierDrain<P>(s: State<P>, t: Tier, b: nat, frames: set<Frame>)
    requires b > 0 && Able(s, t, t, b) && WellFormed(s) && Owned(s.info, frames) && s.num[Migrate(t, t)] > 0
    ensures !Owned(DrainQueue(s, t, t, b).info, frames)
  {
    hide WellFormed;
    hide Batch;
    hide HasOwner;
    hide Parties;
    hide InfoMoved;
    var n := Min(s.num[Migrate(t, t)], b);
    AbleNext(s, t, t, b);
    BatchKeeps(s, t, t, n);
    BatchHasParties(s, t, t, n);
    BatchMoves(s, t, t, n);
    var s1, pages, frees := Batch(s, t, t, n), s.q[Migrate(t, t)][..n], s.q[Free(t)][..n];
    WithinTierLoses(s.info, s1.info, pages, frees, t, frames);
    LostStaysLost(s1, t, b, FrameOf(s.info[pages[0]]));
  }

  /** The same for draining a whole request list, whatever the batch size. */
  lemma DrainOwned<P>(s: State<P>, f: Tier, t: Tier, b: nat, frames: set<Frame>)
    requires b > 0 && Able(s, f, t, b) && WellFormed(s) && Owned(s.info, frames)
    ensures var n := s.num[Migrate(f, t)];
            Owned(DrainQueue(s, f, t, b).info, frames) <==>
            n == 0 || (f != t &&
              SameOffsets(Offsets(s.info, s.q[Migrate(f, t)][..n]), Offsets(s.info, s.q[Free(t)][..n])))
  {
    hide WellFormed;
    hide Batch;
    hide Owned;
    hide SameOffsets;
    if f == t && s.num[Migrate(f, t)] > 0 {
      WithinTierDrain(s, t, b, frames);
    } else if f != t {
      DrainQueueIsBatch(s, f, t, b);
      BatchOwned(s, f, t, s.num[Migrate(f, t)], frames);
    }
  }

  /** While ownership is intact, the frames a batch is to move to are different and no other descriptor has them, which
      is what the data path needs of its destinations. */
  lemma DestinationsUnused<P>(s: State<P>, f: Tier, t: Tier, n: nat, frames: set<Frame>, i: nat, p: P)
    requires WellFormed(s) && n <= |s.q[Migrate(f, t)]| && i < n <= |s.q[Free(t)]| && Owned(s.info, frames)
    requires p in s.info && p != s.q[Free(t)][i]
    ensures s.q[Free(t)][i] in s.info && FrameOf(s.info[p]) != FrameOf(s.info[s.q[Free(t)][i]])
  {
    hide Apart;
    assert s.q[Free(t)][i] in s.q[Free(t)];
    assert NotShared(s.info, p, s.q[Free(t)][i]);
  }

  /* ---- The repaired swap: NOT what the code does ---- */

  /** Release with the vacated offset written to the freed descriptor, as the swap was presumably meant. */
  function RepairedRelease<P>(info: map<P, Info>, frees: seq<P>, vacated: seq<nat>, f: Tier): (r: map<P, Info>)
    requires |frees| == |vacated|
    ensures r.Keys == info.Keys
  {
    if frees == [] then info
    else
      var n := |frees| - 1;
      var prev := RepairedRelease(info, frees[..n], vacated[..n], f);
      if frees[n] in prev then prev[frees[n] := Freed(prev[frees[n]], f).(offset := vacated[n])] else prev
  }

  function RepairedInfo<P>(info: map<P, Info>, pages: seq<P>, frees: seq<P>, f: Tier, t: Tier): map<P, Info>
    requires |pages| == |frees|
  {
    RepairedRelease(Remap(info, pages, Offsets(info, frees), f, t), frees, Offsets(info, pages), f)
  }

  lemma {:induction false} RepairedReleaseAt<P>(info: map<P, Info>, frees: seq<P>, vacated: seq<nat>, f: Tier)
    requires |frees| == |vacated| && NoRepeats(frees) && forall p :: p in frees ==> p in info
    ensures var r := RepairedRelease(info, frees, vacated, f);
            && (forall i :: 0 <= i < |frees| ==> FrameOf(r[frees[i]]) == Frame(f == Dram, vacated[i]))
            && (forall p :: p in info && p !in frees ==> r[p] == info[p])
    decreases |frees|
  {
    if frees == [] {
    } else {
      var n := |frees| - 1;
      var prev := RepairedRelease(info, frees[..n], vacated[..n], f);
      RepairedReleaseAt(info, frees[..n], vacated[..n], f);
      var r := RepairedRelease(info, frees, vacated, f);
      hide RepairedRelease;
      forall i | 0 <= i < |frees| ensures FrameOf(r[frees[i]]) == Frame(f == Dram, vacated[i]) {
        if i < n {
          assert frees[..n][i] == frees[i] && vacated[..n][i] == vacated[i];
        }
      }
    }
  }

  ghost predicate Swapped<P>(i: map<P, Info>, r: map<P, Info>, p: P, x: P) {
    p in i && x in i && p in r && x in r && FrameOf(r[p]) == FrameOf(i[x]) && FrameOf(r[x]) == FrameOf(i[p])
  }

  /** After the repaired batch page k and free descriptor k have exchanged their frames. */
  lemma RepairedSwaps<P>(i: map<P, Info>, pages: seq<P>, frees: seq<P>, f: Tier, t: Tier)
    requires Parties(i, pages, frees, f, t)
    ensures var r := RepairedInfo(i, pages, frees, f, t);
            && r.Keys == i.Keys
            && (forall k {:trigger Swapped(i, r, pages[k], frees[k])} :: 0 <= k < |pages| ==>
                  Swapped(i, r, pages[k], frees[k]))
            && (forall p {:trigger Same(i, r, p)} :: p in i && p !in pages && p !in frees ==> Same(i, r, p))
  {
    var mid, r := Remap(i, pages, Offsets(i, frees), f, t), RepairedInfo(i, pages, frees, f, t);
    RemapAt(i, pages, Offsets(i, frees), f, t);
    RepairedReleaseAt(mid, frees, Offsets(i, pages), f);
    hide Remap;
    hide RepairedRelease;
    forall k | 0 <= k < |pages| ensures Swapped(i, r, pages[k], frees[k]) {
      assert pages[k] in pages && frees[k] in frees;
    }
  }

  /** p and q are partners in the swap, or the same descriptor outside it. */
  ghost predicate Partners<P>(pages: seq<P>, frees: seq<P>, p: P, q: P)
    requires |pages| == |frees|
  {
    || (p == q && p !in pages && p !in frees)
    || (exists k {:trigger pages[k]} :: 0 <= k < |pages| &&
          ((p == pages[k] && q == frees[k]) || (p == frees[k] && q == pages[k])))
  }

  lemma PartnerOf<P>(i: map<P, Info>, pages: seq<P>, frees: seq<P>, f: Tier, t: Tier, p: P) returns (q: P)
    requires Parties(i, pages, frees, f, t) && p in i
    ensures var r := RepairedInfo(i, pages, frees, f, t);
            Partners(pages, frees, p, q) && q in i && p in r && q in r
            && FrameOf(r[p]) == FrameOf(i[q]) && FrameOf(r[q]) == FrameOf(i[p])
  {
    var r := RepairedInfo(i, pages, frees, f, t);
    RepairedSwaps(i, pages, frees, f, t);
    hide RepairedInfo;
    hide Parties;
    if k :| 0 <= k < |pages| && pages[k] == p {
      q := frees[k];
      assert Swapped(i, r, pages[k], frees[k]);
    } else if k :| 0 <= k < |frees| && frees[k] == p {
      q := pages[k];
      assert Swapped(i, r, pages[k], frees[k]);
    } else {
      q := p;
      assert Same(i, r, p);
    }
  }

  lemma PartnersUnique<P>(i: map<P, Info>, pages: seq<P>, frees: seq<P>, f: Tier, t: Tier, p: P, p': P, q: P)
    requires Parties(i, pages, frees, f, t) && Partners(pages, frees, p, q) && Partners(pages, frees, p', q)
    ensures p == p'
  {
    if q in pages {
      var k :| 0 <= k < |pages| && q == pages[k] && p == frees[k];
      var k' :| 0 <= k' < |pages| && q == pages[k'] && p' == frees[k'];
      assert k == k';
    } else if q in frees {
      var k :| 0 <= k < |pages| && q == frees[k] && p == pages[k];
      var k' :| 0 <= k' < |pages| && q == frees[k'] && p' == pages[k'];
      assert k == k';
    }
  }

  /** With the repaired swap every batch, within a tier or across tiers, would keep ownership. */
  lemma RepairedOwned<P>(s: State<P>, f: Tier, t: Tier, n: nat, frames: set<Frame>)
    requires WellFormed(s) && n <= |s.q[Migrate(f, t)]| && n <= |s.q[Free(t)]| && Owned(s.info, frames)
    ensures Owned(RepairedInfo(s.info, s.q[Migrate(f, t)][..n], s.q[Free(t)][..n], f, t), frames)
  {
    var i, pages, frees := s.info, s.q[Migrate(f, t)][..n], s.q[Free(t)][..n];
    var r := RepairedInfo(i, pages, frees, f, t);
    BatchHasParties(s, f, t, n);
    RepairedSwaps(i, pages, frees, f, t);
    hide Parties;
    hide Partners;
    hide WellFormed;
    hide RepairedInfo;
    forall p | p in r ensures Exists(r, p, frames) {
      var q := PartnerOf(i, pages, frees, f, t, p);
      assert Exists(i, q, frames);
    }
    forall p, p' | p in r && p' in r ensures NotShared(r, p, p') {
      var q := PartnerOf(i, pages, frees, f, t, p);
      var q' := PartnerOf(i, pages, frees, f, t, p');
      assert NotShared(i, q, q');
      if FrameOf(r[p]) == FrameOf(r[p']) {
        PartnersUnique(i, pages, frees, f, t, p, p', q);
      }
    }
    forall x | x in frames ensures HasOwner(r, x) {
      assert HasOwner(i, x);
      var q :| q in i && Owns(i, q, x);
      var p := PartnerOf(i, pages, frees, f, t, q);
      assert Owns(r, p, x);
    }
  }

  /* ---- Runs on which the code as written loses a frame ---- */

  /** Populating one page from a state with DRAM to spare. */
  lemma PopulatedInDram<P>(s: State<P>, va: nat, frames: set<Frame>)
    requires WellFormed(s) && s.q[Free(Dram)] != [] && Owned(s.info, frames)
    ensures s.q[Free(AllocationTier(s))] != []
    ensures var s', p := Populated(s, va), s.q[Free(Dram)][0];
            && WellFormed(s') && Owned(s'.info, frames) && s'.info.Keys == s.info.Keys
            && (forall x :: x in s.info ==> s'.info[x].offset == s.info[x].offset)
            && s'.q[Free(Dram)] == s.q[Free(Dram)][1..] && s'.q[Mmap(Dram)] == s.q[Mmap(Dram)] + [p]
            && s'.num[Mmap(Dram)] == Plus(s.num[Mmap(Dram)], 1)
            && s'.q[Free(Nvm)] == s.q[Free(Nvm)]
            && (forall f, t :: s'.q[Migrate(f, t)] == s.q[Migrate(f, t)])
  {
    hide Total;
    hide Owned;
    MappedKeeps(s, va);
    MappedOwned(s, va, frames);
  }

  lemma Start<P>(drams: seq<P>, nvms: seq<P>, size: nat)
    requires 2 <= |drams| < WORD && 1 <= |nvms| < WORD && NoRepeats(drams + nvms) && size > 0
    ensures var s := Init(drams, nvms, size);
            && s.q[Free(Dram)] == drams && s.q[Free(Nvm)] == nvms && s.q[Mmap(Dram)] == [] && s.num[Mmap(Dram)] == 0
            && s.q[Migrate(Dram, Nvm)] == []
            && drams[1] in s.info && s.info[drams[1]].offset == size && nvms[0] in s.info && s.info[nvms[0]].offset == 0
  {
    InitInfo(drams, nvms, size);
  }

  /** Whatever the sizes, as soon as there are two DRAM frames: map a page and move it within DRAM, and both descriptors
      end up with the same offset. */
  lemma WithinDramLosesAFrame<P>(drams: seq<P>, nvms: seq<P>, size: nat, va: nat)
    requires 2 <= |drams| < WORD && |nvms| < WORD && NoRepeats(drams + nvms) && size > 0
    ensures var frames := Frames(|drams|, |nvms|, size);
            var s := Requested(Populated(Init(drams, nvms, size), va), Dram, Dram, 1);
            && 1 <= |s.q[Migrate(Dram, Dram)]| && 1 <= |s.q[Free(Dram)]| && Owned(s.info, frames)
            && !Owned(Batch(s, Dram, Dram, 1).info, frames)
  {
    var frames := Frames(|drams|, |nvms|, size);
    InitKeeps(drams, nvms, size);
    InitOwned(drams, nvms, size);
    PopulatedInDram(Init(drams, nvms, size), va, frames);
    var s := Populated(Init(drams, nvms, size), va);
    RequestedKeeps(s, Dram, Dram, 1);
    hide Owned;
    hide Batch;
    hide WellFormed;
    hide Populated;
    BatchOwned(Requested(s, Dram, Dram, 1), Dram, Dram, 1, frames);
  }

  lemma PicksSecond<P>(s: State<P>, rands: seq<nat>)
    requires WellFormed(s) && |s.q[Mmap(Dram)]| == 2 == s.num[Mmap(Dram)] && |rands| == 1 && rands[0] == 1
    ensures Survives(2, 2, rands)
    ensures var s' := RandomRequested(s, Dram, Nvm, rands);
            && s'.q[Migrate(Dram, Nvm)] == s.q[Migrate(Dram, Nvm)] + [s.q[Mmap(Dram)][1]]
            && WellFormed(s') && s'.info == s.info && s'.q[Free(Nvm)] == s.q[Free(Nvm)]
  {
    GetsThrough(2, 2, rands);
    RandomRequestedKeeps(s, Dram, Nvm, rands);
    hide WellFormed;
    assert rands[1..] == [];
  }

  /** Two populated pages and a random request that picks the second of them. */
  lemma SecondPicked<P>(drams: seq<P>, nvms: seq<P>, size: nat, va: nat) returns (s: State<P>)
    requires 2 <= |drams| < WORD && 1 <= |nvms| < WORD && NoRepeats(drams + nvms) && size > 0
    ensures var s1 := Populated(Init(drams, nvms, size), va);
            s1.q[Free(AllocationTier(s1))] != [] &&
            var s2 := Populated(s1, va + size);
            Survives(|s2.q[Mmap(Dram)]|, s2.num[Mmap(Dram)], [1]) && s == RandomRequested(s2, Dram, Nvm, [1])
    ensures s.q[Migrate(Dram, Nvm)] == [drams[1]] && s.q[Free(Nvm)] == nvms
    ensures WellFormed(s) && Owned(s.info, Frames(|drams|, |nvms|, size))
    ensures drams[1] in s.info && s.info[drams[1]].offset == size && nvms[0] in s.info && s.info[nvms[0]].offset == 0
  {
    hide *;
    var frames := Frames(|drams|, |nvms|, size);
    var s0 := Init(drams, nvms, size);
    Start(drams, nvms, size);
    InitKeeps(drams, nvms, size);
    InitOwned(drams, nvms, size);
    PopulatedInDram(s0, va, frames);
    var s1 := Populated(s0, va);
    PopulatedInDram(s1, va + size, frames);
    var s2 := Populated(s1, va + size);
    assert Plus(0, 1) == 1 && Plus(1, 1) == 2;
    PicksSecond(s2, [1]);
    s := RandomRequested(s2, Dram, Nvm, [1]);
  }

  /** Whatever the sizes, as soon as there are two DRAM frames and one NVM frame: the second page leaves the second
      frame of DRAM and takes the first of NVM, whose offset the freed descriptor then brings to DRAM, so that the
      first DRAM frame has two descriptors and the second none. */
  lemma DownLosesAFrame<P>(drams: seq<P>, nvms: seq<P>, size: nat, va: nat) returns (s: State<P>)
    requires 2 <= |drams| < WORD && 1 <= |nvms| < WORD && NoRepeats(drams + nvms) && size > 0
    ensures var s1 := Populated(Init(drams, nvms, size), va);
            s1.q[Free(AllocationTier(s1))] != [] &&
            var s2 := Populated(s1, va + size);
            Survives(|s2.q[Mmap(Dram)]|, s2.num[Mmap(Dram)], [1]) && s == RandomRequested(s2, Dram, Nvm, [1])
    ensures 1 <= |s.q[Migrate(Dram, Nvm)]| && 1 <= |s.q[Free(Nvm)]|
    ensures Owned(s.info, Frames(|drams|, |nvms|, size))
    ensures !Owned(Batch(s, Dram, Nvm, 1).info, Frames(|drams|, |nvms|, size))
  {
    hide *;
    s := SecondPicked(drams, nvms, size, va);
    BatchOwned(s, Dram, Nvm, 1, Frames(|drams|, |nvms|, size));
    var vacated, taken := Offsets(s.info, s.q[Migrate(Dram, Nvm)][..1]), Offsets(s.info, s.q[Free(Nvm)][..1]);
    assert vacated[0] == size && taken[0] == 0;
    DifferentOffsets(vacated, taken);
  }

  lemma DifferentOffsets(a: seq<nat>, b: seq<nat>)
    requires |a| == |b| == 1 && a[0] != b[0]
    ensures !SameOffsets(a, b)
  {
    assert a[0] in multiset(a) && a[0] !in multiset(b);
  }
}
