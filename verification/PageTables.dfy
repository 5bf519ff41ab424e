/** What the frames of descriptors mean to the application.  The descriptors of present pages are a page table; this
    module says when a batch of descriptors is one the data path may be given, that the data path then leaves the
    page table the descriptors say, and when present pages keep frames of their own. */
module PageTables {
  import opened Basics
  import opened TierSpec
  import opened Draining
  import opened FrameOwnership
  import opened RepeatedTrips
  import MigrationPath

  /* ---- Present pages ---- */

  ghost predicate Present<P>(info: map<P, Info>, p: P) { p in info && info[p].present }

  ghost predicate AddressesDiffer<P>(info: map<P, Info>, p: P, q: P) {
    Present(info, p) && Present(info, q) && p != q ==> info[p].va != info[q].va
  }

  /** Present pages have different addresses. */
  ghost predicate Addressed<P>(info: map<P, Info>) {
    forall p, q {:trigger AddressesDiffer(info, p, q)} :: p in info && q in info ==> AddressesDiffer(info, p, q)
  }

  ghost predicate FramesDiffer<P>(info: map<P, Info>, p: P, q: P) {
    Present(info, p) && Present(info, q) && p != q ==> FrameOf(info[p]) != FrameOf(info[q])
  }

  /** Present pages have different frames. */
  ghost predicate Separate<P>(info: map<P, Info>) {
    forall p, q {:trigger FramesDiffer(info, p, q)} :: p in info && q in info ==> FramesDiffer(info, p, q)
  }

  /** No present page outside `others` has frame x. */
  ghost predicate Unclaimed<P>(info: map<P, Info>, x: Frame, others: seq<P>) {
    forall p {:trigger Present(info, p)} :: p in info && Present(info, p) && p !in others ==> FrameOf(info[p]) != x
  }

  /* ---- Allocation ---- */

  /** Exactly when an allocated page has a frame to itself. */
  lemma MappedSeparate<P>(s: State<P>, va: nat)
    requires WellFormed(s) && s.q[Free(AllocationTier(s))] != [] && Separate(s.info)
    ensures var p := s.q[Free(AllocationTier(s))][0];
            p in s.info && (Separate(Mapped(s, va).info) <==> Unclaimed(s.info, FrameOf(s.info[p]), []))
  {
    hide Apart;
    var t := AllocationTier(s);
    var p, r := s.q[Free(t)][0], Mapped(s, va).info;
    assert p in s.q[Free(t)];
    if Separate(r) {
      forall q | q in s.info && Present(s.info, q) ensures FrameOf(s.info[q]) != FrameOf(s.info[p]) {
        assert FramesDiffer(r, q, p);
      }
    } else {
      var q, q' :| q in r && q' in r && !FramesDiffer(r, q, q');
      assert FramesDiffer(s.info, q, q');
      assert Present(s.info, if q == p then q' else q);
    }
  }

  /* ---- Batches ---- */

  ghost function FramesOf<P>(info: map<P, Info>, s: seq<P>): (r: seq<Frame>)
    requires forall p :: p in s ==> p in info
    ensures |r| == |s| && forall k :: 0 <= k < |s| ==> r[k] == FrameOf(info[s[k]])
  {
    seq(|s|, k requires 0 <= k < |s| => FrameOf(info[s[k]]))
  }

  ghost function AddressesOf<P>(info: map<P, Info>, s: seq<P>): (r: seq<nat>)
    requires forall p :: p in s ==> p in info
    ensures |r| == |s| && forall k :: 0 <= k < |s| ==> r[k] == info[s[k]].va
  {
    seq(|s|, k requires 0 <= k < |s| => info[s[k]].va)
  }

  /** A batch: present pages, each with a free descriptor of the tier it is to go to. */
  ghost predicate Moving<P>(i: map<P, Info>, r: map<P, Info>, pages: seq<P>, frees: seq<P>, f: Tier, t: Tier) {
    && Parties(i, pages, frees, f, t) && InfoMoved(i, r, pages, frees, f, t)
    && (forall p :: p in pages ==> i[p].present) && (forall p :: p in frees ==> !i[p].present)
  }

  lemma BatchMoving<P>(s: State<P>, f: Tier, t: Tier, n: nat)
    requires WellFormed(s) && n <= |s.q[Migrate(f, t)]| && n <= |s.q[Free(t)]|
    ensures Moving(s.info, Batch(s, f, t, n).info, s.q[Migrate(f, t)][..n], s.q[Free(t)][..n], f, t)
  {
    hide Batch;
    hide Apart;
    hide InfoMoved;
    BatchHasParties(s, f, t, n);
    BatchMoves(s, f, t, n);
    forall p | p in s.q[Migrate(f, t)][..n] ensures s.info[p].present {
      assert p in s.q[Migrate(f, t)];
    }
    forall p | p in s.q[Free(t)][..n] ensures !s.info[p].present {
      assert p in s.q[Free(t)];
    }
  }

  /** A descriptor after a batch, whatever its part in it. */
  lemma AfterMove<P>(i: map<P, Info>, r: map<P, Info>, pages: seq<P>, frees: seq<P>, f: Tier, t: Tier, p: P)
    requires Moving(i, r, pages, frees, f, t) && p in i
    ensures p in r && (Present(r, p) <==> Present(i, p)) && (Present(i, p) ==> r[p].va == i[p].va && p !in frees)
    ensures Present(i, p) && p !in pages ==> FrameOf(r[p]) == FrameOf(i[p])
    ensures forall k :: 0 <= k < |pages| && pages[k] == p ==> frees[k] in i && FrameOf(r[p]) == FrameOf(i[frees[k]])
  {
    if p in pages {
      forall k | 0 <= k < |pages| && pages[k] == p ensures frees[k] in i && FrameOf(r[p]) == FrameOf(i[frees[k]]) {
        assert MovedTo(i, r, pages[k], frees[k], f, t) && frees[k] in frees;
      }
      var k :| 0 <= k < |pages| && pages[k] == p;
      assert MovedTo(i, r, pages[k], frees[k], f, t);
    } else if p in frees {
      var k :| 0 <= k < |frees| && frees[k] == p;
      assert MovedTo(i, r, pages[k], frees[k], f, t);
    } else {
      assert Same(i, r, p);
    }
  }

  /** The frames a batch takes are different, and no present page outside the batch has one of them. */
  ghost predicate Landing<P>(i: map<P, Info>, dst: seq<Frame>, pages: seq<P>) {
    NoRepeats(dst) && forall k {:trigger dst[k]} :: 0 <= k < |dst| ==> Unclaimed(i, dst[k], pages)
  }

  lemma SeparateOnlyIf<P>(i: map<P, Info>, r: map<P, Info>, pages: seq<P>, frees: seq<P>, f: Tier, t: Tier)
    requires Moving(i, r, pages, frees, f, t) && Separate(r)
    ensures Landing(i, FramesOf(i, frees), pages)
  {
    var dst := FramesOf(i, frees);
    forall j, k | 0 <= j < k < |dst| ensures dst[j] != dst[k] {
      assert pages[j] in pages && pages[k] in pages;
      AfterMove(i, r, pages, frees, f, t, pages[j]);
      AfterMove(i, r, pages, frees, f, t, pages[k]);
      assert FramesDiffer(r, pages[j], pages[k]);
    }
    forall k, p | 0 <= k < |dst| && p in i && Present(i, p) && p !in pages ensures FrameOf(i[p]) != dst[k] {
      assert pages[k] in pages;
      AfterMove(i, r, pages, frees, f, t, p);
      AfterMove(i, r, pages, frees, f, t, pages[k]);
      assert FramesDiffer(r, p, pages[k]);
    }
  }

  lemma SeparateAt<P>(i: map<P, Info>, r: map<P, Info>, pages: seq<P>, frees: seq<P>, f: Tier, t: Tier, p: P, q: P)
    requires Moving(i, r, pages, frees, f, t) && Separate(i) && Landing(i, FramesOf(i, frees), pages)
    requires p in i && q in i
    ensures FramesDiffer(r, p, q)
  {
    AfterMove(i, r, pages, frees, f, t, p);
    AfterMove(i, r, pages, frees, f, t, q);
    assert FramesDiffer(i, p, q);
    var dst := FramesOf(i, frees);
    if Present(i, p) && Present(i, q) && p != q {
      if p in pages {
        var j :| 0 <= j < |pages| && pages[j] == p;
        assert FrameOf(r[p]) == dst[j];
        if q in pages {
          var k :| 0 <= k < |pages| && pages[k] == q;
          assert FrameOf(r[q]) == dst[k];
        }
      } else if q in pages {
        var k :| 0 <= k < |pages| && pages[k] == q;
        assert FrameOf(r[q]) == dst[k];
      }
    }
  }

  /** Exactly when a batch leaves present pages on frames of their own. */
  lemma BatchSeparate<P>(s: State<P>, f: Tier, t: Tier, n: nat)
    requires WellFormed(s) && n <= |s.q[Migrate(f, t)]| && n <= |s.q[Free(t)]| && Separate(s.info)
    ensures var pages, frees := s.q[Migrate(f, t)][..n], s.q[Free(t)][..n];
            && (forall p :: p in frees ==> p in s.info)
            && (Separate(Batch(s, f, t, n).info) <==> Landing(s.info, FramesOf(s.info, frees), pages))
  {
    var pages, frees, r := s.q[Migrate(f, t)][..n], s.q[Free(t)][..n], Batch(s, f, t, n).info;
    BatchMoving(s, f, t, n);
    MovingParties(s.info, r, pages, frees, f, t);
    hide *;
    if Separate(r) {
      SeparateOnlyIf(s.info, r, pages, frees, f, t);
    } else if Landing(s.info, FramesOf(s.info, frees), pages) {
      AllSeparate(s.info, r, pages, frees, f, t);
    }
  }

  lemma MovingParties<P>(i: map<P, Info>, r: map<P, Info>, pages: seq<P>, frees: seq<P>, f: Tier, t: Tier)
    requires Moving(i, r, pages, frees, f, t)
    ensures r.Keys == i.Keys && |pages| == |frees|
    ensures (forall p :: p in pages ==> p in i) && (forall p :: p in frees ==> p in i)
  {
  }

  lemma AllSeparate<P>(i: map<P, Info>, r: map<P, Info>, pages: seq<P>, frees: seq<P>, f: Tier, t: Tier)
    requires Moving(i, r, pages, frees, f, t) && Separate(i) && (forall p :: p in frees ==> p in i)
    requires Landing(i, FramesOf(i, frees), pages)
    ensures Separate(r)
  {
    hide Landing;
    hide Parties;
    forall p, q | p in r && q in r ensures FramesDiffer(r, p, q) {
      SeparateAt(i, r, pages, frees, f, t, p, q);
    }
  }

  /* ---- Draining within a tier ---- */

  /** A free descriptor keeps its frame through a batch within its tier, whether the batch takes it or not. */
  lemma FreeKeepsFrame<P>(i: map<P, Info>, r: map<P, Info>, pages: seq<P>, frees: seq<P>, t: Tier, x: P)
    requires Moving(i, r, pages, frees, t, t) && x in i && x !in pages
    ensures x in r && FrameOf(r[x]) == FrameOf(i[x])
  {
    if x in frees {
      var k :| 0 <= k < |frees| && frees[k] == x;
      assert MovedTo(i, r, pages[k], frees[k], t, t);
    } else {
      assert Same(i, r, x);
    }
  }

  /** Descriptor p is there with one of the frames. */
  ghost predicate Among<P>(info: map<P, Info>, p: P, frames: set<Frame>) {
    p in info && FrameOf(info[p]) in frames
  }

  /** The free list of tier t has no frames but these, and neither have the pages in `moved`, which are present. */
  ghost predicate Confined<P>(s: State<P>, t: Tier, frames: set<Frame>, moved: seq<P>) {
    && (forall x {:trigger Among(s.info, x, frames)} :: x in s.q[Free(t)] ==> Among(s.info, x, frames))
    && (forall p {:trigger Among(s.info, p, frames)} :: p in moved ==>
          Among(s.info, p, frames) && Present(s.info, p) && p !in s.q[Migrate(t, t)])
  }

  /** What a batch within a tier makes of its two queues. */
  lemma WithinQueues<P>(s: State<P>, t: Tier, n: nat)
    requires WellFormed(s) && n <= |s.q[Migrate(t, t)]| && n <= |s.q[Free(t)]|
    ensures var s1, pages, free := Batch(s, t, t, n), s.q[Migrate(t, t)], s.q[Free(t)];
            && s1.q[Migrate(t, t)] == pages[n..] && s1.q[Free(t)] == free[n..] + free[..n]
            && NoRepeats(pages) && NoRepeats(free) && forall p :: p in pages ==> p !in free
  {
    hide Apart;
    hide Batch;
    ApartQueues(s, Migrate(t, t), Free(t));
    ApartQueues(s, Free(t), Migrate(t, t));
    BatchQueue(s, t, t, n, Migrate(t, t));
    BatchQueue(s, t, t, n, Free(t));
  }

  lemma BatchConfined<P>(s: State<P>, t: Tier, n: nat, frames: set<Frame>, moved: seq<P>)
    requires WellFormed(s) && n <= |s.q[Migrate(t, t)]| && n <= |s.q[Free(t)]| && Confined(s, t, frames, moved)
    ensures Confined(Batch(s, t, t, n), t, frames, moved + s.q[Migrate(t, t)][..n])
  {
    hide WellFormed;
    hide Batch;
    hide Moving;
    var s1, all, free := Batch(s, t, t, n), s.q[Migrate(t, t)], s.q[Free(t)];
    var pages, frees := all[..n], free[..n];
    BatchMoving(s, t, t, n);
    MovingParties(s.info, s1.info, pages, frees, t, t);
    WithinQueues(s, t, n);
    Suffix(all, n);
    forall x | x in s1.q[Free(t)] ensures Among(s1.info, x, frames) {
      assert x in free && Among(s.info, x, frames);
      assert forall p :: p in pages ==> p in all;
      FreeKeepsFrame(s.info, s1.info, pages, frees, t, x);
    }
    forall p | p in moved + pages
      ensures Among(s1.info, p, frames) && Present(s1.info, p) && p !in s1.q[Migrate(t, t)]
    {
      StaysConfined(s, s1, t, n, frames, moved, p);
    }
  }

  lemma StaysConfined<P>(s: State<P>, s1: State<P>, t: Tier, n: nat, frames: set<Frame>, moved: seq<P>, p: P)
    requires n <= |s.q[Migrate(t, t)]| && n <= |s.q[Free(t)]| && Confined(s, t, frames, moved)
    requires Moving(s.info, s1.info, s.q[Migrate(t, t)][..n], s.q[Free(t)][..n], t, t)
    requires s1.q[Migrate(t, t)] == s.q[Migrate(t, t)][n..]
    requires forall x :: x in s.q[Migrate(t, t)][n..] ==> x in s.q[Migrate(t, t)] && x !in s.q[Migrate(t, t)][..n]
    requires p in moved || p in s.q[Migrate(t, t)][..n]
    ensures Among(s1.info, p, frames) && Present(s1.info, p) && p !in s1.q[Migrate(t, t)]
  {
    hide InfoMoved;
    var pages, frees := s.q[Migrate(t, t)][..n], s.q[Free(t)][..n];
    if p in moved {
      assert Among(s.info, p, frames) && p !in s.q[Migrate(t, t)];
      assert p !in pages;
      AfterMove(s.info, s1.info, pages, frees, t, t, p);
    } else {
      var k :| 0 <= k < n && pages[k] == p;
      assert frees[k] in s.q[Free(t)] && Among(s.info, frees[k], frames);
      AfterMove(s.info, s1.info, pages, frees, t, t, p);
    }
  }

  /** Whatever the batch size, a drain within a tier puts all its pages on frames the free list had. */
  lemma {:induction false} DrainConfined<P>(s: State<P>, t: Tier, b: nat, frames: set<Frame>, moved: seq<P>)
    requires b > 0 && Able(s, t, t, b) && WellFormed(s) && Confined(s, t, frames, moved)
    ensures Confined(DrainQueue(s, t, t, b), t, frames, moved + s.q[Migrate(t, t)][..s.num[Migrate(t, t)]])
    decreases s.num[Migrate(t, t)]
  {
    hide WellFormed;
    hide Batch;
    hide Confined;
    var num, pages := s.num[Migrate(t, t)], s.q[Migrate(t, t)];
    if num == 0 {
      assert moved + pages[..0] == moved;
    } else {
      var n := Min(num, b);
      AbleNext(s, t, t, b);
      BatchKeeps(s, t, t, n);
      BatchConfined(s, t, n, frames, moved);
      WithinQueues(s, t, n);
      DrainConfined(Batch(s, t, t, n), t, b, frames, moved + pages[..n]);
      TakeTake(pages, n, num - n);
      Assoc(moved, pages[..n], pages[n..][..num - n]);
    }
  }

  /** More present pages than frames cannot all have frames of their own. */
  lemma TooMany<P>(info: map<P, Info>, pages: seq<P>, frames: set<Frame>)
    requires NoRepeats(pages) && |pages| > |frames|
    requires forall p :: p in pages ==> Among(info, p, frames) && Present(info, p)
    ensures !Separate(info)
  {
    var dst := FramesOf(info, pages);
    if Separate(info) {
      forall j, k | 0 <= j < k < |dst| ensures dst[j] != dst[k] {
        assert pages[j] in pages && pages[k] in pages;
        assert FramesDiffer(info, pages[j], pages[k]);
      }
      forall x | x in dst ensures x in frames {
        var k :| 0 <= k < |dst| && dst[k] == x;
        assert pages[k] in pages;
      }
      Pigeons(dst, frames);
    }
  }

  /** With more pages to move than free ones, a drain within a tier makes present pages share frames. */
  lemma DrainCrowds<P>(s: State<P>, t: Tier, b: nat)
    requires b > 0 && Able(s, t, t, b) && WellFormed(s) && s.num[Migrate(t, t)] > |s.q[Free(t)]|
    ensures !Separate(DrainQueue(s, t, t, b).info)
  {
    hide Batch;
    hide DrainQueue;
    hide Apart;
    var num, all, free := s.num[Migrate(t, t)], s.q[Migrate(t, t)], s.q[Free(t)];
    forall x | x in free ensures x in s.info {
    }
    var frames := Elements(FramesOf(s.info, free));
    FewElements(FramesOf(s.info, free));
    forall x | x in free ensures Among(s.info, x, frames) {
      var k :| 0 <= k < |free| && free[k] == x;
      assert FramesOf(s.info, free)[k] in frames;
    }
    DrainConfined(s, t, b, frames, []);
    WithinQueues(s, t, 0);
    assert [] + all[..num] == all[..num];
    assert forall p :: p in all[..num] ==> Among(DrainQueue(s, t, t, b).info, p, frames);
    TooMany(DrainQueue(s, t, t, b).info, all[..num], frames);
  }

  /** Exactly when draining a request list, in batches of any size, leaves present pages on frames of their own: when
      there is a free page for each that is to move, and the frames are ones the pages can land on.  Within a tier the
      code goes round with fewer. */
  lemma DrainSeparate<P>(s: State<P>, f: Tier, t: Tier, b: nat)
    requires b > 0 && Able(s, f, t, b) && WellFormed(s) && Separate(s.info)
    ensures var n, free := s.num[Migrate(f, t)], s.q[Free(t)];
            && (forall p :: p in free ==> p in s.info)
            && (Separate(DrainQueue(s, f, t, b).info) <==>
                n <= |free| && Landing(s.info, FramesOf(s.info, free[..n]), s.q[Migrate(f, t)][..n]))
  {
    hide Batch;
    hide DrainQueue;
    hide Apart;
    hide Landing;
    hide Separate;
    var n := s.num[Migrate(f, t)];
    if n <= |s.q[Free(t)]| {
      DrainQueueIsBatch(s, f, t, b);
      BatchSeparate(s, f, t, n);
    } else {
      DrainCrowds(s, t, b);
    }
  }

  /* ---- The page table ---- */

  /** Every present page at its address, on its frame, mapped and writable. */
  ghost function PageTable<P>(info: map<P, Info>): map<nat, MigrationPath.Pte>
    requires Addressed(info)
  {
    assert forall p, q :: p in info && q in info && info[p].present && info[q].present && p != q ==>
             info[p].va != info[q].va by {
      forall p, q | p in info && q in info && info[p].present && info[q].present && p != q
        ensures info[p].va != info[q].va
      {
        assert AddressesDiffer(info, p, q);
      }
    }
    map p | p in info && info[p].present :: info[p].va := MigrationPath.Pte(FrameOf(info[p]), true, true)
  }

  lemma TableAt<P>(info: map<P, Info>, p: P)
    requires Addressed(info) && Present(info, p)
    ensures info[p].va in PageTable(info) &&
            PageTable(info)[info[p].va] == MigrationPath.Pte(FrameOf(info[p]), true, true)
  {
    var pt := PageTable(info);
    assert info[p].va in pt;
    var q :| q in info && info[q].present && info[q].va == info[p].va &&
        pt[info[p].va] == MigrationPath.Pte(FrameOf(info[q]), true, true);
    assert AddressesDiffer(info, p, q);
  }

  lemma PageAt<P>(info: map<P, Info>, va: nat) returns (p: P)
    requires Addressed(info) && va in PageTable(info)
    ensures Present(info, p) && info[p].va == va
  {
    p :| p in info && info[p].present && info[p].va == va;
  }

  /** The page table maps different addresses to different frames exactly when present pages are separate. */
  lemma InjectiveIsSeparate<P>(info: map<P, Info>)
    requires Addressed(info)
    ensures MigrationPath.Injective(PageTable(info)) <==> Separate(info)
  {
    hide PageTable;
    var pt := PageTable(info);
    if MigrationPath.Injective(pt) {
      forall p, q | p in info && q in info ensures FramesDiffer(info, p, q) {
        if Present(info, p) && Present(info, q) && p != q {
          TableAt(info, p);
          TableAt(info, q);
          assert AddressesDiffer(info, p, q);
        }
      }
    }
    if Separate(info) {
      forall u, v | u in pt && v in pt && u != v ensures pt[u].frame != pt[v].frame {
        var p := PageAt(info, u);
        var q := PageAt(info, v);
        TableAt(info, p);
        TableAt(info, q);
        assert FramesDiffer(info, p, q);
      }
    }
  }

  lemma AddressesDistinct<P>(info: map<P, Info>, pages: seq<P>)
    requires Addressed(info) && NoRepeats(pages) && forall p :: p in pages ==> p in info && Present(info, p)
    ensures NoRepeats(AddressesOf(info, pages))
  {
    var vas := AddressesOf(info, pages);
    forall j, k | 0 <= j < k < |vas| ensures vas[j] != vas[k] {
      assert pages[j] in pages && pages[k] in pages;
      assert AddressesDiffer(info, pages[j], pages[k]);
    }
  }

  /** No address has the frame exactly when no present page does. */
  lemma UnusedIsUnclaimed<P>(info: map<P, Info>, x: Frame)
    requires Addressed(info)
    ensures MigrationPath.Unused(PageTable(info), x) <==> Unclaimed(info, x, [])
  {
    hide PageTable;
    var pt := PageTable(info);
    if MigrationPath.Unused(pt, x) {
      forall p | p in info && Present(info, p) ensures FrameOf(info[p]) != x {
        TableAt(info, p);
      }
    }
    if Unclaimed(info, x, []) {
      forall va | va in pt ensures pt[va].frame != x {
        var p := PageAt(info, va);
        TableAt(info, p);
      }
    }
  }

  /** Exactly when a batch is one the data path may be given: when the frames it takes are different and no present
      page has one of them, not even a page of the batch. */
  lemma BatchableIff<P>(s: State<P>, f: Tier, t: Tier, n: nat)
    requires WellFormed(s) && n <= |s.q[Migrate(f, t)]| && n <= |s.q[Free(t)]| && Addressed(s.info)
    ensures var pages, frees := s.q[Migrate(f, t)][..n], s.q[Free(t)][..n];
            && (forall p :: p in pages ==> p in s.info) && (forall p :: p in frees ==> p in s.info)
            && (MigrationPath.Batchable(PageTable(s.info), AddressesOf(s.info, pages), FramesOf(s.info, frees))
                <==> Landing(s.info, FramesOf(s.info, frees), []))
  {
    var pages, frees := s.q[Migrate(f, t)][..n], s.q[Free(t)][..n];
    BatchMoving(s, f, t, n);
    hide WellFormed;
    hide Batch;
    hide PageTable;
    hide InfoMoved;
    hide Unclaimed;
    hide MigrationPath.Unused;
    AddressesDistinct(s.info, pages);
    forall k | 0 <= k < |pages| ensures AddressesOf(s.info, pages)[k] in PageTable(s.info) {
      assert pages[k] in pages;
      TableAt(s.info, pages[k]);
    }
    forall x ensures MigrationPath.Unused(PageTable(s.info), x) <==> Unclaimed(s.info, x, []) {
      UnusedIsUnclaimed(s.info, x);
    }
  }

  /** While every frame has one owner, every batch is. */
  lemma OwnedBatchable<P>(s: State<P>, f: Tier, t: Tier, n: nat, frames: set<Frame>)
    requires WellFormed(s) && n <= |s.q[Migrate(f, t)]| && n <= |s.q[Free(t)]| && Addressed(s.info) &&
             Owned(s.info, frames)
    ensures var pages, frees := s.q[Migrate(f, t)][..n], s.q[Free(t)][..n];
            && (forall p :: p in pages ==> p in s.info) && (forall p :: p in frees ==> p in s.info)
            && MigrationPath.Batchable(PageTable(s.info), AddressesOf(s.info, pages), FramesOf(s.info, frees))
  {
    var frees := s.q[Free(t)][..n];
    BatchableIff(s, f, t, n);
    BatchMoving(s, f, t, n);
    hide WellFormed;
    hide Batch;
    hide PageTable;
    hide InfoMoved;
    hide MigrationPath.Batchable;
    var dst := FramesOf(s.info, frees);
    forall j, k | 0 <= j < k < |dst| ensures dst[j] != dst[k] {
      assert frees[j] in frees && frees[k] in frees && frees[j] != frees[k];
      assert NotShared(s.info, frees[j], frees[k]);
    }
    forall k, p | 0 <= k < |dst| && p in s.info && Present(s.info, p) ensures FrameOf(s.info[p]) != dst[k] {
      assert frees[k] in frees && NotShared(s.info, p, frees[k]);
    }
  }

  lemma MovedAddressed<P>(i: map<P, Info>, r: map<P, Info>, pages: seq<P>, frees: seq<P>, f: Tier, t: Tier)
    requires Moving(i, r, pages, frees, f, t) && Addressed(i)
    ensures Addressed(r)
  {
    hide Parties;
    forall p, q | p in r && q in r ensures AddressesDiffer(r, p, q) {
      AfterMove(i, r, pages, frees, f, t, p);
      AfterMove(i, r, pages, frees, f, t, q);
      assert AddressesDiffer(i, p, q);
    }
  }

  lemma SameAddresses<P>(i: map<P, Info>, r: map<P, Info>, pages: seq<P>, frees: seq<P>, f: Tier, t: Tier, va: nat)
    requires Moving(i, r, pages, frees, f, t) && Addressed(i) && Addressed(r)
    ensures va in PageTable(r) <==> va in PageTable(i)
  {
    hide PageTable;
    if va in PageTable(r) {
      var p := PageAt(r, va);
      AfterMove(i, r, pages, frees, f, t, p);
      TableAt(i, p);
    }
    if va in PageTable(i) {
      var p := PageAt(i, va);
      AfterMove(i, r, pages, frees, f, t, p);
      TableAt(r, p);
    }
  }

  lemma MovedEntry<P>(i: map<P, Info>, r: map<P, Info>, pages: seq<P>, frees: seq<P>, f: Tier, t: Tier, k: nat)
    requires Moving(i, r, pages, frees, f, t) && Addressed(i) && Addressed(r) && k < |pages|
    ensures pages[k] in i && frees[k] in i && i[pages[k]].va in PageTable(i) && i[pages[k]].va in PageTable(r)
    ensures PageTable(r)[i[pages[k]].va] == MigrationPath.Pte(FrameOf(i[frees[k]]), true, true)
  {
    hide PageTable;
    assert pages[k] in pages && frees[k] in frees;
    AfterMove(i, r, pages, frees, f, t, pages[k]);
    TableAt(i, pages[k]);
    TableAt(r, pages[k]);
  }

  lemma OtherEntry<P>(i: map<P, Info>, r: map<P, Info>, pages: seq<P>, frees: seq<P>, f: Tier, t: Tier, va: nat)
    requires Moving(i, r, pages, frees, f, t) && Addressed(i) && Addressed(r) && va in PageTable(i)
    requires forall k :: 0 <= k < |pages| ==> pages[k] in i && i[pages[k]].va != va
    ensures va in PageTable(r) && PageTable(r)[va] == PageTable(i)[va]
  {
    hide PageTable;
    var p := PageAt(i, va);
    assert p !in pages;
    AfterMove(i, r, pages, frees, f, t, p);
    TableAt(i, p);
    TableAt(r, p);
  }

  lemma MovedTable<P>(i: map<P, Info>, r: map<P, Info>, pages: seq<P>, frees: seq<P>, f: Tier, t: Tier)
    requires Moving(i, r, pages, frees, f, t) && Addressed(i) && Addressed(r)
    requires (forall p :: p in pages ==> p in i) && (forall p :: p in frees ==> p in i) && |pages| == |frees|
    ensures MigrationPath.Retabled(PageTable(i), PageTable(r), AddressesOf(i, pages), FramesOf(i, frees))
  {
    hide PageTable;
    hide Moving;
    hide Addressed;
    forall va ensures va in PageTable(r) <==> va in PageTable(i) {
      SameAddresses(i, r, pages, frees, f, t, va);
    }
    assert PageTable(r).Keys == PageTable(i).Keys;
    forall k | 0 <= k < |pages|
      ensures AddressesOf(i, pages)[k] in PageTable(i)
      ensures PageTable(r)[AddressesOf(i, pages)[k]] == MigrationPath.Pte(FramesOf(i, frees)[k], true, true)
    {
      MovedEntry(i, r, pages, frees, f, t, k);
    }
    forall va | va in PageTable(i) && va !in AddressesOf(i, pages) ensures PageTable(r)[va] == PageTable(i)[va] {
      forall k | 0 <= k < |pages| ensures pages[k] in i && i[pages[k]].va != va {
        assert AddressesOf(i, pages)[k] in AddressesOf(i, pages) && pages[k] in pages;
      }
      OtherEntry(i, r, pages, frees, f, t, va);
    }
  }

  /** The descriptors a batch leaves are the page table with its pages on their new frames. */
  lemma BatchTable<P>(s: State<P>, f: Tier, t: Tier, n: nat)
    requires WellFormed(s) && n <= |s.q[Migrate(f, t)]| && n <= |s.q[Free(t)]| && Addressed(s.info)
    ensures var pages, frees, r := s.q[Migrate(f, t)][..n], s.q[Free(t)][..n], Batch(s, f, t, n).info;
            && (forall p :: p in pages ==> p in s.info) && (forall p :: p in frees ==> p in s.info) && Addressed(r)
            && MigrationPath.Retabled(PageTable(s.info), PageTable(r), AddressesOf(s.info, pages),
                                      FramesOf(s.info, frees))
  {
    hide *;
    var pages, frees, r := s.q[Migrate(f, t)][..n], s.q[Free(t)][..n], Batch(s, f, t, n).info;
    BatchMoving(s, f, t, n);
    MovedAddressed(s.info, r, pages, frees, f, t);
    MovingParties(s.info, r, pages, frees, f, t);
    MovedTable(s.info, r, pages, frees, f, t);
  }

  lemma SameTable(pt: map<nat, MigrationPath.Pte>, a: map<nat, MigrationPath.Pte>, b: map<nat, MigrationPath.Pte>,
                  vas: seq<nat>, dst: seq<Frame>)
    requires MigrationPath.Retabled(pt, a, vas, dst) && MigrationPath.Retabled(pt, b, vas, dst)
    ensures a == b
  {
    forall va | va in a ensures a[va] == b[va] {
      if va in vas {
        var k :| 0 <= k < |vas| && vas[k] == va;
      }
    }
  }

  /** The data path and the descriptors agree: when the data path has carried out a batch of the migration thread,
      beside whatever the application does, the page table is the one the descriptors then say. */
  lemma TableFollowsDescriptors<P>(s: State<P>, f: Tier, t: Tier, n: nat, path: MigrationPath.System,
                                   run: seq<MigrationPath.Action>)
    requires WellFormed(s) && n <= |s.q[Migrate(f, t)]| && n <= |s.q[Free(t)]| && Addressed(s.info)
    requires MigrationPath.Inv(path) && path.pt == PageTable(s.info) && forall i :: 0 <= i < |run| ==> !run[i].Begin?
    requires (forall p :: p in s.q[Migrate(f, t)][..n] ==> p in s.info) &&
             (forall p :: p in s.q[Free(t)][..n] ==> p in s.info)
    requires var begin := MigrationPath.Begin(AddressesOf(s.info, s.q[Migrate(f, t)][..n]),
             FramesOf(s.info, s.q[Free(t)][..n]));
             && MigrationPath.Enabled(path, begin) && MigrationPath.Possible(MigrationPath.Do(path, begin), run)
             && MigrationPath.After(MigrationPath.Do(path, begin), run).phase.Quiet?
    ensures var begin := MigrationPath.Begin(AddressesOf(s.info, s.q[Migrate(f, t)][..n]),
            FramesOf(s.info, s.q[Free(t)][..n]));
            && Addressed(Batch(s, f, t, n).info)
            && MigrationPath.After(MigrationPath.Do(path, begin), run).pt == PageTable(Batch(s, f, t, n).info)
  {
    hide WellFormed;
    hide Batch;
    hide PageTable;
    hide Addressed;
    hide MigrationPath.Inv;
    hide MigrationPath.Enabled;
    hide MigrationPath.Do;
    hide MigrationPath.After;
    hide MigrationPath.Possible;
    hide MigrationPath.Retabled;
    var vas, dst := AddressesOf(s.info, s.q[Migrate(f, t)][..n]), FramesOf(s.info, s.q[Free(t)][..n]);
    BatchTable(s, f, t, n);
    MigrationPath.BatchRetables(path, vas, dst, run);
    SameTable(path.pt, MigrationPath.After(MigrationPath.Do(path, MigrationPath.Begin(vas, dst)), run).pt,
              PageTable(Batch(s, f, t, n).info), vas, dst);
  }

  /* ---- A run on which two present pages share a frame ---- */

  lemma FirstPopulated<P>(drams: seq<P>, nvms: seq<P>, size: nat, va: nat)
    requires 2 <= |drams| && |drams| + |nvms| < WORD && NoRepeats(drams + nvms)
    ensures var s0 := Init(drams, nvms, size);
            && s0.q[Free(AllocationTier(s0))] != []
            && var s := Populated(s0, va);
            && WellFormed(s) && s.q[Mmap(Dram)] == [drams[0]] && s.q[Free(Dram)] == drams[1..]
            && s.q[Migrate(Dram, Dram)] == [] && drams[0] in s.info && s.info[drams[0]].present
            && drams[1] in s.info && s.info[drams[1]].offset == size
  {
    hide Init;
    hide WellFormed;
    hide Populated;
    var s0 := Init(drams, nvms, size);
    InitQueues(drams, nvms, size);
    InitKeeps(drams, nvms, size);
    InitInfo(drams, nvms, size);
    TwoParts(drams, nvms);
    PopulatesDram(s0, va);
    assert [] + [drams[0]] == [drams[0]] && drams[0] != drams[1];
  }

  /** One page mapped and moved within DRAM: it has the second frame, and so has the descriptor that is last on the free
      list. */
  lemma MovedWithinDram<P>(drams: seq<P>, nvms: seq<P>, size: nat, va: nat) returns (s: State<P>)
    requires 2 <= |drams| && |drams| + |nvms| < WORD && NoRepeats(drams + nvms) && size > 0
    ensures var asked := Requested(Populated(Init(drams, nvms, size), va), Dram, Dram, 1);
            && 1 <= |asked.q[Migrate(Dram, Dram)]| && 1 <= |asked.q[Free(Dram)]| && s == Batch(asked, Dram, Dram, 1)
    ensures WellFormed(s) && s.q[Free(Dram)] == drams[2..] + [drams[1]]
    ensures drams[0] in s.info && drams[1] in s.info && s.info[drams[0]].present
    ensures FrameOf(s.info[drams[0]]) == FrameOf(s.info[drams[1]]) == Frame(true, size)
  {
    hide *;
    FirstPopulated(drams, nvms, size, va);
    var asked := AskedWithin(Populated(Init(drams, nvms, size), va));
    assert asked.q[Migrate(Dram, Dram)][..1] == [drams[0]] && asked.q[Free(Dram)][..1] == [drams[1]];
    BatchKeeps(asked, Dram, Dram, 1);
    BatchQueue(asked, Dram, Dram, 1, Free(Dram));
    AfterWithin(asked.q[Free(Dram)], drams);
    BatchMoving(asked, Dram, Dram, 1);
    s := Batch(asked, Dram, Dram, 1);
    FirstMove(asked.info, s.info, drams[0], drams[1], size);
  }

  lemma AskedWithin<P>(s: State<P>) returns (asked: State<P>)
    requires WellFormed(s) && s.q[Migrate(Dram, Dram)] == []
    ensures asked == Requested(s, Dram, Dram, |s.q[Mmap(Dram)]|) && WellFormed(asked) && asked.info == s.info
    ensures asked.q[Migrate(Dram, Dram)] == s.q[Mmap(Dram)] && asked.q[Free(Dram)] == s.q[Free(Dram)]
    ensures asked.num[Migrate(Dram, Dram)] == Plus(s.num[Migrate(Dram, Dram)], |s.q[Mmap(Dram)]|)
  {
    hide WellFormed;
    hide Plus;
    hide Minus;
    var n := |s.q[Mmap(Dram)]|;
    RequestedKeeps(s, Dram, Dram, n);
    asked := Requested(s, Dram, Dram, n);
    assert s.q[Mmap(Dram)][..n] == s.q[Mmap(Dram)] && [] + s.q[Mmap(Dram)] == s.q[Mmap(Dram)];
  }

  lemma AfterWithin<P>(free: seq<P>, drams: seq<P>)
    requires 2 <= |drams| && free == drams[1..]
    ensures After(Free(Dram), Dram, Dram, free, [drams[0]], free[..1], 1) == drams[2..] + [drams[1]]
  {
    assert free[1..] == drams[2..] && free[..1] == [drams[1]];
  }

  lemma FirstMove<P>(i: map<P, Info>, r: map<P, Info>, p: P, x: P, size: nat)
    requires Moving(i, r, [p], [x], Dram, Dram) && p in i && x in i && i[p].present && i[x].offset == size
    ensures p in r && x in r && r[p].present && FrameOf(r[p]) == FrameOf(r[x]) == Frame(true, size)
  {
    assert [p][0] == p && [x][0] == x && p in [p] && x in [x];
    assert MovedTo(i, r, [p][0], [x][0], Dram, Dram);
  }

  /** Whatever the sizes, as soon as there are two DRAM frames: map a page, move it within DRAM, and populate the
      rest of DRAM.  The last page then gets the frame the first one has been moved to, which populate clears: two
      present pages share a frame. */
  lemma PopulateSharesAFrame<P>(drams: seq<P>, nvms: seq<P>, size: nat, va: nat, va': nat)
    requires 2 <= |drams| && |drams| + |nvms| < WORD && NoRepeats(drams + nvms) && size > 0
    ensures var asked := Requested(Populated(Init(drams, nvms, size), va), Dram, Dram, 1);
            && 1 <= |asked.q[Migrate(Dram, Dram)]| && 1 <= |asked.q[Free(Dram)]|
            && var s := Batch(asked, Dram, Dram, 1);
            && |drams| - 1 == |s.q[Free(Dram)]|
            && var r := PopulatedRange(s, va', |drams| - 1, size).info;
            && Present(r, drams[0]) && Present(r, drams[1]) && FrameOf(r[drams[0]]) == FrameOf(r[drams[1]]) &&
                !Separate(r)
  {
    hide WellFormed;
    hide Batch;
    hide PopulatedRange;
    hide Populated;
    hide Requested;
    hide Init;
    var s := MovedWithinDram(drams, nvms, size, va);
    var n, free := |drams| - 1, s.q[Free(Dram)];
    FillsDram(s, va', n, size);
    var r := PopulatedRange(s, va', n, size).info;
    TwoParts(drams, nvms);
    assert free[..n] == free && free[n - 1] == drams[1];
    assert drams[0] !in free;
    assert Same(s.info, r, drams[0]);
    assert !FramesDiffer(r, drams[0], drams[1]);
  }

  /* ---- A batch the data path may not be given ---- */

  /** Within a tier, a batch that comes round to a descriptor an earlier one has freed takes the frame of a present
      page: the data path would copy one live page over another. */
  lemma NextNotBatchable<P>(s: State<P>, t: Tier, n: nat, m: nat)
    requires WellFormed(s) && Addressed(s.info) && n + m <= |s.q[Migrate(t, t)]|
    requires 0 < n <= |s.q[Free(t)]| && m <= |s.q[Free(t)]| < n + m
    ensures var s1 := Batch(s, t, t, n);
            && WellFormed(s1) && Addressed(s1.info) && m <= |s1.q[Migrate(t, t)]| && m <= |s1.q[Free(t)]|
            && var pages, frees := s1.q[Migrate(t, t)][..m], s1.q[Free(t)][..m];
            && (forall p :: p in pages ==> p in s1.info) && (forall p :: p in frees ==> p in s1.info)
            && !MigrationPath.Batchable(PageTable(s1.info), AddressesOf(s1.info, pages), FramesOf(s1.info, frees))
  {
    hide WellFormed;
    hide Batch;
    hide PageTable;
    hide Moving;
    hide Addressed;
    hide MigrationPath.Batchable;
    var s1, free := Batch(s, t, t, n), s.q[Free(t)];
    var pages, frees := s.q[Migrate(t, t)][..n], free[..n];
    BatchKeeps(s, t, t, n);
    WithinQueues(s, t, n);
    BatchMoving(s, t, t, n);
    MovingParties(s.info, s1.info, pages, frees, t, t);
    MovedAddressed(s.info, s1.info, pages, frees, t, t);
    BatchableIff(s1, t, t, m);
    var k := |free| - n;
    assert s1.q[Free(t)][..m][k] == free[0];
    FrameTaken(s.info, s1.info, pages, frees, t);
    assert !Unclaimed(s1.info, FramesOf(s1.info, s1.q[Free(t)][..m])[k], []) by {
      assert Present(s1.info, pages[0]);
    }
  }

  /** After a batch within a tier its first page has the frame of its first free descriptor, which keeps it. */
  lemma FrameTaken<P>(i: map<P, Info>, r: map<P, Info>, pages: seq<P>, frees: seq<P>, t: Tier)
    requires Moving(i, r, pages, frees, t, t) && pages != [] && |frees| == |pages|
    ensures Present(r, pages[0]) && frees[0] in r && FrameOf(r[pages[0]]) == FrameOf(r[frees[0]])
  {
    assert pages[0] in pages && frees[0] in frees && pages[0] in i;
    AfterMove(i, r, pages, frees, t, t, pages[0]);
    FreeKeepsFrame(i, r, pages, frees, t, frees[0]);
  }

  /** All DRAM pages but the last are mapped, and all of them requested to move within DRAM. */
  function AskedRound<P>(drams: seq<P>, nvms: seq<P>, size: nat, va: nat): State<P>
    requires 0 < |drams| < WORD && |nvms| < WORD
  {
    Requested(Loaded(drams, nvms, |drams| - 1, size, va), Dram, Dram, |drams| - 1)
  }

  lemma AskedRoundParts<P>(drams: seq<P>, nvms: seq<P>, size: nat, va: nat)
    requires 0 < |drams| && |drams| + |nvms| < WORD && NoRepeats(drams + nvms)
    ensures var s, s0, n := AskedRound(drams, nvms, size, va), Init(drams, nvms, size), |drams| - 1;
            && WellFormed(s) && s.q[Migrate(Dram, Dram)] == drams[..n] && s.q[Free(Dram)] == drams[n..]
            && s.num[Migrate(Dram, Dram)] == n && MappedFrom(s0.info, s.info, drams[..n], va, size)
  {
    hide Init;
    hide WellFormed;
    hide Loaded;
    hide MappedFrom;
    hide Requested;
    LoadedParts(drams, nvms, |drams| - 1, size, va);
    var asked := AskedWithin(Loaded(drams, nvms, |drams| - 1, size, va));
    assert asked == AskedRound(drams, nvms, size, va);
  }

  /** Pages mapped one after the other have addresses and frames of their own. */
  lemma MappedApart<P>(drams: seq<P>, nvms: seq<P>, size: nat, va: nat, n: nat, r: map<P, Info>)
    requires n <= |drams| && |drams| + |nvms| < WORD && NoRepeats(drams + nvms) && size > 0
    requires MappedFrom(Init(drams, nvms, size).info, r, drams[..n], va, size)
    ensures Addressed(r) && Separate(r)
  {
    hide Init;
    var i := Init(drams, nvms, size).info;
    InitInfo(drams, nvms, size);
    forall p | p in r ensures Present(r, p) ==> p in drams[..n] {
      if p !in drams[..n] {
        assert Same(i, r, p);
        assert p in drams || p in nvms;
        assert !i[p].present;
      }
    }
    forall p, q | p in r && q in r ensures AddressesDiffer(r, p, q) && FramesDiffer(r, p, q) {
      if Present(r, p) && Present(r, q) && p != q {
        var j :| 0 <= j < n && drams[..n][j] == p;
        var k :| 0 <= k < n && drams[..n][k] == q;
        assert drams[j] == p && drams[k] == q;
        TimesInjective(j, k, size);
      }
    }
  }

  /** Whatever the sizes, as soon as there are three DRAM frames: map all of DRAM but one page, and move the mapped
      pages within DRAM in batches of one, as the repository has them.  Present pages had frames of their own; the
      second batch is one the data path may not be given; and in the end pages share frames. */
  lemma DrainSharesAFrame<P>(drams: seq<P>, nvms: seq<P>, size: nat, va: nat)
    requires 3 <= |drams| && |drams| + |nvms| < WORD && NoRepeats(drams + nvms) && size > 0
    ensures var s := AskedRound(drams, nvms, size, va);
            && Able(s, Dram, Dram, 1) && Separate(s.info) && !Separate(DrainQueue(s, Dram, Dram, 1).info)
            && 1 <= |s.q[Migrate(Dram, Dram)]| && 1 <= |s.q[Free(Dram)]|
            && var s1 := Batch(s, Dram, Dram, 1);
            && Addressed(s1.info) && 1 <= |s1.q[Migrate(Dram, Dram)]| && 1 <= |s1.q[Free(Dram)]|
            && var pages, frees := s1.q[Migrate(Dram, Dram)][..1], s1.q[Free(Dram)][..1];
            && (forall p :: p in pages ==> p in s1.info) && (forall p :: p in frees ==> p in s1.info)
            && !MigrationPath.Batchable(PageTable(s1.info), AddressesOf(s1.info, pages), FramesOf(s1.info, frees))
  {
    hide AskedRound;
    hide WellFormed;
    hide Batch;
    hide DrainQueue;
    hide PageTable;
    hide Addressed;
    hide Separate;
    hide MappedFrom;
    hide MigrationPath.Batchable;
    var s := AskedRound(drams, nvms, size, va);
    AskedRoundParts(drams, nvms, size, va);
    MappedApart(drams, nvms, size, va, |drams| - 1, s.info);
    NextNotBatchable(s, Dram, 1, 1);
    DrainCrowds(s, Dram, 1);
  }
}
