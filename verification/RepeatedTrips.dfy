/** The driver's round trip made any number of times, from pebs_init on, with m pages mapped.  The free descriptors of
    the two tiers, one list after the other, form a ring that every trip turns by m places: the ways up take frames of
    NVM that lie inside DRAM as well, until they come to those that do not. */
module RepeatedTrips {
  import opened Basics
  import Bits
  import opened TierSpec
  import opened Draining
  import opened RoundTrip

  /* ---- Populating a range ---- */

  lemma PopulatedLengths<P>(s: State<P>, va: nat)
    requires |s.q[Free(Dram)]| + |s.q[Free(Nvm)]| > 0
    ensures s.q[Free(AllocationTier(s))] != []
    ensures var s' := Populated(s, va);
            |s'.q[Free(Dram)]| + |s'.q[Free(Nvm)]| == |s.q[Free(Dram)]| + |s.q[Free(Nvm)]| - 1
  {
  }

  /** hemem_mmap_populate for n pages from va on. */
  function PopulatedRange<P>(s: State<P>, va: nat, n: nat, size: nat): State<P>
    requires n <= |s.q[Free(Dram)]| + |s.q[Free(Nvm)]|
    decreases n
  {
    if n == 0 then s
    else
      PopulatedLengths(s, va);
      PopulatedRange(Populated(s, va), va + size, n - 1, size)
  }

  /** The descriptor of a page that has been mapped at va. */
  function MappedAt(i: Info, va: nat): Info { i.(va := va, present := true, up := 0, down := 0) }

  lemma PopulatesDram<P>(s: State<P>, va: nat)
    requires WellFormed(s) && s.q[Free(Dram)] != []
    ensures var s', p := Populated(s, va), s.q[Free(Dram)][0];
            && WellFormed(s') && p in s.info && s'.info == s.info[p := MappedAt(s.info[p], va)]
            && s'.q == s.q[Free(Dram) := s.q[Free(Dram)][1..]][Mmap(Dram) := s.q[Mmap(Dram)] + [p]]
            && s'.num == CountMapped(s.num, Dram)
  {
    hide Total;
    PopulatedKeeps(s, va);
    assert s.q[Free(Dram)][0] in s.q[Free(Dram)];
  }

  /** The first n free pages of DRAM after n pages of the range have been mapped. */
  ghost predicate MappedFrom<P>(i: map<P, Info>, r: map<P, Info>, frees: seq<P>, va: nat, size: nat) {
    && r.Keys == i.Keys
    && (forall k {:trigger frees[k]} :: 0 <= k < |frees| ==>
          frees[k] in i && r[frees[k]] == MappedAt(i[frees[k]], va + k * size))
    && (forall p {:trigger Same(i, r, p)} :: p in i && p !in frees ==> Same(i, r, p))
  }

  lemma MappedFromNext<P>(i: map<P, Info>, m: map<P, Info>, r: map<P, Info>, frees: seq<P>, va: nat, size: nat)
    requires frees != [] && NoRepeats(frees) && frees[0] in i && m == i[frees[0] := MappedAt(i[frees[0]], va)]
    requires MappedFrom(m, r, frees[1..], va + size, size)
    ensures MappedFrom(i, r, frees, va, size)
  {
    forall k | 0 <= k < |frees| ensures frees[k] in i && r[frees[k]] == MappedAt(i[frees[k]], va + k * size) {
      if k == 0 {
        assert Same(m, r, frees[0]);
      } else {
        assert frees[1..][k - 1] == frees[k] && va + size + (k - 1) * size == va + k * size;
      }
    }
    forall p | p in i && p !in frees ensures Same(i, r, p) {
      assert Same(m, r, p);
    }
  }

  lemma PopulatedNone<P>(s: State<P>, va: nat, size: nat)
    ensures PopulatedRange(s, va, 0, size) == s
    ensures var free := s.q[Free(Dram)];
            && s.q == s.q[Free(Dram) := free[0..]][Mmap(Dram) := s.q[Mmap(Dram)] + free[..0]]
            && MappedFrom(s.info, s.info, free[..0], va, size) && Plus(s.num[Mmap(Dram)], 0) == s.num[Mmap(Dram)]
  {
    assert s.q[Free(Dram)][0..] == s.q[Free(Dram)] && s.q[Mmap(Dram)] + s.q[Free(Dram)][..0] == s.q[Mmap(Dram)];
    forall p | p in s.info ensures Same(s.info, s.info, p) {
    }
  }

  lemma PopulatedNext<P>(s: State<P>, va: nat, n: nat, size: nat)
    requires 0 < n <= |s.q[Free(Dram)]| + |s.q[Free(Nvm)]|
    ensures s.q[Free(AllocationTier(s))] != []
    ensures var s1 := Populated(s, va);
            && n - 1 <= |s1.q[Free(Dram)]| + |s1.q[Free(Nvm)]|
            && PopulatedRange(s, va, n, size) == PopulatedRange(s1, va + size, n - 1, size)
  {
    PopulatedLengths(s, va);
  }

  lemma CountedDram(num: Counters, num': Counters)
    requires num' == CountMapped(num, Dram)
    ensures num'[Mmap(Dram)] == Plus(num[Mmap(Dram)], 1) && forall f, t :: num'[Migrate(f, t)] == num[Migrate(f, t)]
  {
  }

  /** Mapping n pages while DRAM has them: they leave the free list in order. */
  lemma {:induction false} FillsDram<P>(s: State<P>, va: nat, n: nat, size: nat)
    requires WellFormed(s) && n <= |s.q[Free(Dram)]|
    ensures var s', free := PopulatedRange(s, va, n, size), s.q[Free(Dram)];
            && WellFormed(s') && MappedFrom(s.info, s'.info, free[..n], va, size)
            && s'.q == s.q[Free(Dram) := free[n..]][Mmap(Dram) := s.q[Mmap(Dram)] + free[..n]]
            && s'.num[Mmap(Dram)] == Plus(s.num[Mmap(Dram)], n)
            && (forall f, t :: s'.num[Migrate(f, t)] == s.num[Migrate(f, t)])
    decreases n
  {
    hide *;
    var free := s.q[Free(Dram)];
    if n == 0 {
      PopulatedNone(s, va, size);
    } else {
      PopulatesDram(s, va);
      PopulatedNext(s, va, n, size);
      var s1 := Populated(s, va);
      CountedDram(s.num, s1.num);
      assert s1.q[Free(Dram)] == free[1..];
      FillsDram(s1, va + size, n - 1, size);
      FillOrder(s.q, s1.q, PopulatedRange(s, va, n, size).q, n);
      PlusPlus(s.num[Mmap(Dram)], 1, n - 1);
      FreeOnce(s, n);
      assert free[1..][..n - 1] == free[..n][1..];
      MappedFromNext(s.info, s1.info, PopulatedRange(s, va, n, size).info, free[..n], va, size);
    }
  }

  lemma FillOrder<P>(q: Queues<P>, q1: Queues<P>, r: Queues<P>, n: nat)
    requires 0 < n <= |q[Free(Dram)]|
    requires q1 == q[Free(Dram) := q[Free(Dram)][1..]][Mmap(Dram) := q[Mmap(Dram)] + [q[Free(Dram)][0]]]
    requires r == q1[Free(Dram) := q1[Free(Dram)][n - 1..]][Mmap(Dram) := q1[Mmap(Dram)] + q1[Free(Dram)][..n - 1]]
    ensures r == q[Free(Dram) := q[Free(Dram)][n..]][Mmap(Dram) := q[Mmap(Dram)] + q[Free(Dram)][..n]]
  {
    var free := q[Free(Dram)];
    assert free[1..][n - 1..] == free[n..] && [free[0]] + free[1..][..n - 1] == free[..n];
    assert q[Mmap(Dram)] + [free[0]] + free[1..][..n - 1] == q[Mmap(Dram)] + ([free[0]] + free[1..][..n - 1]);
  }

  lemma FreeOnce<P>(s: State<P>, n: nat)
    requires WellFormed(s) && n <= |s.q[Free(Dram)]|
    ensures NoRepeats(s.q[Free(Dram)][..n])
  {
    ApartQueues(s, Free(Dram), Free(Dram));
  }

  lemma InitQueues<P>(drams: seq<P>, nvms: seq<P>, size: nat)
    requires |drams| < WORD && |nvms| < WORD
    ensures var s := Init(drams, nvms, size);
            && s.q[Free(Dram)] == drams && s.q[Free(Nvm)] == nvms && s.q[Mmap(Dram)] == [] && s.q[Mmap(Nvm)] == []
            && (forall f, t {:trigger s.q[Migrate(f, t)]} {:trigger s.num[Migrate(f, t)]} ::
                  s.q[Migrate(f, t)] == [] && s.num[Migrate(f, t)] == 0)
  {
  }

  /* ---- Some of DRAM mapped ---- */

  /** The state once m pages of DRAM have been populated. */
  function Loaded<P>(drams: seq<P>, nvms: seq<P>, m: nat, size: nat, va: nat): State<P>
    requires m <= |drams| < WORD && |nvms| < WORD
  {
    PopulatedRange(Init(drams, nvms, size), va, m, size)
  }

  /** The free descriptors, those of DRAM first. */
  function FreeOnes<P>(s: State<P>): seq<P> { s.q[Free(Dram)] + s.q[Free(Nvm)] }

  /** The number of the frame of free descriptor p when the first m of d DRAM pages have just been mapped. */
  function FrameNumber(p: nat, d: nat, m: nat): nat {
    if p + m < d then p + m else p + m - d
  }

  /** Tiers of d and n pages with room for m of them in each. */
  predicate Room(d: nat, n: nat, m: nat) { 0 < m <= d && m <= n && d + n < WORD }

  /** The number of the frame of free descriptor p when the ring has been turned by c places. */
  function RingFrame(d: nat, n: nat, m: nat, c: nat, p: nat): nat
    requires Room(d, n, m)
  {
    FrameNumber((c + p) % (d - m + n), d, m)
  }

  /** Free descriptor p has the offset it should have when the ring has been turned by c places. */
  ghost predicate HasOffset<P>(s: State<P>, d: nat, n: nat, m: nat, size: nat, c: nat, p: nat)
    requires Room(d, n, m)
  {
    && p < |FreeOnes(s)| && FreeOnes(s)[p] in s.info
    && s.info[FreeOnes(s)[p]].offset == RingFrame(d, n, m, c, p) * size
  }

  /** m pages are mapped, all in DRAM, no request waits, and the ring of free descriptors has been turned by c. */
  ghost predicate Turned<P>(s: State<P>, d: nat, n: nat, m: nat, size: nat, c: nat) {
    && Room(d, n, m) && WellFormed(s) && Idle(s) && s.q[Mmap(Nvm)] == [] && |s.q[Mmap(Dram)]| == m
    && |s.q[Free(Dram)]| == d - m && |s.q[Free(Nvm)]| == n
    && (forall p: nat {:trigger HasOffset(s, d, n, m, size, c, p)} :: p < d - m + n ==>
          HasOffset(s, d, n, m, size, c, p))
  }

  /** A page that has an address and a frame inside DRAM. */
  ghost predicate AtHome<P>(info: map<P, Info>, p: P, g: Sizes) {
    g.page > 0 && p in info && info[p].va != 0 && info[p].va % g.page == 0 && Fits(info[p].offset, Dram, g)
  }

  ghost predicate Housed<P>(s: State<P>, g: Sizes) {
    forall p {:trigger AtHome(s.info, p, g)} :: p in s.q[Mmap(Dram)] ==> AtHome(s.info, p, g)
  }

  lemma KthAddress(va: nat, k: nat, size: nat)
    requires size > 0 && va % size == 0
    ensures (va + k * size) % size == 0
  {
    var m := va / size;
    assert va + k * size == size * (m + k);
    Bits.DivMod(va + k * size, size, m + k, 0);
  }

  lemma Spread(k: nat, e: nat, size: nat)
    ensures (k + e) * size == k * size + e * size
  {
  }

  lemma Below(k: nat, d: nat, size: nat)
    ensures k < d ==> k * size + size <= d * size
    ensures k >= d ==> k * size >= d * size
  {
    if k < d {
      Spread(k, 1, size);
      Spread(k + 1, d - k - 1, size);
    } else {
      Spread(d, k - d, size);
    }
  }

  /** Frame u of a device of e pages fits if and only if it has one. */
  lemma FrameFits(u: nat, t: Tier, d: nat, n: nat, size: nat)
    requires size > 0
    ensures Fits(u * size, t, SizesOf(d, n, size)) <==> u < if t == Dram then d else n
  {
    Below(u, if t == Dram then d else n, size);
  }

  lemma LoadedParts<P>(drams: seq<P>, nvms: seq<P>, m: nat, size: nat, va: nat)
    requires m <= |drams| && |drams| + |nvms| < WORD && NoRepeats(drams + nvms)
    ensures var s, s0 := Loaded(drams, nvms, m, size, va), Init(drams, nvms, size);
            && WellFormed(s) && Idle(s) && s.q[Mmap(Dram)] == drams[..m] && s.q[Free(Nvm)] == nvms
            && s.q[Free(Dram)] == drams[m..] && s.q[Mmap(Nvm)] == []
            && MappedFrom(s0.info, s.info, drams[..m], va, size)
  {
    hide Init;
    hide PopulatedRange;
    hide WellFormed;
    hide MappedFrom;
    hide Plus;
    var s0 := Init(drams, nvms, size);
    InitQueues(drams, nvms, size);
    InitKeeps(drams, nvms, size);
    FillsDram(s0, va, m, size);
    assert [] + drams[..m] == drams[..m];
  }

  lemma LoadedOffsets<P>(s: State<P>, drams: seq<P>, nvms: seq<P>, m: nat, size: nat, va: nat, p: nat)
    requires Room(|drams|, |nvms|, m) && NoRepeats(drams + nvms) && p < |drams| - m + |nvms|
    requires s.q[Free(Dram)] == drams[m..] && s.q[Free(Nvm)] == nvms
    requires MappedFrom(Init(drams, nvms, size).info, s.info, drams[..m], va, size)
    ensures p < |FreeOnes(s)| && FreeOnes(s)[p] in s.info
    ensures s.info[FreeOnes(s)[p]].offset == FrameNumber(p, |drams|, m) * size
  {
    hide Init;
    var i, x := Init(drams, nvms, size).info, FreeOnes(s)[p];
    InitInfo(drams, nvms, size);
    TwoParts(drams, nvms);
    if p < |drams| - m {
      assert x == drams[m + p];
    } else {
      assert x == nvms[p - (|drams| - m)];
    }
    assert x !in drams[..m];
    assert Same(i, s.info, x);
  }

  lemma NotYetTurned<P>(s: State<P>, d: nat, n: nat, m: nat, size: nat, p: nat)
    requires Room(d, n, m) && p < d - m + n == |FreeOnes(s)| && FreeOnes(s)[p] in s.info
    requires s.info[FreeOnes(s)[p]].offset == FrameNumber(p, d, m) * size
    ensures HasOffset(s, d, n, m, size, 0, p)
  {
    hide FrameNumber;
    SmallMod(p, d - m + n);
  }

  lemma LoadedHoused<P>(s: State<P>, drams: seq<P>, nvms: seq<P>, m: nat, size: nat, va: nat)
    requires Room(|drams|, |nvms|, m) && NoRepeats(drams + nvms) && size > 0 && va > 0 && va % size == 0
    requires s.q[Mmap(Dram)] == drams[..m]
    requires MappedFrom(Init(drams, nvms, size).info, s.info, drams[..m], va, size)
    ensures Housed(s, SizesOf(|drams|, |nvms|, size))
  {
    hide Init;
    hide Fits;
    InitInfo(drams, nvms, size);
    forall p | p in s.q[Mmap(Dram)] ensures AtHome(s.info, p, SizesOf(|drams|, |nvms|, size)) {
      var k :| 0 <= k < m && drams[..m][k] == p;
      assert drams[k] == p;
      KthAddress(va, k, size);
      FrameFits(k, Dram, |drams|, |nvms|, size);
    }
  }

  lemma LoadedTurned<P>(drams: seq<P>, nvms: seq<P>, m: nat, size: nat, va: nat)
    requires Room(|drams|, |nvms|, m) && NoRepeats(drams + nvms) && size > 0 && va > 0 && va % size == 0
    ensures var s := Loaded(drams, nvms, m, size, va);
            && Turned(s, |drams|, |nvms|, m, size, 0) && Housed(s, SizesOf(|drams|, |nvms|, size))
            && s.q[Mmap(Dram)] == drams[..m]
  {
    hide Loaded;
    hide WellFormed;
    hide Idle;
    hide Init;
    hide MappedFrom;
    hide HasOffset;
    hide Housed;
    var s := Loaded(drams, nvms, m, size, va);
    LoadedParts(drams, nvms, m, size, va);
    LoadedHoused(s, drams, nvms, m, size, va);
    forall p: nat | p < |drams| - m + |nvms| ensures HasOffset(s, |drams|, |nvms|, m, size, 0, p) {
      LoadedOffsets(s, drams, nvms, m, size, va, p);
      NotYetTurned(s, |drams|, |nvms|, m, size, p);
    }
  }

  /* ---- What a trip does to the ring ---- */

  /** The orders in which a trip asks for the pages on its way down and on its way up. */
  datatype Trip<P> = Trip(down: seq<P>, up: seq<P>)

  /** A trip with all of these pages. */
  ghost predicate TripOf<P>(o: Trip<P>, pages: seq<P>) {
    && multiset(o.down) == multiset(pages) && |o.down| == |pages|
    && multiset(o.up) == multiset(pages) && |o.up| == |pages|
  }

  lemma TurnedReady<P>(s: State<P>, d: nat, n: nat, m: nat, size: nat, c: nat, o: Trip<P>)
    requires Turned(s, d, n, m, size, c) && TripOf(o, s.q[Mmap(Dram)])
    ensures Ready(s) && Returnable(s, o.down, o.up) && |o.down| == |o.up| == m
  {
    hide WellFormed;
    hide Idle;
  }

  /** A trip turns the ring by the number of pages. */
  lemma TripTurnsRing<P>(s: State<P>, down: seq<P>, up: seq<P>)
    requires Ready(s) && Returnable(s, down, up)
    ensures var s', m := ThereAndBack(s, down, up), |s.q[Mmap(Dram)]|;
            && s'.q[Mmap(Dram)] == up && |s'.q[Free(Dram)]| == |s.q[Free(Dram)]| && m <= |FreeOnes(s)|
            && |s'.q[Free(Nvm)]| == |s.q[Free(Nvm)]| && FreeOnes(s') == FreeOnes(s)[m..] + FreeOnes(s)[..m]
  {
    hide Sent;
    hide WellFormed;
    hide Idle;
    var m, drams, nvms := |s.q[Mmap(Dram)]|, s.q[Free(Dram)], s.q[Free(Nvm)];
    CanReturn(s, down, up);
    SentQueues(s, Dram, Nvm, down);
    var low := Sent(s, Dram, Nvm, down);
    assert low.q[Free(Dram)] == drams + nvms[..m] && low.q[Free(Nvm)] == nvms[m..];
    SentQueues(low, Nvm, Dram, up);
    assert [] + up == up;
    RingTurns(drams, nvms, m);
  }

  lemma RingTurns<P>(a: seq<P>, b: seq<P>, m: nat)
    requires m <= |b|
    ensures (a + b[..m])[m..] + (b[m..] + (a + b[..m])[..m]) == (a + b)[m..] + (a + b)[..m]
  {
    assert (a + b[..m])[m..] + b[m..] == (a + b)[m..];
    assert (a + b[..m])[..m] == (a + b)[..m];
    Assoc((a + b[..m])[m..], b[m..], (a + b)[..m]);
  }

  lemma FreeNotMapped<P>(s: State<P>, g: Tier, f: Tier, x: P)
    requires WellFormed(s) && x in s.q[Free(g)]
    ensures x in s.info && x !in s.q[Mmap(f)]
  {
    ApartQueues(s, Free(g), Mmap(f));
  }

  /** Sending pages changes the offset of no free descriptor. */
  lemma FreeKeepsOffset<P>(s: State<P>, f: Tier, t: Tier, picked: seq<P>, x: P)
    requires Sendable(s, f, t, picked) && (x in s.q[Free(Dram)] || x in s.q[Free(Nvm)])
    ensures var s' := Sent(s, f, t, picked); x in s.info && x in s'.info && s'.info[x].offset == s.info[x].offset
  {
    hide Batch;
    hide Asked;
    hide WellFormed;
    hide MovedTo;
    var s1, n := Asked(s, f, t, picked), |picked|;
    AllAsked(s, f, t, picked);
    BatchMoves(s1, f, t, n);
    assert s1.q[Migrate(f, t)][..n] == picked;
    var frees := s1.q[Free(t)][..n];
    FreeNotMapped(s, if x in s.q[Free(Dram)] then Dram else Nvm, f, x);
    SameElements(picked, s.q[Mmap(f)]);
    if x in frees {
      var k :| 0 <= k < n && frees[k] == x;
      assert MovedTo(s1.info, Batch(s1, f, t, n).info, picked[k], frees[k], f, t);
      FreedKeepsOffset(s.info, Sent(s, f, t, picked).info, picked[k], x, f, t);
    } else {
      assert Same(s1.info, Batch(s1, f, t, n).info, x);
    }
  }

  lemma FreedKeepsOffset<P>(i: map<P, Info>, r: map<P, Info>, p: P, x: P, f: Tier, t: Tier)
    requires MovedTo(i, r, p, x, f, t)
    ensures x in i && x in r && r[x].offset == i[x].offset
  {
  }

  /** Every free descriptor still has its offset after a trip. */
  lemma TripOffsets<P>(s: State<P>, down: seq<P>, up: seq<P>, x: P)
    requires Ready(s) && Returnable(s, down, up) && x in FreeOnes(s)
    ensures var s' := ThereAndBack(s, down, up); x in s.info && x in s'.info && s'.info[x].offset == s.info[x].offset
  {
    hide Sent;
    hide WellFormed;
    hide Idle;
    CanReturn(s, down, up);
    SentQueues(s, Dram, Nvm, down);
    var low, free := Sent(s, Dram, Nvm, down), s.q[Free(Nvm)];
    FreeKeepsOffset(s, Dram, Nvm, down, x);
    assert free == free[..|down|] + free[|down|..];
    assert x in low.q[Free(Dram)] || x in low.q[Free(Nvm)];
    FreeKeepsOffset(low, Nvm, Dram, up, x);
  }

  lemma AroundOnce(c: nat, p: nat, e: nat)
    requires 0 < e <= p
    ensures (c + (p - e)) % e == (c + p) % e
  {
    var r := c + (p - e);
    assert r == r / e * e + r % e;
    assert (c + p) == e * (r / e + 1) + r % e;
    Bits.DivMod(c + p, e, r / e + 1, r % e);
  }

  lemma TripTurnsAt<P>(s: State<P>, d: nat, n: nat, m: nat, size: nat, c: nat, o: Trip<P>, p: nat)
    requires Turned(s, d, n, m, size, c) && Ready(s) && Returnable(s, o.down, o.up) && p < d - m + n
    ensures HasOffset(ThereAndBack(s, o.down, o.up), d, n, m, size, c + m, p)
  {
    hide ThereAndBack;
    hide Returnable;
    hide Ready;
    var e, s' := d - m + n, ThereAndBack(s, o.down, o.up);
    TripTurnsRing(s, o.down, o.up);
    var q := if p + m < e then p + m else p + m - e;
    assert FreeOnes(s')[p] == FreeOnes(s)[q];
    assert HasOffset(s, d, n, m, size, c, q);
    TripOffsets(s, o.down, o.up, FreeOnes(s)[q]);
    if p + m >= e {
      AroundOnce(c, p + m, e);
    }
    assert (c + q) % e == (c + m + p) % e;
  }

  lemma TripTurned<P>(s: State<P>, d: nat, n: nat, m: nat, size: nat, c: nat, o: Trip<P>)
    requires Turned(s, d, n, m, size, c) && TripOf(o, s.q[Mmap(Dram)])
    ensures Returnable(s, o.down, o.up)
    ensures var s' := ThereAndBack(s, o.down, o.up); Turned(s', d, n, m, size, c + m) && s'.q[Mmap(Dram)] == o.up
  {
    hide ThereAndBack;
    hide Returnable;
    hide Ready;
    hide WellFormed;
    hide Idle;
    hide HasOffset;
    TurnedReady(s, d, n, m, size, c, o);
    TripTurnsRing(s, o.down, o.up);
    ComesBack(s, o.down, o.up);
    var s', c' := ThereAndBack(s, o.down, o.up), c + m;
    forall p: nat | p < d - m + n ensures HasOffset(s', d, n, m, size, c', p) {
      TripTurnsAt(s, d, n, m, size, c, o, p);
    }
  }

  /* ---- When a trip passes its assertions ---- */

  /** The frames the way down takes lie inside NVM, and those the way up takes inside DRAM. */
  ghost predicate DownLands(d: nat, n: nat, m: nat, c: nat)
    requires Room(d, n, m)
  {
    forall p: nat {:trigger RingFrame(d, n, m, c, p)} :: d - m <= p < d ==> RingFrame(d, n, m, c, p) < n
  }

  ghost predicate UpLands(d: nat, n: nat, m: nat, c: nat)
    requires Room(d, n, m)
  {
    forall p: nat {:trigger RingFrame(d, n, m, c, p)} :: p < m ==> RingFrame(d, n, m, c, p) < d
  }

  lemma RingFits<P>(s: State<P>, d: nat, n: nat, m: nat, size: nat, c: nat, p: nat, t: Tier)
    requires Turned(s, d, n, m, size, c) && p < d - m + n && size > 0
    ensures p < |FreeOnes(s)| && FreeOnes(s)[p] in s.info
    ensures Fits(s.info[FreeOnes(s)[p]].offset, t, SizesOf(d, n, size))
            <==> RingFrame(d, n, m, c, p) < if t == Dram then d else n
  {
    hide WellFormed;
    hide Idle;
    hide Fits;
    hide RingFrame;
    assert HasOffset(s, d, n, m, size, c, p);
    FrameFits(RingFrame(d, n, m, c, p), t, d, n, size);
  }

  lemma DownMovesAt<P>(s: State<P>, d: nat, n: nat, m: nat, size: nat, c: nat, down: seq<P>, i: nat)
    requires Turned(s, d, n, m, size, c) && Housed(s, SizesOf(d, n, size)) && size > 0
    requires Sendable(s, Dram, Nvm, down) && i < m == |down|
    ensures down[i] in s.info && s.q[Free(Nvm)][i] in s.info
    ensures Movable(s.info[down[i]], s.info[s.q[Free(Nvm)][i]].offset, Dram, Nvm, SizesOf(d, n, size))
            <==> RingFrame(d, n, m, c, d - m + i) < n
  {
    hide Fits;
    hide WellFormed;
    hide Idle;
    hide RingFrame;
    SameElements(down, s.q[Mmap(Dram)]);
    assert AtHome(s.info, down[i], SizesOf(d, n, size));
    RingFits(s, d, n, m, size, c, d - m + i, Nvm);
    assert FreeOnes(s)[d - m + i] == s.q[Free(Nvm)][i];
  }

  /** The way down passes if and only if the frames it takes lie inside NVM. */
  lemma DownIff<P>(s: State<P>, d: nat, n: nat, m: nat, size: nat, c: nat, down: seq<P>)
    requires Turned(s, d, n, m, size, c) && Housed(s, SizesOf(d, n, size)) && size > 0
    requires Sendable(s, Dram, Nvm, down) && |down| == m
    ensures Placeable(Asked(s, Dram, Nvm, down), Dram, Nvm, m, SizesOf(d, n, size)) <==> DownLands(d, n, m, c)
  {
    hide WellFormed;
    hide Idle;
    hide Asked;
    hide Movable;
    hide RingFrame;
    hide HasOffset;
    AllAsked(s, Dram, Nvm, down);
    forall i | 0 <= i < m
      ensures down[i] in s.info && s.q[Free(Nvm)][i] in s.info
      ensures Movable(s.info[down[i]], s.info[s.q[Free(Nvm)][i]].offset, Dram, Nvm, SizesOf(d, n, size))
              <==> RingFrame(d, n, m, c, d - m + i) < n
    {
      DownMovesAt(s, d, n, m, size, c, down, i);
    }
    if Placeable(Asked(s, Dram, Nvm, down), Dram, Nvm, m, SizesOf(d, n, size)) {
      forall p: nat | d - m <= p < d ensures RingFrame(d, n, m, c, p) < n {
        var i := p - (d - m);
        assert s.q[Free(Nvm)][i] in s.info && d - m + i == p;
      }
    }
  }

  lemma TakenUpInRing<P>(s: State<P>, i: nat)
    requires Ready(s) && i < |s.q[Mmap(Dram)]|
    ensures i < |FreeOnes(s)| && TakenUp(s)[i] == FreeOnes(s)[i]
  {
    hide WellFormed;
    hide Idle;
  }

  /** And the way up if and only if those it takes lie inside DRAM. */
  lemma UpIff<P>(s: State<P>, d: nat, n: nat, m: nat, size: nat, c: nat, down: seq<P>, up: seq<P>)
    requires Turned(s, d, n, m, size, c) && size > 0 && Ready(s) && Returnable(s, down, up)
    requires |down| == m == |up|
    requires Placeable(Asked(s, Dram, Nvm, down), Dram, Nvm, m, SizesOf(d, n, size))
    ensures Placeable(Low(s, down, up), Nvm, Dram, m, SizesOf(d, n, size)) <==> UpLands(d, n, m, c)
  {
    hide WellFormed;
    hide Idle;
    hide Low;
    hide TakenUp;
    hide Fits;
    hide Placeable;
    hide RingFrame;
    hide HasOffset;
    hide Returnable;
    var g := SizesOf(d, n, size);
    UpAsserts(s, g, down, up);
    if Placeable(Low(s, down, up), Nvm, Dram, m, g) {
      forall i: nat | i < m ensures RingFrame(d, n, m, c, i) < d {
        TakenUpInRing(s, i);
        RingFits(s, d, n, m, size, c, i, Dram);
        assert Fits(s.info[TakenUp(s)[i]].offset, Dram, g);
      }
    } else {
      var i :| 0 <= i < m && (TakenUp(s)[i] in s.info ==> !Fits(s.info[TakenUp(s)[i]].offset, Dram, g));
      TakenUpInRing(s, i);
      RingFits(s, d, n, m, size, c, i, Dram);
      assert !(RingFrame(d, n, m, c, i) < d);
    }
  }

  /** A page that has come back has its address, and the offset of the descriptor it came up with. */
  lemma TripPage<P>(s: State<P>, down: seq<P>, up: seq<P>, i: nat)
    requires Ready(s) && Returnable(s, down, up) && i < |up|
    ensures var s', x := ThereAndBack(s, down, up), TakenUp(s)[i];
            && up[i] in s.q[Mmap(Dram)] && up[i] in s.info && up[i] in s'.info && x in s.info
            && s'.info[up[i]].va == s.info[up[i]].va && s'.info[up[i]].offset == s.info[x].offset
  {
    hide Sent;
    hide WellFormed;
    hide Idle;
    hide TakenUp;
    SameElements(up, down);
    SameElements(down, s.q[Mmap(Dram)]);
    Travels(s, down, up, up[i]);
    CanReturn(s, down, up);
    TakenUpOffset(s, down, i);
    SentInfo(Sent(s, Dram, Nvm, down), Nvm, Dram, up, i);
  }

  /** A trip whose frames on the way up lie inside DRAM leaves all pages there. */
  lemma TripHouses<P>(s: State<P>, d: nat, n: nat, m: nat, size: nat, c: nat, o: Trip<P>)
    requires Turned(s, d, n, m, size, c) && Housed(s, SizesOf(d, n, size)) && size > 0 && UpLands(d, n, m, c)
    requires Ready(s) && Returnable(s, o.down, o.up) && |o.up| == m
    requires ThereAndBack(s, o.down, o.up).q[Mmap(Dram)] == o.up
    ensures Housed(ThereAndBack(s, o.down, o.up), SizesOf(d, n, size))
  {
    hide ThereAndBack;
    hide Returnable;
    hide WellFormed;
    hide Idle;
    hide Fits;
    hide TakenUp;
    hide RingFrame;
    hide HasOffset;
    var s', g := ThereAndBack(s, o.down, o.up), SizesOf(d, n, size);
    forall p | p in s'.q[Mmap(Dram)] ensures AtHome(s'.info, p, g) {
      var i :| 0 <= i < m && o.up[i] == p;
      TripPage(s, o.down, o.up, i);
      TakenUpInRing(s, i);
      RingFits(s, d, n, m, size, c, i, Dram);
      assert RingFrame(d, n, m, c, i) < d;
      assert AtHome(s.info, p, g);
    }
  }

  /* ---- How far the ring may be turned ---- */

  /** The trips that turn the ring to c come upon no frame that only the larger tier has. */
  predicate Within(d: nat, n: nat, m: nat, c: nat) { d == n || c + m <= 2 * Min(d, n) }

  lemma RingNear(d: nat, n: nat, m: nat, c: nat, p: nat)
    requires Room(d, n, m) && c + p < 2 * (d - m + n)
    ensures var e := d - m + n;
            RingFrame(d, n, m, c, p) == FrameNumber(if c + p < e then c + p else c + p - e, d, m)
  {
    var e := d - m + n;
    if c + p < e {
      Bits.DivMod(c + p, e, 0, c + p);
    } else {
      Bits.DivMod(c + p, e, 1, c + p - e);
    }
  }

  lemma RingBounded(d: nat, n: nat, m: nat, c: nat, p: nat)
    requires Room(d, n, m)
    ensures RingFrame(d, n, m, c, p) < d || RingFrame(d, n, m, c, p) < n
  {
  }

  /** With no more DRAM than NVM every way down lands, and the other way round. */
  lemma LargerLands(d: nat, n: nat, m: nat, c: nat)
    requires Room(d, n, m)
    ensures d <= n ==> DownLands(d, n, m, c)
    ensures n <= d ==> UpLands(d, n, m, c)
  {
    hide RingFrame;
    forall p: nat ensures RingFrame(d, n, m, c, p) < d || RingFrame(d, n, m, c, p) < n {
      RingBounded(d, n, m, c, p);
    }
  }

  lemma UpLandsIff(d: nat, n: nat, m: nat, c: nat)
    requires Room(d, n, m) && d < n && c + m <= 2 * d
    ensures UpLands(d, n, m, c) <==> c + m + m <= 2 * d
  {
    hide RingFrame;
    if c + m + m <= 2 * d {
      forall p: nat | p < m ensures RingFrame(d, n, m, c, p) < d {
        RingNear(d, n, m, c, p);
      }
    } else {
      RingNear(d, n, m, c, 2 * d - m - c);
    }
  }

  lemma DownLandsIff(d: nat, n: nat, m: nat, c: nat)
    requires Room(d, n, m) && n < d && c + m <= 2 * n
    ensures DownLands(d, n, m, c) <==> c + m + m <= 2 * n
  {
    hide RingFrame;
    if c + m + m <= 2 * n {
      forall p: nat | d - m <= p < d ensures RingFrame(d, n, m, c, p) < n {
        RingNear(d, n, m, c, p);
      }
    } else {
      RingNear(d, n, m, c, d - m + (2 * n - m - c));
    }
  }

  lemma LandsIff(d: nat, n: nat, m: nat, c: nat)
    requires Room(d, n, m) && Within(d, n, m, c)
    ensures DownLands(d, n, m, c) && UpLands(d, n, m, c) <==> Within(d, n, m, c + m)
  {
    hide DownLands;
    hide UpLands;
    LargerLands(d, n, m, c);
    if d < n {
      UpLandsIff(d, n, m, c);
    } else if n < d {
      DownLandsIff(d, n, m, c);
    }
  }

  /* ---- Any number of trips ---- */

  /** The passes of the migration thread make the trip, whatever the batch sizes. */
  lemma PassesMakeTheTrip<P>(s: State<P>, down: seq<P>, up: seq<P>, b: nat, c: nat)
    requires b > 0 && c > 0 && Returnable(s, down, up)
    ensures var s1 := Asked(s, Dram, Nvm, down);
            FedFrom(s1, b, 0) &&
            var s2 := Asked(DrainAll(s1, b), Nvm, Dram, up);
            FedFrom(s2, c, 0) && DrainAll(s2, c) == ThereAndBack(s, down, up)
  {
    hide Sent;
    hide Asked;
    hide WellFormed;
    CanReturn(s, down, up);
    Sends(s, Dram, Nvm, down, b);
    Sends(Sent(s, Dram, Nvm, down), Nvm, Dram, up, c);
  }

  /** The address and offset assertions of both ways of a trip. */
  ghost predicate TripPasses<P>(s: State<P>, o: Trip<P>, g: Sizes)
    requires Returnable(s, o.down, o.up)
  {
    && Placeable(Asked(s, Dram, Nvm, o.down), Dram, Nvm, |o.down|, g)
    && Placeable(Low(s, o.down, o.up), Nvm, Dram, |o.up|, g)
  }

  /** The requests of the trips, one after the other, can be made and served. */
  ghost predicate CanMake<P>(s: State<P>, trips: seq<Trip<P>>)
    decreases |trips|
  {
    trips == [] ||
    (Returnable(s, trips[0].down, trips[0].up) &&
     CanMake(ThereAndBack(s, trips[0].down, trips[0].up), trips[1..]))
  }

  /** The state after the trips. */
  ghost function Made<P>(s: State<P>, trips: seq<Trip<P>>): State<P>
    requires CanMake(s, trips)
    decreases |trips|
  {
    if trips == [] then s else Made(ThereAndBack(s, trips[0].down, trips[0].up), trips[1..])
  }

  /** No assertion of any of the trips fails. */
  ghost predicate AllPass<P>(s: State<P>, trips: seq<Trip<P>>, g: Sizes)
    requires CanMake(s, trips)
    decreases |trips|
  {
    trips == [] ||
    (TripPasses(s, trips[0], g) && AllPass(ThereAndBack(s, trips[0].down, trips[0].up), trips[1..], g))
  }

  lemma OneTrip<P>(s: State<P>, d: nat, n: nat, m: nat, size: nat, c: nat, o: Trip<P>)
    requires Turned(s, d, n, m, size, c) && Housed(s, SizesOf(d, n, size)) && size > 0
    requires Within(d, n, m, c) && TripOf(o, s.q[Mmap(Dram)])
    ensures Returnable(s, o.down, o.up) && (TripPasses(s, o, SizesOf(d, n, size)) <==> Within(d, n, m, c + m))
    ensures var s' := ThereAndBack(s, o.down, o.up);
            && Turned(s', d, n, m, size, c + m) && s'.q[Mmap(Dram)] == o.up
            && (TripPasses(s, o, SizesOf(d, n, size)) ==> Housed(s', SizesOf(d, n, size)))
  {
    hide WellFormed;
    hide Idle;
    hide Placeable;
    hide Asked;
    hide Low;
    hide ThereAndBack;
    hide Housed;
    hide HasOffset;
    hide DownLands;
    hide UpLands;
    hide Within;
    TurnedReady(s, d, n, m, size, c, o);
    TripTurned(s, d, n, m, size, c, o);
    DownIff(s, d, n, m, size, c, o.down);
    LandsIff(d, n, m, c);
    if DownLands(d, n, m, c) {
      UpIff(s, d, n, m, size, c, o.down, o.up);
      if UpLands(d, n, m, c) {
        TripHouses(s, d, n, m, size, c, o);
      }
    }
  }

  /** The trips are all with the same pages. */
  ghost predicate TripsOf<P>(trips: seq<Trip<P>>, pages: seq<P>) {
    forall i :: 0 <= i < |trips| ==> TripOf(trips[i], pages)
  }

  lemma TripsNext<P>(trips: seq<Trip<P>>, pages: seq<P>)
    requires TripsOf(trips, pages) && trips != []
    ensures TripOf(trips[0], pages) && TripsOf(trips[1..], trips[0].up)
  {
  }

  /** How far k trips turn the ring. */
  function Places(k: nat, m: nat): nat { k * m }

  /** The trips turn the ring from c to e. */
  lemma {:induction false} TripsTurn<P>(s: State<P>, d: nat, n: nat, m: nat, size: nat, c: nat, trips: seq<Trip<P>>,
                                        e: nat)
    requires Turned(s, d, n, m, size, c) && TripsOf(trips, s.q[Mmap(Dram)]) && e == c + |trips| * m
    ensures CanMake(s, trips) && Turned(Made(s, trips), d, n, m, size, e)
    ensures multiset(Made(s, trips).q[Mmap(Dram)]) == multiset(s.q[Mmap(Dram)])
    decreases |trips|
  {
    hide Turned;
    hide ThereAndBack;
    hide Returnable;
    hide TripsOf;
    if trips == [] {
    } else {
      TripsNext(trips, s.q[Mmap(Dram)]);
      TripTurned(s, d, n, m, size, c, trips[0]);
      Spread(1, |trips| - 1, m);
      TripsTurn(ThereAndBack(s, trips[0].down, trips[0].up), d, n, m, size, c + m, trips[1..], e);
    }
  }

  lemma WithinLess(d: nat, n: nat, m: nat, c: nat, e: nat)
    requires Within(d, n, m, e) && c <= e
    ensures Within(d, n, m, c)
  {
  }

  /** They pass if and only if the ring may be turned that far. */
  lemma {:induction false} TripsPassIff<P>(s: State<P>, d: nat, n: nat, m: nat, size: nat, c: nat, trips: seq<Trip<P>>,
                                           e: nat)
    requires Turned(s, d, n, m, size, c) && Housed(s, SizesOf(d, n, size)) && size > 0
    requires Within(d, n, m, c) && TripsOf(trips, s.q[Mmap(Dram)]) && CanMake(s, trips)
    requires e == c + |trips| * m
    ensures AllPass(s, trips, SizesOf(d, n, size)) <==> Within(d, n, m, e)
    ensures AllPass(s, trips, SizesOf(d, n, size)) ==> Housed(Made(s, trips), SizesOf(d, n, size))
    decreases |trips|
  {
    hide Turned;
    hide Housed;
    hide ThereAndBack;
    hide Returnable;
    hide TripsOf;
    hide TripPasses;
    hide Within;
    if trips == [] {
    } else {
      TripsNext(trips, s.q[Mmap(Dram)]);
      OneTrip(s, d, n, m, size, c, trips[0]);
      Spread(1, |trips| - 1, m);
      if Within(d, n, m, c + m) {
        TripsPassIff(ThereAndBack(s, trips[0].down, trips[0].up), d, n, m, size, c + m, trips[1..], e);
      } else if Within(d, n, m, e) {
        WithinLess(d, n, m, c + m, e);
      }
    }
  }

  /** Exactly how often the round trip can be made, from pebs_init on with m pages populated, whatever the orders of the
      requests: k trips pass all their address and offset assertions if and only if the tiers have one size, or
      (k + 1) * m is at most twice the size of the smaller one. */
  lemma TripsPass<P>(drams: seq<P>, nvms: seq<P>, m: nat, size: nat, va: nat, trips: seq<Trip<P>>)
    requires Room(|drams|, |nvms|, m) && NoRepeats(drams + nvms) && size > 0 && va > 0 && va % size == 0
    requires TripsOf(trips, drams[..m])
    ensures var s, d, n := Loaded(drams, nvms, m, size, va), |drams|, |nvms|;
            && CanMake(s, trips)
            && (AllPass(s, trips, SizesOf(d, n, size)) <==> d == n || (|trips| + 1) * m <= 2 * Min(d, n))
  {
    hide Turned;
    hide Housed;
    hide Loaded;
    hide CanMake;
    hide AllPass;
    hide TripsOf;
    var s, d, n := Loaded(drams, nvms, m, size, va), |drams|, |nvms|;
    var e := Places(|trips|, m);
    LoadedTurned(drams, nvms, m, size, va);
    TripsTurn(s, d, n, m, size, 0, trips, e);
    TripsPassIff(s, d, n, m, size, 0, trips, e);
    Spread(|trips|, 1, m);
  }

  /** The driver populates half of DRAM: its trip passes three times, and the fourth fails. */
  lemma HalfOfDram<P>(drams: seq<P>, nvms: seq<P>, m: nat, size: nat, va: nat, trips: seq<Trip<P>>)
    requires Room(|drams|, |nvms|, m) && NoRepeats(drams + nvms) && size > 0 && va > 0 && va % size == 0
    requires TripsOf(trips, drams[..m]) && |drams| == 2 * m < |nvms|
    ensures var s := Loaded(drams, nvms, m, size, va);
            CanMake(s, trips) && (AllPass(s, trips, SizesOf(|drams|, |nvms|, size)) <==> |trips| <= 3)
  {
    hide Loaded;
    hide CanMake;
    hide AllPass;
    hide TripsOf;
    TripsPass(drams, nvms, m, size, va, trips);
    if |trips| <= 3 {
      Spread(|trips| + 1, 3 - |trips|, m);
    } else {
      Spread(5, |trips| - 4, m);
    }
  }

  /** Which way the first trip to fail fails, with no more DRAM than NVM: after k trips that pass the next passes on its
      way down, and on its way up if and only if (k + 2) * m is at most twice the size of DRAM or the tiers have one
      size. */
  lemma NextTrip<P>(drams: seq<P>, nvms: seq<P>, m: nat, size: nat, va: nat, trips: seq<Trip<P>>, o: Trip<P>)
    requires Room(|drams|, |nvms|, m) && NoRepeats(drams + nvms) && size > 0 && va > 0 && va % size == 0
    requires TripsOf(trips, drams[..m]) && TripOf(o, drams[..m])
    requires |drams| == |nvms| || (|drams| < |nvms| && (|trips| + 1) * m <= 2 * |drams|)
    ensures var s0, d, g := Loaded(drams, nvms, m, size, va), |drams|, SizesOf(|drams|, |nvms|, size);
            && CanMake(s0, trips) && AllPass(s0, trips, g)
            && var s := Made(s0, trips);
            && Returnable(s, o.down, o.up) && Placeable(Asked(s, Dram, Nvm, o.down), Dram, Nvm, m, g)
            && (Placeable(Low(s, o.down, o.up), Nvm, Dram, m, g) <==> d == |nvms| || (|trips| + 2) * m <= 2 * d)
  {
    hide Turned;
    hide Housed;
    hide Loaded;
    hide CanMake;
    hide AllPass;
    hide TripsOf;
    hide Placeable;
    hide Asked;
    hide Low;
    hide Returnable;
    hide TripOf;
    hide Made;
    var s0, d, n, c := Loaded(drams, nvms, m, size, va), |drams|, |nvms|, Places(|trips|, m);
    LoadedTurned(drams, nvms, m, size, va);
    TripsTurn(s0, d, n, m, size, 0, trips, c);
    Spread(|trips|, 1, m);
    Spread(|trips|, 2, m);
    TripsPassIff(s0, d, n, m, size, 0, trips, c);
    SameTripOf(o, drams[..m], Made(s0, trips).q[Mmap(Dram)]);
    WaysOfTrip(Made(s0, trips), d, n, m, size, c, o);
    if d < n {
      UpLandsIff(d, n, m, c);
    } else {
      LargerLands(d, n, m, c);
    }
  }

  lemma WaysOfTrip<P>(s: State<P>, d: nat, n: nat, m: nat, size: nat, c: nat, o: Trip<P>)
    requires Turned(s, d, n, m, size, c) && Housed(s, SizesOf(d, n, size)) && size > 0 && d <= n
    requires TripOf(o, s.q[Mmap(Dram)])
    ensures Returnable(s, o.down, o.up)
    ensures Placeable(Asked(s, Dram, Nvm, o.down), Dram, Nvm, m, SizesOf(d, n, size))
    ensures Placeable(Low(s, o.down, o.up), Nvm, Dram, m, SizesOf(d, n, size)) <==> UpLands(d, n, m, c)
  {
    hide WellFormed;
    hide Idle;
    hide HasOffset;
    hide Placeable;
    hide Asked;
    hide Low;
    hide DownLands;
    hide UpLands;
    TurnedReady(s, d, n, m, size, c, o);
    LargerLands(d, n, m, c);
    DownIff(s, d, n, m, size, c, o.down);
    UpIff(s, d, n, m, size, c, o.down, o.up);
  }

  lemma SameTripOf<P>(o: Trip<P>, a: seq<P>, b: seq<P>)
    requires TripOf(o, a) && multiset(a) == multiset(b)
    ensures TripOf(o, b)
  {
    assert |a| == |multiset(a)| == |b|;
  }

  /* ---- All of DRAM mapped ---- */

  /** The first trip passes, and turns the free NVM list by the size of DRAM. */
  lemma FirstTrip<P>(drams: seq<P>, nvms: seq<P>, size: nat, va: nat, o: Trip<P>)
    requires Room(|drams|, |nvms|, |drams|) && NoRepeats(drams + nvms) && size > 0 && va > 0 && va % size == 0
    requires TripOf(o, drams)
    ensures var s, d, g := Loaded(drams, nvms, |drams|, size, va), |drams|, SizesOf(|drams|, |nvms|, size);
            && Returnable(s, o.down, o.up) && TripPasses(s, o, g)
            && var s' := ThereAndBack(s, o.down, o.up);
            && Turned(s', d, |nvms|, d, size, d) && Housed(s', g) && s'.q[Mmap(Dram)] == o.up
            && s'.q[Free(Dram)] == [] && s'.q[Free(Nvm)] == nvms[d..] + nvms[..d]
  {
    hide WellFormed;
    hide Idle;
    hide HasOffset;
    hide Housed;
    hide Loaded;
    hide TripPasses;
    hide ThereAndBack;
    hide Returnable;
    hide MappedFrom;
    var s, d := Loaded(drams, nvms, |drams|, size, va), |drams|;
    assert drams[..d] == drams && drams[d..] == [];
    LoadedTurned(drams, nvms, d, size, va);
    LoadedParts(drams, nvms, d, size, va);
    OneTrip(s, d, |nvms|, d, size, 0, o);
    TurnedReady(s, d, |nvms|, d, size, 0, o);
    TripTurnsRing(s, o.down, o.up);
    assert [] + nvms == nvms;
    var s' := ThereAndBack(s, o.down, o.up);
    assert s'.q[Free(Dram)] + s'.q[Free(Nvm)] == s'.q[Free(Nvm)];
  }

  /** The way down of the second trip passes, and its way up if and only if NVM has no more frames than DRAM. */
  lemma SecondTrip<P>(drams: seq<P>, nvms: seq<P>, size: nat, va: nat, first: Trip<P>, second: Trip<P>)
    requires Room(|drams|, |nvms|, |drams|) && NoRepeats(drams + nvms) && size > 0 && va > 0 && va % size == 0
    requires TripOf(first, drams) && TripOf(second, drams)
    ensures var s0, d, g := Loaded(drams, nvms, |drams|, size, va), |drams|, SizesOf(|drams|, |nvms|, size);
            && Returnable(s0, first.down, first.up) && TripPasses(s0, first, g)
            && var s1 := ThereAndBack(s0, first.down, first.up);
            && Returnable(s1, second.down, second.up) && Placeable(Asked(s1, Dram, Nvm, second.down), Dram, Nvm, d, g)
            && (Placeable(Low(s1, second.down, second.up), Nvm, Dram, d, g) <==> |nvms| == |drams|)
  {
    hide Turned;
    hide Housed;
    hide Loaded;
    hide Placeable;
    hide Asked;
    hide Low;
    hide ThereAndBack;
    hide Returnable;
    var d := |drams|;
    assert drams[..d] == drams;
    NextTrip(drams, nvms, d, size, va, [first], second);
    assert [first][1..] == [];
  }

  /** And with more NVM than DRAM it aborts in the first batch of the second way up, whatever its size. */
  lemma SecondWayUpAborts<P>(drams: seq<P>, nvms: seq<P>, size: nat, va: nat, first: Trip<P>, second: Trip<P>, k: nat)
    requires Room(|drams|, |nvms|, |drams|) && NoRepeats(drams + nvms) && size > 0 && va > 0 && va % size == 0
    requires TripOf(first, drams) && TripOf(second, drams) && 0 < k <= |drams| < |nvms|
    ensures var s0 := Loaded(drams, nvms, |drams|, size, va);
            Returnable(s0, first.down, first.up) &&
            var s1 := ThereAndBack(s0, first.down, first.up);
            && Returnable(s1, second.down, second.up)
            && !Placeable(Low(s1, second.down, second.up), Nvm, Dram, k, SizesOf(|drams|, |nvms|, size))
  {
    hide Turned;
    hide Housed;
    hide Loaded;
    hide Low;
    hide ThereAndBack;
    hide Returnable;
    hide Movable;
    hide Asked;
    hide RingFrame;
    var d, n, g := |drams|, |nvms|, SizesOf(|drams|, |nvms|, size);
    FirstTrip(drams, nvms, size, va, first);
    SecondTrip(drams, nvms, size, va, first, second);
    var s1 := ThereAndBack(Loaded(drams, nvms, d, size, va), first.down, first.up);
    SameTripOf(second, drams, first.up);
    TurnedReady(s1, d, n, d, size, d, second);
    UpAssertsAt(s1, g, second.down, second.up, 0);
    TakenUpInRing(s1, 0);
    RingFits(s1, d, n, d, size, d, 0, Dram);
    RingNear(d, n, d, d, 0);
  }

}
