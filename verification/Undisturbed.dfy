/** When no other thread comes between, the steps of the interleaved model are what TierSpec says: a batch, a request in
    sequence or at random, the mapping of a page; and munmap takes back what populate has counted. */
module Undisturbed {
  import opened Basics
  import opened TierSpec
  import Draining
  import opened Requesting
  import opened TierProtocol
  import opened TierLedger

  /* ---- Composing runs ---- */

  /** A run that can be made and meets no hazard. */
  ghost predicate Clean(s: System, run: seq<Action>) {
    Possible(s, run) && NoHazard(s, run)
  }

  lemma CanRun(s: System, run: seq<Action>)
    requires Clean(s, run)
    ensures Possible(s, run)
  {
  }

  lemma {:induction false} Joined(s: System, a: seq<Action>, b: seq<Action>)
    requires Clean(s, a) && Clean(After(s, a), b)
    ensures Clean(s, a + b) && After(s, a + b) == After(After(s, a), b)
    decreases |a|
  {
    if a == [] {
      assert a + b == b;
    } else {
      assert (a + b)[1..] == a[1..] + b;
      Joined(Do(s, a[0]), a[1..], b);
    }
  }

  /** Where a longer run meets no hazard its parts meet none. */
  lemma {:induction false} Parted(s: System, a: seq<Action>, b: seq<Action>)
    requires Clean(s, a + b)
    ensures Clean(s, a) && Clean(After(s, a), b)
    decreases |a|
  {
    if a == [] {
      assert a + b == b;
    } else {
      assert (a + b)[0] == a[0] && (a + b)[1..] == a[1..] + b;
      Parted(Do(s, a[0]), a[1..], b);
    }
  }

  lemma OneStep(s: System, a: Action)
    requires Enabled(s, a) && !Hazard(s, a)
    ensures Clean(s, [a]) && After(s, [a]) == Do(s, a)
  {
    assert [a][1..] == [];
  }

  lemma FirstFails(s: System, a: Action, more: seq<Action>)
    requires Enabled(s, a) && Hazard(s, a)
    ensures !Clean(s, [a] + more)
  {
    assert ([a] + more)[0] == a;
  }

  lemma SecondFails(s: System, a: Action, b: Action)
    requires Enabled(s, a) && Enabled(Do(s, a), b) && Hazard(Do(s, a), b)
    ensures !Clean(s, [a, b])
  {
    assert [a, b] == [a] + [b] && [b] == [b] + [] && [a][1..] == [];
    FirstFails(Do(s, a), b, []);
    if Clean(s, [a, b]) {
      Parted(s, [a], [b]);
    }
  }

  lemma TwoSteps(s: System, a: Action, b: Action)
    requires Enabled(s, a) && !Hazard(s, a) && Enabled(Do(s, a), b) && !Hazard(Do(s, a), b)
    ensures Clean(s, [a, b]) && After(s, [a, b]) == Do(Do(s, a), b)
  {
    OneStep(s, a);
    OneStep(Do(s, a), b);
    Joined(s, [a], [b]);
    assert [a] + [b] == [a, b];
  }

  lemma ThreeSteps(s: System, a: Action, b: Action, c: Action)
    requires Enabled(s, a) && !Hazard(s, a) && Enabled(Do(s, a), b) && !Hazard(Do(s, a), b)
    requires Enabled(Do(Do(s, a), b), c) && !Hazard(Do(Do(s, a), b), c)
    ensures Clean(s, [a, b, c]) && After(s, [a, b, c]) == Do(Do(Do(s, a), b), c)
  {
    TwoSteps(s, a, b);
    OneStep(Do(Do(s, a), b), c);
    Joined(s, [a, b], [c]);
    assert [a, b] + [c] == [a, b, c];
  }

  /* ---- A batch that nobody disturbs ---- */

  /** What TierSpec speaks of. */
  function Abs(s: System): State<nat> { State(s.q, s.num, s.desc) }

  /** Threads, index and parameters are as they were. */
  ghost predicate OthersRest(s: System, s': System) {
    && s'.threads == s.threads && s'.index == s.index && s'.faults == s.faults && s'.batch == s.batch
    && s'.sizes == s.sizes
  }

  function TakeRun(k: nat): seq<Action> {
    if k == 0 then [] else [MigTakePage, MigTakeFree] + TakeRun(k - 1)
  }

  function MoveRun(k: nat): seq<Action> {
    if k == 0 then [] else [MigMove] + MoveRun(k - 1)
  }

  function ReturnRun(k: nat): seq<Action> {
    if k == 0 then [] else [MigReturnPage, MigReturnFree] + ReturnRun(k - 1)
  }

  /** A batch of n pages, from the head of the loop to its end. */
  function BatchRun(f: Tier, t: Tier, n: nat): seq<Action> {
    [MigStart(f, t)] + (TakeRun(n) + ([MigCheck] + (MoveRun(n) + ([MigReturn] + (ReturnRun(n) + [MigCount])))))
  }

  lemma TakesOnePair(s: System)
    requires s.mig.Taking? && |s.mig.pages| == |s.mig.frees| < s.mig.n
    requires s.q[Migrate(s.mig.f, s.mig.t)] != [] && s.q[Free(s.mig.t)] != []
    ensures var f, t := s.mig.f, s.mig.t;
            Clean(s, [MigTakePage, MigTakeFree]) &&
            var s' := After(s, [MigTakePage, MigTakeFree]);
            && OthersRest(s, s') && s'.num == s.num && s'.desc == s.desc
            && s'.q == s.q[Migrate(f, t) := s.q[Migrate(f, t)][1..]][Free(t) := s.q[Free(t)][1..]]
            && s'.mig == Taking(f, t, s.mig.n, s.mig.pages + [s.q[Migrate(f, t)][0]], s.mig.frees + [s.q[Free(t)][0]])
  {
    hide ThreadDoes;
    hide ThreadEnabled;
    TwoSteps(s, MigTakePage, MigTakeFree);
  }

  lemma TakenRest(q: Queues<nat>, q1: Queues<nat>, f: Tier, t: Tier, k: nat)
    requires 0 < k <= |q[Migrate(f, t)]| && k <= |q[Free(t)]|
    requires q1 == q[Migrate(f, t) := q[Migrate(f, t)][1..]][Free(t) := q[Free(t)][1..]]
    ensures k - 1 <= |q1[Migrate(f, t)]| && k - 1 <= |q1[Free(t)]| && Taken(q1, f, t, k - 1) == Taken(q, f, t, k)
    ensures [q[Migrate(f, t)][0]] + q1[Migrate(f, t)][..k - 1] == q[Migrate(f, t)][..k]
    ensures [q[Free(t)][0]] + q1[Free(t)][..k - 1] == q[Free(t)][..k]
  {
    assert q[Migrate(f, t)][1..][k - 1..] == q[Migrate(f, t)][k..] && q[Free(t)][1..][k - 1..] == q[Free(t)][k..];
  }

  lemma {:induction false} TakesPairs(s: System, k: nat)
    requires s.mig.Taking? && |s.mig.pages| == |s.mig.frees| && |s.mig.pages| + k == s.mig.n
    requires k <= |s.q[Migrate(s.mig.f, s.mig.t)]| && k <= |s.q[Free(s.mig.t)]|
    ensures var f, t := s.mig.f, s.mig.t;
            Clean(s, TakeRun(k)) &&
            var s' := After(s, TakeRun(k));
            && OthersRest(s, s') && s'.num == s.num && s'.desc == s.desc && s'.q == Taken(s.q, f, t, k)
            && s'.mig == Taking(f, t, s.mig.n, s.mig.pages + s.q[Migrate(f, t)][..k], s.mig.frees + s.q[Free(t)][..k])
    decreases k
  {
    hide Possible;
    hide NoHazard;
    hide After;
    hide Taken;
    var f, t := s.mig.f, s.mig.t;
    if k == 0 {
      TakenNone(s.q, f, t);
      NoSteps(s);
      assert s.mig.pages + s.q[Migrate(f, t)][..0] == s.mig.pages && s.mig.frees + s.q[Free(t)][..0] == s.mig.frees;
    } else {
      TakesOnePair(s);
      var s1 := After(s, [MigTakePage, MigTakeFree]);
      TakenRest(s.q, s1.q, f, t, k);
      TakesPairs(s1, k - 1);
      Joined(s, [MigTakePage, MigTakeFree], TakeRun(k - 1));
      Assoc(s.mig.pages, [s.q[Migrate(f, t)][0]], s1.q[Migrate(f, t)][..k - 1]);
      Assoc(s.mig.frees, [s.q[Free(t)][0]], s1.q[Free(t)][..k - 1]);
    }
  }

  lemma NoSteps(s: System)
    ensures Clean(s, []) && After(s, []) == s
  {
  }

  /** The pages and free pages of a batch, on descriptors i. */
  ghost predicate Pairing(i: map<nat, Info>, pages: seq<nat>, frees: seq<nat>) {
    && |pages| == |frees| && NoRepeats(pages) && NoRepeats(frees)
    && (forall p :: p in pages ==> p in i && p !in frees) && (forall p :: p in frees ==> p in i && p !in pages)
  }

  lemma OffsetKept(i: map<nat, Info>, pages: seq<nat>, frees: seq<nat>, f: Tier, t: Tier, j: nat)
    requires Pairing(i, pages, frees) && j < |pages|
    ensures var r := Remap(i, pages[..j], Offsets(i, frees)[..j], f, t);
            pages[j] in r && frees[j] in r && r[frees[j]].offset == Offsets(i, frees)[j]
  {
    assert pages[j] in pages && frees[j] in frees;
    assert forall p :: p in pages[..j] ==> p in pages;
    RemapAt(i, pages[..j], Offsets(i, frees)[..j], f, t);
    hide Remap;
  }

  lemma MovesOne(s: System)
    requires s.mig.Moving? && s.mig.todo != [] && |s.mig.pages| < |s.mig.frees|
    requires s.mig.todo[0] in s.desc && s.mig.frees[|s.mig.pages|] in s.desc
    ensures var f, t, p := s.mig.f, s.mig.t, s.mig.todo[0];
            Clean(s, [MigMove]) &&
            var s' := After(s, [MigMove]);
            && OthersRest(s, s') && s'.num == s.num && s'.q == s.q
            && s'.desc == s.desc[p := TierSpec.Moved(s.desc[p], s.desc[s.mig.frees[|s.mig.pages|]].offset, f, t)]
            && s'.mig == Moving(f, t, s.mig.n, s.mig.todo[1..], s.mig.pages + [p], s.mig.frees)
  {
    hide ThreadDoes;
    hide ThreadEnabled;
    OneStep(s, MigMove);
  }

  /** The remapping loop from page number j on. */
  lemma {:induction false} MovesPages(s: System, i: map<nat, Info>, pages: seq<nat>, frees: seq<nat>, j: nat)
    requires Pairing(i, pages, frees) && j <= |pages| && s.mig.Moving?
    requires s.mig.todo == pages[j..] && s.mig.pages == pages[..j] && s.mig.frees == frees
    requires s.desc == Remap(i, pages[..j], Offsets(i, frees)[..j], s.mig.f, s.mig.t)
    ensures var f, t, k := s.mig.f, s.mig.t, |pages| - j;
            Clean(s, MoveRun(k)) &&
            var s' := After(s, MoveRun(k));
            && OthersRest(s, s') && s'.num == s.num && s'.q == s.q &&
                s'.desc == Remap(i, pages, Offsets(i, frees), f, t)
            && s'.mig == Moving(f, t, s.mig.n, [], pages, frees)
    decreases |pages| - j
  {
    hide Possible;
    hide NoHazard;
    hide After;
    hide Remap;
    hide Offsets;
    var f, t := s.mig.f, s.mig.t;
    if j == |pages| {
      NoSteps(s);
      assert pages[..j] == pages && Offsets(i, frees)[..j] == Offsets(i, frees);
    } else {
      OffsetKept(i, pages, frees, f, t, j);
      MovesOne(s);
      var s1 := After(s, [MigMove]);
      RemapOneMore(i, pages, Offsets(i, frees), f, t, j);
      assert pages[..j] + [pages[j]] == pages[..j + 1] && pages[j..][1..] == pages[j + 1..];
      MovesPages(s1, i, pages, frees, j + 1);
      Joined(s, [MigMove], MoveRun(|pages| - j - 1));
    }
  }

  lemma ReturnsOne(s: System)
    requires s.mig.Returning? && |s.mig.pages| == |s.mig.frees| > 0 && s.mig.frees[0] in s.desc
    ensures var f, t, p, x := s.mig.f, s.mig.t, s.mig.pages[0], s.mig.frees[0];
            Clean(s, [MigReturnPage, MigReturnFree]) &&
            var s' := After(s, [MigReturnPage, MigReturnFree]);
            && OthersRest(s, s') && s'.num == s.num && s'.desc == s.desc[x := Freed(s.desc[x], f)]
            && (var q1 := s.q[Mmap(t) := s.q[Mmap(t)] + [p]]; s'.q == q1[Free(f) := q1[Free(f)] + [x]])
            && s'.mig == Returning(f, t, s.mig.n, s.mig.pages[1..], s.mig.frees[1..])
  {
    hide ThreadDoes;
    hide ThreadEnabled;
    TwoSteps(s, MigReturnPage, MigReturnFree);
  }

  lemma DropOne(s: seq<nat>, j: nat)
    requires j < |s|
    ensures s[j..][0] == s[j] && s[j..][1..] == s[j + 1..]
  {
  }

  /** The last loop of a batch from pair number j on. */
  lemma {:induction false} ReturnsPairs(s: System, q: Queues<nat>, i: map<nat, Info>, pages: seq<nat>,
      frees: seq<nat>, j: nat)
    requires j <= |pages| == |frees| && s.mig.Returning? && s.mig.pages == pages[j..] && s.mig.frees == frees[j..]
    requires s.q == Returned(q, s.mig.f, s.mig.t, pages[..j], frees[..j]) && s.desc == Release(i, frees[..j], s.mig.f)
    requires forall p :: p in frees ==> p in i
    ensures var f, t, k := s.mig.f, s.mig.t, |pages| - j;
            Clean(s, ReturnRun(k)) &&
            var s' := After(s, ReturnRun(k));
            && OthersRest(s, s') && s'.num == s.num && s'.q == Returned(q, f, t, pages, frees)
            && s'.desc == Release(i, frees, f) && s'.mig == Returning(f, t, s.mig.n, [], [])
    decreases |pages| - j
  {
    hide Possible;
    hide NoHazard;
    hide After;
    hide Returned;
    hide Release;
    var f, t := s.mig.f, s.mig.t;
    if j == |pages| {
      NoSteps(s);
      assert pages[..j] == pages && frees[..j] == frees;
    } else {
      assert frees[j] in frees;
      ReturnsOne(s);
      var s1 := After(s, [MigReturnPage, MigReturnFree]);
      ReturnedOneMore(q, f, t, pages, frees, j);
      ReleaseOneMore(i, frees, f, j);
      DropOne(pages, j);
      DropOne(frees, j);
      ReturnsPairs(s1, q, i, pages, frees, j + 1);
      Joined(s, [MigReturnPage, MigReturnFree], ReturnRun(|pages| - j - 1));
    }
  }

  lemma StartsBatch(s: System, f: Tier, t: Tier)
    requires s.mig.Rest? && s.num[Migrate(f, t)] > 0 && s.batch > 0
    ensures Clean(s, [MigStart(f, t)])
    ensures After(s, [MigStart(f, t)]) == s.(mig := Taking(f, t, Min(s.num[Migrate(f, t)], s.batch), [], []))
  {
    hide ThreadDoes;
    hide ThreadEnabled;
    OneStep(s, MigStart(f, t));
  }

  lemma ChecksBatch(s: System)
    requires s.mig.Taking? && |s.mig.pages| == |s.mig.frees| == s.mig.n && FreesFit(s)
    ensures Clean(s, [MigCheck])
    ensures After(s, [MigCheck]) == s.(mig := Moving(s.mig.f, s.mig.t, s.mig.n, s.mig.pages, [], s.mig.frees))
  {
    hide ThreadDoes;
    hide ThreadEnabled;
    OneStep(s, MigCheck);
  }

  lemma EndsMoving(s: System)
    requires s.mig.Moving? && s.mig.todo == []
    ensures Clean(s, [MigReturn])
    ensures After(s, [MigReturn]) == s.(mig := Returning(s.mig.f, s.mig.t, s.mig.n, s.mig.pages, s.mig.frees))
  {
    hide ThreadDoes;
    hide ThreadEnabled;
    OneStep(s, MigReturn);
  }

  lemma CountsBatch(s: System)
    requires s.mig.Returning? && s.mig.pages == [] == s.mig.frees
    ensures Clean(s, [MigCount])
    ensures After(s, [MigCount]) == s.(num := CountMoved(s.num, s.mig.f, s.mig.t, s.mig.n), mig := Rest)
  {
    hide ThreadDoes;
    hide ThreadEnabled;
    OneStep(s, MigCount);
  }

  lemma OwnedPairing(s: System, f: Tier, t: Tier, n: nat)
    requires Owned(s) && n <= |s.q[Migrate(f, t)]| && n <= |s.q[Free(t)]|
    ensures Pairing(s.desc, s.q[Migrate(f, t)][..n], s.q[Free(t)][..n])
  {
    var pages, frees := s.q[Migrate(f, t)], s.q[Free(t)];
    assert NoRepeats(pages) && NoRepeats(frees);
    forall p | p in pages ensures p in s.desc && p !in frees {
      Standing(s, Migrate(f, t), p);
    }
    forall p | p in frees ensures p in s.desc && p !in pages {
      Standing(s, Free(t), p);
    }
    hide Owned;
    assert forall p :: p in pages[..n] ==> p in pages;
    assert forall p :: p in frees[..n] ==> p in frees;
  }

  /** The second half of a batch: remapping, giving back and counting. */
  lemma FinishesBatch(s: System, i: map<nat, Info>, pages: seq<nat>, frees: seq<nat>)
    requires Pairing(i, pages, frees) && s.desc == i && s.mig.Taking? && |pages| == s.mig.n
    requires s.mig.pages == pages && s.mig.frees == frees && FreesFit(s)
    ensures var f, t, n := s.mig.f, s.mig.t, s.mig.n;
            var run := [MigCheck] + (MoveRun(n) + ([MigReturn] + (ReturnRun(n) + [MigCount])));
            Clean(s, run) &&
            var s' := After(s, run);
            && OthersRest(s, s') && s'.mig == Rest && s'.num == CountMoved(s.num, f, t, n)
            && s'.q == Returned(s.q, f, t, pages, frees)
            && s'.desc == Release(Remap(i, pages, Offsets(i, frees), f, t), frees, f)
  {
    hide Possible;
    hide NoHazard;
    hide After;
    hide MoveRun;
    hide ReturnRun;
    hide Remap;
    hide Release;
    hide Returned;
    hide Offsets;
    hide Pairing;
    hide OthersRest;
    hide CountMoved;
    var f, t, n := s.mig.f, s.mig.t, s.mig.n;
    PairingParts(i, pages, frees);
    ChecksBatch(s);
    var s1 := After(s, [MigCheck]);
    RemapNone(i, pages, Offsets(i, frees), f, t);
    assert pages[0..] == pages && pages[..0] == [];
    MovesPages(s1, i, pages, frees, 0);
    var s2 := After(s1, MoveRun(n));
    EndsMoving(s2);
    var s3 := After(s2, [MigReturn]);
    ReturnedNone(s.q, f, t);
    ReleaseNone(s3.desc, frees, f);
    assert frees[0..] == frees && frees[..0] == [];
    ReturnsPairs(s3, s.q, s3.desc, pages, frees, 0);
    var s4 := After(s3, ReturnRun(n));
    CountsBatch(s4);
    Joined(s3, ReturnRun(n), [MigCount]);
    Joined(s2, [MigReturn], ReturnRun(n) + [MigCount]);
    Joined(s1, MoveRun(n), [MigReturn] + (ReturnRun(n) + [MigCount]));
    Joined(s, [MigCheck], MoveRun(n) + ([MigReturn] + (ReturnRun(n) + [MigCount])));
    RestsOn(s, s1, s2, s3, s4, After(s4, [MigCount]));
  }

  lemma PairingParts(i: map<nat, Info>, pages: seq<nat>, frees: seq<nat>)
    requires Pairing(i, pages, frees)
    ensures |pages| == |frees| && forall p :: p in frees ==> p in i
  {
  }

  lemma RestsOn(s: System, s1: System, s2: System, s3: System, s4: System, s5: System)
    requires s1 == s.(mig := s1.mig) && OthersRest(s1, s2) && s3 == s2.(mig := s3.mig) && OthersRest(s3, s4)
    requires s5 == s4.(mig := s5.mig, num := s5.num)
    ensures OthersRest(s, s5)
  {
  }

  /** The first half of a batch: collecting n pages and n free pages. */
  lemma CollectsBatch(s: System, f: Tier, t: Tier)
    requires s.mig.Rest? && s.num[Migrate(f, t)] > 0 && s.batch > 0
    requires var n := Min(s.num[Migrate(f, t)], s.batch); n <= |s.q[Migrate(f, t)]| && n <= |s.q[Free(t)]|
    ensures var n := Min(s.num[Migrate(f, t)], s.batch);
            var run := [MigStart(f, t)] + TakeRun(n);
            Clean(s, run) &&
            var s' := After(s, run);
            && OthersRest(s, s') && s'.num == s.num && s'.desc == s.desc && s'.q == Taken(s.q, f, t, n)
            && s'.mig == Taking(f, t, n, s.q[Migrate(f, t)][..n], s.q[Free(t)][..n])
  {
    hide Possible;
    hide NoHazard;
    hide After;
    hide TakeRun;
    hide Taken;
    var n := Min(s.num[Migrate(f, t)], s.batch);
    StartsBatch(s, f, t);
    var s1 := After(s, [MigStart(f, t)]);
    TakesPairs(s1, n);
    var pages, frees := s.q[Migrate(f, t)][..n], s.q[Free(t)][..n];
    assert [] + pages == pages && [] + frees == frees;
    Joined(s, [MigStart(f, t)], TakeRun(n));
  }

  lemma CheckFails(s: System, rest: seq<Action>)
    requires s.mig.Taking? && Clean(s, [MigCheck] + rest)
    ensures FreesFit(s)
  {
    assert ([MigCheck] + rest)[0] == MigCheck;
  }

  /** The address and offset assertions of a batch come down to the offsets of its free pages. */
  lemma FitIsPlaceable(s: System, f: Tier, t: Tier, n: nat)
    requires Owned(s) && Inside(s) && n <= |s.q[Migrate(f, t)]| && n <= |s.q[Free(t)]|
    ensures Draining.Placeable(Abs(s), f, t, n, s.sizes) <==>
            forall x :: x in s.q[Free(t)][..n] ==> x in s.desc && Fits(s.desc[x].offset, t, s.sizes)
  {
    var pages, frees := s.q[Migrate(f, t)], s.q[Free(t)];
    forall i | 0 <= i < n
      ensures pages[i] in s.desc && frees[i] in s.desc
      ensures Draining.Movable(s.desc[pages[i]], s.desc[frees[i]].offset, f, t, s.sizes)
              <==> Fits(s.desc[frees[i]].offset, t, s.sizes)
    {
      Standing(s, Migrate(f, t), pages[i]);
      Standing(s, Free(t), frees[i]);
    }
    hide Owned;
    hide Inside;
    hide Fits;
    hide Draining.Movable;
    if Draining.Placeable(Abs(s), f, t, n, s.sizes) {
      forall x | x in frees[..n] ensures x in s.desc && Fits(s.desc[x].offset, t, s.sizes) {
        var i :| 0 <= i < n && frees[i] == x;
      }
    } else {
      var i :| 0 <= i < n && !Draining.Movable(s.desc[pages[i]], s.desc[frees[i]].offset, f, t, s.sizes);
      assert frees[..n][i] in frees[..n];
    }
  }

  /** The steps of the migration thread refine the batch of TierSpec: when no other thread comes between, a batch of
      min(counter, batch size) pages fails no assertion if and only if its address and offset assertions hold, and the
      queues, counters and descriptors are then those of one Batch. */
  lemma UndisturbedBatch(s: System, f: Tier, t: Tier)
    requires Owned(s) && Inside(s) && s.mig.Rest? && s.num[Migrate(f, t)] > 0 && s.batch > 0
    requires var n := Min(s.num[Migrate(f, t)], s.batch); n <= |s.q[Migrate(f, t)]| && n <= |s.q[Free(t)]|
    ensures var n := Min(s.num[Migrate(f, t)], s.batch);
            && (Clean(s, BatchRun(f, t, n)) <==> Draining.Placeable(Abs(s), f, t, n, s.sizes))
            && (Clean(s, BatchRun(f, t, n)) ==>
                  var s' := After(s, BatchRun(f, t, n));
                  OthersRest(s, s') && s'.mig == Rest && Abs(s') == Batch(Abs(s), f, t, n))
  {
    hide Possible;
    hide NoHazard;
    hide After;
    hide Owned;
    hide Inside;
    hide Pairing;
    hide TakeRun;
    hide MoveRun;
    hide ReturnRun;
    hide Taken;
    hide Returned;
    hide Remap;
    hide Release;
    hide Offsets;
    hide CountMoved;
    hide Draining.Placeable;
    hide Fits;
    var n := Min(s.num[Migrate(f, t)], s.batch);
    var pages, frees := s.q[Migrate(f, t)][..n], s.q[Free(t)][..n];
    OwnedPairing(s, f, t, n);
    CollectsBatch(s, f, t);
    FitIsPlaceable(s, f, t, n);
    var first, rest := [MigStart(f, t)] + TakeRun(n), MoveRun(n) + ([MigReturn] + (ReturnRun(n) + [MigCount]));
    var s2 := After(s, first);
    assert BatchRun(f, t, n) == first + ([MigCheck] + rest);
    if Clean(s, BatchRun(f, t, n)) {
      Parted(s, first, [MigCheck] + rest);
      CheckFails(s2, rest);
    }
    if FreesFit(s2) {
      FinishesBatch(s2, s.desc, pages, frees);
      Joined(s, first, [MigCheck] + rest);
    }
  }

  lemma OnceOn(s: seq<nat>, p: nat)
    requires NoRepeats(s)
    ensures multiset(s)[p] == if p in s then 1 else 0
  {
    SingleEach(s);
    assert p in s <==> p in multiset(s);
  }

  /** Ownership is what TierSpec asks of its states, and more. */
  lemma OwnedIsWellFormed(s: System)
    requires Owned(s)
    ensures WellFormed(Abs(s))
  {
    hide Total;
    forall k, p | p in s.q[k]
      ensures p in s.desc && s.desc[p].inDram == (TierOf(k) == Dram) && s.desc[p].present == !k.Free?
    {
      Standing(s, k, p);
    }
    forall p | p in Total(s.q) ensures Total(s.q)[p] == 1 {
      OncePerQueue(s, p);
    }
  }

  lemma OncePerQueue(s: System, p: nat)
    requires Owned(s) && p in Total(s.q)
    ensures Total(s.q)[p] == 1
  {
    forall k ensures multiset(s.q[k])[p] == if p in s.q[k] then 1 else 0 {
      assert NoRepeats(s.q[k]);
      OnceOn(s.q[k], p);
    }
    forall j, k | p in s.q[j] && p in s.q[k] ensures j == k {
      assert s.where[p] == On(j) && s.where[p] == On(k);
    }
    hide Owned;
  }

  /* ---- The steps of one thread ---- */

  lemma DrawStep(s: System, i: nat, f: Tier, t: Tier, rand: nat)
    requires At(s, i, Idle)
    ensures var a, n := ReqDraw(i, f, t, rand), s.num[Mmap(f)];
            && Enabled(s, a) && (Hazard(s, a) <==> n == 0)
            && (n > 0 ==> Do(s, a) == Become(s, i, Turning(f, t, rand % n)))
  {
    hide Become;
  }

  lemma TakeStep(s: System, i: nat, f: Tier, t: Tier)
    requires Requests(s, i, f, t)
    ensures var a := ReqTake(i, f, t);
            && Enabled(s, a) && (Hazard(s, a) <==> s.q[Mmap(f)] == [] && LeftOf(s.threads[i]) > 0)
            && Do(s, a) == if s.q[Mmap(f)] == [] then Become(s, i, Idle)
                           else Become(Dequeue(s, Mmap(f), Held(i)), i,
                                       Holding(f, t, s.q[Mmap(f)][0], LeftOf(s.threads[i])))
  {
    hide Dequeue;
    hide Become;
  }

  lemma BackStep(s: System, i: nat, f: Tier, t: Tier, p: nat, left: nat)
    requires left > 0 && At(s, i, Holding(f, t, p, left))
    ensures Enabled(s, ReqBack(i)) && !Hazard(s, ReqBack(i))
    ensures Do(s, ReqBack(i)) == Become(Enqueue(s, Mmap(f), p), i, Turning(f, t, left - 1))
  {
    hide Enqueue;
    hide Become;
  }

  lemma PutStep(s: System, i: nat, f: Tier, t: Tier, p: nat)
    requires At(s, i, Holding(f, t, p, 0))
    ensures Enabled(s, ReqPut(i)) && !Hazard(s, ReqPut(i))
    ensures Do(s, ReqPut(i)) == Become(Enqueue(s, Migrate(f, t), p), i, Put(f, t))
  {
    hide Enqueue;
    hide Become;
  }

  lemma ReqCountStep(s: System, i: nat, f: Tier, t: Tier)
    requires At(s, i, Put(f, t))
    ensures Enabled(s, ReqCount(i)) && !Hazard(s, ReqCount(i))
    ensures Do(s, ReqCount(i)) == Become(s.(num := Shifted(s.num, Migrate(f, t), Mmap(f), 1)), i, Idle)
  {
    hide Shifted;
    hide Become;
  }

  lemma DramStep(s: System, i: nat, populate: bool)
    requires At(s, i, Idle)
    ensures var a := FaultDram(i, populate);
            && Enabled(s, a) && !Hazard(s, a)
            && Do(s, a) == if s.q[Free(Dram)] == [] then Become(s, i, TryNvm(populate))
                           else Become(Dequeue(s, Free(Dram), Held(i)), i, Fresh(Dram, s.q[Free(Dram)][0], populate))
  {
    hide Dequeue;
    hide Become;
  }

  lemma NvmStep(s: System, i: nat, populate: bool)
    requires At(s, i, TryNvm(populate)) && s.q[Free(Nvm)] != []
    ensures Enabled(s, FaultNvm(i)) && !Hazard(s, FaultNvm(i))
    ensures Do(s, FaultNvm(i)) ==
            Become(Dequeue(s, Free(Nvm), Held(i)), i, Fresh(Nvm, s.q[Free(Nvm)][0], populate))
  {
    hide Dequeue;
    hide Become;
  }

  /** The state once thread i has mapped page p of tier t at va. */
  function MappedPage(s: System, i: nat, t: Tier, p: nat, populate: bool, va: nat): System
    requires i < |s.threads|
  {
    Become(Enqueue(SetDesc(s, p, DescOf(s, p).(va := va, present := true, up := 0, down := 0)), Mmap(t), p)
             .(index := s.index[va := p], faults := if populate then s.faults else s.faults + 1),
           i, if populate then Mapped(t) else Idle)
  }

  lemma MapStep(s: System, i: nat, t: Tier, p: nat, populate: bool, va: nat)
    requires At(s, i, Fresh(t, p, populate))
    ensures var a := FaultMap(i, va);
            && Enabled(s, a) && (Hazard(s, a) <==> !(AddressOk(s, va) && Fits(DescOf(s, p).offset, t, s.sizes)))
            && Do(s, a) == MappedPage(s, i, t, p, populate, va)
  {
    hide Fits;
    hide AddressOk;
  }

  lemma CountStep(s: System, i: nat, t: Tier)
    requires At(s, i, Mapped(t))
    ensures Enabled(s, PopulateCount(i)) && !Hazard(s, PopulateCount(i))
    ensures Do(s, PopulateCount(i)) == Become(s.(num := Shifted(s.num, Mmap(t), Free(t), 1)), i, Idle)
  {
    hide Shifted;
    hide Become;
  }

  lemma FindStep(s: System, i: nat, va: nat)
    requires At(s, i, Idle) && va in s.index
    ensures Enabled(s, UnmapFind(i, va)) && !Hazard(s, UnmapFind(i, va))
    ensures Do(s, UnmapFind(i, va)) == Become(s, i, Found(va, s.index[va]))
  {
    hide Become;
  }

  lemma RemoveStep(s: System, i: nat, va: nat, p: nat)
    requires At(s, i, Found(va, p))
    ensures Enabled(s, UnmapRemove(i)) && (Hazard(s, UnmapRemove(i)) <==> !(va in s.index && s.index[va] == p))
    ensures Do(s, UnmapRemove(i)) == Become(s.(index := s.index - {va}), i, Unmapped(p))
  {
    hide Become;
  }

  lemma UncountStep(s: System, i: nat, p: nat)
    requires At(s, i, Unmapped(p)) && p in s.desc
    ensures Enabled(s, UnmapCount(i)) && !Hazard(s, UnmapCount(i))
    ensures var t := if s.desc[p].inDram then Dram else Nvm;
            Do(s, UnmapCount(i)) == Become(s.(num := Shifted(s.num, Free(t), Mmap(t), 1)), i, Idle)
  {
    hide Shifted;
    hide Become;
  }

  /* ---- A request that nobody disturbs ---- */

  /** All but queues, counters, descriptors and places is as it was, and thread i is at rest. */
  ghost predicate BackToIdle(s: System, s': System, i: nat) {
    && i < |s.threads| && s'.threads == s.threads[i := Idle] && s'.mig == s.mig && s'.index == s.index
    && s'.faults == s.faults && s'.batch == s.batch && s'.sizes == s.sizes
  }

  /** One page passes to the request list. */
  function PassRun(i: nat, f: Tier, t: Tier): seq<Action> { [ReqTake(i, f, t), ReqPut(i), ReqCount(i)] }

  lemma PassedState(s: System, i: nat, f: Tier, t: Tier, p: nat)
    requires i < |s.threads| && s.q[Mmap(f)] != [] && p == s.q[Mmap(f)][0]
    ensures var s1 := Become(Dequeue(s, Mmap(f), Held(i)), i, Holding(f, t, p, 0));
            && At(s1, i, Holding(f, t, p, 0))
            && var s2 := Become(Enqueue(s1, Migrate(f, t), p), i, Put(f, t));
            && At(s2, i, Put(f, t))
            && var s3 := Become(s2.(num := Shifted(s2.num, Migrate(f, t), Mmap(f), 1)), i, Idle);
            && BackToIdle(s, s3, i)
            && Abs(s3) == Handed(Abs(s), f, t, s.q[Mmap(f)][..1], s.q[Mmap(f)][1..])
  {
    hide Plus;
    hide Minus;
    assert s.q[Mmap(f)][..1] == [p];
  }

  lemma PassesOne(s: System, i: nat, f: Tier, t: Tier)
    requires Requests(s, i, f, t) && LeftOf(s.threads[i]) == 0 && s.q[Mmap(f)] != []
    ensures Clean(s, PassRun(i, f, t))
    ensures var s' := After(s, PassRun(i, f, t));
            BackToIdle(s, s', i) && Abs(s') == Handed(Abs(s), f, t, s.q[Mmap(f)][..1], s.q[Mmap(f)][1..])
  {
    hide Do;
    hide Enabled;
    hide Hazard;
    hide Become;
    hide Dequeue;
    hide Enqueue;
    hide Shifted;
    hide Handed;
    hide Possible;
    hide NoHazard;
    hide After;
    var p := s.q[Mmap(f)][0];
    PassedState(s, i, f, t, p);
    TakeStep(s, i, f, t);
    var s1 := Do(s, ReqTake(i, f, t));
    PutStep(s1, i, f, t, p);
    var s2 := Do(s1, ReqPut(i));
    ReqCountStep(s2, i, f, t);
    ThreeSteps(s, ReqTake(i, f, t), ReqPut(i), ReqCount(i));
  }

  lemma PassesNone(s: System, i: nat, f: Tier, t: Tier)
    requires Requests(s, i, f, t) && LeftOf(s.threads[i]) == 0 && s.q[Mmap(f)] == []
    ensures Clean(s, [ReqTake(i, f, t)])
    ensures var s' := After(s, [ReqTake(i, f, t)]); BackToIdle(s, s', i) && Abs(s') == Abs(s)
  {
    hide Do;
    hide Enabled;
    hide Hazard;
    TakeStep(s, i, f, t);
    OneStep(s, ReqTake(i, f, t));
  }

  /** A request in sequence for n pages from a list of that length. */
  function RequestRun(i: nat, f: Tier, t: Tier, length: nat, n: nat): seq<Action>
    decreases n
  {
    if n == 0 then []
    else if length == 0 then [ReqTake(i, f, t)] + RequestRun(i, f, t, 0, n - 1)
    else PassRun(i, f, t) + RequestRun(i, f, t, length - 1, n - 1)
  }

  lemma IdleThen(s: System, s1: System, i: nat)
    requires BackToIdle(s, s1, i)
    ensures At(s1, i, Idle)
  {
  }

  lemma SameIdle(s: System, s1: System, s2: System, i: nat)
    requires BackToIdle(s, s1, i) && BackToIdle(s1, s2, i)
    ensures BackToIdle(s, s2, i) && At(s1, i, Idle)
  {
  }

  lemma AtRest(s: System, i: nat)
    requires At(s, i, Idle)
    ensures BackToIdle(s, s, i)
  {
    assert s.threads[i := Idle] == s.threads;
  }

  /** One round of a request in sequence. */
  function RequestRound(i: nat, f: Tier, t: Tier, length: nat): seq<Action> {
    if length == 0 then [ReqTake(i, f, t)] else PassRun(i, f, t)
  }

  lemma RequestRunNext(i: nat, f: Tier, t: Tier, length: nat, n: nat)
    ensures RequestRun(i, f, t, length, n) ==
            if n == 0 then []
            else RequestRound(i, f, t, length) + RequestRun(i, f, t, if length == 0 then 0 else length - 1, n - 1)
  {
  }

  /** Round number j of a request that began in state s0. */
  lemma RequestsNext(s0: State<nat>, s: System, i: nat, f: Tier, t: Tier, j: nat)
    requires At(s, i, Idle) && Abs(s) == Requested(s0, f, t, j)
    ensures var length := |s.q[Mmap(f)]|;
            var run := RequestRound(i, f, t, length);
            && Clean(s, run) && BackToIdle(s, After(s, run), i) && Abs(After(s, run)) == Requested(s0, f, t, j + 1)
            && |After(s, run).q[Mmap(f)]| == if length == 0 then 0 else length - 1
  {
    hide Clean;
    hide After;
    hide Requested;
    hide PassRun;
    hide BackToIdle;
    RequestedOneMore(s0, f, t, j);
    if s.q[Mmap(f)] == [] {
      PassesNone(s, i, f, t);
    } else {
      PassesOne(s, i, f, t);
    }
  }

  /** The rounds of the request from number j on. */
  lemma {:induction false} RequestsFrom(s0: State<nat>, s: System, i: nat, f: Tier, t: Tier, j: nat, n: nat)
    requires At(s, i, Idle) && Abs(s) == Requested(s0, f, t, j)
    ensures var run := RequestRun(i, f, t, |s.q[Mmap(f)]|, n);
            && Clean(s, run) && BackToIdle(s, After(s, run), i)
            && Abs(After(s, run)) == Requested(s0, f, t, j + n)
    decreases n
  {
    hide *;
    var length := |s.q[Mmap(f)]|;
    RequestRunNext(i, f, t, length, n);
    if n == 0 {
      NoSteps(s);
      AtRest(s, i);
    } else {
      RequestsNext(s0, s, i, f, t, j);
      var first := RequestRound(i, f, t, length);
      CanRun(s, first);
      var s1 := After(s, first);
      IdleThen(s, s1, i);
      RequestsFrom(s0, s1, i, f, t, j + 1, n - 1);
      var later := RequestRun(i, f, t, |s1.q[Mmap(f)]|, n - 1);
      CanRun(s1, later);
      Joined(s, first, later);
      SameIdle(s, s1, After(s1, later), i);
    }
  }

  /** A request in sequence that no other thread disturbs meets no hazard, and does what TierSpec says. */
  lemma UndisturbedRequest(s: System, i: nat, f: Tier, t: Tier, n: nat)
    requires At(s, i, Idle)
    ensures var run := RequestRun(i, f, t, |s.q[Mmap(f)]|, n);
            && Clean(s, run) && BackToIdle(s, After(s, run), i)
            && Abs(After(s, run)) == Requested(Abs(s), f, t, n)
  {
    hide Requested;
    hide Clean;
    hide After;
    hide RequestRun;
    RequestedNone(Abs(s), f, t);
    RequestsFrom(Abs(s), s, i, f, t, 0, n);
  }

  /* ---- A random request ---- */

  /** Thread i passes c pages over. */
  function TurnRun(i: nat, f: Tier, t: Tier, c: nat): seq<Action> {
    if c == 0 then [] else [ReqTake(i, f, t), ReqBack(i)] + TurnRun(i, f, t, c - 1)
  }

  /** The list has been turned to `src`, and thread i has `left` more pages to pass over. */
  ghost predicate TurnedTo(s: System, s': System, i: nat, f: Tier, t: Tier, src: seq<nat>, left: nat) {
    && i < |s.threads| && s'.threads == s.threads[i := Turning(f, t, left)] && s'.q == s.q[Mmap(f) := src]
    && s'.num == s.num && s'.desc == s.desc && s'.mig == s.mig && s'.index == s.index && s'.faults == s.faults
    && s'.batch == s.batch && s'.sizes == s.sizes
  }

  lemma TurnedState(s0: System, s: System, i: nat, f: Tier, t: Tier, src: seq<nat>, left: nat)
    requires TurnedTo(s0, s, i, f, t, src, left) && left > 0 && src != []
    ensures var p := src[0];
            var s1 := Become(Dequeue(s, Mmap(f), Held(i)), i, Holding(f, t, p, left));
            && At(s1, i, Holding(f, t, p, left))
            && TurnedTo(s0, Become(Enqueue(s1, Mmap(f), p), i, Turning(f, t, left - 1)), i, f, t, src[1..] + [p],
                        left - 1)
  {
  }

  lemma TurnsOnce(s0: System, s: System, i: nat, f: Tier, t: Tier, src: seq<nat>, left: nat)
    requires TurnedTo(s0, s, i, f, t, src, left) && left > 0 && src != []
    ensures var run := [ReqTake(i, f, t), ReqBack(i)];
            Clean(s, run) && TurnedTo(s0, After(s, run), i, f, t, src[1..] + [src[0]], left - 1)
  {
    hide Do;
    hide Enabled;
    hide Hazard;
    hide Become;
    hide Dequeue;
    hide Enqueue;
    hide Possible;
    hide NoHazard;
    hide After;
    TurnedState(s0, s, i, f, t, src, left);
    TakeStep(s, i, f, t);
    var s1 := Do(s, ReqTake(i, f, t));
    BackStep(s1, i, f, t, src[0], left);
    TwoSteps(s, ReqTake(i, f, t), ReqBack(i));
  }

  lemma {:induction false} Turns(s0: System, s: System, i: nat, f: Tier, t: Tier, src: seq<nat>, c: nat, left: nat)
    requires src != [] && TurnedTo(s0, s, i, f, t, Turned(src, c), left)
    ensures var run := TurnRun(i, f, t, left);
            Clean(s, run) && TurnedTo(s0, After(s, run), i, f, t, Turned(src, c + left), 0)
    decreases left
  {
    hide Possible;
    hide NoHazard;
    hide After;
    hide TurnedTo;
    hide Turned;
    if left == 0 {
      NoSteps(s);
    } else {
      TurnedOneMore(src, c);
      TurnsOnce(s0, s, i, f, t, Turned(src, c), left);
      var s1 := After(s, [ReqTake(i, f, t), ReqBack(i)]);
      Turns(s0, s1, i, f, t, src, c + 1, left - 1);
      Joined(s, [ReqTake(i, f, t), ReqBack(i)], TurnRun(i, f, t, left - 1));
    }
  }

  /** A round of a random request that has drawn `rand`, on a list that is not empty. */
  function RoundRun(i: nat, f: Tier, t: Tier, rand: nat, num: nat): seq<Action>
    requires num > 0
  {
    [ReqDraw(i, f, t, rand)] + (TurnRun(i, f, t, rand % num) + PassRun(i, f, t))
  }

  lemma Draws(s: System, i: nat, f: Tier, t: Tier, rand: nat)
    requires At(s, i, Idle) && s.num[Mmap(f)] > 0
    ensures var run := [ReqDraw(i, f, t, rand)];
            && Clean(s, run) && TurnedTo(s, After(s, run), i, f, t, s.q[Mmap(f)], rand % s.num[Mmap(f)])
  {
    hide Do;
    hide Enabled;
    hide Hazard;
    DrawStep(s, i, f, t, rand);
    OneStep(s, ReqDraw(i, f, t, rand));
    assert s.q[Mmap(f) := s.q[Mmap(f)]] == s.q;
  }

  lemma PassesTurned(s: System, s1: System, i: nat, f: Tier, t: Tier, src: seq<nat>)
    requires TurnedTo(s, s1, i, f, t, src, 0) && src != []
    ensures Clean(s1, PassRun(i, f, t))
    ensures var s' := After(s1, PassRun(i, f, t));
            && BackToIdle(s, s', i)
            && Abs(s') == Handed(Abs(s).(q := s.q[Mmap(f) := src]), f, t, src[..1], src[1..])
  {
    hide Clean;
    hide After;
    hide Handed;
    hide PassRun;
    PassesOne(s1, i, f, t);
    assert s.threads[i := Turning(f, t, 0)][i := Idle] == s.threads[i := Idle];
  }

  lemma RoundPasses(s: System, i: nat, f: Tier, t: Tier, rand: nat)
    requires At(s, i, Idle) && s.num[Mmap(f)] > 0 && s.q[Mmap(f)] != []
    ensures var run, turned := RoundRun(i, f, t, rand, s.num[Mmap(f)]), Turned(s.q[Mmap(f)], rand % s.num[Mmap(f)]);
            && Clean(s, run) && BackToIdle(s, After(s, run), i)
            && Abs(After(s, run)) ==
               Handed(Abs(s).(q := s.q[Mmap(f) := turned]), f, t, turned[..1], turned[1..])
  {
    hide Possible;
    hide NoHazard;
    hide After;
    hide TurnedTo;
    hide Turned;
    hide Handed;
    hide TurnRun;
    hide PassRun;
    var src, c := s.q[Mmap(f)], rand % s.num[Mmap(f)];
    Draws(s, i, f, t, rand);
    var s1 := After(s, [ReqDraw(i, f, t, rand)]);
    TurnedNone(src);
    Turns(s, s1, i, f, t, src, 0, c);
    var s2 := After(s1, TurnRun(i, f, t, c));
    PassesTurned(s, s2, i, f, t, Turned(src, c));
    Joined(s1, TurnRun(i, f, t, c), PassRun(i, f, t));
    Joined(s, [ReqDraw(i, f, t, rand)], TurnRun(i, f, t, c) + PassRun(i, f, t));
  }

  /** A round on an empty list: it gets through if it draws that no page is to be passed over. */
  lemma RoundOnEmpty(s: System, i: nat, f: Tier, t: Tier, rand: nat)
    requires At(s, i, Idle) && s.num[Mmap(f)] > 0 && s.q[Mmap(f)] == []
    ensures var run := [ReqDraw(i, f, t, rand), ReqTake(i, f, t)];
            && (Clean(s, run) <==> rand % s.num[Mmap(f)] == 0)
            && (Clean(s, run) ==> BackToIdle(s, After(s, run), i) && Abs(After(s, run)) == Abs(s))
  {
    hide Do;
    hide Enabled;
    hide Hazard;
    hide Possible;
    hide NoHazard;
    hide After;
    DrawStep(s, i, f, t, rand);
    var s1 := Do(s, ReqDraw(i, f, t, rand));
    TakeStep(s1, i, f, t);
    if rand % s.num[Mmap(f)] == 0 {
      TwoSteps(s, ReqDraw(i, f, t, rand), ReqTake(i, f, t));
      assert s.threads[i := Turning(f, t, 0)][i := Idle] == s.threads[i := Idle];
    } else {
      SecondFails(s, ReqDraw(i, f, t, rand), ReqTake(i, f, t));
    }
  }

  /** A random request on a list of that length and with that counter; after a division by zero there are no more
      steps. */
  function RandomRun(i: nat, f: Tier, t: Tier, rands: seq<nat>, length: nat, num: nat): seq<Action>
    decreases |rands|
  {
    if rands == [] then []
    else if num == 0 then [ReqDraw(i, f, t, rands[0])]
    else if length == 0 then [ReqDraw(i, f, t, rands[0]), ReqTake(i, f, t)] + RandomRun(i, f, t, rands[1..], 0, num)
    else RoundRun(i, f, t, rands[0], num) + RandomRun(i, f, t, rands[1..], length - 1, num - 1)
  }

  lemma DrawsByZero(s: System, i: nat, f: Tier, t: Tier, rand: nat)
    requires At(s, i, Idle) && s.num[Mmap(f)] == 0
    ensures !Clean(s, [ReqDraw(i, f, t, rand)])
  {
    hide Do;
    hide Enabled;
    hide Hazard;
    DrawStep(s, i, f, t, rand);
  }

  lemma CountedDown(s: State<nat>, f: Tier, t: Tier, src: seq<nat>)
    requires src != [] && |src| == |s.q[Mmap(f)]| && s.num[Mmap(f)] > 0
    ensures var s' := Handed(s.(q := s.q[Mmap(f) := src]), f, t, src[..1], src[1..]);
            |s'.q[Mmap(f)]| == |src| - 1 && s'.num[Mmap(f)] == s.num[Mmap(f)] - 1
  {
    HandedMmap(s.(q := s.q[Mmap(f) := src]), f, t, src[..1], src[1..]);
  }

  /** The first round of a random request: if it gets through, the rest of the request is to be made in the state it
      leaves. */
  lemma FirstRound(s: System, i: nat, f: Tier, t: Tier, rands: seq<nat>) returns (first: seq<Action>)
    requires At(s, i, Idle) && rands != [] && s.num[Mmap(f)] > 0
    ensures var length, num := |s.q[Mmap(f)]|, s.num[Mmap(f)];
            && (Clean(s, first) <==> (length == 0 ==> rands[0] % num == 0))
            && (Clean(s, first) ==>
                  var s1 := After(s, first);
                  && BackToIdle(s, s1, i)
                  && |s1.q[Mmap(f)]| == (if length == 0 then 0 else length - 1)
                  && s1.num[Mmap(f)] == (if length == 0 then num else num - 1)
                  && (Survives(length, num, rands) ==>
                        && Survives(|s1.q[Mmap(f)]|, s1.num[Mmap(f)], rands[1..])
                        && RandomRequested(Abs(s1), f, t, rands[1..]) == RandomRequested(Abs(s), f, t, rands)))
            && RandomRun(i, f, t, rands, length, num) ==
               first + RandomRun(i, f, t, rands[1..], if length == 0 then 0 else length - 1,
                                 if length == 0 then num else num - 1)
  {
    hide Clean;
    hide After;
    hide Survives;
    hide RandomRequested;
    hide Handed;
    hide Turned;
    hide RoundRun;
    if Survives(|s.q[Mmap(f)]|, s.num[Mmap(f)], rands) {
      RandomRound(Abs(s), f, t, rands);
    }
    if s.q[Mmap(f)] == [] {
      first := [ReqDraw(i, f, t, rands[0]), ReqTake(i, f, t)];
      RoundOnEmpty(s, i, f, t, rands[0]);
    } else {
      first := RoundRun(i, f, t, rands[0], s.num[Mmap(f)]);
      RoundPasses(s, i, f, t, rands[0]);
      CountedDown(Abs(s), f, t, Turned(s.q[Mmap(f)], rands[0] % s.num[Mmap(f)]));
    }
  }

  /** A random request that no other thread disturbs meets a hazard if and only if it does not get through, and else
      does what TierSpec says. */
  lemma {:induction false} UndisturbedRandom(s: System, i: nat, f: Tier, t: Tier, rands: seq<nat>)
    requires At(s, i, Idle)
    ensures var run := RandomRun(i, f, t, rands, |s.q[Mmap(f)]|, s.num[Mmap(f)]);
            && (Clean(s, run) <==> Survives(|s.q[Mmap(f)]|, s.num[Mmap(f)], rands))
            && (Clean(s, run) ==>
                  BackToIdle(s, After(s, run), i) && Abs(After(s, run)) == RandomRequested(Abs(s), f, t, rands))
    decreases |rands|
  {
    hide Possible;
    hide NoHazard;
    hide After;
    hide RandomRequested;
    if rands == [] {
      NoSteps(s);
      AtRest(s, i);
      RandomNone(Abs(s), f, t);
    } else if s.num[Mmap(f)] == 0 {
      DrawsByZero(s, i, f, t, rands[0]);
    } else {
      var first := FirstRound(s, i, f, t, rands);
      var run := RandomRun(i, f, t, rands, |s.q[Mmap(f)]|, s.num[Mmap(f)]);
      if Clean(s, first) {
        var s1 := After(s, first);
        var later := RandomRun(i, f, t, rands[1..], |s1.q[Mmap(f)]|, s1.num[Mmap(f)]);
        UndisturbedRandom(s1, i, f, t, rands[1..]);
        if Clean(s, run) {
          Parted(s, first, later);
        }
        if Clean(s1, later) {
          Joined(s, first, later);
          SameIdle(s, s1, After(s1, later), i);
        }
      } else if Clean(s, run) {
        Parted(s, first, run[|first|..]);
      }
    }
  }

  /* ---- A page that is mapped ---- */

  /** Thread i maps a page at va, by populate or for a missing fault. */
  function MapRun(s: System, i: nat, va: nat, populate: bool): seq<Action> {
    AllocateRun(s, i, populate) + ([FaultMap(i, va)] + if populate then [PopulateCount(i)] else [])
  }

  function AllocateRun(s: System, i: nat, populate: bool): seq<Action> {
    [FaultDram(i, populate)] + if s.q[Free(Dram)] == [] then [FaultNvm(i)] else []
  }

  /** Thread i holds free page p of tier t. */
  ghost predicate Allocated(s: System, s': System, i: nat, t: Tier, p: nat, populate: bool) {
    && i < |s.threads| && s'.threads == s.threads[i := Fresh(t, p, populate)]
    && s.q[Free(t)] != [] && p == s.q[Free(t)][0] && s'.q == s.q[Free(t) := s.q[Free(t)][1..]]
    && s'.num == s.num && s'.desc == s.desc && s'.mig == s.mig && s'.index == s.index && s'.faults == s.faults
    && s'.batch == s.batch && s'.sizes == s.sizes
  }

  lemma AllocatedState(s: System, i: nat, t: Tier, p: nat, populate: bool)
    requires At(s, i, Idle) && s.q[Free(t)] != [] && p == s.q[Free(t)][0]
    ensures Allocated(s, Become(Dequeue(s, Free(t), Held(i)), i, Fresh(t, p, populate)), i, t, p, populate)
    ensures var s1 := Become(s, i, TryNvm(populate));
            && At(s1, i, TryNvm(populate)) && s1.q == s.q
            && Allocated(s, Become(Dequeue(s1, Free(t), Held(i)), i, Fresh(t, p, populate)), i, t, p, populate)
  {
  }

  lemma Allocates(s: System, i: nat, populate: bool)
    requires At(s, i, Idle) && s.q[Free(AllocationTier(Abs(s)))] != []
    ensures var t, run := AllocationTier(Abs(s)), AllocateRun(s, i, populate);
            Clean(s, run) && Allocated(s, After(s, run), i, t, s.q[Free(t)][0], populate)
  {
    hide Do;
    hide Enabled;
    hide Hazard;
    hide Become;
    hide Dequeue;
    hide Possible;
    hide NoHazard;
    hide After;
    hide Allocated;
    var t := AllocationTier(Abs(s));
    AllocatedState(s, i, t, s.q[Free(t)][0], populate);
    DramStep(s, i, populate);
    if t == Dram {
      OneStep(s, FaultDram(i, populate));
      assert AllocateRun(s, i, populate) == [FaultDram(i, populate)];
    } else {
      NvmStep(Do(s, FaultDram(i, populate)), i, populate);
      TwoSteps(s, FaultDram(i, populate), FaultNvm(i));
      assert AllocateRun(s, i, populate) == [FaultDram(i, populate), FaultNvm(i)];
    }
  }

  /** What is different once thread i has mapped page p at va. */
  ghost predicate MappedBy(s: System, s': System, i: nat, t: Tier, p: nat, va: nat, populate: bool) {
    && s'.threads == s.threads && s'.mig == s.mig && s'.batch == s.batch && s'.sizes == s.sizes
    && s'.index == s.index[va := p] && s'.faults == s.faults + (if populate then 0 else 1)
    && s.q[Free(AllocationTier(Abs(s)))] != []
    && Abs(s') == if populate then Populated(Abs(s), va) else TierSpec.Mapped(Abs(s), va)
  }

  lemma MappedState(s: System, s1: System, i: nat, t: Tier, p: nat, va: nat, populate: bool)
    requires At(s, i, Idle) && t == AllocationTier(Abs(s)) && Allocated(s, s1, i, t, p, populate) && p in s.desc
    ensures var s2 := MappedPage(s1, i, t, p, populate, va);
            if populate
            then At(s2, i, Mapped(t)) &&
                 MappedBy(s, Become(s2.(num := Shifted(s2.num, Mmap(t), Free(t), 1)), i, Idle), i, t, p, va, true)
            else MappedBy(s, s2, i, t, p, va, false)
  {
    hide Plus;
    hide Minus;
    assert s.threads[i := Idle] == s.threads;
  }

  /** The second half of the mapping. */
  lemma Maps(s: System, s1: System, i: nat, t: Tier, p: nat, va: nat, populate: bool)
    requires At(s, i, Idle) && t == AllocationTier(Abs(s)) && Allocated(s, s1, i, t, p, populate) && p in s.desc
    ensures var run := [FaultMap(i, va)] + if populate then [PopulateCount(i)] else [];
            && (Clean(s1, run) <==> AddressOk(s, va) && Fits(s.desc[p].offset, t, s.sizes))
            && (Clean(s1, run) ==> MappedBy(s, After(s1, run), i, t, p, va, populate))
  {
    hide Do;
    hide Enabled;
    hide Hazard;
    hide Become;
    hide MappedPage;
    hide MappedBy;
    hide Shifted;
    hide Fits;
    hide Possible;
    hide NoHazard;
    hide After;
    MapStep(s1, i, t, p, populate, va);
    var s2 := Do(s1, FaultMap(i, va));
    MappedState(s, s1, i, t, p, va, populate);
    var run := [FaultMap(i, va)] + if populate then [PopulateCount(i)] else [];
    if Hazard(s1, FaultMap(i, va)) {
      FirstFails(s1, FaultMap(i, va), if populate then [PopulateCount(i)] else []);
    } else {
      if populate {
        CountStep(s2, i, t);
        TwoSteps(s1, FaultMap(i, va), PopulateCount(i));
        assert run == [FaultMap(i, va), PopulateCount(i)];
      } else {
        OneStep(s1, FaultMap(i, va));
        assert run == [FaultMap(i, va)];
      }
    }
  }

  /** A page that is mapped with no other thread between: there is no hazard if and only if the address is aligned and
      new and the free page lies inside its device, and the mapping is then that of TierSpec, in either tier, counted
      by populate and not by the handler of missing faults. */
  lemma UndisturbedMapping(s: System, i: nat, va: nat, populate: bool)
    requires Owned(s) && At(s, i, Idle) && s.q[Free(AllocationTier(Abs(s)))] != []
    ensures var t, run := AllocationTier(Abs(s)), MapRun(s, i, va, populate);
            var p := s.q[Free(t)][0];
            && p in s.desc && (Clean(s, run) <==> AddressOk(s, va) && Fits(s.desc[p].offset, t, s.sizes))
            && (Clean(s, run) ==> MappedBy(s, After(s, run), i, t, p, va, populate))
  {
    hide Owned;
    hide Possible;
    hide NoHazard;
    hide After;
    hide Allocated;
    hide MappedBy;
    hide AddressOk;
    hide Fits;
    hide AllocateRun;
    var t := AllocationTier(Abs(s));
    var p := s.q[Free(t)][0];
    Standing(s, Free(t), p);
    Allocates(s, i, populate);
    var s1 := After(s, AllocateRun(s, i, populate));
    var later := [FaultMap(i, va)] + if populate then [PopulateCount(i)] else [];
    Maps(s, s1, i, t, p, va, populate);
    if Clean(s, MapRun(s, i, va, populate)) {
      Parted(s, AllocateRun(s, i, populate), later);
    }
    if Clean(s1, later) {
      Joined(s, AllocateRun(s, i, populate), later);
    }
  }

  /* ---- A page that is unmapped ---- */

  function UnmapRun(i: nat, va: nat): seq<Action> { [UnmapFind(i, va), UnmapRemove(i), UnmapCount(i)] }

  /** Thread i takes the page at va out of the index, and counts it in the tier it is in. */
  lemma Unmaps(s: System, i: nat, va: nat)
    requires At(s, i, Idle) && va in s.index && s.index[va] in s.desc
    ensures var run := UnmapRun(i, va);
            Clean(s, run) &&
            var s', t := After(s, run), if s.desc[s.index[va]].inDram then Dram else Nvm;
            && s'.threads == s.threads && s'.mig == s.mig && s'.faults == s.faults && s'.batch == s.batch
            && s'.sizes == s.sizes && s'.q == s.q && s'.desc == s.desc && s'.index == s.index - {va}
            && s'.num == Shifted(s.num, Free(t), Mmap(t), 1)
  {
    hide Do;
    hide Enabled;
    hide Hazard;
    hide Possible;
    hide NoHazard;
    hide After;
    hide Shifted;
    FindStep(s, i, va);
    var s1 := Do(s, UnmapFind(i, va));
    RemoveStep(s1, i, va, s.index[va]);
    var s2 := Do(s1, UnmapRemove(i));
    UncountStep(s2, i, s.index[va]);
    ThreeSteps(s, UnmapFind(i, va), UnmapRemove(i), UnmapCount(i));
    assert Do(s2, UnmapCount(i)).threads == s.threads;
  }

  /** munmap of a page on the mmap list of tier t, with no other thread between: that tier has one mapped page less and
      one free page more on its counters, modulo 2^64, and no other counter moves; the queues stay. */
  lemma UndisturbedUnmap(s: System, i: nat, va: nat, t: Tier)
    requires Owned(s) && At(s, i, Idle) && va in s.index && s.index[va] in s.q[Mmap(t)]
    ensures var run := UnmapRun(i, va);
            Clean(s, run) &&
            var s' := After(s, run);
            && s'.index == s.index - {va} && s'.q == s.q && s'.desc == s.desc && s'.threads == s.threads
            && s'.num[Mmap(t)] == (s.num[Mmap(t)] - 1) % WORD && s'.num[Free(t)] == (s.num[Free(t)] + 1) % WORD
            && forall k :: k != Mmap(t) && k != Free(t) ==> s'.num[k] == s.num[k]
  {
    hide Clean;
    hide After;
    hide UnmapRun;
    Standing(s, Mmap(t), s.index[va]);
    hide Owned;
    Unmaps(s, i, va);
  }

  lemma CountedBack(num: Counters, t: Tier)
    ensures Shifted(CountMapped(num, t), Free(t), Mmap(t), 1) == num
  {
    var r := Shifted(CountMapped(num, t), Free(t), Mmap(t), 1);
    forall k: QueueId ensures r[k] == num[k] {
      Draining.PlusMinus(num[k], 1);
    }
  }

  /** Populate of a page and the munmap of its address, with no other thread between, give back index and counters, all
      eight of them, in DRAM and, when DRAM is used up, in NVM.  The page stays on its mmap list. */
  lemma UnmapUncounts(s: System, i: nat, va: nat)
    requires Owned(s) && At(s, i, Idle) && AddressOk(s, va)
    requires var t := AllocationTier(Abs(s));
             && s.q[Free(t)] != [] && s.q[Free(t)][0] in s.desc
             && Fits(s.desc[s.q[Free(t)][0]].offset, t, s.sizes)
    ensures var t, run := AllocationTier(Abs(s)), MapRun(s, i, va, true) + UnmapRun(i, va);
            Clean(s, run) &&
            var s' := After(s, run);
            && s'.num == s.num && s'.index == s.index && s'.faults == s.faults && s'.threads == s.threads
            && s'.q[Free(t)] == s.q[Free(t)][1..] && s'.q[Mmap(t)] == s.q[Mmap(t)] + [s.q[Free(t)][0]]
  {
    hide *;
    var t := AllocationTier(Abs(s));
    var p, map', unmap := s.q[Free(t)][0], MapRun(s, i, va, true), UnmapRun(i, va);
    NewAddress(s, va);
    UndisturbedMapping(s, i, va, true);
    CanRun(s, map');
    var s1 := After(s, map');
    PopulatedParts(s, s1, i, t, p, va);
    Unmaps(s1, i, va);
    CanRun(s1, unmap);
    Joined(s, map', unmap);
    CountedBack(s.num, t);
    assert s.index[va := p] - {va} == s.index;
  }

  lemma PopulatedParts(s: System, s1: System, i: nat, t: Tier, p: nat, va: nat)
    requires Owned(s) && At(s, i, Idle) && MappedBy(s, s1, i, t, p, va, true)
    requires t == AllocationTier(Abs(s)) && p == s.q[Free(t)][0]
    ensures At(s1, i, Idle) && va in s1.index && p in s1.desc && (s1.desc[p].inDram <==> t == Dram)
    ensures s1.threads == s.threads && s1.index == s.index[va := p] && s1.faults == s.faults
    ensures s1.num == CountMapped(s.num, t)
    ensures s1.q == s.q[Free(t) := s.q[Free(t)][1..]][Mmap(t) := s.q[Mmap(t)] + [p]]
  {
    Standing(s, Free(t), p);
    hide Owned;
    hide CountMapped;
  }

  lemma NewAddress(s: System, va: nat)
    requires AddressOk(s, va)
    ensures va !in s.index
  {
  }
}
