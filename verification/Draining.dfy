/** The migration thread run to completion: batches compose, so draining does not depend on the batch size; and what its
    assertions need on the way. */
module Draining {
  import opened Basics
  import opened TierSpec

  lemma PlusPlus(a: nat, m: nat, n: nat)
    ensures Plus(Plus(a, m), n) == Plus(a, m + n)
  {
  }

  lemma MinusMinus(a: nat, m: nat, n: nat)
    ensures Minus(Minus(a, m), n) == Minus(a, m + n)
  {
  }

  lemma PlusMinus(a: Word, n: nat)
    ensures Minus(Plus(a, n), n) == a && Plus(Minus(a, n), n) == a
  {
    assert Plus(a, n) - n == a - (a + n) / WORD * WORD;
    assert Minus(a, n) + n == a - (a - n) / WORD * WORD;
  }

  lemma TakeTake<P>(s: seq<P>, m: nat, n: nat)
    requires m + n <= |s|
    ensures s[m..][n..] == s[m + n..] && s[..m] + s[m..][..n] == s[..m + n] && s[m..][..n] == s[m..m + n]
  {
  }

  lemma TurnTurn<P>(s: seq<P>, m: nat, n: nat)
    requires m + n <= |s|
    ensures (s[m..] + s[..m])[n..] + (s[m..] + s[..m])[..n] == s[m + n..] + s[..m + n]
    ensures (s[m..] + s[..m])[..n] == s[m..m + n]
  {
    var r := s[m..] + s[..m];
    assert r[n..] == s[m + n..] + s[..m] && r[..n] == s[m..m + n];
    assert s[..m + n] == s[..m] + s[m..m + n];
  }

  /** What a batch makes of queue k, where b and c are the first n pages of the request list and the free list. */
  function After<P>(k: QueueId, f: Tier, t: Tier, a: seq<P>, b: seq<P>, c: seq<P>, n: nat): seq<P>
    requires (k == Migrate(f, t) || k == Free(t)) ==> n <= |a|
  {
    if k == Migrate(f, t) then a[n..]
    else if k == Mmap(t) then a + b
    else if k == Free(t) then (if f == t then a[n..] + a[..n] else a[n..])
    else if k == Free(f) then a + c
    else a
  }

  lemma BatchQueue<P>(s: State<P>, f: Tier, t: Tier, n: nat, k: QueueId)
    requires n <= |s.q[Migrate(f, t)]| && n <= |s.q[Free(t)]|
    ensures Batch(s, f, t, n).q[k] == After(k, f, t, s.q[k], s.q[Migrate(f, t)][..n], s.q[Free(t)][..n], n)
  {
    hide Remap;
    hide Release;
  }

  lemma BatchLengths<P>(s: State<P>, f: Tier, t: Tier, m: nat, n: nat)
    requires m + n <= |s.q[Migrate(f, t)]| && m + n <= |s.q[Free(t)]|
    ensures var s1 := Batch(s, f, t, m);
            && n <= |s1.q[Migrate(f, t)]| && n <= |s1.q[Free(t)]|
            && s1.q[Migrate(f, t)][..n] == s.q[Migrate(f, t)][m..m + n]
            && s1.q[Free(t)][..n] == s.q[Free(t)][m..m + n]
  {
    var b, c := s.q[Migrate(f, t)], s.q[Free(t)];
    BatchQueue(s, f, t, m, Migrate(f, t));
    BatchQueue(s, f, t, m, Free(t));
    hide Batch;
    TakeTake(b, m, n);
    if f == t {
      TurnTurn(c, m, n);
    } else {
      TakeTake(c, m, n);
    }
  }

  lemma Regroup<P>(a: seq<P>, b: seq<P>, m: nat, n: nat)
    requires m + n <= |b|
    ensures a + b[..m] + b[m..m + n] == a + b[..m + n]
  {
  }

  lemma AfterAfter<P>(k: QueueId, f: Tier, t: Tier, a: seq<P>, b: seq<P>, c: seq<P>, m: nat, n: nat)
    requires m + n <= |b| && m + n <= |c| && ((k == Migrate(f, t) || k == Free(t)) ==> m + n <= |a|)
    ensures After(k, f, t, After(k, f, t, a, b[..m], c[..m], m), b[m..m + n], c[m..m + n], n) ==
            After(k, f, t, a, b[..m + n], c[..m + n], m + n)
  {
    if k == Mmap(t) {
      Regroup(a, b, m, n);
    } else if k == Free(t) {
      TakeTake(a, m, n);
      TurnTurn(a, m, n);
    } else if k == Migrate(f, t) {
      TakeTake(a, m, n);
    } else {
      Regroup(a, c, m, n);
    }
  }

  lemma BatchAddQueue<P>(s: State<P>, f: Tier, t: Tier, m: nat, n: nat, k: QueueId)
    requires m + n <= |s.q[Migrate(f, t)]| && m + n <= |s.q[Free(t)]|
    requires var s1 := Batch(s, f, t, m); n <= |s1.q[Migrate(f, t)]| && n <= |s1.q[Free(t)]|
    ensures Batch(Batch(s, f, t, m), f, t, n).q[k] == Batch(s, f, t, m + n).q[k]
  {
    hide *;
    var s1 := Batch(s, f, t, m);
    var a, b, c := s.q[k], s.q[Migrate(f, t)], s.q[Free(t)];
    BatchQueue(s, f, t, m, k);
    assert s1.q[k] == After(k, f, t, a, b[..m], c[..m], m);
    BatchQueue(s, f, t, m + n, k);
    BatchLengths(s, f, t, m, n);
    AfterAfter(k, f, t, a, b, c, m, n);
    BatchQueue(s1, f, t, n, k);
  }

  /** What a batch does to the descriptors of page p and of the free page x it takes the place of. */
  ghost predicate MovedTo<P>(i: map<P, Info>, r: map<P, Info>, p: P, x: P, f: Tier, t: Tier) {
    && p in i && x in i && p in r && x in r
    && r[p] == Moved(i[p], i[x].offset, f, t) && r[x] == Freed(i[x], f)
  }

  ghost predicate Same<P>(i: map<P, Info>, r: map<P, Info>, p: P) {
    p in i && p in r && r[p] == i[p]
  }

  ghost predicate InfoMoved<P>(i: map<P, Info>, r: map<P, Info>, pages: seq<P>, frees: seq<P>, f: Tier, t: Tier)
  {
    && |pages| == |frees| && r.Keys == i.Keys
    && (forall j {:trigger MovedTo(i, r, pages[j], frees[j], f, t)} :: 0 <= j < |pages| ==>
          MovedTo(i, r, pages[j], frees[j], f, t))
    && (forall p {:trigger Same(i, r, p)} :: p in i && p !in pages && p !in frees ==> Same(i, r, p))
  }

  /** One pair of a batch done in two parts. */
  lemma PairInTwo<P>(i0: map<P, Info>, i1: map<P, Info>, i2: map<P, Info>,
                     pages: seq<P>, frees: seq<P>, f: Tier, t: Tier, m: nat, j: nat)
    requires m <= |pages| == |frees| && NoRepeats(pages) && NoRepeats(frees) && forall p :: p in pages ==> p !in frees
    requires InfoMoved(i0, i1, pages[..m], frees[..m], f, t) && InfoMoved(i1, i2, pages[m..], frees[m..], f, t)
    requires j < |pages| && pages[j] in i0 && frees[j] in i0
    ensures MovedTo(i0, i2, pages[j], frees[j], f, t)
  {
    var p, x := pages[j], frees[j];
    assert p in pages && x in frees;
    if j < m {
      assert p !in pages[m..] && x !in frees[m..];
      assert p !in frees[m..] && x !in pages[m..];
      assert MovedTo(i0, i1, pages[..m][j], frees[..m][j], f, t);
      assert Same(i1, i2, p) && Same(i1, i2, x);
    } else {
      assert p !in pages[..m] && x !in frees[..m];
      assert p !in frees[..m] && x !in pages[..m];
      assert Same(i0, i1, p) && Same(i0, i1, x);
      assert MovedTo(i1, i2, pages[m..][j - m], frees[m..][j - m], f, t);
    }
  }

  lemma InfoInTwo<P>(i0: map<P, Info>, i1: map<P, Info>, i2: map<P, Info>, i: map<P, Info>,
                     pages: seq<P>, frees: seq<P>, f: Tier, t: Tier, m: nat)
    requires m <= |pages| == |frees| && NoRepeats(pages) && NoRepeats(frees) && forall p :: p in pages ==> p !in frees
    requires InfoMoved(i0, i1, pages[..m], frees[..m], f, t) && InfoMoved(i1, i2, pages[m..], frees[m..], f, t)
    requires InfoMoved(i0, i, pages, frees, f, t)
    ensures i2 == i
  {
    forall p | p in i ensures i2[p] == i[p] {
      if p !in pages && p !in frees {
        assert Same(i0, i1, p) && Same(i1, i2, p) && Same(i0, i, p);
      } else {
        var j :| 0 <= j < |pages| && (pages[j] == p || frees[j] == p);
        assert MovedTo(i0, i, pages[j], frees[j], f, t);
        PairInTwo(i0, i1, i2, pages, frees, f, t, m, j);
      }
    }
  }

  lemma BatchMoves<P>(s: State<P>, f: Tier, t: Tier, n: nat)
    requires WellFormed(s) && n <= |s.q[Migrate(f, t)]| && n <= |s.q[Free(t)]|
    ensures InfoMoved(s.info, Batch(s, f, t, n).info, s.q[Migrate(f, t)][..n], s.q[Free(t)][..n], f, t)
  {
    BatchInfo(s, f, t, n);
  }

  lemma BatchAddInfo<P>(s: State<P>, f: Tier, t: Tier, m: nat, n: nat)
    requires WellFormed(s) && m + n <= |s.q[Migrate(f, t)]| && m + n <= |s.q[Free(t)]|
    requires var s1 := Batch(s, f, t, m); n <= |s1.q[Migrate(f, t)]| && n <= |s1.q[Free(t)]|
    ensures Batch(Batch(s, f, t, m), f, t, n).info == Batch(s, f, t, m + n).info
  {
    hide *;
    var s1 := Batch(s, f, t, m);
    BatchLengths(s, f, t, m, n);
    BatchKeeps(s, f, t, m);
    BatchMoves(s, f, t, m);
    BatchMoves(s, f, t, m + n);
    BatchMoves(s1, f, t, n);
    BatchParties(s, f, t, m + n);
    var pages, frees := s.q[Migrate(f, t)][..m + n], s.q[Free(t)][..m + n];
    assert s.q[Migrate(f, t)][..m] == pages[..m] && s1.q[Migrate(f, t)][..n] == pages[m..];
    assert s.q[Free(t)][..m] == frees[..m] && s1.q[Free(t)][..n] == frees[m..];
    InfoInTwo(s.info, s1.info, Batch(s1, f, t, n).info, Batch(s, f, t, m + n).info, pages, frees, f, t, m);
  }

  lemma CountAdd(num: Counters, f: Tier, t: Tier, m: nat, n: nat)
    ensures CountMoved(CountMoved(num, f, t, m), f, t, n) == CountMoved(num, f, t, m + n)
  {
    hide Plus;
    hide Minus;
    forall k: QueueId ensures CountMoved(CountMoved(num, f, t, m), f, t, n)[k] == CountMoved(num, f, t, m + n)[k] {
      PlusPlus(num[k], m, n);
      MinusMinus(num[k], m, n);
    }
  }

  lemma BatchNum<P>(s: State<P>, f: Tier, t: Tier, n: nat)
    requires n <= |s.q[Migrate(f, t)]| && n <= |s.q[Free(t)]|
    ensures Batch(s, f, t, n).num == CountMoved(s.num, f, t, n)
  {
  }

  lemma SameState<P>(s: State<P>, s': State<P>)
    requires s.num == s'.num && s.info == s'.info && forall k: QueueId :: s.q[k] == s'.q[k]
    ensures s == s'
  {
    assert s.q == s'.q;
  }

  /** Two batches make one batch of both sizes. */
  lemma BatchAdd<P>(s: State<P>, f: Tier, t: Tier, m: nat, n: nat)
    requires WellFormed(s) && m + n <= |s.q[Migrate(f, t)]| && m + n <= |s.q[Free(t)]|
    ensures var s1 := Batch(s, f, t, m);
            n <= |s1.q[Migrate(f, t)]| && n <= |s1.q[Free(t)]| && Batch(s1, f, t, n) == Batch(s, f, t, m + n)
  {
    hide *;
    var s1 := Batch(s, f, t, m);
    BatchLengths(s, f, t, m, n);
    BatchAddInfo(s, f, t, m, n);
    BatchNum(s, f, t, m);
    BatchNum(s1, f, t, n);
    BatchNum(s, f, t, m + n);
    CountAdd(s.num, f, t, m, n);
    var s2, s3 := Batch(s1, f, t, n), Batch(s, f, t, m + n);
    forall k: QueueId ensures s2.q[k] == s3.q[k] {
      BatchAddQueue(s, f, t, m, n, k);
    }
    SameState(s2, s3);
  }

  /* ---- Draining one request list ---- */

  /** The counter does not run ahead of its queue, and every batch of at most b pages finds enough free pages. */
  ghost predicate Able<P>(s: State<P>, f: Tier, t: Tier, b: nat) {
    var num := s.num[Migrate(f, t)];
    num <= |s.q[Migrate(f, t)]| && (if f == t then Min(num, b) else num) <= |s.q[Free(t)]|
  }

  lemma AbleNext<P>(s: State<P>, f: Tier, t: Tier, b: nat)
    requires b > 0 && Able(s, f, t, b) && s.num[Migrate(f, t)] > 0
    ensures var num := s.num[Migrate(f, t)];
            var n := Min(num, b);
            var s' := Batch(s, f, t, n);
            Able(s', f, t, b) && s'.num[Migrate(f, t)] == num - n
  {
    var n := Min(s.num[Migrate(f, t)], b);
    BatchQueue(s, f, t, n, Migrate(f, t));
    BatchQueue(s, f, t, n, Free(t));
    hide Remap;
    hide Release;
    hide Returned;
    hide Taken;
  }

  /** The inner loop of the migration thread, in batches of at most b pages, with no new requests. */
  ghost function DrainQueue<P>(s: State<P>, f: Tier, t: Tier, b: nat): State<P>
    requires b > 0 && Able(s, f, t, b)
    decreases s.num[Migrate(f, t)]
  {
    var num := s.num[Migrate(f, t)];
    if num == 0 then s
    else
      AbleNext(s, f, t, b);
      DrainQueue(Batch(s, f, t, Min(num, b)), f, t, b)
  }

  /** Whatever the batch size, the counter goes to zero, as many pages have left the request list as it stood at, and
      no page is lost. */
  lemma {:induction false} DrainQueueEmpties<P>(s: State<P>, f: Tier, t: Tier, b: nat)
    requires b > 0 && Able(s, f, t, b) && WellFormed(s)
    ensures var s' := DrainQueue(s, f, t, b);
            && WellFormed(s') && Total(s'.q) == Total(s.q) && s'.info.Keys == s.info.Keys
            && s'.num[Migrate(f, t)] == 0
            && s'.q[Migrate(f, t)] == s.q[Migrate(f, t)][s.num[Migrate(f, t)]..]
    decreases s.num[Migrate(f, t)]
  {
    hide Total;
    hide WellFormed;
    hide Batch;
    var num := s.num[Migrate(f, t)];
    if num == 0 {
    } else {
      var n := Min(num, b);
      AbleNext(s, f, t, b);
      BatchKeeps(s, f, t, n);
      BatchQueue(s, f, t, n, Migrate(f, t));
      DrainQueueEmpties(Batch(s, f, t, n), f, t, b);
    }
  }

  lemma BatchOfNone<P>(s: State<P>, f: Tier, t: Tier)
    ensures Batch(s, f, t, 0) == s
  {
    var s' := Batch(s, f, t, 0);
    assert s'.info == s.info;
    assert s'.num == s.num by {
      BatchNum(s, f, t, 0);
    }
    hide Batch;
    forall k: QueueId ensures s'.q[k] == s.q[k] {
      BatchQueue(s, f, t, 0, k);
    }
    SameState(s', s);
  }

  /** With enough free pages, draining in batches of any size is one batch of them all. */
  lemma {:induction false} DrainQueueIsBatch<P>(s: State<P>, f: Tier, t: Tier, b: nat)
    requires b > 0 && WellFormed(s)
    requires s.num[Migrate(f, t)] <= |s.q[Migrate(f, t)]| && s.num[Migrate(f, t)] <= |s.q[Free(t)]|
    ensures DrainQueue(s, f, t, b) == Batch(s, f, t, s.num[Migrate(f, t)])
    decreases s.num[Migrate(f, t)]
  {
    hide WellFormed;
    hide Batch;
    var num := s.num[Migrate(f, t)];
    if num == 0 {
      BatchOfNone(s, f, t);
    } else {
      var n := Min(num, b);
      AbleNext(s, f, t, b);
      BatchKeeps(s, f, t, n);
      BatchAdd(s, f, t, n, num - n);
      BatchQueue(s, f, t, n, Migrate(f, t));
      DrainQueueIsBatch(Batch(s, f, t, n), f, t, b);
    }
  }

  lemma BatchElsewhere<P>(s: State<P>, f: Tier, t: Tier, n: nat, g: Tier, h: Tier)
    requires n <= |s.q[Migrate(f, t)]| && n <= |s.q[Free(t)]| && (g != f || h != t)
    ensures var s' := Batch(s, f, t, n);
            s'.q[Migrate(g, h)] == s.q[Migrate(g, h)] && s'.num[Migrate(g, h)] == s.num[Migrate(g, h)]
  {
    hide Remap;
    hide Release;
    hide Plus;
    hide Minus;
    assert Migrate(g, h) != Migrate(f, t);
  }

  /** Draining one list leaves the other request lists and their counters alone. */
  lemma {:induction false} DrainQueueElsewhere<P>(s: State<P>, f: Tier, t: Tier, b: nat, g: Tier, h: Tier)
    requires b > 0 && Able(s, f, t, b) && (g != f || h != t)
    ensures var s' := DrainQueue(s, f, t, b);
            s'.q[Migrate(g, h)] == s.q[Migrate(g, h)] && s'.num[Migrate(g, h)] == s.num[Migrate(g, h)]
    decreases s.num[Migrate(f, t)]
  {
    var num := s.num[Migrate(f, t)];
    if num == 0 {
    } else {
      var n := Min(num, b);
      AbleNext(s, f, t, b);
      BatchElsewhere(s, f, t, n, g, h);
      assert DrainQueue(s, f, t, b) == DrainQueue(Batch(s, f, t, n), f, t, b);
      hide Batch;
      hide DrainQueue;
      DrainQueueElsewhere(Batch(s, f, t, n), f, t, b, g, h);
    }
  }

  /** How a batch of n pages changes the length of a free list. */
  function Shift(f: Tier, t: Tier, g: Tier, n: int): int {
    if f == t then 0 else if g == f then n else -n
  }

  lemma BatchFree<P>(s: State<P>, f: Tier, t: Tier, n: nat, g: Tier)
    requires n <= |s.q[Migrate(f, t)]| && n <= |s.q[Free(t)]|
    ensures |Batch(s, f, t, n).q[Free(g)]| == |s.q[Free(g)]| + Shift(f, t, g, n)
  {
    BatchQueue(s, f, t, n, Free(g));
  }

  /** Draining one list moves as many descriptors from the free list of tier t to that of tier f. */
  lemma {:induction false} DrainQueueFree<P>(s: State<P>, f: Tier, t: Tier, b: nat, g: Tier)
    requires b > 0 && Able(s, f, t, b)
    ensures |DrainQueue(s, f, t, b).q[Free(g)]| == |s.q[Free(g)]| + Shift(f, t, g, s.num[Migrate(f, t)])
    decreases s.num[Migrate(f, t)]
  {
    var num := s.num[Migrate(f, t)];
    if num == 0 {
    } else {
      var n := Min(num, b);
      AbleNext(s, f, t, b);
      BatchFree(s, f, t, n, g);
      assert DrainQueue(s, f, t, b) == DrainQueue(Batch(s, f, t, n), f, t, b);
      hide Batch;
      hide DrainQueue;
      DrainQueueFree(Batch(s, f, t, n), f, t, b, g);
    }
  }

  /* ---- One round of the migration thread ---- */

  /** What is left to do when the loops for request lists 0 to i - 1 are done. */
  ghost predicate FedFrom<P>(s: State<P>, b: nat, i: nat) {
    var dd, dn := s.num[Migrate(Dram, Dram)], if i <= 1 then s.num[Migrate(Dram, Nvm)] else 0;
    var nd, nn := if i <= 2 then s.num[Migrate(Nvm, Dram)] else 0, s.num[Migrate(Nvm, Nvm)];
    && (i <= 0 ==> dd <= |s.q[Migrate(Dram, Dram)]| && Min(dd, b) <= |s.q[Free(Dram)]|)
    && (i <= 1 ==> dn <= |s.q[Migrate(Dram, Nvm)]| && dn <= |s.q[Free(Nvm)]|)
    && (i <= 2 ==> nd <= |s.q[Migrate(Nvm, Dram)]| && nd <= |s.q[Free(Dram)]| + dn)
    && (i <= 3 ==> nn <= |s.q[Migrate(Nvm, Nvm)]| && Min(nn, b) <= |s.q[Free(Nvm)]| - dn + nd)
  }

  /** The request lists in the order the migration thread looks at them. */
  function From(i: nat): Tier { if i < 2 then Dram else Nvm }

  function To(i: nat): Tier { if i == 0 || i == 2 then Dram else Nvm }

  lemma FedNext<P>(s: State<P>, b: nat, i: nat)
    requires b > 0 && i < 4 && FedFrom(s, b, i)
    ensures Able(s, From(i), To(i), b) && FedFrom(DrainQueue(s, From(i), To(i), b), b, i + 1)
  {
    hide DrainQueue;
    DrainQueueFree(s, From(i), To(i), b, Dram);
    DrainQueueFree(s, From(i), To(i), b, Nvm);
    if i == 0 {
      DrainQueueElsewhere(s, Dram, Dram, b, Dram, Nvm);
      DrainQueueElsewhere(s, Dram, Dram, b, Nvm, Dram);
      DrainQueueElsewhere(s, Dram, Dram, b, Nvm, Nvm);
    } else if i == 1 {
      DrainQueueElsewhere(s, Dram, Nvm, b, Nvm, Dram);
      DrainQueueElsewhere(s, Dram, Nvm, b, Nvm, Nvm);
    } else if i == 2 {
      DrainQueueElsewhere(s, Nvm, Dram, b, Nvm, Nvm);
    }
  }

  /** The inner loops from number i on. */
  ghost function DrainFrom<P>(s: State<P>, b: nat, i: nat): State<P>
    requires b > 0 && FedFrom(s, b, i)
    decreases 4 - i
  {
    if i >= 4 then s
    else
      FedNext(s, b, i);
      DrainFrom(DrainQueue(s, From(i), To(i), b), b, i + 1)
  }

  lemma {:induction false} DrainFromKeeps<P>(s: State<P>, b: nat, i: nat)
    requires b > 0 && FedFrom(s, b, i) && WellFormed(s)
    ensures var s' := DrainFrom(s, b, i); WellFormed(s') && Total(s'.q) == Total(s.q) && s'.info.Keys == s.info.Keys
    decreases 4 - i
  {
    hide Total;
    hide WellFormed;
    hide DrainQueue;
    if i >= 4 {
    } else {
      FedNext(s, b, i);
      DrainQueueEmpties(s, From(i), To(i), b);
      DrainFromKeeps(DrainQueue(s, From(i), To(i), b), b, i + 1);
    }
  }

  /** Request list j when the loops from number i on are done. */
  lemma {:induction false} DrainFromAt<P>(s: State<P>, b: nat, i: nat, j: nat)
    requires b > 0 && FedFrom(s, b, i) && WellFormed(s) && j < 4
    ensures var s', k := DrainFrom(s, b, i), Migrate(From(j), To(j));
            && s'.num[k] == (if j < i then s.num[k] else 0)
            && (j < i ==> s'.q[k] == s.q[k])
            && (j >= i ==> s.num[k] <= |s.q[k]| && s'.q[k] == s.q[k][s.num[k]..])
    decreases 4 - i
  {
    hide Total;
    hide WellFormed;
    hide DrainQueue;
    if i >= 4 {
    } else {
      FedNext(s, b, i);
      DrainQueueEmpties(s, From(i), To(i), b);
      if j != i {
        DrainQueueElsewhere(s, From(i), To(i), b, From(j), To(j));
      }
      DrainFromAt(DrainQueue(s, From(i), To(i), b), b, i + 1, j);
    }
  }

  /** One pass of the endless loop over the four request lists. */
  ghost function DrainAll<P>(s: State<P>, b: nat): State<P>
    requires b > 0 && FedFrom(s, b, 0)
  {
    DrainFrom(s, b, 0)
  }

  /** With enough free pages one pass empties every request list whose counter equals its length and sets the
      counter to zero, for any batch size, and neither loses nor duplicates a page. */
  lemma DrainAllEmpties<P>(s: State<P>, b: nat)
    requires b > 0 && FedFrom(s, b, 0) && WellFormed(s)
    ensures var s' := DrainAll(s, b);
            && WellFormed(s') && Total(s'.q) == Total(s.q)
            && (forall f, t {:trigger s'.num[Migrate(f, t)]} {:trigger s'.q[Migrate(f, t)]} ::
                  && s'.num[Migrate(f, t)] == 0 && s.num[Migrate(f, t)] <= |s.q[Migrate(f, t)]|
                  && s'.q[Migrate(f, t)] == s.q[Migrate(f, t)][s.num[Migrate(f, t)]..])
  {
    hide Total;
    hide WellFormed;
    hide DrainFrom;
    DrainFromKeeps(s, b, 0);
    var s' := DrainAll(s, b);
    forall f, t
      ensures s'.num[Migrate(f, t)] == 0 && s.num[Migrate(f, t)] <= |s.q[Migrate(f, t)]|
      ensures s'.q[Migrate(f, t)] == s.q[Migrate(f, t)][s.num[Migrate(f, t)]..]
    {
      var j := (if f == Dram then 0 else 2) +
          (if f == Dram then (if t == Dram then 0 else 1) else if t == Dram then 0 else 1);
      assert From(j) == f && To(j) == t;
      DrainFromAt(s, b, 0, j);
    }
  }

  /** The four request lists are served in this order. */
  lemma PassOrder<P>(s: State<P>, b: nat)
    requires b > 0 && FedFrom(s, b, 0)
    ensures Able(s, Dram, Dram, b)
    ensures var s1 := DrainQueue(s, Dram, Dram, b);
            Able(s1, Dram, Nvm, b) &&
            var s2 := DrainQueue(s1, Dram, Nvm, b);
            Able(s2, Nvm, Dram, b) &&
            var s3 := DrainQueue(s2, Nvm, Dram, b);
            Able(s3, Nvm, Nvm, b) && DrainAll(s, b) == DrainQueue(s3, Nvm, Nvm, b)
  {
    hide DrainQueue;
    hide FedFrom;
    hide Able;
    FedNext(s, b, 0);
    var s1 := DrainQueue(s, Dram, Dram, b);
    FedNext(s1, b, 1);
    var s2 := DrainQueue(s1, Dram, Nvm, b);
    FedNext(s2, b, 2);
    var s3 := DrainQueue(s2, Nvm, Dram, b);
    FedNext(s3, b, 3);
    assert DrainFrom(s, b, 0) == DrainFrom(s1, b, 1) == DrainFrom(s2, b, 2) == DrainFrom(s3, b, 3);
  }

  /** A batch counts what it moves. */
  lemma BatchCounters<P>(s: State<P>, f: Tier, t: Tier, n: nat)
    requires CountersRight(s) && |Total(s.q)| < WORD && n <= |s.q[Migrate(f, t)]| && n <= |s.q[Free(t)]|
    ensures CountersRight(Batch(s, f, t, n))
  {
    hide Total;
    hide Batch;
    LengthsBounded(s.q, Mmap(t), Migrate(f, t));
    LengthsBounded(s.q, Free(f), Free(t));
    BatchNum(s, f, t, n);
    forall k: QueueId ensures Batch(s, f, t, n).num[k] == |Batch(s, f, t, n).q[k]| {
      BatchQueue(s, f, t, n, k);
    }
  }

  lemma {:induction false} DrainCounters<P>(s: State<P>, f: Tier, t: Tier, b: nat)
    requires b > 0 && Able(s, f, t, b) && WellFormed(s) && CountersRight(s) && |Total(s.q)| < WORD
    ensures CountersRight(DrainQueue(s, f, t, b))
    decreases s.num[Migrate(f, t)]
  {
    hide Total;
    hide WellFormed;
    hide Batch;
    hide CountersRight;
    var num := s.num[Migrate(f, t)];
    if num == 0 {
    } else {
      var n := Min(num, b);
      AbleNext(s, f, t, b);
      BatchKeeps(s, f, t, n);
      BatchCounters(s, f, t, n);
      DrainCounters(Batch(s, f, t, n), f, t, b);
    }
  }

  lemma {:induction false} DrainFromCounters<P>(s: State<P>, b: nat, i: nat)
    requires b > 0 && FedFrom(s, b, i) && WellFormed(s) && CountersRight(s) && |Total(s.q)| < WORD
    ensures CountersRight(DrainFrom(s, b, i))
    decreases 4 - i
  {
    hide Total;
    hide WellFormed;
    hide DrainQueue;
    hide CountersRight;
    if i >= 4 {
    } else {
      FedNext(s, b, i);
      DrainCounters(s, From(i), To(i), b);
      DrainQueueEmpties(s, From(i), To(i), b);
      DrainFromCounters(DrainQueue(s, From(i), To(i), b), b, i + 1);
    }
  }

  /** When the counters say how long the queues are, they do so after a pass of the migration thread. */
  lemma PassCounters<P>(s: State<P>, b: nat)
    requires b > 0 && FedFrom(s, b, 0) && WellFormed(s) && CountersRight(s) && |Total(s.q)| < WORD
    ensures CountersRight(DrainAll(s, b))
  {
    DrainFromCounters(s, b, 0);
  }

  /* ---- The assertions on the way ---- */

  /** What hemem_wp_page and hemem_migrate_* assert of the address and the offset of a page of tier f, and of the
      offset it is to have in tier t.  That the page is in tier f, which they assert too, follows from the queue it
      comes from. */
  ghost predicate Movable(i: Info, offset: nat, f: Tier, t: Tier, g: Sizes) {
    && i.va != 0 && g.page > 0 && i.va % g.page == 0
    && Fits(i.offset, f, g) && Fits(offset, t, g)
  }

  /** The address and offset assertions of a batch of n pages. */
  ghost predicate Placeable<P>(s: State<P>, f: Tier, t: Tier, n: nat, g: Sizes) {
    && n <= |s.q[Migrate(f, t)]| && n <= |s.q[Free(t)]|
    && forall i :: 0 <= i < n ==>
         && s.q[Migrate(f, t)][i] in s.info && s.q[Free(t)][i] in s.info
         && Movable(s.info[s.q[Migrate(f, t)][i]], s.info[s.q[Free(t)][i]].offset, f, t, g)
  }

  lemma PlaceableNext<P>(s: State<P>, f: Tier, t: Tier, m: nat, n: nat, g: Sizes)
    requires WellFormed(s) && Placeable(s, f, t, n, g) && m <= n
    ensures Placeable(s, f, t, m, g) && Placeable(Batch(s, f, t, m), f, t, n - m, g)
  {
    hide Batch;
    hide WellFormed;
    hide Movable;
    var b, c, s1 := s.q[Migrate(f, t)], s.q[Free(t)], Batch(s, f, t, m);
    BatchLengths(s, f, t, m, n - m);
    forall i | 0 <= i < n - m
      ensures s1.q[Migrate(f, t)][i] in s1.info && s1.q[Free(t)][i] in s1.info
              && Movable(s1.info[s1.q[Migrate(f, t)][i]], s1.info[s1.q[Free(t)][i]].offset, f, t, g)
    {
      assert s1.q[Migrate(f, t)][i] == s1.q[Migrate(f, t)][..n - m][i] == b[m + i];
      assert s1.q[Free(t)][i] == s1.q[Free(t)][..n - m][i] == c[m + i];
      Untouched(s, f, t, m, n, m + i);
    }
  }

  /** A batch of m leaves pair number i alone if i is at least m. */
  lemma Untouched<P>(s: State<P>, f: Tier, t: Tier, m: nat, n: nat, i: nat)
    requires WellFormed(s) && m <= i < n <= |s.q[Migrate(f, t)]| && n <= |s.q[Free(t)]|
    ensures var r := Batch(s, f, t, m).info;
            Same(s.info, r, s.q[Migrate(f, t)][i]) && Same(s.info, r, s.q[Free(t)][i])
  {
    hide *;
    var pages, frees := s.q[Migrate(f, t)][..n], s.q[Free(t)][..n];
    BatchMoves(s, f, t, m);
    BatchParties(s, f, t, n);
    assert pages[..m] == s.q[Migrate(f, t)][..m] && frees[..m] == s.q[Free(t)][..m];
    LaterPair(s.info, Batch(s, f, t, m).info, pages, frees, f, t, m, i);
  }

  lemma LaterPair<P>(i: map<P, Info>, r: map<P, Info>, pages: seq<P>, frees: seq<P>, f: Tier, t: Tier, m: nat, k: nat)
    requires m <= k < |pages| == |frees| && NoRepeats(pages) && NoRepeats(frees)
    requires (forall p :: p in pages ==> p in i && p !in frees) && (forall p :: p in frees ==> p in i && p !in pages)
    requires InfoMoved(i, r, pages[..m], frees[..m], f, t)
    ensures Same(i, r, pages[k]) && Same(i, r, frees[k])
  {
    assert pages[k] in pages && frees[k] in frees;
    assert pages[k] !in pages[..m] && frees[k] !in frees[..m];
    assert pages[k] !in frees[..m] && frees[k] !in pages[..m];
  }

  lemma StartDraining<P>(s: State<P>, f: Tier, t: Tier, b: nat, g: Sizes)
    requires b > 0 && s.num[Migrate(f, t)] <= |s.q[Migrate(f, t)]| && Placeable(s, f, t, s.num[Migrate(f, t)], g)
    ensures Able(s, f, t, b)
  {
  }

  lemma DrainStep<P>(s: State<P>, f: Tier, t: Tier, b: nat, g: Sizes)
    requires b > 0 && Able(s, f, t, b) && s.num[Migrate(f, t)] > 0 && WellFormed(s)
    requires Placeable(s, f, t, s.num[Migrate(f, t)], g)
    ensures var num := s.num[Migrate(f, t)];
            var n := Min(num, b);
            && Placeable(s, f, t, n, g) && n <= |s.q[Migrate(f, t)]| && n <= |s.q[Free(t)]|
            && var s1 := Batch(s, f, t, n);
            && s1.num[Migrate(f, t)] < num && Able(s1, f, t, b)
            && Placeable(s1, f, t, s1.num[Migrate(f, t)], g) && DrainQueue(s1, f, t, b) == DrainQueue(s, f, t, b)
  {
    hide Batch;
    hide WellFormed;
    hide Placeable;
    var num := s.num[Migrate(f, t)];
    PlaceableNext(s, f, t, Min(num, b), num, g);
    AbleNext(s, f, t, b);
  }

  lemma DrainEnd<P>(s: State<P>, f: Tier, t: Tier, b: nat)
    requires b > 0 && Able(s, f, t, b) && s.num[Migrate(f, t)] == 0
    ensures DrainQueue(s, f, t, b) == s
  {
  }

  /** No assertion of the inner loops from number i on fails. */
  ghost predicate PlaceableFrom<P>(s: State<P>, b: nat, i: nat, g: Sizes)
    requires b > 0 && FedFrom(s, b, i)
    decreases 4 - i
  {
    i >= 4 || (
      FedNext(s, b, i);
      && Placeable(s, From(i), To(i), s.num[Migrate(From(i), To(i))], g)
      && PlaceableFrom(DrainQueue(s, From(i), To(i), b), b, i + 1, g))
  }

  lemma PassIsLoops<P>(s: State<P>, b: nat)
    requires b > 0 && FedFrom(s, b, 0)
    ensures DrainAll(s, b) == DrainFrom(s, b, 0)
  {
  }

  lemma NoLoops<P>(s: State<P>, b: nat)
    requires b > 0 && FedFrom(s, b, 4)
    ensures DrainFrom(s, b, 4) == s
  {
  }

  lemma PassNext<P>(s: State<P>, b: nat, i: nat, g: Sizes)
    requires b > 0 && i < 4 && FedFrom(s, b, i) && PlaceableFrom(s, b, i, g)
    ensures Able(s, From(i), To(i), b) && Placeable(s, From(i), To(i), s.num[Migrate(From(i), To(i))], g)
    ensures var s1 := DrainQueue(s, From(i), To(i), b);
            && FedFrom(s1, b, i + 1) && PlaceableFrom(s1, b, i + 1, g)
            && DrainFrom(s, b, i) == DrainFrom(s1, b, i + 1)
            && (i == 3 ==> DrainFrom(s, b, i) == s1)
  {
    FedNext(s, b, i);
  }
}
