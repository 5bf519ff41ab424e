/** What sorting the app-order list means, apart from any pointers: the reference sort, the
    bottom-up merge passes of HASH_SRT, and the proof that the passes compute the reference. */
module StableSorting {
  import opened Basics

  /** Two instances of totality and transitivity, named so that proofs ask for them one by one. */
  ghost predicate Linear<T>(cmp: (T, T) -> int, x: T, y: T) {
    cmp(x, y) <= 0 || cmp(y, x) <= 0
  }

  ghost predicate Chain<T>(cmp: (T, T) -> int, x: T, y: T, z: T) {
    cmp(x, y) <= 0 && cmp(y, z) <= 0 ==> cmp(x, z) <= 0
  }

  /** The results of `cmp` on dom are those of a total preorder. */
  ghost predicate PreorderOn<T>(cmp: (T, T) -> int, dom: set<T>) {
    && (forall x, y {:trigger Linear(cmp, x, y)} :: x in dom && y in dom ==> Linear(cmp, x, y))
    && (forall x, y, z {:trigger Chain(cmp, x, y, z)} :: x in dom && y in dom && z in dom ==> Chain(cmp, x, y, z))
  }

  ghost predicate Within<T>(s: seq<T>, dom: set<T>) {
    forall i :: 0 <= i < |s| ==> s[i] in dom
  }

  ghost predicate Sorted<T>(cmp: (T, T) -> int, s: seq<T>) {
    forall i, j :: 0 <= i < j < |s| ==> cmp(s[i], s[j]) <= 0
  }

  /** The elements of s that rank with x, in their order in s. */
  function Rank<T>(cmp: (T, T) -> int, s: seq<T>, x: T): seq<T> {
    if s == [] then []
    else (if cmp(s[0], x) <= 0 && cmp(x, s[0]) <= 0 then [s[0]] else []) + Rank(cmp, s[1..], x)
  }

  /** t is s rearranged in order, with equally ranked elements left in their order in s. */
  ghost predicate StableSortOf<T>(cmp: (T, T) -> int, s: seq<T>, t: seq<T>, dom: set<T>) {
    && Sorted(cmp, t)
    && multiset(t) == multiset(s)
    && (forall y :: y in dom ==> Rank(cmp, t, y) == Rank(cmp, s, y))
  }

  /** x placed before the first element greater than it. */
  function Insert<T>(cmp: (T, T) -> int, s: seq<T>, x: T): (r: seq<T>)
    ensures |r| == |s| + 1 && multiset(r) == multiset(s) + multiset{x}
  {
    if s == [] then [x]
    else if cmp(s[0], x) > 0 then [x] + s
    else
      assert s == [s[0]] + s[1..];
      [s[0]] + Insert(cmp, s[1..], x)
  }

  function StableSort<T>(cmp: (T, T) -> int, s: seq<T>): (r: seq<T>)
    ensures |r| == |s| && multiset(r) == multiset(s)
  {
    if s == [] then []
    else
      assert s == s[..|s| - 1] + [s[|s| - 1]];
      Insert(cmp, StableSort(cmp, s[..|s| - 1]), s[|s| - 1])
  }

  /** Two runs merged; on ties the left run goes first. */
  function Merge<T>(cmp: (T, T) -> int, a: seq<T>, b: seq<T>): (r: seq<T>)
    ensures |r| == |a| + |b|
  {
    if a == [] then b
    else if b == [] then a
    else if cmp(a[0], b[0]) <= 0 then [a[0]] + Merge(cmp, a[1..], b)
    else [b[0]] + Merge(cmp, a, b[1..])
  }

  /** One pass of HASH_SRT: neighbouring runs of length k are merged pairwise. */
  function Pass<T>(cmp: (T, T) -> int, s: seq<T>, k: nat): (r: seq<T>)
    requires k > 0
    ensures |r| == |s|
  {
    if s == [] then []
    else
      var p, q := Min(k, |s|), Min(2 * k, |s|);
      Merge(cmp, s[..p], s[p..q]) + Pass(cmp, s[q..], k)
  }

  /** How many merges one pass makes. */
  function Merges(n: nat, k: nat): (m: nat)
    requires k > 0
    ensures m <= 1 <==> n <= 2 * k
    ensures m == 0 <==> n == 0
  {
    if n == 0 then 0 else 1 + Merges(n - Min(2 * k, n), k)
  }

  /** s cut into runs of length k, each run sorted. */
  function Runs<T>(cmp: (T, T) -> int, s: seq<T>, k: nat): (r: seq<T>)
    requires k > 0
    ensures |r| == |s|
  {
    if |s| <= k then StableSort(cmp, s)
    else StableSort(cmp, s[..k]) + Runs(cmp, s[k..], k)
  }

  /* ---- Merging two sorted runs sorts their concatenation ---- */

  lemma {:induction false} MergeInsert<T>(cmp: (T, T) -> int, a: seq<T>, b: seq<T>, x: T, dom: set<T>)
    requires PreorderOn(cmp, dom) && Within(a, dom) && Within(b, dom) && x in dom
    ensures Merge(cmp, a, Insert(cmp, b, x)) == Insert(cmp, Merge(cmp, a, b), x)
    decreases |a| + |b|
  {
    if a == [] {
    } else if b == [] {
      assert Merge(cmp, a[1..], b) == a[1..];
      MergeInsert(cmp, a[1..], b, x, dom);
    } else if cmp(b[0], x) > 0 {
      assert Insert(cmp, b, x) == [x] + b && ([x] + b)[1..] == b;
      if cmp(a[0], x) <= 0 {
        assert Linear(cmp, x, b[0]) && Chain(cmp, a[0], x, b[0]);
        MergeInsert(cmp, a[1..], b, x, dom);
      }
    } else {
      assert Insert(cmp, b, x)[1..] == Insert(cmp, b[1..], x);
      if cmp(a[0], b[0]) <= 0 {
        assert Chain(cmp, a[0], b[0], x);
        MergeInsert(cmp, a[1..], b, x, dom);
      } else {
        MergeInsert(cmp, a, b[1..], x, dom);
      }
    }
  }

  lemma WithinSort<T>(cmp: (T, T) -> int, s: seq<T>, dom: set<T>)
    requires Within(s, dom)
    ensures Within(StableSort(cmp, s), dom)
  {
    var t := StableSort(cmp, s);
    forall i | 0 <= i < |t| ensures t[i] in dom {
      assert t[i] in multiset(s);
    }
  }

  lemma {:induction false} MergeSorts<T>(cmp: (T, T) -> int, a: seq<T>, b: seq<T>, dom: set<T>)
    requires PreorderOn(cmp, dom) && Within(a, dom) && Within(b, dom)
    ensures Merge(cmp, StableSort(cmp, a), StableSort(cmp, b)) == StableSort(cmp, a + b)
    decreases |b|
  {
    if b == [] {
      assert a + b == a;
    } else {
      var b', x := b[..|b| - 1], b[|b| - 1];
      assert (a + b)[..|a + b| - 1] == a + b';
      MergeSorts(cmp, a, b', dom);
      WithinSort(cmp, a, dom);
      WithinSort(cmp, b', dom);
      MergeInsert(cmp, StableSort(cmp, a), StableSort(cmp, b'), x, dom);
    }
  }

  lemma PassStep<T>(cmp: (T, T) -> int, p: seq<T>, q: seq<T>, rest: seq<T>, k: nat)
    requires 0 < |p| <= k && |q| <= k && (|p| < k ==> q == []) && (|q| < k ==> rest == [])
    ensures Pass(cmp, p + q + rest, k) == Merge(cmp, p, q) + Pass(cmp, rest, k)
  {
    var s := p + q + rest;
    assert Min(k, |s|) == |p| && Min(2 * k, |s|) == |p + q|;
    assert s[..|p|] == p && s[|p|..|p + q|] == q && s[|p + q|..] == rest;
  }

  lemma RunsStep<T>(cmp: (T, T) -> int, a: seq<T>, rest: seq<T>, k: nat)
    requires 0 < |a| <= k && (|a| < k ==> rest == [])
    ensures Runs(cmp, a + rest, k) == StableSort(cmp, a) + Runs(cmp, rest, k)
  {
    if rest == [] {
      assert a + rest == a;
    } else {
      assert (a + rest)[..k] == a && (a + rest)[k..] == rest;
    }
  }

  lemma RunsTwoSteps<T>(cmp: (T, T) -> int, a: seq<T>, b: seq<T>, c: seq<T>, k: nat)
    requires |a| == k && 0 < |b| <= k && (|b| < k ==> c == [])
    ensures Runs(cmp, a + b + c, k) == StableSort(cmp, a) + StableSort(cmp, b) + Runs(cmp, c, k)
  {
    Assoc(a, b, c);
    RunsStep(cmp, a, b + c, k);
    RunsStep(cmp, b, c, k);
    Assoc(StableSort(cmp, a), StableSort(cmp, b), Runs(cmp, c, k));
  }

  lemma PassDoublesTwoRuns<T>(cmp: (T, T) -> int, a: seq<T>, b: seq<T>, c: seq<T>, k: nat, dom: set<T>)
    requires |a| == k && 0 < |b| <= k && (|b| < k ==> c == [])
    requires PreorderOn(cmp, dom) && Within(a, dom) && Within(b, dom)
    ensures Pass(cmp, Runs(cmp, a + b + c, k), k) == StableSort(cmp, a + b) + Pass(cmp, Runs(cmp, c, k), k)
  {
    RunsTwoSteps(cmp, a, b, c, k);
    PassStep(cmp, StableSort(cmp, a), StableSort(cmp, b), Runs(cmp, c, k), k);
    MergeSorts(cmp, a, b, dom);
  }

  lemma PassOverOneRun<T>(cmp: (T, T) -> int, s: seq<T>, k: nat)
    requires 0 < |s| <= k
    ensures Pass(cmp, Runs(cmp, s, k), k) == Runs(cmp, s, 2 * k)
  {
    var r := StableSort(cmp, s);
    assert r[..|s|] == r && r[|s|..] == [];
  }

  /** A pass over runs of length k leaves runs of length 2k. */
  lemma {:induction false} PassDoublesRuns<T>(cmp: (T, T) -> int, s: seq<T>, k: nat, dom: set<T>)
    requires k > 0 && PreorderOn(cmp, dom) && Within(s, dom)
    ensures Pass(cmp, Runs(cmp, s, k), k) == Runs(cmp, s, 2 * k)
    decreases |s|
  {
    if s == [] {
    } else if |s| <= k {
      PassOverOneRun(cmp, s, k);
    } else {
      hide *;
      var m := Min(2 * k, |s|);
      assert s == s[..k] + s[k..m] + s[m..];
      PassDoublesRuns(cmp, s[m..], k, dom);
      PassDoublesTwoRuns(cmp, s[..k], s[k..m], s[m..], k, dom);
      RunsStep(cmp, s[..k] + s[k..m], s[m..], 2 * k);
    }
  }

  lemma {:induction false} SingletonRuns<T>(cmp: (T, T) -> int, s: seq<T>)
    ensures Runs(cmp, s, 1) == s
    decreases |s|
  {
    if |s| == 1 {
      assert s[..0] == [];
      assert StableSort(cmp, s) == Insert(cmp, [], s[0]);
    } else if |s| > 1 {
      assert s[..1][..0] == [];
      assert StableSort(cmp, s[..1]) == [s[0]];
      SingletonRuns(cmp, s[1..]);
    }
  }

  /* ---- The reference sort is the one stable sort ---- */

  lemma {:induction false} InsertSorted<T>(cmp: (T, T) -> int, s: seq<T>, x: T, dom: set<T>)
    requires PreorderOn(cmp, dom) && Within(s, dom) && x in dom && Sorted(cmp, s)
    ensures Sorted(cmp, Insert(cmp, s, x))
    decreases |s|
  {
    if s == [] {
    } else {
      var t := Insert(cmp, s, x);
      if cmp(s[0], x) > 0 {
        assert t[1..] == s;
        forall i | 0 <= i < |s| ensures cmp(x, s[i]) <= 0 {
          assert Linear(cmp, x, s[0]) && Chain(cmp, x, s[0], s[i]);
        }
      } else {
        var u := Insert(cmp, s[1..], x);
        InsertSorted(cmp, s[1..], x, dom);
        forall j | 0 <= j < |u| ensures cmp(s[0], u[j]) <= 0 {
          assert u[j] in multiset(s[1..]) + multiset{x};
        }
      }
    }
  }

  lemma {:induction false} NoneRanked<T>(cmp: (T, T) -> int, s: seq<T>, y: T)
    requires forall i :: 0 <= i < |s| ==> cmp(s[i], y) > 0
    ensures Rank(cmp, s, y) == []
    decreases |s|
  {
    if s == [] {
    } else {
      NoneRanked(cmp, s[1..], y);
    }
  }

  lemma RankOfFirst<T>(cmp: (T, T) -> int, s: seq<T>, x: T, y: T, dom: set<T>)
    requires PreorderOn(cmp, dom) && Within(s, dom) && x in dom && y in dom && Sorted(cmp, s)
    requires s != [] && cmp(s[0], x) > 0
    ensures Rank(cmp, [x] + s, y) == Rank(cmp, s, y) + Rank(cmp, [x], y)
  {
    assert ([x] + s)[1..] == s;
    if cmp(x, y) <= 0 && cmp(y, x) <= 0 {
      forall i | 0 <= i < |s| ensures cmp(s[i], y) > 0 {
        assert Chain(cmp, s[i], y, x) && Chain(cmp, s[0], s[i], x);
      }
      NoneRanked(cmp, s, y);
    }
  }

  lemma {:induction false} RankOfInsert<T>(cmp: (T, T) -> int, s: seq<T>, x: T, y: T, dom: set<T>)
    requires PreorderOn(cmp, dom) && Within(s, dom) && x in dom && y in dom && Sorted(cmp, s)
    ensures Rank(cmp, Insert(cmp, s, x), y) == Rank(cmp, s, y) + Rank(cmp, [x], y)
    decreases |s|
  {
    hide PreorderOn;
    hide Sorted;
    hide Within;
    hide Rank;
    RankOfNone(cmp, y);
    if s == [] {
    } else {
      if cmp(s[0], x) > 0 {
        RankOfFirst(cmp, s, x, y, dom);
      } else {
        var first, rest := [s[0]], s[1..];
        assert s == first + rest;
        RestSorted(cmp, s, dom);
        RankOfInsert(cmp, rest, x, y, dom);
        RankSplit(cmp, first, rest, y);
        RankSplit(cmp, first, Insert(cmp, rest, x), y);
      }
    }
  }

  lemma RestSorted<T>(cmp: (T, T) -> int, s: seq<T>, dom: set<T>)
    requires Within(s, dom) && Sorted(cmp, s) && s != []
    ensures Within(s[1..], dom) && Sorted(cmp, s[1..])
  {
  }

  lemma RankOfNone<T>(cmp: (T, T) -> int, y: T)
    ensures Rank(cmp, [], y) == []
  {
  }

  lemma {:induction false} RankSplit<T>(cmp: (T, T) -> int, s: seq<T>, t: seq<T>, y: T)
    ensures Rank(cmp, s + t, y) == Rank(cmp, s, y) + Rank(cmp, t, y)
    decreases |s|
  {
    if s == [] {
      assert s + t == t;
    } else {
      assert (s + t)[1..] == s[1..] + t;
      RankSplit(cmp, s[1..], t, y);
    }
  }

  /** The reference sort is stable and sorts. */
  lemma {:induction false} StableSortIsStable<T>(cmp: (T, T) -> int, s: seq<T>, dom: set<T>)
    requires PreorderOn(cmp, dom) && Within(s, dom)
    ensures StableSortOf(cmp, s, StableSort(cmp, s), dom)
    decreases |s|
  {
    if s == [] {
    } else {
      var s', x := s[..|s| - 1], s[|s| - 1];
      StableSortIsStable(cmp, s', dom);
      WithinSort(cmp, s', dom);
      InsertSorted(cmp, StableSort(cmp, s'), x, dom);
      assert s == s' + [x];
      forall y | y in dom ensures Rank(cmp, StableSort(cmp, s), y) == Rank(cmp, s, y) {
        RankOfInsert(cmp, StableSort(cmp, s'), x, y, dom);
        RankSplit(cmp, s', [x], y);
      }
    }
  }

  lemma {:induction false} RankHead<T>(cmp: (T, T) -> int, s: seq<T>, y: T)
    ensures forall z :: z in Rank(cmp, s, y) ==> z in s && cmp(z, y) <= 0 && cmp(y, z) <= 0
    decreases |s|
  {
    if s == [] {
    } else {
      RankHead(cmp, s[1..], y);
    }
  }

  lemma RankTail<T>(cmp: (T, T) -> int, s: seq<T>, y: T)
    requires s != []
    ensures Rank(cmp, s[1..], y) ==
            if cmp(s[0], y) <= 0 && cmp(y, s[0]) <= 0 then Rank(cmp, s, y)[1..] else Rank(cmp, s, y)
  {
  }

  /** A sorted arrangement is determined by its ranks, so there is only one stable sort. */
  lemma {:induction false} SortedByRanks<T>(cmp: (T, T) -> int, s: seq<T>, t: seq<T>, dom: set<T>)
    requires PreorderOn(cmp, dom) && Within(s, dom) && Within(t, dom)
    requires Sorted(cmp, s) && Sorted(cmp, t) && |s| == |t|
    requires forall y :: y in dom ==> Rank(cmp, s, y) == Rank(cmp, t, y)
    ensures s == t
    decreases |s|
  {
    if s == [] {
    } else {
      var x, y := s[0], t[0];
      assert Linear(cmp, x, x) && Linear(cmp, y, y);
      assert Rank(cmp, s, x)[0] == x && Rank(cmp, t, y)[0] == y;
      RankHead(cmp, t, x);
      RankHead(cmp, s, y);
      assert x in Rank(cmp, t, x) && y in Rank(cmp, s, y);
      assert cmp(x, y) <= 0 && cmp(y, x) <= 0;
      assert Rank(cmp, t, x)[0] == y;
      forall z | z in dom ensures Rank(cmp, s[1..], z) == Rank(cmp, t[1..], z) {
        RankTail(cmp, s, z);
        RankTail(cmp, t, z);
      }
      SortedByRanks(cmp, s[1..], t[1..], dom);
    }
  }

  lemma StableSortUnique<T>(cmp: (T, T) -> int, s: seq<T>, t: seq<T>, dom: set<T>)
    requires PreorderOn(cmp, dom) && Within(s, dom)
    ensures StableSortOf(cmp, s, t, dom) <==> t == StableSort(cmp, s)
  {
    StableSortIsStable(cmp, s, dom);
    if StableSortOf(cmp, s, t, dom) {
      forall i | 0 <= i < |t| ensures t[i] in dom {
        assert t[i] in multiset(s);
      }
      WithinSort(cmp, s, dom);
      assert |multiset(t)| == |multiset(s)|;
      SortedByRanks(cmp, t, StableSort(cmp, s), dom);
    }
  }

  /* ---- In-order insertion ---- */

  lemma {:induction false} InsertLast<T>(cmp: (T, T) -> int, s: seq<T>, x: T)
    requires forall i :: 0 <= i < |s| ==> cmp(s[i], x) <= 0
    ensures Insert(cmp, s, x) == s + [x]
    decreases |s|
  {
    if s == [] {
    } else {
      InsertLast(cmp, s[1..], x);
    }
  }

  lemma {:induction false} SortOfSorted<T>(cmp: (T, T) -> int, s: seq<T>)
    requires Sorted(cmp, s)
    ensures StableSort(cmp, s) == s
    decreases |s|
  {
    if s == [] {
    } else {
      SortOfSorted(cmp, s[..|s| - 1]);
      InsertLast(cmp, s[..|s| - 1], s[|s| - 1]);
    }
  }

  /** Inserting in order into a sorted list is appending and then sorting. */
  lemma InsertIsAppendAndSort<T>(cmp: (T, T) -> int, s: seq<T>, x: T)
    requires Sorted(cmp, s)
    ensures Insert(cmp, s, x) == StableSort(cmp, s + [x])
  {
    assert (s + [x])[..|s|] == s;
    SortOfSorted(cmp, s);
  }
}
