/** The app-order list that uthash.h threads through the items of a table, and the macros that
    relink it: HASH_APPEND_LIST, the in-order insertion and the merge sort HASH_SRT. */
module AppOrder {
  import opened Basics
  import opened StableSorting

  /** UT_hash_handle together with the element it sits in.  `key` is the memory hh.key points at. */
  class Item {
    var key: nat
    var hashv: nat
    var prev: Item?
    var next: Item?
    var hhPrev: Item?
    var hhNext: Item?

    constructor (key: nat)
      ensures this.key == key
    {
      this.key, hashv := key, 0;
      prev, next, hhPrev, hhNext := null, null, null, null;
    }
  }

  function At(s: seq<Item>, k: int): Item? {
    if 0 <= k < |s| then s[k] else null
  }

  /** s is threaded forwards from position `from` to its end. */
  ghost predicate Threaded(s: seq<Item>, from: int, to: int)
    reads s`next
  {
    forall k {:trigger s[k].next} :: 0 <= k < |s| && from <= k < to ==> s[k].next == At(s, k + 1)
  }

  /** out is a list under construction: linked both ways, except that the last `next` is still open. */
  ghost predicate Open(out: seq<Item>, head: Item?, tail: Item?)
    reads out`next, out`prev
  {
    && NoRepeats(out)
    && (forall k {:trigger out[k].next} :: 0 <= k < |out| - 1 ==> out[k].next == out[k + 1])
    && (forall k {:trigger out[k].prev} :: 0 <= k < |out| ==> out[k].prev == At(out, k - 1))
    && head == At(out, 0) && tail == At(out, |out| - 1)
  }

  /** The finished app-order list. */
  ghost predicate Linked(s: seq<Item>, head: Item?, tail: Item?)
    reads s`next, s`prev
  {
    Open(s, head, tail) && (s != [] ==> s[|s| - 1].next == null)
  }

  /** The link-up at the end of the merge loop: e becomes the new tail. */
  method Emit(e: Item, head: Item?, tail: Item?, ghost out: seq<Item>) returns (head': Item?)
    requires Open(out, head, tail) && e !in out
    modifies if tail == null then {} else {tail}`next, e`prev
    ensures Open(out + [e], head', e)
  {
    head' := head;
    if tail != null {
      tail.next := e;
    } else {
      head' := e;
    }
    e.prev := tail;
  }

  /** Merge of s[a..m] and s[b..e], by positions. */
  ghost function MergeAt(cmp: (Item, Item) -> int, s: seq<Item>, a: nat, m: nat, b: nat, e: nat): seq<Item>
    requires a <= m <= b <= e <= |s|
    decreases m - a + (e - b)
  {
    if a == m then s[b..e]
    else if b == e then s[a..m]
    else if cmp(s[a], s[b]) <= 0 then [s[a]] + MergeAt(cmp, s, a + 1, m, b, e)
    else [s[b]] + MergeAt(cmp, s, a, m, b + 1, e)
  }

  lemma {:induction false} MergeAtIsMerge(cmp: (Item, Item) -> int, s: seq<Item>, a: nat, m: nat, b: nat, e: nat)
    requires a <= m <= b <= e <= |s|
    ensures MergeAt(cmp, s, a, m, b, e) == Merge(cmp, s[a..m], s[b..e])
    decreases m - a + (e - b)
  {
    if a < m && b < e {
      if cmp(s[a], s[b]) <= 0 {
        assert s[a..m][1..] == s[a + 1..m];
        MergeAtIsMerge(cmp, s, a + 1, m, b, e);
      } else {
        assert s[b..e][1..] == s[b + 1..e];
        MergeAtIsMerge(cmp, s, a, m, b + 1, e);
      }
    }
  }

  /** One choice of the inner loop: item leaves the front of the left run or of the right run. */
  ghost predicate Takes(cmp: (Item, Item) -> int, s: seq<Item>, a: nat, m: nat, b: nat, e: nat,
                        item: Item, a': nat, b': nat)
    requires a <= m <= b <= e <= |s|
  {
    || (item == At(s, a) && a' == a + 1 <= m && b' == b && (b == e || cmp(s[a], s[b]) <= 0))
    || (item == At(s, b) && a' == a && b' == b + 1 <= e && (a == m || cmp(s[a], s[b]) > 0))
  }

  lemma MergeAtTakes(cmp: (Item, Item) -> int, s: seq<Item>, a: nat, m: nat, b: nat, e: nat,
                     item: Item, a': nat, b': nat)
    requires a <= m <= b <= e <= |s| && Takes(cmp, s, a, m, b, e, item, a', b')
    ensures MergeAt(cmp, s, a, m, b, e) == [item] + MergeAt(cmp, s, a', m, b', e)
  {
    if a == m {
      assert s[b..e] == [s[b]] + s[b + 1..e];
    } else if b == e {
      assert s[a..m] == [s[a]] + s[a + 1..m];
    }
  }

  /** The choice HASH_SRT makes in its inner loop: the next item comes from p unless its run is used up or
      q's item is smaller.  s[a..m] and s[b..e] are what is left of the two runs. */
  method TakeNext(cmp: (Item, Item) -> int, p0: Item?, q0: Item?, psize0: nat, qsize0: nat,
                  ghost s: seq<Item>, ghost a: nat, ghost m: nat, ghost b: nat, ghost e: nat)
    returns (item: Item, p: Item?, q: Item?, psize: nat, qsize: nat, ghost a': nat, ghost b': nat)
    requires a <= m <= b <= e <= |s| && psize0 == m - a && (qsize0 != 0 && q0 != null <==> b < e)
    requires (psize0 != 0 ==> p0 == s[a]) && q0 == At(s, b)
    requires psize0 != 0 || (qsize0 != 0 && q0 != null)
    requires Threaded(s, a, m) && Threaded(s, b, |s|)
    ensures Takes(cmp, s, a, m, b, e, item, a', b')
    ensures psize == m - a' && qsize == qsize0 - (b' - b)
    ensures (psize != 0 ==> p == s[a']) && q == At(s, b')
  {
    p, q, psize, qsize, a', b' := p0, q0, psize0, qsize0, a, b;
    if psize == 0 {
      item := q;
      q := q.next;
      qsize := qsize - 1;
      b' := b + 1;
    } else if qsize == 0 || q == null {
      item := p;
      if p != null {
        p := p.next;
      }
      psize := psize - 1;
      a' := a + 1;
    } else if cmp(p, q) <= 0 {
      item := p;
      if p != null {
        p := p.next;
      }
      psize := psize - 1;
      a' := a + 1;
    } else {
      item := q;
      q := q.next;
      qsize := qsize - 1;
      b' := b + 1;
    }
  }

  /** The inner loop of HASH_SRT: psize items from p and up to insize items from q are merged onto the
      list under construction.  s is the list as this pass found it: p is s[a0] and q is s[m]; done is
      what the pass has consumed. */
  method MergeRuns(cmp: (Item, Item) -> int, p0: Item, q0: Item?, psize0: nat, insize: nat,
                   head0: Item?, tail0: Item?, ghost s: seq<Item>, ghost a0: nat, ghost m: nat,
                   ghost nodes: set<Item>, ghost done0: set<Item>, ghost out0: seq<Item>)
    returns (head: Item?, tail: Item?, q: Item?, ghost out: seq<Item>, ghost done: set<Item>)
    requires NoRepeats(s) && a0 < m <= |s| && m == a0 + psize0 && p0 == s[a0] && q0 == At(s, m)
    requires Threaded(s, a0, |s|) && Open(out0, head0, tail0)
    requires (forall x :: x in out0 ==> x in done0) && done0 <= nodes && (forall x :: x in s ==> x in nodes)
    requires forall k :: a0 <= k < |s| ==> s[k] !in done0
    modifies nodes`next, nodes`prev
    ensures var e := Min(m + insize, |s|);
            && out == out0 + MergeAt(cmp, s, a0, m, m, e) && q == At(s, e)
            && Threaded(s, e, |s|) && Open(out, head, tail)
            && (forall x :: x in out ==> x in done) && done <= nodes && (forall k :: e <= k < |s| ==> s[k] !in done)
  {
    var p: Item? := p0;
    var psize, qsize := psize0, insize;
    q, head, tail, out, done := q0, head0, tail0, out0, done0;
    ghost var a, b, e := a0, m, Min(m + insize, |s|);
    while psize != 0 || (qsize != 0 && q != null)
      invariant a0 <= a <= m <= b <= e && psize == m - a && qsize == m + insize - b
      invariant (psize != 0 ==> p == s[a]) && q == At(s, b)
      invariant out + MergeAt(cmp, s, a, m, b, e) == out0 + MergeAt(cmp, s, a0, m, m, e)
      invariant Open(out, head, tail) && Threaded(s, a, m) && Threaded(s, b, |s|)
      invariant (forall x :: x in out ==> x in done) && done <= nodes
      invariant forall k :: a <= k < m || b <= k < |s| ==> s[k] !in done
      decreases psize + (e - b)
    {
      ghost var a1, b1 := a, b;
      var item;
      item, p, q, psize, qsize, a, b := TakeNext(cmp, p, q, psize, qsize, s, a, m, b, e);
      MergeAtTakes(cmp, s, a1, m, b1, e, item, a, b);
      Assoc(out, [item], MergeAt(cmp, s, a, m, b, e));
      head := Emit(item, head, tail, out);
      tail := item;
      out := out + [item];
      done := done + {item};
    }
  }

  /** The run of at most insize items starting at p, and the item after it. */
  method SplitRun(p: Item, insize: nat, ghost s: seq<Item>, ghost a: nat) returns (psize: nat, q: Item?)
    requires insize > 0 && a < |s| && p == s[a] && Threaded(s, a, |s|)
    ensures psize == Min(insize, |s| - a) && q == At(s, a + psize)
  {
    q, psize := p, 0;
    var i := 0;
    while i < insize
      invariant i == psize <= insize && a + psize <= |s| && q == At(s, a + psize)
      invariant i < insize ==> q != null
    {
      psize := psize + 1;
      q := q.next;
      if q == null {
        break;
      }
      i := i + 1;
    }
  }

  /** What one pass makes of s from position a on, and how many merges that takes. */
  ghost function PassAt(cmp: (Item, Item) -> int, s: seq<Item>, a: nat, k: nat): seq<Item>
    requires a <= |s| && k > 0
    decreases |s| - a
  {
    if a == |s| then []
    else
      var m := a + Min(k, |s| - a);
      var e := Min(m + k, |s|);
      MergeAt(cmp, s, a, m, m, e) + PassAt(cmp, s, e, k)
  }

  lemma Cut<T>(s: seq<T>, a: nat, m: nat, e: nat)
    requires a <= m <= e <= |s|
    ensures s[a..] == s[a..m] + s[m..e] + s[e..]
  {
  }

  lemma PassCut(cmp: (Item, Item) -> int, s: seq<Item>, a: nat, m: nat, e: nat, k: nat)
    requires a < m <= e <= |s| && k > 0 && m == a + Min(k, |s| - a) && e == Min(m + k, |s|)
    ensures Pass(cmp, s[a..], k) == Merge(cmp, s[a..m], s[m..e]) + Pass(cmp, s[e..], k)
  {
    hide Merge;
    hide Pass;
    Cut(s, a, m, e);
    PassStep(cmp, s[a..m], s[m..e], s[e..], k);
  }

  lemma PassAtUnfold(cmp: (Item, Item) -> int, s: seq<Item>, a: nat, m: nat, e: nat, k: nat)
    requires a < m <= e <= |s| && k > 0 && m == a + Min(k, |s| - a) && e == Min(m + k, |s|)
    ensures PassAt(cmp, s, a, k) == MergeAt(cmp, s, a, m, m, e) + PassAt(cmp, s, e, k)
  {
    hide MergeAt;
  }

  lemma {:induction false} PassAtIsPass(cmp: (Item, Item) -> int, s: seq<Item>, a: nat, k: nat)
    requires a <= |s| && k > 0
    ensures PassAt(cmp, s, a, k) == Pass(cmp, s[a..], k)
    decreases |s| - a
  {
    if a < |s| {
      var m := a + Min(k, |s| - a);
      var e := Min(m + k, |s|);
      hide *;
      PassCut(cmp, s, a, m, e, k);
      PassAtUnfold(cmp, s, a, m, e, k);
      MergeAtIsMerge(cmp, s, a, m, m, e);
      PassAtIsPass(cmp, s, e, k);
    }
  }

  lemma PassAtStep(cmp: (Item, Item) -> int, s: seq<Item>, a: nat, m: nat, e: nat, k: nat, out: seq<Item>)
    requires a < m <= e <= |s| && k > 0 && m == a + Min(k, |s| - a) && e == Min(m + k, |s|)
    ensures out + MergeAt(cmp, s, a, m, m, e) + PassAt(cmp, s, e, k) == out + PassAt(cmp, s, a, k)
    ensures Merges(|s| - a, k) == 1 + Merges(|s| - e, k)
  {
    hide MergeAt;
    hide PassAt;
    PassAtUnfold(cmp, s, a, m, e, k);
    Assoc(out, MergeAt(cmp, s, a, m, m, e), PassAt(cmp, s, e, k));
  }

  /** The middle loop's body: split off a run and merge it with the next. */
  method MergePair(cmp: (Item, Item) -> int, p: Item, insize: nat, head0: Item?, tail0: Item?,
                   ghost s: seq<Item>, ghost a: nat, ghost nodes: set<Item>, ghost done0: set<Item>,
                   ghost out0: seq<Item>)
    returns (head: Item?, tail: Item?, q: Item?, ghost e: nat, ghost out: seq<Item>, ghost done: set<Item>)
    requires insize > 0 && NoRepeats(s) && a < |s| && p == s[a]
    requires Threaded(s, a, |s|) && Open(out0, head0, tail0)
    requires (forall x :: x in out0 ==> x in done0) && done0 <= nodes && (forall x :: x in s ==> x in nodes)
    requires forall k :: a <= k < |s| ==> s[k] !in done0
    modifies nodes`next, nodes`prev
    ensures a < e <= |s| && q == At(s, e) && Threaded(s, e, |s|) && Open(out, head, tail)
    ensures (forall x :: x in out ==> x in done) && done <= nodes && (forall k :: e <= k < |s| ==> s[k] !in done)
    ensures out + PassAt(cmp, s, e, insize) == out0 + PassAt(cmp, s, a, insize)
    ensures Merges(|s| - a, insize) == 1 + Merges(|s| - e, insize)
  {
    var psize;
    psize, q := SplitRun(p, insize, s, a);
    ghost var m := a + psize;
    e := Min(m + insize, |s|);
    head, tail, q, out, done := MergeRuns(cmp, p, q, psize, insize, head0, tail0, s, a, m, nodes, done0, out0);
    PassAtStep(cmp, s, a, m, e, insize, out0);
  }

  /** The list is closed once nothing is left to merge. */
  method Close(tail: Item?, ghost out: seq<Item>)
    requires Open(out, At(out, 0), tail)
    modifies (if tail == null then {} else {tail})`next
    ensures Linked(out, At(out, 0), tail)
  {
    if tail != null {
      tail.next := null;
    }
  }

  /** One pass of the outer loop over the whole list. */
  method OnePass(cmp: (Item, Item) -> int, first: Item, insize: nat, ghost s: seq<Item>, ghost nodes: set<Item>)
    returns (head: Item?, tail: Item?, nmerges: nat, ghost out: seq<Item>)
    requires insize > 0 && s != [] && first == s[0] && NoRepeats(s) && Threaded(s, 0, |s|)
    requires forall x :: x in s ==> x in nodes
    modifies nodes`next, nodes`prev
    ensures out == PassAt(cmp, s, 0, insize) && Linked(out, head, tail) && nmerges == Merges(|s|, insize)
    ensures forall x :: x in out ==> x in nodes
  {
    var p: Item? := first;
    head, tail, nmerges, out := null, null, 0, [];
    ghost var a, done: set<Item> := 0, {};
    while p != null
      invariant a <= |s| && p == At(s, a) && Threaded(s, a, |s|) && Open(out, head, tail)
      invariant out + PassAt(cmp, s, a, insize) == PassAt(cmp, s, 0, insize)
      invariant nmerges + Merges(|s| - a, insize) == Merges(|s|, insize)
      invariant (forall x :: x in out ==> x in done) && done <= nodes && (forall k :: a <= k < |s| ==> s[k] !in done)
      decreases |s| - a
    {
      nmerges := nmerges + 1;
      head, tail, p, a, out, done := MergePair(cmp, p, insize, head, tail, s, a, nodes, done, out);
    }
    assert PassAt(cmp, s, a, insize) == [];
    Close(tail, out);
  }

  lemma PassOverRuns(cmp: (Item, Item) -> int, s: seq<Item>, k: nat, nodes: set<Item>)
    requires k > 0 && PreorderOn(cmp, nodes) && Within(s, nodes)
    ensures PassAt(cmp, Runs(cmp, s, k), 0, k) == Runs(cmp, s, 2 * k)
    ensures |s| <= 2 * k ==> Runs(cmp, s, 2 * k) == StableSort(cmp, s)
  {
    var r := Runs(cmp, s, k);
    PassAtIsPass(cmp, r, 0, k);
    assert r[0..] == r;
    PassDoublesRuns(cmp, s, k, nodes);
  }

  /** n *= 2U on a 32-bit unsigned. */
  function DoubledUnsigned(n: nat): (r: nat)
    ensures 2 * n < 0x1_0000_0000 ==> r == 2 * n
  {
    2 * n % 0x1_0000_0000
  }

  /** A pass that finds the list in sorted runs of length insize leaves it in runs twice as long. */
  method RunsPass(cmp: (Item, Item) -> int, first: Item, insize: nat,
                  ghost s: seq<Item>, ghost runs: seq<Item>, ghost nodes: set<Item>)
    returns (head: Item?, tail: Item?, nmerges: nat, ghost out: seq<Item>)
    requires insize > 0 && runs == Runs(cmp, s, insize) && Linked(runs, first, At(runs, |runs| - 1))
    requires Within(s, nodes) && Within(runs, nodes) && PreorderOn(cmp, nodes)
    modifies nodes`next, nodes`prev
    ensures out == Runs(cmp, s, 2 * insize) && Linked(out, head, tail) && Within(out, nodes)
    ensures nmerges <= 1 <==> |s| <= 2 * insize
    ensures nmerges <= 1 ==> out == StableSort(cmp, s)
  {
    PassOverRuns(cmp, s, insize, nodes);
    head, tail, nmerges, out := OnePass(cmp, first, insize, runs, nodes);
  }

  /** HASH_SRT.  The list that comes back is the stable sort of the one that went in. */
  method Sort(cmp: (Item, Item) -> int, head0: Item, ghost s: seq<Item>, ghost nodes: set<Item>)
    returns (head: Item, tail: Item, ghost sorted: seq<Item>)
    requires s != [] && |s| < 0x1_0000_0000 && Linked(s, head0, s[|s| - 1])
    requires Within(s, nodes) && PreorderOn(cmp, nodes)
    modifies nodes`next, nodes`prev
    ensures sorted == StableSort(cmp, s) && Linked(sorted, head, tail)
  {
    hide Runs;
    hide StableSort;
    hide PreorderOn;
    hide Within;
    hide NoRepeats;
    var insize, looping, list: Item? := 1, true, head0;
    head, tail, sorted := head0, head0, s;
    SingletonRuns(cmp, s);
    while looping
      invariant Linked(sorted, list, At(sorted, |sorted| - 1)) && |sorted| == |s| && Within(sorted, nodes)
      invariant looping ==> 0 < insize <= |s| && sorted == Runs(cmp, s, insize)
      invariant !looping ==> sorted == StableSort(cmp, s) && Linked(sorted, head, tail)
      decreases looping, |s| - insize
    {
      var last, nmerges;
      list, last, nmerges, sorted := RunsPass(cmp, list, insize, s, sorted, nodes);
      if nmerges <= 1 {
        looping := false;
        tail := last;
        head := list;
      }
      insize := DoubledUnsigned(insize);
    }
  }

  /* ---- Appending, inserting in order, unlinking ---- */

  /** HASH_APPEND_LIST. */
  method Append(add: Item, head: Item, tail: Item, ghost s: seq<Item>)
    requires s != [] && Linked(s, head, tail) && add !in s
    modifies add`prev, add`next, tail`next
    ensures Linked(s + [add], head, add)
  {
    add.next := null;
    add.prev := tail;
    tail.next := add;
  }

  lemma InsertPast(cmp: (Item, Item) -> int, s: seq<Item>, x: Item)
    requires s != [] && cmp(s[0], x) <= 0
    ensures Insert(cmp, s, x) == [s[0]] + Insert(cmp, s[1..], x)
  {
  }

  lemma HeadBack<T>(s: seq<T>, x: T, j: nat)
    requires 0 < j <= |s|
    ensures [s[0]] + (s[1..][..j - 1] + [x] + s[1..][j - 1..]) == s[..j] + [x] + s[j..]
  {
  }

  lemma {:induction false} InsertPlace(cmp: (Item, Item) -> int, s: seq<Item>, x: Item, j: nat)
    requires j <= |s| && (forall k :: 0 <= k < j ==> cmp(s[k], x) <= 0) && (j < |s| ==> cmp(s[j], x) > 0)
    ensures Insert(cmp, s, x) == s[..j] + [x] + s[j..]
    decreases j
  {
    if j == 0 {
      assert s[..0] + [x] + s[0..] == [x] + s;
    } else {
      hide Insert;
      InsertPlace(cmp, s[1..], x, j - 1);
      InsertPast(cmp, s, x);
      HeadBack(s, x, j);
    }
  }

  /** HASH_AKBI_INNER_LOOP: the first item greater than add. */
  method FindPlace(cmp: (Item, Item) -> int, add: Item, head: Item, tail: Item, ghost s: seq<Item>)
    returns (iter: Item?, ghost j: nat)
    requires s != [] && Linked(s, head, tail)
    ensures j <= |s| && iter == At(s, j) && Insert(cmp, s, add) == s[..j] + [add] + s[j..]
    ensures iter == null <==> forall k :: 0 <= k < |s| ==> cmp(s[k], add) <= 0
    ensures iter != null ==> iter in s && cmp(iter, add) > 0
  {
    iter, j := head, 0;
    while true
      invariant j < |s| && iter == s[j] && forall k :: 0 <= k < j ==> cmp(s[k], add) <= 0
      decreases |s| - j
    {
      if cmp(iter, add) > 0 {
        break;
      }
      iter := iter.next;
      j := j + 1;
      if iter == null {
        break;
      }
    }
    InsertPlace(cmp, s, add, j);
  }

  method InsertBefore(add: Item, iter: Item, head0: Item, ghost tail: Item, ghost s: seq<Item>, ghost j: nat)
    returns (head: Item)
    requires j < |s| && iter == s[j] && Linked(s, head0, tail) && add !in s
    modifies add`prev, add`next, s`prev, s`next
    ensures Linked(s[..j] + [add] + s[j..], head, tail)
  {
    head := head0;
    assert s[j].prev == At(s, j - 1);
    add.next := iter;
    add.prev := iter.prev;
    if add.prev != null {
      add.prev.next := add;
    } else {
      head := add;
    }
    iter.prev := add;
    ghost var t := s[..j] + [add] + s[j..];
    assert forall k {:trigger t[k]} :: 0 <= k < |t| ==>
             t[k] == (if k < j then s[k] else if k == j then add else s[k - 1]);
  }

  method InsertAt(add: Item, iter: Item?, head0: Item, tail0: Item, ghost s: seq<Item>, ghost j: nat)
    returns (head: Item, tail: Item)
    requires s != [] && Linked(s, head0, tail0) && add !in s && j <= |s| && iter == At(s, j)
    modifies add`prev, add`next, s`prev, s`next
    ensures Linked(s[..j] + [add] + s[j..], head, tail)
  {
    head, tail := head0, tail0;
    if iter != null {
      head := InsertBefore(add, iter, head, tail, s, j);
    } else {
      assert s[..j] == s && s[..j] + [add] + s[j..] == s + [add];
      Append(add, head, tail, s);
      tail := add;
    }
  }

  lemma InsertedElements(s: seq<Item>, add: Item, j: nat)
    requires j <= |s|
    ensures forall x :: x in s[..j] + [add] + s[j..] <==> x in s + [add]
  {
    assert s == s[..j] + s[j..];
  }

  /** The list half of HASH_ADD_KEYPTR_BYHASHVALUE_INORDER for a table that already has items. */
  method InsertInOrder(cmp: (Item, Item) -> int, add: Item, head0: Item, tail0: Item, ghost s: seq<Item>)
    returns (head: Item, tail: Item, ghost t: seq<Item>, ghost j: nat)
    requires s != [] && Linked(s, head0, tail0) && add !in s
    modifies add`prev, add`next, s`prev, s`next
    ensures t == Insert(cmp, s, add) && Linked(t, head, tail)
    ensures j <= |s| && t == s[..j] + [add] + s[j..]
    ensures forall x :: x in t <==> x in s + [add]
  {
    hide Linked;
    hide Insert;
    var iter;
    iter, j := FindPlace(cmp, add, head0, tail0, s);
    t := s[..j] + [add] + s[j..];
    InsertedElements(s, add, j);
    head, tail := InsertAt(add, iter, head0, tail0, s, j);
  }

  /** The list half of HASH_DELETE_HH for an item that is not alone on the list. */
  method Unlink(item: Item, head0: Item, tail0: Item, ghost s: seq<Item>, ghost j: nat)
    returns (head: Item, tail: Item)
    requires 1 < |s| && Linked(s, head0, tail0) && j < |s| && item == s[j]
    modifies s`prev, s`next
    ensures Linked(s[..j] + s[j + 1..], head, tail)
  {
    head, tail := head0, tail0;
    assert s[j].prev == At(s, j - 1) && s[j].next == At(s, j + 1);
    if item == tail {
      tail := item.prev;
    }
    if item.prev != null {
      item.prev.next := item.next;
    } else {
      head := item.next;
    }
    if item.next != null {
      item.next.prev := item.prev;
    }
    Spliced(s, head, tail, j);
  }

  /** The links around position j pass it by. */
  lemma Spliced(s: seq<Item>, head: Item, tail: Item, j: nat)
    requires 1 < |s| && j < |s| && NoRepeats(s)
    requires head == s[if j == 0 then 1 else 0] && tail == s[if j == |s| - 1 then j - 1 else |s| - 1]
    requires forall i {:trigger s[i].next} :: 0 <= i < |s| && i != j ==>
               s[i].next == if i == j - 1 then At(s, j + 1) else At(s, i + 1)
    requires forall i {:trigger s[i].prev} :: 0 <= i < |s| && i != j ==>
               s[i].prev == if i == j + 1 then At(s, j - 1) else At(s, i - 1)
    ensures Linked(s[..j] + s[j + 1..], head, tail)
  {
    var t := s[..j] + s[j + 1..];
    assert forall k {:trigger t[k]} :: 0 <= k < |t| ==> t[k] == (if k < j then s[k] else s[k + 1]);
  }
}
