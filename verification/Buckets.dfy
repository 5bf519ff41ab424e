/** The bucket half of uthash.h: the chains that hang off the bucket array, and their doubling. */
module Buckets {
  import opened Basics
  import opened Bits
  import opened AppOrder

  /** UT_hash_bucket. */
  datatype Bucket = Bucket(hhHead: Item?, count: nat, expandMult: nat)

  /** One chain, linked both ways, with its head and its count in the bucket. */
  ghost predicate ChainOk(bucket: Bucket, chain: seq<Item>)
    reads chain`hhPrev, chain`hhNext
  {
    && bucket.hhHead == At(chain, 0) && bucket.count == |chain| && NoRepeats(chain)
    && (forall j {:trigger chain[j].hhPrev} :: 0 <= j < |chain| ==> chain[j].hhPrev == At(chain, j - 1))
    && (forall j {:trigger chain[j].hhNext} :: 0 <= j < |chain| ==> chain[j].hhNext == At(chain, j + 1))
  }

  ghost predicate Inside(chain: seq<Item>, items: set<Item>) {
    forall x :: x in chain ==> x in items
  }

  /** The chain holds only items that bucket b of n is for. */
  ghost predicate Placed(chain: seq<Item>, b: nat, n: nat)
    requires n > 0
    reads chain`hashv
  {
    forall x :: x in chain ==> Slot(x.hashv, n) == b
  }

  /** chains[b] is the chain of bucket b from its head, and together the chains hold `items`, each item in the
      bucket its masked hash selects.  This is the bucket part of HASH_FSCK. */
  ghost predicate Chained(bs: seq<Bucket>, chains: seq<seq<Item>>, items: set<Item>)
    reads items`hashv, items`hhPrev, items`hhNext
  {
    && |bs| == |chains| > 0
    && (forall b {:trigger Inside(chains[b], items)} :: 0 <= b < |chains| ==> Inside(chains[b], items))
    && (forall b {:trigger Placed(chains[b], b, |bs|)} ::
          0 <= b < |chains| && Inside(chains[b], items) ==> Placed(chains[b], b, |bs|))
    && (forall b {:trigger ChainOk(bs[b], chains[b])} ::
          0 <= b < |chains| && Inside(chains[b], items) ==> ChainOk(bs[b], chains[b]))
    && (forall x {:trigger Slot(x.hashv, |bs|)} :: x in items ==> x in chains[Slot(x.hashv, |bs|)])
  }

  method LinkFront(item: Item, head: Item?, ghost bucket: Bucket, ghost chain: seq<Item>, mult: nat)
    requires ChainOk(bucket, chain) && bucket.hhHead == head && item !in chain
    modifies item`hhNext, item`hhPrev
    modifies (if head == null then {} else {head})`hhPrev
    ensures ChainOk(Bucket(item, bucket.count + 1, mult), [item] + chain)
  {
    item.hhNext := head;
    item.hhPrev := null;
    if head != null {
      head.hhPrev := item;
    }
    assert forall j {:trigger ([item] + chain)[j]} :: 0 <= j < |chain| + 1 ==>
                                                        ([item] + chain)[j] == if j == 0 then item else chain[j - 1];
  }

  /** The link-up shared by HASH_ADD_TO_BKT and HASH_EXPAND_BUCKETS: item becomes the head of bucket b. */
  method PushFront(bs: array<Bucket>, item: Item, b: nat, mult: nat, ghost chains: seq<seq<Item>>,
      ghost items: set<Item>)
    requires Chained(bs[..], chains, items) && b < bs.Length && b == Slot(item.hashv, bs.Length) && item !in items
    modifies bs, item`hhNext, item`hhPrev, items`hhPrev
    ensures Chained(bs[..], chains[b := [item] + chains[b]], items + {item})
    ensures bs[..] == old(bs[..])[b := Bucket(item, old(bs[b].count) + 1, mult)]
  {
    assert ChainOk(bs[..][b], chains[b]) && Inside(chains[b], items);
    forall c | 0 <= c < bs.Length && c != b
      ensures item !in chains[c] && (bs[b].hhHead != null ==> bs[b].hhHead !in chains[c])
    {
      assert Placed(chains[c], c, bs.Length) && Inside(chains[c], items);
      assert Placed(chains[b], b, bs.Length);
    }
    LinkFront(item, bs[b].hhHead, bs[b], chains[b], mult);
    bs[b] := Bucket(item, bs[b].count + 1, mult);
    assert bs[..] == old(bs[..])[b := Bucket(item, old(bs[b].count) + 1, mult)];
    ghost var chains' := chains[b := [item] + chains[b]];
    forall c | 0 <= c < bs.Length
      ensures Inside(chains'[c], items + {item}) && Placed(chains'[c], c, bs.Length) && ChainOk(bs[..][c], chains'[c])
    {
      assert Inside(chains[c], items) && old(Placed(chains[c], c, bs.Length));
      if c != b {
        assert old(ChainOk(bs[..][c], chains[c]));
      }
    }
  }

  lemma OncePlaced(chain: seq<Item>, c: nat, k: int)
    requires NoRepeats(chain) && c < |chain| && c != k
    ensures At(chain, k) != chain[c]
  {
  }

  lemma RestOnce(chain: seq<Item>, j: nat)
    requires j < |chain| && NoRepeats(chain)
    ensures NoRepeats(chain[..j] + chain[j + 1..])
  {
  }

  /** The neighbours of item k when item j has gone. */
  lemma RestLinks(chain: seq<Item>, j: nat, k: nat)
    requires j < |chain| && k < |chain| - 1
    ensures var t, c := chain[..j] + chain[j + 1..], if k < j then k else k + 1;
            && t[k] == chain[c] && c != j
            && At(t, k - 1) == (if c == j + 1 then At(chain, j - 1) else At(chain, c - 1))
            && At(t, k + 1) == (if c + 1 == j then At(chain, j + 1) else At(chain, c + 1))
  {
  }

  method UnlinkFrom(item: Item, bucket: Bucket, ghost chain: seq<Item>, ghost j: nat) returns (bucket': Bucket)
    requires ChainOk(bucket, chain) && j < |chain| && chain[j] == item
    modifies chain`hhNext, chain`hhPrev
    ensures bucket' == Bucket(bucket'.hhHead, bucket.count - 1, bucket.expandMult)
    ensures ChainOk(bucket', chain[..j] + chain[j + 1..])
  {
    hide NoRepeats;
    bucket' := bucket.(count := bucket.count - 1);
    assert chain[j].hhPrev == At(chain, j - 1) && chain[j].hhNext == At(chain, j + 1);
    if bucket'.hhHead == item {
      bucket' := bucket'.(hhHead := item.hhNext);
    }
    if item.hhPrev != null {
      item.hhPrev.hhNext := item.hhNext;
    }
    if item.hhNext != null {
      item.hhNext.hhPrev := item.hhPrev;
    }
    ghost var t := chain[..j] + chain[j + 1..];
    RestOnce(chain, j);
    forall k | 0 <= k < |t| ensures t[k].hhPrev == At(t, k - 1) && t[k].hhNext == At(t, k + 1) {
      var c := if k < j then k else k + 1;
      RestLinks(chain, j, k);
      if c != j - 1 {
        OncePlaced(chain, c, j - 1);
      }
      if c != j + 1 {
        OncePlaced(chain, c, j + 1);
      }
      assert old(chain[c].hhPrev) == At(chain, c - 1) && old(chain[c].hhNext) == At(chain, c + 1);
      assert chain[c].hhPrev == if c == j + 1 then At(chain, j - 1) else At(chain, c - 1);
      assert chain[c].hhNext == if c + 1 == j then At(chain, j + 1) else At(chain, c + 1);
    }
  }

  lemma RestOf(chain: seq<Item>, j: nat)
    requires j < |chain| && NoRepeats(chain)
    ensures forall x :: x in chain[..j] + chain[j + 1..] <==> x in chain && x != chain[j]
  {
    forall x | x in chain && x != chain[j] ensures x in chain[..j] + chain[j + 1..] {
      var k :| 0 <= k < |chain| && chain[k] == x;
      assert x == (chain[..j] + chain[j + 1..])[if k < j then k else k - 1];
    }
  }

  lemma ChainsApart(bs: seq<Bucket>, chains: seq<seq<Item>>, items: set<Item>, b: nat, c: nat)
    requires Chained(bs, chains, items) && b < |bs| && c < |bs| && b != c
    ensures forall x :: x in chains[c] ==> x !in chains[b]
  {
    assert Placed(chains[c], c, |bs|) && Placed(chains[b], b, |bs|);
  }

  /** A chain that shares no item with chains[b] is left alone by what happens to chains[b]. */
  method DeleteFromChain(bs: array<Bucket>, item: Item, b: nat, ghost chains: seq<seq<Item>>, ghost j: nat)
    requires b < bs.Length == |chains| && j < |chains[b]| && chains[b][j] == item
    requires forall c {:trigger chains[c]} :: 0 <= c < bs.Length ==> ChainOk(bs[c], chains[c])
    requires forall c {:trigger chains[c]} :: 0 <= c < bs.Length && c != b ==> forall x :: x in chains[c] ==>
               x !in chains[b]
    modifies bs, chains[b]`hhNext, chains[b]`hhPrev
    ensures ChainOk(bs[b], chains[b][..j] + chains[b][j + 1..]) && bs[b].expandMult == old(bs[b].expandMult)
    ensures forall c {:trigger chains[c]} :: 0 <= c < bs.Length && c != b ==> ChainOk(bs[c], chains[c])
    ensures forall c {:trigger bs[c]} :: 0 <= c < bs.Length && c != b ==> bs[c] == old(bs[c])
  {
    var bucket := UnlinkFrom(item, bs[b], chains[b], j);
    forall c | 0 <= c < bs.Length && c != b ensures ChainOk(bs[c], chains[c]) {
      assert old(ChainOk(bs[c], chains[c]));
      assert forall k :: 0 <= k < |chains[c]| ==> chains[c][k] in chains[c];
    }
    bs[b] := bucket;
  }

  /** What is known of the chains when the item at place j of chain b is to go. */
  lemma BeforeDelete(bs: seq<Bucket>, chains: seq<seq<Item>>, items: set<Item>, item: Item, b: nat, j: nat)
    requires Chained(bs, chains, items) && b < |bs| && b == Slot(item.hashv, |bs|) && j < |chains[b]| &&
             chains[b][j] == item
    ensures forall c {:trigger chains[c]} :: 0 <= c < |bs| ==> ChainOk(bs[c], chains[c])
    ensures forall c {:trigger chains[c]} :: 0 <= c < |bs| && c != b ==> forall x :: x in chains[c] ==> x !in chains[b]
  {
    forall c | 0 <= c < |bs|
      ensures ChainOk(bs[c], chains[c]) && (c != b ==> forall x :: x in chains[c] ==> x !in chains[b])
    {
      assert Inside(chains[c], items) && ChainOk(bs[c], chains[c]);
      if c != b {
        ChainsApart(bs, chains, items, b, c);
      }
    }
  }

  /** And of where its items belong when it has gone. */
  lemma StillPlaced(bs: seq<Bucket>, chains: seq<seq<Item>>, items: set<Item>, item: Item, b: nat, j: nat)
    requires Chained(bs, chains, items) && b < |bs| && b == Slot(item.hashv, |bs|) && j < |chains[b]| &&
             chains[b][j] == item
    ensures var chains' := chains[b := chains[b][..j] + chains[b][j + 1..]];
            && (forall c {:trigger chains'[c]} :: 0 <= c < |bs| ==>
                  Inside(chains'[c], items - {item}) && Placed(chains'[c], c, |bs|))
            && (forall x {:trigger Slot(x.hashv, |bs|)} :: x in items - {item} ==> x in chains'[Slot(x.hashv, |bs|)])
  {
    var chains' := chains[b := chains[b][..j] + chains[b][j + 1..]];
    assert Inside(chains[b], items) && ChainOk(bs[b], chains[b]);
    RestOf(chains[b], j);
    forall c | 0 <= c < |bs| ensures Inside(chains'[c], items - {item}) && Placed(chains'[c], c, |bs|) {
      assert Inside(chains[c], items) && Placed(chains[c], c, |bs|);
    }
  }

  /** HASH_DEL_IN_BKT. */
  method Delete(bs: array<Bucket>, item: Item, b: nat, ghost chains: seq<seq<Item>>, ghost items: set<Item>)
    returns (ghost j: nat)
    requires Chained(bs[..], chains, items) && b < bs.Length && b == Slot(item.hashv, bs.Length) && item in items
    modifies bs, items`hhNext, items`hhPrev
    ensures j < |chains[b]| && chains[b][j] == item
    ensures Chained(bs[..], chains[b := chains[b][..j] + chains[b][j + 1..]], items - {item})
    ensures forall c {:trigger bs[c]} :: 0 <= c < bs.Length ==> bs[c].expandMult == old(bs[c].expandMult)
  {
    hide ChainOk;
    hide Placed;
    assert Inside(chains[b], items);
    ghost var k :| 0 <= k < |chains[b]| && chains[b][k] == item;
    j := k;
    BeforeDelete(bs[..], chains, items, item, b, j);
    StillPlaced(bs[..], chains, items, item, b, j);
    ghost var chains' := chains[b := chains[b][..j] + chains[b][j + 1..]];
    DeleteFromChain(bs, item, b, chains, j);
    assert forall c {:trigger chains'[c]} :: 0 <= c < bs.Length ==> ChainOk(bs[..][c], chains'[c]);
  }

  /** HASH_FIND_IN_BKT.  Every key of the table has the same length. */
  method Find(bucket: Bucket, key: nat, hashv: nat, ghost chain: seq<Item>) returns (out: Item?)
    requires ChainOk(bucket, chain)
    ensures out != null ==> out in chain && out.key == key && out.hashv == hashv
    ensures out == null ==> forall x :: x in chain ==> x.key != key || x.hashv != hashv
  {
    out := bucket.hhHead;
    ghost var j := 0;
    while out != null
      invariant 0 <= j <= |chain| && out == At(chain, j)
      invariant forall i :: 0 <= i < j ==> chain[i].key != key || chain[i].hashv != hashv
      decreases |chain| - j
    {
      if out.hashv == hashv && out.key == key {
        break;
      }
      out := out.hhNext;
      j := j + 1;
    }
  }

  /* ---- Doubling ---- */

  /** The hash values of the items, which doubling only reads. */
  ghost function Hashes(items: set<Item>): map<Item, nat>
    reads items`hashv
  {
    map x | x in items :: x.hashv
  }

  /** The bucket of n that x belongs to. */
  ghost function Home(hv: map<Item, nat>, x: Item, n: nat): nat
    requires n > 0
  {
    if x in hv then Slot(hv[x], n) else 0
  }

  /** The items of s that go to bucket b of n, the last one first. */
  ghost function Pick(hv: map<Item, nat>, s: seq<Item>, b: nat, n: nat): (r: seq<Item>)
    requires n > 0
  {
    if s == [] then []
    else
      var x := s[|s| - 1];
      (if Home(hv, x, n) == b then [x] else []) + Pick(hv, s[..|s| - 1], b, n)
  }

  lemma PickSnoc(hv: map<Item, nat>, s: seq<Item>, x: Item, b: nat, n: nat)
    requires n > 0
    ensures Pick(hv, s + [x], b, n) == (if Home(hv, x, n) == b then [x] else []) + Pick(hv, s, b, n)
  {
    assert (s + [x])[..|s|] == s;
  }

  function Over(length: nat, ideal: nat): nat { if length > ideal then length - ideal else 0 }

  /** How many items stand beyond the ideal position in their chains. */
  function Excess(chains: seq<seq<Item>>, ideal: nat): nat {
    if chains == [] then 0 else Over(|chains[0]|, ideal) + Excess(chains[1..], ideal)
  }

  lemma {:induction false} ExcessUpdate(chains: seq<seq<Item>>, b: nat, chain: seq<Item>, ideal: nat)
    requires b < |chains|
    ensures Excess(chains[b := chain], ideal) == Excess(chains, ideal) - Over(|chains[b]|, ideal) + Over(|chain|, ideal)
  {
    if b == 0 {
    } else {
      assert chains[b := chain][1..] == chains[1..][b - 1 := chain];
      ExcessUpdate(chains[1..], b - 1, chain, ideal);
    }
  }

  lemma {:induction false} ExcessOfEmpty(chains: seq<seq<Item>>, ideal: nat)
    requires forall b :: 0 <= b < |chains| ==> chains[b] == []
    ensures Excess(chains, ideal) == 0
  {
    if chains == [] {
    } else {
      ExcessOfEmpty(chains[1..], ideal);
    }
  }

  /** The expand_mult a bucket ends with after receiving `count` items one by one. */
  function MultFor(count: nat, ideal: nat): nat {
    if count == 0 then 0
    else
      var m := MultFor(count - 1, ideal);
      if count > ideal && count > m * ideal then m + 1 else m
  }

  /** A bucket delays the next doubling only for chains it already exceeds. */
  lemma {:induction false} MultBound(count: nat, ideal: nat)
    ensures MultFor(count, ideal) > 0 ==> (MultFor(count, ideal) - 1) * ideal < count
    ensures MultFor(count, ideal) > 0 <==> count > ideal
    ensures count > ideal ==>
              && MultFor(count, ideal) <= count - ideal
              && (MultFor(count, ideal) == count - ideal || count <= MultFor(count, ideal) * ideal)
  {
    if count == 0 {
    } else {
      MultBound(count - 1, ideal);
    }
  }

  /** m is 0 for a chain within the ideal length; for a longer one it is the number of ideal lengths that hold it, or
      the number of its items beyond the first ideal length if that is less. */
  ghost predicate IsMult(m: nat, count: nat, ideal: nat) {
    if count <= ideal then m == 0
    else m <= count - ideal && (m == 0 || (m - 1) * ideal < count) && (m == count - ideal || count <= m * ideal)
  }

  lemma LargerProduct(m: nat, k: nat, ideal: nat)
    requires m < k
    ensures m * ideal <= (k - 1) * ideal
  {
  }

  /** There is no other such number. */
  lemma MultExact(m: nat, count: nat, ideal: nat)
    ensures m == MultFor(count, ideal) <==> IsMult(m, count, ideal)
  {
    MultBound(count, ideal);
    var k := MultFor(count, ideal);
    if m < k {
      LargerProduct(m, k, ideal);
    } else if k < m {
      LargerProduct(k, m, ideal);
    }
  }

  /** The one old bucket whose items can go to new bucket c. */
  function OldBucket(c: nat, n: nat): (b: nat)
    requires c < 2 * n
    ensures b < n
  {
    if c < n then c else c - n
  }

  /** Doubling: the items of old bucket b go to new bucket b or b + n, each chain in reverse. */
  ghost predicate SplitOf(hv: map<Item, nat>, chains: seq<seq<Item>>, new': seq<seq<Item>>) {
    && |new'| == 2 * |chains|
    && (forall c {:trigger new'[c]} :: 0 <= c < |new'| ==>
          new'[c] == Pick(hv, chains[OldBucket(c, |chains|)], c, |new'|))
  }

  /** The chains of the table before it is doubled, apart from their links. */
  ghost predicate OldChains(hv: map<Item, nat>, chains: seq<seq<Item>>, log2: nat) {
    && |chains| == Pow2(log2)
    && (forall c {:trigger NoRepeats(chains[c])} :: 0 <= c < |chains| ==> NoRepeats(chains[c]))
    && (forall c {:trigger AtHome(hv, chains[c], c, |chains|)} :: 0 <= c < |chains| ==>
          AtHome(hv, chains[c], c, |chains|))
    && (forall x {:trigger x in hv} :: x in hv ==> x in chains[Home(hv, x, |chains|)])
  }

  ghost predicate AtHome(hv: map<Item, nat>, chain: seq<Item>, c: nat, n: nat)
    requires n > 0
  {
    forall x :: x in chain ==> x in hv && Home(hv, x, n) == c
  }

  /** The part of chains[b] that has been moved when the loops of HASH_EXPAND_BUCKETS stand at item j of bucket i. */
  function Moved(chains: seq<seq<Item>>, b: nat, i: nat, j: nat): seq<Item>
    requires b < |chains|
  {
    if b < i then chains[b] else if b == i && j <= |chains[b]| then chains[b][..j] else []
  }

  /** The new chains at that point, and the items they hold. */
  ghost predicate HalfMoved(hv: map<Item, nat>, chains: seq<seq<Item>>, new': seq<seq<Item>>, moved: set<Item>,
      i: nat, j: nat) {
    && |new'| == 2 * |chains| > 0 && moved <= hv.Keys
    && (forall c {:trigger new'[c]} :: 0 <= c < |new'| ==>
          new'[c] == Pick(hv, Moved(chains, OldBucket(c, |chains|), i, j), c, |new'|))
    && (forall x {:trigger x in moved} :: x in hv ==> (x in moved <==> x in Moved(chains, Home(hv, x, |chains|), i, j)))
  }

  lemma HomeSplits(hv: map<Item, nat>, x: Item, log2: nat)
    ensures var n := Pow2(log2);
            x in hv ==> Home(hv, x, 2 * n) == Home(hv, x, n) || Home(hv, x, 2 * n) == Home(hv, x, n) + n
  {
    if x in hv {
      SlotSplits(hv[x], log2);
    }
  }

  /** What one more moved item adds to new bucket c. */
  lemma PickMoved(hv: map<Item, nat>, chains: seq<seq<Item>>, log2: nat, i: nat, j: nat, c: nat)
    requires OldChains(hv, chains, log2) && i < |chains| && j < |chains[i]| && c < 2 * |chains|
    ensures var x, o, n := chains[i][j], OldBucket(c, |chains|), 2 * |chains|;
            Pick(hv, Moved(chains, o, i, j + 1), c, n) ==
            (if Home(hv, x, n) == c then [x] else []) + Pick(hv, Moved(chains, o, i, j), c, n)
  {
    var x, o := chains[i][j], OldBucket(c, |chains|);
    assert x in chains[i] && AtHome(hv, chains[i], i, |chains|);
    HomeSplits(hv, x, log2);
    if o == i {
      assert Moved(chains, i, i, j + 1) == Moved(chains, i, i, j) + [x];
      PickSnoc(hv, Moved(chains, i, i, j), x, c, 2 * |chains|);
    }
  }

  lemma HalfMovedNext(hv: map<Item, nat>, chains: seq<seq<Item>>, new': seq<seq<Item>>, moved: set<Item>,
                      log2: nat, i: nat, j: nat)
    requires OldChains(hv, chains, log2) && HalfMoved(hv, chains, new', moved, i, j)
    requires i < |chains| && j < |chains[i]|
    ensures var x := chains[i][j];
            var b := Home(hv, x, |new'|);
            b < |new'| && HalfMoved(hv, chains, new'[b := [x] + new'[b]], moved + {x}, i, j + 1)
  {
    hide Pick;
    var x := chains[i][j];
    assert x in chains[i] && AtHome(hv, chains[i], i, |chains|);
    HomeSplits(hv, x, log2);
    var b := Home(hv, x, |new'|);
    var new2 := new'[b := [x] + new'[b]];
    forall c | 0 <= c < |new2|
      ensures new2[c] == Pick(hv, Moved(chains, OldBucket(c, |chains|), i, j + 1), c, |new2|)
    {
      PickMoved(hv, chains, log2, i, j, c);
      assert new'[c] == Pick(hv, Moved(chains, OldBucket(c, |chains|), i, j), c, |new'|);
    }
    forall y | y in hv
      ensures y in moved + {x} <==> y in Moved(chains, Home(hv, y, |chains|), i, j + 1)
    {
      var o := Home(hv, y, |chains|);
      assert y in chains[o];
      assert y in moved <==> y in Moved(chains, o, i, j);
      if o == i {
        assert Moved(chains, i, i, j + 1) == Moved(chains, i, i, j) + [x];
      }
    }
  }

  /** The item to be moved next has not been moved, and stands in no other old chain. */
  lemma NotMovedYet(hv: map<Item, nat>, chains: seq<seq<Item>>, new': seq<seq<Item>>, moved: set<Item>, log2: nat,
      i: nat, j: nat)
    requires OldChains(hv, chains, log2) && HalfMoved(hv, chains, new', moved, i, j)
    requires i < |chains| && j < |chains[i]|
    ensures var x := chains[i][j];
            && x in hv && x !in moved
            && (forall c {:trigger chains[c]} :: 0 <= c < |chains| && c != i ==> x !in chains[c])
            && (forall k {:trigger chains[i][k]} :: j < k < |chains[i]| ==> chains[i][k] != x)
  {
    var x := chains[i][j];
    assert x in chains[i] && AtHome(hv, chains[i], i, |chains|) && NoRepeats(chains[i]);
    assert x in moved <==> x in Moved(chains, i, i, j);
    forall c | 0 <= c < |chains| && c != i ensures x !in chains[c] {
      assert AtHome(hv, chains[c], c, |chains|);
    }
  }

  lemma NextChain(hv: map<Item, nat>, chains: seq<seq<Item>>, new': seq<seq<Item>>, moved: set<Item>, i: nat)
    requires i < |chains| && HalfMoved(hv, chains, new', moved, i, |chains[i]|)
    ensures HalfMoved(hv, chains, new', moved, i + 1, 0)
  {
    assert chains[i][..|chains[i]|] == chains[i];
    forall b | 0 <= b < |chains| ensures Moved(chains, b, i + 1, 0) == Moved(chains, b, i, |chains[i]|) {
    }
    forall c | 0 <= c < |new'|
      ensures new'[c] == Pick(hv, Moved(chains, OldBucket(c, |chains|), i + 1, 0), c, |new'|)
    {
    }
    forall x | x in hv
      ensures x in moved <==> x in Moved(chains, Home(hv, x, |chains|), i + 1, 0)
    {
    }
  }

  lemma AllMoved(hv: map<Item, nat>, chains: seq<seq<Item>>, new': seq<seq<Item>>, moved: set<Item>, log2: nat)
    requires OldChains(hv, chains, log2) && HalfMoved(hv, chains, new', moved, |chains|, 0)
    ensures moved == hv.Keys && SplitOf(hv, chains, new')
  {
    forall c | 0 <= c < |new'| ensures new'[c] == Pick(hv, chains[OldBucket(c, |chains|)], c, |new'|) {
    }
    forall x | x in hv ensures x in moved {
      assert x in chains[Home(hv, x, |chains|)];
    }
  }

  lemma OldChainsOf(bs: seq<Bucket>, chains: seq<seq<Item>>, items: set<Item>, log2: nat)
    requires Chained(bs, chains, items) && |chains| == Pow2(log2)
    ensures OldChains(Hashes(items), chains, log2)
  {
    var hv := Hashes(items);
    forall c | 0 <= c < |chains| ensures NoRepeats(chains[c]) && AtHome(hv, chains[c], c, |chains|) {
      assert Inside(chains[c], items) && ChainOk(bs[c], chains[c]) && Placed(chains[c], c, |bs|);
    }
    forall x | x in hv ensures x in chains[Home(hv, x, |chains|)] {
      assert Slot(x.hashv, |bs|) == Home(hv, x, |chains|);
    }
  }

  lemma NothingMoved(bs: seq<Bucket>, chains: seq<seq<Item>>, new': seq<seq<Item>>, items: set<Item>, log2: nat)
    requires Chained(bs, chains, items) && |chains| == Pow2(log2)
    requires |new'| == 2 * |chains| && forall b :: 0 <= b < |new'| ==> new'[b] == []
    ensures OldChains(Hashes(items), chains, log2) && HalfMoved(Hashes(items), chains, new', {}, 0, 0)
  {
    OldChainsOf(bs, chains, items, log2);
  }

  lemma {:induction false} PickMember(hv: map<Item, nat>, s: seq<Item>, b: nat, n: nat, x: Item)
    requires n > 0
    ensures x in Pick(hv, s, b, n) <==> x in s && Home(hv, x, n) == b
    decreases |s|
  {
    if s == [] {
    } else {
      PickMember(hv, s[..|s| - 1], b, n, x);
      assert s == s[..|s| - 1] + [s[|s| - 1]];
    }
  }

  /** Doubling n buckets sends an item of old bucket i to new bucket i or i + n, and to no other. */
  lemma DoublingSplits(hv: map<Item, nat>, chains: seq<seq<Item>>, new': seq<seq<Item>>, log2: nat, i: nat, x: Item)
    requires OldChains(hv, chains, log2) && SplitOf(hv, chains, new') && i < |chains| && x in chains[i]
    ensures x in new'[i] || x in new'[i + |chains|]
    ensures forall c :: 0 <= c < |new'| && x in new'[c] ==> c == i || c == i + |chains|
  {
    assert AtHome(hv, chains[i], i, |chains|);
    HomeSplits(hv, x, log2);
    forall c | 0 <= c < |new'|
      ensures x in new'[c] <==> x in chains[OldBucket(c, |chains|)] && Home(hv, x, |new'|) == c
    {
      PickMember(hv, chains[OldBucket(c, |chains|)], c, |new'|, x);
    }
    var c := Home(hv, x, |new'|);
    assert OldBucket(c, |chains|) == i && x in new'[c];
  }

  /** After doubling, the expand_mult of every bucket is right for its count. */
  lemma DoublingLeavesRoom(bs: seq<Bucket>, chains: seq<seq<Item>>, items: set<Item>, ideal: nat, nonideal: nat, b: nat)
    requires Chained(bs, chains, items) && Tallied(bs, chains, ideal, nonideal) && b < |bs|
    ensures IsMult(bs[b].expandMult, bs[b].count, ideal)
  {
    assert Inside(chains[b], items) && ChainOk(bs[b], chains[b]);
    MultExact(bs[b].expandMult, |chains[b]|, ideal);
  }

  /** chains[b] from position j on is still threaded as it was. */
  ghost predicate Unmoved(chain: seq<Item>, j: nat)
    reads chain`hhNext
  {
    forall k {:trigger chain[k].hhNext} :: j <= k < |chain| ==> chain[k].hhNext == At(chain, k + 1)
  }

  /** What is left of the old chains when the loops stand at item j of bucket i. */
  ghost predicate Waiting(chains: seq<seq<Item>>, items: set<Item>, i: nat, j: nat)
    reads items`hhNext
  {
    && (forall b {:trigger Inside(chains[b], items)} :: 0 <= b < |chains| ==> Inside(chains[b], items))
    && (forall b {:trigger Unmoved(chains[b], 0)} ::
          i < b < |chains| && Inside(chains[b], items) ==> Unmoved(chains[b], 0))
    && (i < |chains| ==> Inside(chains[i], items) && Unmoved(chains[i], j))
  }

  ghost predicate Tallied(bs: seq<Bucket>, chains: seq<seq<Item>>, ideal: nat, nonideal: int) {
    && |bs| == |chains| && nonideal == Excess(chains, ideal)
    && (forall b {:trigger bs[b]} :: 0 <= b < |bs| ==> bs[b].expandMult == MultFor(|chains[b]|, ideal))
  }

  /** The innermost block of HASH_EXPAND_BUCKETS: x becomes the head of its new bucket, and is counted if it
      stands beyond the ideal position there. */
  method MoveItem(bs: array<Bucket>, x: Item, b: nat, ideal: nat, nonideal0: nat,
                  ghost chains: seq<seq<Item>>, ghost moved: set<Item>)
    returns (nonideal: nat)
    requires Chained(bs[..], chains, moved) && b < bs.Length && b == Slot(x.hashv, bs.Length) && x !in moved
    requires Tallied(bs[..], chains, ideal, nonideal0)
    modifies bs, x`hhNext, x`hhPrev, moved`hhPrev
    ensures Chained(bs[..], chains[b := [x] + chains[b]], moved + {x})
    ensures Tallied(bs[..], chains[b := [x] + chains[b]], ideal, nonideal)
  {
    assert ChainOk(bs[..][b], chains[b]);
    ExcessUpdate(chains, b, [x] + chains[b], ideal);
    nonideal := nonideal0;
    var count, mult := bs[b].count + 1, bs[b].expandMult;
    if count > ideal {
      nonideal := nonideal + 1;
      if count > mult * ideal {
        mult := mult + 1;
      }
    }
    PushFront(bs, x, b, mult, chains, moved);
  }

  /** Moving item j of old bucket i to its new bucket. */
  method MoveNext(bs: array<Bucket>, x: Item, ideal: nat, nonideal0: nat, ghost log2: nat, ghost hv: map<Item, nat>,
                  ghost chains: seq<seq<Item>>, ghost new0: seq<seq<Item>>, ghost moved0: set<Item>,
                  ghost i: nat, ghost j: nat)
    returns (next: Item?, nonideal: nat, ghost new': seq<seq<Item>>, ghost moved: set<Item>)
    requires OldChains(hv, chains, log2) && bs.Length == 2 * |chains| && HashedAs(hv)
    requires HalfMoved(hv, chains, new0, moved0, i, j) && Waiting(chains, hv.Keys, i, j) &&
             Chained(bs[..], new0, moved0)
    requires i < |chains| && j < |chains[i]| && x == chains[i][j]
    requires Tallied(bs[..], new0, ideal, nonideal0)
    modifies bs, hv.Keys`hhNext, hv.Keys`hhPrev
    ensures next == At(chains[i], j + 1)
    ensures HalfMoved(hv, chains, new', moved, i, j + 1) && Waiting(chains, hv.Keys, i, j + 1)
    ensures Chained(bs[..], new', moved) && Tallied(bs[..], new', ideal, nonideal)
  {
    assert Unmoved(chains[i], j);
    NotMovedYet(hv, chains, new0, moved0, log2, i, j);
    HalfMovedNext(hv, chains, new0, moved0, log2, i, j);
    next := x.hhNext;
    var b := Slot(x.hashv, bs.Length);
    new', moved := new0[b := [x] + new0[b]], moved0 + {x};
    nonideal := MoveItem(bs, x, b, ideal, nonideal0, new0, moved0);
    forall c | i < c < |chains| ensures Unmoved(chains[c], 0) {
      assert Inside(chains[c], hv.Keys) && old(Unmoved(chains[c], 0));
    }
    assert Unmoved(chains[i], j + 1);
  }

  ghost predicate HashedAs(hv: map<Item, nat>)
    reads hv.Keys`hashv
  {
    forall x {:trigger x in hv} {:trigger x.hashv} :: x in hv ==> hv[x] == x.hashv
  }

  /** The loop over one old chain. */
  method MoveChain(bs: array<Bucket>, head: Item?, ideal: nat, nonideal0: nat, ghost log2: nat,
      ghost hv: map<Item, nat>,
                   ghost chains: seq<seq<Item>>, ghost new0: seq<seq<Item>>, ghost moved0: set<Item>, ghost i: nat)
    returns (nonideal: nat, ghost new': seq<seq<Item>>, ghost moved: set<Item>)
    requires OldChains(hv, chains, log2) && bs.Length == 2 * |chains| && HashedAs(hv)
    requires i < |chains| && head == At(chains[i], 0)
    requires HalfMoved(hv, chains, new0, moved0, i, 0) && Waiting(chains, hv.Keys, i, 0) &&
             Chained(bs[..], new0, moved0)
    requires Tallied(bs[..], new0, ideal, nonideal0)
    modifies bs, hv.Keys`hhNext, hv.Keys`hhPrev
    ensures HalfMoved(hv, chains, new', moved, i, |chains[i]|) && Waiting(chains, hv.Keys, i, |chains[i]|)
    ensures Chained(bs[..], new', moved) && Tallied(bs[..], new', ideal, nonideal)
  {
    var thh := head;
    ghost var j := 0;
    nonideal, new', moved := nonideal0, new0, moved0;
    while thh != null
      invariant j <= |chains[i]| && thh == At(chains[i], j)
      invariant HalfMoved(hv, chains, new', moved, i, j) && Waiting(chains, hv.Keys, i, j)
      invariant Chained(bs[..], new', moved) && Tallied(bs[..], new', ideal, nonideal)
      decreases |chains[i]| - j
    {
      thh, nonideal, new', moved := MoveNext(bs, thh, ideal, nonideal, log2, hv, chains, new', moved, i, j);
      j := j + 1;
    }
  }

  /** A zeroed bucket array. */
  method EmptyBuckets(n: nat) returns (bs: array<Bucket>, ghost chains: seq<seq<Item>>)
    requires n > 0
    ensures fresh(bs) && bs.Length == n && forall b :: 0 <= b < n ==> bs[b] == Bucket(null, 0, 0)
    ensures |chains| == n && forall b :: 0 <= b < n ==> chains[b] == []
    ensures Chained(bs[..], chains, {}) && forall ideal :: Tallied(bs[..], chains, ideal, 0)
  {
    bs := new Bucket[n](_ => Bucket(null, 0, 0));
    chains := seq(n, _ => []);
    forall ideal: nat ensures Excess(chains, ideal) == 0 {
      ExcessOfEmpty(chains, ideal);
    }
  }

  /** The outer loop of HASH_EXPAND_BUCKETS. */
  method MoveAll(old': array<Bucket>, bs: array<Bucket>, ideal: nat, ghost log2: nat, ghost hv: map<Item, nat>,
                 ghost heads: seq<Bucket>, ghost chains: seq<seq<Item>>, ghost new0: seq<seq<Item>>)
    returns (nonideal: nat, ghost new': seq<seq<Item>>, ghost moved: set<Item>)
    requires OldChains(hv, chains, log2) && bs.Length == 2 * |chains| && old' != bs && HashedAs(hv)
    requires old'.Length == |chains| && heads == old'[..] && forall b :: 0 <= b < |chains| ==>
               heads[b].hhHead == At(chains[b], 0)
    requires HalfMoved(hv, chains, new0, {}, 0, 0) && Waiting(chains, hv.Keys, 0, 0)
    requires Chained(bs[..], new0, {}) && Tallied(bs[..], new0, ideal, 0)
    modifies bs, hv.Keys`hhNext, hv.Keys`hhPrev
    ensures HalfMoved(hv, chains, new', moved, |chains|, 0)
    ensures Chained(bs[..], new', moved) && Tallied(bs[..], new', ideal, nonideal)
  {
    nonideal, new', moved := 0, new0, {};
    var i := 0;
    while i < old'.Length
      invariant i <= old'.Length && old'[..] == heads
      invariant HalfMoved(hv, chains, new', moved, i, 0) && Waiting(chains, hv.Keys, i, 0)
      invariant Chained(bs[..], new', moved) && Tallied(bs[..], new', ideal, nonideal)
    {
      assert old'[i] == heads[i];
      nonideal, new', moved := MoveChain(bs, old'[i].hhHead, ideal, nonideal, log2, hv, chains, new', moved, i);
      NextChain(hv, chains, new', moved, i);
      i := i + 1;
      assert i < |chains| ==> Inside(chains[i], hv.Keys) && Unmoved(chains[i], 0);
    }
  }

  lemma AllWaiting(bs: seq<Bucket>, chains: seq<seq<Item>>, items: set<Item>)
    requires Chained(bs, chains, items)
    ensures Waiting(chains, items, 0, 0) && forall b :: 0 <= b < |chains| ==> bs[b].hhHead == At(chains[b], 0)
  {
    forall b | 0 <= b < |chains|
      ensures Inside(chains[b], items) && Unmoved(chains[b], 0) && bs[b].hhHead == At(chains[b], 0)
    {
      assert Inside(chains[b], items) && ChainOk(bs[b], chains[b]);
    }
  }

  /** The loops of HASH_EXPAND_BUCKETS: every chain is split over buckets b and b + n of a new array. */
  method Redistribute(old': array<Bucket>, ideal: nat, ghost log2: nat, ghost chains: seq<seq<Item>>,
      ghost items: set<Item>)
    returns (bs: array<Bucket>, nonideal: nat, ghost new': seq<seq<Item>>)
    requires old'.Length == Pow2(log2) && Chained(old'[..], chains, items)
    modifies items`hhNext, items`hhPrev
    ensures fresh(bs) && bs.Length == 2 * old'.Length
    ensures Chained(bs[..], new', items) && Tallied(bs[..], new', ideal, nonideal)
    ensures SplitOf(old(Hashes(items)), chains, new')
  {
    ghost var heads, hv, moved := old'[..], Hashes(items), {};
    assert hv.Keys == items;
    AllWaiting(heads, chains, items);
    bs, new' := EmptyBuckets(2 * old'.Length);
    NothingMoved(heads, chains, new', items, log2);
    nonideal, new', moved := MoveAll(old', bs, ideal, log2, hv, heads, chains, new');
    AllMoved(hv, chains, new', moved, log2);
  }

  /* ---- Counting, for HASH_FSCK ---- */

  function TotalLength(chains: seq<seq<Item>>): nat {
    if chains == [] then 0 else |chains[0]| + TotalLength(chains[1..])
  }

  lemma {:induction false} TotalLengthSnoc(chains: seq<seq<Item>>, chain: seq<Item>)
    ensures TotalLength(chains + [chain]) == TotalLength(chains) + |chain|
  {
    if chains == [] {
    } else {
      assert (chains + [chain])[1..] == chains[1..] + [chain];
      TotalLengthSnoc(chains[1..], chain);
    }
  }

  lemma {:induction false} DistinctCard(s: seq<Item>, items: set<Item>)
    requires NoRepeats(s) && (forall x :: x in s ==> x in items) && (forall x :: x in items ==> x in s)
    ensures |items| == |s|
    decreases |s|
  {
    if s == [] {
      assert items == {};
    } else {
      assert s[0] !in s[1..];
      DistinctCard(s[1..], items - {s[0]});
    }
  }

  ghost function Below(items: set<Item>, b: nat, n: nat): set<Item>
    requires n > 0
    reads items`hashv
  {
    set x | x in items && Slot(x.hashv, n) < b
  }

  lemma BelowStep(bs: seq<Bucket>, chains: seq<seq<Item>>, items: set<Item>, b: nat)
    requires Chained(bs, chains, items) && b < |bs|
    ensures |Below(items, b + 1, |bs|)| == |Below(items, b, |bs|)| + |chains[b]|
  {
    var chain, lower, upper := chains[b], Below(items, b, |bs|), Below(items, b + 1, |bs|);
    var own := upper - lower;
    assert Inside(chain, items) && Placed(chain, b, |bs|) && ChainOk(bs[b], chain);
    assert forall x :: x in chain ==> x in own;
    forall x | x in own ensures x in chain {
      assert Slot(x.hashv, |bs|) == b;
    }
    DistinctCard(chain, own);
    assert lower <= upper && upper == lower + own;
  }

  lemma {:induction false} TotalBelow(bs: seq<Bucket>, chains: seq<seq<Item>>, items: set<Item>, b: nat)
    requires Chained(bs, chains, items) && b <= |bs|
    ensures |Below(items, b, |bs|)| == TotalLength(chains[..b])
  {
    if b == 0 {
    } else {
      TotalBelow(bs, chains, items, b - 1);
      BelowStep(bs, chains, items, b - 1);
      assert chains[..b] == chains[..b - 1] + [chains[b - 1]];
      TotalLengthSnoc(chains[..b - 1], chains[b - 1]);
    }
  }

  /** The bucket counts add up to the number of items. */
  lemma TotalIsCard(bs: seq<Bucket>, chains: seq<seq<Item>>, items: set<Item>)
    requires Chained(bs, chains, items)
    ensures TotalLength(chains) == |items|
  {
    TotalBelow(bs, chains, items, |bs|);
    assert chains[..|bs|] == chains && Below(items, |bs|, |bs|) == items;
  }

  /** The items that stand beyond the ideal length of their chains. */
  ghost function Late(chains: seq<seq<Item>>, ideal: nat): set<Item> {
    set c, k | 0 <= c < |chains| && ideal <= k < |chains[c]| :: chains[c][k]
  }

  /** No item stands twice in the chains. */
  ghost predicate Scattered(chains: seq<seq<Item>>) {
    && (forall c {:trigger NoRepeats(chains[c])} :: 0 <= c < |chains| ==> NoRepeats(chains[c]))
    && (forall c, d, j, k {:trigger chains[c][j], chains[d][k]} ::
          0 <= c < d < |chains| && 0 <= j < |chains[c]| && 0 <= k < |chains[d]| ==> chains[c][j] != chains[d][k])
  }

  lemma LateSplits(chains: seq<seq<Item>>, ideal: nat)
    requires chains != [] && Scattered(chains)
    ensures Late(chains, ideal) == Late([chains[0]], ideal) + Late(chains[1..], ideal)
    ensures Late([chains[0]], ideal) * Late(chains[1..], ideal) == {}
  {
    var first, rest := Late([chains[0]], ideal), Late(chains[1..], ideal);
    forall x | x in Late(chains, ideal) ensures x in first + rest {
      var c, k :| 0 <= c < |chains| && ideal <= k < |chains[c]| && chains[c][k] == x;
      assert if c == 0 then [chains[0]][0][k] == x else chains[1..][c - 1][k] == x;
    }
    forall x | x in first ensures x in Late(chains, ideal) && x !in rest {
      var k :| ideal <= k < |chains[0]| && chains[0][k] == x;
    }
    forall x | x in rest ensures x in Late(chains, ideal) {
      var c, k :| 0 <= c < |chains| - 1 && ideal <= k < |chains[1..][c]| && chains[1..][c][k] == x;
      assert chains[c + 1][k] == x;
    }
  }

  lemma LateOne(chain: seq<Item>, ideal: nat)
    requires NoRepeats(chain)
    ensures |Late([chain], ideal)| == Over(|chain|, ideal)
  {
    var rest := if ideal <= |chain| then chain[ideal..] else [];
    forall x | x in Late([chain], ideal) ensures x in rest {
      var k :| ideal <= k < |chain| && chain[k] == x;
      assert rest[k - ideal] == x;
    }
    forall x | x in rest ensures x in Late([chain], ideal) {
      var k :| 0 <= k < |rest| && rest[k] == x;
      assert [chain][0][k + ideal] == x;
    }
    DistinctCard(rest, Late([chain], ideal));
  }

  lemma NoneLate(ideal: nat)
    ensures Late([], ideal) == {}
  {
  }

  lemma {:induction false} LateCard(chains: seq<seq<Item>>, ideal: nat)
    requires Scattered(chains)
    ensures |Late(chains, ideal)| == Excess(chains, ideal)
  {
    hide Late;
    if chains == [] {
      NoneLate(ideal);
    } else {
      LateSplits(chains, ideal);
      LateOne(chains[0], ideal);
      LateCard(chains[1..], ideal);
    }
  }

  /** nonideal_items counts the items that stand beyond the ideal length of their chains. */
  lemma ExcessIsCard(bs: seq<Bucket>, chains: seq<seq<Item>>, items: set<Item>, ideal: nat)
    requires Chained(bs, chains, items)
    ensures Excess(chains, ideal) == |Late(chains, ideal)|
  {
    forall c | 0 <= c < |chains| ensures NoRepeats(chains[c]) {
      assert Inside(chains[c], items) && ChainOk(bs[c], chains[c]);
    }
    forall c, d, j, k | 0 <= c < d < |chains| && 0 <= j < |chains[c]| && 0 <= k < |chains[d]|
      ensures chains[c][j] != chains[d][k]
    {
      assert Inside(chains[c], items) && Placed(chains[c], c, |bs|);
      assert Inside(chains[d], items) && Placed(chains[d], d, |bs|);
      assert chains[c][j] in chains[c] && chains[d][k] in chains[d];
    }
    LateCard(chains, ideal);
  }

  /** Following hh_next from the head gives the chain. */
  ghost predicate Forward(head: Item?, chain: seq<Item>)
    reads chain`hhNext
  {
    && head == At(chain, 0)
    && (forall j {:trigger chain[j].hhNext} :: 0 <= j < |chain| ==> chain[j].hhNext == At(chain, j + 1))
  }

  ghost predicate Backward(chain: seq<Item>)
    reads chain`hhPrev
  {
    forall j {:trigger chain[j].hhPrev} :: 0 <= j < |chain| ==> chain[j].hhPrev == At(chain, j - 1)
  }

  /** HASH_FSCK on one chain: exactly when all its hh_prev are right it finds nothing wrong, and counts the items. */
  method FsckChain(bucket: Bucket, ghost chain: seq<Item>) returns (ok: bool, count: nat)
    requires Forward(bucket.hhHead, chain)
    ensures ok <==> Backward(chain)
    ensures ok ==> count == |chain|
  {
    var prev: Item? := null;
    var thh := bucket.hhHead;
    count := 0;
    while thh != null
      invariant count <= |chain| && thh == At(chain, count) && prev == At(chain, count - 1)
      invariant forall j {:trigger chain[j].hhPrev} :: 0 <= j < count ==> chain[j].hhPrev == At(chain, j - 1)
      decreases |chain| - count
    {
      assert chain[count].hhNext == At(chain, count + 1);
      if prev != thh.hhPrev {
        assert chain[count].hhPrev != At(chain, count - 1);
        return false, count;
      }
      prev := thh;
      thh := thh.hhNext;
      count := count + 1;
    }
    ok := true;
  }

  /** A bucket and its chain pass the check. */
  ghost predicate ChainSound(bucket: Bucket, chain: seq<Item>)
    reads chain`hhPrev
  {
    Backward(chain) && bucket.count == |chain|
  }

  method FsckBucket(bucket: Bucket, ghost chain: seq<Item>) returns (ok: bool, count: nat)
    requires Forward(bucket.hhHead, chain)
    ensures ok <==> ChainSound(bucket, chain)
    ensures ok ==> count == |chain|
  {
    ok, count := FsckChain(bucket, chain);
    ok := ok && bucket.count == count;
  }

  /** The same for next and prev of the app-order list. */
  ghost predicate ListForward(head: Item?, s: seq<Item>)
    reads s`next
  {
    && head == At(s, 0)
    && (forall j {:trigger s[j].next} :: 0 <= j < |s| ==> s[j].next == At(s, j + 1))
  }

  ghost predicate ListBackward(s: seq<Item>)
    reads s`prev
  {
    forall j {:trigger s[j].prev} :: 0 <= j < |s| ==> s[j].prev == At(s, j - 1)
  }

  /** HASH_FSCK on the app-order list. */
  method FsckList(head: Item?, ghost s: seq<Item>) returns (ok: bool, count: nat)
    requires ListForward(head, s)
    ensures ok <==> ListBackward(s)
    ensures ok ==> count == |s|
  {
    var prev: Item? := null;
    var thh := head;
    count := 0;
    while thh != null
      invariant count <= |s| && thh == At(s, count) && prev == At(s, count - 1)
      invariant forall j {:trigger s[j].prev} :: 0 <= j < count ==> s[j].prev == At(s, j - 1)
      decreases |s| - count
    {
      assert s[count].next == At(s, count + 1);
      if prev != thh.prev {
        assert s[count].prev != At(s, count - 1);
        return false, count;
      }
      prev := thh;
      thh := thh.next;
      count := count + 1;
    }
    ok := true;
  }
}
