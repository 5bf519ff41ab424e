/** UT_hash_table: the chained hash table of uthash.h with its app-order list, as add_page, find_page and
    remove_page use it to map a virtual address to a page. */
module Uthash {
  import opened Basics
  import opened Bits
  import opened AppOrder
  import opened Buckets
  import StableSorting

  const INITIAL_LOG2 := 21
  const BKT_CAPACITY_THRESH := 10

  ghost predicate SameItems(items: set<Item>, s: seq<Item>) {
    (forall x :: x in items ==> x in s) && (forall x :: x in s ==> x in items)
  }

  /** head points at the first item in app order; the table exists only while there are items. */
  class Table {
    const hash: nat -> nat
    var head: Item?
    var tail: Item?
    var numItems: nat
    var buckets: array<Bucket>
    var log2NumBuckets: nat
    var idealChainMaxlen: nat
    var nonidealItems: nat
    var ineffExpands: nat
    var noexpand: bool
    ghost var Order: seq<Item>
    ghost var Chains: seq<seq<Item>>
    ghost var Indexed: set<Item>
    ghost var Map: map<nat, Item>  // the finite map the table stands for

    /** The table proper holds `Indexed`. */
    ghost predicate Bucketed()
      reads this`buckets, this`log2NumBuckets, this`Chains, this`Indexed, this`numItems
      reads buckets, Indexed`hashv, Indexed`hhPrev, Indexed`hhNext
    {
      && buckets.Length == Pow2(log2NumBuckets)
      && Chained(buckets[..], Chains, Indexed)
      && numItems == |Indexed|
    }

    /** Every item has the hash of its key, and `map'` takes exactly the keys of s to their items. */
    ghost predicate Keyed(s: seq<Item>, map': map<nat, Item>)
      reads s`key, s`hashv
    {
      && (forall x :: x in s ==> x.hashv == hash(x.key) && x.key in map' && map'[x.key] == x)
      && (forall k :: k in map' ==> map'[k] in s && map'[k].key == k)
    }

    ghost predicate Valid()
      reads this, buckets, Order, Indexed
    {
      && (head == null <==> Order == [])
      && SameItems(Indexed, Order)
      && (Order != [] ==> Linked(Order, head, tail) && Bucketed())
      && Keyed(Order, Map)
    }

    constructor (hash: nat -> nat)
      ensures Valid() && Order == [] && Map == map[] && this.hash == hash && fresh(buckets)
    {
      this.hash := hash;
      head, tail, numItems := null, null, 0;
      buckets := new Bucket[0];
      log2NumBuckets, idealChainMaxlen, nonidealItems, ineffExpands, noexpand := 0, 0, 0, 0, false;
      Order, Chains, Indexed, Map := [], [], {}, map[];
    }

    /** HASH_FIND. */
    method Find(key: nat) returns (out: Item?)
      requires Valid()
      ensures out == if key in Map then Map[key] else null
    {
      out := null;
      if head != null {
        var hashv := hash(key);
        var b := Slot(hashv, buckets.Length);
        assert ChainOk(buckets[..][b], Chains[b]) && Inside(Chains[b], Indexed);
        out := Buckets.Find(buckets[b], key, hashv, Chains[b]);
      }
    }

    /** The table as HASH_MAKE_TABLE leaves it. */
    ghost predicate NewTable()
      reads this`log2NumBuckets, this`buckets, this`noexpand, this`ineffExpands, buckets
    {
      && log2NumBuckets == 21 && buckets.Length == 2097152 && !noexpand && ineffExpands == 0
      && forall b :: 0 <= b < buckets.Length ==> buckets[b] == Bucket(null, 0, 0)
    }

    /** HASH_MAKE_TABLE. */
    method MakeTable(item: Item)
      modifies this`tail
      modifies this`numItems, this`Indexed, this`buckets, this`Chains, this`log2NumBuckets, this`idealChainMaxlen
      modifies this`nonidealItems, this`ineffExpands, this`noexpand
      ensures Bucketed() && Indexed == {} && fresh(buckets) && tail == item && NewTable()
    {
      tail := item;
      log2NumBuckets := INITIAL_LOG2;
      buckets, Chains := EmptyBuckets(InitialNumBuckets());
      Indexed := {};
      numItems, idealChainMaxlen, nonidealItems, ineffExpands, noexpand := 0, 0, 0, 0, false;
    }

    /** HASH_EXPAND_BUCKETS.  The items stay; each goes to the head of the new bucket its longer mask selects. */
    method ExpandBuckets()
      requires Bucketed()
      modifies this`buckets, this`Chains, this`log2NumBuckets, this`idealChainMaxlen, this`nonidealItems
      modifies this`ineffExpands, this`noexpand, Indexed`hhPrev, Indexed`hhNext
      ensures Bucketed() && fresh(buckets) && log2NumBuckets == old(log2NumBuckets) + 1
      ensures SplitOf(old(Hashes(Indexed)), old(Chains), Chains)
      ensures LeastChain(idealChainMaxlen, numItems, log2NumBuckets)
      ensures Tallied(buckets[..], Chains, idealChainMaxlen, nonidealItems)
      ensures nonidealItems == |Late(Chains, idealChainMaxlen)|
      ensures forall i, x :: 0 <= i < |old(Chains)| && x in old(Chains)[i] ==>
                x in Chains[i] || x in Chains[i + |old(Chains)|]
      ensures forall b {:trigger buckets[b].expandMult} :: 0 <= b < buckets.Length ==>
                IsMult(buckets[b].expandMult, buckets[b].count, idealChainMaxlen)
      ensures ineffExpands == (if nonidealItems > numItems / 2 then old(ineffExpands) + 1 else 0)
      ensures noexpand == (old(noexpand) || ineffExpands > 1)
    {
      hide Chained;
      hide Tallied;
      hide SplitOf;
      hide IdealChain;
      hide LeastChain;
      hide Late;
      var ideal := IdealChain(numItems, log2NumBuckets, buckets.Length);
      var bs, nonideal;
      ghost var chains;
      bs, nonideal, chains := DoubleBuckets(ideal);
      ghost var content := bs[..];
      Install(bs, ideal, nonideal, chains);
      assert buckets[..] == content;
    }

    method DoubleBuckets(ideal: nat)
      returns (bs: array<Bucket>, nonideal: nat, ghost chains: seq<seq<Item>>)
      requires Bucketed()
      modifies Indexed`hhPrev, Indexed`hhNext
      ensures fresh(bs) && bs.Length == Pow2(log2NumBuckets + 1) && Chained(bs[..], chains, Indexed)
      ensures SplitOf(old(Hashes(Indexed)), Chains, chains) && Tallied(bs[..], chains, ideal, nonideal)
      ensures nonideal == |Late(chains, ideal)|
      ensures forall i, x :: 0 <= i < |Chains| && x in Chains[i] ==> x in chains[i] || x in chains[i + |Chains|]
      ensures forall b {:trigger bs[b].expandMult} :: 0 <= b < bs.Length ==>
                IsMult(bs[b].expandMult, bs[b].count, ideal)
    {
      ghost var hv := Hashes(Indexed);
      OldChainsOf(buckets[..], Chains, Indexed, log2NumBuckets);
      bs, nonideal, chains := Redistribute(buckets, ideal, log2NumBuckets, Chains, Indexed);
      ExcessIsCard(bs[..], chains, Indexed, ideal);
      forall i, x | 0 <= i < |Chains| && x in Chains[i] ensures x in chains[i] || x in chains[i + |Chains|] {
        DoublingSplits(hv, Chains, chains, log2NumBuckets, i, x);
      }
      forall b | 0 <= b < bs.Length ensures IsMult(bs[b].expandMult, bs[b].count, ideal) {
        DoublingLeavesRoom(bs[..], chains, Indexed, ideal, nonideal, b);
      }
    }

    /** The assignments of HASH_EXPAND_BUCKETS to the table: the new array and the judgement on the doubling. */
    method Install(bs: array<Bucket>, ideal: nat, nonideal: nat, ghost chains: seq<seq<Item>>)
      modifies this`buckets, this`Chains, this`log2NumBuckets, this`idealChainMaxlen, this`nonidealItems
      modifies this`ineffExpands, this`noexpand
      ensures buckets == bs && Chains == chains && log2NumBuckets == old(log2NumBuckets) + 1
      ensures idealChainMaxlen == ideal && nonidealItems == nonideal
      ensures ineffExpands == (if nonideal > numItems / 2 then old(ineffExpands) + 1 else 0)
      ensures noexpand == (old(noexpand) || ineffExpands > 1)
    {
      assert Shr(numItems, 1) == Shr(numItems / 2, 0) == numItems / 2;
      idealChainMaxlen, nonidealItems := ideal, nonideal;
      log2NumBuckets := log2NumBuckets + 1;
      buckets, Chains := bs, chains;
      ineffExpands := if nonidealItems > Shr(numItems, 1) then ineffExpands + 1 else 0;
      if ineffExpands > 1 {
        noexpand := true;
      }
    }

    /** HASH_ADD_TO_BKT up to the test for doubling. */
    method AddToBkt(item: Item) returns (b: nat)
      requires Bucketed() && item !in Indexed
      modifies this`numItems, this`Indexed, this`Chains
      modifies buckets, Indexed`hhPrev, item`hhPrev, item`hhNext
      ensures Bucketed() && Indexed == old(Indexed) + {item}
      ensures b < buckets.Length && b == Slot(item.hashv, buckets.Length)
      ensures var bs := old(buckets[..]);
              buckets[..] == bs[b := Bucket(item, bs[b].count + 1, bs[b].expandMult)]
    {
      numItems := numItems + 1;
      b := Slot(item.hashv, buckets.Length);
      ghost var chains, indexed := Chains, Indexed;
      Chains, Indexed := Chains[b := [item] + Chains[b]], Indexed + {item};
      PushFront(buckets, item, b, buckets[b].expandMult, chains, indexed);
    }

    /** An item with this hash value fills its bucket up: with it, the bucket holds ten items for every time it has been
        found too full, and ten more. */
    ghost predicate Bursts(hashv: nat)
      reads this`buckets, this`noexpand, buckets
    {
      buckets.Length > 0 && !noexpand &&
      var b := buckets[Slot(hashv, buckets.Length)];
      b.count + 1 >= 10 * b.expandMult + 10
    }

    /** The buckets have been doubled if `doubled`, and else are as they were: bs, 2^log2 of them. */
    ghost predicate Grown(doubled: bool, bs: array<Bucket>, log2: nat, fixed: bool)
      reads this`buckets, this`log2NumBuckets, this`noexpand
    {
      if doubled then log2NumBuckets == log2 + 1 && buckets != bs
      else log2NumBuckets == log2 && buckets == bs && noexpand == fixed
    }

    /** HASH_ADD_TO_TABLE with HASH_ADD_TO_BKT, which doubles the buckets when the item's bucket is full. */
    method AddToTable(item: Item)
      requires Bucketed() && item !in Indexed
      modifies this`numItems, this`Indexed, this`buckets, this`Chains, this`log2NumBuckets, this`idealChainMaxlen
      modifies this`nonidealItems, this`ineffExpands, this`noexpand
      modifies buckets, Indexed`hhPrev, Indexed`hhNext, item`hhPrev, item`hhNext
      ensures Bucketed() && Indexed == old(Indexed) + {item}
      ensures Grown(old(Bursts(item.hashv)), old(buckets), old(log2NumBuckets), old(noexpand))
      ensures buckets == old(buckets) || fresh(buckets)
    {
      var b := AddToBkt(item);
      if buckets[b].count >= (buckets[b].expandMult + 1) * BKT_CAPACITY_THRESH && !noexpand {
        ExpandBuckets();
      }
    }

    /** The first half of HASH_ADD_KEYPTR_BYHASHVALUE on an empty table. */
    method StartList(item: Item)
      requires head == null && Order == []
      modifies this`head, this`tail, this`Order, item`prev, item`next
      modifies this`numItems, this`Indexed, this`buckets, this`Chains, this`log2NumBuckets, this`idealChainMaxlen
      modifies this`nonidealItems, this`ineffExpands, this`noexpand
      ensures Order == [item] && Linked(Order, head, tail) && head == item
      ensures Bucketed() && Indexed == {} && fresh(buckets) && NewTable()
    {
      item.next, item.prev := null, null;
      MakeTable(item);
      head, Order := item, [item];
    }

    /** The same on a table that has items. */
    method ExtendList(item: Item)
      requires head != null && Order != [] && Linked(Order, head, tail) && item !in Order
      modifies this`tail, this`Order, Order`next, item`prev, item`next
      ensures Order == old(Order) + [item] && Linked(Order, head, tail)
    {
      Append(item, head, tail, Order);
      tail, Order := item, Order + [item];
    }

    method AddToList(item: Item)
      requires (head == null <==> Order == []) && SameItems(Indexed, Order) && item !in Order
      requires Order != [] ==> Linked(Order, head, tail) && Bucketed()
      modifies this`head, this`tail, this`Order, Order`next, item`prev, item`next
      modifies this`numItems, this`Indexed, this`buckets, this`Chains, this`log2NumBuckets, this`idealChainMaxlen
      modifies this`nonidealItems, this`ineffExpands, this`noexpand
      ensures Order == old(Order) + [item] && Linked(Order, head, tail) && head != null
      ensures Bucketed() && SameItems(Indexed, old(Order)) && (buckets == old(buckets) || fresh(buckets))
      ensures if old(head) == null then NewTable() else unchanged(this`buckets, this`log2NumBuckets, this`noexpand)
    {
      if head == null {
        StartList(item);
      } else {
        ExtendList(item);
      }
    }

    /** HASH_ADD_KEYPTR_BYHASHVALUE after the item's own fields are set. */
    method AddHashed(item: Item)
      requires (head == null <==> Order == []) && SameItems(Indexed, Order) && item !in Order
      requires Order != [] ==> Linked(Order, head, tail) && Bucketed()
      modifies this`head, this`tail, this`Order, buckets, Order`next, Indexed`hhPrev, Indexed`hhNext
      modifies this`numItems, this`Indexed, this`buckets, this`Chains, this`log2NumBuckets, this`idealChainMaxlen
      modifies this`nonidealItems, this`ineffExpands, this`noexpand
      modifies item`prev, item`next, item`hhPrev, item`hhNext
      ensures Order == old(Order) + [item] && head != null && SameItems(Indexed, Order)
      ensures Linked(Order, head, tail) && Bucketed()
      ensures buckets == old(buckets) || fresh(buckets)
      ensures if old(head) == null then log2NumBuckets == 21 && buckets.Length == 2097152
              else Grown(old(Bursts(item.hashv)), old(buckets), old(log2NumBuckets), old(noexpand))
    {
      hide Bucketed;
      hide Open;
      AddToList(item);
      ghost var list := (Order, head, tail);
      AddToTable(item);
      assert list == (Order, head, tail);
    }

    lemma KeyedWith(s: seq<Item>, m: map<nat, Item>, item: Item)
      requires Keyed(s, m) && item.hashv == hash(item.key) && item.key !in m
      ensures Keyed(s + [item], m[item.key := item])
    {
    }

    lemma Reordered(s: seq<Item>, t: seq<Item>, m: map<nat, Item>)
      requires Keyed(s, m) && forall x :: x in t <==> x in s
      ensures Keyed(t, m)
    {
    }

    /** HASH_ADD_KEYPTR_BYHASHVALUE for a key the table does not hold. */
    method Add(item: Item)
      requires Valid() && item !in Order && item.key !in Map
      modifies this, buckets, Order`next, Indexed`hhPrev, Indexed`hhNext
      modifies item`hashv, item`prev, item`next, item`hhPrev, item`hhNext
      ensures Valid() && Order == old(Order) + [item]
      ensures Map == old(Map)[item.key := item]
      ensures buckets == old(buckets) || fresh(buckets)
      ensures if old(head) == null then log2NumBuckets == 21 && buckets.Length == 2097152
              else Grown(old(Bursts(hash(item.key))), old(buckets), old(log2NumBuckets), old(noexpand))
    {
      hide Bucketed;
      hide Keyed;
      ghost var order, map' := Order + [item], Map[item.key := item];
      item.hashv := hash(item.key);
      KeyedWith(Order, Map, item);
      AddHashed(item);
      Map := map';
      assert Order == order;
    }

    /* ---- In-order insertion ---- */

    method InsertIntoList(cmp: (Item, Item) -> int, item: Item)
      requires head != null && Order != [] && Linked(Order, head, tail) && item !in Order
      modifies this`head, this`tail, this`Order, Order`next, Order`prev, item`prev, item`next
      ensures Order == StableSorting.Insert(cmp, old(Order), item) && Linked(Order, head, tail) && head != null
      ensures forall x :: x in Order <==> x in old(Order) + [item]
    {
      hide StableSorting.Insert;
      hide NoRepeats;
      var head', tail';
      ghost var order, j;
      head', tail', order, j := InsertInOrder(cmp, item, head, tail, Order);
      head, tail, Order := head', tail', order;
    }

    method AddToListInOrder(cmp: (Item, Item) -> int, item: Item)
      requires (head == null <==> Order == []) && SameItems(Indexed, Order) && item !in Order
      requires Order != [] ==> Linked(Order, head, tail) && Bucketed()
      modifies this`head, this`tail, this`Order, Order`next, Order`prev, item`prev, item`next
      modifies this`numItems, this`Indexed, this`buckets, this`Chains, this`log2NumBuckets, this`idealChainMaxlen
      modifies this`nonidealItems, this`ineffExpands, this`noexpand
      ensures Order == StableSorting.Insert(cmp, old(Order), item) && Linked(Order, head, tail) && head != null
      ensures forall x :: x in Order <==> x in old(Order) + [item]
      ensures Bucketed() && SameItems(Indexed, old(Order)) && (buckets == old(buckets) || fresh(buckets))
      ensures if old(head) == null then NewTable() else unchanged(this`buckets, this`log2NumBuckets, this`noexpand)
    {
      if head == null {
        StartList(item);
      } else {
        InsertIntoList(cmp, item);
      }
    }

    method AddHashedInOrder(cmp: (Item, Item) -> int, item: Item)
      requires (head == null <==> Order == []) && SameItems(Indexed, Order) && item !in Order
      requires Order != [] ==> Linked(Order, head, tail) && Bucketed()
      modifies this`head, this`tail, this`Order, buckets, Order`next, Order`prev, Indexed`hhPrev, Indexed`hhNext
      modifies this`numItems, this`Indexed, this`buckets, this`Chains, this`log2NumBuckets, this`idealChainMaxlen
      modifies this`nonidealItems, this`ineffExpands, this`noexpand
      modifies item`prev, item`next, item`hhPrev, item`hhNext
      ensures Order == StableSorting.Insert(cmp, old(Order), item) && head != null && SameItems(Indexed, Order)
      ensures forall x :: x in Order <==> x in old(Order) + [item]
      ensures Linked(Order, head, tail) && Bucketed()
      ensures buckets == old(buckets) || fresh(buckets)
      ensures if old(head) == null then log2NumBuckets == 21 && buckets.Length == 2097152
              else Grown(old(Bursts(item.hashv)), old(buckets), old(log2NumBuckets), old(noexpand))
    {
      hide Bucketed;
      hide StableSorting.Insert;
      hide Open;
      AddToListInOrder(cmp, item);
      ghost var list := (Order, head, tail);
      AddToTable(item);
      assert list == (Order, head, tail);
    }

    /** HASH_ADD_KEYPTR_BYHASHVALUE_INORDER for a key the table does not hold. */
    method AddInOrder(cmp: (Item, Item) -> int, item: Item)
      requires Valid() && item !in Order && item.key !in Map
      modifies this, buckets, Order`next, Order`prev, Indexed`hhPrev, Indexed`hhNext
      modifies item`hashv, item`prev, item`next, item`hhPrev, item`hhNext
      ensures Valid() && Order == StableSorting.Insert(cmp, old(Order), item)
      ensures StableSorting.Sorted(cmp, old(Order)) ==> Order == StableSorting.StableSort(cmp, old(Order) + [item])
      ensures Map == old(Map)[item.key := item]
      ensures buckets == old(buckets) || fresh(buckets)
      ensures if old(head) == null then log2NumBuckets == 21 && buckets.Length == 2097152
              else Grown(old(Bursts(hash(item.key))), old(buckets), old(log2NumBuckets), old(noexpand))
    {
      hide Bucketed;
      hide Keyed;
      hide StableSorting.Insert;
      hide StableSorting.Sorted;
      hide StableSorting.StableSort;
      hide Linked;
      ghost var both, map' := Order + [item], Map[item.key := item];
      item.hashv := hash(item.key);
      KeyedWith(Order, Map, item);
      AddHashedInOrder(cmp, item);
      Reordered(both, Order, map');
      Map := map';
      if StableSorting.Sorted(cmp, old(Order)) {
        StableSorting.InsertIsAppendAndSort(cmp, old(Order), item);
      }
    }

    /* ---- Deletion ---- */

    /** What delays the next doubling is as it was. */
    ghost predicate SameMults(bs: seq<Bucket>)
      reads this`buckets, buckets
    {
      buckets.Length == |bs| && forall c {:trigger bs[c]} :: 0 <= c < |bs| ==> buckets[c].expandMult == bs[c].expandMult
    }

    /** The bucket half of HASH_DELETE_HH. */
    method DeleteFromTable(item: Item)
      requires Bucketed() && item in Indexed
      modifies this`numItems, this`Indexed, this`Chains, buckets, Indexed`hhPrev, Indexed`hhNext
      ensures Bucketed() && Indexed == old(Indexed) - {item} && SameMults(old(buckets[..]))
    {
      ghost var chains, indexed := Chains, Indexed;
      assert |indexed - {item}| == |indexed| - 1;
      var b := Slot(item.hashv, buckets.Length);
      ghost var k := Buckets.Delete(buckets, item, b, chains, indexed);
      numItems := numItems - 1;
      Chains, Indexed := chains[b := chains[b][..k] + chains[b][k + 1..]], indexed - {item};
    }

    /** The list half. */
    method DeleteFromList(item: Item, ghost j: nat)
      requires 1 < |Order| && Linked(Order, head, tail) && j < |Order| && Order[j] == item
      modifies this`head, this`tail, this`Order, Order`next, Order`prev
      ensures Order == old(Order)[..j] + old(Order)[j + 1..] && Linked(Order, head, tail) && head != null
    {
      var head', tail' := Unlink(item, head, tail, Order, j);
      head, tail, Order := head', tail', Order[..j] + Order[j + 1..];
    }

    /** HASH_DELETE_HH for an item that is not the only one. */
    method DeleteOneOfMany(item: Item, ghost j: nat)
      requires 1 < |Order| && Linked(Order, head, tail) && j < |Order| && Order[j] == item
      requires Bucketed() && item in Indexed
      modifies this`head, this`tail, this`Order, this`numItems, this`Indexed, this`Chains
      modifies buckets, Order`next, Order`prev, Indexed`hhPrev, Indexed`hhNext
      ensures Order == old(Order)[..j] + old(Order)[j + 1..] && Linked(Order, head, tail) && head != null
      ensures Bucketed() && Indexed == old(Indexed) - {item} && SameMults(old(buckets[..]))
    {
      hide Bucketed;
      DeleteFromList(item, j);
      ghost var list := (Order, head, tail);
      DeleteFromTable(item);
      assert list == (Order, head, tail);
    }

    /** HASH_DELETE_HH on the two structures; removing the last item frees the table. */
    method DeleteLinked(item: Item, ghost j: nat)
      requires Linked(Order, head, tail) && j < |Order| && Order[j] == item && Bucketed() && item in Indexed
      modifies this`head, this`tail, this`Order, this`numItems, this`Indexed, this`Chains
      modifies buckets, Order`next, Order`prev, Indexed`hhPrev, Indexed`hhNext
      ensures Order == old(Order)[..j] + old(Order)[j + 1..]
      ensures head == null <==> Order == []
      ensures Order != [] ==> Linked(Order, head, tail) && Bucketed() && Indexed == old(Indexed) - {item}
      ensures Order == [] ==> Indexed == {}
      ensures SameMults(old(buckets[..]))
    {
      assert Order[j].prev == At(Order, j - 1) && Order[j].next == At(Order, j + 1);
      if item.prev == null && item.next == null {
        head := null;
        Order, Indexed := [], {};
      } else {
        DeleteOneOfMany(item, j);
      }
    }

    lemma WithoutItem(j: nat)
      requires Valid() && j < |Order|
      ensures Keyed(Order[..j] + Order[j + 1..], Map - {Order[j].key})
      ensures SameItems(Indexed - {Order[j]}, Order[..j] + Order[j + 1..])
    {
      assert NoRepeats(Order);
      RestOf(Order, j);
    }

    /** HASH_DELETE_HH. */
    method Delete(item: Item)
      requires Valid() && item in Order
      modifies this`head, this`tail, this`Order, this`numItems, this`Indexed, this`Chains, this`Map
      modifies buckets, Order`next, Order`prev, Indexed`hhPrev, Indexed`hhNext
      ensures Valid() && Map == old(Map) - {item.key} && SameMults(old(buckets[..]))
      ensures forall j :: 0 <= j < |old(Order)| && old(Order)[j] == item ==>
                Order == old(Order)[..j] + old(Order)[j + 1..]
    {
      ghost var j :| 0 <= j < |Order| && Order[j] == item;
      WithoutItem(j);
      DeleteAt(item, j);
    }

    method DeleteAt(item: Item, ghost j: nat)
      requires Valid() && j < |Order| && Order[j] == item
      requires Keyed(Order[..j] + Order[j + 1..], Map - {item.key}) &&
               SameItems(Indexed - {item}, Order[..j] + Order[j + 1..])
      modifies this`head, this`tail, this`Order, this`numItems, this`Indexed, this`Chains, this`Map
      modifies buckets, Order`next, Order`prev, Indexed`hhPrev, Indexed`hhNext
      ensures Valid() && Map == old(Map) - {item.key} && SameMults(old(buckets[..]))
      ensures Order == old(Order)[..j] + old(Order)[j + 1..]
    {
      hide Bucketed;
      hide Keyed;
      hide Linked;
      ghost var rest := Order[..j] + Order[j + 1..];
      DeleteLinked(item, j);
      Map := Map - {item.key};
      assert Order == rest;
    }

    /* ---- Sorting ---- */

    lemma Rearranged(order: seq<Item>)
      requires Valid() && multiset(order) == multiset(Order)
      ensures Keyed(order, Map) && SameItems(Indexed, order)
    {
      SameElements(Order, order);
    }

    /** HASH_SRT: the app-order list is sorted in place, and nothing else of the table changes. */
    method Sort(cmp: (Item, Item) -> int)
      requires Valid() && |Order| < 0x1_0000_0000 && StableSorting.PreorderOn(cmp, Indexed)
      modifies this`head, this`tail, this`Order, Order`next, Order`prev
      ensures Valid() && Order == StableSorting.StableSort(cmp, old(Order))
    {
      if head != null {
        ghost var order := StableSorting.StableSort(cmp, Order);
        Rearranged(order);
        SortInto(cmp, order);
      }
    }

    method SortInto(cmp: (Item, Item) -> int, ghost order: seq<Item>)
      requires Valid() && head != null && |Order| < 0x1_0000_0000 && StableSorting.PreorderOn(cmp, Indexed)
      requires order == StableSorting.StableSort(cmp, Order) && Keyed(order, Map) && SameItems(Indexed, order)
      modifies this`head, this`tail, this`Order, Order`next, Order`prev
      ensures Valid() && Order == order
    {
      hide Bucketed;
      hide Keyed;
      hide Linked;
      SortLinked(cmp, order);
    }

    method SortLinked(cmp: (Item, Item) -> int, ghost order: seq<Item>)
      requires head != null && Order != [] && Linked(Order, head, tail) && SameItems(Indexed, Order)
      requires |Order| < 0x1_0000_0000 && StableSorting.PreorderOn(cmp, Indexed)
      requires order == StableSorting.StableSort(cmp, Order)
      modifies this`head, this`tail, this`Order, Order`next, Order`prev
      ensures Order == order && head != null && Linked(Order, head, tail)
    {
      hide StableSorting.StableSort;
      assert forall x :: x in Indexed ==> x in Order;
      var head', tail';
      ghost var sorted;
      head', tail', sorted := AppOrder.Sort(cmp, head, Order, Indexed);
      head, tail, Order := head', tail', order;
    }

    /* ---- HASH_FSCK ---- */

    /** The items on the chains. */
    ghost function OnChains(): (r: set<Item>)
      reads this`Chains
      ensures forall b, x :: 0 <= b < |Chains| && x in Chains[b] ==> x in r
    {
      set b, x | 0 <= b < |Chains| && x in Chains[b] :: x
    }

    /** The lists HASH_FSCK follows, from the heads of the buckets and the head of the table, come to an end. */
    ghost predicate Followed()
      reads this, buckets, Order`next, OnChains()`hhNext
    {
      && (head == null <==> Order == []) && ListForward(head, Order)
      && (head != null ==> |Chains| == buckets.Length)
      && (head != null ==>
            forall b {:trigger Chains[b]} :: 0 <= b < |Chains| ==> Forward(buckets[b].hhHead, Chains[b]))
    }

    /** What HASH_FSCK checks: the backward links and counts of all chains, the backward links of the app-order list,
        and that both ways there are as many items as the table says. */
    ghost predicate Sound()
      reads this, buckets, Order`prev, OnChains()`hhPrev
    {
      head != null ==>
        && (forall b {:trigger Chains[b]} ::
              0 <= b < |Chains| ==> b < buckets.Length && ChainSound(buckets[b], Chains[b]))
        && TotalLength(Chains) == numItems && ListBackward(Order) && |Order| == numItems
    }

    /** HASH_FSCK, with `false` where it would report and exit: it finds nothing wrong if and only if what it checks is
        right. */
    method Fsck() returns (ok: bool)
      requires Followed()
      ensures ok <==> Sound()
    {
      if head == null {
        return true;
      }
      var i, count := 0, 0;
      while i < buckets.Length
        invariant i <= buckets.Length && count == TotalLength(Chains[..i])
        invariant forall b {:trigger Chains[b]} :: 0 <= b < i ==> ChainSound(buckets[b], Chains[b])
      {
        var bktCount;
        ok, bktCount := FsckBucket(buckets[i], Chains[i]);
        if !ok {
          return;
        }
        count := count + bktCount;
        assert Chains[..i + 1] == Chains[..i] + [Chains[i]];
        TotalLengthSnoc(Chains[..i], Chains[i]);
        i := i + 1;
      }
      assert Chains[..i] == Chains;
      if count != numItems {
        return false;
      }
      ok, count := FsckList(head, Order);
      if !ok {
        return;
      }
      ok := count == numItems;
    }

    /** A valid table passes. */
    lemma ValidIsSound()
      requires Valid()
      ensures Followed() && Sound()
    {
      if head != null {
        forall b | 0 <= b < |Chains|
          ensures Forward(buckets[b].hhHead, Chains[b]) && ChainSound(buckets[b], Chains[b])
        {
          assert buckets[b] == buckets[..][b] && Inside(Chains[b], Indexed) && ChainOk(buckets[..][b], Chains[b]);
        }
        TotalIsCard(buckets[..], Chains, Indexed);
        DistinctCard(Order, Indexed);
        assert forall j {:trigger Order[j].prev} {:trigger Order[j].next} :: 0 <= j < |Order| ==>
                 Order[j].prev == At(Order, j - 1) && Order[j].next == At(Order, j + 1);
      }
    }
  }

  /* ---- Runs of the page index ---- */

  /** The calls hemem.c makes on its index: add_page, find_page and remove_page. */
  datatype Op = AddPage(item: Item, va: nat) | FindPage(va: nat) | RemovePage(item: Item, va: nat)

  /** What the callers promise: add_page asserts that the address is new, and remove_page is handed an indexed page. */
  ghost predicate Promised(m: map<nat, Item>, op: Op) {
    match op
    case AddPage(item, va) => va !in m && item !in m.Values
    case FindPage(_) => true
    case RemovePage(item, va) => va in m && m[va] == item
  }

  ghost predicate Allowed(m: map<nat, Item>, ops: seq<Op>)
    decreases |ops|
  {
    ops == [] || (Promised(m, ops[0]) && Allowed(Effect(m, ops[0]), ops[1..]))
  }

  /** The finite map after one call. */
  ghost function Effect(m: map<nat, Item>, op: Op): map<nat, Item> {
    match op
    case AddPage(item, va) => m[va := item]
    case FindPage(_) => m
    case RemovePage(_, va) => m - {va}
  }

  ghost function Final(m: map<nat, Item>, ops: seq<Op>): map<nat, Item>
    decreases |ops|
  {
    if ops == [] then m else Final(Effect(m, ops[0]), ops[1..])
  }

  /** What the finite map answers to the find_page calls of the run. */
  ghost function Answers(m: map<nat, Item>, ops: seq<Op>): seq<Item?>
    decreases |ops|
  {
    if ops == [] then [] else Answer(m, ops[0]) + Answers(Effect(m, ops[0]), ops[1..])
  }

  ghost function Answer(m: map<nat, Item>, op: Op): seq<Item?> {
    if op.FindPage? then [if op.va in m then m[op.va] else null] else []
  }

  /** The assignment to page->va before add_page: the item is not in the table, so it may have had any key before. */
  method SetKey(t: Table, item: Item, va: nat)
    requires t.Valid() && item !in t.Map.Values
    modifies item`key
    ensures t.Valid() && item.key == va && item !in t.Order
  {
    assert forall x :: x in t.Order ==> t.Map[x.key] == x && x in t.Map.Values;
    hide Linked;
    item.key := va;
  }

  /** One call on the table. */
  method Step(t: Table, op: Op, ghost pool: set<Item>) returns (out: seq<Item?>)
    requires t.Valid() && Promised(t.Map, op) && (forall x :: x in t.Order ==> x in pool)
    requires !op.FindPage? ==> op.item in pool
    modifies t, t.buckets, pool`key, pool`hashv, pool`prev, pool`next, pool`hhPrev, pool`hhNext
    ensures t.Valid() && t.Map == Effect(old(t.Map), op) && (forall x :: x in t.Order ==> x in pool)
    ensures out == Answer(old(t.Map), op)
    ensures t.buckets == old(t.buckets) || fresh(t.buckets)
  {
    out := [];
    match op
    case AddPage(item, va) =>
      SetKey(t, item, va);
      var p := t.Find(va);
      assert p == null;
      t.Add(item);
    case FindPage(va) =>
      var p := t.Find(va);
      out := [p];
    case RemovePage(item, va) =>
      t.Delete(item);
  }

  /** Every run of add_page, find_page and remove_page, through doublings, through freeing the table and making it
      again, and with items added again under other addresses, answers as the finite map does and ends in it. */
  method Run(t: Table, ops: seq<Op>, ghost pool: set<Item>) returns (found: seq<Item?>)
    requires t.Valid() && Allowed(t.Map, ops) && (forall x :: x in t.Order ==> x in pool)
    requires forall i :: 0 <= i < |ops| && !ops[i].FindPage? ==> ops[i].item in pool
    modifies t, t.buckets, pool`key, pool`hashv, pool`prev, pool`next, pool`hhPrev, pool`hhNext
    ensures t.Valid() && t.Map == Final(old(t.Map), ops)
    ensures found == Answers(old(t.Map), ops)
  {
    found := [];
    var i := 0;
    while i < |ops|
      invariant i <= |ops| && t.Valid() && (forall x :: x in t.Order ==> x in pool)
      invariant t.buckets == old(t.buckets) || fresh(t.buckets)
      invariant Allowed(t.Map, ops[i..])
      invariant Final(t.Map, ops[i..]) == Final(old(t.Map), ops)
      invariant found + Answers(t.Map, ops[i..]) == Answers(old(t.Map), ops)
    {
      hide Allowed;
      hide Final;
      hide Answers;
      OneMore(t.Map, ops, i);
      ghost var m, before := t.Map, found;
      var out := Step(t, ops[i], pool);
      found := found + out;
      i := i + 1;
      Assoc(before, out, Answers(t.Map, ops[i..]));
    }
  }

  lemma OneMore(m: map<nat, Item>, ops: seq<Op>, i: nat)
    requires i < |ops| && Allowed(m, ops[i..])
    ensures Promised(m, ops[i]) && Allowed(Effect(m, ops[i]), ops[i + 1..])
    ensures Final(m, ops[i..]) == Final(Effect(m, ops[i]), ops[i + 1..])
    ensures Answers(m, ops[i..]) == Answer(m, ops[i]) + Answers(Effect(m, ops[i]), ops[i + 1..])
  {
    assert ops[i..][0] == ops[i] && ops[i..][1..] == ops[i + 1..];
  }

  /** c is the least chain length with which 2^log2 buckets can hold the items. */
  ghost predicate LeastChain(c: nat, items: nat, log2: nat) {
    items <= c * Pow2(log2) && forall m: nat :: items <= m * Pow2(log2) ==> c <= m
  }

  /** The ideal chain length after doubling, as the macro computes it. */
  function IdealChain(numItems: nat, log2: nat, numBuckets: nat): (c: nat)
    requires numBuckets == Pow2(log2)
    ensures LeastChain(c, numItems, log2 + 1)
  {
    ShiftCeilIsCeil(numItems, log2 + 1);
    Shr(numItems, log2 + 1) + (if BitAnd(numItems, numBuckets * 2 - 1) != 0 then 1 else 0)
  }

  function InitialNumBuckets(): (n: nat)
    ensures n == Pow2(INITIAL_LOG2)
  {
    assert Pow2(7) == 128;
    assert Pow2(14) == 16384;
    assert Pow2(21) == 2097152;
    2097152
  }
}
