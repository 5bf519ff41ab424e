/** The intrusive page queues of fifo.c.  A page descriptor carries the two links and the
    back-pointer of the one queue it may be on, so all queues share one pool of nodes. */
module Fifo {

  /** struct hemem_page, without its hash handle and its lock. */
  class Page {
    var va: nat
    var devdaxOffset: nat
    var inDram: bool
    var migrating: bool
    var present: bool
    var migrationsUp: nat
    var migrationsDown: nat
    var next: Page?
    var prev: Page?
    var list: FifoList?

    /** calloc followed by the assignments pebs_init makes. */
    constructor (offset: nat, dram: bool)
      ensures devdaxOffset == offset && inDram == dram && !present && !migrating
      ensures va == migrationsUp == migrationsDown == 0
      ensures next == null && prev == null && list == null
    {
      va, devdaxOffset, inDram, migrating, present := 0, offset, dram, false, false;
      migrationsUp, migrationsDown := 0, 0;
      next, prev, list := null, null, null;
    }
  }

  /** struct fifo_list: entries enter at `first` and leave at `last`. */
  class FifoList {
    var first: Page?
    var last: Page?
    var numentries: nat
    ghost var Contents: seq<Page>  // in dequeue order: Contents[0] is `last`

    ghost predicate Valid()
      reads this, Contents`next, Contents`prev, Contents`list
    {
      && numentries == |Contents|
      && (Contents == [] ==> first == null && last == null)
      && (Contents != [] ==>
            && last == Contents[0] && first == Contents[|Contents| - 1]
            && Contents[0].next == null && Contents[|Contents| - 1].prev == null)
      && (forall i {:trigger Contents[i].list} :: 0 <= i < |Contents| ==> Contents[i].list == this)
      && (forall i {:trigger Contents[i].prev} :: 0 <= i < |Contents| - 1 ==> Contents[i].prev == Contents[i + 1])
      && (forall i {:trigger Contents[i].next} :: 0 < i < |Contents| ==> Contents[i].next == Contents[i - 1])
      && (forall i, j :: 0 <= i < j < |Contents| ==> Contents[i] != Contents[j])
    }

    lemma Backed()
      requires Valid()
      ensures forall p :: p in Contents ==> p.list == this
    {
    }

    /** A queue none of whose nodes had a link or back-pointer changed is still well formed. */
    twostate lemma Kept()
      requires old(Valid()) && unchanged(this)
      requires forall i {:trigger Contents[i].next} :: 0 <= i < |Contents| ==> Contents[i].next == old(Contents[i].next)
      requires forall i {:trigger Contents[i].prev} :: 0 <= i < |Contents| ==> Contents[i].prev == old(Contents[i].prev)
      requires forall i {:trigger Contents[i].list} :: 0 <= i < |Contents| ==> Contents[i].list == this
      ensures Valid()
    {
    }

    /** Splicing out node k by redirecting its two neighbours leaves a well-formed queue. */
    twostate lemma Spliced(k: nat)
      requires old(Valid()) && k < |old(Contents)|
      requires Contents == old(Contents)[..k] + old(Contents)[k + 1..] && numentries == |Contents|
      requires first == (if k + 1 == |old(Contents)| then old(Contents[k].next) else old(first))
      requires last == (if k == 0 then old(Contents[k].prev) else old(last))
      requires forall i {:trigger old(Contents)[i].list} :: 0 <= i < |old(Contents)| && i != k ==>
                 old(Contents)[i].list == this
      requires forall i {:trigger old(Contents)[i].next} :: 0 <= i < |old(Contents)| && i != k ==>
                 old(Contents)[i].next == (if i == k + 1 then old(Contents[k].next) else old(Contents[i].next))
      requires forall i {:trigger old(Contents)[i].prev} :: 0 <= i < |old(Contents)| && i != k ==>
                 old(Contents)[i].prev == (if i + 1 == k then old(Contents[k].prev) else old(Contents[i].prev))
      ensures Valid()
    {
      var C := old(Contents);
      assert forall i {:trigger Contents[i]} :: 0 <= i < k ==> Contents[i] == C[i];
      assert forall i {:trigger Contents[i]} :: k <= i < |Contents| ==> Contents[i] == C[i + 1];
    }

    constructor ()
      ensures Valid() && Contents == []
    {
      first, last, numentries, Contents := null, null, 0, [];
    }

    /** enqueue_fifo.  Every other well-formed queue keeps its contents and its links. */
    method Enqueue(entry: Page)
      requires Valid() && entry.list == null && entry.prev == null
      modifies this, entry`next, entry`prev, entry`list, Contents`prev
      ensures Valid() && Contents == old(Contents) + [entry]
      ensures forall q: FifoList {:trigger q.Valid()} ::
                old(allocated(q)) && q != this && old(q.Valid()) ==> q.Valid() && q.Contents == old(q.Contents)
    {
      entry.next := first;
      if first != null {
        assert first.prev == null;
        first.prev := entry;
      } else {
        assert last == null && numentries == 0;
        last := entry;
      }
      first := entry;
      entry.list := this;
      numentries := numentries + 1;
      Contents := Contents + [entry];
      forall q: FifoList | old(allocated(q)) && q != this && old(q.Valid())
        ensures q.Valid() && q.Contents == old(q.Contents)
      {
        assert forall i {:trigger q.Contents[i]} :: 0 <= i < |q.Contents| ==> old(q.Contents[i].list) == q;
        q.Kept();
      }
    }

    /** dequeue_fifo. */
    method Dequeue() returns (ret: Page?)
      requires Valid()
      modifies this, Contents`next, Contents`prev, Contents`list
      ensures Valid()
      ensures old(Contents) == [] ==> ret == null && Contents == []
      ensures old(Contents) != [] ==>
                && ret == old(Contents)[0] && Contents == old(Contents)[1..]
                && ret.next == null && ret.prev == null && ret.list == null
      ensures forall q: FifoList {:trigger q.Valid()} ::
                old(allocated(q)) && q != this && old(q.Valid()) ==> q.Valid() && q.Contents == old(q.Contents)
    {
      ret := last;
      if ret == null {
        return;
      }
      assert ret.prev == (if |Contents| == 1 then null else Contents[1]);
      last := ret.prev;
      if last != null {
        last.next := null;
      } else {
        first := null;
      }
      ret.prev, ret.next := null, null;
      ret.list := null;
      assert numentries > 0;
      numentries := numentries - 1;
      Contents := Contents[1..];
      assert forall i {:trigger Contents[i]} :: 0 <= i < |Contents| ==> Contents[i] == old(Contents)[i + 1];
      forall q: FifoList | old(allocated(q)) && q != this && old(q.Valid())
        ensures q.Valid() && q.Contents == old(q.Contents)
      {
        assert forall i {:trigger q.Contents[i]} :: 0 <= i < |q.Contents| ==> old(q.Contents[i].list) == q;
        q.Kept();
      }
    }

    /** page_list_remove_page: the page may stand anywhere on the list. */
    method Remove(page: Page)
      requires Valid() && (Contents != [] ==> page in Contents)
      modifies this, Contents`next, Contents`prev, Contents`list
      ensures Valid()
      ensures old(Contents) == [] ==> Contents == []
      ensures forall k :: 0 <= k < |old(Contents)| && old(Contents)[k] == page ==>
                Contents == old(Contents)[..k] + old(Contents)[k + 1..]
      ensures old(Contents) != [] ==> page.next == null && page.prev == null && page.list == null
      ensures forall q: FifoList {:trigger q.Valid()} ::
                old(allocated(q)) && q != this && old(q.Valid()) ==> q.Valid() && q.Contents == old(q.Contents)
    {
      if first == null {
        assert last == null && numentries == 0;
        return;
      }
      ghost var k :| 0 <= k < |Contents| && Contents[k] == page;
      Unlink(page, k);
      forall q: FifoList | old(allocated(q)) && q != this && old(q.Valid())
        ensures q.Valid() && q.Contents == old(q.Contents)
      {
        assert forall i {:trigger q.Contents[i]} :: 0 <= i < |q.Contents| ==> old(q.Contents[i].list) == q;
        q.Kept();
      }
    }

    /** The removal proper, for a page known to stand at position k of a non-empty list. */
    method Unlink(page: Page, ghost k: nat)
      requires Valid() && k < |Contents| && Contents[k] == page
      modifies this, Contents`next, Contents`prev, Contents`list
      ensures Valid() && Contents == old(Contents)[..k] + old(Contents)[k + 1..]
      ensures page.next == null && page.prev == null && page.list == null
    {
      assert page.next == (if k == 0 then null else Contents[k - 1]);
      assert page.prev == (if k + 1 == |Contents| then null else Contents[k + 1]);
      if first == page {
        first := page.next;
      }
      if last == page {
        last := page.prev;
      }
      if page.next != null {
        page.next.prev := page.prev;
      }
      if page.prev != null {
        page.prev.next := page.next;
      }
      assert numentries > 0;
      numentries := numentries - 1;
      page.next := null;
      page.prev := null;
      page.list := null;
      Contents := Contents[..k] + Contents[k + 1..];
      Spliced(k);
    }

    /** next_page: the walk starts at `last` and follows `prev`. */
    method NextPage(page: Page?) returns (nextPage: Page?)
      requires Valid() && (page != null ==> page in Contents)
      ensures page == null ==> nextPage == (if Contents == [] then null else Contents[0])
      ensures forall k {:trigger Contents[k]} :: 0 <= k < |Contents| && Contents[k] == page ==>
                nextPage == (if k + 1 == |Contents| then null else Contents[k + 1])
    {
      if page == null {
        nextPage := last;
      } else {
        nextPage := page.prev;
        assert page.list == this;
      }
    }

    /** Repeated next_page visits every page once, in dequeue order, and then reports the end. */
    method Walk() returns (visited: seq<Page>)
      requires Valid()
      ensures visited == Contents
    {
      visited := [];
      var page := NextPage(null);
      while page != null
        invariant |visited| <= |Contents| && visited == Contents[..|visited|]
        invariant page == (if |visited| == |Contents| then null else Contents[|visited|])
        decreases |Contents| - |visited|
      {
        ghost var k := |visited|;
        assert Contents[k] == page;
        visited := visited + [page];
        page := NextPage(page);
        assert page == (if k + 1 == |Contents| then null else Contents[k + 1]);
      }
    }
  }
}
