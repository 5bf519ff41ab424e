/** Mapping and unmapping a range: the populate loop, the skipping scan of munmap, and the rounding of lengths. */
module AddressSpace {
  import opened Basics
  import opened Bits

  const PAGE_SIZE := 0x20_0000      // HUGEPAGE_SIZE
  const BASEPAGE_SIZE := 0x1000

  /* ---- PAGE_ROUND_UP ---- */

  /** x & ~m on 64 bits. */
  function AndNot(x: nat, m: nat): (r: nat) { x - BitAnd(x, m) }

  /** PAGE_ROUND_UP, with the wrap-around of the 64-bit addition. */
  function RoundUp(x: nat): nat { AndNot((x + PAGE_SIZE - 1) % WORD, PAGE_SIZE - 1) }

  /** The sizes as hemem.h has them: pages of 2^21 bytes, base pages of 2^12, and 64-bit addresses. */
  lemma PageSizeIsPower()
    ensures Pow2(21) == PAGE_SIZE && Pow2(12) == BASEPAGE_SIZE
  {
    assert Pow2(7) == 128;
    assert Pow2(14) == 16384;
  }

  lemma WordIsPower()
    ensures Pow2(64) == WORD
  {
    assert Pow2(8) == 0x100;
    assert Pow2(16) == 0x1_0000;
    assert Pow2(24) == 0x100_0000;
    assert Pow2(32) == 0x1_0000_0000;
    assert Pow2(40) == 0x100_0000_0000;
    assert Pow2(48) == 0x1_0000_0000_0000;
    assert Pow2(56) == 0x100_0000_0000_0000;
  }

  lemma RoundUpIsDivision(x: nat)
    ensures var y := (x + PAGE_SIZE - 1) % WORD; RoundUp(x) == y - y % PAGE_SIZE
  {
    hide Pow2;
    PageSizeIsPower();
    MaskIsMod((x + PAGE_SIZE - 1) % WORD, 21);
  }

  /** Up to the last page of the address space the rounded length is the least multiple of the page size that is not
      below the length; beyond it wraps to zero. */
  lemma RoundUpIsLeast(x: nat)
    requires x < WORD
    ensures x <= WORD - PAGE_SIZE ==>
              && RoundUp(x) % PAGE_SIZE == 0 && x <= RoundUp(x) < x + PAGE_SIZE
              && forall m: nat :: m % PAGE_SIZE == 0 && x <= m ==> RoundUp(x) <= m
    ensures x > WORD - PAGE_SIZE ==> RoundUp(x) == 0
  {
    hide RoundUp;
    RoundUpIsDivision(x);
  }

  /* ---- What the two loops do to the index ---- */

  function Ceil(length: nat): nat { (length + PAGE_SIZE - 1) / PAGE_SIZE }

  /** Page i of a range that starts at addr. */
  function Tile(addr: nat, i: nat): nat { addr + i * PAGE_SIZE }

  /** The index with n pages of the range added. */
  function Tiled(index: map<nat, nat>, addr: nat, n: nat, pages: seq<nat>): map<nat, nat>
    requires n <= |pages|
  {
    if n == 0 then index else Tiled(index, addr, n - 1, pages)[Tile(addr, n - 1) := pages[n - 1]]
  }

  /** The index without the addresses of a range. */
  ghost function Without(index: map<nat, nat>, from: nat, to: nat): map<nat, nat> {
    map va | va in index && !(from <= va < to) :: index[va]
  }

  predicate BaseAligned(a: nat) { a % BASEPAGE_SIZE == 0 }

  /** Indexed addresses start pages. */
  ghost predicate PageAligned(index: map<nat, nat>) {
    forall va :: va in index ==> va % PAGE_SIZE == 0
  }

  ghost predicate Empty(index: map<nat, nat>, from: nat, to: nat) {
    forall va :: va in index ==> !(from <= va < to)
  }

  /** What has been added is just the tiles, each with its page. */
  lemma {:induction false} TiledAt(index: map<nat, nat>, addr: nat, n: nat, pages: seq<nat>, va: nat)
    requires n <= |pages|
    ensures var r := Tiled(index, addr, n, pages);
            && (va in r <==> va in index || exists i {:trigger Tile(addr, i)} :: 0 <= i < n && va == Tile(addr, i))
            && (forall i {:trigger Tile(addr, i)} :: 0 <= i < n ==> Tile(addr, i) in r && r[Tile(addr, i)] == pages[i])
            && (va in index && (forall i {:trigger Tile(addr, i)} :: 0 <= i < n ==> va != Tile(addr, i)) ==>
                  r[va] == index[va])
  {
    if n == 0 {
    } else {
      TiledAt(index, addr, n - 1, pages, va);
    }
  }

  class Space {
    var index: map<nat, nat>

    /** hemem_mmap_populate: one page for every tile.  pages are what pagefault() returns in turn. */
    method Populate(addr: nat, length: nat, pages: seq<nat>) returns (n: nat)
      requires addr != 0 && length != 0 && addr % PAGE_SIZE == 0 && addr + length + PAGE_SIZE < WORD
      requires |pages| >= Ceil(length) && Empty(index, addr, addr + Ceil(length) * PAGE_SIZE)
      modifies this
      ensures n == Ceil(length) && index == Tiled(old(index), addr, n, pages)
    {
      var boundary := addr;
      n := 0;
      while boundary < addr + length
        invariant n <= Ceil(length) && boundary == Tile(addr, n)
        invariant index == Tiled(old(index), addr, n, pages)
        invariant n > 0 ==> Tile(addr, n - 1) < addr + length
        decreases addr + length - boundary
      {
        assert n < Ceil(length);
        TiledAt(old(index), addr, n, pages, boundary);
        assert boundary !in index;
        index := index[boundary := pages[n]];
        assert boundary != 0 && boundary % PAGE_SIZE == 0;
        boundary := boundary + PAGE_SIZE;
        n := n + 1;
      }
    }

    /** The scan of hemem_munmap: it steps over a page it finds, and over a base page otherwise. */
    method Munmap(addr: nat, length: nat)
      requires addr + length + PAGE_SIZE < WORD && PageAligned(index)
      modifies this
      ensures index == if BaseAligned(addr) then Without(old(index), addr, addr + length) else old(index)
    {
      hide Without;
      hide BaseAligned;
      hide PageAligned;
      var boundary := addr;
      StillThere(index, addr, addr);
      while boundary < addr + length
        invariant addr <= boundary && BaseAligned(boundary) == BaseAligned(addr)
        invariant index == if BaseAligned(addr) then Without(old(index), addr, boundary) else old(index)
        invariant BaseAligned(addr) && boundary > addr + length ==> Empty(old(index), addr + length, boundary)
        decreases addr + length - boundary
      {
        StillThere(old(index), addr, boundary);
        StepsAlign(boundary);
        if boundary in index {
          Found(old(index), boundary);
          NextPage(old(index), addr, boundary, PAGE_SIZE);
          index := index - {boundary};
          boundary := boundary + PAGE_SIZE;
        } else {
          if BaseAligned(addr) {
            NextPage(old(index), addr, boundary, BASEPAGE_SIZE);
          }
          boundary := boundary + BASEPAGE_SIZE;
        }
      }
      if BaseAligned(addr) {
        Overshoot(old(index), addr, addr + length, boundary);
      }
    }

    /** hemem_mmap's populate of the rounded length, and later munmap with the length before rounding: the two loops,
        one after the other, leave the index as it was. */
    method MapAndUnmap(addr: nat, length: nat, pages: seq<nat>)
      requires addr != 0 && length != 0 && addr % PAGE_SIZE == 0 && addr + RoundUp(length) + PAGE_SIZE < WORD
      requires length <= WORD - PAGE_SIZE && |pages| >= Ceil(length)
      requires PageAligned(index) && Empty(index, addr, addr + RoundUp(length))
      modifies this
      ensures index == old(index)
    {
      hide PageAligned;
      hide Tiled;
      hide Without;
      hide RoundUp;
      hide Empty;
      TilesCover(addr, length, addr);
      RoundedBounds(length);
      var n := Populate(addr, RoundUp(length), pages);
      TiledAligned(old(index), addr, n, pages);
      AlignedToBase(addr);
      Munmap(addr, length);
      MunmapUndoesPopulate(old(index), addr, length, pages);
    }
  }

  lemma RoundedBounds(length: nat)
    requires 0 < length <= WORD - PAGE_SIZE
    ensures length <= RoundUp(length) && RoundUp(length) != 0
  {
    RoundUpIsLeast(length);
  }

  lemma AlignedToBase(addr: nat)
    requires addr % PAGE_SIZE == 0
    ensures BaseAligned(addr)
  {
  }

  lemma TileAligned(addr: nat, i: nat)
    requires addr % PAGE_SIZE == 0
    ensures Tile(addr, i) % PAGE_SIZE == 0
  {
  }

  lemma TiledAligned(index: map<nat, nat>, addr: nat, n: nat, pages: seq<nat>)
    requires addr % PAGE_SIZE == 0 && n <= |pages| && PageAligned(index)
    ensures PageAligned(Tiled(index, addr, n, pages))
  {
    hide Tile;
    forall va | va in Tiled(index, addr, n, pages) ensures va % PAGE_SIZE == 0 {
      TiledAt(index, addr, n, pages, va);
      if va !in index {
        var i :| 0 <= i < n && va == Tile(addr, i);
        TileAligned(addr, i);
      }
    }
  }

  lemma StepsAlign(boundary: nat)
    ensures BaseAligned(boundary + PAGE_SIZE) == BaseAligned(boundary + BASEPAGE_SIZE) == BaseAligned(boundary)
  {
  }

  lemma Found(index: map<nat, nat>, boundary: nat)
    requires PageAligned(index) && boundary in index
    ensures boundary % PAGE_SIZE == 0 && BaseAligned(boundary)
  {
  }

  lemma StillThere(index: map<nat, nat>, addr: nat, boundary: nat)
    ensures boundary in Without(index, addr, boundary) <==> boundary in index
    ensures addr == boundary ==> Without(index, addr, boundary) == index
  {
  }

  lemma Overshoot(index: map<nat, nat>, addr: nat, end: nat, boundary: nat)
    requires addr <= end <= boundary && Empty(index, end, boundary)
    ensures Without(index, addr, boundary) == Without(index, addr, end)
  {
  }

  /** No page starts within the step except, perhaps, at its beginning. */
  lemma NextPage(index: map<nat, nat>, addr: nat, boundary: nat, step: nat)
    requires PageAligned(index) && addr <= boundary
    requires (step == PAGE_SIZE && boundary % PAGE_SIZE == 0) || (step == BASEPAGE_SIZE && BaseAligned(boundary))
    ensures Empty(index, boundary + 1, boundary + step)
    ensures Without(index, addr, boundary + step) == Without(index, addr, boundary) - {boundary}
  {
    forall va | va in index ensures !(boundary + 1 <= va < boundary + step) {
      NothingBetween(va / PAGE_SIZE, boundary, step);
      assert va == va / PAGE_SIZE * PAGE_SIZE;
    }
  }

  lemma NothingBetween(q: nat, boundary: nat, step: nat)
    requires (step == PAGE_SIZE && boundary % PAGE_SIZE == 0) || (step == BASEPAGE_SIZE && BaseAligned(boundary))
    ensures !(boundary < q * PAGE_SIZE < boundary + step)
  {
    if step == PAGE_SIZE {
      var b := boundary / PAGE_SIZE;
      assert boundary == b * PAGE_SIZE;
      assert q <= b || q >= b + 1;
    } else {
      var b := boundary / BASEPAGE_SIZE;
      assert boundary == b * BASEPAGE_SIZE;
      assert 512 * q <= b || 512 * q >= b + 1;
    }
  }

  /** munmap takes out just the pages of the range when the range starts on a base page, or when there are none. */
  lemma ScanIsExact(index: map<nat, nat>, addr: nat, length: nat)
    ensures (if BaseAligned(addr) then Without(index, addr, addr + length) else index) ==
            Without(index, addr, addr + length)
            <==> BaseAligned(addr) || Empty(index, addr, addr + length)
  {
    if va :| va in index && addr <= va < addr + length {
      assert va !in Without(index, addr, addr + length);
    } else {
      assert Without(index, addr, addr + length) == index;
    }
  }

  /** Rounding the length does not change the number of pages, and the pages cover the range without overlap. */
  lemma TilesCover(addr: nat, length: nat, a: nat)
    requires 0 < length <= WORD - PAGE_SIZE
    ensures Ceil(RoundUp(length)) == Ceil(length) && Ceil(length) * PAGE_SIZE == RoundUp(length)
    ensures addr <= a < addr + RoundUp(length) ==>
              var i := (a - addr) / PAGE_SIZE; 0 <= i < Ceil(length) && Tile(addr, i) <= a < Tile(addr, i + 1)
  {
    hide RoundUp;
    RoundUpIsDivision(length);
  }

  /** munmap of a populated range, with the length before rounding, gives back the index there was. */
  lemma MunmapUndoesPopulate(index: map<nat, nat>, addr: nat, length: nat, pages: seq<nat>)
    requires 0 < length <= WORD - PAGE_SIZE && Ceil(length) <= |pages|
    requires Empty(index, addr, addr + RoundUp(length))
    ensures Without(Tiled(index, addr, Ceil(length), pages), addr, addr + length) == index
  {
    TilesCover(addr, length, addr);
    RoundUpIsLeast(length);
    var n := Ceil(length);
    var r := Tiled(index, addr, n, pages);
    forall va: nat ensures (va in r && !(addr <= va < addr + length)) <==> va in index {
      TiledAt(index, addr, n, pages, va);
    }
    forall va | va in index ensures r[va] == index[va] {
      TiledAt(index, addr, n, pages, va);
    }
    assert Without(r, addr, addr + length) == index;
  }
}
