/** What several modules share: the machine word, the frames of the two devices, sequences without repetition, and sums
    over threads. */
module Basics {

  const WORD: nat := 0x1_0000_0000_0000_0000

  /** A frame of DRAM or NVM, by its offset in the device. */
  datatype Frame = Frame(dram: bool, offset: nat)

  function Min(a: int, b: int): int { if a < b then a else b }

  lemma SmallMod(p: nat, e: nat)
    requires p < e
    ensures p % e == p
  {
  }

  ghost predicate NoRepeats<P>(s: seq<P>) {
    forall i, j :: 0 <= i < j < |s| ==> s[i] != s[j]
  }

  lemma Assoc<T>(a: seq<T>, b: seq<T>, c: seq<T>)
    ensures a + b + c == a + (b + c)
  {
  }

  lemma SameElements<T>(s: seq<T>, t: seq<T>)
    requires multiset(s) == multiset(t)
    ensures forall x :: x in s ==> x in t
    ensures forall x :: x in t ==> x in s
  {
    forall x | x in s ensures x in t {
      assert x in multiset(s);
    }
    forall x | x in t ensures x in s {
      assert x in multiset(t);
    }
  }

  lemma FirstOf<T(!new)>(s: seq<T>)
    requires s != [] && NoRepeats(s)
    ensures NoRepeats(s[1..]) && s[0] !in s[1..] && forall x :: x in s <==> x == s[0] || x in s[1..]
  {
    assert s == [s[0]] + s[1..];
  }

  lemma {:induction false} Pigeons<T(!new)>(s: seq<T>, holes: set<T>)
    requires NoRepeats(s) && forall p :: p in s ==> p in holes
    ensures |s| <= |holes|
    decreases |s|
  {
    if s == [] {
    } else {
      FirstOf(s);
      Pigeons(s[1..], holes - {s[0]});
    }
  }

  ghost function Elements<T>(s: seq<T>): set<T> { set x | x in s }

  lemma {:induction false} FewElements<T>(s: seq<T>)
    ensures |Elements(s)| <= |s|
  {
    if s == [] {
    } else {
      assert s == [s[0]] + s[1..];
      assert Elements(s) == Elements(s[1..]) + {s[0]};
      FewElements(s[1..]);
    }
  }

  ghost function Sum<T>(s: seq<T>, w: T -> int): int {
    if s == [] then 0 else w(s[0]) + Sum(s[1..], w)
  }

  lemma {:induction false} SumSame<T>(a: seq<T>, v: T -> int, b: seq<T>, w: T -> int)
    requires |a| == |b| && forall i :: 0 <= i < |a| ==> v(a[i]) == w(b[i])
    ensures Sum(a, v) == Sum(b, w)
  {
    if a == [] {
    } else {
      SumSame(a[1..], v, b[1..], w);
    }
  }

  /** Two sums that differ at one place. */
  lemma {:induction false} SumDiffers<T>(a: seq<T>, v: T -> int, b: seq<T>, w: T -> int, c: nat)
    requires c < |a| == |b| && forall i :: 0 <= i < |a| && i != c ==> v(a[i]) == w(b[i])
    ensures Sum(b, w) - w(b[c]) == Sum(a, v) - v(a[c])
    decreases c
  {
    if c == 0 {
      SumSame(a[1..], v, b[1..], w);
    } else {
      SumDiffers(a[1..], v, b[1..], w, c - 1);
    }
  }

  /** When one element changes, the sum changes by what that element contributes. */
  lemma {:induction false} SumUpdate<T>(s: seq<T>, w: T -> int, i: nat, x: T)
    requires i < |s|
    ensures Sum(s[i := x], w) == Sum(s, w) - w(s[i]) + w(x)
    decreases i
  {
    if i == 0 {
    } else {
      assert s[i := x][1..] == s[1..][i - 1 := x];
      SumUpdate(s[1..], w, i - 1, x);
    }
  }
}
