/** Requests page by page: a request is as many rounds of taking one page, and a round of a random request turns the
    list first. */
module Requesting {
  import opened Basics
  import Bits
  import opened TierSpec
  import opened Draining

  /* ---- In sequence ---- */

  lemma Head<P>(s: seq<P>)
    requires s != []
    ensures s[..1] == [s[0]] && multiset(s[..1]) + multiset(s[1..]) == multiset(s)
  {
    assert s == s[..1] + s[1..];
  }

  lemma HandedHead<P>(s: State<P>, f: Tier, t: Tier)
    requires WellFormed(s) && s.q[Mmap(f)] != []
    ensures var src, dst := s.q[Mmap(f)], Migrate(f, t);
            var s' := Handed(s, f, t, src[..1], src[1..]);
            && s' == State(s.q[Mmap(f) := src[1..]][dst := s.q[dst] + [src[0]]],
                           s.num[dst := Plus(s.num[dst], 1)][Mmap(f) := Minus(s.num[Mmap(f)], 1)], s.info)
            && WellFormed(s')
  {
    hide WellFormed;
    hide Plus;
    hide Minus;
    var src := s.q[Mmap(f)];
    Head(src);
    HandedKeeps(s, f, t, src[..1], src[1..]);
  }

  lemma RequestedNone<P>(s: State<P>, f: Tier, t: Tier)
    ensures Requested(s, f, t, 0) == s
  {
    SameState(Requested(s, f, t, 0), s);
  }

  lemma RequestedOneMore<P>(s: State<P>, f: Tier, t: Tier, i: nat)
    ensures var r := Requested(s, f, t, i);
            var src := r.q[Mmap(f)];
            (src == [] <==> i >= |s.q[Mmap(f)]|)
            && Requested(s, f, t, i + 1) == if src == [] then r else Handed(r, f, t, src[..1], src[1..])
  {
    var src := s.q[Mmap(f)];
    if i < |src| {
      assert src[i..][1..] == src[i + 1..] && src[..i] + src[i..][..1] == src[..i + 1];
      PlusPlus(s.num[Migrate(f, t)], i, 1);
      MinusMinus(s.num[Mmap(f)], i, 1);
      HandedTwice(s, f, t, src[..i], src[i..], src[i..][..1], src[i + 1..]);
    }
  }

  lemma HandedTwice<P>(s: State<P>, f: Tier, t: Tier, p1: seq<P>, r1: seq<P>, p2: seq<P>, r2: seq<P>)
    ensures Handed(Handed(s, f, t, p1, r1), f, t, p2, r2) == Handed(s, f, t, p1 + p2, r2)
  {
    hide Plus;
    hide Minus;
    var a, b := Handed(Handed(s, f, t, p1, r1), f, t, p2, r2), Handed(s, f, t, p1 + p2, r2);
    PlusPlus(s.num[Migrate(f, t)], |p1|, |p2|);
    MinusMinus(s.num[Mmap(f)], |p1|, |p2|);
    assert s.q[Migrate(f, t)] + p1 + p2 == s.q[Migrate(f, t)] + (p1 + p2);
    forall k: QueueId ensures a.num[k] == b.num[k] && a.q[k] == b.q[k] {
      if k == Migrate(f, t) {
      } else if k == Mmap(f) {
      }
    }
    assert a.num == b.num;
    SameState(a, b);
  }

  /* ---- At random ---- */

  /** s after n pages have gone from its front to its end. */
  function Turned<P>(s: seq<P>, n: nat): (r: seq<P>)
    ensures |r| == |s| && multiset(r) == multiset(s)
  {
    if s == [] then s
    else
      var c := n % |s|;
      assert s == s[..c] + s[c..];
      s[c..] + s[..c]
  }

  lemma TurnedNone<P>(s: seq<P>)
    ensures Turned(s, 0) == s
  {
  }

  lemma TurnedOneMore<P>(s: seq<P>, n: nat)
    requires s != []
    ensures var r := Turned(s, n); r[1..] + [r[0]] == Turned(s, n + 1)
  {
    var c := n % |s|;
    NextTurn(n, |s|);
    if c + 1 == |s| {
      assert s[c..] + s[..c] == [s[c]] + s[..c];
    } else {
      assert (s[c..] + s[..c])[1..] + [s[c]] == s[c + 1..] + s[..c + 1];
    }
  }

  lemma NextTurn(n: nat, len: nat)
    requires len > 0
    ensures (n + 1) % len == if n % len + 1 == len then 0 else n % len + 1
  {
    var q, r := Bits.Euclid(n, len);
    if r + 1 == len {
      assert n + 1 == len * (q + 1) + 0;
      Bits.DivMod(n + 1, len, q + 1, 0);
    } else {
      Bits.DivMod(n + 1, len, q, r + 1);
    }
  }

  lemma TurnedKeeps<P>(s: State<P>, k: QueueId, n: nat)
    requires WellFormed(s)
    ensures WellFormed(s.(q := s.q[k := Turned(s.q[k], n)])) &&
            (s.q[k] == [] ==> s.(q := s.q[k := Turned(s.q[k], n)]) == s)
  {
    hide Total;
    hide Turned;
    var r := Turned(s.q[k], n);
    Rearranged(s.q, k, r);
    forall p | p in r ensures p in s.q[k] {
      assert p in multiset(r);
    }
    if s.q[k] == [] {
      assert r == [] && s.q[k := r] == s.q;
    }
  }

  /** One round of a random request. */
  lemma RandomRound<P>(s: State<P>, f: Tier, t: Tier, rands: seq<nat>)
    requires rands != [] && Survives(|s.q[Mmap(f)]|, s.num[Mmap(f)], rands)
    ensures 0 < s.num[Mmap(f)] && (s.q[Mmap(f)] == [] ==> rands[0] % s.num[Mmap(f)] == 0)
    ensures var src := s.q[Mmap(f)];
            var turned := Turned(src, rands[0] % s.num[Mmap(f)]);
            var s' := if src == [] then s else Handed(s.(q := s.q[Mmap(f) := turned]), f, t, turned[..1], turned[1..]);
            && |s'.q[Mmap(f)]| == (if src == [] then 0 else |src| - 1)
            && Survives(|s'.q[Mmap(f)]|, s'.num[Mmap(f)], rands[1..])
            && RandomRequested(s', f, t, rands[1..]) == RandomRequested(s, f, t, rands)
  {
    hide Picks;
    hide Handed;
    hide Minus;
    hide Turned;
    var src := s.q[Mmap(f)];
    PicksRound(src, s.num[Mmap(f)], rands);
    if src != [] {
      var turned := Turned(src, rands[0] % s.num[Mmap(f)]);
      var r := Picks(turned[1..], s.num[Mmap(f)] - 1, rands[1..]);
      var s1 := s.(q := s.q[Mmap(f) := turned]);
      HandedMmap(s1, f, t, turned[..1], turned[1..]);
      HandedTwice(s1, f, t, turned[..1], turned[1..], r.0, r.1);
      HandedTurned(s, f, t, turned, turned[..1] + r.0, r.1);
    }
  }

  lemma HandedMmap<P>(s: State<P>, f: Tier, t: Tier, picked: seq<P>, rest: seq<P>)
    ensures var s' := Handed(s, f, t, picked, rest);
            s'.q[Mmap(f)] == rest && (|picked| <= s.num[Mmap(f)] ==> s'.num[Mmap(f)] == s.num[Mmap(f)] - |picked|)
  {
  }

  lemma PicksRound<P>(s: seq<P>, num: nat, rands: seq<nat>)
    requires rands != [] && Survives(|s|, num, rands)
    ensures num > 0 && (s == [] ==> rands[0] % num == 0)
    ensures s == [] ==> Survives(0, num, rands[1..]) && Picks(s, num, rands) == Picks(s, num, rands[1..])
    ensures s != [] ==>
              var turned := Turned(s, rands[0] % num);
              && Survives(|turned| - 1, num - 1, rands[1..])
              && var r := Picks(turned[1..], num - 1, rands[1..]);
              Picks(s, num, rands) == (turned[..1] + r.0, r.1)
  {
    hide Turned;
    hide Picks;
    hide Survives;
    PicksNext(s, num, rands);
    if s != [] {
      TurnedParts(s, rands[0] % num);
    }
  }

  lemma PicksNext<P>(s: seq<P>, num: nat, rands: seq<nat>)
    requires rands != [] && Survives(|s|, num, rands)
    ensures num > 0 && (s == [] ==> rands[0] % num == 0)
    ensures s == [] ==> Survives(0, num, rands[1..]) && Picks(s, num, rands) == Picks(s, num, rands[1..])
    ensures s != [] ==>
              var c := rands[0] % num % |s|;
              && Survives(|s| - 1, num - 1, rands[1..])
              && var r := Picks(s[c + 1..] + s[..c], num - 1, rands[1..]);
              Picks(s, num, rands) == ([s[c]] + r.0, r.1)
  {
  }

  lemma TurnedParts<P>(s: seq<P>, n: nat)
    requires s != []
    ensures var c := n % |s|; Turned(s, n)[..1] == [s[c]] && Turned(s, n)[1..] == s[c + 1..] + s[..c]
  {
    var c := n % |s|;
    assert (s[c..] + s[..c])[1..] == s[c + 1..] + s[..c];
  }

  lemma HandedTurned<P>(s: State<P>, f: Tier, t: Tier, turned: seq<P>, picked: seq<P>, rest: seq<P>)
    ensures Handed(s.(q := s.q[Mmap(f) := turned]), f, t, picked, rest) == Handed(s, f, t, picked, rest)
  {
    SameState(Handed(s.(q := s.q[Mmap(f) := turned]), f, t, picked, rest), Handed(s, f, t, picked, rest));
  }

  lemma RandomNone<P>(s: State<P>, f: Tier, t: Tier)
    ensures RandomRequested(s, f, t, []) == s
  {
    SameState(RandomRequested(s, f, t, []), s);
  }

  function Zeros(n: nat): (r: seq<nat>)
    ensures |r| == n && forall i :: 0 <= i < n ==> r[i] == 0
  {
    seq(n, (i: nat) => 0)
  }

  /** One round of a random request, which picks the page at place c. */
  lemma OneRound<P>(s: seq<P>, num: nat, rands: seq<nat>, c: nat)
    requires rands != [] && num > 0 && s != [] && rands[0] % num % |s| == c && Survives(|s| - 1, num - 1, rands[1..])
    ensures Survives(|s|, num, rands) && c < |s|
    ensures var r := Picks(s[c + 1..] + s[..c], num - 1, rands[1..]); Picks(s, num, rands) == ([s[c]] + r.0, r.1)
  {
  }

  lemma NoRound<P>(s: seq<P>, num: nat)
    ensures Survives(|s|, num, []) && Picks(s, num, []) == ([], s)
  {
  }

  /** A number that is c after whole multiples of the counter, and then of the length, picks the page at place c, and
      leaves the list turned to the page after it. */
  lemma PickAt<P>(s: seq<P>, num: nat, rand: nat, h: nat, k: nat, c: nat)
    requires c < |s| && |s| * k + c < num && rand == num * h + (|s| * k + c)
    ensures Survives(|s|, num, [rand]) && Picks(s, num, [rand]) == ([s[c]], s[c + 1..] + s[..c])
  {
    hide Picks;
    hide Survives;
    Bits.DivMod(rand, num, h, |s| * k + c);
    Bits.DivMod(|s| * k + c, |s|, k, c);
    assert [rand][1..] == [];
    NoRound(s[c + 1..] + s[..c], num - 1);
    OneRound(s, num, [rand], c);
    assert [s[c]] + [] == [s[c]];
  }

  /** A random request that draws nothing but zeros is a request in sequence. */
  lemma {:induction false} ZerosInSequence<P>(s: seq<P>, num: nat, n: nat)
    requires n <= Min(num, |s|)
    ensures Survives(|s|, num, Zeros(n)) && Picks(s, num, Zeros(n)) == (s[..n], s[n..])
    decreases n
  {
    hide Picks;
    hide Survives;
    if n == 0 {
      NoRound(s, num);
    } else {
      assert Zeros(n)[1..] == Zeros(n - 1);
      assert s[1..] + s[..0] == s[1..];
      ZerosInSequence(s[1..], num - 1, n - 1);
      SmallMod(0, num);
      SmallMod(0, |s|);
      OneRound(s, num, Zeros(n), 0);
      assert [s[0]] + s[1..][..n - 1] == s[..n] && s[1..][n - 1..] == s[n..];
    }
  }

  lemma RandomIsSequence<P>(s: State<P>, f: Tier, t: Tier, n: nat)
    requires n <= Min(s.num[Mmap(f)], |s.q[Mmap(f)]|)
    ensures Survives(|s.q[Mmap(f)]|, s.num[Mmap(f)], Zeros(n))
    ensures RandomRequested(s, f, t, Zeros(n)) == Requested(s, f, t, n)
  {
    ZerosInSequence(s.q[Mmap(f)], s.num[Mmap(f)], n);
  }
}
