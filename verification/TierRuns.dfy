/** Runs of the tier manager from pebs_init on: present pages keep addresses of their own as long as nothing is
    unmapped; and runs on which the code goes wrong. */
module TierRuns {
  import opened Basics
  import Bits
  import opened TierSpec
  import opened TierProtocol
  import opened TierLedger
  import opened Undisturbed

  /* ---- Addresses of present pages ---- */

  /** The index has every present page under its address. */
  ghost predicate AllIndexed(s: System) {
    forall p {:trigger s.desc[p].va} :: p in s.desc && s.desc[p].present ==>
      s.desc[p].va in s.index && s.index[s.desc[p].va] == p
  }

  /** A present page after a step was one before, at the same address, unless the step has mapped it. */
  lemma PresentStep(s: System, a: Action, p: nat)
    requires Owned(s) && Enabled(s, a) && p in Do(s, a).desc && Do(s, a).desc[p].present
    ensures a.FaultMap? ==> a.i < |s.threads| && s.threads[a.i].Fresh?
    ensures !(a.FaultMap? && s.threads[a.i].p == p) ==>
              p in s.desc && s.desc[p].present && s.desc[p].va == Do(s, a).desc[p].va
    ensures a.FaultMap? && s.threads[a.i].p == p ==> Do(s, a).desc[p].va == a.va
  {
    hide *;
    if ByThread(a) {
      ThreadPresent(s, a, p);
    } else {
      MigrationPresent(s, a, p);
    }
  }

  lemma ThreadPresent(s: System, a: Action, p: nat)
    requires Owned(s) && Enabled(s, a) && ByThread(a) && p in Do(s, a).desc && Do(s, a).desc[p].present
    ensures a.FaultMap? ==> a.i < |s.threads| && s.threads[a.i].Fresh?
    ensures !(a.FaultMap? && s.threads[a.i].p == p) ==>
              p in s.desc && s.desc[p].present && s.desc[p].va == Do(s, a).desc[p].va
    ensures a.FaultMap? && s.threads[a.i].p == p ==> Do(s, a).desc[p].va == a.va
  {
    hide Owned;
    hide Do;
    ThreadDescs(s, a);
  }

  lemma MigrationPresent(s: System, a: Action, p: nat)
    requires Owned(s) && Enabled(s, a) && !ByThread(a) && p in Do(s, a).desc && Do(s, a).desc[p].present
    ensures !a.FaultMap? && p in s.desc && s.desc[p].present && s.desc[p].va == Do(s, a).desc[p].va
  {
    hide Owned;
    hide Do;
    MigrationDescs(s, a);
  }

  lemma StepAllIndexed(s: System, a: Action)
    requires Owned(s) && AllIndexed(s) && Enabled(s, a) && Asserts(s, a) && !a.UnmapRemove?
    ensures AllIndexed(Do(s, a))
  {
    hide Owned;
    hide Do;
    var s' := Do(s, a);
    forall p | p in s'.desc && s'.desc[p].present ensures s'.desc[p].va in s'.index && s'.index[s'.desc[p].va] == p {
      PresentStep(s, a, p);
      if a.FaultMap? && s.threads[a.i].p == p {
        MapsAt(s, a.i, a.va);
      } else {
        IndexKept(s, a, s.desc[p].va);
      }
    }
  }

  lemma {:induction false} StaysIndexed(s: System, run: seq<Action>)
    requires Good(s) && AllIndexed(s) && Possible(s, run) && NoneFails(s, run)
    requires forall i :: 0 <= i < |run| ==> !run[i].UnmapRemove?
    ensures AllIndexed(After(s, run))
    decreases |run|
  {
    if run == [] {
    } else {
      assert !run[0].UnmapRemove?;
      StepGood(s, run[0], Dram);
      StepAllIndexed(s, run[0]);
      hide Good;
      hide AllIndexed;
      hide Enabled;
      hide Do;
      hide Asserts;
      StaysIndexed(Do(s, run[0]), run[1..]);
    }
  }

  lemma FaultFinds(s: System, i: nat, va: nat)
    requires AllIndexed(s) && Enabled(s, WriteFault(i, va))
    ensures !Hazard(s, WriteFault(i, va))
  {
    var p :| p in s.desc && s.desc[p].present && s.desc[p].va == va;
    assert s.desc[p].va in s.index;
  }

  /** As long as nothing is unmapped, the handler of write faults always finds the page. */
  lemma WriteFaultsFind(d: nat, n: nat, threads: nat, batch: nat, pageSize: nat, run: seq<Action>, i: nat, va: nat)
    requires d + n + batch < WORD
    requires var s0 := Started(d, n, threads, batch, pageSize); Possible(s0, run) && NoneFails(s0, run)
    requires forall j :: 0 <= j < |run| ==> !run[j].UnmapRemove?
    ensures var s := After(Started(d, n, threads, batch, pageSize), run);
            Enabled(s, WriteFault(i, va)) ==> Asserts(s, WriteFault(i, va))
  {
    StartGood(d, n, threads, batch, pageSize);
    StaysIndexed(Started(d, n, threads, batch, pageSize), run);
    var s := After(Started(d, n, threads, batch, pageSize), run);
    if Enabled(s, WriteFault(i, va)) {
      FaultFinds(s, i, va);
    }
  }

  /** As long as nothing is unmapped, present pages have addresses of their own, through all interleavings. */
  lemma AddressedFromTheStart(d: nat, n: nat, threads: nat, batch: nat, pageSize: nat, run: seq<Action>, p: nat, q: nat)
    requires d + n + batch < WORD
    requires var s0 := Started(d, n, threads, batch, pageSize); Possible(s0, run) && NoneFails(s0, run)
    requires forall i :: 0 <= i < |run| ==> !run[i].UnmapRemove?
    ensures var s := After(Started(d, n, threads, batch, pageSize), run);
            p in s.desc && q in s.desc && s.desc[p].present && s.desc[q].present && p != q ==>
                  s.desc[p].va != s.desc[q].va
  {
    hide Good;
    hide After;
    hide Possible;
    hide NoneFails;
    StartGood(d, n, threads, batch, pageSize);
    StaysIndexed(Started(d, n, threads, batch, pageSize), run);
  }

  /* ---- Populating ---- */

  /** The free pages of DRAM have offsets there. */
  ghost predicate DramFits(s: System) {
    forall p :: p in s.q[Free(Dram)] ==> p in s.desc && Fits(s.desc[p].offset, Dram, s.sizes)
  }

  lemma PopulateSteps(s: System, va: nat)
    requires Owned(s) && At(s, 0, Idle) && s.q[Free(Dram)] != [] && AddressOk(s, va) && DramFits(s)
    ensures var run, p := MapRun(s, 0, va, true), s.q[Free(Dram)][0];
            Clean(s, run) &&
            var s' := After(s, run);
            && s'.threads == s.threads && s'.mig == s.mig && s'.sizes == s.sizes && s'.index == s.index[va := p]
            && s'.q == s.q[Free(Dram) := s.q[Free(Dram)][1..]][Mmap(Dram) := s.q[Mmap(Dram)] + [p]]
            && s'.num == CountMapped(s.num, Dram)
            && p in s.desc && s'.desc == s.desc[p := s.desc[p].(va := va, present := true, up := 0, down := 0)]
  {
    hide Owned;
    hide Clean;
    hide After;
    hide MapRun;
    hide CountMapped;
    hide Fits;
    UndisturbedMapping(s, 0, va, true);
  }

  lemma RunIsGood(s: System, run: seq<Action>)
    requires Good(s) && Clean(s, run)
    ensures NoneFails(s, run) && Good(After(s, run))
  {
    EveryRun(s, run, Dram);
  }

  /** A run that has met no hazard so far, from a good state. */
  ghost predicate Begun(s0: System, run: seq<Action>) {
    Clean(s0, run) && Good(After(s0, run))
  }

  lemma Prolonged(s0: System, run: seq<Action>, more: seq<Action>)
    requires Begun(s0, run) && Clean(After(s0, run), more)
    ensures Begun(s0, run + more) && After(s0, run + more) == After(After(s0, run), more)
  {
    Joined(s0, run, more);
    RunIsGood(After(s0, run), more);
  }

  /** The state after a run. */
  ghost function Now(s0: System, run: seq<Action>): System
    requires Begun(s0, run)
  {
    After(s0, run)
  }

  /** Thread 0 populates a page of DRAM. */
  lemma Populates(s0: System, run: seq<Action>, va: nat) returns (run': seq<Action>)
    requires Begun(s0, run)
    requires var s := Now(s0, run); |s.threads| > 0 && s.threads[0] == Idle && s.q[Free(Dram)] != [] && AddressOk(s, va)
    requires DramFits(Now(s0, run))
    ensures Begun(s0, run') && DramFits(Now(s0, run'))
    ensures var s, s' := Now(s0, run), Now(s0, run');
            var p := s.q[Free(Dram)][0];
            && s'.threads == s.threads && s'.sizes == s.sizes && s'.index == s.index[va := p]
            && s'.q[Free(Dram)] == s.q[Free(Dram)][1..] && s'.q[Mmap(Dram)] == s.q[Mmap(Dram)] + [p]
            && s'.num[Mmap(Dram)] == Plus(s.num[Mmap(Dram)], 1) && p in s.desc
            && s'.desc == s.desc[p := s.desc[p].(va := va, present := true, up := 0, down := 0)]
  {
    hide Clean;
    hide After;
    hide Owned;
    hide Inside;
    hide Ledger;
    hide Tallied;
    hide Plus;
    hide Fits;
    hide MapRun;
    var more := MapRun(Now(s0, run), 0, va, true);
    PopulateSteps(Now(s0, run), va);
    Prolonged(s0, run, more);
    run' := run + more;
  }

  /* ---- Two requesters ---- */

  lemma TakesThree(s: System)
    requires At(s, 1, Idle) && s.q[Mmap(Dram)] != []
    ensures var run := PassRun(1, Dram, Nvm);
            Clean(s, run) &&
            var s' := After(s, run);
            s'.threads == s.threads && s'.q[Mmap(Dram)] == s.q[Mmap(Dram)][1..]
  {
    hide Clean;
    hide After;
    hide PassRun;
    PassesOne(s, 1, Dram, Nvm);
    assert s.threads[1 := Idle] == s.threads;
  }

  /** Thread 1 requests the page next in turn. */
  lemma TakesOne(s0: System, run: seq<Action>) returns (run': seq<Action>)
    requires Begun(s0, run)
    requires var s := Now(s0, run); |s.threads| > 1 && s.threads[1] == Idle && s.q[Mmap(Dram)] != []
    ensures Begun(s0, run')
    ensures var s, s' := Now(s0, run), Now(s0, run');
            s'.threads == s.threads && s'.q[Mmap(Dram)] == s.q[Mmap(Dram)][1..]
  {
    hide Clean;
    hide After;
    hide Good;
    var more := PassRun(1, Dram, Nvm);
    TakesThree(Now(s0, run));
    Prolonged(s0, run, more);
    run' := run + more;
  }

  /** Thread 0 begins a random request and draws that it is to pass over one of the two pages. */
  lemma DrawsOne(s0: System, run: seq<Action>) returns (run': seq<Action>)
    requires Begun(s0, run)
    requires var s := Now(s0, run); |s.threads| > 0 && s.threads[0] == Idle && s.num[Mmap(Dram)] == 2
    ensures Begun(s0, run')
    ensures var s := Now(s0, run); Now(s0, run') == s.(threads := s.threads[0 := Turning(Dram, Nvm, 1)])
  {
    hide Good;
    hide MigrationDoes;
    hide MigrationEnabled;
    var s := Now(s0, run);
    OneStep(s, ReqDraw(0, Dram, Nvm, 1));
    assert Do(s, ReqDraw(0, Dram, Nvm, 1)) == s.(threads := s.threads[0 := Turning(Dram, Nvm, 1)]);
    Prolonged(s0, run, [ReqDraw(0, Dram, Nvm, 1)]);
    run' := run + [ReqDraw(0, Dram, Nvm, 1)];
  }

  lemma StartDramFits(d: nat, n: nat, threads: nat, batch: nat, pageSize: nat)
    requires d + n + batch < WORD && pageSize > 0
    ensures DramFits(Started(d, n, threads, batch, pageSize))
  {
    hide Fits;
    forall p | 0 <= p < d ensures Fits(p * pageSize, Dram, SizesOf(d, n, pageSize)) {
      IndexFits(p, d, n, pageSize);
    }
  }

  lemma IndexFits(p: nat, d: nat, n: nat, pageSize: nat)
    requires p < d && pageSize > 0
    ensures Fits(p * pageSize, Dram, SizesOf(d, n, pageSize))
  {
    BelowSize(p, d, pageSize);
  }

  /** The run that has not begun. */
  lemma AtTheStart(d: nat, n: nat, threads: nat, batch: nat, pageSize: nat)
    requires d + n + batch < WORD
    ensures var s0 := Started(d, n, threads, batch, pageSize);
            Begun(s0, []) &&
            var s := Now(s0, []);
            && |s.q[Free(Dram)]| == d && s.q[Mmap(Dram)] == [] && s.num[Mmap(Dram)] == 0 && s.index == map[]
            && |s.threads| == threads && (forall i :: 0 <= i < threads ==> s.threads[i] == Idle)
            && s.sizes == SizesOf(d, n, pageSize) && (pageSize > 0 ==> DramFits(s))
  {
    hide Good;
    hide DramFits;
    StartGood(d, n, threads, batch, pageSize);
    if pageSize > 0 {
      StartDramFits(d, n, threads, batch, pageSize);
    }
  }

  lemma OneAndOne()
    ensures Plus(0, 1) == 1 && Plus(1, 1) == 2
  {
  }

  lemma NextAligned(va: nat, pageSize: nat)
    requires pageSize > 0 && va % pageSize == 0
    ensures (va + pageSize) % pageSize == 0
  {
    var m := va / pageSize;
    assert va + pageSize == pageSize * (m + 1);
    Bits.DivMod(va + pageSize, pageSize, m + 1, 0);
  }

  /** Two pages of DRAM have been populated, and no thread has anything in hand. */
  lemma TwoPopulated(d: nat, n: nat, threads: nat, batch: nat, pageSize: nat, va: nat) returns (run: seq<Action>)
    requires d >= 2 && threads >= 1 && d + n + batch < WORD && pageSize > 0 && va > 0 && va % pageSize == 0
    ensures var s0 := Started(d, n, threads, batch, pageSize);
            Begun(s0, run) &&
            var s := Now(s0, run);
            && |s.threads| == threads && (forall i :: 0 <= i < threads ==> s.threads[i] == Idle)
            && |s.q[Mmap(Dram)]| == 2 == s.num[Mmap(Dram)]
  {
    hide Started;
    hide Begun;
    hide Now;
    hide Plus;
    var s0 := Started(d, n, threads, batch, pageSize);
    AtTheStart(d, n, threads, batch, pageSize);
    NextAligned(va, pageSize);
    run := Populates(s0, [], va);
    run := Populates(s0, run, va + pageSize);
    OneAndOne();
  }

  /** Two requesters, from pebs_init on.  DRAM has two mapped pages; a random request draws that it is to pass over
      one; another request takes both; and the first then enqueues the NULL it has dequeued. */
  lemma TwoRequesters(d: nat, n: nat, threads: nat, batch: nat, pageSize: nat, va: nat) returns (run: seq<Action>)
    requires d >= 2 && threads >= 2 && d + n + batch < WORD && pageSize > 0 && va > 0 && va % pageSize == 0
    ensures var s0, last := Started(d, n, threads, batch, pageSize), ReqTake(0, Dram, Nvm);
            && Possible(s0, run) && NoneFails(s0, run)
            && var s := After(s0, run);
            Enabled(s, last) && LeftOf(s.threads[0]) == 1 && s.q[Mmap(Dram)] == [] && !Asserts(s, last)
  {
    hide Started;
    hide Begun;
    hide Now;
    var s0 := Started(d, n, threads, batch, pageSize);
    run := TwoPopulated(d, n, threads, batch, pageSize, va);
    run := DrawsOne(s0, run);
    run := TakesOne(s0, run);
    run := TakesOne(s0, run);
    Fails(s0, run);
    HasFailedNowhere(d, n, threads, batch, pageSize, run);
  }

  lemma Fails(s0: System, run: seq<Action>)
    requires Begun(s0, run)
    requires var s := Now(s0, run); |s.threads| > 0 && s.threads[0] == Turning(Dram, Nvm, 1) && s.q[Mmap(Dram)] == []
    ensures var s, last := Now(s0, run), ReqTake(0, Dram, Nvm);
            Enabled(s, last) && LeftOf(s.threads[0]) == 1 && !Asserts(s, last)
  {
    hide Begun;
    hide Now;
  }

  lemma HasFailedNowhere(d: nat, n: nat, threads: nat, batch: nat, pageSize: nat, run: seq<Action>)
    requires d + n + batch < WORD && Begun(Started(d, n, threads, batch, pageSize), run)
    ensures var s0 := Started(d, n, threads, batch, pageSize);
            Possible(s0, run) && NoneFails(s0, run) && Now(s0, run) == After(s0, run)
  {
    StartGood(d, n, threads, batch, pageSize);
    RunIsGood(Started(d, n, threads, batch, pageSize), run);
  }

  /* ---- Mapping an address again ---- */

  lemma UnmapsThree(s: System, va: nat)
    requires At(s, 0, Idle) && va in s.index && s.index[va] in s.desc
    ensures var run := UnmapRun(0, va);
            Clean(s, run) &&
            var s' := After(s, run);
            && s'.threads == s.threads && s'.index == s.index - {va} && s'.q == s.q && s'.desc == s.desc
            && s'.sizes == s.sizes
  {
    hide Clean;
    hide After;
    hide UnmapRun;
    Unmaps(s, 0, va);
  }

  /** Thread 0 unmaps the page at va. */
  lemma UnmapsAt(s0: System, run: seq<Action>, va: nat) returns (run': seq<Action>)
    requires Begun(s0, run)
    requires var s := Now(s0, run); |s.threads| > 0 && s.threads[0] == Idle && va in s.index && s.index[va] in s.desc
    ensures Begun(s0, run')
    ensures var s, s' := Now(s0, run), Now(s0, run');
            && s'.threads == s.threads && s'.index == s.index - {va} && s'.q == s.q && s'.desc == s.desc
            && s'.sizes == s.sizes
  {
    hide Clean;
    hide After;
    hide Good;
    UnmapsThree(Now(s0, run), va);
    Prolonged(s0, run, UnmapRun(0, va));
    run' := run + UnmapRun(0, va);
  }

  lemma FirstTwo(s0: System, run: seq<Action>)
    requires Begun(s0, run) && |Now(s0, run).q[Free(Dram)]| >= 2
    ensures Now(s0, run).q[Free(Dram)][0] != Now(s0, run).q[Free(Dram)][1]
  {
    assert NoRepeats(Now(s0, run).q[Free(Dram)]);
  }

  /** After munmap and another populate of the same address two present pages have that address: munmap leaves the
      first one on its mmap list.  No assertion notices. */
  lemma AddressTwice(d: nat, n: nat, threads: nat, batch: nat, pageSize: nat, va: nat)
    returns (run: seq<Action>, p: nat, q: nat)
    requires d >= 2 && threads >= 1 && d + n + batch < WORD && pageSize > 0 && va > 0 && va % pageSize == 0
    ensures var s0 := Started(d, n, threads, batch, pageSize);
            && Possible(s0, run) && NoneFails(s0, run)
            && var s := After(s0, run);
            && p != q && p in s.q[Mmap(Dram)] && q in s.q[Mmap(Dram)] && p in s.desc && q in s.desc
            && s.desc[p].present && s.desc[q].present && s.desc[p].va == s.desc[q].va == va
  {
    hide Started;
    hide Begun;
    hide Now;
    hide Plus;
    var s0 := Started(d, n, threads, batch, pageSize);
    AtTheStart(d, n, threads, batch, pageSize);
    FirstTwo(s0, []);
    p, q := Now(s0, []).q[Free(Dram)][0], Now(s0, []).q[Free(Dram)][1];
    run := Populates(s0, [], va);
    run := UnmapsAt(s0, run, va);
    run := Populates(s0, run, va);
    HasFailedNowhere(d, n, threads, batch, pageSize, run);
  }

  /* ---- Unmapping an address twice ---- */

  lemma UnmapsTogether(s: System, va: nat)
    requires |s.threads| > 1 && s.threads[0] == Idle == s.threads[1] && va in s.index
    ensures var run := [UnmapFind(0, va), UnmapFind(1, va), UnmapRemove(0)];
            Clean(s, run) &&
            var s' := After(s, run);
            |s'.threads| == |s.threads| && s'.threads[1] == Found(va, s.index[va]) && va !in s'.index
  {
    hide Do;
    hide Enabled;
    hide Hazard;
    hide Possible;
    hide NoHazard;
    hide After;
    FindStep(s, 0, va);
    var s1 := Do(s, UnmapFind(0, va));
    FindStep(s1, 1, va);
    var s2 := Do(s1, UnmapFind(1, va));
    RemoveStep(s2, 0, va, s.index[va]);
    ThreeSteps(s, UnmapFind(0, va), UnmapFind(1, va), UnmapRemove(0));
  }

  /** Two threads unmap one address.  Both find the page before either takes it out of the index, and the second takes
      out what is no longer there. */
  lemma UnmapTwice(d: nat, n: nat, threads: nat, batch: nat, pageSize: nat, va: nat) returns (run: seq<Action>)
    requires d >= 1 && threads >= 2 && d + n + batch < WORD && pageSize > 0 && va > 0 && va % pageSize == 0
    ensures var s0, last := Started(d, n, threads, batch, pageSize), UnmapRemove(1);
            && Possible(s0, run) && NoneFails(s0, run)
            && var s := After(s0, run);
            Enabled(s, last) && va !in s.index && !Asserts(s, last)
  {
    hide Started;
    hide Begun;
    hide Now;
    hide Plus;
    var s0 := Started(d, n, threads, batch, pageSize);
    AtTheStart(d, n, threads, batch, pageSize);
    run := Populates(s0, [], va);
    run := RunsTogether(s0, run, va);
    SecondRemoval(s0, run, va);
    HasFailedNowhere(d, n, threads, batch, pageSize, run);
  }

  lemma RunsTogether(s0: System, run: seq<Action>, va: nat) returns (run': seq<Action>)
    requires Begun(s0, run)
    requires var s := Now(s0, run); |s.threads| > 1 && s.threads[0] == Idle == s.threads[1] && va in s.index
    ensures Begun(s0, run')
    ensures var s, s' := Now(s0, run), Now(s0, run');
            |s'.threads| == |s.threads| && s'.threads[1] == Found(va, s.index[va]) && va !in s'.index
  {
    hide Clean;
    hide After;
    hide Good;
    UnmapsTogether(Now(s0, run), va);
    Prolonged(s0, run, [UnmapFind(0, va), UnmapFind(1, va), UnmapRemove(0)]);
    run' := run + [UnmapFind(0, va), UnmapFind(1, va), UnmapRemove(0)];
  }

  lemma SecondRemoval(s0: System, run: seq<Action>, va: nat)
    requires Begun(s0, run)
    requires var s := Now(s0, run); |s.threads| > 1 && s.threads[1].Found? && s.threads[1].va == va && va !in s.index
    ensures var s := Now(s0, run); Enabled(s, UnmapRemove(1)) && !Asserts(s, UnmapRemove(1))
  {
    hide Begun;
    hide Now;
  }

  /** A write fault for a page that has been unmapped: the handler does not find the page. */
  lemma UnmappedThenWritten(d: nat, n: nat, threads: nat, batch: nat, pageSize: nat, va: nat) returns (run: seq<Action>)
    requires d >= 1 && threads >= 1 && d + n + batch < WORD && pageSize > 0 && va > 0 && va % pageSize == 0
    ensures var s0, last := Started(d, n, threads, batch, pageSize), WriteFault(0, va);
            && Possible(s0, run) && NoneFails(s0, run)
            && Enabled(After(s0, run), last) && !Asserts(After(s0, run), last)
  {
    hide Started;
    hide Begun;
    hide Now;
    hide Plus;
    var s0 := Started(d, n, threads, batch, pageSize);
    AtTheStart(d, n, threads, batch, pageSize);
    run := Populates(s0, [], va);
    run := UnmapsAt(s0, run, va);
    WrittenTo(s0, run, va, Now(s0, []).q[Free(Dram)][0]);
    HasFailedNowhere(d, n, threads, batch, pageSize, run);
  }

  lemma WrittenTo(s0: System, run: seq<Action>, va: nat, p: nat)
    requires Begun(s0, run)
    requires var s := Now(s0, run);
             At(s, 0, Idle) && p in s.desc && s.desc[p].present && s.desc[p].va == va && va !in s.index
    ensures var s := Now(s0, run); Enabled(s, WriteFault(0, va)) && !Asserts(s, WriteFault(0, va))
  {
    hide Begun;
    hide Now;
    assert MappedSometime(Now(s0, run), va);
  }
}
