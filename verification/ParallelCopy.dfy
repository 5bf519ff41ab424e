/** The copy threads of the build without DMA: T workers and one caller meet twice at one barrier for every request, the
    callers taking turns under a lock.  Every access to a shared field and every byte is a step of its own, so the runs
    cover all interleavings. */
module ParallelCopy {
  import opened Basics

  /** The shared request record: copy `len` bytes from src to dst, or zero them. */
  datatype Request = Request(zero: bool, dst: nat, src: nat, len: nat)

  /** memcpy_thread.  The generation a thread waits out is recorded with it. */
  datatype Worker =
    | Start
    | Await1(g: nat)
    | ReadLen
    | ReadDst(len: nat)
    | ReadZero(len: nat, dst: nat)
    | ReadSrc(len: nat, dst: nat)
    | Copying(len: nat, dst: nat, src: nat, zero: bool, k: nat)
    | Finish
    | Await2(g: nat)

  /** hemem_parallel_memcpy and hemem_parallel_memset. */
  datatype Caller =
    | Out
    | Want(r: Request)
    | SetDst(r: Request)
    | SetSrc(r: Request)
    | SetLen(r: Request)
    | SetZero(r: Request)
    | Arrive1(r: Request)
    | Wait1(r: Request, g: nat)
    | Arrive2(r: Request)
    | Wait2(r: Request, g: nat)
    | Unlock(r: Request)

  datatype Holder = Nobody | By(c: nat)

  /** gen and count are the barrier: count threads have arrived since generation gen began.  base, done are history: the
      memory when the copying of the present request began, and the requests completed. */
  datatype System = System(
    workers: seq<Worker>, callers: seq<Caller>, shared: Request, lock: Holder, gen: nat, count: nat,
    mem: map<nat, int>, base: map<nat, int>, done: seq<Request>)

  datatype Action = Call(c: nat, r: Request) | CallerStep(c: nat) | WorkerStep(t: nat)

  function Peek(m: map<nat, int>, a: nat): int { if a in m then m[a] else 0 }

  /** memcpy is for ranges that do not overlap. */
  predicate Proper(r: Request) {
    r.zero || r.src + r.len <= r.dst || r.dst + r.len <= r.src
  }

  function ChunkOf(len: nat, threads: nat): nat { if threads == 0 then 0 else len / threads }

  predicate Enabled(s: System, a: Action) {
    match a
    case Call(c, r) => c < |s.callers| && s.callers[c].Out? && Proper(r)
    case CallerStep(c) =>
      c < |s.callers| && (
        match s.callers[c]
        case Out => false
        case Want(_) => s.lock.Nobody?
        case Wait1(_, g) => s.gen > g
        case Wait2(_, g) => s.gen > g
        case _ => true)
    case WorkerStep(t) =>
      t < |s.workers| && (
        match s.workers[t]
        case Await1(g) => s.gen > g
        case Await2(g) => s.gen > g
        case _ => true)
  }

  /** pthread_barrier_wait for T + 1 threads: the last one to arrive begins a new generation. */
  function Arrive(s: System): System {
    if s.count == |s.workers| then s.(gen := s.gen + 1, count := 0) else s.(count := s.count + 1)
  }

  /** When the barrier opens for copying, or closes a request, the history is brought up to date. */
  function Noted(s: System, r: Request): System {
    if s.count != |s.workers| then s else if s.gen % 2 == 0 then s.(base := s.mem) else s.(done := s.done + [r])
  }

  function SetCaller(s: System, c: nat, l: Caller): System
    requires c < |s.callers|
  {
    s.(callers := s.callers[c := l])
  }

  function SetWorker(s: System, t: nat, w: Worker): System
    requires t < |s.workers|
  {
    s.(workers := s.workers[t := w])
  }

  /** The request of the caller that has the lock. */
  function Current(s: System): Request {
    if s.lock.By? && s.lock.c < |s.callers| && !s.callers[s.lock.c].Out? then s.callers[s.lock.c].r else s.shared
  }

  function Do(s: System, a: Action): System
    requires Enabled(s, a)
  {
    match a
    case Call(c, r) => SetCaller(s, c, Want(r))
    case CallerStep(c) => CallerDoes(s, c)
    case WorkerStep(t) => WorkerDoes(s, t)
  }

  function CallerDoes(s: System, c: nat): System
    requires c < |s.callers|
  {
    match s.callers[c]
    case Out => s
    case Want(r) => SetCaller(s, c, SetDst(r)).(lock := By(c))
    case SetDst(r) => SetCaller(s, c, if r.zero then SetLen(r) else SetSrc(r)).(shared := s.shared.(dst := r.dst))
    case SetSrc(r) => SetCaller(s, c, SetLen(r)).(shared := s.shared.(src := r.src))
    case SetLen(r) => SetCaller(s, c, SetZero(r)).(shared := s.shared.(len := r.len))
    case SetZero(r) => SetCaller(s, c, Arrive1(r)).(shared := s.shared.(zero := r.zero))
    case Arrive1(r) => SetCaller(Arrive(Noted(s, r)), c, Wait1(r, s.gen))
    case Wait1(r, _) => SetCaller(s, c, Arrive2(r))
    case Arrive2(r) => SetCaller(Arrive(Noted(s, r)), c, Wait2(r, s.gen))
    case Wait2(r, _) => SetCaller(s, c, Unlock(r))
    case Unlock(_) => SetCaller(s, c, Out).(lock := Nobody)
  }

  function WorkerDoes(s: System, t: nat): System
    requires t < |s.workers|
  {
    var chunk := (len: nat) => ChunkOf(len, |s.workers|);
    match s.workers[t]
    case Start => SetWorker(Arrive(Noted(s, Current(s))), t, Await1(s.gen))
    case Await1(_) => SetWorker(s, t, ReadLen)
    case ReadLen => SetWorker(s, t, ReadDst(s.shared.len))
    case ReadDst(len) => SetWorker(s, t, ReadZero(len, s.shared.dst + t * chunk(len)))
    case ReadZero(len, dst) =>
      SetWorker(s, t, if s.shared.zero then Copying(len, dst, 0, true, 0) else ReadSrc(len, dst))
    case ReadSrc(len, dst) => SetWorker(s, t, Copying(len, dst, s.shared.src + t * chunk(len), false, 0))
    case Copying(len, dst, src, zero, k) =>
      if k < chunk(len) then
        SetWorker(s, t, Copying(len, dst, src, zero, k + 1))
          .(mem := s.mem[dst + k := if zero then 0 else Peek(s.mem, src + k)])
      else SetWorker(s, t, Finish)
    case Finish => SetWorker(Arrive(Noted(s, Current(s))), t, Await2(s.gen))
    case Await2(_) => SetWorker(s, t, Start)
  }

  /* ---- What a request is to do ---- */

  /** The first n bytes, one after the other. */
  function Sequential(m: map<nat, int>, r: Request, n: nat): map<nat, int> {
    if n == 0 then m
    else
      var p := Sequential(m, r, n - 1);
      p[r.dst + n - 1 := if r.zero then 0 else Peek(p, r.src + n - 1)]
  }

  /** What a request does when T workers serve it. */
  function Effect(m: map<nat, int>, r: Request, threads: nat): map<nat, int> {
    Sequential(m, r, threads * ChunkOf(r.len, threads))
  }

  function Effects(m: map<nat, int>, rs: seq<Request>, threads: nat): map<nat, int> {
    if rs == [] then m else Effect(Effects(m, rs[..|rs| - 1], threads), rs[|rs| - 1], threads)
  }

  /** Byte i of the request after it has been served. */
  function Byte(m: map<nat, int>, r: Request, i: nat): int { if r.zero then 0 else Peek(m, r.src + i) }

  /** Copying one byte after the other is copying every byte, when the ranges do not overlap. */
  lemma {:induction false} SequentialAt(m: map<nat, int>, r: Request, n: nat, a: nat)
    requires Proper(r) && n <= r.len
    ensures Peek(Sequential(m, r, n), a) == if r.dst <= a < r.dst + n then Byte(m, r, a - r.dst) else Peek(m, a)
  {
    if n == 0 {
    } else {
      SequentialAt(m, r, n - 1, a);
      SequentialAt(m, r, n - 1, r.src + n - 1);
    }
  }

  lemma ChunksFit(len: nat, threads: nat)
    ensures threads * ChunkOf(len, threads) <= len
    ensures threads > 0 ==> len < threads * ChunkOf(len, threads) + threads
    ensures threads > 0 ==> (threads * ChunkOf(len, threads) == len <==> len % threads == 0)
  {
    if threads > 0 {
      assert len == threads * (len / threads) + len % threads;
    }
  }

  /** Every byte of every request is served exactly when the number of threads divides its length; otherwise the last
      byte is left as it was.  All but the last threads - 1 bytes are served in any case. */
  lemma ServedWhole(m: map<nat, int>, r: Request, threads: nat, i: nat)
    requires Proper(r) && threads > 0 && i < r.len
    ensures i + threads <= r.len || r.len % threads == 0 ==>
              Peek(Effect(m, r, threads), r.dst + i) == if r.zero then 0 else Peek(m, r.src + i)
    ensures r.len % threads != 0 && i == r.len - 1 ==> Peek(Effect(m, r, threads), r.dst + i) == Peek(m, r.dst + i)
  {
    ChunksFit(r.len, threads);
    SequentialAt(m, r, threads * ChunkOf(r.len, threads), r.dst + i);
  }

  /* ---- Invariants ---- */

  /** A worker that waits in generation g. */
  function WaitsIn(g: nat): Worker -> int {
    (x: Worker) => if x == Await1(g) || x == Await2(g) then 1 else 0
  }

  lemma {:induction false} AllWait(ws: seq<Worker>, g: nat)
    ensures Sum(ws, WaitsIn(g)) <= |ws|
    ensures Sum(ws, WaitsIn(g)) == |ws| ==> forall t :: 0 <= t < |ws| ==> WaitsIn(g)(ws[t]) == 1
  {
    if ws == [] {
    } else {
      AllWait(ws[1..], g);
    }
  }

  lemma {:induction false} NoneWaits(ws: seq<Worker>, g: nat)
    requires forall t :: 0 <= t < |ws| ==> WaitsIn(g)(ws[t]) == 0
    ensures Sum(ws, WaitsIn(g)) == 0
  {
    if ws == [] {
    } else {
      assert WaitsIn(g)(ws[0]) == 0;
      forall t | 0 <= t < |ws[1..]| ensures WaitsIn(g)(ws[1..][t]) == 0 {
        assert ws[1..][t] == ws[t + 1];
      }
      NoneWaits(ws[1..], g);
    }
  }

  /** The caller with the lock, if there is one, waits in generation g. */
  function CallerWaits(s: System, g: nat): int {
    if s.lock.By? && s.lock.c < |s.callers| &&
       ((s.callers[s.lock.c].Wait1? && s.callers[s.lock.c].g == g) ||
           (s.callers[s.lock.c].Wait2? && s.callers[s.lock.c].g == g))
    then 1 else 0
  }

  /** The barrier counts those that wait in its present generation. */
  ghost predicate BarrierOk(s: System) {
    s.count == Sum(s.workers, WaitsIn(s.gen)) + CallerWaits(s, s.gen) && s.count <= |s.workers|
  }

  /** Copying is under way. */
  predicate Busy(s: System) { s.gen % 2 == 1 }

  /** The fields a caller has set so far. */
  ghost predicate FieldsSet(sh: Request, l: Caller) {
    match l
    case SetSrc(r) => sh.dst == r.dst
    case SetLen(r) => sh.dst == r.dst && (!r.zero ==> sh.src == r.src)
    case SetZero(r) => sh.dst == r.dst && (!r.zero ==> sh.src == r.src) && sh.len == r.len
    case Arrive1(r) => Carries(sh, r)
    case Wait1(r, _) => Carries(sh, r)
    case Arrive2(r) => Carries(sh, r)
    case Wait2(r, _) => Carries(sh, r)
    case _ => true
  }

  /** The shared record is the request, except that zeroing leaves an old source in it. */
  predicate Carries(sh: Request, r: Request) {
    sh.dst == r.dst && sh.len == r.len && sh.zero == r.zero && (!r.zero ==> sh.src == r.src)
  }

  ghost predicate JustDone(done: seq<Request>, r: Request) { done != [] && done[|done| - 1] == r }

  /** What the caller with the lock can be doing in this generation. */
  ghost predicate HolderOk(s: System) {
    match s.lock
    case Nobody => !Busy(s)
    case By(c) =>
      && c < |s.callers| && FieldsSet(s.shared, s.callers[c])
      && (match s.callers[c]
          case Out => false
          case Want(_) => false
          case Wait1(_, g) => if Busy(s) then g + 1 == s.gen else g == s.gen
          case Arrive2(_) => Busy(s)
          case Wait2(r, g) => if Busy(s) then g == s.gen else g + 1 == s.gen && JustDone(s.done, r)
          case Unlock(r) => !Busy(s) && JustDone(s.done, r)
          case _ => !Busy(s))
  }

  ghost predicate CallersOk(s: System) {
    && (forall c {:trigger s.callers[c]} :: 0 <= c < |s.callers| && s.lock != By(c) ==>
          s.callers[c].Out? || s.callers[c].Want?)
    && (forall c {:trigger s.callers[c].r} :: 0 <= c < |s.callers| && !s.callers[c].Out? ==> Proper(s.callers[c].r))
    && HolderOk(s)
  }

  /** What worker t can be doing, and what it has read: nothing but the present request. */
  ghost predicate WorkerOk(s: System, t: nat) {
    t < |s.workers| ==>
      var r := Current(s);
      var chunk := ChunkOf(r.len, |s.workers|);
      match s.workers[t]
      case Start => !Busy(s)
      case Await1(g) => if Busy(s) then g + 1 == s.gen else g == s.gen
      case ReadLen => Busy(s)
      case ReadDst(len) => Busy(s) && len == r.len
      case ReadZero(len, dst) => Busy(s) && len == r.len && dst == r.dst + t * chunk
      case ReadSrc(len, dst) => Busy(s) && len == r.len && dst == r.dst + t * chunk && !r.zero
      case Copying(len, dst, src, zero, k) =>
        Busy(s) && len == r.len && dst == r.dst + t * chunk && zero == r.zero &&
            (!zero ==> src == r.src + t * chunk) && k <= chunk
      case Finish => Busy(s)
      case Await2(g) => if Busy(s) then g == s.gen else g + 1 == s.gen
  }

  ghost predicate WorkersOk(s: System) {
    forall t {:trigger WorkerOk(s, t)} :: 0 <= t < |s.workers| ==> WorkerOk(s, t)
  }

  /** How many bytes of its chunk worker t has served. */
  function Served(s: System, t: nat): nat {
    if t >= |s.workers| then 0
    else
      match s.workers[t]
      case Copying(_, _, _, _, k) => k
      case Finish => ChunkOf(Current(s).len, |s.workers|)
      case Await2(g) => if g == s.gen then ChunkOf(Current(s).len, |s.workers|) else 0
      case _ => 0
  }

  /** Address a belongs to byte k of the chunk of worker t. */
  predicate InChunk(r: Request, chunk: nat, t: nat, k: nat, a: nat) {
    k < chunk && a == r.dst + t * chunk + k
  }

  /** Memory while copying is under way: served bytes are as they will be, the others as they were. */
  ghost predicate MemoryBusy(s: System) {
    var r := Current(s);
    var chunk := ChunkOf(r.len, |s.workers|);
    && (forall t: nat, k: nat, a: nat {:trigger InChunk(r, chunk, t, k, a)} ::
          t < |s.workers| && InChunk(r, chunk, t, k, a) ==>
          Peek(s.mem, a) == if k < Served(s, t) then Byte(s.base, r, t * chunk + k) else Peek(s.base, a))
    && (forall a: nat {:trigger Peek(s.mem, a)} :: a < r.dst || a >= r.dst + |s.workers| * chunk ==>
          Peek(s.mem, a) == Peek(s.base, a))
  }

  /** Two memories with the same bytes. */
  ghost predicate Alike(m: map<nat, int>, n: map<nat, int>) {
    forall a: nat {:trigger Peek(m, a)} {:trigger Peek(n, a)} :: Peek(m, a) == Peek(n, a)
  }

  /** Between requests memory is what the completed requests have made of it, in their order. */
  ghost predicate MemoryOk(s: System, m0: map<nat, int>) {
    if Busy(s) then MemoryBusy(s) && Alike(s.base, Effects(m0, s.done, |s.workers|))
    else Alike(s.mem, Effects(m0, s.done, |s.workers|))
  }

  ghost predicate Inv(s: System, m0: map<nat, int>) {
    |s.workers| > 0 && BarrierOk(s) && CallersOk(s) && WorkersOk(s) && MemoryOk(s, m0) && |s.done| == s.gen / 2
  }

  /* ---- The barrier ---- */

  /** The last worker to arrive completes the others and the caller. */
  lemma LastWorker(s: System, t: nat)
    requires BarrierOk(s) && s.count == |s.workers| && t < |s.workers| && WaitsIn(s.gen)(s.workers[t]) == 0
    ensures CallerWaits(s, s.gen) == 1
    ensures forall i :: 0 <= i < |s.workers| && i != t ==> WaitsIn(s.gen)(s.workers[i]) == 1
  {
    var ws := s.workers[t := Await1(s.gen)];
    SumUpdate(s.workers, WaitsIn(s.gen), t, Await1(s.gen));
    AllWait(ws, s.gen);
    forall i | 0 <= i < |s.workers| && i != t ensures WaitsIn(s.gen)(s.workers[i]) == 1 {
      assert ws[i] == s.workers[i];
    }
  }

  /** The caller, arriving last, completes the workers. */
  lemma LastCaller(s: System)
    requires BarrierOk(s) && s.count == |s.workers| && CallerWaits(s, s.gen) == 0
    ensures forall i :: 0 <= i < |s.workers| ==> WaitsIn(s.gen)(s.workers[i]) == 1
  {
    AllWait(s.workers, s.gen);
  }

  /* ---- Steps that do not touch the barrier ---- */

  /** Workers, memory and generation are as they were, and so is the present request while copying is under way. */
  lemma CallerOnly(s: System, s': System, m0: map<nat, int>)
    requires Inv(s, m0) && CallersOk(s')
    requires s'.workers == s.workers && s'.gen == s.gen && s'.count == s.count && s'.mem == s.mem && s'.base == s.base
    requires s'.done == s.done && CallerWaits(s', s.gen) == CallerWaits(s, s.gen)
    requires Busy(s) ==> Current(s') == Current(s)
    ensures Inv(s', m0)
  {
    forall t | 0 <= t < |s'.workers| ensures WorkerOk(s', t) {
      assert WorkerOk(s, t);
    }
  }

  lemma CallInv(s: System, c: nat, r: Request, m0: map<nat, int>)
    requires Inv(s, m0) && Enabled(s, Call(c, r))
    ensures Inv(Do(s, Call(c, r)), m0)
  {
    CallerOnly(s, Do(s, Call(c, r)), m0);
  }

  lemma CallerStillOk(s: System, c: nat)
    requires CallersOk(s) && Enabled(s, CallerStep(c)) && !s.callers[c].Arrive1? && !s.callers[c].Arrive2?
    ensures CallersOk(CallerDoes(s, c))
  {
    hide Arrive;
    hide Noted;
    hide Proper;
  }

  lemma CallerInv(s: System, c: nat, m0: map<nat, int>)
    requires Inv(s, m0) && Enabled(s, CallerStep(c)) && !s.callers[c].Arrive1? && !s.callers[c].Arrive2?
    ensures Inv(Do(s, CallerStep(c)), m0)
  {
    hide ChunkOf;
    hide MemoryOk;
    hide WorkersOk;
    hide Sum;
    hide Arrive;
    hide Noted;
    hide WorkerDoes;
    hide FieldsSet;
    hide Proper;
    CallerStillOk(s, c);
    CallerOnly(s, Do(s, CallerStep(c)), m0);
  }

  /** One worker has changed, and has served as many bytes as before. */
  lemma WorkerOnly(s: System, t: nat, w: Worker, m0: map<nat, int>)
    requires Inv(s, m0) && t < |s.workers|
    requires var s' := SetWorker(s, t, w);
             WorkerOk(s', t) && WaitsIn(s.gen)(w) == WaitsIn(s.gen)(s.workers[t]) &&
                 (Busy(s) ==> Served(s', t) == Served(s, t))
    ensures Inv(SetWorker(s, t, w), m0)
  {
    hide ChunkOf;
    var s' := SetWorker(s, t, w);
    SumUpdate(s.workers, WaitsIn(s.gen), t, w);
    forall i | 0 <= i < |s'.workers| ensures WorkerOk(s', i) {
      assert WorkerOk(s, i);
    }
    if Busy(s) {
      MemoryKept(s, s', t);
    }
  }

  lemma MemoryKept(s: System, s': System, t: nat)
    requires t < |s.workers| == |s'.workers| && MemoryBusy(s) && s' == SetWorker(s, t, s'.workers[t]) &&
             Served(s', t) == Served(s, t)
    ensures MemoryBusy(s')
  {
    hide ChunkOf;
    hide Byte;
    assert forall i: nat :: i < |s.workers| ==> Served(s', i) == Served(s, i);
  }

  /** The worker reads a field of the present request, or goes on. */
  lemma WorkerReads(s: System, t: nat, m0: map<nat, int>)
    requires Inv(s, m0) && Enabled(s, WorkerStep(t)) && !s.workers[t].Start? && !s.workers[t].Finish?
    requires s.workers[t].Copying? ==> s.workers[t].k >= ChunkOf(s.workers[t].len, |s.workers|)
    ensures Inv(Do(s, WorkerStep(t)), m0)
  {
    hide BarrierOk;
    hide MemoryOk;
    hide ChunkOf;
    assert WorkerOk(s, t);
    WorkerOnly(s, t, Do(s, WorkerStep(t)).workers[t], m0);
  }

  /** A byte is served: memory comes one byte nearer to what it will be. */
  lemma WorkerCopies(s: System, t: nat, m0: map<nat, int>)
    requires Inv(s, m0) && Enabled(s, WorkerStep(t)) && s.workers[t].Copying?
    requires s.workers[t].k < ChunkOf(s.workers[t].len, |s.workers|)
    ensures Inv(Do(s, WorkerStep(t)), m0)
  {
    hide ChunkOf;
    hide MemoryBusy;
    var s' := Do(s, WorkerStep(t));
    assert WorkerOk(s, t);
    SumUpdate(s.workers, WaitsIn(s.gen), t, s'.workers[t]);
    forall i | 0 <= i < |s'.workers| ensures WorkerOk(s', i) {
      assert WorkerOk(s, i);
    }
    ByteServed(s, t, m0);
  }

  lemma Below(t: nat, n: nat, chunk: nat, k: nat)
    requires t < n && k < chunk
    ensures t * chunk + k < n * chunk
  {
    assert (t + 1) * chunk <= n * chunk;
  }

  /** Chunks do not overlap. */
  lemma OneChunk(chunk: nat, t: nat, k: nat, u: nat, h: nat)
    requires k < chunk && h < chunk
    ensures t != u ==> t * chunk + k != u * chunk + h
  {
    if t < u {
      assert (t + 1) * chunk <= u * chunk;
    } else if u < t {
      assert (u + 1) * chunk <= t * chunk;
    }
  }

  lemma ByteServed(s: System, t: nat, m0: map<nat, int>)
    requires Inv(s, m0) && Enabled(s, WorkerStep(t)) && s.workers[t].Copying?
    requires s.workers[t].k < ChunkOf(s.workers[t].len, |s.workers|)
    ensures MemoryBusy(Do(s, WorkerStep(t)))
  {
    var s', r := Do(s, WorkerStep(t)), Current(s);
    var chunk, k := ChunkOf(r.len, |s.workers|), s.workers[t].k;
    assert WorkerOk(s, t);
    Below(t, |s.workers|, chunk, k);
    SourceUntouched(s, t, m0);
    assert Current(s') == r && s'.mem == s.mem[r.dst + t * chunk + k := Byte(s.base, r, t * chunk + k)];
    assert forall u: nat :: Served(s', u) == if u == t then k + 1 else Served(s, u);
    OneMoreByte(s, s', t, k, chunk);
  }

  /** Worker t, at byte k of its chunk, has written that byte. */
  ghost predicate Wrote(s: System, s': System, t: nat, k: nat, chunk: nat) {
    && MemoryBusy(s) && Current(s') == Current(s) && |s'.workers| == |s.workers| && t < |s.workers|
    && chunk == ChunkOf(Current(s).len, |s.workers|) && k == Served(s, t) < chunk
    && t * chunk + k < |s.workers| * chunk && s'.base == s.base
    && s'.mem == s.mem[Current(s).dst + t * chunk + k := Byte(s.base, Current(s), t * chunk + k)]
    && (forall u: nat :: Served(s', u) == if u == t then k + 1 else Served(s, u))
  }

  lemma ByteInChunk(s: System, s': System, t: nat, k: nat, chunk: nat, u: nat, h: nat, a: nat)
    requires Wrote(s, s', t, k, chunk) && u < |s.workers| && InChunk(Current(s), chunk, u, h, a)
    ensures Peek(s'.mem, a) == if h < Served(s', u) then Byte(s.base, Current(s), u * chunk + h) else Peek(s.base, a)
  {
    hide ChunkOf;
    hide Byte;
    hide Current;
    hide Served;
    hide Peek;
    OneChunk(chunk, t, k, u, h);
    PeekUpdate(s.mem, Current(s).dst + t * chunk + k, Byte(s.base, Current(s), t * chunk + k), a);
  }

  lemma ByteOutside(s: System, s': System, t: nat, k: nat, chunk: nat, a: nat)
    requires Wrote(s, s', t, k, chunk) && (a < Current(s).dst || a >= Current(s).dst + |s.workers| * chunk)
    ensures Peek(s'.mem, a) == Peek(s.base, a)
  {
    hide ChunkOf;
    hide Byte;
    hide Current;
    hide Served;
    hide Peek;
    assert Peek(s.mem, a) == Peek(s.base, a);
    PeekUpdate(s.mem, Current(s).dst + t * chunk + k, Byte(s.base, Current(s), t * chunk + k), a);
  }

  lemma OneMoreByte(s: System, s': System, t: nat, k: nat, chunk: nat)
    requires Wrote(s, s', t, k, chunk)
    ensures MemoryBusy(s')
  {
    hide ChunkOf;
    hide Byte;
    hide Current;
    hide Served;
    hide Peek;
    hide InChunk;
    var r := Current(s);
    forall u: nat, h: nat, a: nat {:trigger InChunk(r, chunk, u, h, a)} | u < |s'.workers| && InChunk(r, chunk, u, h, a)
      ensures Peek(s'.mem, a) == if h < Served(s', u) then Byte(s'.base, r, u * chunk + h) else Peek(s'.base, a)
    {
      ByteInChunk(s, s', t, k, chunk, u, h, a);
    }
    forall a: nat | a < r.dst || a >= r.dst + |s'.workers| * chunk ensures Peek(s'.mem, a) == Peek(s'.base, a) {
      ByteOutside(s, s', t, k, chunk, a);
    }
  }

  lemma PeekUpdate(m: map<nat, int>, b: nat, x: int, a: nat)
    ensures Peek(m[b := x], a) == if a == b then x else Peek(m, a)
  {
  }

  /** The byte a worker copies is still the one the request found. */
  lemma SourceUntouched(s: System, t: nat, m0: map<nat, int>)
    requires Inv(s, m0) && Enabled(s, WorkerStep(t)) && s.workers[t].Copying?
    requires s.workers[t].k < ChunkOf(s.workers[t].len, |s.workers|)
    ensures var w, r := s.workers[t], Current(s);
            (if w.zero then 0 else Peek(s.mem, w.src + w.k)) == Byte(s.base, r, t * ChunkOf(r.len, |s.workers|) + w.k)
  {
    var w, r := s.workers[t], Current(s);
    var chunk := ChunkOf(r.len, |s.workers|);
    assert WorkerOk(s, t);
    Below(t, |s.workers|, chunk, w.k);
    ChunksFit(r.len, |s.workers|);
    assert Proper(r);
  }

  /* ---- Steps at the barrier ---- */

  /** A worker arrives, and it is not the last. */
  lemma WorkerArrives(s: System, t: nat, m0: map<nat, int>)
    requires Inv(s, m0) && t < |s.workers| && (s.workers[t].Start? || s.workers[t].Finish?) && s.count < |s.workers|
    ensures Inv(Do(s, WorkerStep(t)), m0)
  {
    hide ChunkOf;
    hide MemoryBusy;
    hide Alike;
    hide Effects;
    hide FieldsSet;
    var s' := Do(s, WorkerStep(t));
    assert WorkerOk(s, t);
    SumUpdate(s.workers, WaitsIn(s.gen), t, s'.workers[t]);
    forall i | 0 <= i < |s'.workers| ensures WorkerOk(s', i) {
      assert WorkerOk(s, i);
    }
    if Busy(s) {
      MemoryArrives(s, s', t);
    }
  }

  lemma MemoryArrives(s: System, s': System, t: nat)
    requires t < |s.workers| == |s'.workers| && MemoryBusy(s) && s'.mem == s.mem && s'.base == s.base
    requires Current(s') == Current(s) && forall i: nat :: i < |s.workers| ==> Served(s', i) == Served(s, i)
    ensures MemoryBusy(s')
  {
    hide ChunkOf;
    hide Byte;
    hide Current;
  }

  /** The caller arrives, and it is not the last. */
  lemma CallerArrives(s: System, c: nat, m0: map<nat, int>)
    requires Inv(s, m0) && c < |s.callers| && (s.callers[c].Arrive1? || s.callers[c].Arrive2?) && s.count < |s.workers|
    ensures Inv(Do(s, CallerStep(c)), m0)
  {
    hide ChunkOf;
    var s' := Do(s, CallerStep(c));
    forall i | 0 <= i < |s'.workers| ensures WorkerOk(s', i) {
      assert WorkerOk(s, i);
    }
    if Busy(s) {
      MemoryArrives(s, s', 0);
    }
  }

  /** Everybody waits in generation g: the workers at the first (or second) barrier, the caller too. */
  ghost predicate AllAt(s: System, g: nat, first: bool) {
    && (forall t {:trigger s.workers[t]} :: 0 <= t < |s.workers| ==>
          s.workers[t] == if first then Await1(g) else Await2(g))
    && s.lock.By? && s.lock.c < |s.callers|
    && (if first then s.callers[s.lock.c].Wait1? else s.callers[s.lock.c].Wait2?) && s.callers[s.lock.c].g == g
  }

  lemma NobodyAhead(s: System, g: nat, first: bool)
    requires AllAt(s, g, first)
    ensures Sum(s.workers, WaitsIn(g + 1)) == 0 && CallerWaits(s, g + 1) == 0
  {
    NoneWaits(s.workers, g + 1);
  }

  /** The first barrier opens: no byte is served yet, and everybody has the same request before him. */
  lemma Opens(s: System, s': System, m0: map<nat, int>)
    requires Inv(s, m0) && !Busy(s) && s'.gen == s.gen + 1 && s'.count == 0 && s'.mem == s'.base == s.mem &&
             s'.done == s.done
    requires |s'.workers| == |s.workers| && AllAt(s', s.gen, true) && CallersOk(s')
    ensures Inv(s', m0)
  {
    NobodyAhead(s', s.gen, true);
    forall i | 0 <= i < |s'.workers| ensures WorkerOk(s', i) {
      assert s'.workers[i] == Await1(s.gen);
    }
    assert forall t: nat :: t < |s'.workers| ==> s'.workers[t] == Await1(s.gen) && Served(s', t) == 0;
  }

  /** The second barrier opens: every byte of every chunk has been served once. */
  lemma Closes(s: System, s': System, m0: map<nat, int>)
    requires Inv(s, m0) && Busy(s) && s'.gen == s.gen + 1 && s'.count == 0 && s'.mem == s.mem
    requires s'.done == s.done + [Current(s)] && Proper(Current(s))
    requires forall t: nat :: t < |s.workers| ==> Served(s, t) == ChunkOf(Current(s).len, |s.workers|)
    requires |s'.workers| == |s.workers| && AllAt(s', s.gen, false) && CallersOk(s')
    ensures Inv(s', m0)
  {
    NobodyAhead(s', s.gen, false);
    forall i | 0 <= i < |s'.workers| ensures WorkerOk(s', i) {
      assert s'.workers[i] == Await2(s.gen);
    }
    ServedAll(s, m0);
    assert s'.done[..|s'.done| - 1] == s.done;
  }

  lemma ServedAll(s: System, m0: map<nat, int>)
    requires MemoryBusy(s) && Proper(Current(s)) && |s.workers| > 0 && Alike(s.base, Effects(m0, s.done, |s.workers|))
    requires forall t: nat :: t < |s.workers| ==> Served(s, t) == ChunkOf(Current(s).len, |s.workers|)
    ensures Alike(s.mem, Effect(Effects(m0, s.done, |s.workers|), Current(s), |s.workers|))
  {
    hide Served;
    hide Current;
    hide Effects;
    var r, m, n := Current(s), Effects(m0, s.done, |s.workers|), |s.workers|;
    var chunk := ChunkOf(r.len, n);
    ChunksFit(r.len, n);
    forall a: nat ensures Peek(s.mem, a) == Peek(Effect(m, r, n), a) {
      SequentialAt(m, r, n * chunk, a);
      if r.dst <= a < r.dst + n * chunk {
        var t, k := Divide(a - r.dst, chunk, n);
        assert InChunk(r, chunk, t, k, a);
        assert Byte(s.base, r, a - r.dst) == Byte(m, r, a - r.dst);
      }
    }
  }

  lemma Divide(i: nat, chunk: nat, n: nat) returns (t: nat, k: nat)
    requires i < n * chunk
    ensures t < n && k < chunk && i == t * chunk + k
  {
    assert chunk == 0 ==> n * chunk == 0;
    t, k := i / chunk, i % chunk;
    assert i == t * chunk + k;
    assert t >= n ==> t * chunk >= n * chunk;
  }

  /** The last worker arrives. */
  lemma WorkerCompletes(s: System, t: nat, m0: map<nat, int>)
    requires Inv(s, m0) && t < |s.workers| && (s.workers[t].Start? || s.workers[t].Finish?) && s.count == |s.workers|
    ensures Inv(Do(s, WorkerStep(t)), m0)
  {
    hide ChunkOf;
    hide MemoryOk;
    var s' := Do(s, WorkerStep(t));
    assert WorkerOk(s, t);
    LastWorker(s, t);
    forall i | 0 <= i < |s'.workers| ensures s'.workers[i] == if Busy(s) then Await2(s.gen) else Await1(s.gen) {
      assert WorkerOk(s, i);
    }
    assert Proper(Current(s));
    if Busy(s) {
      forall i: nat | i < |s.workers| ensures Served(s, i) == ChunkOf(Current(s).len, |s.workers|) {
        assert i != t ==> s'.workers[i] == s.workers[i];
      }
      Closes(s, s', m0);
    } else {
      Opens(s, s', m0);
    }
  }

  /** The caller arrives last. */
  lemma CallerCompletes(s: System, c: nat, m0: map<nat, int>)
    requires Inv(s, m0) && c < |s.callers| && (s.callers[c].Arrive1? || s.callers[c].Arrive2?) && s.count == |s.workers|
    ensures Inv(Do(s, CallerStep(c)), m0)
  {
    hide ChunkOf;
    hide MemoryOk;
    var s' := Do(s, CallerStep(c));
    LastCaller(s);
    forall i | 0 <= i < |s'.workers| ensures s'.workers[i] == if Busy(s) then Await2(s.gen) else Await1(s.gen) {
      assert WorkerOk(s, i);
    }
    assert Proper(Current(s));
    if Busy(s) {
      assert forall i: nat :: i < |s.workers| ==> Served(s, i) == ChunkOf(Current(s).len, |s.workers|);
      Closes(s, s', m0);
    } else {
      Opens(s, s', m0);
    }
  }

  lemma StepInv(s: System, a: Action, m0: map<nat, int>)
    requires Inv(s, m0) && Enabled(s, a)
    ensures Inv(Do(s, a), m0)
  {
    assert s.count <= |s.workers|;
    match a
    case Call(c, r) => CallInv(s, c, r, m0);
    case CallerStep(c) =>
      if !s.callers[c].Arrive1? && !s.callers[c].Arrive2? {
        CallerInv(s, c, m0);
      } else if s.count < |s.workers| {
        CallerArrives(s, c, m0);
      } else {
        CallerCompletes(s, c, m0);
      }
    case WorkerStep(t) =>
      if s.workers[t].Start? || s.workers[t].Finish? {
        if s.count < |s.workers| {
          WorkerArrives(s, t, m0);
        } else {
          WorkerCompletes(s, t, m0);
        }
      } else if s.workers[t].Copying? && s.workers[t].k < ChunkOf(s.workers[t].len, |s.workers|) {
        WorkerCopies(s, t, m0);
      } else {
        WorkerReads(s, t, m0);
      }
  }

  /* ---- Runs ---- */

  ghost predicate Possible(s: System, run: seq<Action>)
    decreases |run|
  {
    run == [] || (Enabled(s, run[0]) && Possible(Do(s, run[0]), run[1..]))
  }

  ghost function After(s: System, run: seq<Action>): System
    requires Possible(s, run)
    decreases |run|
  {
    if run == [] then s else After(Do(s, run[0]), run[1..])
  }

  /** Threads created, nobody in a call, memory m0. */
  ghost predicate Started(s: System, m0: map<nat, int>) {
    && |s.workers| > 0 && (forall t :: 0 <= t < |s.workers| ==> s.workers[t] == Start)
    && (forall c :: 0 <= c < |s.callers| ==> s.callers[c] == Out)
    && s.lock.Nobody? && s.gen == 0 && s.count == 0 && s.mem == m0 && s.done == []
  }

  lemma StartInv(s: System, m0: map<nat, int>)
    requires Started(s, m0)
    ensures Inv(s, m0)
  {
    NoneWaits(s.workers, 0);
  }

  lemma {:induction false} EveryRun(s: System, run: seq<Action>, m0: map<nat, int>)
    requires Inv(s, m0) && Possible(s, run)
    ensures Inv(After(s, run), m0)
    decreases |run|
  {
    hide Inv;
    hide Enabled;
    hide Do;
    if run == [] {
    } else {
      StepInv(s, run[0], m0);
      EveryRun(Do(s, run[0]), run[1..], m0);
    }
  }

  /** In every run, whenever no copying is under way memory is what serving the completed requests one after the other
      makes of it. */
  lemma SerialRequests(s: System, run: seq<Action>, m0: map<nat, int>)
    requires Started(s, m0) && Possible(s, run)
    ensures var s' := After(s, run); !Busy(s') ==> Alike(s'.mem, Effects(m0, s'.done, |s'.workers|))
  {
    StartInv(s, m0);
    EveryRun(s, run, m0);
  }

  /** A worker between the two barriers works on the request of the caller that has the lock, and on no other. */
  lemma OnlyThePresentRequest(s: System, m0: map<nat, int>, t: nat)
    requires Inv(s, m0) && t < |s.workers| && s.workers[t].Copying?
    ensures s.lock.By? && s.lock.c < |s.callers| &&
            (s.callers[s.lock.c].Wait1? || s.callers[s.lock.c].Arrive2? || s.callers[s.lock.c].Wait2?)
    ensures var r, w := s.callers[s.lock.c].r, s.workers[t];
            && w.len == r.len && w.zero == r.zero && w.dst == r.dst + t * ChunkOf(r.len, |s.workers|)
            && (!w.zero ==> w.src == r.src + t * ChunkOf(r.len, |s.workers|))
  {
    assert WorkerOk(s, t);
  }

  /** A caller returns when its request has been served: every worker has done its chunk, once, and nothing else has
      happened to memory since the requests before it. */
  lemma ReturnsServed(s: System, m0: map<nat, int>, c: nat)
    requires Inv(s, m0) && c < |s.callers| && s.callers[c].Unlock?
    ensures JustDone(s.done, s.callers[c].r)
    ensures Alike(s.mem, Effect(Effects(m0, s.done[..|s.done| - 1], |s.workers|), s.callers[c].r, |s.workers|))
  {
    assert s.lock == By(c);
  }

  /* ---- The requests made and the requests served ---- */

  /** The request of a caller that is in a call. */
  function InCall(l: Caller): seq<Request> { if l.Out? then [] else [l.r] }

  lemma AtBarrier(s: System, r: Request)
    ensures var s' := Arrive(Noted(s, r));
            && s'.callers == s.callers && s'.workers == s.workers && s'.lock == s.lock
            && (s'.gen == s.gen || s'.gen == s.gen + 1)
            && s'.done == if s'.gen != s.gen && Busy(s) then s.done + [r] else s.done
  {
  }

  /** What a step of caller c does to its own place, and to no other caller. */
  ghost predicate Advances(l: Caller, l': Caller, g: nat) {
    && InCall(l') == (if l.Unlock? then [] else InCall(l))
    && (l.Arrive1? ==> l'.Wait1?) && (l.Arrive2? ==> l'.Wait2? && l'.g == g)
    && (!l.Arrive1? && !l.Arrive2? ==> !l'.Wait1? && !l'.Wait2?)
    && (l'.Unlock? || l'.Out? ==> l.Wait2? || l.Unlock? || l.Out?) && (l.Wait2? ==> l'.Unlock?)
  }

  lemma CallerKeepsRequest(s: System, c: nat)
    requires c < |s.callers|
    ensures var l := CallerDoes(s, c).callers;
            |l| == |s.callers| && l == s.callers[c := l[c]] && Advances(s.callers[c], l[c], s.gen)
  {
    hide Arrive;
    hide Noted;
    if s.callers[c].Arrive1? || s.callers[c].Arrive2? {
      AtBarrier(s, s.callers[c].r);
    }
  }

  lemma CallerHistory(s: System, c: nat)
    requires c < |s.callers|
    ensures var s', l := CallerDoes(s, c), s.callers[c];
            if l.Arrive1? || l.Arrive2?
            then (s'.gen == s.gen || s'.gen == s.gen + 1) &&
                 s'.done == if s'.gen != s.gen && Busy(s) then s.done + [l.r] else s.done
            else s'.gen == s.gen && s'.done == s.done
  {
    hide Arrive;
    hide Noted;
    hide Busy;
    if s.callers[c].Arrive1? || s.callers[c].Arrive2? {
      AtBarrier(s, s.callers[c].r);
    }
  }

  lemma WorkerKeepsCallers(s: System, t: nat)
    requires t < |s.workers|
    ensures WorkerDoes(s, t).callers == s.callers
  {
    hide ChunkOf;
    hide Current;
  }

  /** Nothing but its own call and its own return changes the request of a caller. */
  lemma RequestKept(s: System, a: Action, c: nat)
    requires Enabled(s, a) && c < |s.callers|
    requires !(a.Call? && a.c == c) && !(a.CallerStep? && a.c == c && s.callers[c].Unlock?)
    ensures |Do(s, a).callers| == |s.callers| && InCall(Do(s, a).callers[c]) == InCall(s.callers[c])
  {
    hide CallerDoes;
    hide WorkerDoes;
    match a
    case Call(_, _) =>
    case CallerStep(d) => CallerKeepsRequest(s, d);
    case WorkerStep(t) => WorkerKeepsCallers(s, t);
  }

  /** The requests of a caller's calls in a run. */
  function CallsOf(run: seq<Action>, c: nat): seq<Request> {
    if run == [] then []
    else (if run[0].Call? && run[0].c == c then [run[0].r] else []) + CallsOf(run[1..], c)
  }

  lemma StepCalls(s: System, a: Action, c: nat)
    requires Enabled(s, a) && c < |s.callers|
    ensures var l := Do(s, a).callers;
            && |l| == |s.callers|
            && (!l[c].Out? ==> InCall(l[c]) == InCall(s.callers[c]) + CallsOf([a], c))
  {
    hide CallerDoes;
    hide WorkerDoes;
    assert [a][1..] == [];
    match a
    case Call(_, _) =>
    case CallerStep(d) => CallerKeepsRequest(s, d);
    case WorkerStep(t) => WorkerKeepsCallers(s, t);
  }

  lemma FirstCalls(run: seq<Action>, c: nat)
    requires run != []
    ensures CallsOf(run, c) == CallsOf([run[0]], c) + CallsOf(run[1..], c)
  {
    assert [run[0]][1..] == [];
  }

  /** In every run a caller in a call has the request it was last called with. */
  lemma {:induction false} LastCall(s: System, run: seq<Action>, c: nat)
    requires Possible(s, run) && c < |s.callers|
    ensures c < |After(s, run).callers|
    ensures var calls, l := InCall(s.callers[c]) + CallsOf(run, c), After(s, run).callers[c];
            !l.Out? ==> calls != [] && l.r == calls[|calls| - 1]
    decreases |run|
  {
    hide Enabled;
    hide Do;
    if run == [] {
    } else {
      var a, s1 := run[0], Do(s, run[0]);
      StepCalls(s, a, c);
      LastCall(s1, run[1..], c);
      FirstCalls(run, c);
      Assoc(InCall(s.callers[c]), CallsOf([a], c), CallsOf(run[1..], c));
    }
  }

  /** Caller l is in a call that has not been served, seen in generation g. */
  predicate Owed(l: Caller, g: nat) { !l.Out? && !l.Unlock? && (l.Wait2? ==> l.g == g) }

  function OwedWith(r: Request, g: nat): Caller -> int {
    (l: Caller) => if Owed(l, g) && l.r == r then 1 else 0
  }

  /** How often request r has been done, or is still to be done for a caller. */
  ghost function Account(s: System, r: Request): int {
    multiset(s.done)[r] + Sum(s.callers, OwedWith(r, s.gen))
  }

  function Made(a: Action, r: Request): nat { if a.Call? && a.r == r then 1 else 0 }

  /** How often it has been asked for. */
  function AllMade(run: seq<Action>, r: Request): nat {
    if run == [] then 0 else Made(run[0], r) + AllMade(run[1..], r)
  }

  lemma CallAccount(s: System, c: nat, r: Request, x: Request)
    requires Enabled(s, Call(c, r))
    ensures Account(Do(s, Call(c, r)), x) == Account(s, x) + Made(Call(c, r), x)
  {
    SumUpdate(s.callers, OwedWith(x, s.gen), c, Want(r));
  }

  lemma SameOwed(s: System, c: nat, m0: map<nat, int>)
    requires Inv(s, m0) && Enabled(s, CallerStep(c)) && CallerDoes(s, c).gen == s.gen
    requires c < |CallerDoes(s, c).callers| && Advances(s.callers[c], CallerDoes(s, c).callers[c], s.gen)
    ensures Owed(CallerDoes(s, c).callers[c], s.gen) == Owed(s.callers[c], s.gen)
  {
    hide CallerDoes;
    hide WorkersOk;
    hide MemoryOk;
    hide BarrierOk;
  }

  /** A caller that does not complete the barrier. */
  lemma CallerAccount(s: System, c: nat, x: Request, m0: map<nat, int>)
    requires Inv(s, m0) && Enabled(s, CallerStep(c)) && Do(s, CallerStep(c)).gen == s.gen
    ensures Account(Do(s, CallerStep(c)), x) == Account(s, x)
  {
    hide CallerDoes;
    hide Sum;
    var s' := CallerDoes(s, c);
    CallerKeepsRequest(s, c);
    CallerHistory(s, c);
    SameOwed(s, c, m0);
    SumUpdate(s.callers, OwedWith(x, s.gen), c, s'.callers[c]);
  }

  /** The barrier opens: only the caller that has the lock has anything to do with it. */
  lemma BarrierAccount(s: System, s': System, x: Request, m0: map<nat, int>)
    requires Inv(s, m0) && s'.gen == s.gen + 1 && s.lock.By? && |s'.callers| == |s.callers|
    requires forall i :: 0 <= i < |s.callers| && i != s.lock.c ==> s'.callers[i] == s.callers[i]
    requires var l, l' := s.callers[s.lock.c], s'.callers[s.lock.c];
             && !l.Out? && Owed(l, s.gen) && !l'.Out? && l'.r == l.r
             && (if Busy(s) then !Owed(l', s'.gen) && s'.done == s.done + [l.r]
                 else Owed(l', s'.gen) && s'.done == s.done)
    ensures Account(s', x) == Account(s, x)
  {
    hide WorkersOk;
    hide MemoryOk;
    hide BarrierOk;
    hide Sum;
    forall i | 0 <= i < |s.callers| && i != s.lock.c
      ensures OwedWith(x, s.gen)(s.callers[i]) == OwedWith(x, s'.gen)(s'.callers[i])
    {
      assert s.callers[i].Out? || s.callers[i].Want?;
    }
    SumDiffers(s.callers, OwedWith(x, s.gen), s'.callers, OwedWith(x, s'.gen), s.lock.c);
  }

  lemma CallerCloses(s: System, c: nat, x: Request, m0: map<nat, int>)
    requires Inv(s, m0) && Enabled(s, CallerStep(c)) && Do(s, CallerStep(c)).gen != s.gen
    ensures Account(Do(s, CallerStep(c)), x) == Account(s, x)
  {
    hide WorkersOk;
    hide MemoryOk;
    hide BarrierOk;
    hide Account;
    assert s.lock == By(c);
    BarrierAccount(s, Do(s, CallerStep(c)), x, m0);
  }

  lemma WorkerHistory(s: System, t: nat)
    requires t < |s.workers|
    ensures var s', w := WorkerDoes(s, t), s.workers[t];
            if w.Start? || w.Finish?
            then (s'.gen == s.gen || s'.gen == s.gen + 1) &&
                 s'.done == if s'.gen != s.gen && Busy(s) then s.done + [Current(s)] else s.done
            else s'.gen == s.gen && s'.done == s.done
  {
    hide Arrive;
    hide Noted;
    hide Busy;
    hide Current;
    hide ChunkOf;
    AtBarrier(s, Current(s));
  }

  lemma WorkerAccount(s: System, t: nat, x: Request, m0: map<nat, int>)
    requires Inv(s, m0) && Enabled(s, WorkerStep(t))
    ensures Account(Do(s, WorkerStep(t)), x) == Account(s, x)
  {
    hide WorkerDoes;
    hide MemoryOk;
    hide Sum;
    var s' := WorkerDoes(s, t);
    WorkerKeepsCallers(s, t);
    WorkerHistory(s, t);
    if s'.gen != s.gen {
      WorkerHolder(s, t, m0);
      BarrierAccount(s, s', x, m0);
    }
  }

  /** When a worker opens the barrier, the caller that has the lock is waiting at it. */
  lemma WorkerHolder(s: System, t: nat, m0: map<nat, int>)
    requires Inv(s, m0) && Enabled(s, WorkerStep(t)) && WorkerDoes(s, t).gen != s.gen
    ensures s.lock.By? && s.lock.c < |s.callers|
    ensures var l := s.callers[s.lock.c]; if Busy(s) then l.Wait2? && l.g == s.gen else l.Wait1?
  {
    hide MemoryOk;
    hide Sum;
    hide ChunkOf;
    hide Noted;
    assert WorkerOk(s, t);
    WorkerHistory(s, t);
    LastToCome(s, t);
    LastWorker(s, t);
  }

  lemma LastToCome(s: System, t: nat)
    requires t < |s.workers| && WorkerDoes(s, t).gen != s.gen
    ensures s.count == |s.workers|
  {
    hide Current;
    hide ChunkOf;
  }

  lemma StepAccount(s: System, a: Action, x: Request, m0: map<nat, int>)
    requires Inv(s, m0) && Enabled(s, a)
    ensures Account(Do(s, a), x) == Account(s, x) + Made(a, x)
  {
    hide Inv;
    hide Enabled;
    hide Do;
    hide Account;
    match a
    case Call(c, r) => CallAccount(s, c, r, x);
    case CallerStep(c) =>
      if Do(s, a).gen == s.gen {
        CallerAccount(s, c, x, m0);
      } else {
        CallerCloses(s, c, x, m0);
      }
    case WorkerStep(t) => WorkerAccount(s, t, x, m0);
  }

  lemma {:induction false} RunAccount(s: System, run: seq<Action>, x: Request, m0: map<nat, int>)
    requires Inv(s, m0) && Possible(s, run)
    ensures Account(After(s, run), x) == Account(s, x) + AllMade(run, x)
    decreases |run|
  {
    hide Inv;
    hide Enabled;
    hide Do;
    hide Account;
    if run == [] {
    } else {
      StepInv(s, run[0], m0);
      StepAccount(s, run[0], x, m0);
      RunAccount(Do(s, run[0]), run[1..], x, m0);
    }
  }

  lemma {:induction false} NothingOwed(callers: seq<Caller>, r: Request, g: nat)
    requires forall c :: 0 <= c < |callers| ==> callers[c] == Out
    ensures Sum(callers, OwedWith(r, g)) == 0
  {
    if callers == [] {
    } else {
      NothingOwed(callers[1..], r, g);
    }
  }

  /** Whatever is asked for is done once: in every run each request has been done as often as it has been asked for,
      less the callers that still wait for it. */
  lemma EveryRequestOnce(s: System, run: seq<Action>, r: Request, m0: map<nat, int>)
    requires Started(s, m0) && Possible(s, run)
    ensures var s' := After(s, run);
            multiset(s'.done)[r] + Sum(s'.callers, OwedWith(r, s'.gen)) == AllMade(run, r)
  {
    StartInv(s, m0);
    RunAccount(s, run, r, m0);
    NothingOwed(s.callers, r, s.gen);
  }

  /** All the requests of the calls of a run. */
  function Asked(run: seq<Action>): seq<Request> {
    if run == [] then [] else (if run[0].Call? then [run[0].r] else []) + Asked(run[1..])
  }

  lemma {:induction false} AskedMade(run: seq<Action>, r: Request)
    ensures multiset(Asked(run))[r] == AllMade(run, r)
  {
    if run == [] {
    } else {
      AskedMade(run[1..], r);
    }
  }

  ghost predicate NobodyCalls(s: System) { forall c :: 0 <= c < |s.callers| ==> s.callers[c] == Out }

  /** When all callers have returned, each request of their calls has been served once, one after the other, and memory
      is what that leaves. */
  lemma AllReturned(s: System, run: seq<Action>, m0: map<nat, int>)
    requires Started(s, m0) && Possible(s, run) && NobodyCalls(After(s, run))
    ensures var s' := After(s, run);
            multiset(s'.done) == multiset(Asked(run)) && Alike(s'.mem, Effects(m0, s'.done, |s'.workers|))
  {
    hide Started;
    hide Inv;
    hide Alike;
    var s' := After(s, run);
    forall r: Request ensures multiset(s'.done)[r] == multiset(Asked(run))[r] {
      EveryRequestOnce(s, run, r, m0);
      NothingOwed(s'.callers, r, s'.gen);
      AskedMade(run, r);
    }
    StartInv(s, m0);
    EveryRun(s, run, m0);
    if Busy(s') {
      BusyFor(s', m0);
    }
    SerialRequests(s, run, m0);
  }

  /** A single call has the effect of its request, and no other. */
  lemma OneCall(s: System, run: seq<Action>, r: Request, m0: map<nat, int>)
    requires Started(s, m0) && Possible(s, run) && NobodyCalls(After(s, run)) && Asked(run) == [r]
    ensures Alike(After(s, run).mem, Effect(m0, r, |After(s, run).workers|))
  {
    hide Started;
    hide Possible;
    hide After;
    hide NobodyCalls;
    hide Alike;
    hide Effect;
    AllReturned(s, run, m0);
    var done := After(s, run).done;
    assert multiset(done) == multiset([r]);
    assert |done| == |multiset(done)| == 1;
    assert done[0] in multiset(done);
    assert done == [r] && done[..0] == [];
    assert Effects(m0, done[..0], |After(s, run).workers|) == m0;
  }

  /* ---- Progress ---- */

  /** How many steps a caller has still to take. */
  function CallerToGo(): Caller -> int {
    (l: Caller) =>
      match l
      case Out => 0
      case Unlock(_) => 1
      case Wait2(_, _) => 2
      case Arrive2(_) => 3
      case Wait1(_, _) => 4
      case Arrive1(_) => 5
      case SetZero(_) => 6
      case SetLen(_) => 7
      case SetSrc(_) => 8
      case SetDst(_) => 9
      case Want(_) => 10
  }

  /** How many steps a worker has still to take before the barrier next opens. */
  function WorkerToGo(busy: bool, chunk: nat): Worker -> int {
    (w: Worker) =>
      match w
      case Start => 1
      case Await1(_) => if busy then chunk + 7 else 0
      case ReadLen => chunk + 6
      case ReadDst(_) => chunk + 5
      case ReadZero(_, _) => chunk + 4
      case ReadSrc(_, _) => chunk + 3
      case Copying(_, _, _, _, k) => if k < chunk then 2 + chunk - k else 2
      case Finish => 1
      case Await2(_) => if busy then 0 else 2
  }

  /** A call whose copying has not begun. */
  function Unopened(busy: bool): Caller -> int {
    (l: Caller) => if l.Out? || l.Unlock? || l.Wait2? || l.Arrive2? || (busy && l.Wait1?) then 0 else 1
  }

  /** The chunk the workers are copying; of no account when they are not. */
  function ChunkNow(s: System): nat { if Busy(s) then ChunkOf(Current(s).len, |s.workers|) else 0 }

  /** Calls whose copying has not begun; whether copying is under way; and the steps that callers and workers have left
      before the barrier next opens. */
  ghost function ToGo(s: System): (int, int, int) {
    (Sum(s.callers, Unopened(Busy(s))), if Busy(s) then 1 else 0,
     Sum(s.callers, CallerToGo()) + Sum(s.workers, WorkerToGo(Busy(s), ChunkNow(s))))
  }

  /** Smaller, in the lexicographic order. */
  predicate Less(a: (int, int, int), b: (int, int, int)) {
    a.0 < b.0 || (a.0 == b.0 && (a.1 < b.1 || (a.1 == b.1 && a.2 < b.2)))
  }

  lemma {:induction false} NotNegative<T>(s: seq<T>, w: T -> int)
    requires forall i :: 0 <= i < |s| ==> w(s[i]) >= 0
    ensures Sum(s, w) >= 0
  {
    if s == [] {
    } else {
      NotNegative(s[1..], w);
    }
  }

  lemma ToGoBounded(s: System)
    ensures ToGo(s).0 >= 0 && ToGo(s).1 >= 0 && ToGo(s).2 >= 0
  {
    NotNegative(s.callers, Unopened(Busy(s)));
    NotNegative(s.callers, CallerToGo());
    NotNegative(s.workers, WorkerToGo(Busy(s), ChunkNow(s)));
  }

  lemma CallerStepsDown(s: System, c: nat)
    requires c < |s.callers| && !s.callers[c].Out?
    ensures var l := CallerDoes(s, c).callers; c < |l| && CallerToGo()(l[c]) < CallerToGo()(s.callers[c])
  {
    hide Arrive;
    hide Noted;
    if s.callers[c].Arrive1? || s.callers[c].Arrive2? {
      AtBarrier(s, s.callers[c].r);
    }
  }

  lemma SameUnopened(s: System, c: nat, m0: map<nat, int>)
    requires Inv(s, m0) && Enabled(s, CallerStep(c)) && CallerDoes(s, c).gen == s.gen
    ensures var l := CallerDoes(s, c).callers;
            c < |l| && Unopened(Busy(s))(l[c]) == Unopened(Busy(s))(s.callers[c])
  {
    hide WorkersOk;
    hide MemoryOk;
    hide BarrierOk;
    hide Arrive;
    hide Noted;
    if s.callers[c].Arrive1? || s.callers[c].Arrive2? {
      AtBarrier(s, s.callers[c].r);
    }
  }

  lemma CallerKeepsWorkers(s: System, c: nat)
    requires c < |s.callers|
    ensures var s' := CallerDoes(s, c);
            s'.workers == s.workers && (!s.callers[c].Want? && !s.callers[c].Unlock? ==> s'.lock == s.lock)
  {
    hide Arrive;
    hide Noted;
    if s.callers[c].Arrive1? || s.callers[c].Arrive2? {
      AtBarrier(s, s.callers[c].r);
    }
  }

  lemma CallerSameChunk(s: System, c: nat, m0: map<nat, int>)
    requires Inv(s, m0) && Enabled(s, CallerStep(c)) && CallerDoes(s, c).gen == s.gen
    ensures ChunkNow(CallerDoes(s, c)) == ChunkNow(s)
  {
    hide CallerDoes;
    hide WorkersOk;
    hide MemoryOk;
    hide BarrierOk;
    hide ChunkOf;
    CallerKeepsRequest(s, c);
    CallerKeepsWorkers(s, c);
  }

  lemma CallerProgress(s: System, c: nat, m0: map<nat, int>)
    requires Inv(s, m0) && Enabled(s, CallerStep(c)) && CallerDoes(s, c).gen == s.gen
    ensures Less(ToGo(CallerDoes(s, c)), ToGo(s))
  {
    hide CallerDoes;
    hide Inv;
    hide Sum;
    hide CallerToGo;
    hide Unopened;
    hide ChunkNow;
    var s' := CallerDoes(s, c);
    CallerStepsDown(s, c);
    SameUnopened(s, c, m0);
    CallerSameChunk(s, c, m0);
    CallerKeepsWorkers(s, c);
    CallerKeepsRequest(s, c);
    SumUpdate(s.callers, CallerToGo(), c, s'.callers[c]);
    SumUpdate(s.callers, Unopened(Busy(s)), c, s'.callers[c]);
  }

  lemma WorkerKeepsOthers(s: System, t: nat)
    requires t < |s.workers|
    ensures var s' := WorkerDoes(s, t);
            |s'.workers| == |s.workers| && s'.workers == s.workers[t := s'.workers[t]] && s'.lock == s.lock
  {
    hide ChunkOf;
    hide Current;
    hide Arrive;
    hide Noted;
    hide Peek;
    hide Busy;
    if s.workers[t].Start? || s.workers[t].Finish? {
      AtBarrier(s, Current(s));
    }
  }

  lemma WorkerStepsDown(s: System, t: nat)
    requires t < |s.workers| && WorkerOk(s, t) && Enabled(s, WorkerStep(t))
    ensures t < |WorkerDoes(s, t).workers|
    ensures WorkerToGo(Busy(s), ChunkNow(s))(WorkerDoes(s, t).workers[t])
            < WorkerToGo(Busy(s), ChunkNow(s))(s.workers[t])
  {
    hide ChunkOf;
    hide Current;
    hide Arrive;
    hide Noted;
    if s.workers[t].Start? || s.workers[t].Finish? {
      WorkerAtBarrier(s, t);
    }
  }

  lemma WorkerAtBarrier(s: System, t: nat)
    requires t < |s.workers| && (s.workers[t].Start? || s.workers[t].Finish?)
    ensures var l := WorkerDoes(s, t).workers;
            t < |l| && l[t] == if s.workers[t].Start? then Await1(s.gen) else Await2(s.gen)
  {
    hide ChunkOf;
    hide Current;
    hide Arrive;
    hide Noted;
    AtBarrier(s, Current(s));
  }

  lemma WorkerFine(s: System, t: nat, m0: map<nat, int>)
    requires Inv(s, m0) && t < |s.workers|
    ensures WorkerOk(s, t)
  {
  }

  lemma SameChunk(s: System, s': System)
    requires s'.lock == s.lock && s'.callers == s.callers && s'.gen == s.gen && |s'.workers| == |s.workers|
    requires Busy(s) ==> s.lock.By? && s.lock.c < |s.callers| && !s.callers[s.lock.c].Out?
    ensures ChunkNow(s') == ChunkNow(s)
  {
  }

  lemma BusyFor(s: System, m0: map<nat, int>)
    requires Inv(s, m0) && Busy(s)
    ensures s.lock.By? && s.lock.c < |s.callers| && !s.callers[s.lock.c].Out?
  {
  }

  lemma WorkerProgress(s: System, t: nat, m0: map<nat, int>)
    requires Inv(s, m0) && Enabled(s, WorkerStep(t)) && WorkerDoes(s, t).gen == s.gen
    ensures Less(ToGo(WorkerDoes(s, t)), ToGo(s))
  {
    hide WorkerDoes;
    hide Inv;
    hide Sum;
    hide CallerToGo;
    hide WorkerToGo;
    hide Unopened;
    hide ChunkNow;
    var s' := WorkerDoes(s, t);
    assert WorkerOk(s, t) by {
      WorkerFine(s, t, m0);
    }
    WorkerStepsDown(s, t);
    WorkerKeepsOthers(s, t);
    WorkerKeepsCallers(s, t);
    if Busy(s) {
      BusyFor(s, m0);
    }
    SameChunk(s, WorkerDoes(s, t));
    SumUpdate(s.workers, WorkerToGo(Busy(s), ChunkNow(s)), t, s'.workers[t]);
  }

  /** The opening of the barrier begins the copying of one more call, or ends it. */
  lemma BarrierProgress(s: System, s': System, m0: map<nat, int>)
    requires Inv(s, m0) && s'.gen == s.gen + 1 && s.lock.By? && |s'.callers| == |s.callers|
    requires forall i :: 0 <= i < |s.callers| && i != s.lock.c ==> s'.callers[i] == s.callers[i]
    requires var l, l' := s.callers[s.lock.c], s'.callers[s.lock.c];
             if Busy(s) then (l.Wait2? || l.Arrive2?) && l'.Wait2? else (l.Wait1? || l.Arrive1?) && l'.Wait1?
    ensures Less(ToGo(s'), ToGo(s))
  {
    hide WorkersOk;
    hide MemoryOk;
    hide BarrierOk;
    hide Sum;
    forall i | 0 <= i < |s.callers| && i != s.lock.c
      ensures Unopened(Busy(s))(s.callers[i]) == Unopened(Busy(s'))(s'.callers[i])
    {
      assert s.callers[i].Out? || s.callers[i].Want?;
    }
    SumDiffers(s.callers, Unopened(Busy(s)), s'.callers, Unopened(Busy(s')), s.lock.c);
  }

  lemma CallerOpens(s: System, c: nat, m0: map<nat, int>)
    requires Inv(s, m0) && Enabled(s, CallerStep(c)) && CallerDoes(s, c).gen != s.gen
    ensures Less(ToGo(CallerDoes(s, c)), ToGo(s))
  {
    hide WorkersOk;
    hide MemoryOk;
    hide BarrierOk;
    hide ToGo;
    assert s.lock == By(c);
    BarrierProgress(s, CallerDoes(s, c), m0);
  }

  lemma WorkerOpens(s: System, t: nat, m0: map<nat, int>)
    requires Inv(s, m0) && Enabled(s, WorkerStep(t)) && WorkerDoes(s, t).gen != s.gen
    ensures Less(ToGo(WorkerDoes(s, t)), ToGo(s))
  {
    hide Inv;
    hide WorkerDoes;
    hide Sum;
    hide ToGo;
    WorkerKeepsCallers(s, t);
    WorkerHistory(s, t);
    WorkerHolder(s, t, m0);
    BarrierProgress(s, WorkerDoes(s, t), m0);
  }

  /** Every step of a caller or a worker, in whatever order they come, brings all calls nearer to their returns: with no
      new calls the threads come to rest, and by NoDeadlock not before every caller has returned. */
  lemma Progress(s: System, a: Action, m0: map<nat, int>)
    requires Inv(s, m0) && Enabled(s, a) && !a.Call?
    ensures Less(ToGo(Do(s, a)), ToGo(s))
  {
    hide Inv;
    hide CallerDoes;
    hide WorkerDoes;
    hide ToGo;
    hide Less;
    match a
    case CallerStep(c) =>
      if CallerDoes(s, c).gen == s.gen {
        CallerProgress(s, c, m0);
      } else {
        CallerOpens(s, c, m0);
      }
    case WorkerStep(t) =>
      if WorkerDoes(s, t).gen == s.gen {
        WorkerProgress(s, t, m0);
      } else {
        WorkerOpens(s, t, m0);
      }
  }

  /** Nobody is stuck: while a caller is in a call, some thread can take a step. */
  lemma NoDeadlock(s: System, m0: map<nat, int>, c: nat) returns (a: Action)
    requires Inv(s, m0) && c < |s.callers| && !s.callers[c].Out?
    ensures !a.Call? && Enabled(s, a)
  {
    if s.lock.Nobody? {
      assert s.callers[c].Want?;
      a := CallerStep(c);
    } else if CallerWaits(s, s.gen) == 0 {
      a := CallerStep(s.lock.c);
    } else {
      AllWait(s.workers, s.gen);
      var t := Loiterer(s.workers, s.gen);
      assert WorkerOk(s, t);
      a := WorkerStep(t);
    }
  }

  lemma {:induction false} Loiterer(ws: seq<Worker>, g: nat) returns (t: nat)
    requires Sum(ws, WaitsIn(g)) < |ws|
    ensures t < |ws| && WaitsIn(g)(ws[t]) == 0
  {
    if WaitsIn(g)(ws[0]) == 0 {
      t := 0;
    } else {
      t := Loiterer(ws[1..], g);
      t := t + 1;
    }
  }

  lemma Stepwise(s: System, a: Action, run: seq<Action>)
    requires Enabled(s, a) && !a.Call? && Possible(Do(s, a), run)
    ensures Possible(s, [a] + run) && After(s, [a] + run) == After(Do(s, a), run) && Asked([a] + run) == Asked(run)
  {
    assert ([a] + run)[1..] == run;
    assert [] + Asked(run) == Asked(run);
  }

  /** From wherever the threads stand they can bring all calls to their returns. */
  lemma {:induction false} CanReturn(s: System, m0: map<nat, int>) returns (run: seq<Action>)
    requires Inv(s, m0)
    ensures Possible(s, run) && Asked(run) == [] && NobodyCalls(After(s, run))
    decreases ToGo(s).0, ToGo(s).1, ToGo(s).2
  {
    hide Inv;
    hide Enabled;
    hide Do;
    hide ToGo;
    if c: nat :| c < |s.callers| && s.callers[c] != Out {
      var a := NoDeadlock(s, m0, c);
      StepInv(s, a, m0);
      Progress(s, a, m0);
      ToGoBounded(s);
      ToGoBounded(Do(s, a));
      var rest := CanReturn(Do(s, a), m0);
      Stepwise(s, a, rest);
      run := [a] + rest;
    } else {
      run := [];
    }
  }

  /** A copy can be asked for whenever its caller is in no call, and made: from the start, after the call and some steps
      of the threads, the request has had its effect. */
  lemma CanCopy(s: System, c: nat, r: Request, m0: map<nat, int>) returns (run: seq<Action>)
    requires Started(s, m0) && c < |s.callers| && Proper(r)
    ensures Possible(s, [Call(c, r)] + run) && Asked(run) == []
    ensures NobodyCalls(After(s, [Call(c, r)] + run))
    ensures var s' := After(s, [Call(c, r)] + run); Alike(s'.mem, Effect(m0, r, |s'.workers|))
  {
    hide Inv;
    hide Alike;
    hide Effect;
    var a := Call(c, r);
    StartInv(s, m0);
    StepInv(s, a, m0);
    run := CanReturn(Do(s, a), m0);
    assert ([a] + run)[1..] == run;
    OneCall(s, [a] + run, r, m0);
  }
}
