/**
 Completion of operations on an event loop: those the kernel completes, and those
 offloaded to pool threads, which hand them back through ext_done_ and a coalesced
 wake on an eventfd.  Each critical section under the mutex, each write or read of
 the eventfd and each step of the loop is one step; any number of pool threads are
 interleaved arbitrarily.
 */
module Completion {
  type Id = nat

  /** Where an operation stands. */
  datatype Phase =
    | Idle
    | Queued                    // tracked, its job in the pool's queue
    | Working(thread: nat)      // a pool thread runs the job
    | Done                      // in ext_done_
    | Drained                   // swapped out of ext_done_, not yet untracked
    | InKernel                  // a submitted ring operation
    | Posted                    // its completion is in the ring
    | Ready                     // untracked, about to be resumed
    | Resumed
    | Refused                   // the pool's queue was full: untracked again, never resumed

  predicate InFlight(p: Phase) { p.Queued? || p.Working? || p.Done? || p.Drained? || p.InKernel? || p.Posted? }

  datatype Thread = Free | Runs(op: Id) | MustWake

  datatype Loop =
    | Coroutines                // resuming what is ready; coroutines may start operations
    | Waiting                   // in io_uring_submit_and_wait
    | Completions(saw: bool, some: bool)  // in ProcessReadyCompletions: a wake seen, anything seen
    | Draining                  // in DrainExternal, after the swap

  datatype State = State(
    phase: Id -> Phase,
    resumed: Id -> nat,         // how often each operation's coroutine was resumed
    pending: seq<Id>,           // the intrusive list
    thread: nat -> Thread,
    done: seq<Id>,              // ext_done_
    wakePending: bool,          // ext_wake_pending_
    counter: nat,               // the eventfd
    prepared: bool,             // a wake read is in the submission queue
    armed: bool,                // the kernel holds a wake read
    wakePosted: bool,           // its completion is in the ring
    posted: seq<Id>,            // other completions in the ring
    owing: seq<nat>,            // history: the threads that must wake
    local: seq<Id>,             // swapped out by DrainExternal
    ready: seq<Id>,
    loop: Loop)

  datatype Action =
    | StartOffload(op: Id)      // await_suspend: track, submit
    | StartRefused(op: Id)      // the same with a full queue
    | StartRing(op: Id)
    | Block                     // submit what is prepared and wait
    | Wake                      // some completion is there
    | SeeWake                   // the wake completion: re-arm
    | SeeOp                     // another completion
    | Skip                      // no wake seen: straight to resuming
    | Drain                     // swap ext_done_ out under the mutex
    | Settle                    // untrack one drained operation
    | Drained
    | Resume
    | Take(t: nat, op: Id)      // a pool thread takes a job
    | Finish(t: nat)            // EnqueueExternalDone
    | Signal(t: nat)            // write to the eventfd
    | KernelRead                // the wake read completes
    | KernelOp(op: Id)          // a ring operation completes
    | Notify                    // anyone may write to the eventfd at any time

  function Set<T>(f: nat -> T, n: nat, v: T): nat -> T { (m: nat) => if m == n then v else f(m) }

  /** The list without one occurrence of the operation. */
  function Remove(s: seq<Id>, op: Id): seq<Id> {
    if s == [] then [] else if s[0] == op then s[1..] else [s[0]] + Remove(s[1..], op)
  }

  predicate Enabled(s: State, a: Action) {
    match a
    case StartOffload(op) => s.loop.Coroutines? && s.phase(op).Idle?
    case StartRefused(op) => s.loop.Coroutines? && s.phase(op).Idle?
    case StartRing(op) => s.loop.Coroutines? && s.phase(op).Idle?
    case Block => s.loop.Coroutines? && s.ready == []
    case Wake => s.loop.Waiting? && (s.wakePosted || s.posted != [])
    case SeeWake => s.loop.Completions? && s.wakePosted
    case SeeOp => s.loop.Completions? && s.posted != []
    case Skip => s.loop == Completions(false, true)
    case Drain => s.loop.Completions? && s.loop.some
    case Settle => s.loop.Draining? && s.local != []
    case Drained => s.loop.Draining? && s.local == []
    case Resume => s.loop.Coroutines? && s.ready != []
    case Take(t, op) => s.thread(t).Free? && s.phase(op).Queued?
    case Finish(t) => s.thread(t).Runs?
    case Signal(t) => s.thread(t).MustWake?
    case KernelRead => s.armed && s.counter > 0
    case KernelOp(op) => s.phase(op).InKernel?
    case Notify => true
  }

  function Do(s: State, a: Action): State
    requires Enabled(s, a)
  {
    match a
    case StartOffload(op) => s.(phase := Set(s.phase, op, Queued), pending := [op] + s.pending)
    case StartRefused(op) => s.(phase := Set(s.phase, op, Refused), pending := Remove([op] + s.pending, op))
    case StartRing(op) => s.(phase := Set(s.phase, op, InKernel), pending := [op] + s.pending)
    case Block => s.(loop := Waiting, armed := s.armed || s.prepared, prepared := false)
    case Wake => s.(loop := Completions(false, false))
    case SeeWake => s.(loop := Completions(true, true), wakePosted := false, prepared := true)
    case SeeOp =>
      var op := s.posted[0];
      s.(loop := s.loop.(some := true), posted := s.posted[1..], phase := Set(s.phase, op, Ready),
        pending := Remove(s.pending, op), ready := s.ready + [op])
    case Skip => s.(loop := Coroutines)
    case Drain =>
      s.(loop := Draining, local := s.done, done := [], wakePending := false, phase := MarkAll(s.phase, s.done))
    case Settle =>
      var op := s.local[0];
      s.(local := s.local[1..], phase := Set(s.phase, op, Ready), pending := Remove(s.pending, op),
        ready := s.ready + [op])
    case Drained => s.(loop := Coroutines)
    case Resume =>
      var op := s.ready[0];
      s.(ready := s.ready[1..], phase := Set(s.phase, op, Resumed),
        resumed := Set<nat>(s.resumed, op, s.resumed(op) + 1))
    case Take(t, op) => s.(phase := Set(s.phase, op, Working(t)), thread := Set(s.thread, t, Runs(op)))
    case Finish(t) =>
      var op := s.thread(t).op;
      s.(phase := Set(s.phase, op, Done), done := s.done + [op], wakePending := true,
         thread := Set(s.thread, t, if s.wakePending then Free else MustWake),
         owing := if s.wakePending then s.owing else [t] + s.owing)
    case Signal(t) => s.(counter := s.counter + 1, thread := Set(s.thread, t, Free), owing := Remove(s.owing, t))
    case KernelRead => s.(counter := 0, armed := false, wakePosted := true)
    case KernelOp(op) => s.(phase := Set(s.phase, op, Posted), posted := s.posted + [op])
    case Notify => s.(counter := s.counter + 1)
  }

  /** Swapping a list out. */
  function MarkAll(phase: Id -> Phase, ops: seq<Id>): Id -> Phase
  {
    (op: Id) => if op in ops then Phase.Drained else phase(op)
  }

  ghost predicate Init(s: State) {
    && (forall op :: s.phase(op).Idle? && s.resumed(op) == 0) && (forall t :: s.thread(t).Free?)
    && s.pending == [] && s.done == [] && !s.wakePending && s.counter == 0
    && !s.prepared && s.armed && !s.wakePosted && s.posted == [] && s.local == [] && s.ready == [] && s.owing == []
    && s.loop.Coroutines?
  }

  ghost predicate Reaches(s: State, acts: seq<Action>, z: State)
    decreases |acts|
  {
    if acts == [] then s == z
    else Enabled(s, acts[0]) && Reaches(Do(s, acts[0]), acts[1..], z)
  }

  // ---------------------------------------------------------------- what every step keeps

  function One(b: bool): nat { if b then 1 else 0 }

  function Occurs(s: seq<Id>, op: Id): nat { if s == [] then 0 else One(s[0] == op) + Occurs(s[1..], op) }

  /** The operation is on each list exactly when its phase says so, and then once. */
  ghost predicate OpOk(s: State, op: Id) {
    && Occurs(s.pending, op) == One(InFlight(s.phase(op)))
    && Occurs(s.done, op) == One(s.phase(op).Done?)
    && Occurs(s.local, op) == One(s.phase(op).Drained?)
    && Occurs(s.posted, op) == One(s.phase(op).Posted?)
    && Occurs(s.ready, op) == One(s.phase(op).Ready?)
    && s.resumed(op) == One(s.phase(op).Resumed?)
    && (s.phase(op).Working? ==> s.thread(s.phase(op).thread) == Runs(op))
  }

  ghost predicate ThreadOk(s: State, t: nat) {
    (s.thread(t).Runs? ==> s.phase(s.thread(t).op) == Working(t)) && Occurs(s.owing, t) == One(s.thread(t).MustWake?)
  }

  /** The one wake read is always somewhere; what was drained is settled before anything else. */
  ghost predicate LoopOk(s: State) {
    && One(s.prepared) + One(s.armed) + One(s.wakePosted) == 1
    && (s.loop.Waiting? ==> !s.prepared && s.ready == [])
    && (!s.loop.Draining? ==> s.local == [])
    && (s.loop.Completions? ==> (s.loop.saw ==> s.loop.some) && (!s.loop.some ==> s.wakePosted || s.posted != []))
  }

  /** A wake is on its way: due from the named thread, unread, posted, or already seen by the loop. */
  ghost predicate WakeComing(s: State, waker: nat) {
    s.thread(waker).MustWake? || s.counter > 0 || s.wakePosted || s.loop == Completions(true, true)
  }

  ghost predicate Inv(s: State, waker: nat) {
    && (forall op {:trigger OpOk(s, op)} :: OpOk(s, op))
    && (forall t {:trigger ThreadOk(s, t)} :: ThreadOk(s, t))
    && LoopOk(s)
    && (s.wakePending <==> s.done != [])
    && (s.wakePending ==> WakeComing(s, waker))
  }

  lemma {:induction false} OccursAppend(s: seq<Id>, x: Id, op: Id)
    ensures Occurs(s + [x], op) == Occurs(s, op) + One(x == op)
  {
    if s != [] {
      assert (s + [x])[1..] == s[1..] + [x];
      OccursAppend(s[1..], x, op);
    }
  }

  lemma {:induction false} OccursRemove(s: seq<Id>, x: Id, op: Id)
    ensures Occurs(Remove(s, x), op) == if x == op && Occurs(s, op) > 0 then Occurs(s, op) - 1 else Occurs(s, op)
  {
    if s != [] && s[0] != x {
      OccursRemove(s[1..], x, op);
      assert ([s[0]] + Remove(s[1..], x))[1..] == Remove(s[1..], x);
    }
  }

  lemma OccursPush(s: seq<Id>, x: Id, op: Id)
    ensures Occurs([x] + s, op) == Occurs(s, op) + One(x == op)
  {
    assert ([x] + s)[1..] == s;
  }

  lemma {:induction false} OccursIn(s: seq<Id>, op: Id)
    ensures Occurs(s, op) > 0 <==> op in s
  {
    if s != [] { OccursIn(s[1..], op); }
  }

  /** Untracking x and making it ready. */
  lemma OpMoves(s: State, x: Id, op: Id)
    ensures Occurs(Remove(s.pending, x), op) ==
            if x == op && Occurs(s.pending, op) > 0 then Occurs(s.pending, op) - 1 else Occurs(s.pending, op)
    ensures Occurs(s.ready + [x], op) == Occurs(s.ready, op) + One(x == op)
  {
    OccursRemove(s.pending, x, op);
    OccursAppend(s.ready, x, op);
  }

  lemma StartOp(s: State, a: Action, op: Id)
    requires Enabled(s, a) && (a.StartOffload? || a.StartRefused? || a.StartRing?) && OpOk(s, op)
    ensures OpOk(Do(s, a), op)
  {
    OccursPush(s.pending, a.op, op);
    OccursRemove([a.op] + s.pending, a.op, op);
  }

  lemma SeeOpOp(s: State, op: Id)
    requires Enabled(s, SeeOp) && OpOk(s, op) && OpOk(s, s.posted[0])
    ensures OpOk(Do(s, SeeOp), op)
  { OpMoves(s, s.posted[0], op); }

  lemma SettleOp(s: State, op: Id)
    requires Enabled(s, Settle) && OpOk(s, op) && OpOk(s, s.local[0])
    ensures OpOk(Do(s, Settle), op)
  { OpMoves(s, s.local[0], op); }

  lemma DrainOp(s: State, op: Id)
    requires Enabled(s, Drain) && OpOk(s, op) && s.local == []
    ensures OpOk(Do(s, Drain), op)
  { OccursIn(s.done, op); }

  lemma ResumeOp(s: State, op: Id)
    requires Enabled(s, Resume) && OpOk(s, op) && OpOk(s, s.ready[0])
    ensures OpOk(Do(s, Resume), op)
  {}

  lemma FinishOp(s: State, t: nat, op: Id)
    requires Enabled(s, Finish(t)) && OpOk(s, op) && ThreadOk(s, t)
    ensures OpOk(Do(s, Finish(t)), op)
  { OccursAppend(s.done, s.thread(t).op, op); }

  lemma TakeOp(s: State, t: nat, x: Id, op: Id)
    requires Enabled(s, Take(t, x)) && OpOk(s, op)
    ensures OpOk(Do(s, Take(t, x)), op)
  {}

  lemma KernelOpOp(s: State, x: Id, op: Id)
    requires Enabled(s, KernelOp(x)) && OpOk(s, op)
    ensures OpOk(Do(s, KernelOp(x)), op)
  { OccursAppend(s.posted, x, op); }

  lemma SignalOp(s: State, t: nat, op: Id)
    requires Enabled(s, Signal(t)) && OpOk(s, op)
    ensures OpOk(Do(s, Signal(t)), op)
  {}

  /** Each operation, after a step. */
  lemma StepOp(s: State, a: Action, waker: nat, op: Id)
    requires Inv(s, waker) && Enabled(s, a)
    ensures OpOk(Do(s, a), op)
  {
    assert OpOk(s, op);
    match a
    case StartOffload(_) => StartOp(s, a, op);
    case StartRefused(_) => StartOp(s, a, op);
    case StartRing(_) => StartOp(s, a, op);
    case SeeOp => assert OpOk(s, s.posted[0]); SeeOpOp(s, op);
    case Drain => DrainOp(s, op);
    case Settle => assert OpOk(s, s.local[0]); SettleOp(s, op);
    case Resume => assert OpOk(s, s.ready[0]); ResumeOp(s, op);
    case Finish(t) => assert ThreadOk(s, t); FinishOp(s, t, op);
    case Take(t, x) => TakeOp(s, t, x, op);
    case Signal(t) => SignalOp(s, t, op);
    case KernelOp(x) => KernelOpOp(s, x, op);
    case _ =>
  }

  /** Each thread, after a step. */
  lemma StepThread(s: State, a: Action, waker: nat, t: nat)
    requires Inv(s, waker) && Enabled(s, a)
    ensures ThreadOk(Do(s, a), t)
  {
    assert ThreadOk(s, t);
    match a
    case SeeOp => assert OpOk(s, s.posted[0]);
    case Settle => assert OpOk(s, s.local[0]);
    case Resume => assert OpOk(s, s.ready[0]);
    case Drain =>
      if s.thread(t).Runs? {
        assert OpOk(s, s.thread(t).op);
        OccursIn(s.done, s.thread(t).op);
      }
    case Finish(u) =>
      assert ThreadOk(s, u);
      OccursPush(s.owing, u, t);
    case Signal(u) => OccursRemove(s.owing, u, t);
    case _ =>
  }

  /** The thread that owes the wake: the last to set ext_wake_pending_. */
  function Waker(s: State, a: Action, waker: nat): nat { if a.Finish? && !s.wakePending then a.t else waker }

  lemma StepLoop(s: State, a: Action, waker: nat)
    requires Inv(s, waker) && Enabled(s, a)
    ensures LoopOk(Do(s, a)) && (Do(s, a).wakePending <==> Do(s, a).done != [])
    ensures Do(s, a).wakePending ==> WakeComing(Do(s, a), Waker(s, a, waker))
  {}

  lemma StepKeepsInv(s: State, a: Action, waker: nat)
    requires Inv(s, waker) && Enabled(s, a)
    ensures Inv(Do(s, a), Waker(s, a, waker))
  {
    var z := Do(s, a);
    forall op ensures OpOk(z, op) { StepOp(s, a, waker, op); }
    forall t ensures ThreadOk(z, t) { StepThread(s, a, waker, t); }
    StepLoop(s, a, waker);
  }

  lemma {:induction false} RunKeepsInv(s: State, waker: nat, acts: seq<Action>, z: State) returns (w: nat)
    requires Inv(s, waker) && Reaches(s, acts, z)
    ensures Inv(z, w)
    decreases |acts|
  {
    if acts == [] {
      w := waker;
    } else {
      StepKeepsInv(s, acts[0], waker);
      w := RunKeepsInv(Do(s, acts[0]), Waker(s, acts[0], waker), acts[1..], z);
    }
  }

  // ---------------------------------------------------------------- what runs guarantee

  /** A wake write is due, unread, or the loop is already committed to draining. */
  ghost predicate Covered(s: State) {
    (exists t :: s.thread(t).MustWake?) || s.counter > 0 || s.wakePosted || s.loop == Completions(true, true)
  }

  /** Main theorem: ext_wake_pending_ says exactly whether ext_done_ has work, and then the loop is going to look. */
  lemma NoLostWake(s: State, acts: seq<Action>, z: State)
    requires Init(s) && Reaches(s, acts, z)
    ensures z.wakePending <==> z.done != []
    ensures z.done != [] ==> Covered(z)
  {
    var w := RunKeepsInv(s, 0, acts, z);
  }

  /**
   Main theorem: the pending list holds exactly the operations in flight, each once; no coroutine is
   resumed twice.
   */
  lemma ExactlyOnce(s: State, acts: seq<Action>, z: State, op: Id)
    requires Init(s) && Reaches(s, acts, z)
    ensures Occurs(z.pending, op) == One(InFlight(z.phase(op)))
    ensures z.resumed(op) == One(z.phase(op).Resumed?)
    ensures Occurs(z.done, op) + Occurs(z.local, op) + Occurs(z.posted, op) + Occurs(z.ready, op) + z.resumed(op) <= 1
  {
    var w := RunKeepsInv(s, 0, acts, z);
    assert OpOk(z, op);
  }

  /**
   The loop cannot sleep on finished work: with no thread still owing a wake, a step is open to the
   loop or the kernel.
   */
  lemma NeverStuck(s: State, acts: seq<Action>, z: State)
    requires Init(s) && Reaches(s, acts, z) && z.done != [] && z.loop.Waiting? && forall t :: !z.thread(t).MustWake?
    ensures Enabled(z, Wake) || Enabled(z, KernelRead)
  {
    NoLostWake(s, acts, z);
    var w := RunKeepsInv(s, 0, acts, z);
  }

  lemma FirstOccurs(s: seq<Id>)
    ensures s == [] || Occurs(s, s[0]) > 0
  {}

  /** The loop sleeps, no thread and no kernel operation is at work, and nothing can wake the loop. */
  ghost predicate AtRest(s: State) {
    && s.loop.Waiting? && !Enabled(s, Wake) && !Enabled(s, KernelRead)
    && (forall t :: s.thread(t).Free?) && (forall op :: !s.phase(op).Queued? && !s.phase(op).InKernel?)
  }

  /**
   Main theorem: when everything has come to rest, every operation started was resumed, once, or
   refused, and none is pending.
   */
  lemma NothingLost(s: State, acts: seq<Action>, z: State)
    requires Init(s) && Reaches(s, acts, z) && AtRest(z)
    ensures z.pending == [] && z.done == []
    ensures forall op :: z.phase(op).Idle? || z.phase(op).Refused? || (z.phase(op).Resumed? && z.resumed(op) == 1)
  {
    var w := RunKeepsInv(s, 0, acts, z);
    if z.done != [] { NeverStuck(s, acts, z); }
    forall op
      ensures !InFlight(z.phase(op)) && Occurs(z.pending, op) == 0
      ensures !z.phase(op).Ready? && z.resumed(op) == One(z.phase(op).Resumed?)
    {
      assert OpOk(z, op);
    }
    FirstOccurs(z.pending);
  }

  // ---------------------------------------------------------------- every started operation is resumed

  /** A step of the loop, a pool thread or the kernel: not something new. */
  predicate Inner(a: Action) { !a.StartOffload? && !a.StartRefused? && !a.StartRing? && !a.Notify? }

  /** What an operation in flight has before it, at most. */
  function Weight(p: Phase): nat {
    match p
    case Queued => 12
    case Working(_) => 11
    case InKernel => 7
    case Posted => 6
    case Done => 2
    case Drained => 2
    case _ => 0
  }

  function Sum(ops: seq<Id>, phase: Id -> Phase): nat
  {
    if ops == [] then 0 else Weight(phase(ops[0])) + Sum(ops[1..], phase)
  }

  /** Steps left of the loop's round; a round takes a completion. */
  function Round(loop: Loop): nat {
    match loop
    case Completions(_, true) => 4
    case Draining => 3
    case Coroutines => 2
    case Waiting => 1
    case Completions(_, false) => 0
  }

  /** How many inner steps are left at most. */
  function Measure(s: State): nat {
    Sum(s.pending, s.phase) + |s.ready| + 7 * |s.owing| + 6 * One(s.counter > 0) + 5 * One(s.wakePosted) + Round(s.loop)
  }

  lemma {:induction false} SumSet(ops: seq<Id>, phase: Id -> Phase, x: Id, p: Phase)
    ensures Sum(ops, Set(phase, x, p)) == Sum(ops, phase) + Occurs(ops, x) * (Weight(p) - Weight(phase(x)))
  {
    if ops != [] { SumSet(ops[1..], phase, x, p); }
  }

  lemma {:induction false} SumRemove(ops: seq<Id>, phase: Id -> Phase, x: Id)
    ensures Sum(Remove(ops, x), phase) == Sum(ops, phase) - (if Occurs(ops, x) > 0 then Weight(phase(x)) else 0)
  {
    if ops != [] && ops[0] != x {
      SumRemove(ops[1..], phase, x);
      assert ([ops[0]] + Remove(ops[1..], x))[1..] == Remove(ops[1..], x);
    }
  }

  lemma {:induction false} SumMark(ops: seq<Id>, phase: Id -> Phase, marked: seq<Id>)
    requires forall op | op in marked :: phase(op).Done?
    ensures Sum(ops, MarkAll(phase, marked)) == Sum(ops, phase)
  {
    if ops != [] { SumMark(ops[1..], phase, marked); }
  }

  /** Untracking x, which is then ready. */
  lemma SumReady(s: State, x: Id)
    requires OpOk(s, x) && InFlight(s.phase(x))
    ensures Sum(Remove(s.pending, x), Set(s.phase, x, Ready)) == Sum(s.pending, s.phase) - Weight(s.phase(x))
  {
    SumRemove(s.pending, s.phase, x);
    OccursRemove(s.pending, x, x);
    SumSet(Remove(s.pending, x), s.phase, x, Ready);
  }

  lemma {:induction false} LengthRemove(ops: seq<Id>, x: Id)
    ensures |Remove(ops, x)| == |ops| - One(Occurs(ops, x) > 0)
  {
    if ops != [] && ops[0] != x { LengthRemove(ops[1..], x); }
  }

  lemma DrainProgress(s: State, waker: nat)
    requires Inv(s, waker) && Enabled(s, Drain)
    ensures Measure(Do(s, Drain)) < Measure(s)
  {
    forall op | op in s.done ensures s.phase(op).Done? {
      assert OpOk(s, op);
      OccursIn(s.done, op);
    }
    SumMark(s.pending, s.phase, s.done);
  }

  lemma FinishProgress(s: State, waker: nat, t: nat)
    requires Inv(s, waker) && Enabled(s, Finish(t))
    ensures Measure(Do(s, Finish(t))) < Measure(s)
  {
    assert ThreadOk(s, t) && OpOk(s, s.thread(t).op);
    SumSet(s.pending, s.phase, s.thread(t).op, Done);
  }

  /** The loop's steps on an operation. */
  lemma LoopProgress(s: State, waker: nat, a: Action)
    requires Inv(s, waker) && Enabled(s, a) && (a.SeeOp? || a.Settle? || a.Resume?)
    ensures Measure(Do(s, a)) < Measure(s)
  {
    match a
    case SeeOp => assert OpOk(s, s.posted[0]); SumReady(s, s.posted[0]);
    case Settle => assert OpOk(s, s.local[0]); SumReady(s, s.local[0]);
    case Resume => assert OpOk(s, s.ready[0]); SumSet(s.pending, s.phase, s.ready[0], Resumed);
  }

  lemma PoolProgress(s: State, waker: nat, a: Action)
    requires Inv(s, waker) && Enabled(s, a) && (a.Take? || a.KernelOp? || a.Signal?)
    ensures Measure(Do(s, a)) < Measure(s)
  {
    match a
    case Take(t, op) => assert OpOk(s, op); SumSet(s.pending, s.phase, op, Working(t));
    case KernelOp(op) => assert OpOk(s, op); SumSet(s.pending, s.phase, op, Posted);
    case Signal(t) => assert ThreadOk(s, t); LengthRemove(s.owing, t);
  }

  /** The steps that move no operation. */
  lemma RoundProgress(s: State, a: Action)
    requires Enabled(s, a) && (a.Block? || a.Wake? || a.SeeWake? || a.Skip? || a.Drained? || a.KernelRead?)
    ensures Measure(Do(s, a)) < Measure(s)
  {}

  /** Every inner step brings the end nearer. */
  lemma Progress(s: State, waker: nat, a: Action)
    requires Inv(s, waker) && Enabled(s, a) && Inner(a)
    ensures Measure(Do(s, a)) < Measure(s)
  {
    if a.Drain? { DrainProgress(s, waker); }
    else if a.Finish? { FinishProgress(s, waker, a.t); }
    else if a.SeeOp? || a.Settle? || a.Resume? { LoopProgress(s, waker, a); }
    else if a.Take? || a.KernelOp? || a.Signal? { PoolProgress(s, waker, a); }
    else { RoundProgress(s, a); }
  }

  lemma {:induction false} RunEnds(s: State, waker: nat, acts: seq<Action>, z: State)
    requires Inv(s, waker) && Reaches(s, acts, z) && forall i | 0 <= i < |acts| :: Inner(acts[i])
    ensures |acts| + Measure(z) <= Measure(s)
    decreases |acts|
  {
    if acts != [] {
      Progress(s, waker, acts[0]);
      StepKeepsInv(s, acts[0], waker);
      RunEnds(Do(s, acts[0]), Waker(s, acts[0], waker), acts[1..], z);
    }
  }

  /** Where no inner step is left, everything is at rest. */
  lemma StuckAtRest(s: State, waker: nat)
    requires Inv(s, waker) && forall a | Inner(a) :: !Enabled(s, a)
    ensures AtRest(s)
  {
    assert !Enabled(s, Resume) && !Enabled(s, Block) && !Enabled(s, SeeWake) && !Enabled(s, SeeOp)
      && !Enabled(s, Drain);
    assert !Enabled(s, Settle) && !Enabled(s, Action.Drained) && !Enabled(s, Wake) && !Enabled(s, KernelRead);
    forall t ensures s.thread(t).Free? { assert !Enabled(s, Finish(t)) && !Enabled(s, Signal(t)); }
    forall op
      ensures !s.phase(op).Queued? && !s.phase(op).InKernel?
    {
      assert !Enabled(s, Take(0, op)) && !Enabled(s, KernelOp(op));
    }
  }

  lemma {:induction false} ReachesOn(s: State, acts: seq<Action>, y: State, more: seq<Action>, z: State)
    requires Reaches(s, acts, y) && Reaches(y, more, z)
    ensures Reaches(s, acts + more, z)
    decreases |acts|
  {
    if acts == [] {
      assert acts + more == more;
    } else {
      assert (acts + more)[1..] == acts[1..] + more;
      ReachesOn(Do(s, acts[0]), acts[1..], y, more, z);
    }
  }

  /**
   Main theorem: from any reachable state, once nothing new starts, every schedule of loop, pool and
   kernel ends within Measure steps, and where it can go no further every operation ever started has
   been resumed exactly once or was refused.
   */
  lemma EachIsResumed(s: State, acts: seq<Action>, y: State, more: seq<Action>, z: State)
    requires Init(s) && Reaches(s, acts, y) && Reaches(y, more, z) && forall i | 0 <= i < |more| :: Inner(more[i])
    ensures |more| <= Measure(y)
    ensures (forall a | Inner(a) :: !Enabled(z, a)) ==>
              && z.pending == [] && z.done == []
              && forall op :: z.phase(op).Idle? || z.phase(op).Refused? || (z.phase(op).Resumed? && z.resumed(op) == 1)
  {
    var w := RunKeepsInv(s, 0, acts, y);
    RunEnds(y, w, more, z);
    if forall a | Inner(a) :: !Enabled(z, a) {
      ReachesOn(s, acts, y, more, z);
      w := RunKeepsInv(s, 0, acts + more, z);
      StuckAtRest(z, w);
      NothingLost(s, acts + more, z);
    }
  }
}
