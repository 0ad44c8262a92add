/**
 The asynchronous baton: a manual-reset event.  Plain waiters are a lock-free
 stack hung on the state word; timed waiters are a list under a mutex, each with a
 status word that a post and its timeout race to change.  Every atomic operation,
 and every read or write that can be interleaved with one, is a step; any number
 of threads run at once.
 */
module Baton {
  import opened Wrappers

  type Waiter = nat       // an Awaiter
  type Timed = nat        // a RaceState

  /** The state word: SET_PTR, or the top of the stack. */
  datatype Word = Signaled | Top(first: Option<Waiter>)

  datatype Status = Waiting | Posted | TimedOut

  /** The coroutine's own look at the status, after it stored its handle. */
  datatype Check = NotYet | Sleeps | Goes

  /** What the post that won the status found in the handle. */
  datatype Heard = NoPost | ToRead | Empty | Scheduled

  /** The timeout: it may lose the status, or win it, leave the list, and then look at the handle. */
  datatype Timer = Unfired | Lost | Won | Erased | Over(resumed: bool)

  datatype Race = Race(registered: bool, status: Status, stored: bool, check: Check, heard: Heard, timer: Timer)

  datatype PC =
    | Free
    | PushLoad(w: Waiter)
    | PushStore(w: Waiter, seen: Option<Waiter>)
    | PushCas(w: Waiter, seen: Option<Waiter>)
    | PostExchange
    | PostWalk(at: Option<Waiter>)                    // read the next pointer
    | PostWake(w: Waiter, succ: Option<Waiter>)
    | PostLock
    | PostCas(i: nat)                                 // holding the mutex
    | PostHandle(i: nat)
    | RegisterLock(x: Timed)
    | RegisterCheck(x: Timed)                         // holding the mutex
    | RegisterPush(x: Timed)

  datatype State = State(
    word: Word,
    next: Waiter -> Option<Waiter>,
    pushes: Waiter -> nat,          // how often each waiter was pushed
    wakes: Waiter -> nat,           // how often it was woken
    owner: Option<nat>,             // of the mutex
    list: seq<Timed>,               // timed_waiters_
    race: Timed -> Race,
    pc: nat -> PC)

  datatype Action =
    | Run(t: nat)
    | CasFails(t: nat)              // compare_exchange_weak may fail for no reason
    | CallPush(t: nat, w: Waiter)
    | CallPost(t: nat)
    | CallReset
    | CallWaitFor(t: nat, x: Timed)
    | StoreHandle(x: Timed)
    | CheckStatus(x: Timed)
    | TimerCas(x: Timed)
    | TimerErase(x: Timed)          // erase from the list under the mutex
    | TimerResume(x: Timed)         // read the handle, and resume it if there is one

  function Set<T>(f: nat -> T, n: nat, v: T): nat -> T { (m: nat) => if m == n then v else f(m) }

  function Erase(s: seq<Timed>, x: Timed): seq<Timed> {
    if s == [] then [] else if s[0] == x then Erase(s[1..], x) else [s[0]] + Erase(s[1..], x)
  }

  /** The loop head of push_waiter. */
  function Retry(w: Waiter, word: Word): PC {
    match word case Signaled => Free case Top(f) => PushStore(w, f)
  }

  /** The coroutine has stored its handle and not yet looked at the status. */
  predicate InWindow(r: Race) { r.stored && r.check.NotYet? }

  function Exec(s: State, t: nat): State
  {
    match s.pc(t)
    case Free => s
    case PushLoad(w) => s.(pc := Set(s.pc, t, Retry(w, s.word)))
    case PushStore(w, seen) => s.(next := Set(s.next, w, seen), pc := Set(s.pc, t, PushCas(w, seen)))
    case PushCas(w, seen) =>
      if s.word == Top(seen) then s.(word := Top(Some(w)), pushes := Set<nat>(s.pushes, w, s.pushes(w) + 1),
        pc := Set(s.pc, t, Free))
      else s.(pc := Set(s.pc, t, Retry(w, s.word)))
    case PostExchange =>
      s.(word := Signaled, pc := Set(s.pc, t, if s.word.Signaled? then Free else PostWalk(s.word.first)))
    case PostWalk(at) =>
      s.(pc := Set(s.pc, t, if at.None? then PostLock else PostWake(at.value, s.next(at.value))))
    case PostWake(w, succ) =>
      s.(wakes := Set<nat>(s.wakes, w, s.wakes(w) + 1), pc := Set(s.pc, t, PostWalk(succ)))
    case PostLock => if s.owner.None? then s.(owner := Some(t), pc := Set(s.pc, t, PostCas(0))) else s
    case PostCas(i) =>
      if i >= |s.list| then s.(list := [], owner := None, pc := Set(s.pc, t, Free))
      else
        var x := s.list[i];
        var r := s.race(x);
        if r.status.Waiting? then s.(race := Set(s.race, x, r.(status := Posted, heard := ToRead)),
          pc := Set(s.pc, t, PostHandle(i)))
        else s.(pc := Set(s.pc, t, PostCas(i + 1)))
    case PostHandle(i) =>
      if i >= |s.list| then s
      else
        var x := s.list[i];
        var r := s.race(x);
        s.(race := Set(s.race, x, r.(heard := if r.stored then Scheduled else Empty)),
          pc := Set(s.pc, t, PostCas(i + 1)))
    case RegisterLock(x) => if s.owner.None? then s.(owner := Some(t), pc := Set(s.pc, t, RegisterCheck(x))) else s
    case RegisterCheck(x) =>
      if s.word.Signaled? then s.(owner := None, pc := Set(s.pc, t, Free)) else s.(pc := Set(s.pc, t, RegisterPush(x)))
    case RegisterPush(x) =>
      s.(list := s.list + [x], race := Set(s.race, x, s.race(x).(registered := true)), owner := None,
        pc := Set(s.pc, t, Free))
  }

  /** Which waiter or timed waiter a thread is busy registering. */
  predicate Registers(p: PC, x: Timed) { (p.RegisterLock? || p.RegisterCheck? || p.RegisterPush?) && p.x == x }
  predicate Pushes(p: PC, w: Waiter) { (p.PushLoad? || p.PushStore? || p.PushCas?) && p.w == w }

  ghost predicate Enabled(s: State, a: Action) {
    match a
    case Run(t) => !s.pc(t).Free?
    case CasFails(t) => s.pc(t).PushCas?
    case CallPush(t, w) => s.pc(t).Free? && s.wakes(w) == s.pushes(w) && forall u :: !Pushes(s.pc(u), w)
    case CallPost(t) => s.pc(t).Free?
    case CallReset => true
    case CallWaitFor(t, x) =>
      s.pc(t).Free? && !s.word.Signaled? && !s.race(x).registered && forall u :: !Registers(s.pc(u), x)
    case StoreHandle(x) => s.race(x).registered && !s.race(x).stored
    case CheckStatus(x) => InWindow(s.race(x))
    case TimerCas(x) => s.race(x).registered && s.race(x).timer.Unfired?
    case TimerErase(x) => s.race(x).timer.Won? && s.owner.None?
    case TimerResume(x) => s.race(x).timer.Erased?
  }

  function Do(s: State, a: Action): State
  {
    match a
    case Run(t) => Exec(s, t)
    case CasFails(t) => if s.pc(t).PushCas? then s.(pc := Set(s.pc, t, Retry(s.pc(t).w, s.word))) else s
    case CallPush(t, w) => s.(pc := Set(s.pc, t, PushLoad(w)))
    case CallPost(t) => s.(pc := Set(s.pc, t, PostExchange))
    case CallReset => if s.word.Signaled? then s.(word := Top(None)) else s
    case CallWaitFor(t, x) => s.(pc := Set(s.pc, t, RegisterLock(x)))
    case StoreHandle(x) => s.(race := Set(s.race, x, s.race(x).(stored := true)))
    case CheckStatus(x) =>
      s.(race := Set(s.race, x, s.race(x).(check := if s.race(x).status.Waiting? then Sleeps else Goes)))
    case TimerCas(x) =>
      var r := s.race(x);
      s.(race := Set(s.race, x, if r.status.Waiting? then r.(status := TimedOut, timer := Won) else r.(timer := Lost)))
    case TimerErase(x) =>
      s.(list := Erase(s.list, x), race := Set(s.race, x, s.race(x).(timer := Erased)))
    case TimerResume(x) => s.(race := Set(s.race, x, s.race(x).(timer := Over(s.race(x).stored))))
  }

  const FRESH: Race := Race(false, Waiting, false, NotYet, NoPost, Unfired)

  ghost predicate Init(s: State) {
    && s.word == Top(None) && s.owner == None && s.list == []
    && (forall w :: s.pushes(w) == 0 && s.wakes(w) == 0) && (forall x :: s.race(x) == FRESH)
    && (forall t :: s.pc(t).Free?)
  }

  ghost predicate Reaches(s: State, acts: seq<Action>, z: State)
    decreases |acts|
  {
    if acts == [] then s == z
    else Enabled(s, acts[0]) && Reaches(Do(s, acts[0]), acts[1..], z)
  }

  // ---------------------------------------------------------------- the stack

  function One(b: bool): nat { if b then 1 else 0 }

  function Occurs(s: seq<Waiter>, w: Waiter): nat { if s == [] then 0 else One(s[0] == w) + Occurs(s[1..], w) }

  /** The next pointers lead from the first waiter through exactly the list. */
  ghost predicate Linked(first: Option<Waiter>, next: Waiter -> Option<Waiter>, list: seq<Waiter>)
    decreases |list|
  {
    if list == [] then first == None else first == Some(list[0]) && Linked(next(list[0]), next, list[1..])
  }

  datatype Place = Out | Pushing(t: nat) | Queued | Claimed(t: nat)

  /** Which waiters hang on the word, which on each post's list, and where each one is. */
  datatype Aux = Aux(stack: seq<Waiter>, chain: nat -> seq<Waiter>, place: Waiter -> Place)

  ghost predicate WaiterOk(s: State, a: Aux, w: Waiter) {
    && s.wakes(w) + One(a.place(w).Queued? || a.place(w).Claimed?) == s.pushes(w)
    && Occurs(a.stack, w) == One(a.place(w).Queued?)
    && (a.place(w).Pushing? ==> Pushes(s.pc(a.place(w).t), w))
  }

  ghost predicate ChainOk(a: Aux, t: nat, w: Waiter) { Occurs(a.chain(t), w) == One(a.place(w) == Claimed(t)) }

  ghost predicate ThreadOk(s: State, a: Aux, t: nat) {
    && (forall w {:trigger Pushes(s.pc(t), w)} | Pushes(s.pc(t), w) :: a.place(w) == Pushing(t))
    && (s.pc(t).PushCas? ==> s.next(s.pc(t).w) == s.pc(t).seen)
    && (match s.pc(t)
        case PostWalk(at) => Linked(at, s.next, a.chain(t))
        case PostWake(w, succ) => a.chain(t) != [] && a.chain(t)[0] == w && Linked(succ, s.next, a.chain(t)[1..])
        case _ => a.chain(t) == [])
  }

  ghost predicate WordOk(s: State, a: Aux) {
    match s.word case Signaled => a.stack == [] case Top(first) => Linked(first, s.next, a.stack)
  }

  ghost predicate StackInv(s: State, a: Aux) {
    && (forall w {:trigger WaiterOk(s, a, w)} :: WaiterOk(s, a, w))
    && (forall t, w {:trigger ChainOk(a, t, w)} :: ChainOk(a, t, w))
    && (forall t {:trigger ThreadOk(s, a, t)} :: ThreadOk(s, a, t))
    && WordOk(s, a)
  }

  lemma {:induction false} OccursIn(s: seq<Waiter>, w: Waiter)
    ensures Occurs(s, w) > 0 <==> w in s
  {
    if s != [] { OccursIn(s[1..], w); }
  }

  lemma OccursPush(s: seq<Waiter>, x: Waiter, w: Waiter)
    ensures Occurs([x] + s, w) == Occurs(s, w) + One(x == w)
  {
    assert ([x] + s)[1..] == s;
  }

  /** Writing the pointer of a waiter that is not on the list leaves the list linked. */
  lemma {:induction false} LinkedFrame(first: Option<Waiter>, next: Waiter -> Option<Waiter>, list: seq<Waiter>,
                                       w: Waiter, v: Option<Waiter>)
    requires Linked(first, next, list) && Occurs(list, w) == 0
    ensures Linked(first, Set(next, w, v), list)
    decreases |list|
  {
    if list != [] { LinkedFrame(next(list[0]), next, list[1..], w, v); }
  }

  /** How the lists move with a step. */
  ghost function Moved(s: State, a: Aux, act: Action): Aux {
    match act
    case CallPush(t, w) => a.(place := Set(a.place, w, Pushing(t)))
    case CasFails(t) => if s.pc(t).PushCas? && s.word.Signaled? then a.(place := Set(a.place, s.pc(t).w, Out)) else a
    case Run(t) =>
      (match s.pc(t)
       case PushLoad(w) => if s.word.Signaled? then a.(place := Set(a.place, w, Out)) else a
       case PushCas(w, seen) =>
         if s.word == Top(seen) then a.(stack := [w] + a.stack, place := Set(a.place, w, Queued))
         else if s.word.Signaled? then a.(place := Set(a.place, w, Out))
         else a
       case PostExchange =>
         if s.word.Signaled? then a
         else Aux([], Set(a.chain, t, a.stack), (w: Waiter) => if a.place(w).Queued? then Claimed(t) else a.place(w))
       case PostWake(w, _) =>
         if a.chain(t) == [] then a else a.(chain := Set(a.chain, t, a.chain(t)[1..]), place := Set(a.place, w, Out))
       case _ => a)
    case _ => a
  }

  lemma StepWaiter(s: State, a: Aux, act: Action, w: Waiter)
    requires StackInv(s, a) && Enabled(s, act)
    ensures WaiterOk(Do(s, act), Moved(s, a, act), w)
  {
    assert WaiterOk(s, a, w);
    if act.Run? || act.CasFails? || act.CallPush? || act.CallPost? || act.CallWaitFor? {
      assert ThreadOk(s, a, act.t);
    }
    match act
    case CallPush(_, x) => assert WaiterOk(s, a, x);
    case CasFails(t) => assert Pushes(s.pc(t), s.pc(t).w);
    case Run(t) => RunWaiter(s, a, t, w);
    case _ =>
  }

  lemma RunWaiter(s: State, a: Aux, t: nat, w: Waiter)
    requires !s.pc(t).Free? && WaiterOk(s, a, w) && ThreadOk(s, a, t) && ChainOk(a, t, w) && WordOk(s, a)
    ensures WaiterOk(Exec(s, t), Moved(s, a, Run(t)), w)
  {
    match s.pc(t)
    case PushLoad(x) => assert Pushes(s.pc(t), x);
    case PushStore(x, _) => assert Pushes(s.pc(t), x);
    case PushCas(x, _) =>
      assert Pushes(s.pc(t), x);
      OccursPush(a.stack, x, w);
      PushWaiter(s, a, t, w);
    case _ =>
  }

  lemma PushWaiter(s: State, a: Aux, t: nat, w: Waiter)
    requires s.pc(t).PushCas? && WaiterOk(s, a, w) && a.place(s.pc(t).w) == Pushing(t)
    requires Occurs([s.pc(t).w] + a.stack, w) == Occurs(a.stack, w) + One(s.pc(t).w == w)
    ensures WaiterOk(Exec(s, t), Moved(s, a, Run(t)), w)
  {}

  lemma StepChain(s: State, a: Aux, act: Action, u: nat, w: Waiter)
    requires StackInv(s, a) && Enabled(s, act)
    ensures ChainOk(Moved(s, a, act), u, w)
  {
    assert ChainOk(a, u, w) && WaiterOk(s, a, w);
    if act.Run? {
      assert ThreadOk(s, a, act.t) && ChainOk(a, act.t, w);
      RunChain(s, a, act.t, u, w);
    } else if act.CasFails? {
      assert ThreadOk(s, a, act.t) && Pushes(s.pc(act.t), s.pc(act.t).w);
    } else if act.CallPush? {
      assert WaiterOk(s, a, act.w);
    }
  }

  lemma RunChain(s: State, a: Aux, t: nat, u: nat, w: Waiter)
    requires ThreadOk(s, a, t) && ChainOk(a, t, w) && ChainOk(a, u, w) && WaiterOk(s, a, w) && WordOk(s, a)
    ensures ChainOk(Moved(s, a, Run(t)), u, w)
  {
    match s.pc(t)
    case PushLoad(x) => assert Pushes(s.pc(t), x);
    case PushCas(x, _) => assert Pushes(s.pc(t), x);
    case _ =>
  }

  /** Threads other than the one that moves. */
  lemma OtherThread(s: State, a: Aux, t: nat, u: nat)
    requires StackInv(s, a) && u != t && !s.pc(t).Free?
    ensures ThreadOk(Exec(s, t), Moved(s, a, Run(t)), u)
  {
    assert ThreadOk(s, a, u) && ThreadOk(s, a, t);
    match s.pc(t)
    case PushLoad(x) => assert Pushes(s.pc(t), x);
    case PushStore(x, seen) =>
      assert Pushes(s.pc(t), x) && ChainOk(a, u, x);
      OtherLinks(s, a, u, x, seen);
    case PushCas(x, _) => assert Pushes(s.pc(t), x);
    case PostWake(x, _) => assert ChainOk(a, t, x);
    case _ =>
  }

  /** A pointer written elsewhere leaves a thread's own list and pointer alone. */
  lemma OtherLinks(s: State, a: Aux, u: nat, x: Waiter, seen: Option<Waiter>)
    requires ThreadOk(s, a, u) && Occurs(a.chain(u), x) == 0 && a.place(x) != Pushing(u)
    ensures s.pc(u).PostWalk? ==> Linked(s.pc(u).at, Set(s.next, x, seen), a.chain(u))
    ensures s.pc(u).PostWake? ==> Linked(s.pc(u).succ, Set(s.next, x, seen), a.chain(u)[1..])
    ensures s.pc(u).PushCas? ==> s.pc(u).w != x
  {
    match s.pc(u)
    case PostWalk(at) => LinkedFrame(at, s.next, a.chain(u), x, seen);
    case PostWake(_, succ) => LinkedFrame(succ, s.next, a.chain(u)[1..], x, seen);
    case PushCas(y, _) => assert Pushes(s.pc(u), y);
    case _ =>
  }

  /** The thread that moves. */
  lemma OwnThread(s: State, a: Aux, t: nat)
    requires StackInv(s, a) && !s.pc(t).Free?
    ensures ThreadOk(Exec(s, t), Moved(s, a, Run(t)), t)
  {
    assert ThreadOk(s, a, t);
    match s.pc(t)
    case PushLoad(x) => assert Pushes(s.pc(t), x);
    case PushStore(x, _) => assert Pushes(s.pc(t), x);
    case PushCas(x, _) => assert Pushes(s.pc(t), x);
    case _ =>
  }

  lemma StepThread(s: State, a: Aux, act: Action, u: nat)
    requires StackInv(s, a) && Enabled(s, act)
    ensures ThreadOk(Do(s, act), Moved(s, a, act), u)
  {
    assert ThreadOk(s, a, u);
    match act
    case Run(t) => if u == t { OwnThread(s, a, t); } else { OtherThread(s, a, t, u); }
    case CasFails(t) => assert ThreadOk(s, a, t) && Pushes(s.pc(t), s.pc(t).w);
    case CallPush(t, x) => assert ThreadOk(s, a, t) && WaiterOk(s, a, x);
    case CallPost(t) => assert ThreadOk(s, a, t);
    case CallWaitFor(t, _) => assert ThreadOk(s, a, t);
    case _ =>
  }

  lemma StepWord(s: State, a: Aux, act: Action)
    requires StackInv(s, a) && Enabled(s, act)
    ensures WordOk(Do(s, act), Moved(s, a, act))
  {
    if act.Run? {
      assert ThreadOk(s, a, act.t);
      match s.pc(act.t)
      case PushStore(x, seen) =>
        assert Pushes(s.pc(act.t), x) && WaiterOk(s, a, x);
        if s.word.Top? { LinkedFrame(s.word.first, s.next, a.stack, x, seen); }
      case PushCas(x, _) => assert ([x] + a.stack)[1..] == a.stack;
      case _ =>
    }
  }

  lemma StepKeepsStack(s: State, a: Aux, act: Action)
    requires StackInv(s, a) && Enabled(s, act)
    ensures StackInv(Do(s, act), Moved(s, a, act))
  {
    var z, b := Do(s, act), Moved(s, a, act);
    forall w ensures WaiterOk(z, b, w) { StepWaiter(s, a, act, w); }
    forall t, w ensures ChainOk(b, t, w) { StepChain(s, a, act, t, w); }
    forall t ensures ThreadOk(z, b, t) { StepThread(s, a, act, t); }
    StepWord(s, a, act);
  }

  lemma {:induction false} RunKeepsStack(s: State, a: Aux, acts: seq<Action>, z: State) returns (b: Aux)
    requires StackInv(s, a) && Reaches(s, acts, z)
    ensures StackInv(z, b)
    decreases |acts|
  {
    if acts == [] {
      b := a;
    } else {
      StepKeepsStack(s, a, acts[0]);
      b := RunKeepsStack(Do(s, acts[0]), Moved(s, a, acts[0]), acts[1..], z);
    }
  }

  lemma InitStack(s: State) returns (a: Aux)
    requires Init(s)
    ensures StackInv(s, a)
  {
    a := Aux([], (t: nat) => [], (w: Waiter) => Out);
  }

  /** A post is between its exchange and the end of its walk. */
  predicate Walking(p: PC) { p.PostWalk? || p.PostWake? }

  /**
   Main theorem: in every run, each successful push is answered by exactly one wake. A waiter not
   yet woken hangs on the state word, or on the list of exactly one post that is still walking;
   so with the baton signaled and no post walking, nobody is left behind.
   */
  lemma WokenExactlyOnce(s: State, acts: seq<Action>, z: State) returns (a: Aux)
    requires Init(s) && Reaches(s, acts, z)
    ensures WordOk(z, a)
    ensures forall w :: z.wakes(w) <= z.pushes(w) <= z.wakes(w) + 1
    ensures forall w :: z.pushes(w) == z.wakes(w) + 1 <==> a.place(w).Queued? || a.place(w).Claimed?
    ensures forall w :: a.place(w).Queued? <==> w in a.stack
    ensures forall t, w :: a.place(w) == Claimed(t) <==> w in a.chain(t)
    ensures forall t :: a.chain(t) != [] ==> Walking(z.pc(t))
    ensures z.word.Signaled? && (forall t :: !Walking(z.pc(t))) ==> forall w :: z.wakes(w) == z.pushes(w)
  {
    var a0 := InitStack(s);
    a := RunKeepsStack(s, a0, acts, z);
    forall w
      ensures z.wakes(w) + One(a.place(w).Queued? || a.place(w).Claimed?) == z.pushes(w)
      ensures a.place(w).Queued? <==> w in a.stack
    {
      assert WaiterOk(z, a, w);
      OccursIn(a.stack, w);
    }
    forall t, w ensures a.place(w) == Claimed(t) <==> w in a.chain(t) {
      assert ChainOk(a, t, w);
      OccursIn(a.chain(t), w);
    }
    forall t ensures a.chain(t) != [] ==> Walking(z.pc(t)) { assert ThreadOk(z, a, t); }
    forall w ensures a.place(w).Claimed? ==> Walking(z.pc(a.place(w).t)) {
      if a.place(w).Claimed? { assert w in a.chain(a.place(w).t); }
    }
  }

  /** A reset unsets a signaled baton, and never drops a waiter: it changes the word only when nobody hangs on it. */
  lemma ResetDropsNobody(s: State, acts: seq<Action>, z: State) returns (a: Aux)
    requires Init(s) && Reaches(s, acts, z)
    ensures StackInv(z, a) && StackInv(Do(z, CallReset), a)
    ensures !Do(z, CallReset).word.Signaled? && (Do(z, CallReset) != z <==> z.word.Signaled?)
    ensures z.word.Signaled? ==> a.stack == [] && Do(z, CallReset) == z.(word := Top(None))
  {
    var a0 := InitStack(s);
    a := RunKeepsStack(s, a0, acts, z);
    StepKeepsStack(z, a, CallReset);
  }

  // ---------------------------------------------------------------- timed waiters

  ghost predicate RaceOk(s: State, x: Timed) {
    var r := s.race(x);
    && (!r.registered ==> r == FRESH)
    && (r.registered && r.status.Waiting? ==> x in s.list)
    && (x in s.list ==> r.registered)
    && (r.status.Waiting? ==> r.heard.NoPost? && r.timer.Unfired? && !r.check.Goes?)
    && (r.status.Posted? ==> !r.heard.NoPost? && (r.timer.Unfired? || r.timer.Lost?))
    && (r.status.TimedOut? ==> r.heard.NoPost? && (r.timer.Won? || r.timer.Erased? || r.timer.Over?))
    && (!r.check.NotYet? || r.heard.Scheduled? || r.timer == Over(true) ==> r.stored)
    && (r.heard.Empty? || r.timer == Over(false) ==> !r.check.Sleeps?)
  }

  /** The statuses of the first n listed waiters are decided. */
  ghost predicate Decided(s: State, n: nat) {
    n <= |s.list| && forall j {:trigger s.list[j]} | 0 <= j < n :: !s.race(s.list[j]).status.Waiting?
  }

  ghost predicate HolderOk(s: State, t: nat) {
    && (s.pc(t).PostCas? || s.pc(t).PostHandle? || s.pc(t).RegisterCheck? || s.pc(t).RegisterPush? ==>
      s.owner == Some(t))
    && (s.pc(t).PostCas? ==> Decided(s, s.pc(t).i))
    && (s.pc(t).PostHandle? ==>
      s.pc(t).i < |s.list| && Decided(s, s.pc(t).i + 1) && s.race(s.list[s.pc(t).i]).heard.ToRead?)
  }

  ghost predicate TimedInv(s: State) {
    && (forall x {:trigger RaceOk(s, x)} :: RaceOk(s, x))
    && (forall t {:trigger HolderOk(s, t)} :: HolderOk(s, t))
  }

  lemma {:induction false} EraseKeeps(s: seq<Timed>, x: Timed, y: Timed)
    ensures y in Erase(s, x) <==> y in s && y != x
  {
    if s != [] { EraseKeeps(s[1..], x, y); }
  }

  lemma RunRace(s: State, t: nat, x: Timed)
    requires TimedInv(s) && !s.pc(t).Free?
    ensures RaceOk(Exec(s, t), x)
  {
    assert RaceOk(s, x) && HolderOk(s, t);
    match s.pc(t)
    case PostCas(i) => if i < |s.list| { assert s.list[i] in s.list && RaceOk(s, s.list[i]); }
    case PostHandle(i) => assert s.list[i] in s.list && RaceOk(s, s.list[i]);
    case RegisterPush(y) => assert RaceOk(s, y);
    case _ =>
  }

  lemma StepRace(s: State, act: Action, x: Timed)
    requires TimedInv(s) && Enabled(s, act)
    ensures RaceOk(Do(s, act), x)
  {
    assert RaceOk(s, x);
    match act
    case Run(t) => RunRace(s, t, x);
    case TimerErase(y) => EraseKeeps(s.list, y, x);
    case _ =>
  }

  lemma RunHolder(s: State, t: nat, u: nat)
    requires HolderOk(s, t) && HolderOk(s, u) && !s.pc(t).Free?
    ensures HolderOk(Exec(s, t), u)
  {}

  lemma StepHolder(s: State, act: Action, u: nat)
    requires TimedInv(s) && Enabled(s, act)
    ensures HolderOk(Do(s, act), u)
  {
    assert HolderOk(s, u);
    match act
    case Run(t) => assert HolderOk(s, t); RunHolder(s, t, u);
    case TimerCas(y) => assert RaceOk(s, y);
    case _ =>
  }

  lemma StepKeepsTimed(s: State, act: Action)
    requires TimedInv(s) && Enabled(s, act)
    ensures TimedInv(Do(s, act))
  {
    forall x ensures RaceOk(Do(s, act), x) { StepRace(s, act, x); }
    forall t ensures HolderOk(Do(s, act), t) { StepHolder(s, act, t); }
  }

  lemma {:induction false} RunKeepsTimed(s: State, acts: seq<Action>, z: State)
    requires TimedInv(s) && Reaches(s, acts, z)
    ensures TimedInv(z)
    decreases |acts|
  {
    if acts != [] {
      StepKeepsTimed(s, acts[0]);
      RunKeepsTimed(Do(s, acts[0]), acts[1..], z);
    }
  }

  /** One step never changes a decided status, and never takes a registration back. */
  lemma StepDecides(s: State, act: Action, x: Timed)
    requires Enabled(s, act) && TimedInv(s)
    ensures !s.race(x).status.Waiting? ==> Do(s, act).race(x).status == s.race(x).status
    ensures s.race(x).registered ==> Do(s, act).race(x).registered
  {
    assert RaceOk(s, x);
    if act.Run? { assert HolderOk(s, act.t); }
  }

  /** Main theorem: a status leaves Waiting at most once, so post and timeout never both win. */
  lemma {:induction false} DecidedOnce(s: State, acts: seq<Action>, y: State, more: seq<Action>, z: State, x: Timed)
    requires Init(s) && Reaches(s, acts, y) && Reaches(y, more, z)
    ensures !y.race(x).status.Waiting? ==> z.race(x).status == y.race(x).status
    ensures y.race(x).registered ==> z.race(x).registered
    ensures !(z.race(x).timer.Won? || z.race(x).timer.Erased? || z.race(x).timer.Over?) || z.race(x).heard.NoPost?
  {
    RunKeepsTimed(s, acts, y);
    KeepsDeciding(y, more, z, x);
    RunKeepsTimed(y, more, z);
    assert RaceOk(z, x);
  }

  lemma {:induction false} KeepsDeciding(y: State, more: seq<Action>, z: State, x: Timed)
    requires TimedInv(y) && Reaches(y, more, z)
    ensures !y.race(x).status.Waiting? ==> z.race(x).status == y.race(x).status
    ensures y.race(x).registered ==> z.race(x).registered
    decreases |more|
  {
    if more != [] {
      StepDecides(y, more[0], x);
      StepKeepsTimed(y, more[0]);
      KeepsDeciding(Do(y, more[0]), more[1..], z, x);
    }
  }

  /** A post that found the baton unset is about to finish: it holds the mutex and has gone through the list. */
  predicate Finishing(s: State, t: nat) { s.pc(t).PostCas? && s.pc(t).i >= |s.list| }

  /**
   Main theorem: when a post that found the baton unset finishes, no timed waiter registered by then,
   and so none registered before its exchange, is still waiting; nor will it ever be again.
   */
  lemma PostLeavesNobodyWaiting(s: State, acts: seq<Action>, y: State, t: nat, more: seq<Action>, z: State, x: Timed)
    requires Init(s) && Reaches(s, acts, y) && Finishing(y, t) && Reaches(Do(y, Run(t)), more, z)
    requires y.race(x).registered
    ensures !y.race(x).status.Waiting? && z.race(x).status == y.race(x).status
  {
    RunKeepsTimed(s, acts, y);
    assert RaceOk(y, x) && HolderOk(y, t);
    assert !y.race(x).status.Waiting?;
    StepKeepsTimed(y, Run(t));
    KeepsDeciding(Do(y, Run(t)), more, z, x);
  }

  // ---------------------------------------------------------------- what each call answers

  /** The step in which a post signals. */
  predicate Exchanges(s: State, act: Action) { act.Run? && s.pc(act.t).PostExchange? }

  /** Whether the last exchange or reset of a run was an exchange; `posted` when it has neither. */
  ghost predicate LastSets(s: State, acts: seq<Action>, posted: bool)
    decreases |acts|
  {
    if acts == [] then posted
    else LastSets(Do(s, acts[0]), acts[1..], Exchanges(s, acts[0]) || (posted && acts[0] != CallReset))
  }

  /** Main theorem: after any run the baton is set exactly when it was last posted, not last reset. */
  lemma {:induction false} SignaledByLast(s: State, acts: seq<Action>, z: State)
    requires Reaches(s, acts, z)
    ensures z.word.Signaled? <==> LastSets(s, acts, s.word.Signaled?)
    decreases |acts|
  {
    if acts != [] {
      assert Do(s, acts[0]).word.Signaled? <==>
        Exchanges(s, acts[0]) || (s.word.Signaled? && acts[0] != CallReset);
      SignaledByLast(Do(s, acts[0]), acts[1..], z);
    }
  }

  /**
   A waiter is told not to suspend only by a step that finds the baton set, and then was not
   pushed; otherwise it is on top of the stack.
   */
  lemma PushEnds(s: State, act: Action, w: Waiter)
    requires Enabled(s, act) && (act.Run? || act.CasFails?) && Pushes(s.pc(act.t), w) && Do(s, act).pc(act.t).Free?
    ensures s.word.Signaled? <==> Do(s, act).pushes(w) == s.pushes(w)
    ensures s.word.Signaled? ==> Do(s, act).word == s.word
    ensures !s.word.Signaled? ==> Do(s, act).pushes(w) == s.pushes(w) + 1 && Do(s, act).word == Top(Some(w))
  {}

  /** A waiter that comes when the baton is set does not suspend, and one that comes alone before is queued. */
  lemma WaitAlone(y: State, t: nat, w: Waiter)
    requires Enabled(y, CallPush(t, w))
    ensures var called := Do(y, CallPush(t, w));
            if y.word.Signaled? then
              && Reaches(y, [CallPush(t, w), Run(t)], Exec(called, t))
              && Exec(called, t).pc(t).Free? && Exec(called, t).pushes(w) == y.pushes(w)
              && Exec(called, t).word.Signaled?
            else
              var z := Exec(Exec(Exec(called, t), t), t);
              && Reaches(y, [CallPush(t, w), Run(t), Run(t), Run(t)], z)
              && z.pc(t).Free? && z.pushes(w) == y.pushes(w) + 1
              && z.word == Top(Some(w)) && z.next(w) == y.word.first
  {
    var s1 := Do(y, CallPush(t, w));
    var s2 := Exec(s1, t);
    if y.word.Signaled? {
      First(s1, Run(t), [], s2);
      First(y, CallPush(t, w), [Run(t)], s2);
    } else {
      var s3 := Exec(s2, t);
      var s4 := Exec(s3, t);
      First(s3, Run(t), [], s4);
      First(s2, Run(t), [Run(t)], s4);
      First(s1, Run(t), [Run(t), Run(t)], s4);
      First(y, CallPush(t, w), [Run(t), Run(t), Run(t)], s4);
    }
  }

  lemma First(y: State, act: Action, rest: seq<Action>, z: State)
    requires Enabled(y, act) && Reaches(Do(y, act), rest, z)
    ensures Reaches(y, [act] + rest, z)
  {
    assert ([act] + rest)[1..] == rest;
  }

  /** A timed waiter either finds the baton set under the mutex, and then is not listed, or is listed last and waits. */
  lemma RegisterEnds(s: State, t: nat, x: Timed)
    requires Registers(s.pc(t), x) && Exec(s, t).pc(t).Free?
    ensures Exec(s, t).owner == None
    ensures s.pc(t).RegisterCheck? <==> s.word.Signaled? && Exec(s, t).race == s.race && Exec(s, t).list == s.list
    ensures s.pc(t).RegisterPush? ==>
            Exec(s, t).list == s.list + [x] && Exec(s, t).race(x) == s.race(x).(registered := true)
  {}

  /** A thread holds the mutex. */
  predicate Holding(p: PC) { p.PostCas? || p.PostHandle? || p.RegisterCheck? || p.RegisterPush? }

  lemma {:induction false} OwnerHolds(s: State, acts: seq<Action>, z: State)
    requires Reaches(s, acts, z) && TimedInv(s) && (s.owner.Some? ==> Holding(s.pc(s.owner.value)))
    ensures z.owner.Some? ==> Holding(z.pc(z.owner.value))
    decreases |acts|
  {
    if acts != [] {
      StepOwner(s, acts[0]);
      StepKeepsTimed(s, acts[0]);
      OwnerHolds(Do(s, acts[0]), acts[1..], z);
    }
  }

  lemma StepOwner(s: State, act: Action)
    requires TimedInv(s) && Enabled(s, act) && (s.owner.Some? ==> Holding(s.pc(s.owner.value)))
    ensures var z := Do(s, act); z.owner.Some? ==> Holding(z.pc(z.owner.value))
  {
    if act.Run? { assert HolderOk(s, act.t); }
  }

  ghost predicate OnlyRuns(acts: seq<Action>, t: nat) { forall i | 0 <= i < |acts| :: acts[i] == Run(t) }

  /** Nothing but this thread's place, the wakes, the timed waiters and the mutex differ. */
  ghost predicate Beside(y: State, z: State, t: nat) {
    z.word == y.word && z.pushes == y.pushes && forall u | u != t :: z.pc(u) == y.pc(u)
  }

  /** The walk along the stack comes to its end. */
  lemma {:induction false} WalkAlone(y: State, t: nat, chain: seq<Waiter>) returns (more: seq<Action>, z: State)
    requires y.pc(t).PostWalk? && Linked(y.pc(t).at, y.next, chain)
    ensures Reaches(y, more, z) && OnlyRuns(more, t) && Beside(y, z, t)
    ensures z.pc(t) == PostLock && z.race == y.race && z.list == y.list && z.owner == y.owner
    decreases |chain|
  {
    var y1 := Exec(y, t);
    if chain == [] {
      more, z := [Run(t)], y1;
      First(y, Run(t), [], z);
    } else {
      var y2 := Exec(y1, t);
      more, z := WalkAlone(y2, t, chain[1..]);
      First(y1, Run(t), more, z);
      First(y, Run(t), [Run(t)] + more, z);
      more := [Run(t)] + ([Run(t)] + more);
    }
  }

  /** What a post leaves of a timed waiter. */
  function PostedRace(r: Race): Race {
    if r.status.Waiting? then r.(status := Posted, heard := if r.stored then Scheduled else Empty) else r
  }

  /** The walk along the list of timed waiters comes to its end. */
  lemma {:induction false} ListAlone(y: State, t: nat) returns (more: seq<Action>, z: State)
    requires y.pc(t).PostCas? && y.pc(t).i <= |y.list|
    ensures Reaches(y, more, z) && OnlyRuns(more, t) && Beside(y, z, t)
    ensures z.pc(t).Free? && z.list == [] && z.owner == None && z.wakes == y.wakes
    ensures forall x :: z.race(x) == if x in y.list[y.pc(t).i..] then PostedRace(y.race(x)) else y.race(x)
    decreases |y.list| - y.pc(t).i
  {
    var i := y.pc(t).i;
    if i == |y.list| {
      more, z := [Run(t)], Exec(y, t);
      First(y, Run(t), [], z);
    } else {
      var step, y1 := PostOne(y, t);
      var rest;
      rest, z := ListAlone(y1, t);
      Joined(y, step, y1, rest, z);
      more := step + rest;
      RacesCompose(y.race, y1.race, z.race, y.list, i);
    }
  }

  lemma RacesCompose(a: Timed -> Race, b: Timed -> Race, c: Timed -> Race, list: seq<Timed>, i: nat)
    requires i < |list| && forall x :: b(x) == if x == list[i] then PostedRace(a(x)) else a(x)
    requires forall x :: c(x) == if x in list[i + 1..] then PostedRace(b(x)) else b(x)
    ensures forall x :: c(x) == if x in list[i..] then PostedRace(a(x)) else a(x)
  {
    assert list[i..] == [list[i]] + list[i + 1..];
  }

  /** One timed waiter: decided already, or decided now and its handle read. */
  lemma PostOne(y: State, t: nat) returns (more: seq<Action>, z: State)
    requires y.pc(t).PostCas? && y.pc(t).i < |y.list|
    ensures Reaches(y, more, z) && OnlyRuns(more, t) && Beside(y, z, t)
    ensures z.pc(t) == PostCas(y.pc(t).i + 1) && z.list == y.list && z.wakes == y.wakes
    ensures forall x :: z.race(x) == if x == y.list[y.pc(t).i] then PostedRace(y.race(x)) else y.race(x)
  {
    more, z := [Run(t)], Exec(y, t);
    First(y, Run(t), [], z);
    if y.race(y.list[y.pc(t).i]).status.Waiting? {
      First(z, Run(t), [], Exec(z, t));
      First(y, Run(t), [Run(t)], Exec(z, t));
      more, z := [Run(t), Run(t)], Exec(z, t);
    }
  }

  /**
   Main theorem: a post called in any reachable state in which nobody is mid-call runs to its end, by
   its own steps alone. It leaves the baton set; if it was not, every plain waiter has been woken, and
   every timed waiter still waiting has been posted and its handle, if it was stored, scheduled.
   */
  lemma PostAlone(s: State, acts: seq<Action>, y: State, t: nat) returns (more: seq<Action>, z: State)
    requires Init(s) && Reaches(s, acts, y) && forall u :: y.pc(u).Free?
    ensures Reaches(y, [CallPost(t)] + more, z) && OnlyRuns(more, t) && z.word.Signaled? && forall u :: z.pc(u).Free?
    ensures forall w :: z.wakes(w) == z.pushes(w) == y.pushes(w)
    ensures y.word.Signaled? ==> z.race == y.race && z.list == y.list
    ensures !y.word.Signaled? ==> z.list == [] && forall x ::
            z.race(x) == if y.race(x).registered then PostedRace(y.race(x)) else y.race(x)
  {
    var called := Do(y, CallPost(t));
    more, z := PostRuns(s, acts, y, t, called);
    First(y, CallPost(t), more, z);
    WokenAfter(s, acts, y, [CallPost(t)] + more, z);
  }

  lemma WokenAfter(s: State, acts: seq<Action>, y: State, more: seq<Action>, z: State)
    requires Init(s) && Reaches(s, acts, y) && Reaches(y, more, z) && z.word.Signaled? && forall u :: z.pc(u).Free?
    ensures forall w :: z.wakes(w) == z.pushes(w)
  {
    var a0 := InitStack(s);
    var a := RunKeepsStack(s, a0, acts, y);
    a := RunKeepsStack(y, a, more, z);
    forall t, w ensures a.place(w) != Claimed(t) { assert ThreadOk(z, a, t) && ChainOk(a, t, w); }
    forall w ensures z.wakes(w) == z.pushes(w) { assert WaiterOk(z, a, w); }
  }

  lemma PostRuns(s: State, acts: seq<Action>, y: State, t: nat, called: State) returns (more: seq<Action>, z: State)
    requires Init(s) && Reaches(s, acts, y) && (forall u :: y.pc(u).Free?) && called == Do(y, CallPost(t))
    ensures Reaches(called, more, z) && OnlyRuns(more, t) && z.word.Signaled? && forall u :: z.pc(u).Free?
    ensures z.pushes == y.pushes
    ensures y.word.Signaled? ==> z.race == y.race && z.list == y.list
    ensures !y.word.Signaled? ==> z.list == [] && forall x ::
            z.race(x) == if y.race(x).registered then PostedRace(y.race(x)) else y.race(x)
  {
    var y1 := Exec(called, t);
    if y.word.Signaled? {
      more, z := [Run(t)], y1;
      First(called, Run(t), [], z);
    } else {
      RunKeepsTimed(s, acts, y);
      OwnerHolds(s, acts, y);
      var a0 := InitStack(s);
      var a := RunKeepsStack(s, a0, acts, y);
      var walk, y2 := WalkAlone(y1, t, a.stack);
      var rest;
      rest, z := LockAlone(y2, t);
      Joined(y1, walk, y2, rest, z);
      First(called, Run(t), walk + rest, z);
      more := [Run(t)] + (walk + rest);
      forall x ensures z.race(x) == if y.race(x).registered then PostedRace(y.race(x)) else y.race(x) {
        assert RaceOk(y, x);
      }
    }
  }

  /** From the lock to the end. */
  lemma LockAlone(y: State, t: nat) returns (more: seq<Action>, z: State)
    requires y.pc(t).PostLock? && y.owner.None?
    ensures Reaches(y, more, z) && OnlyRuns(more, t) && Beside(y, z, t) && z.pc(t).Free? && z.list == []
    ensures forall x :: z.race(x) == if x in y.list then PostedRace(y.race(x)) else y.race(x)
  {
    var y1 := Exec(y, t);
    more, z := ListAlone(y1, t);
    assert y1.list[0..] == y.list;
    First(y, Run(t), more, z);
    more := [Run(t)] + more;
  }

  lemma {:induction false} Joined(y: State, acts: seq<Action>, m: State, more: seq<Action>, z: State)
    requires Reaches(y, acts, m) && Reaches(m, more, z)
    ensures Reaches(y, acts + more, z)
    decreases |acts|
  {
    if acts == [] {
      assert acts + more == more;
    } else {
      Joined(Do(y, acts[0]), acts[1..], m, more, z);
      assert acts + more == [acts[0]] + (acts[1..] + more);
    }
  }

  // ---------------------------------------------------------------- continuing after a timed wait

  /** How often the waiting coroutine goes on: by not suspending, by a post's resume, by its timer's. */
  function Continuations(r: Race): nat { One(r.check.Goes?) + One(r.heard.Scheduled?) + One(r.timer == Over(true)) }

  /** Whoever decided the status has looked at the handle: there is nothing more it will do. */
  predicate HandleRead(r: Race) { r.heard.Empty? || r.heard.Scheduled? || r.timer.Over? }

  /** The wait is over: the coroutine has looked at the status, and whoever decided it at the handle. */
  predicate Settled(r: Race) { !r.check.NotYet? && HandleRead(r) }

  /** The step in which whoever decided the status of x looks at its handle. */
  predicate ReadsHandle(s: State, act: Action, x: Timed) {
    match act
    case Run(t) => s.pc(t).PostHandle? && s.pc(t).i < |s.list| && s.list[s.pc(t).i] == x
    case TimerResume(y) => y == x
    case _ => false
  }

  /** The guard of the failing branch: the handle is there, but its coroutine is not asleep. */
  predicate HandleOfAwake(r: Race) { r.stored && !r.check.Sleeps? }

  lemma StepReads(s: State, act: Action, x: Timed)
    requires TimedInv(s) && Enabled(s, act) && !HandleRead(s.race(x)) && HandleRead(Do(s, act).race(x))
    ensures ReadsHandle(s, act, x)
  {
    if act.Run? { assert HolderOk(s, act.t); }
  }

  lemma ReadsOnce(s: State, act: Action, x: Timed)
    requires TimedInv(s) && Enabled(s, act) && ReadsHandle(s, act, x)
    ensures var r, r' := s.race(x), Do(s, act).race(x);
            && HandleRead(r') && !r'.status.Waiting? && r'.check == r.check
            && One(r'.heard.Scheduled?) + One(r'.timer == Over(true)) == One(r.stored)
  {
    assert RaceOk(s, x);
    if act.Run? { assert HolderOk(s, act.t); }
  }

  /** Afterwards only the coroutine itself can still act, and it sees the status decided. */
  lemma AfterReading(s: State, act: Action, x: Timed)
    requires TimedInv(s) && Enabled(s, act) && HandleRead(s.race(x))
    ensures var r, r' := s.race(x), Do(s, act).race(x);
            && HandleRead(r') && r'.heard == r.heard && (r.timer.Over? ==> r'.timer == r.timer)
            && (r'.timer.Over? ==> r.timer.Over?) && (r'.check.Sleeps? <==> r.check.Sleeps?)
  {
    assert RaceOk(s, x);
    if act.Run? {
      assert HolderOk(s, act.t);
      if s.pc(act.t).PostHandle? { assert RaceOk(s, s.list[s.pc(act.t).i]); }
    }
  }

  lemma {:induction false} AfterReadingRun(y: State, more: seq<Action>, z: State, x: Timed)
    requires TimedInv(y) && Reaches(y, more, z) && HandleRead(y.race(x))
    ensures TimedInv(z) && z.race(x).heard == y.race(x).heard
    ensures (z.race(x).timer == Over(true) <==> y.race(x).timer == Over(true))
    ensures z.race(x).check.Sleeps? <==> y.race(x).check.Sleeps?
    decreases |more|
  {
    if more != [] {
      AfterReading(y, more[0], x);
      StepKeepsTimed(y, more[0]);
      AfterReadingRun(Do(y, more[0]), more[1..], z, x);
    }
  }

  /** A run that settles a wait contains the step in which its handle was read. */
  lemma {:induction false} FindReading(s: State, acts: seq<Action>, z: State, x: Timed)
    returns (before: seq<Action>, y: State, act: Action, more: seq<Action>)
    requires TimedInv(s) && Reaches(s, acts, z) && !HandleRead(s.race(x)) && HandleRead(z.race(x))
    ensures acts == before + [act] + more && Reaches(s, before, y) && TimedInv(y)
    ensures Enabled(y, act) && ReadsHandle(y, act, x) && Reaches(Do(y, act), more, z)
    decreases |acts|
  {
    var t := Do(s, acts[0]);
    StepKeepsTimed(s, acts[0]);
    if HandleRead(t.race(x)) {
      StepReads(s, acts[0], x);
      before, y, act, more := [], s, acts[0], acts[1..];
    } else {
      var rest;
      rest, y, act, more := FindReading(t, acts[1..], z, x);
      before := [acts[0]] + rest;
      assert acts == [acts[0]] + acts[1..];
    }
  }

  /**
   Main theorem: a settled timed wait is never lost, and the waiter goes on twice if and only
   if, at the step in which the post or the timeout that decided it looked at the handle, the
   handle was stored and its coroutine was not asleep.
   */
  lemma ContinuesTwiceIff(s: State, acts: seq<Action>, z: State, x: Timed)
    returns (before: seq<Action>, y: State, act: Action, more: seq<Action>)
    requires Init(s) && Reaches(s, acts, z) && Settled(z.race(x))
    ensures acts == before + [act] + more && Reaches(s, before, y) && Enabled(y, act) && Reaches(Do(y, act), more, z)
    ensures ReadsHandle(y, act, x)
    ensures Continuations(z.race(x)) == if HandleOfAwake(y.race(x)) then 2 else 1
  {
    before, y, act, more := FindReading(s, acts, z, x);
    assert RaceOk(y, x);
    ReadsOnce(y, act, x);
    StepKeepsTimed(y, act);
    AfterReadingRun(Do(y, act), more, z, x);
    assert RaceOk(z, x);
  }

  lemma {:induction false} OneMore(s: State, acts: seq<Action>, y: State, act: Action)
    requires Reaches(s, acts, y) && Enabled(y, act)
    ensures Reaches(s, acts + [act], Do(y, act))
    decreases |acts|
  {
    if acts == [] {
      assert [act][1..] == [];
    } else {
      OneMore(Do(s, acts[0]), acts[1..], y, act);
      assert (acts + [act])[1..] == acts[1..] + [act];
    }
  }

  lemma Go(s: State, acts: seq<Action>, y: State, act: Action) returns (more: seq<Action>, z: State)
    requires Reaches(s, acts, y) && Enabled(y, act)
    ensures z == Do(y, act) && Reaches(s, more, z)
  {
    OneMore(s, acts, y, act);
    more, z := acts + [act], Do(y, act);
  }

  /** Thread 0 is about to list timed waiter 0. */
  lemma Registering(s: State) returns (acts: seq<Action>, z: State)
    requires Init(s)
    ensures Reaches(s, acts, z) && z.word == Top(None) && z.list == []
    ensures z.race(0) == FRESH && z.pc(0) == RegisterPush(0) && forall t | t != 0 :: z.pc(t).Free?
  {
    acts, z := Go(s, [], s, CallWaitFor(0, 0));
    acts, z := Go(s, acts, z, Run(0));
    acts, z := Go(s, acts, z, Run(0));
  }

  /** It is listed, and its handle stored. */
  lemma Registered(s: State) returns (acts: seq<Action>, z: State)
    requires Init(s)
    ensures Reaches(s, acts, z) && z.word == Top(None) && z.owner == None && z.list == [0] && forall t :: z.pc(t).Free?
    ensures z.race(0) == FRESH.(registered := true, stored := true)
  {
    acts, z := Registering(s);
    acts, z := Go(s, acts, z, Run(0));
    acts, z := Go(s, acts, z, StoreHandle(0));
  }

  /** From there, thread 1's post takes the mutex. */
  lemma Posting(s: State) returns (acts: seq<Action>, z: State)
    requires Init(s)
    ensures Reaches(s, acts, z) && z.list == [0] && z.pc(1) == PostCas(0)
    ensures z.race(0) == FRESH.(registered := true, stored := true)
  {
    acts, z := Registered(s);
    acts, z := Go(s, acts, z, CallPost(1));
    acts, z := Go(s, acts, z, Run(1));
    acts, z := Go(s, acts, z, Run(1));
    acts, z := Go(s, acts, z, Run(1));
  }

  /** The case does occur: a timed waiter that goes on twice after one post. */
  lemma CanContinueTwice(s: State) returns (acts: seq<Action>, z: State)
    requires Init(s)
    ensures Reaches(s, acts, z) && Settled(z.race(0)) && z.race(0).status.Posted? && Continuations(z.race(0)) == 2
  {
    acts, z := Posting(s);
    acts, z := Go(s, acts, z, Run(1));            // the post decides the status
    acts, z := Go(s, acts, z, CheckStatus(0));    // the coroutine sees it and does not suspend
    acts, z := Go(s, acts, z, Run(1));            // the post sees the handle and schedules it
  }

  /** And one that goes on twice after its timeout. */
  lemma TimerCanContinueTwice(s: State) returns (acts: seq<Action>, z: State)
    requires Init(s)
    ensures Reaches(s, acts, z) && Settled(z.race(0)) && z.race(0).status.TimedOut? && Continuations(z.race(0)) == 2
  {
    acts, z := Registered(s);
    acts, z := Go(s, acts, z, TimerCas(0));       // the timeout decides the status
    acts, z := Go(s, acts, z, CheckStatus(0));    // the coroutine sees it and does not suspend
    acts, z := Go(s, acts, z, TimerErase(0));
    acts, z := Go(s, acts, z, TimerResume(0));    // the timeout sees the handle and resumes it
  }
}
