/**
 The reference-counted lock-free free list of the concurrent queue.

 Every atomic operation of add, try_get and add_knowing_refcount_is_zero is one
 sequentially consistent step of one thread; any number of threads (fewer than
 2^31 - 1, the room in the 31-bit counter) are interleaved arbitrarily.  The
 reference word is the source's 32-bit word, with wrap-around written out.
 */
module FreeList {
  import opened Wrappers

  type Node = nat
  type Tid = nat

  const FLAG: nat := 0x8000_0000       // SHOULD_BE_ON_FREELIST
  const WORD: nat := 0x1_0000_0000

  /** Where add_knowing_refcount_is_zero returns to: out of add, or back into the try_get loop. */
  datatype Cont = Return | Resume(head: Option<Node>)

  /** The next atomic operation of a thread, with its live locals. */
  datatype PC =
    | Idle
    | AddFlag(n: Node)                                          // fetch_add(SHOULD_BE_ON_FREELIST)
    | GetLoadHead
    | GetLoadRefs(n: Node)
    | GetCasRefs(n: Node, seen: nat)
    | GetLoadNext(n: Node)
    | GetCasHead(n: Node, succ: Option<Node>)
    | GetUnrefTwice(n: Node)                                    // won: fetch_sub(2)
    | GetUnref(n: Node, newHead: Option<Node>)                  // lost: fetch_sub(1)
    | PushLoadHead(n: Node, k: Cont)
    | PushStoreNext(n: Node, top: Option<Node>, k: Cont)
    | PushStoreRefs(n: Node, top: Option<Node>, k: Cont)
    | PushCasHead(n: Node, top: Option<Node>, k: Cont)
    | PushDefer(n: Node, top: Option<Node>, k: Cont)            // fetch_add(SHOULD_BE_ON_FREELIST - 1)

  /** The shared words, the threads, and which nodes are in the hands of clients. */
  datatype State = State(
    head: Option<Node>,
    next: Node -> Option<Node>,
    refs: Node -> nat,
    pc: seq<PC>,
    owned: Node -> bool)

  function Set<T>(f: Node -> T, n: Node, v: T): Node -> T { (m: Node) => if m == n then v else f(m) }

  /** A fetch_add on a 32-bit word. */
  function Fetched(word: nat, delta: int): nat { (word + delta) % WORD }

  /** The top of the try_get loop: `while (head != nullptr)`. */
  function LoopWith(head: Option<Node>): PC {
    match head case None => Idle case Some(h) => GetLoadRefs(h)
  }

  function After(k: Cont): PC {
    match k case Return => Idle case Resume(h) => LoopWith(h)
  }

  /** One atomic operation of thread t, exactly as the code performs it. */
  function Exec(s: State, t: Tid): State
    requires t < |s.pc|
  {
    match s.pc[t]
    case Idle => s
    case AddFlag(n) =>
      s.(refs := Set(s.refs, n, Fetched(s.refs(n), FLAG)),
         pc := s.pc[t := if s.refs(n) == 0 then PushLoadHead(n, Return) else Idle])
    case GetLoadHead =>
      s.(pc := s.pc[t := LoopWith(s.head)])
    case GetLoadRefs(n) =>
      s.(pc := s.pc[t := if s.refs(n) % FLAG == 0 then GetLoadHead else GetCasRefs(n, s.refs(n))])
    case GetCasRefs(n, seen) =>
      if s.refs(n) == seen then
        s.(refs := Set(s.refs, n, Fetched(seen, 1)), pc := s.pc[t := GetLoadNext(n)])
      else
        s.(pc := s.pc[t := GetLoadHead])
    case GetLoadNext(n) =>
      s.(pc := s.pc[t := GetCasHead(n, s.next(n))])
    case GetCasHead(n, succ) =>
      if s.head == Some(n) then
        s.(head := succ, pc := s.pc[t := GetUnrefTwice(n)])
      else
        s.(pc := s.pc[t := GetUnref(n, s.head)])
    case GetUnrefTwice(n) =>
      s.(refs := Set(s.refs, n, Fetched(s.refs(n), -2)), pc := s.pc[t := Idle], owned := Set(s.owned, n, true))
    case GetUnref(n, newHead) =>
      s.(refs := Set(s.refs, n, Fetched(s.refs(n), -1)),
         pc := s.pc[t := if s.refs(n) == FLAG + 1 then PushLoadHead(n, Resume(newHead)) else LoopWith(newHead)])
    case PushLoadHead(n, k) =>
      s.(pc := s.pc[t := PushStoreNext(n, s.head, k)])
    case PushStoreNext(n, top, k) =>
      s.(next := Set(s.next, n, top), pc := s.pc[t := PushStoreRefs(n, top, k)])
    case PushStoreRefs(n, top, k) =>
      s.(refs := Set(s.refs, n, 1), pc := s.pc[t := PushCasHead(n, top, k)])
    case PushCasHead(n, top, k) =>
      if s.head == top then
        s.(head := Some(n), pc := s.pc[t := After(k)])
      else
        s.(pc := s.pc[t := PushDefer(n, s.head, k)])
    case PushDefer(n, top, k) =>
      s.(refs := Set(s.refs, n, Fetched(s.refs(n), FLAG - 1)),
         pc := s.pc[t := if s.refs(n) == 1 then PushStoreNext(n, top, k) else After(k)])
  }

  /** A thread runs its next operation, or an idle one calls add (on a node a client owns) or try_get. */
  datatype Action = Run(t: Tid) | CallAdd(t: Tid, n: Node) | CallTryGet(t: Tid)

  predicate Enabled(s: State, act: Action) {
    && act.t < |s.pc|
    && match act
       case Run(t) => !s.pc[t].Idle?
       case CallAdd(t, n) => s.pc[t].Idle? && s.owned(n)
       case CallTryGet(t) => s.pc[t].Idle?
  }

  function Do(s: State, act: Action): State
    requires Enabled(s, act)
  {
    match act
    case Run(t) => Exec(s, t)
    case CallAdd(t, n) => s.(pc := s.pc[t := AddFlag(n)], owned := Set(s.owned, n, false))
    case CallTryGet(t) => s.(pc := s.pc[t := GetLoadHead])
  }

  /** An empty list; every node is with a client, its reference word zero as the constructor leaves it. */
  ghost predicate Init(s: State) {
    && s.head == None
    && |s.pc| < FLAG - 1
    && (forall t | 0 <= t < |s.pc| :: s.pc[t].Idle?)
    && (forall n :: s.refs(n) == 0)
    && (forall n :: s.owned(n))
  }

  /** z is reached from s by performing the actions in order. */
  ghost predicate Reaches(s: State, acts: seq<Action>, z: State)
    decreases |acts|
  {
    if acts == [] then s == z
    else Enabled(s, acts[0]) && Reaches(Do(s, acts[0]), acts[1..], z)
  }

  // ---------------------------------------------------------------- references

  /** The thread has incremented n's counter and not yet given the reference back. */
  predicate Holds(p: PC, n: Node) {
    (p.GetLoadNext? || p.GetCasHead? || p.GetUnrefTwice? || p.GetUnref?) && p.n == n
  }

  function One(b: bool): nat { if b then 1 else 0 }

  /** How many threads hold a reference to n. */
  function Holders(pc: seq<PC>, n: Node): nat {
    if pc == [] then 0 else One(Holds(pc[0], n)) + Holders(pc[1..], n)
  }

  lemma {:induction false} HoldersMove(pc: seq<PC>, t: Tid, p: PC, n: Node)
    requires t < |pc|
    ensures Holders(pc[t := p], n) == Holders(pc, n) - One(Holds(pc[t], n)) + One(Holds(p, n))
    ensures One(Holds(pc[t], n)) <= Holders(pc, n)
  {
    if t == 0 {
      assert pc[t := p][1..] == pc[1..];
    } else {
      assert pc[t := p][1..] == pc[1..][t - 1 := p];
      HoldersMove(pc[1..], t - 1, p, n);
    }
  }

  lemma {:induction false} HoldersBound(pc: seq<PC>, n: Node)
    ensures Holders(pc, n) <= |pc|
    ensures Holders(pc, n) == 0 ==> forall t | 0 <= t < |pc| :: !Holds(pc[t], n)
    ensures Holders(pc, n) != 0 ==> exists t | 0 <= t < |pc| :: Holds(pc[t], n)
  {
    if pc != [] {
      HoldersBound(pc[1..], n);
      assert forall t | 0 < t < |pc| :: pc[t] == pc[1..][t - 1];
      if !Holds(pc[0], n) && Holders(pc, n) != 0 {
        var t :| 0 <= t < |pc[1..]| && Holds(pc[1..][t], n);
        assert Holds(pc[t + 1], n);
      }
    }
  }

  // ---------------------------------------------------------------- places

  /** Where a node is; exactly one place at any time. */
  datatype Place =
    | Owned                 // with a client
    | Adding(t: Tid)        // t is about to set its should-be-on-freelist bit
    | Early(t: Tid)         // t alone may touch it: count zero, bit set
    | Late(t: Tid)          // t has made the count one and is about to link it
    | Listed
    | Taken(t: Tid)         // t unlinked it and is about to drop both references
    | Deferred              // bit set, and whoever drops the last reference links it

  /** Proof-only companion of a state: every node's place, and the list from the head down. */
  datatype Aux = Aux(place: Node -> Place, list: seq<Node>)

  function Word(p: Place, holders: nat): nat {
    (if p.Early? || p.Deferred? then FLAG else 0) + holders + One(p.Listed? || p.Taken? || p.Late?)
  }

  /** The place a thread's next operation puts its node in, when the thread alone is responsible for it. */
  function Claim(p: PC, t: Tid): Place {
    match p
    case AddFlag(_) => Adding(t)
    case GetUnrefTwice(_) => Taken(t)
    case PushLoadHead(_, _) => Early(t)
    case PushStoreNext(_, _, _) => Early(t)
    case PushStoreRefs(_, _, _) => Early(t)
    case PushCasHead(_, _, _) => Late(t)
    case PushDefer(_, _, _) => Late(t)
    case _ => Deferred
  }

  predicate Claims(p: PC) { !Claim(p, 0).Deferred? }
  predicate Private(p: Place) { p.Adding? || p.Early? || p.Late? || p.Taken? }

  function At(list: seq<Node>, i: nat): Option<Node> { if i < |list| then Some(list[i]) else None }

  ghost predicate Chain(head: Option<Node>, next: Node -> Option<Node>, list: seq<Node>) {
    && head == At(list, 0)
    && (forall i | 0 <= i < |list| :: next(list[i]) == At(list, i + 1))
    && (forall i, j | 0 <= i < j < |list| :: list[i] != list[j])
  }

  ghost predicate ThreadOk(s: State, a: Aux, t: Tid) {
    t < |s.pc| ==>
      var p := s.pc[t];
      && (Claims(p) ==> a.place(p.n) == Claim(p, t))
      && (p.GetCasRefs? ==> p.seen % FLAG != 0)
      && (p.GetCasHead? ==> s.next(p.n) == p.succ)
      && (p.PushStoreRefs? || p.PushCasHead? ==> s.next(p.n) == p.top)
  }

  ghost predicate NodeOk(s: State, a: Aux, n: Node) {
    var p := a.place(n);
    var h := Holders(s.pc, n);
    && s.refs(n) == Word(p, h)
    && (s.owned(n) <==> p.Owned?)
    && (n in a.list <==> p.Listed?)
    && (p.Early? ==> h == 0)
    && (p.Deferred? ==> h != 0)
    && (Private(p) ==> p.t < |s.pc| && Claims(s.pc[p.t]) && s.pc[p.t].n == n && Claim(s.pc[p.t], p.t) == p)
  }

  ghost predicate Inv(s: State, a: Aux) {
    && |s.pc| < FLAG - 1
    && Chain(s.head, s.next, a.list)
    && (forall t: Tid {:trigger ThreadOk(s, a, t)} :: ThreadOk(s, a, t))
    && (forall n: Node {:trigger NodeOk(s, a, n)} :: NodeOk(s, a, n))
  }

  /** Thread t moves; node n alone changes its word, its place, or whether it is on the list. */
  ghost predicate Local(s: State, a: Aux, s': State, a': Aux, t: Tid, n: Node) {
    && t < |s.pc| == |s'.pc| && s'.next == s.next && s'.pc == s.pc[t := s'.pc[t]]
    && (forall m | m != n :: s'.refs(m) == s.refs(m) && s'.owned(m) == s.owned(m) && a'.place(m) == a.place(m))
    && (forall m | m != n :: m in a'.list <==> m in a.list)
    && (forall m | m != n :: Holds(s.pc[t], m) == Holds(s'.pc[t], m))
    && (Claims(s.pc[t]) ==> s.pc[t].n == n)
    && (Claims(s'.pc[t]) ==> s'.pc[t].n == n)
    // n's place changes only if no other thread is responsible for it
    && (a'.place(n) == a.place(n) || (Private(a.place(n)) ==> a.place(n).t == t))
  }

  lemma MoveThread(s: State, a: Aux, s': State, a': Aux, t: Tid, n: Node, u: Tid)
    requires Local(s, a, s', a', t, n) && u != t && ThreadOk(s, a, u)
    ensures ThreadOk(s', a', u)
  {}

  lemma MoveNode(s: State, a: Aux, s': State, a': Aux, t: Tid, n: Node, m: Node)
    requires Local(s, a, s', a', t, n) && m != n && NodeOk(s, a, m)
    ensures NodeOk(s', a', m)
  {
    HoldersMove(s.pc, t, s'.pc[t], m);
  }

  lemma Move(s: State, a: Aux, s': State, a': Aux, t: Tid, n: Node)
    requires Inv(s, a) && Local(s, a, s', a', t, n)
    requires Chain(s'.head, s.next, a'.list)
    requires ThreadOk(s', a', t) && NodeOk(s', a', n)
    ensures Inv(s', a')
  {
    forall u: Tid ensures ThreadOk(s', a', u) {
      assert ThreadOk(s, a, u);
      if u != t { MoveThread(s, a, s', a', t, n, u); }
    }
    forall m: Node ensures NodeOk(s', a', m) {
      assert NodeOk(s, a, m);
      if m != n { MoveNode(s, a, s', a', t, n, m); }
    }
  }

  /** A move that changes no word and no responsibility. */
  lemma QuietMove(s: State, a: Aux, t: Tid, p: PC)
    requires Inv(s, a) && t < |s.pc|
    requires Claims(p) == Claims(s.pc[t]) && Claim(p, t) == Claim(s.pc[t], t) && (Claims(p) ==> p.n == s.pc[t].n)
    requires forall m :: Holds(p, m) == Holds(s.pc[t], m)
    requires ThreadOk(s.(pc := s.pc[t := p]), a, t)
    ensures Inv(s.(pc := s.pc[t := p]), a)
  {
    var n := if Claims(p) then p.n else 0;
    HoldersMove(s.pc, t, p, n);
    assert NodeOk(s, a, n);
    Move(s, a, s.(pc := s.pc[t := p]), a, t, n);
  }

  // ---------------------------------------------------------------- each atomic operation keeps the invariant

  /** A fetch_add or fetch_sub that stays inside the word. */
  lemma FetchedExact(word: nat, delta: int)
    requires 0 <= word + delta < WORD
    ensures Fetched(word, delta) == word + delta
  {}

  /** add raises the should-be-on-freelist bit: at count zero the adder links the node, otherwise its holders will. */
  lemma StepAddFlag(s: State, a: Aux, t: Tid) returns (a': Aux)
    requires Inv(s, a) && t < |s.pc| && s.pc[t].AddFlag?
    ensures Inv(Exec(s, t), a')
  {
    var n, s' := s.pc[t].n, Exec(s, t);
    assert ThreadOk(s, a, t) && NodeOk(s, a, n);
    HoldersBound(s.pc, n);
    HoldersMove(s.pc, t, s'.pc[t], n);
    FetchedExact(s.refs(n), FLAG);
    a' := a.(place := Set(a.place, n, if s.refs(n) == 0 then Early(t) else Deferred));
    Move(s, a, s', a', t, n);
  }

  /** A failed link trades the list's reference for the bit, in one addition. */
  lemma StepDefer(s: State, a: Aux, t: Tid) returns (a': Aux)
    requires Inv(s, a) && t < |s.pc| && s.pc[t].PushDefer?
    ensures Inv(Exec(s, t), a')
  {
    var n, s' := s.pc[t].n, Exec(s, t);
    assert ThreadOk(s, a, t) && NodeOk(s, a, n);
    HoldersBound(s.pc, n);
    HoldersMove(s.pc, t, s'.pc[t], n);
    FetchedExact(s.refs(n), FLAG - 1);
    a' := a.(place := Set(a.place, n, if s.refs(n) == 1 then Early(t) else Deferred));
    Move(s, a, s', a', t, n);
  }

  lemma StepCasRefs(s: State, a: Aux, t: Tid)
    requires Inv(s, a) && t < |s.pc| && s.pc[t].GetCasRefs?
    ensures Inv(Exec(s, t), a)
  {
    var n, s' := s.pc[t].n, Exec(s, t);
    assert ThreadOk(s, a, t) && NodeOk(s, a, n);
    if s.refs(n) == s.pc[t].seen {
      HoldersMove(s.pc, t, GetLoadNext(n), n);
      HoldersBound(s'.pc, n);
      FetchedExact(s.refs(n), 1);
      Move(s, a, s', a, t, n);
    } else {
      QuietMove(s, a, t, GetLoadHead);
    }
  }

  lemma ChainPop(head: Option<Node>, next: Node -> Option<Node>, list: seq<Node>)
    requires Chain(head, next, list) && head.Some?
    ensures list != [] && list[0] == head.value && Chain(next(head.value), next, list[1..])
    ensures forall m :: m in list[1..] <==> m in list && m != head.value
  {
    assert list == [list[0]] + list[1..];
  }

  lemma ChainPush(head: Option<Node>, next: Node -> Option<Node>, list: seq<Node>, n: Node)
    requires Chain(head, next, list) && n !in list && next(n) == head
    ensures Chain(Some(n), next, [n] + list)
    ensures forall m :: m in [n] + list <==> m in list || m == n
  {}

  lemma StepTake(s: State, a: Aux, t: Tid) returns (a': Aux)
    requires Inv(s, a) && t < |s.pc| && s.pc[t].GetCasHead? && s.head == Some(s.pc[t].n)
    ensures Inv(Exec(s, t), a')
  {
    var n, s' := s.pc[t].n, Exec(s, t);
    assert ThreadOk(s, a, t) && NodeOk(s, a, n);
    HoldersMove(s.pc, t, s'.pc[t], n);
    ChainPop(s.head, s.next, a.list);
    a' := Aux(Set(a.place, n, Taken(t)), a.list[1..]);
    Move(s, a, s', a', t, n);
  }

  lemma StepUnrefTwice(s: State, a: Aux, t: Tid) returns (a': Aux)
    requires Inv(s, a) && t < |s.pc| && s.pc[t].GetUnrefTwice?
    ensures Inv(Exec(s, t), a')
  {
    var n, s' := s.pc[t].n, Exec(s, t);
    assert ThreadOk(s, a, t) && NodeOk(s, a, n);
    HoldersBound(s.pc, n);
    HoldersMove(s.pc, t, Idle, n);
    FetchedExact(s.refs(n), -2);
    a' := a.(place := Set(a.place, n, Owned));
    Move(s, a, s', a', t, n);
  }

  lemma StepUnref(s: State, a: Aux, t: Tid) returns (a': Aux)
    requires Inv(s, a) && t < |s.pc| && s.pc[t].GetUnref?
    ensures Inv(Exec(s, t), a')
  {
    var n, s' := s.pc[t].n, Exec(s, t);
    assert ThreadOk(s, a, t) && NodeOk(s, a, n);
    HoldersBound(s.pc, n);
    HoldersMove(s.pc, t, s'.pc[t], n);
    FetchedExact(s.refs(n), -1);
    a' := if s.refs(n) == FLAG + 1 then a.(place := Set(a.place, n, Early(t))) else a;
    Move(s, a, s', a', t, n);
  }

  lemma StepStoreNext(s: State, a: Aux, t: Tid)
    requires Inv(s, a) && t < |s.pc| && s.pc[t].PushStoreNext?
    ensures Inv(Exec(s, t), a)
  {
    var n, s' := s.pc[t].n, Exec(s, t);
    assert ThreadOk(s, a, t) && NodeOk(s, a, n);
    HoldersBound(s.pc, n);
    forall u: Tid ensures ThreadOk(s', a, u) {
      assert ThreadOk(s, a, u);
    }
    forall m: Node ensures NodeOk(s', a, m) {
      assert NodeOk(s, a, m);
      HoldersMove(s.pc, t, s'.pc[t], m);
    }
  }

  lemma StepStoreRefs(s: State, a: Aux, t: Tid) returns (a': Aux)
    requires Inv(s, a) && t < |s.pc| && s.pc[t].PushStoreRefs?
    ensures Inv(Exec(s, t), a')
  {
    var n, s' := s.pc[t].n, Exec(s, t);
    assert ThreadOk(s, a, t) && NodeOk(s, a, n);
    HoldersMove(s.pc, t, s'.pc[t], n);
    a' := a.(place := Set(a.place, n, Late(t)));
    Move(s, a, s', a', t, n);
  }

  lemma StepLink(s: State, a: Aux, t: Tid) returns (a': Aux)
    requires Inv(s, a) && t < |s.pc| && s.pc[t].PushCasHead? && s.head == s.pc[t].top
    ensures Inv(Exec(s, t), a')
  {
    var n, s' := s.pc[t].n, Exec(s, t);
    assert ThreadOk(s, a, t) && NodeOk(s, a, n);
    HoldersMove(s.pc, t, s'.pc[t], n);
    ChainPush(s.head, s.next, a.list, n);
    a' := Aux(Set(a.place, n, Listed), [n] + a.list);
    Move(s, a, s', a', t, n);
  }

  lemma StepExec(s: State, a: Aux, t: Tid) returns (a': Aux)
    requires Inv(s, a) && t < |s.pc|
    ensures Inv(Exec(s, t), a')
  {
    assert ThreadOk(s, a, t);
    a' := a;
    match s.pc[t]
    case Idle =>
    case AddFlag(_) => a' := StepAddFlag(s, a, t);
    case PushDefer(_, _, _) => a' := StepDefer(s, a, t);
    case GetCasRefs(_, _) => StepCasRefs(s, a, t);
    case GetUnrefTwice(_) => a' := StepUnrefTwice(s, a, t);
    case GetUnref(_, _) => a' := StepUnref(s, a, t);
    case PushStoreNext(_, _, _) => StepStoreNext(s, a, t);
    case PushStoreRefs(_, _, _) => a' := StepStoreRefs(s, a, t);
    case GetCasHead(n, _) =>
      if s.head == Some(n) { a' := StepTake(s, a, t); } else { QuietMove(s, a, t, GetUnref(n, s.head)); }
    case PushCasHead(n, top, k) =>
      if s.head == top { a' := StepLink(s, a, t); } else { QuietMove(s, a, t, PushDefer(n, s.head, k)); }
    case GetLoadHead => QuietMove(s, a, t, LoopWith(s.head));
    case GetLoadRefs(n) => QuietMove(s, a, t, Exec(s, t).pc[t]);
    case GetLoadNext(n) => QuietMove(s, a, t, GetCasHead(n, s.next(n)));
    case PushLoadHead(n, k) => QuietMove(s, a, t, PushStoreNext(n, s.head, k));
  }

  lemma StepDo(s: State, a: Aux, act: Action) returns (a': Aux)
    requires Inv(s, a) && Enabled(s, act)
    ensures Inv(Do(s, act), a')
  {
    a' := a;
    match act
    case Run(t) => a' := StepExec(s, a, t);
    case CallTryGet(t) => QuietMove(s, a, t, GetLoadHead);
    case CallAdd(t, n) =>
      assert NodeOk(s, a, n);
      HoldersMove(s.pc, t, AddFlag(n), n);
      a' := a.(place := Set(a.place, n, Adding(t)));
      Move(s, a, Do(s, act), a', t, n);
  }

  lemma {:induction false} RunKeepsInv(s: State, a: Aux, acts: seq<Action>, z: State) returns (az: Aux)
    requires Inv(s, a) && Reaches(s, acts, z)
    ensures Inv(z, az)
    decreases |acts|
  {
    if acts == [] {
      az := a;
    } else {
      var a1 := StepDo(s, a, acts[0]);
      az := RunKeepsInv(Do(s, acts[0]), a1, acts[1..], z);
    }
  }

  lemma InitInv(s: State) returns (a: Aux)
    requires Init(s)
    ensures Inv(s, a)
  {
    a := Aux((n: Node) => Owned, []);
    forall n: Node ensures NodeOk(s, a, n) {
      HoldersBound(s.pc, n);
    }
  }

  // ---------------------------------------------------------------- what holds in every reachable state

  /** t is linking n back: it runs add_knowing_refcount_is_zero on it. */
  predicate Pushing(p: PC, n: Node) {
    (p.PushLoadHead? || p.PushStoreNext? || p.PushStoreRefs? || p.PushCasHead? || p.PushDefer?) && p.n == n
  }

  /** The reference the list has, is about to get, or has just lost to a winning getter. */
  ghost predicate ListReference(s: State, list: seq<Node>, n: Node) {
    n in list || SomeWinner(s, n) || SomeLinking(s, n)
  }

  /**
   In how many of six places n is: with a client; being added; on the list; won by a getter; being
   linked; left, bit set, to the threads that reference it.
   */
  ghost function Places(s: State, list: seq<Node>, n: Node): nat {
    One(s.owned(n)) + One(SomeAdding(s, n)) + One(n in list) + One(SomeWinner(s, n)) + One(SomePushing(s, n))
    + One(s.refs(n) > FLAG && SomeHolder(s, n))
  }

  ghost predicate NodeSafe(s: State, list: seq<Node>, n: Node) {
    && s.refs(n) % FLAG == Holders(s.pc, n) + One(ListReference(s, list, n))
    && Places(s, list, n) == 1
  }

  ghost predicate ThreadsSafe(s: State) {
    // no node is given to two getters, added twice, or linked by two threads
    && (forall t, u | 0 <= t < u < |s.pc| && Claims(s.pc[t]) && Claims(s.pc[u]) :: s.pc[t].n != s.pc[u].n)
    // the next pointer read under a reference is still the next pointer when the CAS runs (no ABA)
    && (forall t | 0 <= t < |s.pc| && s.pc[t].GetCasHead? :: s.next(s.pc[t].n) == s.pc[t].succ)
    // the assertion in try_get: the bit is clear when a getter has won
    && (forall t | 0 <= t < |s.pc| && s.pc[t].GetUnrefTwice? :: 2 <= s.refs(s.pc[t].n) < FLAG)
  }

  /** The threads responsible for n are exactly the one its place names. */
  lemma ClaimFixes(s: State, a: Aux, n: Node, t: Tid)
    requires ThreadOk(s, a, t) && t < |s.pc| && Claims(s.pc[t]) && s.pc[t].n == n
    ensures a.place(n) == Claim(s.pc[t], t)
  {}

  ghost predicate SomeAdding(s: State, n: Node) { exists t | 0 <= t < |s.pc| :: s.pc[t] == AddFlag(n) }
  ghost predicate SomeWinner(s: State, n: Node) { exists t | 0 <= t < |s.pc| :: s.pc[t] == GetUnrefTwice(n) }
  ghost predicate SomePushing(s: State, n: Node) { exists t | 0 <= t < |s.pc| :: Pushing(s.pc[t], n) }
  ghost predicate SomeLinking(s: State, n: Node) {
    exists t | 0 <= t < |s.pc| :: (s.pc[t].PushCasHead? || s.pc[t].PushDefer?) && s.pc[t].n == n
  }
  ghost predicate SomeHolder(s: State, n: Node) { exists t | 0 <= t < |s.pc| :: Holds(s.pc[t], n) }

  lemma PlaceSeen(s: State, a: Aux, n: Node)
    requires Inv(s, a)
    ensures SomeAdding(s, n) <==> a.place(n).Adding?
    ensures SomeWinner(s, n) <==> a.place(n).Taken?
    ensures SomePushing(s, n) <==> a.place(n).Early? || a.place(n).Late?
    ensures SomeLinking(s, n) <==> a.place(n).Late?
  {
    assert NodeOk(s, a, n);
    var p := a.place(n);
    if Private(p) { assert s.pc[p.t].n == n; }
    forall t | 0 <= t < |s.pc| && Claims(s.pc[t]) && s.pc[t].n == n ensures p == Claim(s.pc[t], t) {
      assert ThreadOk(s, a, t);
      ClaimFixes(s, a, n, t);
    }
  }

  lemma WordParts(p: Place, h: nat)
    requires h < FLAG - 1
    ensures Word(p, h) % FLAG == h + One(p.Listed? || p.Taken? || p.Late?)
    ensures Word(p, h) > FLAG <==> (p.Early? || p.Deferred?) && h > 0
  {}

  lemma InvNodeSafe(s: State, a: Aux, n: Node)
    requires Inv(s, a)
    ensures NodeSafe(s, a.list, n)
  {
    PlaceSeen(s, a, n);
    HoldersBound(s.pc, n);
    WordParts(a.place(n), Holders(s.pc, n));
    assert NodeOk(s, a, n);
    assert SomeHolder(s, n) <==> Holders(s.pc, n) != 0;
    match a.place(n)
    case Owned => assert Places(s, a.list, n) == 1;
    case Adding(_) => assert Places(s, a.list, n) == 1;
    case Listed => assert Places(s, a.list, n) == 1;
    case _ => assert Places(s, a.list, n) == 1;
  }

  lemma InvThreadsSafe(s: State, a: Aux)
    requires Inv(s, a)
    ensures ThreadsSafe(s)
  {
    forall t: Tid ensures ThreadOk(s, a, t) {}
    forall t | 0 <= t < |s.pc| && s.pc[t].GetUnrefTwice? ensures 2 <= s.refs(s.pc[t].n) < FLAG {
      assert ThreadOk(s, a, t) && NodeOk(s, a, s.pc[t].n);
      HoldersBound(s.pc, s.pc[t].n);
    }
    forall t, u | 0 <= t < u < |s.pc| && Claims(s.pc[t]) && Claims(s.pc[u]) ensures s.pc[t].n != s.pc[u].n {
      assert ThreadOk(s, a, t) && ThreadOk(s, a, u);
    }
    forall t | 0 <= t < |s.pc| && s.pc[t].GetCasHead? ensures s.next(s.pc[t].n) == s.pc[t].succ {
      assert ThreadOk(s, a, t);
    }
  }

  /** Main theorem: every interleaving of any number of threads stays safe. */
  lemma EveryRunSafe(s: State, acts: seq<Action>, z: State) returns (list: seq<Node>)
    requires Init(s) && Reaches(s, acts, z)
    ensures Chain(z.head, z.next, list)
    ensures forall n :: NodeSafe(z, list, n)
    ensures ThreadsSafe(z)
  {
    var a := InitInv(s);
    var az := RunKeepsInv(s, a, acts, z);
    list := az.list;
    forall n: Node ensures NodeSafe(z, list, n) { InvNodeSafe(z, az, n); }
    InvThreadsSafe(z, az);
  }

  /**
   No added node is lost: once no call is in progress, every node is with a client or on the list,
   never both, with count to match.
   */
  lemma NothingLost(s: State, acts: seq<Action>, z: State) returns (list: seq<Node>)
    requires Init(s) && Reaches(s, acts, z)
    requires forall t | 0 <= t < |z.pc| :: z.pc[t].Idle?
    ensures Chain(z.head, z.next, list)
    ensures forall n :: z.owned(n) <==> n !in list
    ensures forall n :: z.refs(n) == One(n in list)
  {
    var a := InitInv(s);
    var az := RunKeepsInv(s, a, acts, z);
    list := az.list;
    forall n: Node ensures (z.owned(n) <==> n !in list) && z.refs(n) == One(n in list) {
      assert NodeOk(z, az, n);
      HoldersBound(z.pc, n);
    }
  }

  /** The list is determined by the head and the next pointers. */
  lemma {:induction false} ChainUnique(head: Option<Node>, next: Node -> Option<Node>, l: seq<Node>, m: seq<Node>,
                                       i: nat)
    requires Chain(head, next, l) && Chain(head, next, m)
    ensures At(l, i) == At(m, i)
  {
    if i > 0 { ChainUnique(head, next, l, m, i - 1); }
  }

  /** No step of a reachable state moves the next pointer of a node that is on the list or referenced. */
  lemma NextStable(s: State, acts: seq<Action>, z: State, list: seq<Node>, act: Action, n: Node)
    requires Init(s) && Reaches(s, acts, z) && Enabled(z, act)
    requires Chain(z.head, z.next, list)
    requires Holders(z.pc, n) != 0 || n in list
    ensures Do(z, act).next(n) == z.next(n)
  {
    var a := InitInv(s);
    var az := RunKeepsInv(s, a, acts, z);
    if n in list {
      var i :| 0 <= i < |list| && list[i] == n;
      ChainUnique(z.head, z.next, list, az.list, i);
    }
    assert NodeOk(z, az, n) && ThreadOk(z, az, act.t);
  }

  // ---------------------------------------------------------------- calls run to their ends

  /** n more steps of thread t alone. */
  ghost predicate Alone(s: State, t: Tid, n: nat, z: State)
    decreases n
  {
    if n == 0 then s == z
    else t < |s.pc| && !s.pc[t].Idle? && Alone(Exec(s, t), t, n - 1, z)
  }

  predicate AllIdle(s: State) { forall t | 0 <= t < |s.pc| :: s.pc[t].Idle? }

  /** One step more, at the front. */
  lemma AloneFrom(s: State, t: Tid, n: nat, z: State)
    requires t < |s.pc| && !s.pc[t].Idle? && Alone(Exec(s, t), t, n, z)
    ensures Alone(s, t, n + 1, z)
  {}

  /**
   Main theorem: from any reachable state with no call in progress, try_get run to its end takes the
   first node of the list and hands it out; on an empty list it changes nothing.
   */
  lemma TryGetTakesFirst(s: State, acts: seq<Action>, z: State, list: seq<Node>, t: Tid) returns (n: nat, y: State)
    requires Init(s) && Reaches(s, acts, z) && AllIdle(z) && t < |z.pc| && Chain(z.head, z.next, list)
    ensures Alone(Do(z, CallTryGet(t)), t, n, y) && y.pc == z.pc && y.next == z.next
    ensures list == [] ==> y == z
    ensures list != [] ==> Chain(y.head, y.next, list[1..]) && !z.owned(list[0])
    ensures list != [] ==> forall m :: y.owned(m) == (z.owned(m) || m == list[0])
  {
    var known := NothingLost(s, acts, z);
    SameChain(z.head, z.next, list, known);
    if list == [] {
      n, y := 1, Exec(Do(z, CallTryGet(t)), t);
      assert Alone(y, t, 0, y);
      assert y.pc == z.pc;
    } else {
      ChainPop(z.head, z.next, list);
      n, y := GetAlone(z, t, list[0]);
    }
  }

  lemma SameChain(head: Option<Node>, next: Node -> Option<Node>, l: seq<Node>, m: seq<Node>)
    requires Chain(head, next, l) && Chain(head, next, m)
    ensures l == m
  {
    ChainUnique(head, next, l, m, |l|);
    ChainUnique(head, next, l, m, |m|);
    assert |l| == |m|;
    forall i | 0 <= i < |l| ensures l[i] == m[i] { ChainUnique(head, next, l, m, i); }
  }

  lemma GetAlone(z: State, t: Tid, h: Node) returns (n: nat, y: State)
    requires AllIdle(z) && t < |z.pc| && z.head == Some(h) && z.refs(h) == 1
    ensures Alone(Do(z, CallTryGet(t)), t, n, y) && y.pc == z.pc && y.next == z.next && y.head == z.next(h)
    ensures forall m :: y.owned(m) == (z.owned(m) || m == h)
  {
    var z1 := Do(z, CallTryGet(t));
    var z2 := Exec(z1, t);
    assert z2.pc[t] == GetLoadRefs(h);
    var z3 := Exec(z2, t);
    assert z3.pc[t] == GetCasRefs(h, 1);
    var z4 := Exec(z3, t);
    assert z4.pc[t] == GetLoadNext(h) && z4.refs(h) == 2;
    var z5 := Exec(z4, t);
    var z6 := Exec(z5, t);
    assert z6.pc[t] == GetUnrefTwice(h);
    y := Exec(z6, t);
    n := 6;
    assert y.pc == z.pc;
    assert Alone(y, t, 0, y);
    AloneFrom(z6, t, 0, y);
    AloneFrom(z5, t, 1, y);
    AloneFrom(z4, t, 2, y);
    AloneFrom(z3, t, 3, y);
    AloneFrom(z2, t, 4, y);
    AloneFrom(z1, t, 5, y);
  }

  /** Main theorem: from any such state add run to its end puts its node in front of the list. */
  lemma AddPutsFirst(s: State, acts: seq<Action>, z: State, list: seq<Node>, t: Tid, node: Node)
    returns (n: nat, y: State)
    requires Init(s) && Reaches(s, acts, z) && AllIdle(z) && t < |z.pc| && Chain(z.head, z.next, list) && z.owned(node)
    ensures Alone(Do(z, CallAdd(t, node)), t, n, y) && y.pc == z.pc
    ensures Chain(y.head, y.next, [node] + list)
    ensures forall m :: y.owned(m) == (z.owned(m) && m != node)
  {
    var known := NothingLost(s, acts, z);
    SameChain(z.head, z.next, list, known);
    assert node !in list && z.refs(node) == 0;
    n, y := AddAlone(z, t, node);
    assert forall i | 0 <= i < |list| :: list[i] in list;
    ChainPush(z.head, y.next, list, node);
  }

  lemma AddAlone(z: State, t: Tid, node: Node) returns (n: nat, y: State)
    requires AllIdle(z) && t < |z.pc| && z.owned(node) && z.refs(node) == 0
    ensures Alone(Do(z, CallAdd(t, node)), t, n, y) && y.pc == z.pc && y.head == Some(node)
    ensures forall m :: y.next(m) == if m == node then z.head else z.next(m)
    ensures forall m :: y.owned(m) == (z.owned(m) && m != node)
  {
    var z1 := Do(z, CallAdd(t, node));
    var z2 := Exec(z1, t);
    assert z2.pc[t] == PushLoadHead(node, Return);
    var z3 := Exec(z2, t);
    var z4 := Exec(z3, t);
    var z5 := Exec(z4, t);
    assert z5.pc[t] == PushCasHead(node, z.head, Return);
    y := Exec(z5, t);
    n := 5;
    assert y.pc == z.pc;
    assert Alone(y, t, 0, y);
    AloneFrom(z5, t, 0, y);
    AloneFrom(z4, t, 1, y);
    AloneFrom(z3, t, 2, y);
    AloneFrom(z2, t, 3, y);
    AloneFrom(z1, t, 4, y);
  }

  // ---------------------------------------------------------------- null only from an empty list

  /** The thread is inside try_get. */
  predicate InGet(p: PC) {
    || p.GetLoadHead? || p.GetLoadRefs? || p.GetCasRefs? || p.GetLoadNext? || p.GetCasHead? || p.GetUnrefTwice?
    || p.GetUnref? || (Linking(p) && p.k.Resume?)
  }

  predicate Linking(p: PC) { p.PushLoadHead? || p.PushStoreNext? || p.PushStoreRefs? || p.PushCasHead? || p.PushDefer? }

  /** It has been handed an empty list by a failed swap. */
  predicate SawEmpty(p: PC) { (p.GetUnref? && p.newHead == None) || (Linking(p) && p.k == Resume(None)) }

  /** Thread t takes no node in this run. */
  ghost predicate TakesNone(s: State, acts: seq<Action>, t: Tid)
    decreases |acts|
  {
    acts == [] ||
    (Enabled(s, acts[0]) ==>
       !(acts[0] == Run(t) && s.pc[t].GetUnrefTwice?) && TakesNone(Do(s, acts[0]), acts[1..], t))
  }

  /** A getter that has not seen an empty list goes on, wins, or sees one now. */
  lemma GetterStep(s: State, t: Tid)
    requires t < |s.pc| && InGet(s.pc[t]) && !SawEmpty(s.pc[t]) && !s.pc[t].GetUnrefTwice? && s.head != None
    ensures InGet(Exec(s, t).pc[t]) && !SawEmpty(Exec(s, t).pc[t])
  {}

  /**
   Main theorem, for every interleaving: a try_get that ends without a node met a moment, during the
   call, at which the list was empty.
   */
  lemma {:induction false} NullOnlyIfEmpty(s: State, acts: seq<Action>, z: State, t: Tid)
    returns (before: seq<Action>, y: State, after: seq<Action>)
    requires Reaches(s, acts, z) && t < |s.pc| && InGet(s.pc[t]) && !SawEmpty(s.pc[t])
    requires t < |z.pc| && z.pc[t].Idle? && TakesNone(s, acts, t)
    ensures acts == before + after && Reaches(s, before, y) && Reaches(y, after, z) && y.head == None
    decreases |acts|
  {
    if s.head == None {
      before, y, after := [], s, acts;
    } else {
      var act, m := acts[0], Do(s, acts[0]);
      if act == Run(t) { GetterStep(s, t); }
      var rest;
      rest, y, after := NullOnlyIfEmpty(m, acts[1..], z, t);
      before := [act] + rest;
      assert before[1..] == rest && acts == [act] + acts[1..];
    }
  }
}
