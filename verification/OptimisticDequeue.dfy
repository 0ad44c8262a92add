/**
 The optimistic-count / overcommit protocol by which any number of consumers
 claim indices of one explicit producer.

 The four shared counters and every local are kept as mathematical integers; the
 code only ever sees them modulo 2^64, and every comparison below is made on the
 reduced words, with circular_less_than.  Each atomic load or read-modify-write
 is one sequentially consistent step.  `dequeue` is the machine with max == 1.
 */
module OptimisticDequeue {
  import opened Words

  type Tid = nat

  function Min(a: nat, b: nat): nat { if a < b then a else b }

  /** A consumer's next atomic operation and its locals; `id` numbers its fetch_add, for the proof only. */
  datatype Consumer =
    | Idle
    | LoadOver(max: nat, tail: nat)
    | LoadCount(max: nat, tail: nat, over: nat)
    | FetchCount(desired: nat, over: nat)
    | LoadTail(desired: nat, over: nat, mine: nat, id: nat)
    | GiveBack(excess: nat, actual: nat, id: nat)      // dequeueOvercommit.fetch_add(excess)
    | FetchHead(actual: nat, id: nat)

  /** One fetch_add on dequeueOptimisticCount: what it asked for, what was decided, and what has been applied. */
  datatype Ticket = Ticket(start: nat, over: nat, want: nat, claim: nat, gave: nat, took: nat)

  /** A block of indices handed to one consumer by its fetch_add on headIndex. */
  datatype Claim = Claim(who: Tid, first: nat, count: nat)

  datatype State = State(
    tail: nat,                 // tailIndex
    head: nat,                 // headIndex
    count: nat,                // dequeueOptimisticCount
    over: nat,                 // dequeueOvercommit
    pc: seq<Consumer>,
    log: seq<Ticket>,          // history, read by no step
    claims: seq<Claim>)        // history, read by no step

  /** The count a consumer may take, given the tail it sees: the code's `tail - (count - overcommit)`, on words. */
  function Available(tail: nat, count: nat, over: nat): nat { Reduce(tail - (count - over)) }

  function Decide(desired: nat, available: nat): nat {
    if CircularLess(0, available) then Min(desired, available) else 0
  }

  function Exec(s: State, t: Tid): State
    requires t < |s.pc|
    requires HasTicket(s.pc[t]) ==> s.pc[t].id < |s.log|
  {
    match s.pc[t]
    case Idle => s
    case LoadOver(max, tail) =>
      s.(pc := s.pc[t := LoadCount(max, tail, s.over)])
    case LoadCount(max, tail, over) =>
      var available := Available(tail, s.count, over);
      s.(pc := s.pc[t := if CircularLess(0, available) then FetchCount(Min(available, max), over) else Idle])
    case FetchCount(desired, over) =>
      s.(count := s.count + desired,
         log := s.log + [Ticket(s.count, over, desired, 0, 0, 0)],
         pc := s.pc[t := LoadTail(desired, over, s.count, |s.log|)])
    case LoadTail(desired, over, mine, id) =>
      var actual := Decide(desired, Available(s.tail, mine, over));
      s.(log := s.log[id := s.log[id].(claim := actual)],
         pc := s.pc[t := if actual == 0 || actual < desired then GiveBack(desired - actual, actual, id)
                         else FetchHead(actual, id)])
    case GiveBack(excess, actual, id) =>
      s.(over := s.over + excess,
         log := s.log[id := s.log[id].(gave := excess)],
         pc := s.pc[t := if actual > 0 then FetchHead(actual, id) else Idle])
    case FetchHead(actual, id) =>
      s.(head := s.head + actual,
         log := s.log[id := s.log[id].(took := actual)],
         claims := s.claims + [Claim(t, s.head, actual)],
         pc := s.pc[t := Idle])
  }

  predicate HasTicket(p: Consumer) { p.LoadTail? || p.GiveBack? || p.FetchHead? }

  /** The producer publishes k more elements, an idle consumer loads the tail, or a consumer runs its next operation. */
  datatype Action = Enqueue(k: nat) | Call(t: Tid, max: nat) | Run(t: Tid)

  predicate Enabled(s: State, act: Action) {
    match act
    case Enqueue(_) => true
    case Call(t, _) => t < |s.pc| && s.pc[t].Idle?
    case Run(t) => t < |s.pc| && !s.pc[t].Idle? && (HasTicket(s.pc[t]) ==> s.pc[t].id < |s.log|)
  }

  function Do(s: State, act: Action): State
    requires Enabled(s, act)
  {
    match act
    case Enqueue(k) => s.(tail := s.tail + k)
    case Call(t, max) => s.(pc := s.pc[t := LoadOver(max, s.tail)])
    case Run(t) => Exec(s, t)
  }

  predicate Init(s: State) {
    && s.tail == s.head == s.count == s.over == 0 && s.log == [] && s.claims == []
    && forall t | 0 <= t < |s.pc| :: s.pc[t].Idle?
  }

  ghost predicate Reaches(s: State, acts: seq<Action>, z: State)
    decreases |acts|
  {
    if acts == [] then s == z
    else Enabled(s, acts[0]) && Reaches(Do(s, acts[0]), acts[1..], z)
  }

  // ---------------------------------------------------------------- when the word comparison misleads

  /** The consumer about to decide is so far past the tail that the 64-bit difference looks negative. */
  predicate Lagged(tail: nat, mine: nat, over: nat) {
    mine - over >= tail && Reduce(mine - over - tail) > HALF
  }

  predicate Misleads(s: State, act: Action) {
    act.Run? && act.t < |s.pc| && s.pc[act.t].LoadTail? && Lagged(s.tail, s.pc[act.t].mine, s.pc[act.t].over)
  }

  /** No decision of the run is misled. */
  ghost predicate Clean(s: State, acts: seq<Action>)
    decreases |acts|
  {
    acts == [] || (!Misleads(s, acts[0]) && (Enabled(s, acts[0]) ==> Clean(Do(s, acts[0]), acts[1..])))
  }

  /**
   A decision takes more than the integer formula tail - (count - overcommit) allows exactly when it
   is misled. A stale overcommit only makes the formula allow less.
   */
  lemma DecisionExact(desired: nat, tail: nat, mine: nat, over: nat)
    requires desired > 0
    ensures (Decide(desired, Available(tail, mine, over)) > 0
            && Decide(desired, Available(tail, mine, over)) > tail - (mine - over))
            <==> Lagged(tail, mine, over)
  {
    var left := tail - (mine - over);
    NegateReduced(left);
    if left > 0 {
      ReduceLe(left);
    }
  }

  lemma ReduceLe(x: nat)
    ensures Reduce(x) <= x
  {}

  lemma NegateReduced(x: int)
    ensures Reduce(0 - (Reduce(x) as int)) == Reduce(-x)
  {
    ReduceMinus(0, x);
  }

  // ---------------------------------------------------------------- sums over tickets

  datatype Part = Want | Claimed | Gave | Took

  function Get(t: Ticket, p: Part): nat {
    match p case Want => t.want case Claimed => t.claim case Gave => t.gave case Took => t.took
  }

  function Sum(p: Part, log: seq<Ticket>): nat {
    if log == [] then 0 else Sum(p, log[..|log| - 1]) + Get(log[|log| - 1], p)
  }

  lemma {:induction false} SumUpdate(p: Part, log: seq<Ticket>, i: nat, t: Ticket)
    requires i < |log|
    ensures Sum(p, log[i := t]) == Sum(p, log) - Get(log[i], p) + Get(t, p)
  {
    var n := |log| - 1;
    if i == n {
      assert log[i := t][..n] == log[..n];
    } else {
      assert log[i := t][..n] == log[..n][i := t];
      SumUpdate(p, log[..n], i, t);
    }
  }

  lemma {:induction false} SumMono(p: Part, a: seq<Ticket>, b: seq<Ticket>)
    requires |a| == |b| && forall i | 0 <= i < |a| :: Get(a[i], p) <= Get(b[i], p)
    ensures Sum(p, a) <= Sum(p, b)
  {
    if a != [] { SumMono(p, a[..|a| - 1], b[..|b| - 1]); }
  }

  // ---------------------------------------------------------------- the invariant

  /**
   Ticket i starts where the earlier ones end, read an overcommit they had already given back, and
   claimed only what its tail allowed.
   */
  ghost predicate TicketOk(log: seq<Ticket>, tail: nat, i: nat) {
    i < |log| ==>
      var k := log[i];
      && k.start == Sum(Want, log[..i])
      && k.over <= Sum(Gave, log[..i])
      && k.gave + k.claim <= k.want
      && k.took <= k.claim
      && (k.claim > 0 ==> k.start - k.over + k.claim <= tail)
  }

  ghost predicate ConsumerOk(s: State, t: nat) {
    t < |s.pc| ==>
      match s.pc[t]
      case LoadCount(_, _, over) => over <= s.over
      case FetchCount(_, over) => over <= s.over
      case LoadTail(desired, over, mine, id) => id < |s.log| && s.log[id] == Ticket(mine, over, desired, 0, 0, 0)
      case GiveBack(excess, actual, id) =>
        && id < |s.log| && s.log[id].claim == actual && s.log[id].want == actual + excess
        && s.log[id].gave == s.log[id].took == 0
      case FetchHead(actual, id) =>
        id < |s.log| && s.log[id].claim == actual && s.log[id].took == 0 && s.log[id].gave + actual == s.log[id].want
      case _ => true
  }

  ghost predicate Apart(pc: seq<Consumer>, t: nat, u: nat) {
    t < |pc| && u < |pc| && t != u && HasTicket(pc[t]) && HasTicket(pc[u]) ==> pc[t].id != pc[u].id
  }

  /** The claims lie end to end from zero to the head. */
  ghost predicate Tiled(claims: seq<Claim>, head: nat) {
    if claims == [] then head == 0
    else
      var c := claims[|claims| - 1];
      c.first + c.count == head && Tiled(claims[..|claims| - 1], c.first)
  }

  ghost predicate Inv(s: State) {
    && s.count == Sum(Want, s.log)
    && s.over == Sum(Gave, s.log)
    && s.head == Sum(Took, s.log)
    && Tiled(s.claims, s.head)
    && (forall i: nat {:trigger TicketOk(s.log, s.tail, i)} :: TicketOk(s.log, s.tail, i))
    && (forall t: nat {:trigger ConsumerOk(s, t)} :: ConsumerOk(s, t))
    && (forall t: nat, u: nat {:trigger Apart(s.pc, t, u)} :: Apart(s.pc, t, u))
  }

  /** The claims of the first k tickets fit in what they asked for less what they gave back. */
  lemma {:induction false} ClaimsFit(log: seq<Ticket>, tail: nat, k: nat)
    requires k <= |log| && forall i: nat {:trigger TicketOk(log, tail, i)} :: TicketOk(log, tail, i)
    ensures Sum(Claimed, log[..k]) + Sum(Gave, log[..k]) <= Sum(Want, log[..k])
    ensures Sum(Took, log[..k]) <= Sum(Claimed, log[..k])
  {
    if k > 0 {
      ClaimsFit(log, tail, k - 1);
      assert TicketOk(log, tail, k - 1);
      assert log[..k][..k - 1] == log[..k - 1];
    }
  }

  /** The latest claimer's test bounds all claims: together they never exceed the tail. */
  lemma {:induction false} ClaimsBelowTail(log: seq<Ticket>, tail: nat, k: nat)
    requires k <= |log| && forall i: nat {:trigger TicketOk(log, tail, i)} :: TicketOk(log, tail, i)
    ensures Sum(Claimed, log[..k]) <= tail
  {
    if k > 0 {
      assert TicketOk(log, tail, k - 1);
      assert log[..k][..k - 1] == log[..k - 1];
      if log[k - 1].claim == 0 {
        ClaimsBelowTail(log, tail, k - 1);
      } else {
        ClaimsFit(log, tail, k - 1);
      }
    }
  }

  lemma HeadBelowTail(s: State)
    requires Inv(s)
    ensures s.head <= s.tail
  {
    ClaimsBelowTail(s.log, s.tail, |s.log|);
    ClaimsFit(s.log, s.tail, |s.log|);
    assert s.log[..|s.log|] == s.log;
  }

  /** Changing what ticket i has decided or applied, upwards, keeps every other ticket. */
  lemma TicketsKept(log: seq<Ticket>, tail: nat, i: nat, k: Ticket)
    requires i < |log| && forall j: nat {:trigger TicketOk(log, tail, j)} :: TicketOk(log, tail, j)
    requires k.start == log[i].start && k.over == log[i].over && k.want == log[i].want && k.gave >= log[i].gave
    requires k.gave + k.claim <= k.want && k.took <= k.claim
    requires k.claim > 0 ==> k.start - k.over + k.claim <= tail
    ensures forall j: nat {:trigger TicketOk(log[i := k], tail, j)} :: TicketOk(log[i := k], tail, j)
  {
    var log' := log[i := k];
    forall j: nat ensures TicketOk(log', tail, j) {
      assert TicketOk(log, tail, j);
      if j < |log| {
        SumMono(Want, log[..j], log'[..j]);
        SumMono(Want, log'[..j], log[..j]);
        SumMono(Gave, log[..j], log'[..j]);
      }
    }
  }

  lemma OthersKept(s: State, s': State, t: Tid)
    requires Inv(s) && t < |s.pc| == |s'.pc| && s'.pc == s.pc[t := s'.pc[t]]
    requires HasTicket(s'.pc[t]) ==> HasTicket(s.pc[t]) && s.pc[t].id == s'.pc[t].id
    requires |s'.log| == |s.log| && s'.over >= s.over
    requires forall i | 0 <= i < |s.log| :: s'.log[i] == s.log[i] || (HasTicket(s.pc[t]) && i == s.pc[t].id)
    requires ConsumerOk(s', t)
    ensures forall u: nat {:trigger ConsumerOk(s', u)} :: ConsumerOk(s', u)
    ensures forall u: nat, v: nat {:trigger Apart(s'.pc, u, v)} :: Apart(s'.pc, u, v)
  {
    forall u: nat ensures ConsumerOk(s', u) {
      assert ConsumerOk(s, u) && Apart(s.pc, t, u);
    }
    forall u: nat, v: nat ensures Apart(s'.pc, u, v) {
      assert Apart(s.pc, u, v);
    }
  }

  // ---------------------------------------------------------------- each operation keeps it

  lemma StepFetchCount(s: State, t: Tid)
    requires Inv(s) && t < |s.pc| && s.pc[t].FetchCount?
    ensures Inv(Exec(s, t))
  {
    var s' := Exec(s, t);
    assert ConsumerOk(s, t);
    assert s'.log[..|s.log|] == s.log;
    forall i: nat ensures TicketOk(s'.log, s.tail, i) {
      assert TicketOk(s.log, s.tail, i);
      if i < |s.log| { assert s'.log[..i] == s.log[..i]; }
    }
    forall u: nat ensures ConsumerOk(s', u) { assert ConsumerOk(s, u); }
    forall u: nat, v: nat ensures Apart(s'.pc, u, v) {
      assert Apart(s.pc, u, v) && ConsumerOk(s, u) && ConsumerOk(s, v);
    }
  }

  lemma StepLoadTail(s: State, t: Tid)
    requires Inv(s) && t < |s.pc| && s.pc[t].LoadTail? && !Lagged(s.tail, s.pc[t].mine, s.pc[t].over)
    ensures s.pc[t].id < |s.log| && Inv(Exec(s, t))
  {
    assert ConsumerOk(s, t);
    var p, s' := s.pc[t], Exec(s, t);
    var actual := s'.log[p.id].claim;
    if p.desired > 0 { DecisionExact(p.desired, s.tail, p.mine, p.over); }
    assert actual <= p.desired;
    assert TicketOk(s.log, s.tail, p.id);
    TicketsKept(s.log, s.tail, p.id, s'.log[p.id]);
    SumUpdate(Want, s.log, p.id, s'.log[p.id]);
    SumUpdate(Gave, s.log, p.id, s'.log[p.id]);
    SumUpdate(Took, s.log, p.id, s'.log[p.id]);
    OthersKept(s, s', t);
  }

  lemma StepGiveBack(s: State, t: Tid)
    requires Inv(s) && t < |s.pc| && s.pc[t].GiveBack?
    ensures s.pc[t].id < |s.log| && Inv(Exec(s, t))
  {
    assert ConsumerOk(s, t);
    var id, s' := s.pc[t].id, Exec(s, t);
    assert TicketOk(s.log, s.tail, id);
    TicketsKept(s.log, s.tail, id, s'.log[id]);
    SumUpdate(Want, s.log, id, s'.log[id]);
    SumUpdate(Gave, s.log, id, s'.log[id]);
    SumUpdate(Took, s.log, id, s'.log[id]);
    OthersKept(s, s', t);
  }

  lemma TileMore(claims: seq<Claim>, head: nat, c: Claim)
    requires Tiled(claims, head) && c.first == head
    ensures Tiled(claims + [c], head + c.count)
  {
    assert (claims + [c])[..|claims|] == claims;
  }

  lemma StepFetchHead(s: State, t: Tid)
    requires Inv(s) && t < |s.pc| && s.pc[t].FetchHead?
    ensures s.pc[t].id < |s.log| && Inv(Exec(s, t))
  {
    assert ConsumerOk(s, t);
    var id, s' := s.pc[t].id, Exec(s, t);
    assert TicketOk(s.log, s.tail, id);
    TicketsKept(s.log, s.tail, id, s'.log[id]);
    SumUpdate(Want, s.log, id, s'.log[id]);
    SumUpdate(Gave, s.log, id, s'.log[id]);
    SumUpdate(Took, s.log, id, s'.log[id]);
    TileMore(s.claims, s.head, Claim(t, s.head, s.pc[t].actual));
    OthersKept(s, s', t);
  }

  lemma StepDo(s: State, act: Action)
    requires Inv(s) && Enabled(s, act) && !Misleads(s, act)
    ensures Inv(Do(s, act))
  {
    match act
    case Enqueue(k) =>
      var s' := Do(s, act);
      forall i: nat ensures TicketOk(s'.log, s'.tail, i) { assert TicketOk(s.log, s.tail, i); }
      forall t: nat ensures ConsumerOk(s', t) { assert ConsumerOk(s, t); }
    case Call(t, max) =>
      OthersKept(s, Do(s, act), t);
    case Run(t) =>
      match s.pc[t]
      case Idle =>
      case FetchCount(_, _) => StepFetchCount(s, t);
      case LoadTail(_, _, _, _) => StepLoadTail(s, t);
      case GiveBack(_, _, _) => StepGiveBack(s, t);
      case FetchHead(_, _) => StepFetchHead(s, t);
      case LoadOver(_, _) => OthersKept(s, Do(s, act), t);
      case LoadCount(_, _, _) =>
        assert ConsumerOk(s, t);
        OthersKept(s, Do(s, act), t);
  }

  lemma {:induction false} RunKeepsInv(s: State, acts: seq<Action>, z: State)
    requires Inv(s) && Reaches(s, acts, z) && Clean(s, acts)
    ensures Inv(z)
    decreases |acts|
  {
    if acts != [] {
      StepDo(s, acts[0]);
      RunKeepsInv(Do(s, acts[0]), acts[1..], z);
    }
  }

  // ---------------------------------------------------------------- results

  /** Claim number k holds index i. */
  predicate Holds(claims: seq<Claim>, k: nat, i: nat) {
    k < |claims| && claims[k].first <= i < claims[k].first + claims[k].count
  }

  ghost predicate ClaimedOnce(claims: seq<Claim>, i: nat) {
    exists k: nat :: Holds(claims, k, i) && forall j: nat | Holds(claims, j, i) :: j == k
  }

  lemma {:induction false} TiledBelow(claims: seq<Claim>, head: nat, k: nat)
    requires Tiled(claims, head) && k < |claims|
    ensures claims[k].first + claims[k].count <= head
  {
    var n := |claims| - 1;
    if k < n { TiledBelow(claims[..n], claims[n].first, k); }
  }

  lemma {:induction false} TiledOnce(claims: seq<Claim>, head: nat, i: nat)
    requires Tiled(claims, head) && i < head
    ensures ClaimedOnce(claims, i)
  {
    var n := |claims| - 1;
    var rest, c := claims[..n], claims[n];
    if c.first <= i {
      forall j: nat | Holds(claims, j, i) ensures j == n {
        if j < n { TiledBelow(rest, c.first, j); }
      }
      assert Holds(claims, n, i);
    } else {
      TiledOnce(rest, c.first, i);
      var k: nat :| Holds(rest, k, i) && forall j: nat | Holds(rest, j, i) :: j == k;
      assert Holds(claims, k, i);
      forall j: nat | Holds(claims, j, i) ensures j == k {
        assert j < n && Holds(rest, j, i);
      }
    }
  }

  /**
   Main theorem: on every run none of whose decisions is misled, the head never
   passes the tail, and every index below the head belongs to exactly one claim.
   */
  lemma ClaimedOnceAfterEnqueue(s: State, acts: seq<Action>, z: State)
    requires Init(s) && Reaches(s, acts, z) && Clean(s, acts)
    ensures z.head <= z.tail
    ensures forall i: nat | i < z.head :: ClaimedOnce(z.claims, i)
    ensures forall k | 0 <= k < |z.claims| :: z.claims[k].first + z.claims[k].count <= z.tail
  {
    forall t: nat ensures ConsumerOk(s, t) {}
    RunKeepsInv(s, acts, z);
    HeadBelowTail(z);
    forall i: nat | i < z.head ensures ClaimedOnce(z.claims, i) { TiledOnce(z.claims, z.head, i); }
    forall k | 0 <= k < |z.claims|
      ensures z.claims[k].first + z.claims[k].count <= z.tail
    {
      TiledBelow(z.claims, z.head, k);
    }
  }

  /** Fewer than 2^63 attempts in all cannot mislead a decision. */
  lemma FewAttemptsClean(s: State, t: Tid)
    requires Inv(s) && t < |s.pc| && s.count <= HALF
    ensures !Misleads(s, Run(t))
  {
    if s.pc[t].LoadTail? {
      assert ConsumerOk(s, t);
      var id := s.pc[t].id;
      assert TicketOk(s.log, s.tail, id);
      SumPrefix(Want, s.log, id);
    }
  }

  /** A run that ends with at most 2^63 attempts in all has no misled decision. */
  lemma {:induction false} FewAttemptsRun(s: State, acts: seq<Action>, z: State)
    requires Inv(s) && Reaches(s, acts, z) && z.count <= HALF
    ensures Clean(s, acts) && s.count <= z.count
    decreases |acts|
  {
    if acts != [] {
      var act := acts[0];
      var s' := Do(s, act);
      if Misleads(s, act) {
        LateCount(s', acts[1..], z);
        FewAttemptsClean(s, act.t);
      } else {
        StepDo(s, act);
        FewAttemptsRun(s', acts[1..], z);
      }
    }
  }

  lemma {:induction false} LateCount(s: State, acts: seq<Action>, z: State)
    requires Reaches(s, acts, z)
    ensures s.count <= z.count
    decreases |acts|
  {
    if acts != [] { LateCount(Do(s, acts[0]), acts[1..], z); }
  }

  /** With at most 2^63 attempts in all the result is unconditional. */
  lemma SafeWithFewAttempts(s: State, acts: seq<Action>, z: State)
    requires Init(s) && Reaches(s, acts, z) && z.count <= HALF
    ensures z.head <= z.tail
    ensures forall i: nat | i < z.head :: ClaimedOnce(z.claims, i)
  {
    forall t: nat ensures ConsumerOk(s, t) {}
    FewAttemptsRun(s, acts, z);
    ClaimedOnceAfterEnqueue(s, acts, z);
  }

  // ---------------------------------------------------------------- what a call gets

  /** Some consumer still has this ticket. */
  ghost predicate Held(pc: seq<Consumer>, i: nat) { exists t :: 0 <= t < |pc| && HasTicket(pc[t]) && pc[t].id == i }

  /** A ticket nobody has is settled: all it asked for was taken or given back. */
  ghost predicate Settled(s: State, i: nat) {
    i < |s.log| ==> Held(s.pc, i) || s.log[i].gave + s.log[i].took == s.log[i].want
  }

  ghost predicate AllSettled(s: State) { forall i: nat {:trigger Settled(s, i)} :: Settled(s, i) }

  /** A step of consumer t that keeps its ticket, or settles it, and leaves the other tickets. */
  lemma TicketsSettled(s: State, s': State, t: Tid)
    requires AllSettled(s) && t < |s.pc| == |s'.pc| && s'.pc == s.pc[t := s'.pc[t]] && |s'.log| == |s.log|
    requires forall i | 0 <= i < |s.log| :: s'.log[i] == s.log[i] || (HasTicket(s.pc[t]) && i == s.pc[t].id)
    requires HasTicket(s.pc[t]) ==>
               || (HasTicket(s'.pc[t]) && s'.pc[t].id == s.pc[t].id)
               || (s.pc[t].id < |s.log| &&
                   s'.log[s.pc[t].id].gave + s'.log[s.pc[t].id].took == s'.log[s.pc[t].id].want)
    ensures AllSettled(s')
  {
    forall i: nat ensures Settled(s', i) {
      assert Settled(s, i);
      if i < |s.log| && Held(s.pc, i) {
        var u :| 0 <= u < |s.pc| && HasTicket(s.pc[u]) && s.pc[u].id == i;
        assert u != t ==> s'.pc[u] == s.pc[u];
        if u == t && HasTicket(s'.pc[t]) && s'.pc[t].id == i { assert Held(s'.pc, i); }
      }
    }
  }

  lemma StepSettles(s: State, act: Action)
    requires Inv(s) && AllSettled(s) && Enabled(s, act)
    ensures AllSettled(Do(s, act))
  {
    var s' := Do(s, act);
    if act.Enqueue? {
      forall i: nat ensures Settled(s', i) { assert Settled(s, i); }
    } else {
      assert ConsumerOk(s, act.t);
      if act.Run? && s.pc[act.t].FetchCount? {
        TicketAdded(s, act.t);
      } else {
        TicketsSettled(s, s', act.t);
      }
    }
  }

  lemma TicketAdded(s: State, t: Tid)
    requires AllSettled(s) && t < |s.pc| && s.pc[t].FetchCount?
    ensures AllSettled(Exec(s, t))
  {
    var s' := Exec(s, t);
    forall i: nat ensures Settled(s', i) {
      assert Settled(s, i);
      if i == |s.log| { assert HasTicket(s'.pc[t]) && s'.pc[t].id == i; }
      if i < |s.log| && Held(s.pc, i) {
        var u :| 0 <= u < |s.pc| && HasTicket(s.pc[u]) && s.pc[u].id == i;
        assert s'.pc[u] == s.pc[u];
      }
    }
  }

  lemma {:induction false} RunSettles(s: State, acts: seq<Action>, z: State)
    requires Inv(s) && AllSettled(s) && Reaches(s, acts, z) && Clean(s, acts)
    ensures AllSettled(z)
    decreases |acts|
  {
    if acts != [] {
      StepDo(s, acts[0]);
      StepSettles(s, acts[0]);
      RunSettles(Do(s, acts[0]), acts[1..], z);
    }
  }

  lemma {:induction false} SettledSum(log: seq<Ticket>)
    requires forall i | 0 <= i < |log| :: log[i].gave + log[i].took == log[i].want
    ensures Sum(Gave, log) + Sum(Took, log) == Sum(Want, log)
  {
    if log != [] { SettledSum(log[..|log| - 1]); }
  }

  /** With nobody mid-call the counters say exactly how much is in the queue. */
  lemma CountersExact(s: State)
    requires Inv(s) && AllSettled(s) && forall t | 0 <= t < |s.pc| :: s.pc[t].Idle?
    ensures s.count == s.over + s.head && s.head <= s.tail
  {
    HeadBelowTail(s);
    forall i | 0 <= i < |s.log| ensures s.log[i].gave + s.log[i].took == s.log[i].want { assert Settled(s, i); }
    SettledSum(s.log);
  }

  /** The word test for something being there: the difference is positive and below half the words. */
  lemma TestExact(left: int)
    ensures CircularLess(0, Reduce(left)) <==> 0 < Reduce(left) < HALF
    ensures 0 - HALF <= left < HALF ==> (CircularLess(0, Reduce(left)) <==> left > 0)
    ensures 0 <= left < HALF ==> Reduce(left) == left
  {
    NegateReduced(left);
    var w := Reduce(left);
    if w == 0 { assert Reduce(0 - (w as int)) == 0; } else { ModUnique(0 - (w as int), -1, WORD - w, WORD); }
    if 0 <= left < HALF { ModUnique(left, 0, left, WORD); }
    if 0 - HALF <= left < 0 { ModUnique(left, -1, left + WORD, WORD); }
  }

  /**
   The first test sends a call home empty-handed exactly when the tail it read is not above the count
   less the overcommit it read.
   */
  lemma FirstTestExact(s: State, t: Tid)
    requires t < |s.pc| && s.pc[t].LoadCount?
    requires 0 - HALF <= s.pc[t].tail - (s.count - s.pc[t].over) < HALF
    ensures var p, left := s.pc[t], s.pc[t].tail - (s.count - s.pc[t].over);
            Exec(s, t).pc[t] == if left <= 0 then Idle else FetchCount(Min(left, p.max), p.over)
  {
    TestExact(s.pc[t].tail - (s.count - s.pc[t].over));
  }

  /** The second test claims all that the counters allow and no more. */
  lemma SecondTestExact(s: State, t: Tid)
    requires t < |s.pc| && s.pc[t].LoadTail? && s.pc[t].id < |s.log|
    requires 0 - HALF <= s.tail - (s.pc[t].mine - s.pc[t].over) < HALF
    ensures var p, left := s.pc[t], s.tail - (s.pc[t].mine - s.pc[t].over);
            var claim := if left <= 0 then 0 else Min(p.desired, left);
            Exec(s, t).pc[t] == if claim > 0 && claim == p.desired then FetchHead(claim, p.id)
                                else GiveBack(p.desired - claim, claim, p.id)
  {
    TestExact(s.tail - (s.pc[t].mine - s.pc[t].over));
  }

  /** A call that has not yet been refused what it wants. */
  predicate Eager(p: Consumer) {
    match p
    case Idle => false
    case LoadOver(max, _) => max > 0
    case LoadCount(max, _, _) => max > 0
    case FetchCount(desired, _) => desired > 0
    case LoadTail(desired, _, _, _) => desired > 0
    case GiveBack(_, actual, _) => actual > 0
    case FetchHead(_, _) => true
  }

  /** The consumer is at a test, and the counters say that nothing is left for it. */
  predicate NothingLeft(s: State, t: Tid)
    requires t < |s.pc|
  {
    match s.pc[t]
    case LoadCount(_, tail, over) => !CircularLess(0, Available(tail, s.count, over))
    case LoadTail(_, over, mine, _) => !CircularLess(0, Available(s.tail, mine, over))
    case _ => false
  }

  /** No step of the run is a claim of t. */
  ghost predicate ClaimsNone(s: State, acts: seq<Action>, t: Tid)
    requires t < |s.pc|
    decreases |acts|
  {
    acts != [] && Enabled(s, acts[0]) ==>
      !(acts[0] == Run(t) && s.pc[t].FetchHead?) && ClaimsNone(Do(s, acts[0]), acts[1..], t)
  }

  lemma EagerStep(s: State, t: Tid)
    requires Enabled(s, Run(t)) && Eager(s.pc[t]) && !s.pc[t].FetchHead? && !NothingLeft(s, t)
    ensures Eager(Exec(s, t).pc[t])
  {
    match s.pc[t]
    case LoadCount(_, tail, over) => TestExact(tail - (s.count - over));
    case LoadTail(_, over, mine, _) => TestExact(s.tail - (mine - over));
    case _ =>
  }

  /**
   Main theorem, for every interleaving: a call for at least one element that ends without a claim
   came to a test at which the tail, less what was counted and not given back, left nothing.
   */
  lemma {:induction false} EmptyOnlyIfNothingLeft(s: State, acts: seq<Action>, z: State, t: Tid)
    returns (before: seq<Action>, y: State, after: seq<Action>)
    requires Reaches(s, acts, z) && t < |s.pc| && Eager(s.pc[t])
    requires t < |z.pc| && z.pc[t].Idle? && ClaimsNone(s, acts, t)
    ensures acts == before + [Run(t)] + after && Reaches(s, before, y) && t < |y.pc| && NothingLeft(y, t)
    ensures Enabled(y, Run(t)) && Reaches(Exec(y, t), after, z)
    decreases |acts|
  {
    if acts[0] == Run(t) && NothingLeft(s, t) {
      before, y, after := [], s, acts[1..];
    } else {
      if acts[0] == Run(t) { EagerStep(s, t); }
      var rest;
      rest, y, after := EmptyOnlyIfNothingLeft(Do(s, acts[0]), acts[1..], z, t);
      before := [acts[0]] + rest;
      assert before[1..] == rest;
    }
    assert acts == [acts[0]] + acts[1..];
  }

  predicate Steps(s: State, t: Tid) { Enabled(s, Run(t)) && !Misleads(s, Run(t)) }

  /** n more steps of consumer t alone, none of them misled. */
  ghost predicate Alone(s: State, t: Tid, n: nat, z: State)
    decreases n
  {
    if n == 0 then s == z
    else Steps(s, t) && Alone(Exec(s, t), t, n - 1, z)
  }

  /**
   Main theorem: from any state reached by a clean run in which nobody is mid-call and fewer than
   2^63 elements are queued, a call run to its end gets what it asks for or all there is, as one
   claim from the head on.
   */
  lemma CallGets(s: State, acts: seq<Action>, z: State, t: Tid, max: nat) returns (n: nat, y: State)
    requires Init(s) && Reaches(s, acts, z) && Clean(s, acts)
    requires (forall u | 0 <= u < |z.pc| :: z.pc[u].Idle?) && t < |z.pc| && z.tail - z.head < HALF
    ensures Alone(Do(z, Call(t, max)), t, n, y)
    ensures z.head <= z.tail && y.pc == z.pc && y.tail == z.tail
    ensures var got := Min(max, z.tail - z.head);
            && y.head == z.head + got
            && y.claims == if got > 0 then z.claims + [Claim(t, z.head, got)] else z.claims
  {
    forall u: nat ensures ConsumerOk(s, u) {}
    RunKeepsInv(s, acts, z);
    RunSettles(s, acts, z);
    CountersExact(z);
    n, y := CallAlone(z, t, max);
  }

  lemma CallAlone(z: State, t: Tid, max: nat) returns (n: nat, y: State)
    requires t < |z.pc| && z.pc[t].Idle? && z.head <= z.tail < z.head + HALF && z.count == z.over + z.head
    ensures Alone(Do(z, Call(t, max)), t, n, y)
    ensures y.pc == z.pc && y.tail == z.tail
    ensures var got := Min(max, z.tail - z.head);
            && y.head == z.head + got
            && y.claims == if got > 0 then z.claims + [Claim(t, z.head, got)] else z.claims
  {
    var left := z.tail - z.head;
    TestExact(left);
    var z1 := Do(z, Call(t, max));
    var z2 := Exec(z1, t);
    var z3 := Exec(z2, t);
    if left == 0 {
      n, y := 2, z3;
    } else {
      var z4 := Exec(z3, t);
      var z5 := Exec(z4, t);
      assert z4.pc[t] == LoadTail(Min(left, max), z.over, z.count, |z.log|);
      var z6 := Exec(z5, t);
      n, y := 5, z6;
      AloneFive(z1, z2, z3, z4, z5, z6, t);
    }
  }

  lemma AloneFive(a: State, b: State, c: State, d: State, e: State, f: State, t: Tid)
    requires Steps(a, t) && b == Exec(a, t)
    requires Steps(b, t) && c == Exec(b, t)
    requires Steps(c, t) && d == Exec(c, t)
    requires Steps(d, t) && e == Exec(d, t)
    requires Steps(e, t) && f == Exec(e, t)
    ensures Alone(a, t, 5, f)
  {
    assert Alone(f, t, 0, f);
    assert Alone(e, t, 1, f);
    assert Alone(d, t, 2, f);
    assert Alone(c, t, 3, f);
    assert Alone(b, t, 4, f);
  }

  // ---------------------------------------------------------------- a misled run

  /** The run reaches z and there is never more than one element in the queue. */
  ghost predicate Briefly(s: State, acts: seq<Action>, z: State)
    decreases |acts|
  {
    s.tail <= s.head + 1 && if acts == [] then s == z else Enabled(s, acts[0]) && Briefly(Do(s, acts[0]), acts[1..], z)
  }

  lemma {:induction false} BrieflyReaches(s: State, acts: seq<Action>, z: State)
    requires Briefly(s, acts, z)
    ensures Reaches(s, acts, z)
    decreases |acts|
  {
    if acts != [] { BrieflyReaches(Do(s, acts[0]), acts[1..], z); }
  }

  lemma {:induction false} OneMore(s: State, acts: seq<Action>, z: State, act: Action)
    requires Briefly(s, acts, z) && Enabled(z, act) && Do(z, act).tail <= Do(z, act).head + 1
    ensures Briefly(s, acts + [act], Do(z, act))
    decreases |acts|
  {
    if acts == [] {
      assert ([act])[1..] == [];
    } else {
      assert (acts + [act])[1..] == acts[1..] + [act];
      OneMore(Do(s, acts[0]), acts[1..], z, act);
    }
  }

  lemma Go(s: State, acts: seq<Action>, m: State, act: Action) returns (acts': seq<Action>, z: State)
    requires Briefly(s, acts, m) && Enabled(m, act) && Do(m, act).tail <= Do(m, act).head + 1
    ensures Briefly(s, acts', z) && z == Do(m, act)
  {
    OneMore(s, acts, m, act);
    acts', z := acts + [act], Do(m, act);
  }

  /** An idle consumer finds one element and reaches its fetch_add. */
  lemma Attempt(s: State, acts: seq<Action>, m: State, t: Tid) returns (acts': seq<Action>, z: State)
    requires Briefly(s, acts, m) && t < |m.pc| && m.pc[t].Idle? && m.tail <= m.head + 1
    requires m.tail - (m.count - m.over) == 1
    ensures Briefly(s, acts', z) && z == m.(pc := m.pc[t := FetchCount(1, m.over)])
  {
    acts', z := Go(s, acts, m, Call(t, 1));
    acts', z := Go(s, acts', z, Run(t));
    acts', z := Go(s, acts', z, Run(t));
  }

  /**
   After n elements, each raced for by consumers 1 and 2, while consumer 0 still holds the
   overcommit of the start.
   */
  predicate Rounds(m: State, n: nat, left: nat) {
    && m.tail == n + left && m.head == n && m.count == 2 * n && m.over == n
    && m.pc == [FetchCount(1, 0), Idle, Idle]
  }

  /** A racer counts itself in. */
  lemma CountIn(s: State, acts: seq<Action>, m: State, t: Tid, over: nat) returns (acts': seq<Action>, z: State)
    requires Briefly(s, acts, m) && t < |m.pc| && m.pc[t] == FetchCount(1, over) && m.tail <= m.head + 1
    ensures Briefly(s, acts', z) && z.tail == m.tail && z.head == m.head && z.over == m.over && z.count == m.count + 1
    ensures |z.log| == |m.log| + 1 && z.pc == m.pc[t := LoadTail(1, over, m.count, |m.log|)]
  {
    acts', z := Go(s, acts, m, Run(t));
  }

  /** The first racer gets the element. */
  lemma Win(s: State, acts: seq<Action>, m: State, t: Tid) returns (acts': seq<Action>, z: State)
    requires Briefly(s, acts, m) && t < |m.pc| && m.pc[t].LoadTail? && m.pc[t].id < |m.log| && m.tail == m.head + 1
    requires m.pc[t].desired == 1 && m.tail - (m.pc[t].mine - m.pc[t].over) == 1
    ensures Briefly(s, acts', z) && z.tail == m.tail && z.head == m.head + 1 && z.over == m.over && z.count == m.count
    ensures |z.log| == |m.log| && z.pc == m.pc[t := Idle]
  {
    acts', z := Go(s, acts, m, Run(t));
    assert z.pc[t] == FetchHead(1, m.pc[t].id);
    acts', z := Go(s, acts', z, Run(t));
  }

  /** The second finds none and gives its count back. */
  lemma Lose(s: State, acts: seq<Action>, m: State, t: Tid) returns (acts': seq<Action>, z: State)
    requires Briefly(s, acts, m) && t < |m.pc| && m.pc[t].LoadTail? && m.pc[t].id < |m.log| && m.tail <= m.head + 1
    requires m.pc[t].desired == 1 && m.tail - (m.pc[t].mine - m.pc[t].over) == 0
    ensures Briefly(s, acts', z) && z.tail == m.tail && z.head == m.head && z.over == m.over + 1 && z.count == m.count
    ensures |z.log| == |m.log| && z.pc == m.pc[t := Idle]
  {
    acts', z := Go(s, acts, m, Run(t));
    assert z.pc[t] == GiveBack(1, 0, m.pc[t].id);
    acts', z := Go(s, acts', z, Run(t));
  }

  /** Both see the element and count themselves in; one gets it, the other gives its count back. */
  lemma Race(s: State, acts: seq<Action>, m: State, n: nat) returns (acts': seq<Action>, z: State)
    requires Briefly(s, acts, m) && Rounds(m, n, 1)
    ensures Briefly(s, acts', z) && Rounds(z, n + 1, 0)
  {
    acts', z := Attempt(s, acts, m, 1);
    acts', z := Attempt(s, acts', z, 2);
    acts', z := CountIn(s, acts', z, 1, n);
    acts', z := CountIn(s, acts', z, 2, n);
    acts', z := Win(s, acts', z, 1);
    acts', z := Lose(s, acts', z, 2);
  }

  lemma {:induction false} ManyRaces(n: nat) returns (s: State, acts: seq<Action>, z: State)
    requires n > 0
    ensures Init(s) && |s.pc| == 3 && Briefly(s, acts, z) && Rounds(z, n, 0)
  {
    if n == 1 {
      s := State(0, 0, 0, 0, [Idle, Idle, Idle], [], []);
      acts, z := Go(s, [], s, Enqueue(1));
      acts, z := Attempt(s, acts, z, 0);
    } else {
      s, acts, z := ManyRaces(n - 1);
      acts, z := Go(s, acts, z, Enqueue(1));
    }
    acts, z := Race(s, acts, z, n - 1);
  }

  /**
   With never more than one element in the queue, and three consumers: once 2^63 + 1 elements have
   been raced for, the consumer that read the overcommit before all of them takes an index that
   does not exist.
   */
  lemma HeadCanPassTail() returns (s: State, acts: seq<Action>, z: State)
    ensures Init(s) && Reaches(s, acts, z) && Briefly(s, acts, z) && |s.pc| == 3
    ensures z.head == z.tail + 1 && z.tail == HALF + 1
  {
    s, acts, z := ManyRaces(HALF + 1);
    acts, z := Go(s, acts, z, Run(0));
    assert Available(HALF + 1, WORD + 2, 0) == HALF - 1;
    acts, z := Go(s, acts, z, Run(0));
    acts, z := Go(s, acts, z, Run(0));
    BrieflyReaches(s, acts, z);
  }

  lemma {:induction false} SumPrefix(p: Part, log: seq<Ticket>, i: nat)
    requires i <= |log|
    ensures Sum(p, log[..i]) <= Sum(p, log)
  {
    if i < |log| {
      assert log[..|log| - 1][..i] == log[..i];
      SumPrefix(p, log[..|log| - 1], i);
    } else {
      assert log[..i] == log;
    }
  }
}
