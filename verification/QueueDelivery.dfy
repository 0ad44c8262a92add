/**
 The whole dequeue of an explicit producer: consumers win indices through the
 optimistic counters, and resolve them to blocks through the block index.  Publishing
 an element and winning indices are single steps of both machines at once.
 */
module QueueDelivery {
  import C = OptimisticDequeue
  import X = BlockIndex
  import opened Words

  type Tid = nat

  datatype State = State(c: C.State, x: X.State)

  /** A step of the producer, of a consumer on the counters, or of a consumer on its indices. */
  datatype Action = Producer(p: X.Action) | Counter(a: C.Action) | Consumer(t: Tid)

  predicate OfProducer(p: X.Action) { p.Offer? || p.Produce? || p.Requisition? || p.GiveUp? }

  /** A consumer goes back to the counters only when it is done with the indices it won. */
  ghost predicate Enabled(s: State, act: Action) {
    match act
    case Producer(p) => OfProducer(p) && X.Enabled(s.x, p)
    case Counter(a) => (a.Call? || a.Run?) && C.Enabled(s.c, a) && a.t < |s.x.cons| && s.x.cons[a.t].Idle?
    case Consumer(t) => X.Enabled(s.x, X.Consume(t))
  }

  /** How many indices the consumer's fetch_add on the head gives it. */
  function Won(c: C.State, a: C.Action): nat
    requires C.Enabled(c, a)
  {
    if a.Run? && c.pc[a.t].FetchHead? then c.pc[a.t].actual else 0
  }

  ghost function Do(s: State, act: Action): State
    requires Enabled(s, act)
  {
    match act
    case Producer(p) =>
      var x := X.Do(s.x, p);
      State(if x.tail > s.x.tail then C.Do(s.c, C.Enqueue(x.tail - s.x.tail)) else s.c, x)
    case Counter(a) =>
      State(C.Do(s.c, a), if Won(s.c, a) > 0 then X.ClaimStep(s.x, a.t, Won(s.c, a)) else s.x)
    case Consumer(t) => State(s.c, X.Do(s.x, X.Consume(t)))
  }

  ghost predicate Init(s: State) { C.Init(s.c) && X.Init(s.x) && |s.c.pc| == |s.x.cons| }

  ghost predicate Reaches(s: State, acts: seq<Action>, z: State)
    decreases |acts|
  {
    if acts == [] then s == z
    else Enabled(s, acts[0]) && Reaches(Do(s, acts[0]), acts[1..], z)
  }

  predicate Misled(s: State, act: Action) { act.Counter? && C.Misleads(s.c, act.a) }

  /** No decision of the run is misled. */
  ghost predicate Clean(s: State, acts: seq<Action>)
    decreases |acts|
  {
    acts == [] || (!Misled(s, acts[0]) && (Enabled(s, acts[0]) ==> Clean(Do(s, acts[0]), acts[1..])))
  }

  // ---------------------------------------------------------------- what every step keeps

  ghost predicate Inv(s: State) {
    && C.Inv(s.c) && X.Inv(s.x) && X.Once(s.x)
    && s.c.tail == s.x.tail && s.c.head == s.x.head && |s.c.pc| == |s.x.cons|
  }

  lemma StepProducer(s: State, p: X.Action)
    requires Inv(s) && Enabled(s, Producer(p))
    ensures Inv(Do(s, Producer(p)))
  {
    X.StepDo(s.x, p);
    X.StepOnce(s.x, p);
    var x := X.Do(s.x, p);
    if x.tail > s.x.tail { C.StepDo(s.c, C.Enqueue(x.tail - s.x.tail)); }
    ProducerKeeps(s.x, p);
  }

  lemma ProducerKeeps(x: X.State, p: X.Action)
    requires OfProducer(p) && X.Enabled(x, p)
    ensures X.Do(x, p).head == x.head && X.Do(x, p).tail >= x.tail && |X.Do(x, p).cons| == |x.cons|
  {}

  /** What the counters give a consumer is there: the head does not pass the tail. */
  lemma StepCounter(s: State, a: C.Action)
    requires Inv(s) && Enabled(s, Counter(a)) && !Misled(s, Counter(a))
    ensures Inv(Do(s, Counter(a)))
  {
    C.StepDo(s.c, a);
    var c, k := C.Do(s.c, a), Won(s.c, a);
    CounterKeeps(s.c, a);
    C.HeadBelowTail(c);
    if k > 0 {
      X.StepDo(s.x, X.Claim(a.t, k));
      X.StepOnce(s.x, X.Claim(a.t, k));
    }
  }

  lemma CounterKeeps(c: C.State, a: C.Action)
    requires (a.Call? || a.Run?) && C.Enabled(c, a)
    ensures C.Do(c, a).tail == c.tail && C.Do(c, a).head == c.head + Won(c, a) && |C.Do(c, a).pc| == |c.pc|
  {}

  lemma StepKeepsInv(s: State, act: Action)
    requires Inv(s) && Enabled(s, act) && !Misled(s, act)
    ensures Inv(Do(s, act))
  {
    match act
    case Producer(p) => StepProducer(s, p);
    case Counter(a) => StepCounter(s, a);
    case Consumer(t) =>
      X.StepDo(s.x, X.Consume(t));
      X.StepOnce(s.x, X.Consume(t));
      ConsumerKeeps(s.x, t);
  }

  lemma ConsumerKeeps(x: X.State, t: Tid)
    requires X.Enabled(x, X.Consume(t))
    ensures X.Do(x, X.Consume(t)).head == x.head && X.Do(x, X.Consume(t)).tail == x.tail
    ensures var y := X.Do(x, X.Consume(t));
            |y.cons| == |x.cons| && y.cons == x.cons[t := y.cons[t]] && y.values == x.values && y.prod == x.prod
  {}

  lemma {:induction false} RunKeepsInv(s: State, acts: seq<Action>, z: State)
    requires Inv(s) && Reaches(s, acts, z) && Clean(s, acts)
    ensures Inv(z)
    decreases |acts|
  {
    if acts != [] {
      StepKeepsInv(s, acts[0]);
      RunKeepsInv(Do(s, acts[0]), acts[1..], z);
    }
  }

  lemma InitInv(s: State)
    requires Init(s)
    ensures Inv(s)
  {
    forall t: nat ensures C.ConsumerOk(s.c, t) {}
    X.InitInv(s.x);
  }

  // ---------------------------------------------------------------- results

  /** Nobody is in the middle of a dequeue. */
  predicate Quiet(s: State) {
    (forall t | 0 <= t < |s.x.cons| :: s.x.cons[t].Idle?) && (forall t | 0 <= t < |s.c.pc| :: s.c.pc[t].Idle?)
  }

  /**
   Main theorem: exactly-once delivery, on every run in which no decision is misled, as is any run of
   at most 2^63 attempts. In every state reached every element moved out is the one enqueued at its
   index, no index is moved out twice, and every index below the head has been moved out or is owed by
   a consumer; when no dequeue is under way all of them have been moved out.
   */
  lemma DeliveredOnce(s: State, acts: seq<Action>, z: State)
    requires Init(s) && Reaches(s, acts, z) && (Clean(s, acts) || z.c.count <= HALF)
    ensures z.x.head == z.c.head <= z.c.tail == |z.x.values|
    ensures forall k | 0 <= k < |z.x.out| :: z.x.out[k].0 < z.c.tail && z.x.out[k].1 == z.x.values[z.x.out[k].0]
    ensures forall j, k | 0 <= j < k < |z.x.out| :: z.x.out[j].0 != z.x.out[k].0
    ensures forall i: nat | i < z.c.head ::
              X.MovedOut(z.x, i) || exists t :: 0 <= t < |z.x.cons| && X.ToCome(z.x.cons[t], i)
    ensures Quiet(z) ==> forall i: nat :: X.MovedOut(z.x, i) <==> i < z.c.head
  {
    InitInv(s);
    if z.c.count <= HALF { FewAttemptsRun(s, acts, z); }
    RunKeepsInv(s, acts, z);
    X.LookupsRight(z.x);
    if Quiet(z) {
      forall i: nat ensures X.MovedOut(z.x, i) <==> i < z.c.head { OutBelowHead(z.x, i); }
    }
  }

  lemma OutBelowHead(x: X.State, i: nat)
    requires X.Inv(x) && X.Once(x) && forall t | 0 <= t < |x.cons| :: x.cons[t].Idle?
    ensures X.MovedOut(x, i) <==> i < x.head
  {
    assert X.IndexOk(x, i) && X.OutOk(x, i);
  }

  /** A run of at most 2^63 attempts in all misleads no decision. */
  lemma {:induction false} FewAttemptsRun(s: State, acts: seq<Action>, z: State)
    requires Inv(s) && Reaches(s, acts, z) && z.c.count <= HALF
    ensures Clean(s, acts)
    decreases |acts|
  {
    if acts != [] {
      CountGrows(s, acts, z);
      if acts[0].Counter? && acts[0].a.Run? { C.FewAttemptsClean(s.c, acts[0].a.t); }
      StepKeepsInv(s, acts[0]);
      FewAttemptsRun(Do(s, acts[0]), acts[1..], z);
    }
  }

  lemma {:induction false} CountGrows(s: State, acts: seq<Action>, z: State)
    requires Reaches(s, acts, z)
    ensures s.c.count <= z.c.count
    decreases |acts|
  {
    if acts != [] { CountGrows(Do(s, acts[0]), acts[1..], z); }
  }

  // ---------------------------------------------------------------- a dequeue and an enqueue run to their ends

  lemma {:induction false} OneMore(s: State, acts: seq<Action>, z: State, act: Action)
    requires Reaches(s, acts, z) && Clean(s, acts) && Enabled(z, act) && !Misled(z, act)
    ensures Reaches(s, acts + [act], Do(z, act)) && Clean(s, acts + [act])
    decreases |acts|
  {
    if acts == [] {
      assert [act][1..] == [];
    } else {
      assert (acts + [act])[1..] == acts[1..] + [act];
      OneMore(Do(s, acts[0]), acts[1..], z, act);
    }
  }

  /** A run of consumer t alone. */
  ghost predicate Consuming(s: State, acts: seq<Action>, z: State, t: Tid) {
    && Reaches(s, acts, z) && Clean(s, acts)
    && forall i | 0 <= i < |acts| ::
         acts[i] == Consumer(t) || (acts[i].Counter? && !acts[i].a.Enqueue? && acts[i].a.t == t)
  }

  lemma Go(s: State, acts: seq<Action>, m: State, act: Action, t: Tid) returns (acts': seq<Action>, z: State)
    requires Consuming(s, acts, m, t) && Enabled(m, act) && !Misled(m, act)
    requires act == Consumer(t) || (act.Counter? && !act.a.Enqueue? && act.a.t == t)
    ensures Consuming(s, acts', z, t) && z == Do(m, act)
  {
    OneMore(s, acts, m, act);
    acts', z := acts + [act], Do(m, act);
  }

  /** The steps on the counters, up to the claim. */
  lemma {:induction false} CountersAlone(s: State, acts: seq<Action>, m: State, t: Tid, n: nat, c: C.State)
    returns (acts': seq<Action>, z: State)
    requires Inv(s) && Consuming(s, acts, m, t) && t < |m.x.cons| && m.x.cons[t].Idle?
    requires C.Alone(m.c, t, n, c) && t < |c.pc| && c.pc[t].Idle?
    ensures Consuming(s, acts', z, t) && z.c == c
    ensures z.x == if c.head > m.c.head then X.ClaimStep(m.x, t, c.head - m.c.head) else m.x
    decreases n
  {
    acts', z := acts, m;
    if n > 0 {
      acts', z := CounterAlone(s, acts, m, t);
      if z.x != m.x {
        assert n == 1;
      } else {
        var y := z;
        acts', z := CountersAlone(s, acts', y, t, n - 1, c);
      }
    }
  }

  /** One of them: it either leaves the indices alone, or claims some and is done. */
  lemma CounterAlone(s: State, acts: seq<Action>, m: State, t: Tid) returns (acts': seq<Action>, z: State)
    requires Inv(s) && Consuming(s, acts, m, t) && t < |m.x.cons| && m.x.cons[t].Idle? && C.Steps(m.c, t)
    ensures Consuming(s, acts', z, t) && z.c == C.Exec(m.c, t)
    ensures (z.x == m.x && z.c.head == m.c.head)
            || (z.c.head > m.c.head && z.c.pc[t].Idle? && z.x == X.ClaimStep(m.x, t, z.c.head - m.c.head))
  {
    acts', z := Go(s, acts, m, Counter(C.Run(t)), t);
    RunKeepsInv(s, acts, m);
    RunKeepsInv(s, acts', z);
    CounterKeeps(m.c, C.Run(t));
  }

  /** The elements of some indices, in order. */
  ghost function Elements(values: seq<X.Value>, i: nat, e: nat): seq<(nat, X.Value)>
    requires e <= |values|
    decreases e - i
  {
    if i >= e then [] else [(i, values[i])] + Elements(values, i + 1, e)
  }

  /** The first index the consumer has yet to move out, and where its indices end. */
  function NextOut(c: X.Consumer): nat {
    match c
    case Idle => 0
    case Take(_, _, _, _, _, p) => p
    case SetEmpty(i, e, _, _, _, _) => X.BlockEnd(i, e)
    case _ => c.i
  }

  function End(c: X.Consumer): nat { if c.Idle? then 0 else c.e }

  /** How many steps the consumer has left, at most. */
  function StepsLeft(c: X.Consumer): int {
    match c
    case Idle => 0
    case LoadHeader(i, e) => 4 * (e - i) + 4
    case LoadFront(i, e, _) => 4 * (e - i) + 3
    case ReadBase(i, e, _, _, _) => 4 * (e - i) + 2
    case ReadBlock(i, e, _, _) => 4 * (e - i) + 1
    case Take(i, e, _, _, _, p) => 4 * (e - i) - (p - i)
    case SetEmpty(i, e, _, _, _, q) => 4 * (e - i) - (X.BlockEnd(i, e) - i) - (X.BlockEnd(i, e) - q)
  }

  /** A step of consumer t: nearer its end, and what it moves out is the next element due. */
  ghost predicate Moves(x: X.State, y: X.State, t: Tid) {
    && t < |x.cons| && End(x.cons[t]) <= |x.values| && y.values == x.values && y.prod == x.prod
    && y.cons == x.cons[t := if t < |y.cons| then y.cons[t] else X.Idle] && End(y.cons[t]) <= |x.values|
    && 0 < StepsLeft(x.cons[t]) && StepsLeft(y.cons[t]) < StepsLeft(x.cons[t])
    && y.out + Elements(x.values, NextOut(y.cons[t]), End(y.cons[t])) ==
       x.out + Elements(x.values, NextOut(x.cons[t]), End(x.cons[t]))
  }

  lemma ConsumerStep(x: X.State, t: Tid)
    requires X.Inv(x) && t < |x.cons| && !x.cons[t].Idle?
    ensures X.Enabled(x, X.Consume(t)) && End(x.cons[t]) <= |x.values|
    ensures End(X.Do(x, X.Consume(t)).cons[t]) <= |x.values| ==> Moves(x, X.Do(x, X.Consume(t)), t)
  {
    assert X.ConsOk(x, t);
    var c, y := x.cons[t], X.ConsumeStep(x, t);
    ConsumerKeeps(x, t);
    if c.Take? {
      TakesNext(x, t);
      MovesOne(x.out, x.values, c.p, c.e);
    } else {
      Walks(c, y.cons[t], x, t);
    }
  }

  lemma MovesOne(out: seq<(nat, X.Value)>, values: seq<X.Value>, p: nat, e: nat)
    requires p < e <= |values|
    ensures out + [(p, values[p])] + Elements(values, p + 1, e) == out + Elements(values, p, e)
  {}

  /** The steps that move nothing out. */
  lemma Walks(c: X.Consumer, d: X.Consumer, x: X.State, t: Tid)
    requires X.Enabled(x, X.Consume(t)) && x.cons[t] == c && X.Resolves(x, c) && !c.Take? && !c.Idle?
    requires d == X.ConsumeStep(x, t).cons[t] && (c.LoadHeader? ==> c.i < c.e)
    ensures X.ConsumeStep(x, t).out == x.out && 0 < StepsLeft(c) && StepsLeft(d) < StepsLeft(c)
    ensures (NextOut(d) == NextOut(c) && End(d) == End(c)) || (d.Idle? && NextOut(c) >= End(c))
  {}

  lemma TakesNext(x: X.State, t: Tid)
    requires X.Inv(x) && t < |x.cons| && x.cons[t].Take? && X.Enabled(x, X.Consume(t))
    ensures var c, y := x.cons[t], X.ConsumeStep(x, t);
            && c.p < c.e <= |x.values| && y.out == x.out + [(c.p, x.values[c.p])]
            && NextOut(y.cons[t]) == c.p + 1 && End(y.cons[t]) == c.e
            && 0 < StepsLeft(c) && StepsLeft(y.cons[t]) < StepsLeft(c)
  {
    var c := x.cons[t];
    assert X.ConsOk(x, t) && X.OwnOk(x, t, c.p) && X.IndexOk(x, c.p);
    assert c.p / X.BLOCK_SIZE == c.i / X.BLOCK_SIZE;
  }

  /** One of a consumer's steps on its indices. */
  lemma IndexAlone(s: State, acts: seq<Action>, m: State, t: Tid) returns (acts': seq<Action>, z: State)
    requires Inv(s) && Consuming(s, acts, m, t) && t < |m.x.cons| && !m.x.cons[t].Idle?
    ensures Consuming(s, acts', z, t) && Moves(m.x, z.x, t) && z.c == m.c
  {
    RunKeepsInv(s, acts, m);
    ConsumerStep(m.x, t);
    acts', z := Go(s, acts, m, Consumer(t), t);
    RunKeepsInv(s, acts', z);
    Owes(z.x, t);
  }

  /** The steps on the indices, to the end. */
  lemma {:induction false} IndicesAlone(s: State, acts: seq<Action>, m: State, t: Tid)
    returns (acts': seq<Action>, z: State)
    requires Inv(s) && Consuming(s, acts, m, t) && t < |m.x.cons| && End(m.x.cons[t]) <= |m.x.values|
    ensures Consuming(s, acts', z, t) && z.c == m.c
    ensures z.x.cons == m.x.cons[t := X.Idle] && z.x.values == m.x.values && z.x.prod == m.x.prod
    ensures z.x.out == m.x.out + Elements(m.x.values, NextOut(m.x.cons[t]), End(m.x.cons[t]))
    decreases StepsLeft(m.x.cons[t])
  {
    acts', z := acts, m;
    if !m.x.cons[t].Idle? {
      acts', z := IndexAlone(s, acts, m, t);
      var y := z;
      acts', z := IndicesAlone(s, acts', y, t);
    } else {
      assert m.x.out + [] == m.x.out;
    }
  }

  /**
   Main theorem: from any state reached by a clean run in which no dequeue is under way and fewer than
   2^63 elements are queued, a dequeue of up to max elements, run to its end, moves out the oldest
   elements of the queue, in order: max of them, or all there are.
   */
  lemma DequeueGets(s: State, acts: seq<Action>, z: State, t: Tid, max: nat) returns (more: seq<Action>, y: State)
    requires Init(s) && Reaches(s, acts, z) && Clean(s, acts) && Quiet(z)
    requires t < |z.c.pc| && z.c.tail - z.c.head < HALF
    ensures Consuming(z, more, y, t) && Quiet(y)
    ensures z.c.head <= z.c.tail == |z.x.values| && y.x.values == z.x.values
    ensures y.c.head == z.c.head + Share(z.c, max)
    ensures y.x.out == z.x.out + Elements(z.x.values, z.c.head, y.c.head)
  {
    InitInv(s);
    RunKeepsInv(s, acts, z);
    RunSettles(s, acts, z);
    C.CountersExact(z.c);
    more, y := DequeueAlone(z, t, max);
  }

  lemma DequeueAlone(z: State, t: Tid, max: nat) returns (more: seq<Action>, y: State)
    requires Inv(z) && Quiet(z) && t < |z.c.pc|
    requires z.c.head <= z.c.tail < z.c.head + HALF && z.c.count == z.c.over + z.c.head
    ensures Consuming(z, more, y, t) && Quiet(y)
    ensures z.c.tail == |z.x.values| && y.x.values == z.x.values
    ensures y.c.head == z.c.head + Share(z.c, max)
    ensures y.x.out == z.x.out + Elements(z.x.values, z.c.head, y.c.head)
  {
    var m;
    more, m := ClaimAlone(z, t, max);
    RunKeepsInv(z, more, m);
    Owes(m.x, t);
    more, y := IndicesAlone(z, more, m, t);
    assert y.x.cons == z.x.cons;
  }

  lemma Owes(x: X.State, t: Tid)
    requires X.Inv(x) && t < |x.cons|
    ensures End(x.cons[t]) <= |x.values| && |x.values| == x.tail
  {
    assert X.ConsOk(x, t);
  }

  /** How many elements a call for max gets. */
  function Share(c: C.State, max: nat): nat
    requires c.head <= c.tail
  { if max < c.tail - c.head then max else c.tail - c.head }

  /** The call and its steps on the counters. */
  lemma ClaimAlone(z: State, t: Tid, max: nat) returns (more: seq<Action>, m: State)
    requires Inv(z) && Quiet(z) && t < |z.c.pc|
    requires z.c.head <= z.c.tail < z.c.head + HALF && z.c.count == z.c.over + z.c.head
    ensures Consuming(z, more, m, t) && m.c.pc == z.c.pc && m.c.head == z.c.head + Share(z.c, max)
    ensures m.x == if Share(z.c, max) > 0 then X.ClaimStep(z.x, t, Share(z.c, max)) else z.x
  {
    var call := Counter(C.Call(t, max));
    more, m := Go(z, [], z, call, t);
    var n, c := C.CallAlone(z.c, t, max);
    var y := m;
    more, m := CountersAlone(z, more, y, t, n, c);
  }

  /** Every ticket nobody has is settled, along every clean run. */
  lemma {:induction false} RunSettles(s: State, acts: seq<Action>, z: State)
    requires Inv(s) && C.AllSettled(s.c) && Reaches(s, acts, z) && Clean(s, acts)
    ensures C.AllSettled(z.c)
    decreases |acts|
  {
    if acts != [] {
      StepKeepsInv(s, acts[0]);
      StepSettles(s, acts[0]);
      RunSettles(Do(s, acts[0]), acts[1..], z);
    }
  }

  lemma StepSettles(s: State, act: Action)
    requires Inv(s) && C.AllSettled(s.c) && Enabled(s, act)
    ensures C.AllSettled(Do(s, act).c)
  {
    match act
    case Producer(p) =>
      var x := X.Do(s.x, p);
      if x.tail > s.x.tail { C.StepSettles(s.c, C.Enqueue(x.tail - s.x.tail)); }
    case Counter(a) => C.StepSettles(s.c, a);
    case Consumer(t) =>
  }
}
