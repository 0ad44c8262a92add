/** The blocking pool's bounded ring queue of jobs. */
module BlockingPool {
  import opened Wrappers

  /** n elements from position `head` on, going round at the end. */
  function Window<T>(s: seq<T>, head: nat, n: nat): seq<T>
    requires n <= |s| && head <= |s|
  { if head + n <= |s| then s[head..head + n] else s[head..] + s[..head + n - |s|] }

  /** The position i places further on, going round. */
  function Slot(head: nat, i: nat, cap: nat): nat { if head + i < cap then head + i else head + i - cap }

  lemma WindowPush<T>(s: seq<T>, head: nat, n: nat, x: T)
    requires n < |s| && head < |s|
    ensures Window(s[Slot(head, n, |s|) := x], head, n + 1) == Window(s, head, n) + [x]
  {
    var at := Slot(head, n, |s|);
    var t := s[at := x];
    if head + n < |s| {
      assert t[head..head + n + 1] == s[head..head + n] + [x];
    } else {
      assert t[head..] == s[head..] && t[..at + 1] == s[..at] + [x];
    }
  }

  lemma WindowPop<T>(s: seq<T>, head: nat, n: nat)
    requires 0 < n <= |s| && head < |s|
    ensures Window(s, head, n) == [s[head]] + Window(s, Slot(head, 1, |s|), n - 1)
  {
    if head + 1 == |s| {
      assert s[head..] == [s[head]];
    }
  }

  lemma Wraps(i: nat, cap: nat)
    requires i < cap
    ensures (i + 1) % cap == Slot(i, 1, cap)
  {}

  class JobQueue<Job(0)> {
    const q: array<Job>
    var head: nat
    var tail: nat
    var count: nat
    var stopping: bool

    ghost predicate Valid()
      reads this
    {
      count <= q.Length && head <= q.Length && (q.Length > 0 ==> head < q.Length && tail == Slot(head, count, q.Length))
    }

    /** The jobs waiting, oldest first. */
    ghost function Jobs(): seq<Job>
      requires Valid()
      reads this, q
    { Window(q[..], head, count) }

    constructor (capacity: nat)
      ensures Valid() && fresh(q) && q.Length == capacity && Jobs() == [] && !stopping
    {
      q := new Job[capacity];
      head, tail, count, stopping := 0, 0, 0, false;
    }

    /** Refused when stopping or full; otherwise the job goes to the back. */
    method TrySubmit(job: Job) returns (ok: bool)
      requires Valid()
      modifies this, q
      ensures Valid() && stopping == old(stopping) && ok == (!old(stopping) && |old(Jobs())| < q.Length)
      ensures Jobs() == if ok then old(Jobs()) + [job] else old(Jobs())
    {
      if stopping { return false; }
      if count == q.Length { return false; }
      ghost var was := q[..];
      q[tail] := job;
      assert q[..] == was[tail := job];
      WindowPush(was, head, count, job);
      Wraps(tail, q.Length);
      tail := (tail + 1) % q.Length;
      count := count + 1;
      return true;
    }

    /** A worker takes the oldest job. */
    method Take() returns (job: Option<Job>)
      requires Valid()
      modifies this
      ensures Valid() && stopping == old(stopping)
      ensures if |old(Jobs())| == 0 then job == None && Jobs() == old(Jobs())
              else job == Some(old(Jobs())[0]) && Jobs() == old(Jobs())[1..]
    {
      if count == 0 { return None; }
      WindowPop(q[..], head, count);
      job := Some(q[head]);
      Wraps(head, q.Length);
      head := (head + 1) % q.Length;
      count := count - 1;
    }
  }
}
