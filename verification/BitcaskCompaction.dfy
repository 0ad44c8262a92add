/**
 Compaction: the live records of some sealed files are copied to a new one, while
 clients run at every point where the compactor is suspended.
 */
module BitcaskCompaction {
  import opened Bytes
  import opened Wrappers
  import opened BitcaskEntry
  import opened BitcaskLog
  import opened BitcaskHints
  import opened BitcaskRecovery
  import opened BitcaskAccounting
  import opened BitcaskPartition
  import opened FileIds

  // ---------------------------------------------------------------- clients

  datatype Op = Put(key: Data, value: Data, ts: nat, now: nat) | Del(key: Data, ts: nat) | Rotate(now: nat)

  function Effect(model: map<Data, Data>, op: Op): map<Data, Data> {
    match op
    case Put(key, value, _, _) => model[key := value]
    case Del(key, _) => model - {key}
    case Rotate(_) => model
  }

  function Effects(model: map<Data, Data>, ops: seq<Op>): map<Data, Data> {
    if ops == [] then model else Effect(Effects(model, ops[..|ops| - 1]), ops[|ops| - 1])
  }

  /** What has been written once an operation is done. */
  function Write(written: set<(Data, Data)>, op: Op): set<(Data, Data)> {
    if op.Put? then written + {(op.key, op.value)} else written
  }

  function Writes(written: set<(Data, Data)>, ops: seq<Op>): set<(Data, Data)> {
    if ops == [] then written else Write(Writes(written, ops[..|ops| - 1]), ops[|ops| - 1])
  }

  /** The operations lead from state b to what t means and has written. */
  ghost predicate Follows(b: State, t: State, ops: seq<Op>) {
    t.model == Effects(b.model, ops) && t.written == Writes(b.written, ops)
  }

  /** The operation's numbers fit the format and the clock. */
  predicate WellSized(op: Op) {
    match op
    case Put(key, value, ts, now) => Fits(Entry(ts, 0, key, value)) && now < TIME_LIMIT
    case Del(key, ts) => Fits(Entry(ts, TOMBSTONE, key, []))
    case Rotate(now) => now < TIME_LIMIT
  }

  /** It can be carried out: it does not need an id when they have run out, or a file larger than 2^64 bytes. */
  predicate Allowed(p: Partition, op: Op)
    reads p, p.gen
  {
    p.active in p.files && WellSized(op) &&
    match op
    case Put(key, value, ts, now) => if p.ShouldRotate() then !p.gen.Exhausted(now)
      else p.HasRoom(Entry(ts, 0, key, value).Size())
    case Del(key, ts) => p.HasRoom(Entry(ts, TOMBSTONE, key, []).Size())
    case Rotate(now) => !p.gen.Exhausted(now)
  }

  /** Ids that can be issued within one second, after the first. */
  const PATIENCE: nat := 0xFFFF

  /**
   Why a well-sized operation may be refused: at least 2^16 - 1 units of work were done and its
   clock is not past the latest one used, or at least 2^32 - 1 were done in all.
   */
  predicate Excused(op: Op, clock: nat, work: nat) {
    work >= PATIENCE && (work >= WORD32 - 1 || (!op.Del? && op.now <= clock))
  }

  lemma RefusalExcused(p: Partition, op: Op)
    requires p.Valid() && WellSized(op) && !Allowed(p, op)
    ensures Excused(op, p.gen.lastTimestamp, p.state.work)
  {
    assert p.In(p.state);
    StoredSize(p.k, p.image, p.files, p.state.log, p.active);
  }

  /** The latest clock used once op is done. */
  function Ticked(clock: nat, op: Op): nat { if op.Del? then clock else Latest(clock, op.now) }

  method Perform(p: Partition, op: Op)
    requires p.Valid() && Allowed(p, op)
    modifies p, p.gen
    ensures p.Valid() && p.state.model == Effect(old(p.state.model), op)
    ensures p.state.written == Write(old(p.state.written), op)
    ensures Evolved(old(p.state), p.state)
    ensures p.state.work <= old(p.state.work) + 2 && p.gen.lastTimestamp <= Ticked(old(p.gen.lastTimestamp), op)
    ensures !op.Del? && Tombless(old(p.state.log)) ==> Tombless(p.state.log)
  {
    match op
    case Put(key, value, ts, now) => p.Put(key, value, ts, now);
    case Del(key, ts) => p.Del(key, ts);
    case Rotate(now) => p.RotateActiveFile(now);
  }

  /** An operation a client asked for: carried out, or refused. */
  datatype Attempt = Did(op: Op) | Refused(op: Op)

  function Tried(trace: seq<Attempt>): seq<Op> {
    if trace == [] then [] else Tried(trace[..|trace| - 1]) + [trace[|trace| - 1].op]
  }

  function Dones(trace: seq<Attempt>): seq<Op> {
    if trace == [] then []
    else Dones(trace[..|trace| - 1]) + (if trace[|trace| - 1].Did? then [trace[|trace| - 1].op] else [])
  }

  function Flat(script: seq<seq<Op>>): seq<Op> { if script == [] then [] else script[0] + Flat(script[1..]) }

  /** The latest clock used after the trace. */
  function ClockAfter(clock: nat, trace: seq<Attempt>): nat {
    if trace == [] then clock
    else
      var c, last := ClockAfter(clock, trace[..|trace| - 1]), trace[|trace| - 1];
      if last.Did? then Ticked(c, last.op) else c
  }

  /** What was done is well sized; what was refused is not, or there is an excuse. */
  predicate Due(attempt: Attempt, clock: nat, work: nat) {
    if attempt.Did? then WellSized(attempt.op) else WellSized(attempt.op) ==> Excused(attempt.op, clock, work)
  }

  predicate Fair(trace: seq<Attempt>, clock: nat, work: nat) {
    forall i | 0 <= i < |trace| :: Due(trace[i], ClockAfter(clock, trace[..i]), work)
  }

  /** What the clients do at each suspension, in turn, and what they have done. */
  class Clients {
    const full: seq<seq<Op>>
    var script: seq<seq<Op>>
    var trace: seq<Attempt>
    ghost var done: seq<Op>
    ghost const clock: nat

    constructor (script: seq<seq<Op>>, ghost clock: nat)
      ensures full == this.script == script && trace == [] && done == [] && this.clock == clock
    {
      full, this.script, trace, done, this.clock := script, script, [], [], clock;
    }
  }

  // ---------------------------------------------------------------- suspension

  /** Nothing happens to the guarded files, and no key comes to point into one. */
  ghost predicate Undisturbed(guarded: set<nat>, s: State, t: State) {
    && Later(s, t) && t.active !in guarded && (t.active == s.active || t.active > s.top)
    && (forall id | id in guarded :: id in s.log && id in t.log && t.log[id] == s.log[id])
    && (forall key {:trigger t.keydir[key]} | key in t.keydir && t.keydir[key].file in guarded ::
      key in s.keydir && s.keydir[key] == t.keydir[key])
  }

  lemma UndisturbedStep(guarded: set<nat>, s: State, t: State, u: State)
    requires Undisturbed(guarded, s, t) && Evolved(t, u) && forall id | id in guarded :: id <= s.top
    ensures Undisturbed(guarded, s, u)
  {}

  /** What has happened since the suspension began: nothing, or operations recorded in done. */
  ghost predicate Since(s: State, t: State, before: seq<Op>, done: seq<Op>, start: State) {
    && |before| <= |done| && Follows(start, t, done) && (|done| == |before| ==> t == s && done == before)
    && s.work <= t.work <= s.work + 2 * (|done| - |before|)
  }

  lemma SinceStep(s: State, t: State, u: State, before: seq<Op>, done: seq<Op>, op: Op, start: State)
    requires Since(s, t, before, done, start) && u.model == Effect(t.model, op) && u.written == Write(t.written, op)
    requires t.work <= u.work <= t.work + 2
    ensures Since(s, u, before, done + [op], start)
  {
    assert (done + [op])[..|done|] == done;
  }

  /** The clients' record after some work: what is left of the script follows what was tried. */
  ghost predicate Recorded(env: Clients, left: seq<Op>, work: nat, last: nat)
    reads env
  {
    && Tried(env.trace) + left == Flat(env.full) && env.done == Dones(env.trace)
    && Fair(env.trace, env.clock, work) && last <= ClockAfter(env.clock, env.trace)
  }

  lemma FairMore(trace: seq<Attempt>, attempt: Attempt, clock: nat, before: nat, work: nat)
    requires Fair(trace, clock, before) && before <= work && Due(attempt, ClockAfter(clock, trace), work)
    ensures Fair(trace + [attempt], clock, work)
  {
    var more := trace + [attempt];
    forall i | 0 <= i < |more| ensures Due(more[i], ClockAfter(clock, more[..i]), work) {
      assert more[..i] == trace[..i];
      if i == |trace| {
        assert trace[..i] == trace;
      } else {
        assert Due(trace[i], ClockAfter(clock, trace[..i]), before);
      }
    }
  }

  lemma FairWider(trace: seq<Attempt>, clock: nat, before: nat, work: nat)
    requires Fair(trace, clock, before) && before <= work
    ensures Fair(trace, clock, work)
  {
    forall i | 0 <= i < |trace| ensures Due(trace[i], ClockAfter(clock, trace[..i]), work) {
      assert Due(trace[i], ClockAfter(clock, trace[..i]), before);
    }
  }

  lemma {:induction false} ClockOnward(clock: nat, trace: seq<Attempt>)
    ensures clock <= ClockAfter(clock, trace)
  {
    if trace != [] { ClockOnward(clock, trace[..|trace| - 1]); }
  }

  lemma TraceMore(trace: seq<Attempt>, attempt: Attempt, clock: nat, left: seq<Op>)
    ensures var more := trace + [attempt];
            && Tried(more) + left == Tried(trace) + ([attempt.op] + left)
            && Dones(more) == (if attempt.Did? then Dones(trace) + [attempt.op] else Dones(trace))
            && ClockAfter(clock, more) == if attempt.Did? then Ticked(ClockAfter(clock, trace), attempt.op)
              else ClockAfter(clock, trace)
  {
    assert (trace + [attempt])[..|trace|] == trace;
    assert Dones(trace) + [] == Dones(trace);
  }

  method Record(env: Clients, attempt: Attempt, ghost left: seq<Op>, ghost before: nat, ghost work: nat,
                ghost was: nat, ghost last: nat)
    requires Recorded(env, [attempt.op] + left, before, was) && before <= work && Due(attempt, was, work)
    requires last <= if attempt.Did? then Ticked(was, attempt.op) else was
    modifies env`trace, env`done
    ensures Recorded(env, left, work, last)
    ensures env.done == if attempt.Did? then old(env.done) + [attempt.op] else old(env.done)
  {
    ghost var trace := env.trace;
    env.trace := env.trace + [attempt];
    if attempt.Did? { env.done := env.done + [attempt.op]; }
    TraceMore(trace, attempt, env.clock, left);
    FairMore(trace, attempt, env.clock, before, work);
  }

  /** The partition has come to state s. */
  ghost predicate At(p: Partition, s: State)
    reads p`state
  { s == p.state }

  /** Clients run since state s: what they have done is recorded, and the guarded files have not noticed. */
  ghost predicate Serving(p: Partition, env: Clients, left: seq<Op>, guarded: set<nat>, start: State, s: State,
                          before: seq<Op>)
    reads p, p.gen, env
  {
    forall t: State {:trigger At(p, t)} | At(p, t) ::
      && p.Valid() && Undisturbed(guarded, s, t) && Since(s, t, before, env.done, start)
      && Recorded(env, left, t.work, p.gen.lastTimestamp) && forall id | id in guarded :: id <= s.top
  }

  /** One client operation, carried out or refused. */
  method RunOne(p: Partition, env: Clients, op: Op, ghost left: seq<Op>, ghost guarded: set<nat>, ghost start: State,
                ghost s: State, ghost before: seq<Op>)
    requires Serving(p, env, [op] + left, guarded, start, s, before)
    modifies p, p.gen, env`trace, env`done
    ensures Serving(p, env, left, guarded, start, s, before)
  {
    if Allowed(p, op) {
      RunAllowed(p, env, op, left, guarded, start, s, before);
    } else {
      Refuse(p, env, op, left, guarded, start, s, before);
    }
  }

  method RunAllowed(p: Partition, env: Clients, op: Op, ghost left: seq<Op>, ghost guarded: set<nat>,
                    ghost start: State, ghost s: State, ghost before: seq<Op>)
    requires Serving(p, env, [op] + left, guarded, start, s, before) && Allowed(p, op)
    modifies p, p.gen, env`trace, env`done
    ensures Serving(p, env, left, guarded, start, s, before)
  {
    ghost var t, was, last := p.state, env.done, p.gen.lastTimestamp;
    assert At(p, t);
    Perform(p, op);
    UndisturbedStep(guarded, s, t, p.state);
    SinceStep(s, t, p.state, before, was, op, start);
    Record(env, Did(op), left, t.work, p.state.work, last, p.gen.lastTimestamp);
    ServingNow(p, env, left, guarded, start, s, before);
  }

  lemma ServingNow(p: Partition, env: Clients, left: seq<Op>, guarded: set<nat>, start: State, s: State,
                   before: seq<Op>)
    requires p.Valid() && Undisturbed(guarded, s, p.state) && Since(s, p.state, before, env.done, start)
    requires Recorded(env, left, p.state.work, p.gen.lastTimestamp) && forall id | id in guarded :: id <= s.top
    ensures Serving(p, env, left, guarded, start, s, before)
  {}

  method Refuse(p: Partition, env: Clients, op: Op, ghost left: seq<Op>, ghost guarded: set<nat>, ghost start: State,
                ghost s: State, ghost before: seq<Op>)
    requires Serving(p, env, [op] + left, guarded, start, s, before) && !Allowed(p, op)
    modifies env`trace, env`done
    ensures Serving(p, env, left, guarded, start, s, before)
  {
    assert At(p, p.state);
    if WellSized(op) { RefusalExcused(p, op); }
    Record(env, Refused(op), left, p.state.work, p.state.work, p.gen.lastTimestamp, p.gen.lastTimestamp);
  }

  /** So much work has been done in the partition. */
  ghost predicate Worked(p: Partition, work: nat)
    reads p`state
  { p.state.work == work }

  /** A sound partition, and its clients' record. */
  ghost predicate Sane(p: Partition, env: Clients)
    reads p, p.gen, env
  {
    forall work: nat {:trigger Worked(p, work)} | Worked(p, work) ::
      p.Sound() && Recorded(env, Flat(env.script), work, p.gen.lastTimestamp)
  }

  lemma SaneNow(p: Partition, env: Clients)
    requires p.Sound() && Recorded(env, Flat(env.script), p.state.work, p.gen.lastTimestamp)
    ensures Sane(p, env)
  {}

  /** Clients may run: the partition is valid, and follows from the start by what they have done. */
  ghost predicate Ready(p: Partition, env: Clients, start: State)
    reads p, p.gen, env
  {
    forall s: State {:trigger At(p, s)} | At(p, s) :: Sane(p, env) && p.Valid() && Follows(start, s, env.done)
  }

  /** A suspension point: the next batch of client operations runs. */
  method Suspend(p: Partition, env: Clients, ghost guarded: set<nat>, ghost start: State)
    requires Ready(p, env, start) && guarded <= p.state.log.Keys && p.state.active !in guarded
    modifies p, p.gen, env
    ensures Ready(p, env, start)
    ensures Undisturbed(guarded, old(p.state), p.state) && Since(old(p.state), p.state, old(env.done), env.done, start)
  {
    if env.script == [] {
      ReadyStays(p, env, guarded, start);
    } else {
      RunBatch(p, env, guarded, start);
    }
  }

  lemma ReadyStays(p: Partition, env: Clients, guarded: set<nat>, start: State)
    requires Ready(p, env, start) && guarded <= p.state.log.Keys && p.state.active !in guarded
    ensures Undisturbed(guarded, p.state, p.state) && Since(p.state, p.state, env.done, env.done, start)
    ensures forall id | id in guarded :: id <= p.state.top
  {
    assert At(p, p.state) && p.In(p.state);
  }

  method RunBatch(p: Partition, env: Clients, ghost guarded: set<nat>, ghost start: State)
    requires env.script != [] && Ready(p, env, start) && guarded <= p.state.log.Keys && p.state.active !in guarded
    modifies p, p.gen, env
    ensures Ready(p, env, start) && env.script == old(env.script)[1..]
    ensures Undisturbed(guarded, old(p.state), p.state) && Since(old(p.state), p.state, old(env.done), env.done, start)
  {
    var batch := env.script[0];
    ghost var s, before := p.state, env.done;
    BatchStarts(p, env, guarded, start);
    env.script := env.script[1..];
    ghost var later := Flat(env.script);
    assert batch[0..] == batch && Serving(p, env, batch[0..] + later, guarded, start, s, before);
    for i := 0 to |batch|
      invariant Serving(p, env, batch[i..] + later, guarded, start, s, before) && env.script == old(env.script)[1..]
    {
      NextOp(batch, i, later);
      RunOne(p, env, batch[i], batch[i + 1..] + later, guarded, start, s, before);
    }
    assert batch[|batch|..] + later == later;
    BatchEnds(p, env, guarded, start, s, before);
  }

  lemma BatchStarts(p: Partition, env: Clients, guarded: set<nat>, start: State)
    requires env.script != [] && Ready(p, env, start) && guarded <= p.state.log.Keys && p.state.active !in guarded
    ensures Serving(p, env, env.script[0] + Flat(env.script[1..]), guarded, start, p.state, env.done)
  {
    assert At(p, p.state) && Worked(p, p.state.work);
    ReadyStays(p, env, guarded, start);
  }

  lemma BatchEnds(p: Partition, env: Clients, guarded: set<nat>, start: State, s: State, before: seq<Op>)
    requires Serving(p, env, Flat(env.script), guarded, start, s, before)
    ensures Ready(p, env, start) && Undisturbed(guarded, s, p.state) && Since(s, p.state, before, env.done, start)
  {
    assert At(p, p.state);
    assert p.In(p.state);
  }

  lemma NextOp(batch: seq<Op>, i: nat, later: seq<Op>)
    requires i < |batch|
    ensures batch[i..] + later == [batch[i]] + (batch[i + 1..] + later)
  {
    assert batch[i..] == [batch[i]] + batch[i + 1..];
  }

  // ---------------------------------------------------------------- a compaction in progress

  /** What is being compacted, into what, and the state it began in. */
  datatype Job = Job(sources: set<nat>, dst: nat, before: State) {
    /** The files sealed at the start, and the new one: no client writes to them. */
    ghost function Guarded(): set<nat> { (before.log.Keys - {before.active}) + {dst} }
  }

  ghost predicate JobOk(job: Job) {
    && job.before.active in job.before.log && job.sources <= job.before.log.Keys - {job.before.active}
    && job.before.uncounted == {} && job.before.forgotten == {}
    && job.dst > job.before.top && forall id | id in job.before.log :: id <= job.before.top
  }

  /** No key points into a finished source, nor before pos in the current one. */
  ghost predicate Cleared(kd: KeyDir, gone: set<nat>, src: nat, pos: nat) {
    forall key {:trigger kd[key]} | key in kd ::
      kd[key].file !in gone && (kd[key].file == src ==> kd[key].offset >= pos)
  }

  /** A key that points into a file sealed at the start has done so since then. */
  ghost predicate Origin(b: State, s: State) {
    forall key {:trigger s.keydir[key]} | key in s.keydir && s.keydir[key].file in b.log
      && s.keydir[key].file != b.active ::
      key in b.keydir && b.keydir[key] == s.keydir[key]
  }

  /** Files, ids and hints apart from the sources being emptied. */
  ghost predicate Framed(s: State, job: Job) {
    && JobOk(job) && !s.replayable && s.active !in job.Guarded() && job.Guarded() <= s.log.Keys && job.dst <= s.top
    && job.dst !in s.hinted
    && (forall id {:trigger s.log[id]} | id in job.before.log && id != job.before.active ::
      s.log[id] == job.before.log[id])
    && (forall id {:trigger id in s.log} | id in s.log :: id in job.before.log || id > job.before.top)
    && Origin(job.before, s)
  }

  /** The slack of every file but the sources and the new one is what it was. */
  ghost predicate SlackKept(s: State, job: Job) {
    && (forall id: nat {:trigger s.slack(id)} | id <= job.before.top && id !in job.sources ::
      s.slack(id) == job.before.slack(id))
    && (forall id: nat {:trigger s.slack(id)} | id in s.log && id > job.before.top && id != job.dst ::
      s.slack(id) == NONE)
  }

  ghost predicate InProgress(s: State, job: Job, gone: set<nat>, src: nat, pos: nat) {
    && Framed(s, job) && SlackKept(s, job) && s.uncounted == {job.dst} && s.forgotten == {} && src in job.sources
    && gone <= job.sources && Cleared(s.keydir, gone, src, pos)
  }

  /** With no client in between, every copy is live and every key is where it was or in the new file. */
  ghost predicate Quiet(s: State, job: Job) {
    && job.dst in s.log && LiveBytes(s.keydir, job.dst) == LenOf(s.log[job.dst])
    && (forall key {:trigger s.keydir[key]} | key in job.before.keydir ::
      key in s.keydir && (s.keydir[key] == job.before.keydir[key] || s.keydir[key].file == job.dst))
  }

  ghost function Copied(s: State, dst: nat, e: Entry): State
    requires dst in s.log
  { s.(log := s.log[dst := s.log[dst] + [e]]) }

  ghost function PlusSlack(slack: nat -> Slack, loc: Loc): nat -> Slack {
    SetSlack(slack, loc.file, Slack(slack(loc.file).bytes + loc.size, slack(loc.file).entries + 1))
  }

  /** The key is pointed at its copy; the counters of its old file are not touched, so they have that much too much. */
  ghost function Moved(s: State, key: Data, loc: Loc): State
    requires key in s.keydir
  { s.(keydir := s.keydir[key := loc], slack := PlusSlack(s.slack, s.keydir[key])) }

  lemma SuspendKeeps(s: State, t: State, job: Job, gone: set<nat>, src: nat, pos: nat)
    requires InProgress(s, job, gone, src, pos) && Undisturbed(job.Guarded(), s, t)
    ensures InProgress(t, job, gone, src, pos)
  {
    forall key {:trigger t.keydir[key]} | key in t.keydir
      ensures t.keydir[key].file !in gone && (t.keydir[key].file == src ==> t.keydir[key].offset >= pos)
    {
      if t.keydir[key].file in job.Guarded() { assert s.keydir[key] == t.keydir[key]; }
    }
    FramedKeeps(s, t, job);
  }

  lemma FramedKeeps(s: State, t: State, job: Job)
    requires Framed(s, job) && SlackKept(s, job) && Undisturbed(job.Guarded(), s, t)
    ensures Framed(t, job) && SlackKept(t, job)
  {
    forall key {:trigger t.keydir[key]} | key in t.keydir && t.keydir[key].file in job.before.log
      && t.keydir[key].file != job.before.active
      ensures key in job.before.keydir && job.before.keydir[key] == t.keydir[key]
    {
      assert t.keydir[key].file in job.Guarded() && s.keydir[key] == t.keydir[key];
    }
    forall id | id in job.before.log && id != job.before.active ensures t.log[id] == job.before.log[id] {
      assert id in job.Guarded() && s.log[id] == job.before.log[id];
    }
  }

  lemma CopyKeeps(s: State, job: Job, gone: set<nat>, src: nat, pos: nat, e: Entry)
    requires InProgress(s, job, gone, src, pos) && Means(s) && Counts(s) && (e.key, e.value) in s.written
    ensures InProgress(Copied(s, job.dst, e), job, gone, src, pos) && Means(Copied(s, job.dst, e))
    ensures Counts(Copied(s, job.dst, e))
  {
    var t := Copied(s, job.dst, e);
    IndexedAppend(s.keydir, s.log, s.model, job.dst, e);
    WrittenAppend(s.log, s.written, job.dst, e, s.written);
    forall id | id in t.log && id !in t.uncounted && id !in t.forgotten
      ensures CountOk(t.stats, t.keydir, t.log, t.slack(id), id)
    {
      assert CountOk(s.stats, s.keydir, s.log, s.slack(id), id);
    }
  }

  /** Counters do not notice a key being repointed, but for the slack. */
  lemma MoveCounts(s: State, key: Data, loc: Loc)
    requires Counts(s) && key in s.keydir && loc.file in s.uncounted && s.forgotten == {}
    requires s.keydir[key].file != loc.file
    ensures Counts(Moved(s, key, loc))
  {
    var t := Moved(s, key, loc);
    forall id | id in t.log && id !in t.uncounted && id !in t.forgotten
      ensures CountOk(t.stats, t.keydir, t.log, t.slack(id), id)
    {
      assert CountOk(s.stats, s.keydir, s.log, s.slack(id), id);
      ReleaseExact(s.keydir, key, id);
      ChargeExact(s.keydir, key, loc, id);
    }
  }

  /** A key that still points at the record may be pointed at its copy instead: it means the same. */
  lemma MoveKeeps(s: State, job: Job, gone: set<nat>, src: nat, pos: nat, e: Entry, loc: Loc)
    requires InProgress(s, job, gone, src, pos) && Means(s)
    requires Located(s.log[src], pos, e) && e.key in s.keydir && s.keydir[e.key].file == src
    requires s.keydir[e.key].offset == pos
    requires loc.file == job.dst && loc.size == e.Size() && loc.timestamp == e.timestamp
    requires Located(s.log[job.dst], loc.offset, Entry(e.timestamp, 0, e.key, e.value))
    ensures InProgress(Moved(s, e.key, loc), job, gone, src, pos) && Means(Moved(s, e.key, loc))
  {
    MoveMeans(s, src, pos, e, loc);
  }

  lemma MoveMeans(s: State, src: nat, pos: nat, e: Entry, loc: Loc)
    requires Means(s) && src in s.log && Located(s.log[src], pos, e) && e.key in s.keydir
    requires s.keydir[e.key].file == src && s.keydir[e.key].offset == pos
    requires loc.size == e.Size() && loc.timestamp == e.timestamp && loc.file in s.log
    requires Located(s.log[loc.file], loc.offset, Entry(e.timestamp, 0, e.key, e.value))
    ensures Means(Moved(s, e.key, loc))
  {
    var was := s.keydir[e.key];
    assert e.key in s.model && Points(s.log, was, e.key, s.model[e.key]);
    LocatedOnce(s.log[src], pos, e, Entry(was.timestamp, 0, e.key, s.model[e.key]));
  }

  lemma {:induction false} LocatedHasIndex(es: seq<Entry>, offset: nat, e: Entry) returns (j: nat)
    requires Located(es, offset, e)
    ensures j < |es| && es[j] == e && offset == LenOf(es[..j])
  {
    var n := |es| - 1;
    if offset == LenOf(es[..n]) && es[n] == e {
      j := n;
    } else {
      j := LocatedHasIndex(es[..n], offset, e);
      assert es[..n][..j] == es[..j];
    }
  }

  lemma {:induction false} LenGrows(es: seq<Entry>, i: nat, j: nat)
    requires i <= j <= |es|
    ensures LenOf(es[..i]) <= LenOf(es[..j])
    decreases j - i
  {
    if i < j {
      LenGrows(es, i, j - 1);
      assert es[..j][..j - 1] == es[..j - 1];
    }
  }

  /** Past one record, the next place a record can start is right after it. */
  lemma LocatedNext(es: seq<Entry>, i: nat, offset: nat, x: Entry)
    requires i < |es| && Located(es, offset, x) && offset > LenOf(es[..i])
    ensures offset >= LenOf(es[..i + 1])
  {
    var j := LocatedHasIndex(es, offset, x);
    if j <= i { LenGrows(es, j, i); } else { LenGrows(es, i + 1, j); }
  }

  /** Once nothing points at record i, the whole file up to its end is cleared. */
  lemma AdvanceKeeps(s: State, job: Job, gone: set<nat>, src: nat, es: seq<Entry>, i: nat)
    requires Means(s) && i < |es| && src in s.log && s.log[src] == es && InProgress(s, job, gone, src, LenOf(es[..i]))
    requires !IsLive(s.keydir, es[i].key, src, LenOf(es[..i]))
    ensures InProgress(s, job, gone, src, LenOf(es[..i + 1]))
  {
    forall key {:trigger s.keydir[key]} | key in s.keydir && s.keydir[key].file == src
      ensures s.keydir[key].offset >= LenOf(es[..i + 1])
    {
      var loc := s.keydir[key];
      assert key in s.model && Points(s.log, loc, key, s.model[key]);
      var x := Entry(loc.timestamp, 0, key, s.model[key]);
      if loc.offset == LenOf(es[..i]) {
        LocatedIndex(es, i);
        LocatedOnce(es, loc.offset, x, es[i]);
        assert false;
      }
      LocatedNext(es, i, loc.offset, x);
    }
  }

  /** A copy made and its key repointed, with no client in between. */
  lemma QuietMove(s: State, job: Job, e: Entry, loc: Loc)
    requires Quiet(s, job) && e.key in s.keydir && s.keydir[e.key].file != job.dst && loc.file == job.dst
    requires loc.size == e.Size()
    ensures Quiet(Moved(Copied(s, job.dst, e), e.key, loc), job)
  {
    var dst := job.dst;
    ReleaseExact(s.keydir, e.key, dst);
    ChargeExact(s.keydir, e.key, loc, dst);
    LenSnoc(s.log[dst], e);
  }

  /** A sound partition with its clients, in the middle of a compaction. */
  ghost predicate RunAt(p: Partition, env: Clients, job: Job, gone: set<nat>, src: nat, pos: nat, copied: nat)
    reads p, p.gen, env
  {
    forall s: State {:trigger At(p, s)} | At(p, s) :: Sane(p, env) && Running(s, env.done, job, gone, src, pos, copied)
  }

  predicate IsLive(kd: KeyDir, key: Data, src: nat, pos: nat)
  {
    key in kd && kd[key].file == src && kd[key].offset == pos
  }

  /** What holds whatever clients have done. */
  ghost predicate Base(s: State, done: seq<Op>, job: Job) {
    && Means(s) && Counts(s) && Follows(job.before, s, done)
    && job.before.work <= s.work <= job.before.work + 1 + 2 * |done|
  }

  /** Everything a running compaction maintains, given what clients have done. */
  ghost predicate Running(s: State, done: seq<Op>, job: Job, gone: set<nat>, src: nat, pos: nat, copied: nat) {
    && Base(s, done, job) && InProgress(s, job, gone, src, pos)
    && copied == |s.log[job.dst]| && (done == [] ==> Quiet(s, job))
  }

  /** The record has been written to the new file, and clients may have run since state s. */
  ghost predicate Waited(t: State, done: seq<Op>, job: Job, gone: set<nat>, src: nat, pos: nat, s: State, e: Entry,
                         offset: nat) {
    var base, progress := Base(t, done, job), InProgress(t, job, gone, src, pos);
    && base && progress
    && job.dst in s.log && job.dst in t.log && t.log[job.dst] == s.log[job.dst] + [e]
    && Located(t.log[job.dst], offset, e)
    && (done == [] ==> t == Copied(s, job.dst, e))
  }

  lemma CopyThenWait(s: State, t: State, before: seq<Op>, done: seq<Op>, job: Job, gone: set<nat>, src: nat,
                     pos: nat, e: Entry)
    requires Base(s, before, job) && InProgress(s, job, gone, src, pos) && Means(t) && Counts(t)
    requires (e.key, e.value) in s.written
    requires Undisturbed(job.Guarded(), Copied(s, job.dst, e), t)
    requires Since(Copied(s, job.dst, e), t, before, done, job.before)
    ensures Waited(t, done, job, gone, src, pos, s, e, LenOf(s.log[job.dst]))
  {
    CopyKeeps(s, job, gone, src, pos, e);
    LocatedHere(s.log[job.dst], e);
    SuspendKeeps(Copied(s, job.dst, e), t, job, gone, src, pos);
  }

  lemma LocatedHere(es: seq<Entry>, e: Entry)
    ensures Located(es + [e], LenOf(es), e)
  {
    assert (es + [e])[..|es|] == es;
  }

  /** The key still points at the record: repointing it completes the step. */
  lemma SettleKept(t: State, done: seq<Op>, job: Job, gone: set<nat>, src: nat, pos: nat, s: State, e: Entry,
                   loc: Loc, n: nat)
    requires Waited(t, done, job, gone, src, pos, s, e, loc.offset) && e.flag == 0 && n == |s.log[job.dst]| + 1
    requires Located(t.log[src], pos, e) && IsLive(t.keydir, e.key, src, pos) && (done == [] ==> Quiet(s, job))
    requires loc == Loc(job.dst, loc.offset, e.Size(), e.timestamp)
    ensures Running(Moved(t, e.key, loc), done, job, gone, src, pos, n)
    ensures !IsLive(Moved(t, e.key, loc).keydir, e.key, src, pos)
  {
    MoveKeeps(t, job, gone, src, pos, e, loc);
    MoveCounts(t, e.key, loc);
    if done == [] { QuietMove(s, job, e, loc); }
  }

  /** The key points elsewhere by now: some client moved it, and the copy is left behind. */
  lemma SettleLost(t: State, done: seq<Op>, job: Job, gone: set<nat>, src: nat, pos: nat, s: State, e: Entry,
                   offset: nat, n: nat)
    requires Waited(t, done, job, gone, src, pos, s, e, offset) && n == |s.log[job.dst]| + 1
    requires IsLive(s.keydir, e.key, src, pos) && !IsLive(t.keydir, e.key, src, pos)
    ensures done != [] && Running(t, done, job, gone, src, pos, n)
  {}

  // ---------------------------------------------------------------- the compactor

  /** Write a record to the new file. */
  method CopyOut(p: Partition, env: Clients, dst: nat, e: Entry) returns (offset: nat)
    requires Sane(p, env) && dst in p.state.log && dst != p.state.active && dst !in p.state.hinted && Proper(e)
    modifies p`files, p`state
    ensures Sane(p, env) && p.state == Copied(old(p.state), dst, e)
    ensures offset == LenOf(old(p.state).log[dst])
  {
    ghost var s := p.state;
    assert Worked(p, s.work);
    offset := AppendCopy(p, dst, e);
    CopyBounded(s, dst, e);
    SaneNow(p, env);
  }

  method AppendCopy(p: Partition, dst: nat, e: Entry) returns (offset: nat)
    requires p.Backed() && dst in p.state.log && dst !in p.state.hinted && Proper(e)
    modifies p`files, p`state
    ensures p.Backed() && p.state == Copied(old(p.state), dst, e) && offset == LenOf(old(p.state).log[dst])
  {
    HintsAppend(p.hk, p.hints, p.state.hinted, p.state.log, dst, e);
    offset := p.WriteTo(dst, e);
    p.state := Copied(p.state, dst, e);
  }

  lemma CopyBounded(s: State, dst: nat, e: Entry)
    requires Bounded(s) && Fronts(s) && dst in s.log && dst != s.active
    ensures Bounded(Copied(s, dst, e)) && Fronts(Copied(s, dst, e))
  {}

  /** Point a key at the copy of its record. */
  method Repoint(p: Partition, env: Clients, key: Data, loc: Loc)
    requires Sane(p, env) && key in p.state.keydir && p.state.keydir[key].file != p.state.active
    requires loc.file != p.state.active
    modifies p`keydir, p`state
    ensures Sane(p, env) && p.state == Moved(old(p.state), key, loc)
  {
    ghost var s := p.state;
    assert Worked(p, s.work);
    SetLocation(p, key, loc);
    MoveBounded(s, key, loc);
    SaneNow(p, env);
  }

  method SetLocation(p: Partition, key: Data, loc: Loc)
    requires p.Backed() && key in p.state.keydir
    modifies p`keydir, p`state
    ensures p.Backed() && p.state == Moved(old(p.state), key, loc)
  {
    p.keydir := p.keydir[key := loc];
    p.state := Moved(p.state, key, loc);
  }

  lemma MoveBounded(s: State, key: Data, loc: Loc)
    requires Bounded(s) && Fronts(s) && key in s.keydir && s.keydir[key].file != s.active && loc.file != s.active
    ensures Bounded(Moved(s, key, loc)) && Fronts(Moved(s, key, loc))
  {
    assert InFile(s.keydir[key := loc], s.active) == InFile(s.keydir, s.active);
  }

  /** Write the copy; clients run meanwhile. */
  method WriteAndWait(p: Partition, env: Clients, src: nat, dst: nat, pos: nat, e: Entry, ghost job: Job,
                      ghost gone: set<nat>)
    returns (offset: nat)
    requires Sane(p, env) && Base(p.state, env.done, job) && InProgress(p.state, job, gone, src, pos) && dst == job.dst
    requires Proper(e)
    requires (e.key, e.value) in p.state.written
    modifies p, p.gen, env
    ensures Sane(p, env) && Waited(p.state, env.done, job, gone, src, pos, old(p.state), e, offset)
    ensures |old(env.done)| <= |env.done|
  {
    ghost var s, before := p.state, env.done;
    offset := CopyOut(p, env, dst, e);
    CopyKeeps(s, job, gone, src, pos, e);
    GetReady(p, env, job);
    Suspend(p, env, job.Guarded(), job.before);
    IsReady(p, env, job.before);
    CopyThenWait(s, p.state, before, env.done, job, gone, src, pos, e);
  }

  /** A partition in the middle of a compaction is ready for clients. */
  lemma GetReady(p: Partition, env: Clients, job: Job)
    requires Sane(p, env) && Base(p.state, env.done, job) && !p.state.replayable
    ensures Ready(p, env, job.before)
  {
    assert Worked(p, p.state.work);
    p.Folded();
  }

  lemma IsReady(p: Partition, env: Clients, start: State)
    requires Ready(p, env, start)
    ensures Sane(p, env) && Means(p.state) && Counts(p.state) && Follows(start, p.state, env.done)
  {
    assert At(p, p.state) && p.In(p.state);
  }

  /** Copy a live record; then, if the key still points at it, repoint the key. */
  method CopyLive(p: Partition, env: Clients, src: nat, dst: nat, pos: nat, e: Entry, ghost job: Job,
                  ghost gone: set<nat>, copied: nat) returns (n: nat)
    requires RunAt(p, env, job, gone, src, pos, copied) && dst == job.dst && Fits(e)
    requires src in p.state.log && Located(p.state.log[src], pos, e) && IsLive(p.keydir, e.key, src, pos) && e.flag == 0
    requires (e.key, e.value) in p.state.written
    modifies p, p.gen, env
    ensures n == copied + 1 && RunAt(p, env, job, gone, src, pos, n) && !IsLive(p.state.keydir, e.key, src, pos)
  {
    ghost var s := p.state;
    assert At(p, s);
    TiedIndex(p, env);
    n := copied + 1;
    var offset := WriteAndWait(p, env, src, dst, pos, e, job, gone);
    TiedIndex(p, env);
    if IsLive(p.keydir, e.key, src, pos) {
      var loc := Loc(dst, offset, e.Size(), e.timestamp);
      SettleKept(p.state, env.done, job, gone, src, pos, s, e, loc, n);
      Settle(p, env, e.key, loc, job, gone, src, pos, n);
    } else {
      SettleLost(p.state, env.done, job, gone, src, pos, s, e, offset, n);
    }
  }

  lemma TiedIndex(p: Partition, env: Clients)
    requires Sane(p, env)
    ensures p.keydir == p.state.keydir
  {
    assert Worked(p, p.state.work);
  }

  /** Repoint a key when that completes the step. */
  method Settle(p: Partition, env: Clients, key: Data, loc: Loc, ghost job: Job, ghost gone: set<nat>,
                ghost src: nat, ghost pos: nat, ghost n: nat)
    requires Sane(p, env) && key in p.state.keydir && p.state.keydir[key].file != p.state.active
    requires loc.file != p.state.active
    requires Running(Moved(p.state, key, loc), env.done, job, gone, src, pos, n)
    modifies p`keydir, p`state
    ensures RunAt(p, env, job, gone, src, pos, n) && p.state == Moved(old(p.state), key, loc)
  {
    Repoint(p, env, key, loc);
  }

  /** One record of a source file. */
  method ProcessEntry(p: Partition, env: Clients, src: nat, dst: nat, pos: nat, e: Entry, copied: nat,
                      ghost job: Job, ghost gone: set<nat>, ghost es: seq<Entry>, ghost i: nat) returns (n: nat)
    requires src in job.before.log && es == job.before.log[src] && i < |es| && e == es[i] && pos == LenOf(es[..i])
    requires Fits(e)
    requires RunAt(p, env, job, gone, src, pos, copied) && dst == job.dst
    modifies p, p.gen, env
    ensures RunAt(p, env, job, gone, src, LenOf(es[..i + 1]), n)
  {
    n := copied;
    TiedIndexAt(p, env, job, gone, src, pos, copied);
    if IsLive(p.keydir, e.key, src, pos) {
      LiveIsPutAt(p, env, job, gone, src, pos, copied, es, i);
      var out := Entry(e.timestamp, 0, e.key, e.value);
      n := CopyLive(p, env, src, dst, pos, out, job, gone, copied);
    }
    assert At(p, p.state);
    AdvanceRunning(p.state, env.done, job, gone, src, es, i, n);
  }

  lemma TiedIndexAt(p: Partition, env: Clients, job: Job, gone: set<nat>, src: nat, pos: nat, copied: nat)
    requires RunAt(p, env, job, gone, src, pos, copied)
    ensures p.keydir == p.state.keydir
  {
    assert At(p, p.state);
    TiedIndex(p, env);
  }

  lemma LiveIsPutAt(p: Partition, env: Clients, job: Job, gone: set<nat>, src: nat, pos: nat, copied: nat,
                    es: seq<Entry>, i: nat)
    requires src in job.before.log && es == job.before.log[src] && i < |es| && pos == LenOf(es[..i])
    requires RunAt(p, env, job, gone, src, pos, copied) && IsLive(p.state.keydir, es[i].key, src, pos)
    ensures src in p.state.log && Located(p.state.log[src], pos, es[i]) && es[i].flag == 0
    ensures (es[i].key, es[i].value) in p.state.written
  {
    assert At(p, p.state);
    LocatedIndex(es, i);
    LiveIsPut(p.state, src, pos, es[i]);
  }

  lemma AdvanceRunning(s: State, done: seq<Op>, job: Job, gone: set<nat>, src: nat, es: seq<Entry>, i: nat, n: nat)
    requires i < |es| && src in job.before.log && es == job.before.log[src]
    requires Running(s, done, job, gone, src, LenOf(es[..i]), n)
    requires !IsLive(s.keydir, es[i].key, src, LenOf(es[..i]))
    ensures Running(s, done, job, gone, src, LenOf(es[..i + 1]), n)
  {
    AdvanceKeeps(s, job, gone, src, es, i);
  }

  /** What the index points at is never a tombstone. */
  lemma LiveIsPut(s: State, src: nat, pos: nat, e: Entry)
    requires Means(s) && src in s.log && Located(s.log[src], pos, e) && IsLive(s.keydir, e.key, src, pos)
    ensures e.flag == 0 && (e.key, e.value) in s.written
  {
    var loc := s.keydir[e.key];
    assert e.key in s.model && Points(s.log, loc, e.key, s.model[e.key]);
    LocatedOnce(s.log[src], pos, e, Entry(loc.timestamp, 0, e.key, s.model[e.key]));
    assert AllWritten(s.log[src], s.written);
    LocatedWritten(s.log[src], pos, e, s.written);
  }

  /** What the buffer holds when the scan stands at record i and the file has been read up to got. */
  lemma PeekAt(k: Codec, image: Image, es: seq<Entry>, i: nat, got: nat)
    requires Imaged(k, image) && AllFit(es) && i <= |es| && LenOf(es[..i]) <= got <= |image(es)|
    ensures |image(es)| == LenOf(es)
    ensures i == |es| ==> LenOf(es[..i]) == got
    ensures i < |es| ==> LenOf(es[..i + 1]) == LenOf(es[..i]) + es[i].Size()
    ensures i < |es| ==>
            k.peek(image(es)[LenOf(es[..i])..got]) == if LenOf(es[..i + 1]) <= got then Ok(es[i]) else NeedMore
  {
    assert image(es) == BytesOf(k, es);
    if i == |es| {
      assert es[..i] == es;
    } else {
      LocatedIndex(es, i);
      BytesAt(k, es, LenOf(es[..i]), es[i]);
      assert es[..i + 1][..i] == es[..i];
      PeekIn(k, image(es), LenOf(es[..i]), es[i], got);
    }
  }

  lemma PeekIn(k: Codec, d: Data, pos: nat, e: Entry, got: nat)
    requires Lawful(k) && Fits(e) && pos <= got <= |d| && pos + e.Size() <= |d| && d[pos..pos + e.Size()] == k.write(e)
    ensures k.peek(d[pos..got]) == if pos + e.Size() <= got then Ok(e) else NeedMore
  {
    var w, end := k.write(e), pos + e.Size();
    if end <= got {
      Adjacent(d, pos, end, got);
      assert k.peek(w + d[end..got]) == Ok(e);
    } else {
      SubSlice(d, pos, end, 0, got - pos);
      assert k.peek(w[..got - pos]) == NeedMore;
    }
  }

  /** The buffer of a scan standing at record i. */
  ghost predicate Buffered(image: Image, es: seq<Entry>, i: nat, got: nat, buffer: Data) {
    i <= |es| && LenOf(es[..i]) <= got <= |image(es)| && buffer == image(es)[LenOf(es[..i])..got]
  }

  /** The scan of a source, read up to got: it stands at record i, and the buffer holds what follows. */
  ghost predicate Scanning(image: Image, s: State, done: seq<Op>, job: Job, gone: set<nat>, src: nat, i: nat,
                           got: nat, buffer: Data, n: nat) {
    && src in job.before.log && i <= |job.before.log[src]|
    && var es := job.before.log[src];
       var fit, buffered, running := AllFit(es), Buffered(image, es, i, got, buffer),
         Running(s, done, job, gone, src, LenOf(es[..i]), n);
       fit && buffered && running
  }

  ghost predicate ScanAt(p: Partition, env: Clients, job: Job, gone: set<nat>, src: nat, i: nat, got: nat,
                         buffer: Data, n: nat)
    reads p, p.gen, env
  {
    forall s: State {:trigger At(p, s)} | At(p, s) ::
      Sane(p, env) && Scanning(p.image, s, env.done, job, gone, src, i, got, buffer, n)
  }

  /** A scan is a compaction standing at a record. */
  lemma ScanOpens(p: Partition, env: Clients, job: Job, gone: set<nat>, src: nat, i: nat, got: nat, buffer: Data,
                  n: nat)
    requires ScanAt(p, env, job, gone, src, i, got, buffer, n)
    ensures src in job.before.log && i <= |job.before.log[src]| && AllFit(job.before.log[src])
    ensures Buffered(p.image, job.before.log[src], i, got, buffer)
    ensures RunAt(p, env, job, gone, src, LenOf(job.before.log[src][..i]), n)
  {
    assert At(p, p.state);
  }

  lemma ScanCloses(p: Partition, env: Clients, job: Job, gone: set<nat>, src: nat, i: nat, got: nat, buffer: Data,
                   n: nat)
    requires src in job.before.log && i <= |job.before.log[src]| && AllFit(job.before.log[src])
    requires Buffered(p.image, job.before.log[src], i, got, buffer)
    requires RunAt(p, env, job, gone, src, LenOf(job.before.log[src][..i]), n)
    ensures ScanAt(p, env, job, gone, src, i, got, buffer, n)
  {
    assert At(p, p.state);
  }

  /** Record i, if there is one, is not yet complete in the buffer. */
  ghost predicate Short(job: Job, src: nat, i: nat, got: nat) {
    src in job.before.log && i < |job.before.log[src]| ==> LenOf(job.before.log[src][..i + 1]) > got
  }

  lemma PeekScan(p: Partition, env: Clients, job: Job, gone: set<nat>, src: nat, i: nat, got: nat, buffer: Data, n: nat)
    requires ScanAt(p, env, job, gone, src, i, got, buffer, n)
    ensures |buffer| < HEADER || p.k.peek(buffer).NeedMore? ==> Short(job, src, i, got)
    ensures |buffer| >= HEADER && !p.k.peek(buffer).NeedMore? ==>
              && src in job.before.log && i < |job.before.log[src]| && p.k.peek(buffer) == Ok(job.before.log[src][i])
              && LenOf(job.before.log[src][..i + 1]) <= got
  {
    assert At(p, p.state) && Worked(p, p.state.work);
    PeekAt(p.k, p.image, job.before.log[src], i, got);
  }

  /** The complete record at the front of the buffer. */
  method ProcessNext(p: Partition, env: Clients, src: nat, dst: nat, buffer: Data, got: nat, e: Entry, copied: nat,
                     ghost job: Job, ghost gone: set<nat>, ghost i: nat) returns (rest: Data, n: nat)
    requires ScanAt(p, env, job, gone, src, i, got, buffer, copied) && dst == job.dst
    requires src in job.before.log && i < |job.before.log[src]| && e == job.before.log[src][i]
    requires LenOf(job.before.log[src][..i + 1]) <= got
    modifies p, p.gen, env
    ensures ScanAt(p, env, job, gone, src, i + 1, got, rest, n) && |rest| < |buffer|
  {
    ghost var es := job.before.log[src];
    ScanOpens(p, env, job, gone, src, i, got, buffer, copied);
    NextRecord(p.image(es), es, i, got);
    n := ProcessEntry(p, env, src, dst, got - |buffer|, e, copied, job, gone, es, i);
    rest := buffer[e.Size()..];
    ScanCloses(p, env, job, gone, src, i + 1, got, rest, n);
  }

  lemma NextRecord(d: Data, es: seq<Entry>, i: nat, got: nat)
    requires i < |es| && LenOf(es[..i + 1]) <= got <= |d|
    ensures LenOf(es[..i + 1]) == LenOf(es[..i]) + es[i].Size()
    ensures d[LenOf(es[..i])..got][es[i].Size()..] == d[LenOf(es[..i + 1])..got]
  {
    assert es[..i + 1][..i] == es[..i];
  }

  /** ProcessBufferEntries: the complete records in the buffer, which ends at file position got. */
  method ProcessBufferEntries(p: Partition, env: Clients, src: nat, dst: nat, buffer: Data, got: nat, copied: nat,
                              ghost job: Job, ghost gone: set<nat>, ghost i0: nat)
    returns (rest: Data, n: nat, ghost i: nat)
    requires ScanAt(p, env, job, gone, src, i0, got, buffer, copied) && dst == job.dst
    modifies p, p.gen, env
    ensures ScanAt(p, env, job, gone, src, i, got, rest, n) && Short(job, src, i, got)
  {
    rest, n, i := buffer, copied, i0;
    while true
      invariant ScanAt(p, env, job, gone, src, i, got, rest, n)
      decreases |rest|
    {
      PeekScan(p, env, job, gone, src, i, got, rest, n);
      if |rest| < HEADER { return; }
      var read := p.k.peek(rest);
      if read.NeedMore? { return; }
      rest, n := ProcessNext(p, env, src, dst, rest, got, read.entry, n, job, gone, i);
      i := i + 1;
    }
  }

  /** A suspension of the compactor between two of its steps. */
  method Pause(p: Partition, env: Clients, src: nat, ghost job: Job, ghost gone: set<nat>, ghost pos: nat,
               ghost copied: nat)
    requires RunAt(p, env, job, gone, src, pos, copied)
    modifies p, p.gen, env
    ensures RunAt(p, env, job, gone, src, pos, copied)
  {
    ghost var s, before := p.state, env.done;
    assert At(p, s);
    GetReady(p, env, job);
    Suspend(p, env, job.Guarded(), job.before);
    IsReady(p, env, job.before);
    PauseKeeps(s, p.state, before, env.done, job, gone, src, pos, copied);
  }

  lemma PauseKeeps(s: State, t: State, before: seq<Op>, done: seq<Op>, job: Job, gone: set<nat>, src: nat,
                   pos: nat, copied: nat)
    requires Running(s, before, job, gone, src, pos, copied) && Means(t) && Counts(t)
    requires Undisturbed(job.Guarded(), s, t) && Since(s, t, before, done, job.before)
    ensures Running(t, done, job, gone, src, pos, copied)
  {
    SuspendKeeps(s, t, job, gone, src, pos);
  }

  /** At the end of a file nothing points into it any more. */
  lemma FinishSource(s: State, done: seq<Op>, job: Job, gone: set<nat>, src: nat, es: seq<Entry>, n: nat)
    requires src in job.before.log && es == job.before.log[src] && Running(s, done, job, gone, src, LenOf(es), n)
    ensures Running(s, done, job, gone + {src}, src, 0, n)
  {
    forall key {:trigger s.keydir[key]} | key in s.keydir ensures s.keydir[key].file != src {
      if s.keydir[key].file == src {
        assert key in s.model && Points(s.log, s.keydir[key], key, s.model[key]);
        LocatedBound(es, s.keydir[key].offset, Entry(s.keydir[key].timestamp, 0, key, s.model[key]));
      }
    }
  }

  lemma NextSource(p: Partition, env: Clients, job: Job, gone: set<nat>, src: nat, next: nat, n: nat)
    requires RunAt(p, env, job, gone, src, 0, n) && next in job.sources
    ensures RunAt(p, env, job, gone, next, 0, n)
  {
    assert At(p, p.state);
  }

  /** A source file has been as it is since the compaction began. */
  lemma SourceBytes(p: Partition, env: Clients, job: Job, gone: set<nat>, src: nat, pos: nat, copied: nat)
    requires RunAt(p, env, job, gone, src, pos, copied)
    ensures src in p.files && src in job.before.log && AllFit(job.before.log[src])
    ensures p.files[src] == p.image(job.before.log[src]) && |p.files[src]| == LenOf(job.before.log[src])
  {
    assert At(p, p.state) && Worked(p, p.state.work);
    var es := job.before.log[src];
    assert p.files[src] == p.image(p.state.log[src]);
    assert p.image(es) == BytesOf(p.k, es);
  }

  /** One read: more bytes into the buffer, clients running meanwhile, then the complete records out of it. */
  method CompactChunk(p: Partition, env: Clients, src: nat, dst: nat, buffer: Data, got: nat, end: nat, copied: nat,
                      ghost job: Job, ghost gone: set<nat>, ghost i0: nat) returns (rest: Data, n: nat, ghost i: nat)
    requires ScanAt(p, env, job, gone, src, i0, got, buffer, copied)
    requires dst == job.dst && src in job.before.log && got <= end <= |p.image(job.before.log[src])|
    modifies p, p.gen, env
    ensures ScanAt(p, env, job, gone, src, i, end, rest, n) && Short(job, src, i, end)
  {
    ghost var es := job.before.log[src];
    ScanOpens(p, env, job, gone, src, i0, got, buffer, copied);
    var chunk := ReadChunk(p, env, src, got, end, copied, job, gone, LenOf(es[..i0]));
    MoreBuffered(p.image, es, i0, got, end, buffer);
    ScanCloses(p, env, job, gone, src, i0, end, buffer + chunk, copied);
    rest, n, i := ProcessBufferEntries(p, env, src, dst, buffer + chunk, end, copied, job, gone, i0);
  }

  lemma MoreBuffered(image: Image, es: seq<Entry>, i: nat, got: nat, end: nat, buffer: Data)
    requires Buffered(image, es, i, got, buffer) && got <= end <= |image(es)|
    ensures Buffered(image, es, i, end, buffer + image(es)[got..end])
  {
    Adjacent(image(es), LenOf(es[..i]), got, end);
  }

  /** AsyncReadAt on a source file: clients run meanwhile, but what is read has not changed since the start. */
  method ReadChunk(p: Partition, env: Clients, src: nat, got: nat, end: nat, ghost copied: nat, ghost job: Job,
                   ghost gone: set<nat>, ghost pos: nat)
    returns (chunk: Data)
    requires RunAt(p, env, job, gone, src, pos, copied)
    requires src in job.before.log && got <= end <= |p.image(job.before.log[src])|
    modifies p, p.gen, env
    ensures RunAt(p, env, job, gone, src, pos, copied)
    ensures chunk == p.image(job.before.log[src])[got..end] && AllFit(job.before.log[src])
  {
    Pause(p, env, src, job, gone, pos, copied);
    SourceBytes(p, env, job, gone, src, pos, copied);
    chunk := p.files[src][got..end];
  }

  /** CompactSingleFile: one source, read in any number of pieces. */
  method CompactSingleFile(p: Partition, env: Clients, src: nat, dst: nat, readSize: Reads, copied: nat,
                           ghost job: Job, ghost gone: set<nat>)
    returns (n: nat)
    requires RunAt(p, env, job, gone, src, 0, copied) && dst == job.dst && forall x :: readSize(x) > 0
    modifies p, p.gen, env
    ensures RunAt(p, env, job, gone + {src}, src, 0, n)
  {
    Pause(p, env, src, job, gone, 0, copied);
    SourceBytes(p, env, job, gone, src, 0, copied);
    StartScan(p, env, job, gone, src, copied);
    var size := |p.files[src]|;
    var rest;
    ghost var i;
    rest, n, i := CompactChunks(p, env, src, dst, size, readSize, copied, job, gone);
    EndScan(p, env, job, gone, src, i, size, rest, n);
  }

  method CompactChunks(p: Partition, env: Clients, src: nat, dst: nat, size: nat, readSize: Reads, copied: nat,
                       ghost job: Job, ghost gone: set<nat>) returns (rest: Data, n: nat, ghost i: nat)
    requires src in job.before.log && dst == job.dst && size == |p.image(job.before.log[src])|
    requires forall x :: readSize(x) > 0
    requires ScanAt(p, env, job, gone, src, 0, 0, [], copied) && Short(job, src, 0, 0)
    modifies p, p.gen, env
    ensures ScanAt(p, env, job, gone, src, i, size, rest, n) && Short(job, src, i, size)
  {
    var got: nat := 0;
    rest, n, i := [], copied, 0;
    while got < size
      invariant got <= size && ScanAt(p, env, job, gone, src, i, got, rest, n) && Short(job, src, i, got)
      decreases size - got
    {
      var end := if readSize(got) <= size - got then got + readSize(got) else size;
      rest, n, i := CompactChunk(p, env, src, dst, rest, got, end, n, job, gone, i);
      got := end;
    }
  }

  lemma StartScan(p: Partition, env: Clients, job: Job, gone: set<nat>, src: nat, n: nat)
    requires RunAt(p, env, job, gone, src, 0, n)
    ensures ScanAt(p, env, job, gone, src, 0, 0, [], n) && Short(job, src, 0, 0)
  {
    SourceBytes(p, env, job, gone, src, 0, n);
    StartOfFile(job.before.log[src]);
    ScanCloses(p, env, job, gone, src, 0, 0, [], n);
  }

  lemma EndScan(p: Partition, env: Clients, job: Job, gone: set<nat>, src: nat, i: nat, got: nat, buffer: Data, n: nat)
    requires ScanAt(p, env, job, gone, src, i, got, buffer, n) && Short(job, src, i, got)
    requires src in job.before.log && got == LenOf(job.before.log[src])
    ensures RunAt(p, env, job, gone + {src}, src, 0, n)
  {
    ScanOpens(p, env, job, gone, src, i, got, buffer, n);
    EndOfFile(job.before.log[src], i, got);
    assert At(p, p.state);
    FinishSource(p.state, env.done, job, gone, src, job.before.log[src], n);
  }

  lemma StartOfFile(es: seq<Entry>)
    ensures LenOf(es[..0]) == 0 && (es != [] ==> LenOf(es[..1]) > 0)
  {
    if es != [] { assert es[..1][..0] == []; }
  }

  lemma EndOfFile(es: seq<Entry>, i: nat, got: nat)
    requires i <= |es| && got == LenOf(es) && (i < |es| ==> LenOf(es[..i + 1]) > got)
    ensures es[..i] == es
  {
    assert es[..|es|] == es;
    if i < |es| { LenGrows(es, i + 1, |es|); }
  }

  lemma ElementsNext(s: seq<nat>, i: nat)
    requires i < |s|
    ensures Elements(s[..i + 1]) == Elements(s[..i]) + {s[i]} && s[i] in Elements(s) && s[0] in Elements(s)
  {
    assert s[..i + 1] == s[..i] + [s[i]];
  }

  /** The next source, in turn. */
  method CompactNext(p: Partition, env: Clients, sources: seq<nat>, i: nat, dst: nat, readSize: Reads, copied: nat,
                     ghost job: Job) returns (n: nat)
    requires i < |sources| && job.sources == Elements(sources) && dst == job.dst && forall x :: readSize(x) > 0
    requires RunAt(p, env, job, Elements(sources[..i]), sources[0], 0, copied)
    modifies p, p.gen, env
    ensures RunAt(p, env, job, Elements(sources[..i + 1]), sources[0], 0, n)
  {
    ElementsNext(sources, i);
    NextSource(p, env, job, Elements(sources[..i]), sources[0], sources[i], copied);
    n := CompactSingleFile(p, env, sources[i], dst, readSize, copied, job, Elements(sources[..i]));
    NextSource(p, env, job, Elements(sources[..i + 1]), sources[i], sources[0], n);
  }

  ghost predicate Unreferenced(s: State, ids: set<nat>) {
    forall key {:trigger s.keydir[key]} | key in s.keydir :: s.keydir[key].file !in ids
  }

  /** CompactFiles over all sources: at the end no key points into any of them. */
  method CompactFiles(p: Partition, env: Clients, sources: seq<nat>, dst: nat, readSize: Reads, ghost job: Job)
    returns (n: nat)
    requires sources != [] && job.sources == Elements(sources) && dst == job.dst && forall x :: readSize(x) > 0
    requires RunAt(p, env, job, {}, sources[0], 0, 0)
    modifies p, p.gen, env
    ensures RunAt(p, env, job, job.sources, sources[0], 0, n) && Unreferenced(p.state, job.sources)
  {
    n := 0;
    assert Elements(sources[..0]) == {};
    for i := 0 to |sources|
      invariant RunAt(p, env, job, Elements(sources[..i]), sources[0], 0, n)
    {
      n := CompactNext(p, env, sources, i, dst, readSize, n, job);
    }
    assert sources[..|sources|] == sources;
    assert At(p, p.state);
  }

  // ---------------------------------------------------------------- the whole compaction

  /** The state once the new file exists and its id is taken. */
  ghost function Begun(s: State, dst: nat): State {
    s.(log := s.log[dst := []], replayable := false, uncounted := s.uncounted + {dst}, top := dst, work := s.work + 1)
  }

  lemma BeginMeans(s: State, dst: nat)
    requires Means(s) && Counts(s) && dst !in s.log
    ensures Means(Begun(s, dst)) && Counts(Begun(s, dst))
  {
    var t := Begun(s, dst);
    forall key | key in t.keydir && key in t.model ensures Points(t.log, t.keydir[key], key, t.model[key]) {
      assert Points(s.log, s.keydir[key], key, s.model[key]);
    }
    WrittenNew(s.log, s.written, dst);
    forall id | id in t.log && id !in t.uncounted && id !in t.forgotten
      ensures CountOk(t.stats, t.keydir, t.log, t.slack(id), id)
    {
      assert CountOk(s.stats, s.keydir, s.log, s.slack(id), id);
    }
  }

  lemma BeginRunning(s: State, sources: set<nat>, dst: nat, src: nat)
    requires Means(s) && Counts(s) && Bounded(s) && dst > s.top && sources <= s.log.Keys - {s.active} && src in sources
    requires s.uncounted == {} && s.forgotten == {}
    ensures Running(Begun(s, dst), [], Job(sources, dst, s), {}, src, 0, 0)
  {
    var t := Begun(s, dst);
    BeginMeans(s, dst);
    AllIndexed(s.keydir, s.log, s.model);
    SumZero(s.keydir, BytesIn(dst));
    assert Effects(s.model, []) == s.model;
  }

  lemma BeginBounded(s: State, dst: nat)
    requires Bounded(s) && Fronts(s) && dst > s.top
    ensures Bounded(Begun(s, dst)) && Fronts(Begun(s, dst))
  {}

  /** Open the new file. */
  method Begin(p: Partition, now: nat) returns (dst: nat)
    requires p.Sound() && now < TIME_LIMIT && !p.gen.Exhausted(now)
    modifies p, p.gen
    ensures p.Sound() && dst > old(p.state.top) && p.state == Begun(old(p.state), dst)
    ensures p.gen.lastTimestamp == Latest(old(p.gen.lastTimestamp), now)
  {
    ghost var s := p.state;
    dst := OpenNew(p, now);
    BeginBounded(s, dst);
  }

  method OpenNew(p: Partition, now: nat) returns (dst: nat)
    requires p.Backed() && Topped(p.state) && now < TIME_LIMIT && !p.gen.Exhausted(now)
    modifies p, p.gen
    ensures p.Backed() && dst > old(p.state.top) && p.state == Begun(old(p.state), dst)
    ensures p.gen.lastTimestamp == Latest(old(p.gen.lastTimestamp), now)
  {
    dst := p.NewId(now);
    StoredNew(p.k, p.image, p.files, p.state.log, dst);
    HintsNew(p.hk, p.hints, p.state.hinted, p.state.log, dst);
    p.files := p.files[dst := []];
    p.state := Begun(p.state, dst);
  }

  method BeginFor(p: Partition, env: Clients, now: nat) returns (dst: nat)
    requires Sane(p, env) && now < TIME_LIMIT && !p.gen.Exhausted(now) && now <= env.clock
    modifies p, p.gen
    ensures Sane(p, env) && dst > old(p.state.top) && p.state == Begun(old(p.state), dst)
  {
    ghost var work := p.state.work;
    assert Worked(p, work);
    dst := Begin(p, now);
    ClockOnward(env.clock, env.trace);
    FairWider(env.trace, env.clock, work, p.state.work);
  }

  /** What the new file's counters have too much once they are written: the copies that have lost their key. */
  ghost function Dead(s: State, dst: nat): Slack
    requires dst in s.log
  {
    var bytes, entries := LenOf(s.log[dst]) - LiveBytes(s.keydir, dst), |s.log[dst]| - LiveEntries(s.keydir, dst);
    Slack(if bytes >= 0 then bytes else 0, if entries >= 0 then entries else 0)
  }

  /** The new file's counters: all of it counts as live. */
  ghost function Totalled(s: State, dst: nat): State
    requires dst in s.log
  {
    s.(stats := s.stats[dst := FileStats(LenOf(s.log[dst]), LenOf(s.log[dst]), |s.log[dst]|)],
       uncounted := s.uncounted - {dst}, slack := SetSlack(s.slack, dst, Dead(s, dst)))
  }

  /**
   The counters are exact for the new file exactly when no record copied to it had lost its key when
   they were written.
   */
  lemma TotalledCounts(s: State, dst: nat)
    requires Means(s) && Counts(s) && dst in s.log && s.uncounted == {dst} && s.forgotten == {}
    ensures Counts(Totalled(s, dst)) && (Dead(s, dst) == NONE <==> AllLive(s.keydir, dst, s.log[dst]))
    ensures LiveBytes(s.keydir, dst) == LenOf(s.log[dst]) ==> Dead(s, dst) == NONE
  {
    var t := Totalled(s, dst);
    IndexedIn(s.keydir, s.log, s.model, dst);
    LiveFull(s.keydir, dst, s.log[dst], s.model);
    forall id | id in t.log && id !in t.uncounted && id !in t.forgotten
      ensures CountOk(t.stats, t.keydir, t.log, t.slack(id), id)
    {
      if id != dst { assert CountOk(s.stats, s.keydir, s.log, s.slack(id), id); }
    }
  }

  lemma TotalledBounded(s: State, dst: nat)
    requires Bounded(s) && Fronts(s) && dst in s.log
    ensures Bounded(Totalled(s, dst)) && Fronts(Totalled(s, dst))
  {}

  method RecordTotals(p: Partition, env: Clients, dst: nat, n: nat)
    requires Sane(p, env) && dst in p.state.log && n == |p.state.log[dst]|
    modifies p`stats, p`state
    ensures Sane(p, env) && p.state == Totalled(old(p.state), dst)
  {
    ghost var s := p.state;
    assert Worked(p, s.work);
    SetTotals(p, dst, n);
    TotalledBounded(s, dst);
    SaneNow(p, env);
  }

  method SetTotals(p: Partition, dst: nat, n: nat)
    requires p.Backed() && dst in p.state.log && n == |p.state.log[dst]|
    modifies p`stats, p`state
    ensures p.Backed() && p.state == Totalled(old(p.state), dst)
  {
    StoredSize(p.k, p.image, p.files, p.state.log, dst);
    p.stats := p.stats[dst := FileStats(|p.files[dst]|, |p.files[dst]|, n)];
    p.state := Totalled(p.state, dst);
  }

  // ---------------------------------------------------------------- removing the sources

  /** The counters of a file nothing points to any more are erased. */
  ghost function Forgotten(s: State, src: nat): State { s.(stats := s.stats - {src}, forgotten := s.forgotten + {src}) }

  /** The file and its hint file are gone. */
  ghost function Removed(s: State, src: nat): State {
    s.(log := s.log - {src}, hinted := s.hinted - {src}, forgotten := s.forgotten - {src})
  }

  /** What clients must not touch while the sources in `left` are still there. */
  ghost function Kept(job: Job, left: set<nat>): set<nat> { job.Guarded() - (job.sources - left) }

  /** The copies are made and counted, and the sources not in `left` are gone. */
  ghost predicate Removing(s: State, job: Job, left: set<nat>, totals: State) {
    && JobOk(job) && !s.replayable && left <= job.sources && s.active !in job.Guarded() && Kept(job, left) <= s.log.Keys
    && job.before.top <= s.top && job.dst in totals.log && job.dst in s.log && s.log[job.dst] == totals.log[job.dst]
    && s.slack(job.dst) == Dead(totals, job.dst) && job.dst <= s.top && SlackKept(s, job)
    && (forall id | id in job.sources && id !in left :: id !in s.log)
    && (forall id {:trigger id in s.log} | id in s.log :: id in job.before.log || id > job.before.top)
    && Unreferenced(s, job.sources) && Origin(job.before, s)
  }

  lemma ForgetCounts(s: State, src: nat)
    requires Counts(s) && s.active != src && Unreferenced(s, {src})
    ensures Counts(Forgotten(s, src))
  {
    var t := Forgotten(s, src);
    forall id | id in t.uncounted && id != src ensures Stat(t.stats, id) == Stat(s.stats, id) {}
    forall id | id in t.log && id !in t.uncounted && id !in t.forgotten
      ensures CountOk(t.stats, t.keydir, t.log, t.slack(id), id)
    {
      assert CountOk(s.stats, s.keydir, s.log, s.slack(id), id);
    }
  }

  lemma ForgetKeeps(s: State, job: Job, left: set<nat>, totals: State, src: nat)
    requires Removing(s, job, left, totals) && src in left && Means(s) && Counts(s)
    ensures Removing(Forgotten(s, src), job, left, totals) && Means(Forgotten(s, src)) && Counts(Forgotten(s, src))
  {
    ForgetCounts(s, src);
  }

  lemma WaitKeeps(s: State, t: State, before: seq<Op>, done: seq<Op>, job: Job, left: set<nat>, totals: State)
    requires Base(s, before, job) && Removing(s, job, left, totals) && Means(t) && Counts(t)
    requires Undisturbed(Kept(job, left), s, t) && Since(s, t, before, done, job.before)
    ensures Base(t, done, job) && Removing(t, job, left, totals)
  {
    AllIndexed(t.keydir, t.log, t.model);
    forall id | id in job.sources && id !in left ensures id !in t.log { assert id <= job.before.top; }
    forall key {:trigger t.keydir[key]} | key in t.keydir && t.keydir[key].file in job.before.log
      && t.keydir[key].file != job.before.active
      ensures key in job.before.keydir && job.before.keydir[key] == t.keydir[key] && t.keydir[key].file !in job.sources
    {
      assert t.keydir[key].file in Kept(job, left);
      assert s.keydir[key] == t.keydir[key];
    }
  }

  lemma RemoveKeeps(s: State, job: Job, left: set<nat>, totals: State, src: nat)
    requires Removing(s, job, left, totals) && src in left && Means(s) && Counts(s) && s.uncounted == {}
    requires src in s.forgotten
    ensures Removing(Removed(s, src), job, left - {src}, totals) && Means(Removed(s, src)) && Counts(Removed(s, src))
  {
    RemoveMeans(s, src);
    RemoveCounts(s, src);
  }

  lemma RemoveMeans(s: State, src: nat)
    requires Means(s) && src != s.active && Unreferenced(s, {src})
    ensures Means(Removed(s, src))
  {
    var t := Removed(s, src);
    forall key | key in t.keydir && key in t.model ensures Points(t.log, t.keydir[key], key, t.model[key]) {
      assert Points(s.log, s.keydir[key], key, s.model[key]);
    }
    forall id | id in t.log ensures AllWritten(t.log[id], t.written) { assert AllWritten(s.log[id], s.written); }
  }

  lemma RemoveCounts(s: State, src: nat)
    requires Counts(s) && src in s.forgotten
    ensures Counts(Removed(s, src))
  {
    var t := Removed(s, src);
    forall id | id in t.log && id !in t.uncounted && id !in t.forgotten
      ensures CountOk(t.stats, t.keydir, t.log, t.slack(id), id)
    {
      assert CountOk(s.stats, s.keydir, s.log, s.slack(id), id);
    }
  }

  /** The files and counters of sources the compaction is done with. */
  method ForgetStats(p: Partition, env: Clients, src: nat)
    requires Sane(p, env) && src in p.state.log
    modifies p`stats, p`state
    ensures Sane(p, env) && p.state == Forgotten(old(p.state), src)
  {
    ghost var s := p.state;
    assert Worked(p, s.work);
    EraseStats(p, src);
    ForgetBounded(s, src);
    SaneNow(p, env);
  }

  method EraseStats(p: Partition, src: nat)
    requires p.Backed()
    modifies p`stats, p`state
    ensures p.Backed() && p.state == Forgotten(old(p.state), src)
  {
    p.stats := p.stats - {src};
    p.state := Forgotten(p.state, src);
  }

  lemma ForgetBounded(s: State, src: nat)
    requires Bounded(s) && Fronts(s) && src in s.log
    ensures Bounded(Forgotten(s, src)) && Fronts(Forgotten(s, src))
  {}

  method RemoveFile(p: Partition, env: Clients, src: nat)
    requires Sane(p, env) && src != p.state.active
    modifies p`files, p`hints, p`state
    ensures Sane(p, env) && p.state == Removed(old(p.state), src)
  {
    ghost var s := p.state;
    assert Worked(p, s.work);
    DeleteFiles(p, src);
    RemoveBounded(s, src);
    SaneNow(p, env);
  }

  method DeleteFiles(p: Partition, src: nat)
    requires p.Backed()
    modifies p`files, p`hints, p`state
    ensures p.Backed() && p.state == Removed(old(p.state), src)
  {
    DiskRemoved(p.image, p.files, p.hk, p.hints, p.state.hinted, p.state.log, src);
    p.files := p.files - {src};
    p.hints := p.hints - {src};
    p.state := Removed(p.state, src);
  }

  lemma DiskRemoved(image: Image, files: map<nat, Data>, hk: HintCodec, hints: map<nat, Data>, hinted: set<nat>,
                    log: Log, src: nat)
    requires Stored(image, files, log) && HintLawful(hk) && HintsKept(hk, hints, hinted, log)
    ensures Stored(image, files - {src}, log - {src}) && HintsKept(hk, hints - {src}, hinted - {src}, log - {src})
  {
    var h, l := hints - {src}, log - {src};
    forall x | x in h ensures x in l && Summarises(hk, h[x], File(x, l[x])) { assert h[x] == hints[x]; }
  }

  lemma RemoveBounded(s: State, src: nat)
    requires Bounded(s) && Fronts(s) && src != s.active
    ensures Bounded(Removed(s, src)) && Fronts(Removed(s, src))
  {}

  /** Where the removal of sources stands. */
  ghost predicate RemoveAt(p: Partition, env: Clients, job: Job, left: set<nat>, totals: State, forgotten: set<nat>)
    reads p, p.gen, env
  {
    forall s: State {:trigger At(p, s)} | At(p, s) ::
      && Sane(p, env) && Base(s, env.done, job) && Removing(s, job, left, totals) && s.uncounted == {}
      && s.forgotten == forgotten
  }

  /** Erase the counters of a source. */
  method Forget(p: Partition, env: Clients, src: nat, ghost job: Job, ghost left: set<nat>, ghost totals: State)
    requires RemoveAt(p, env, job, left, totals, {}) && src in left
    modifies p`stats, p`state
    ensures RemoveAt(p, env, job, left, totals, {src}) && p.state.keydir == old(p.state).keydir
  {
    ghost var s := p.state;
    assert At(p, s);
    ForgetStats(p, env, src);
    ForgetKeeps(s, job, left, totals, src);
  }

  /** Let clients run while a file is unlinked. */
  method Wait(p: Partition, env: Clients, ghost job: Job, ghost left: set<nat>, ghost totals: State, ghost src: nat)
    requires RemoveAt(p, env, job, left, totals, {src})
    modifies p, p.gen, env
    ensures RemoveAt(p, env, job, left, totals, {src})
    ensures |old(env.done)| <= |env.done| && (env.done == [] ==> p.state.keydir == old(p.state).keydir)
  {
    ghost var s, before := p.state, env.done;
    assert At(p, s);
    GetReady(p, env, job);
    Suspend(p, env, Kept(job, left), job.before);
    IsReady(p, env, job.before);
    WaitKeeps(s, p.state, before, env.done, job, left, totals);
  }

  /** One unlink, clients running while it is carried out. */
  method Unlink(p: Partition, env: Clients, src: nat, ghost job: Job, ghost left: set<nat>, ghost rest: set<nat>,
                ghost totals: State)
    requires RemoveAt(p, env, job, left, totals, {}) && src in left && rest == left - {src}
    modifies p, p.gen, env
    ensures RemoveAt(p, env, job, rest, totals, {}) && |old(env.done)| <= |env.done|
    ensures env.done == [] ==> p.state.keydir == old(p.state).keydir
  {
    Forget(p, env, src, job, left, totals);
    Wait(p, env, job, left, totals, src);
    Drop(p, env, src, job, left, rest, totals);
  }

  method Drop(p: Partition, env: Clients, src: nat, ghost job: Job, ghost left: set<nat>, ghost rest: set<nat>,
              ghost totals: State)
    requires RemoveAt(p, env, job, left, totals, {src}) && src in left && rest == left - {src}
    modifies p`files, p`hints, p`state
    ensures RemoveAt(p, env, job, rest, totals, {}) && p.state.keydir == old(p.state).keydir
  {
    ghost var s := p.state;
    assert At(p, s);
    RemoveFile(p, env, src);
    RemoveKeeps(s, job, left, totals, src);
  }

  lemma UnlinkOrder(sources: seq<nat>, i: nat)
    requires i < |sources| && forall i, j | 0 <= i < j < |sources| :: sources[i] != sources[j]
    ensures sources[i] in Elements(sources[i..]) && Elements(sources[i..]) - {sources[i]} == Elements(sources[i + 1..])
  {
    assert sources[i..] == [sources[i]] + sources[i + 1..];
  }

  /** Compact()'s loop over the sources. */
  method UnlinkAll(p: Partition, env: Clients, sources: seq<nat>, ghost job: Job, ghost totals: State)
    requires job.sources == Elements(sources) && (forall i, j | 0 <= i < j < |sources| :: sources[i] != sources[j])
    requires RemoveAt(p, env, job, job.sources, totals, {})
    modifies p, p.gen, env
    ensures RemoveAt(p, env, job, {}, totals, {}) && |old(env.done)| <= |env.done|
    ensures env.done == [] ==> p.state.keydir == old(p.state).keydir
  {
    assert sources[0..] == sources;
    ghost var kd := p.state.keydir;
    for i := 0 to |sources|
      invariant RemoveAt(p, env, job, Elements(sources[i..]), totals, {}) && |old(env.done)| <= |env.done|
      invariant env.done == [] ==> p.state.keydir == kd
    {
      UnlinkOrder(sources, i);
      Unlink(p, env, sources[i], job, Elements(sources[i..]), Elements(sources[i + 1..]), totals);
    }
    assert Elements(sources[|sources|..]) == {};
  }

  // ---------------------------------------------------------------- the result

  /**
   What a compaction has done: the sources are gone and nothing points into them; a key in a file
   sealed before has not moved; every counter has the slack it had, but for the new file, whose
   slack are the copies without their key when its counters were written.
   */
  ghost predicate Compacted(b: State, sources: set<nat>, dst: nat, totals: State, t: State) {
    && t.uncounted == {} && t.forgotten == {} && dst !in b.log && dst in t.log && dst in totals.log
    && t.log[dst] == totals.log[dst]
    && (forall id | id in sources :: id !in t.log && id !in t.stats) && Unreferenced(t, sources) && Origin(b, t)
    && (forall id | id in t.log && id != dst :: t.slack(id) == if id in b.log then b.slack(id) else NONE)
    && t.slack(dst) == Dead(totals, dst) && (t.slack(dst) == NONE <==> AllLive(totals.keydir, dst, t.log[dst]))
  }

  /** With no client in between: exact counters, and every key where it was or in the new file. */
  ghost predicate Undisturbing(b: State, dst: nat, t: State) {
    && t.slack(dst) == NONE && t.keydir.Keys == b.keydir.Keys
    && forall key {:trigger t.keydir[key]} | key in b.keydir && key in t.keydir ::
      t.keydir[key] == b.keydir[key] || t.keydir[key].file == dst
  }

  lemma CompactedAll(t: State, done: seq<Op>, job: Job, totals: State)
    requires Base(t, done, job) && Removing(t, job, {}, totals) && t.uncounted == {} && t.forgotten == {}
    requires Dead(totals, job.dst) == NONE <==> AllLive(totals.keydir, job.dst, totals.log[job.dst])
    ensures Compacted(job.before, job.sources, job.dst, totals, t)
  {}

  lemma TotalledRemoving(s: State, done: seq<Op>, job: Job, n: nat, src: nat)
    requires Running(s, done, job, job.sources, src, 0, n)
    ensures Base(Totalled(s, job.dst), done, job) && Removing(Totalled(s, job.dst), job, job.sources, s)
    ensures Dead(s, job.dst) == NONE <==> AllLive(s.keydir, job.dst, s.log[job.dst])
    ensures done == [] ==> Dead(s, job.dst) == NONE
  {
    TotalledCounts(s, job.dst);
    assert Kept(job, job.sources) == job.Guarded();
  }

  /** The new file's counters, written once the copies are made. */
  method CountCopies(p: Partition, env: Clients, dst: nat, n: nat, src: nat, ghost job: Job)
    requires RunAt(p, env, job, job.sources, src, 0, n) && dst == job.dst
    modifies p`stats, p`state
    ensures RemoveAt(p, env, job, job.sources, old(p.state), {}) && p.state.keydir == old(p.state).keydir
  {
    ghost var s := p.state;
    assert At(p, s);
    RecordTotals(p, env, dst, n);
    TotalledRemoving(s, env.done, job, n, src);
  }

  /** After the copies: the counters, the unlinks. */
  method FinishCompaction(p: Partition, env: Clients, sources: seq<nat>, dst: nat, n: nat, ghost job: Job)
    returns (ghost totals: State)
    requires sources != [] && job.sources == Elements(sources) && dst == job.dst && Means(job.before)
    requires forall i, j | 0 <= i < j < |sources| :: sources[i] != sources[j]
    requires RunAt(p, env, job, job.sources, sources[0], 0, n)
    modifies p, p.gen, env
    ensures RemoveAt(p, env, job, {}, totals, {}) && Compacted(job.before, job.sources, dst, totals, p.state)
    ensures env.done == [] ==> Undisturbing(job.before, dst, p.state)
  {
    totals := p.state;
    ghost var done := env.done;
    assert At(p, totals);
    CountCopies(p, env, dst, n, sources[0], job);
    UnlinkAll(p, env, sources, job, totals);
    assert At(p, p.state);
    Finished(totals, done, p.state, env.done, job, n, sources[0]);
  }

  lemma Finished(totals: State, before: seq<Op>, t: State, done: seq<Op>, job: Job, n: nat, src: nat)
    requires Running(totals, before, job, job.sources, src, 0, n) && Means(job.before) && |before| <= |done|
    requires Base(t, done, job) && Removing(t, job, {}, totals) && t.uncounted == {} && t.forgotten == {}
    requires done == [] ==> t.keydir == totals.keydir
    ensures Compacted(job.before, job.sources, job.dst, totals, t)
    ensures (done == [] ==> Undisturbing(job.before, job.dst, t))
  {
    TotalledRemoving(totals, before, job, n, src);
    CompactedAll(t, done, job, totals);
    if done == [] { QuietKeys(totals, t, job); }
  }

  lemma QuietKeys(totals: State, t: State, job: Job)
    requires Quiet(totals, job) && t.keydir == totals.keydir && Means(t) && t.model == job.before.model
    requires Means(job.before)
    requires t.slack(job.dst) == NONE
    ensures Undisturbing(job.before, job.dst, t)
  {
    forall key ensures key in t.keydir <==> key in job.before.keydir {
      assert key in t.keydir <==> key in t.model;
      assert key in job.before.keydir <==> key in job.before.model;
    }
  }

  /** Sealed files, each named once, to be compacted in a partition that is not already compacting. */
  predicate Compactable(p: Partition, sources: seq<nat>)
    reads p`files, p`active
  {
    && (forall i | 0 <= i < |sources| :: sources[i] in p.files && sources[i] != p.active)
    && (forall i, j | 0 <= i < j < |sources| :: sources[i] != sources[j])
  }

  lemma Opening(p: Partition)
    requires p.Valid()
    ensures Means(p.state) && Counts(p.state) && Bounded(p.state) && p.files.Keys == p.state.log.Keys
    ensures p.active == p.state.active
  {
    assert p.In(p.state);
  }

  method StartCompaction(p: Partition, env: Clients, sources: seq<nat>, now: nat) returns (dst: nat, ghost job: Job)
    requires p.Valid() && p.state.uncounted == {} && p.state.forgotten == {} && Sane(p, env) && env.done == []
    requires sources != [] && now < TIME_LIMIT && !p.gen.Exhausted(now) && Compactable(p, sources) && now <= env.clock
    modifies p, p.gen
    ensures job == Job(Elements(sources), dst, old(p.state)) && RunAt(p, env, job, {}, sources[0], 0, 0)
  {
    ghost var s, ids := p.state, Elements(sources);
    assert sources[0] in ids;
    Opening(p);
    dst := BeginFor(p, env, now);
    job := Job(ids, dst, s);
    BeginRunning(s, ids, dst, sources[0]);
  }

  lemma Closing(p: Partition, env: Clients, job: Job, totals: State)
    requires RemoveAt(p, env, job, {}, totals, {})
    ensures p.Valid() && Sane(p, env) && Follows(job.before, p.state, env.done) && p.state.uncounted == {}
    ensures p.state.forgotten == {}
    ensures job.before.work <= p.state.work <= job.before.work + 1 + 2 * |env.done| && p.files.Keys == p.state.log.Keys
  {
    assert At(p, p.state) && Worked(p, p.state.work);
    p.Folded();
  }

  /** The copies, the counters, the unlinks. */
  method CompactSome(p: Partition, env: Clients, sources: seq<nat>, dst: nat, readSize: Reads, ghost job: Job)
    returns (ghost totals: State)
    requires sources != [] && job.sources == Elements(sources) && dst == job.dst && Means(job.before)
    requires forall x :: readSize(x) > 0
    requires forall i, j | 0 <= i < j < |sources| :: sources[i] != sources[j]
    requires RunAt(p, env, job, {}, sources[0], 0, 0)
    modifies p, p.gen, env
    ensures RemoveAt(p, env, job, {}, totals, {}) && Compacted(job.before, job.sources, dst, totals, p.state)
    ensures env.done == [] ==> Undisturbing(job.before, dst, p.state)
  {
    Pause(p, env, sources[0], job, {}, 0, 0);
    var n := CompactFiles(p, env, sources, dst, readSize, job);
    Pause(p, env, sources[0], job, job.sources, 0, n);
    totals := FinishCompaction(p, env, sources, dst, n, job);
  }

  /**
   Main theorem: compaction of any sealed files, with any clients at every suspension, changes
   nothing a reader can see beyond what the clients did, and does what Compacted says; with no
   client every counter keeps its slack and every key is where it was or in the new file.
   */
  method Compact(p: Partition, env: Clients, sources: seq<nat>, now: nat, readSize: Reads)
    returns (dst: Option<nat>, ghost totals: State)
    requires p.Valid() && p.state.uncounted == {} && p.state.forgotten == {} && Sane(p, env) && env.done == []
    requires Compactable(p, sources) && now < TIME_LIMIT && !p.gen.Exhausted(now) && now <= env.clock
    requires forall x :: readSize(x) > 0
    modifies p, p.gen, env
    ensures p.Valid() && Sane(p, env) && Follows(old(p.state), p.state, env.done)
    ensures p.state.uncounted == {} && p.state.forgotten == {}
    ensures dst.None? <==> sources == []
    ensures dst.None? ==> p.state == old(p.state) && env.done == []
    ensures dst.Some? ==> Compacted(old(p.state), Elements(sources), dst.value, totals, p.state)
    ensures dst.Some? ==> forall i | 0 <= i < |sources| :: sources[i] !in p.files
    ensures dst.Some? && env.done == [] ==> Undisturbing(old(p.state), dst.value, p.state)
    ensures old(p.state.work) <= p.state.work <= old(p.state.work) + 1 + 2 * |env.done|
  {
    totals := p.state;
    if sources == [] { return None, totals; }
    Opening(p);
    var id, job := StartCompaction(p, env, sources, now);
    totals := CompactSome(p, env, sources, id, readSize, job);
    Closing(p, env, job, totals);
    dst := Some(id);
  }

  // ---------------------------------------------------------------- counters that are right

  /** With no client in between a compaction leaves exact counters exact. */
  lemma PreciseCompacted(b: State, sources: set<nat>, dst: nat, totals: State, t: State)
    requires Precise(b) && Compacted(b, sources, dst, totals, t) && Undisturbing(b, dst, t)
    ensures Precise(t)
  {
    forall id | id in t.log ensures t.slack(id) == NONE { if id in b.log { assert b.slack(id) == NONE; } }
  }

  // ---------------------------------------------------------------- counters that are wrong

  /**
   While records are being copied, overwriting or deleting a key takes a counter below zero if and
   only if the key is in the new file.
   */
  lemma UnderflowsWhileCopying(s: State, done: seq<Op>, job: Job, gone: set<nat>, src: nat, pos: nat, copied: nat,
                               key: Data)
    requires Running(s, done, job, gone, src, pos, copied) && key in s.keydir
    ensures Underflows(s.stats, s.keydir[key]) <==> s.keydir[key].file == job.dst
  {
    UnderflowsIff(s, key);
  }

  /** Once the new file's counters are written, none does. */
  lemma NoUnderflowWhileRemoving(s: State, done: seq<Op>, job: Job, left: set<nat>, totals: State, key: Data)
    requires Base(s, done, job) && Removing(s, job, left, totals) && s.uncounted == {} && key in s.keydir
    ensures !Underflows(s.stats, s.keydir[key])
  {
    UnderflowsIff(s, key);
  }
}
