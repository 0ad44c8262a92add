/** Whole runs of the store, through compactions and restarts, against a plain map. */
module BitcaskStore {
  import opened Bytes
  import opened Wrappers
  import opened BitcaskEntry
  import opened BitcaskLog
  import opened BitcaskHints
  import opened BitcaskRecovery
  import opened BitcaskAccounting
  import opened BitcaskPartition
  import opened BitcaskReopen
  import opened BitcaskCompaction
  import opened FileIds

  /** One step of a run. A compaction comes with what clients ask for while it is under way. */
  datatype Step =
    | Client(op: Op)
    | Read(key: Data)
    | Inspect
    | Compaction(sources: seq<nat>, now: nat, script: seq<seq<Op>>)
    | Restart(clean: bool, now: nat)

  /**
   What came of it. An inspection shows the index, the sizes of the files and their counters; a
   restart that succeeds shows everything the store then holds.
   */
  datatype Event =
    | Attempted(attempt: Attempt)
    | Answered(key: Data, value: Option<Data>)
    | Inspected(keydir: KeyDir, sizes: map<nat, nat>, stats: Stats)
    | Compacting(ran: bool, now: nat, trace: seq<Attempt>)
    | Restarted(now: nat, contents: map<Data, Data>)
    | NotRestarted(now: nat)

  // ---------------------------------------------------------------- what a run must show

  /** Each step has its own event: every operation asked for was tried, in order, every read answered. */
  predicate Matches(step: Step, event: Event) {
    match step
    case Client(op) => event.Attempted? && event.attempt.op == op
    case Read(key) => event.Answered? && event.key == key
    case Inspect => event.Inspected?
    case Compaction(_, now, script) => event.Compacting? && event.now == now && Tried(event.trace) == Flat(script)
    case Restart(_, now) => (event.Restarted? || event.NotRestarted?) && event.now == now
  }

  /**
   What an onlooker with a plain map knows: the map; every key and value ever put; whether a restart
   must preserve the map; whether anything was deleted; whether the counters must be exact; the
   latest clock used; how much work has been done at most.
   */
  datatype View = View(
    model: map<Data, Data>, puts: set<(Data, Data)>, replays: bool, deletes: bool, exact: bool, clock: nat, work: nat)

  function Find(m: map<Data, Data>, key: Data): Option<Data> { if key in m then Some(m[key]) else None }

  /** A file's counters: its size, and live counts that are the sums over the index, or no less. */
  ghost predicate FileTallied(exact: bool, kd: KeyDir, size: nat, x: FileStats, id: nat) {
    && x.total == size
    && LiveBytes(kd, id) <= x.live <= size
    && LiveEntries(kd, id) <= x.entries
    && (exact ==> x.live == LiveBytes(kd, id) && x.entries == LiveEntries(kd, id))
  }

  /** The index is of the map's keys and their records' sizes, and each file has its counters. */
  ghost predicate Tallied(exact: bool, model: map<Data, Data>, kd: KeyDir, sizes: map<nat, nat>, stats: Stats) {
    && kd.Keys == model.Keys
    && stats.Keys == sizes.Keys
    && (forall key | key in kd :: kd[key].file in sizes && kd[key].size == HEADER + |key| + |model[key]|)
    && (forall id {:trigger stats[id]} | id in stats :: FileTallied(exact, kd, sizes[id], stats[id], id))
  }

  /**
   The plain map fed the same event; None when the event contradicts it. An answer must be the
   map's. An operation or a restart is refused only if it is malformed or ids have run out. Counters
   must be exact unless clients have run inside a compaction since the last restart. A restart never
   shows anything that was not put; it must keep every key with its value, as long as no compaction
   has run and no earlier restart brought a deleted key back, and must show exactly the map if,
   besides, nothing was ever deleted.
   */
  ghost function Watch(v: View, event: Event): Option<View> {
    match event
    case Attempted(attempt) =>
      if !Due(attempt, v.clock, v.work) then None
      else if attempt.Refused? then Some(v)
      else Some(AfterOp(v, attempt.op))
    case Answered(key, value) => if value == Find(v.model, key) then Some(v) else None
    case Inspected(keydir, sizes, stats) => if Tallied(v.exact, v.model, keydir, sizes, stats) then Some(v) else None
    case Compacting(ran, now, trace) =>
      if !Fair(trace, StartClock(v.clock, ran, now), v.work + 1 + 2 * |trace|) then None
      else Some(AfterCompaction(v, ran, now, trace))
    case Restarted(now, contents) => if Plausible(v, contents) then Some(AfterRestart(v, now, contents)) else None
    case NotRestarted(now) => if now >= TIME_LIMIT || (v.work >= PATIENCE && now <= v.clock) then Some(v) else None
  }

  function AfterOp(v: View, op: Op): View {
    v.(model := Effect(v.model, op), puts := Write(v.puts, op), deletes := v.deletes || op.Del?,
       clock := Ticked(v.clock, op), work := v.work + 2)
  }

  /** The latest clock used when a compaction has begun, if it has. */
  function StartClock(clock: nat, ran: bool, now: nat): nat { if ran then Latest(clock, now) else clock }

  function AfterCompaction(v: View, ran: bool, now: nat, trace: seq<Attempt>): View {
    var done := Dones(trace);
    View(Effects(v.model, done), Writes(v.puts, done), v.replays && !ran, v.deletes || done != [],
         v.exact && (!ran || done == []), ClockAfter(StartClock(v.clock, ran, now), trace), v.work + 1 + 2 * |trace|)
  }

  predicate Plausible(v: View, contents: map<Data, Data>) {
    && (forall key | key in contents :: (key, contents[key]) in v.puts)
    && (v.replays ==> forall key | key in v.model :: key in contents && contents[key] == v.model[key])
    && (v.replays && !v.deletes ==> contents == v.model)
  }

  function AfterRestart(v: View, now: nat, contents: map<Data, Data>): View {
    View(contents, v.puts, v.replays && contents == v.model, v.deletes, true, Latest(v.clock, now), v.work + 1)
  }

  ghost function WatchAll(v: View, events: seq<Event>): Option<View> {
    if events == [] then Some(v)
    else
      match WatchAll(v, events[..|events| - 1])
      case None => None
      case Some(x) => Watch(x, events[|events| - 1])
  }

  // ---------------------------------------------------------------- conservation

  function LiveOf(stats: Stats): nat -> int { (id: nat) => Stat(stats, id).live }
  function EntriesOf(stats: Stats): nat -> int { (id: nat) => Stat(stats, id).entries }

  /**
   What exact counters add up to, however the files are listed: the live entries of all files are the
   keys of the map, and their live bytes what the map's records need.
   */
  lemma Conserved(model: map<Data, Data>, kd: KeyDir, sizes: map<nat, nat>, stats: Stats, ids: seq<nat>)
    requires Tallied(true, model, kd, sizes, stats)
    requires (forall i | 0 <= i < |ids| :: ids[i] in stats) && (forall id | id in stats :: Occurs(ids, id) == 1)
    ensures SumOver(ids, LiveOf(stats)) == ModelBytes(model)
    ensures SumOver(ids, EntriesOf(stats)) == |model|
  {
    IndexTotals(kd, model);
    GrandTotal(kd, ids, BytesIn, AllBytes());
    GrandTotal(kd, ids, EntriesIn, AllEntries());
    SumOverSame(ids, LiveOf(stats), PerFile(kd, BytesIn));
    SumOverSame(ids, EntriesOf(stats), PerFile(kd, EntriesIn));
  }

  // ---------------------------------------------------------------- the view against the store

  /** The view is of this partition, which is between operations. */
  ghost predicate Sees(v: View, s: State, last: nat) {
    && v.model == s.model && v.puts == s.written
    && s.work <= v.work && last <= v.clock
    && s.uncounted == {} && s.forgotten == {}
    && (v.replays ==> s.replayable)
    && (v.replays && !v.deletes ==> Tombless(s.log))
    && (v.exact ==> Precise(s))
  }

  ghost predicate Shown(v: View, event: Event, s: State, last: nat) {
    Watch(v, event).Some? && Sees(Watch(v, event).value, s, last)
  }

  /** The step is done, its event matches it and agrees with the view. */
  ghost predicate Taken(q: Partition, step: Step, event: Event, v: View)
    reads q, q.gen
  {
    q.Valid() && Matches(step, event) && Shown(v, event, q.state, q.gen.lastTimestamp)
  }

  /** A partition between steps. */
  ghost predicate Seen(p: Partition, v: View)
    reads p, p.gen
  {
    p.Valid() && Sees(v, p.state, p.gen.lastTimestamp)
  }

  // ---------------------------------------------------------------- client operations

  /** One client operation. */
  method TakeOp(p: Partition, op: Op, ghost v: View) returns (event: Event)
    requires Seen(p, v)
    modifies p, p.gen
    ensures Taken(p, Client(op), event, v)
    ensures event.attempt.Did? <==> old(Allowed(p, op))
  {
    if Allowed(p, op) {
      event := Attempted(Did(op));
      TakeAllowed(p, op, v);
    } else {
      event := Attempted(Refused(op));
      if WellSized(op) { RefusalExcused(p, op); }
    }
  }

  method TakeAllowed(p: Partition, op: Op, ghost v: View)
    requires Seen(p, v) && Allowed(p, op)
    modifies p, p.gen
    ensures Taken(p, Client(op), Attempted(Did(op)), v)
  {
    ghost var s, last := p.state, p.gen.lastTimestamp;
    Perform(p, op);
    OpShown(v, op, s, last, p.state, p.gen.lastTimestamp);
  }

  lemma OpShown(v: View, op: Op, s: State, last: nat, t: State, now: nat)
    requires Sees(v, s, last) && WellSized(op) && Later(s, t)
    requires t.model == Effect(s.model, op) && t.written == Write(s.written, op)
    requires t.work <= s.work + 2 && now <= Ticked(last, op)
    requires !op.Del? && Tombless(s.log) ==> Tombless(t.log)
    ensures Shown(v, Attempted(Did(op)), t, now)
  {
    if v.exact { PreciseEvolves(s, t); }
  }

  method TakeRead(p: Partition, key: Data, ghost v: View) returns (event: Event)
    requires Seen(p, v)
    ensures Taken(p, Read(key), event, v)
  {
    var value := p.Get(key);
    event := Answered(key, value);
  }

  /** Index, file sizes and counters. */
  method TakeInspect(p: Partition, ghost v: View) returns (event: Event)
    requires Seen(p, v)
    ensures Taken(p, Inspect, event, v)
  {
    var sizes := map id | id in p.files :: |p.files[id]|;
    event := Inspected(p.keydir, sizes, p.stats);
    CountersShown(p, v, sizes);
  }

  lemma CountersShown(p: Partition, v: View, sizes: map<nat, nat>)
    requires Seen(p, v) && sizes == map id | id in p.files :: |p.files[id]|
    ensures Tallied(v.exact, v.model, p.keydir, sizes, p.stats)
  {
    assert p.In(p.state);
    forall id | id in p.files ensures sizes[id] == LenOf(p.state.log[id]) {
      StoredSize(p.k, p.image, p.files, p.state.log, id);
    }
    assert p.files.Keys == p.state.log.Keys;
    StateTallied(v.exact, p.state, sizes);
  }

  lemma StateTallied(exact: bool, s: State, sizes: map<nat, nat>)
    requires Means(s) && Counts(s) && s.uncounted == {} && s.forgotten == {} && (exact ==> Precise(s))
    requires sizes.Keys == s.log.Keys && forall id | id in sizes :: sizes[id] == LenOf(s.log[id])
    ensures Tallied(exact, s.model, s.keydir, sizes, s.stats)
  {
    KeysTallied(s.keydir, s.log, s.model);
    forall id | id in s.log ensures id in s.stats && FileTallied(exact, s.keydir, sizes[id], s.stats[id], id) {
      FileCounted(exact, s, id);
    }
  }

  lemma KeysTallied(kd: KeyDir, log: Log, model: map<Data, Data>)
    requires Indexed(kd, log, model)
    ensures kd.Keys == model.Keys
    ensures forall key | key in kd :: kd[key].file in log && kd[key].size == HEADER + |key| + |model[key]|
  {
    forall key ensures key in kd.Keys <==> key in model.Keys { assert key in kd <==> key in model; }
    forall key | key in kd ensures kd[key].file in log && kd[key].size == HEADER + |key| + |model[key]| {
      assert Points(log, kd[key], key, model[key]);
    }
  }

  lemma FileCounted(exact: bool, s: State, id: nat)
    requires Counts(s) && s.uncounted == {} && s.forgotten == {} && (exact ==> Precise(s)) && id in s.log
    ensures id in s.stats && FileTallied(exact, s.keydir, LenOf(s.log[id]), s.stats[id], id)
  {
    assert CountOk(s.stats, s.keydir, s.log, s.slack(id), id);
  }

  // ---------------------------------------------------------------- compactions

  /** Since state s clients have done so much, and nothing else has happened. */
  ghost predicate Onward(s: State, t: State, before: seq<Op>, done: seq<Op>, start: State) {
    && Since(s, t, before, done, start)
    && t.uncounted == s.uncounted && t.forgotten == s.forgotten && t.replayable == s.replayable
    && (Precise(s) ==> Precise(t))
  }

  lemma OnwardStep(s: State, t: State, u: State, before: seq<Op>, done: seq<Op>, more: seq<Op>, start: State)
    requires Onward(s, t, before, done, start) && Undisturbed({}, t, u) && Since(t, u, done, more, start)
    ensures Onward(s, u, before, more, start)
  {
    if Precise(s) { PreciseEvolves(t, u); }
  }

  /** A partition with clients outside a compaction. */
  ghost predicate OnwardAt(p: Partition, env: Clients, s: State, before: seq<Op>, start: State)
    reads p, p.gen, env
  {
    Ready(p, env, start) && Onward(s, p.state, before, env.done, start)
  }

  /** The next batch, outside a compaction. */
  method RunNext(p: Partition, env: Clients, ghost s: State, ghost before: seq<Op>, ghost start: State)
    requires OnwardAt(p, env, s, before, start) && env.script != []
    modifies p, p.gen, env
    ensures OnwardAt(p, env, s, before, start)
    ensures env.script == old(env.script)[1..]
  {
    ghost var t, done := p.state, env.done;
    ReadyStays(p, env, {}, start);
    RunBatch(p, env, {}, start);
    OnwardStep(s, t, p.state, before, done, env.done, start);
  }

  /** The batches of the script that no suspension has run. */
  method RunRest(p: Partition, env: Clients, ghost s: State, ghost before: seq<Op>, ghost start: State)
    requires OnwardAt(p, env, s, before, start)
    modifies p, p.gen, env
    ensures OnwardAt(p, env, s, before, start)
    ensures env.script == []
  {
    while env.script != []
      invariant OnwardAt(p, env, s, before, start)
      decreases |env.script|
    {
      RunNext(p, env, s, before, start);
    }
  }

  /** What a compaction step leaves behind, its script run to the end. */
  ghost predicate Ran(p: Partition, env: Clients, s: State, ran: bool)
    reads p, p.gen, env
  {
    && Ready(p, env, s) && env.script == []
    && Finished(s, p.state, env.done, ran)
  }

  ghost predicate Finished(s: State, t: State, done: seq<Op>, ran: bool) {
    && Follows(s, t, done)
    && t.uncounted == {} && t.forgotten == {}
    && t.work <= s.work + 1 + 2 * |done|
    && (!ran ==> t.replayable == s.replayable && (done == [] ==> t == s))
    && (!ran || done == [] ==> Precise(s) ==> Precise(t))
  }

  /** A compaction step: the compaction if there is something to compact, with the script run during it and after it. */
  method TakeCompaction(p: Partition, sources: seq<nat>, now: nat, script: seq<seq<Op>>, readSize: Reads, ghost v: View)
    returns (event: Event)
    requires Seen(p, v) && forall x :: readSize(x) > 0
    modifies p, p.gen
    ensures Taken(p, Compaction(sources, now, script), event, v) && event.Compacting?
    ensures event.ran <==>
            old(Compactable(p, sources)) && now < TIME_LIMIT && !old(p.gen.Exhausted(now)) && sources != []
  {
    var ran := Compactable(p, sources) && now < TIME_LIMIT && !p.gen.Exhausted(now) && sources != [];
    var env := new Clients(script, StartClock(v.clock, ran, now));
    ghost var s := p.state;
    FirstReady(p, env);
    if ran {
      RunCompaction(p, env, sources, now, readSize);
    } else {
      RunClients(p, env);
    }
    event := Compacting(ran, now, env.trace);
    RanShown(p, env, v, s, ran, now);
  }

  /** Clients that have done nothing yet. */
  lemma FirstReady(p: Partition, env: Clients)
    requires p.Valid() && env.script == env.full && env.trace == [] && env.done == []
    requires p.gen.lastTimestamp <= env.clock
    ensures Ready(p, env, p.state)
  {
    assert p.In(p.state);
    assert [] + Flat(env.script) == Flat(env.full);
    assert Writes(p.state.written, []) == p.state.written;
  }

  method RunClients(p: Partition, env: Clients)
    requires Ready(p, env, p.state) && env.done == [] && p.state.uncounted == {} && p.state.forgotten == {}
    modifies p, p.gen, env
    ensures Ran(p, env, old(p.state), false)
  {
    ghost var s := p.state;
    ReadyStays(p, env, {}, s);
    RunRest(p, env, s, [], s);
  }

  method RunCompaction(p: Partition, env: Clients, sources: seq<nat>, now: nat, readSize: Reads)
    requires Ready(p, env, p.state) && env.done == [] && p.state.uncounted == {} && p.state.forgotten == {}
    requires Compactable(p, sources) && sources != []
    requires now < TIME_LIMIT && !p.gen.Exhausted(now) && now <= env.clock && forall x :: readSize(x) > 0
    modifies p, p.gen, env
    ensures Ran(p, env, old(p.state), true)
  {
    ghost var s := p.state;
    CompactThen(p, env, sources, now, readSize);
    ghost var t, before := p.state, env.done;
    ReadyStays(p, env, {}, s);
    RunRest(p, env, t, before, s);
  }

  /** The compaction alone. */
  method CompactThen(p: Partition, env: Clients, sources: seq<nat>, now: nat, readSize: Reads)
    requires Ready(p, env, p.state) && env.done == [] && p.state.uncounted == {} && p.state.forgotten == {}
    requires Compactable(p, sources) && sources != []
    requires now < TIME_LIMIT && !p.gen.Exhausted(now) && now <= env.clock && forall x :: readSize(x) > 0
    modifies p, p.gen, env
    ensures Ready(p, env, old(p.state)) && Finished(old(p.state), p.state, env.done, true)
  {
    ghost var s := p.state;
    assert At(p, s);
    var dst;
    ghost var totals;
    dst, totals := Compact(p, env, sources, now, readSize);
    if env.done == [] && Precise(s) { PreciseCompacted(s, Elements(sources), dst.value, totals, p.state); }
  }

  lemma {:induction false} DonesFewer(trace: seq<Attempt>)
    ensures |Dones(trace)| <= |trace| && |Tried(trace)| == |trace|
  {
    if trace != [] { DonesFewer(trace[..|trace| - 1]); }
  }

  lemma RanShown(p: Partition, env: Clients, v: View, s: State, ran: bool, now: nat)
    requires Ran(p, env, s, ran) && env.clock == StartClock(v.clock, ran, now) && Sees(v, s, v.clock)
    ensures p.Valid() && Shown(v, Compacting(ran, now, env.trace), p.state, p.gen.lastTimestamp)
    ensures Tried(env.trace) == Flat(env.full)
  {
    assert At(p, p.state) && Worked(p, p.state.work);
    TraceShown(env.trace, env.done, env.clock, v, s, p.state, ran, now, p.gen.lastTimestamp);
    assert Tried(env.trace) + [] == Tried(env.trace);
  }

  lemma TraceShown(trace: seq<Attempt>, done: seq<Op>, clock: nat, v: View, s: State, t: State, ran: bool,
                   now: nat, last: nat)
    requires Sees(v, s, v.clock) && Finished(s, t, done, ran) && clock == StartClock(v.clock, ran, now)
    requires done == Dones(trace) && Fair(trace, clock, t.work) && last <= ClockAfter(clock, trace)
    ensures Shown(v, Compacting(ran, now, trace), t, last)
  {
    var work := v.work + 1 + 2 * |trace|;
    DonesFewer(trace);
    assert t.work <= work;
    FairWider(trace, clock, t.work, work);
    CompactionSeen(trace, v, s, t, ran, now, last);
    CompactionWatched(trace, v, ran, now);
  }

  lemma CompactionWatched(trace: seq<Attempt>, v: View, ran: bool, now: nat)
    requires Fair(trace, StartClock(v.clock, ran, now), v.work + 1 + 2 * |trace|)
    ensures Watch(v, Compacting(ran, now, trace)) == Some(AfterCompaction(v, ran, now, trace))
  {}

  lemma CompactionSeen(trace: seq<Attempt>, v: View, s: State, t: State, ran: bool, now: nat, last: nat)
    requires Sees(v, s, v.clock) && Finished(s, t, Dones(trace), ran)
    requires t.work <= v.work + 1 + 2 * |trace| && last <= ClockAfter(StartClock(v.clock, ran, now), trace)
    ensures Sees(AfterCompaction(v, ran, now, trace), t, last)
  {}

  // ---------------------------------------------------------------- restarts

  /** Everything the store holds, read key by key. */
  method Contents(p: Partition) returns (m: map<Data, Data>)
    requires p.Valid()
    ensures m == p.state.model
  {
    var walk := WalkOf(p.keydir);
    m := map[];
    for i := 0 to |walk|
      invariant forall key :: key in m <==> key in walk[..i]
      invariant forall key | key in m :: key in p.state.model && m[key] == p.state.model[key]
    {
      assert walk[..i + 1] == walk[..i] + [walk[i]];
      p.ReadsRight(walk[i]);
      var value := p.Get(walk[i]);
      m := m[walk[i] := value.value];
    }
    assert walk[..|walk|] == walk;
    forall key ensures key in m <==> key in p.state.model { p.ReadsRight(key); }
  }

  /** What a restart shows is what an onlooker may expect. */
  lemma RestartShown(v: View, p: State, order: seq<nat>, hints: set<nat>, q: State, now: nat, last: nat)
    requires Sees(v, p, v.clock) && last <= Latest(v.clock, now)
    requires Means(p) && Means(q) && Replays(p) && (p.replayable ==> order == p.created)
    requires (forall i | 0 <= i < |order| :: order[i] in p.log) && Reopened(p, order, hints, q)
    ensures Shown(v, Restarted(now, q.model), q, last)
  {
    RestartPlausible(v, p, order, hints, q);
    RestartSeen(v, p, order, hints, q, now, last);
  }

  lemma RestartPlausible(v: View, p: State, order: seq<nat>, hints: set<nat>, q: State)
    requires Sees(v, p, v.clock) && Means(p) && Means(q) && Replays(p) && (p.replayable ==> order == p.created)
    requires (forall i | 0 <= i < |order| :: order[i] in p.log) && Reopened(p, order, hints, q)
    ensures Plausible(v, q.model)
  {
    MeansWritten(q);
    if v.replays { RestartReplays(v, p, order, hints, q); }
  }

  /** As long as no compaction has run. */
  lemma RestartReplays(v: View, p: State, order: seq<nat>, hints: set<nat>, q: State)
    requires Sees(v, p, v.clock) && v.replays
    requires Means(p) && Means(q) && Replays(p) && order == p.created && Reopened(p, order, hints, q)
    ensures forall key | key in p.model :: key in q.model && q.model[key] == p.model[key]
    ensures !v.deletes ==> q.model == p.model
    ensures q.model == p.model ==> q.replayable
  {
    ReopenedMeans(p, order, hints, q);
    if !v.deletes { TomblessRestart(p, order, hints, q); }
    if q.model == p.model { SameIndex(p, order, hints, q); }
  }

  lemma RestartSeen(v: View, p: State, order: seq<nat>, hints: set<nat>, q: State, now: nat, last: nat)
    requires Sees(v, p, v.clock) && last <= Latest(v.clock, now)
    requires Means(p) && Means(q) && Replays(p) && (p.replayable ==> order == p.created)
    requires (forall i | 0 <= i < |order| :: order[i] in p.log) && Reopened(p, order, hints, q)
    ensures Sees(AfterRestart(v, now, q.model), q, last)
  {
    if v.replays { RestartReplays(v, p, order, hints, q); }
    PreciseReopened(p, order, hints, q);
    if Tombless(p.log) { TomblessNew(p.log, q.active); }
  }

  lemma TomblessNew(log: Log, id: nat)
    requires Tombless(log)
    ensures Tombless(log[id := []])
  {}

  lemma TomblessRestart(p: State, order: seq<nat>, hints: set<nat>, q: State)
    requires Tombless(p.log) && Means(p) && Replays(p)
    requires p.replayable && order == p.created && Reopened(p, order, hints, q)
    ensures q.model == p.model
  {
    var fs := FilesOf(order, p.log);
    forall i, j | 0 <= i < |fs| && 0 <= j < |fs[i].records| ensures !fs[i].records[j].IsTombstone() {
      assert !p.log[order[i]][j].IsTombstone();
    }
    NoTombstones(fs, HasHint(hints));
    ReopenedMeans(p, order, hints, q);
  }

  /** The same contents after a restart are the same index. */
  lemma SameIndex(p: State, order: seq<nat>, hints: set<nat>, q: State)
    requires Means(p) && Means(q) && Replays(p) && q.model == p.model
    requires p.replayable && order == p.created && Reopened(p, order, hints, q)
    ensures q.keydir == p.keydir && q.replayable
  {
    RecoveredIndex(p.created, p.active, p.log, p.keydir, HasHint(hints));
    forall key ensures Lookup(q.keydir, key) == Lookup(p.keydir, key) {
      assert (key in p.keydir <==> key in p.model) && (key in q.keydir <==> key in q.model);
    }
    SameLookups(q.keydir, p.keydir);
  }

  /** What a reopened partition shows. */
  method ShowRestart(p: Partition, q: Partition, clean: bool, now: nat, ghost v: View, ghost order: seq<nat>,
                     ghost hints: set<nat>)
    returns (event: Event)
    requires Seen(p, v) && q.Valid() && q.gen.lastTimestamp <= Latest(p.gen.lastTimestamp, now)
    requires Listed(p.state, order) && Reopened(p.state, order, hints, q.state)
    ensures Taken(q, Restart(clean, now), event, v)
  {
    var contents := Contents(q);
    event := Restarted(now, contents);
    ValidMeans(p);
    ValidMeans(q);
    RestartShown(v, p.state, order, hints, q.state, now, q.gen.lastTimestamp);
  }

  lemma ValidMeans(p: Partition)
    requires p.Valid()
    ensures Means(p.state) && Replays(p.state)
  {
    assert p.In(p.state);
  }

  /** Close, or crash, and open again. */
  method TakeRestart(p: Partition, clean: bool, now: nat, readSize: Reads, ghost v: View)
    returns (q: Partition, event: Event)
    requires Seen(p, v) && forall x :: readSize(x) > 0
    ensures Taken(q, Restart(clean, now), event, v)
    ensures q == p || (fresh(q) && fresh(q.gen))
  {
    if now >= TIME_LIMIT { return p, NotRestarted(now); }
    var r;
    ghost var order, hints;
    r, order, hints := Reopen(p, clean, now, readSize);
    if r.None? { return p, NotRestarted(now); }
    q := r.value;
    event := ShowRestart(p, q, clean, now, v, order, hints);
  }

  // ---------------------------------------------------------------- whole runs

  /** One step of a run. */
  method Take(p: Partition, step: Step, readSize: Reads, ghost v: View) returns (q: Partition, event: Event)
    requires Seen(p, v) && forall x :: readSize(x) > 0
    modifies p, p.gen
    ensures Taken(q, step, event, v)
    ensures step.Client? ==> (event.attempt.Did? <==> old(Allowed(p, step.op)))
    ensures q == p || (fresh(q) && fresh(q.gen))
  {
    q := p;
    match step
    case Client(op) => event := TakeOp(p, op, v);
    case Read(key) => event := TakeRead(p, key, v);
    case Inspect => event := TakeInspect(p, v);
    case Compaction(sources, now, script) => event := TakeCompaction(p, sources, now, script, readSize, v);
    case Restart(clean, now) => q, event := TakeRestart(p, clean, now, readSize, v);
  }

  function EmptyAt(now: nat): View { View(map[], {}, true, false, true, now, 1) }

  /** The run so far: its events match its steps and agree with the plain map. */
  ghost predicate SoFar(start: nat, v: View, steps: seq<Step>, events: seq<Event>) {
    && |events| == |steps|
    && WatchAll(EmptyAt(start), events) == Some(v)
    && forall i | 0 <= i < |steps| :: Matches(steps[i], events[i])
  }

  lemma SoFarStep(start: nat, v: View, steps: seq<Step>, events: seq<Event>, step: Step, event: Event)
    requires SoFar(start, v, steps, events) && Matches(step, event) && Watch(v, event).Some?
    ensures SoFar(start, Watch(v, event).value, steps + [step], events + [event])
  {
    assert (events + [event])[..|events|] == events;
  }

  /** The state of an empty directory. */
  ghost function Nothing(top: nat): State {
    State(map[], map[], 0, map[], map[], {}, [], true, (x: nat) => NONE, {}, {}, {}, top, 0)
  }

  lemma NothingOpens(top: nat, id: nat)
    ensures OpenState(Nothing(top))
    ensures forall now :: Sees(EmptyAt(now), Opened(Nothing(top), id), now)
  {}

  /** The empty directory. */
  method Create(c: Checksum, partition: nat, maxFileSize: nat, now: nat) returns (p: Partition)
    requires partition < SEQ_LIMIT && now < TIME_LIMIT
    ensures fresh(p) && fresh(p.gen)
    ensures Seen(p, EmptyAt(now))
  {
    FormatIsLawful(c);
    HintFormatIsLawful();
    var gen := new FileIdGenerator(partition);
    ghost var top := gen.Last();
    ghost var k := FormatOf(c);
    NothingOpens(top, 0);
    p := new Partition(FormatOf(c), HintFormat(), gen, maxFileSize, now, map[], map[], map[], map[],
                       es => BytesOf(k, es), Nothing(top));
    NothingOpens(top, p.active);
  }

  /** One more step. */
  method TakeNext(p: Partition, ghost v: View, step: Step, readSize: Reads,
                  ghost start: nat, ghost steps: seq<Step>, events: seq<Event>)
    returns (q: Partition, more: seq<Event>, ghost w: View)
    requires Seen(p, v) && SoFar(start, v, steps, events) && forall x :: readSize(x) > 0
    modifies p, p.gen
    ensures Seen(q, w) && SoFar(start, w, steps + [step], more)
    ensures q == p || (fresh(q) && fresh(q.gen))
  {
    var event;
    q, event := Take(p, step, readSize, v);
    SoFarStep(start, v, steps, events, step, event);
    w, more := Watch(v, event).value, events + [event];
  }

  /**
   Main theorem: for every run of puts, deletes, reads, rotations, inspections, compactions with
   clients inside, and restarts, every step is answered by its event, every operation asked for was
   tried in order, and everything shown is what a plain map fed the same operations may show: nothing
   well sized is refused as long as the clock moves on or fewer than 2^16 - 1 units of work are done,
   and all counters are exact unless clients ran inside a compaction since the last restart.
   */
  method Run(c: Checksum, partition: nat, maxFileSize: nat, now: nat, steps: seq<Step>, readSize: Reads)
    returns (events: seq<Event>)
    requires partition < SEQ_LIMIT && now < TIME_LIMIT && forall x :: readSize(x) > 0
    ensures |events| == |steps| && forall i | 0 <= i < |steps| :: Matches(steps[i], events[i])
    ensures WatchAll(EmptyAt(now), events).Some?
  {
    var p := Create(c, partition, maxFileSize, now);
    events := RunAll(p, now, steps, readSize);
  }

  method RunAll(first: Partition, now: nat, steps: seq<Step>, readSize: Reads) returns (events: seq<Event>)
    requires Seen(first, EmptyAt(now)) && forall x :: readSize(x) > 0
    modifies first, first.gen
    ensures |events| == |steps| && forall i | 0 <= i < |steps| :: Matches(steps[i], events[i])
    ensures WatchAll(EmptyAt(now), events).Some?
  {
    var p := first;
    ghost var v := EmptyAt(now);
    events := [];
    for i := 0 to |steps|
      invariant p == first || (fresh(p) && fresh(p.gen))
      invariant Seen(p, v) && SoFar(now, v, steps[..i], events)
    {
      PrefixNext(steps, i);
      p, events, v := TakeNext(p, v, steps[i], readSize, now, steps[..i], events);
    }
    assert steps[..|steps|] == steps;
  }

  lemma PrefixNext(steps: seq<Step>, i: nat)
    requires i < |steps|
    ensures steps[..i] + [steps[i]] == steps[..i + 1]
  {}
}
