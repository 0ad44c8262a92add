/** One partition of the store: the index over append-only data files. */
module BitcaskPartition {
  import opened Bytes
  import opened Wrappers
  import opened BitcaskEntry
  import opened BitcaskLog
  import opened BitcaskHints
  import opened BitcaskRecovery
  import opened BitcaskAccounting
  import opened FileIds

  // ---------------------------------------------------------------- per-file statistics

  /** Counters as integers; that they never go below zero is part of what is proved. */
  datatype FileStats = FileStats(total: int, live: int, entries: int)

  type Stats = map<nat, FileStats>

  /** operator[]: a missing file counts from zero. */
  function Stat(stats: Stats, id: nat): FileStats { if id in stats then stats[id] else FileStats(0, 0, 0) }

  /** The entry at loc is no longer live. */
  function Release(stats: Stats, loc: Loc): Stats {
    var s := Stat(stats, loc.file);
    stats[loc.file := FileStats(s.total, s.live - loc.size, s.entries - 1)]
  }

  /** A new live entry was written at loc. */
  function Charge(stats: Stats, loc: Loc): Stats {
    var s := Stat(stats, loc.file);
    stats[loc.file := FileStats(s.total + loc.size, s.live + loc.size, s.entries + 1)]
  }

  /** Bytes that are not live were written. */
  function Grow(stats: Stats, id: nat, n: nat): Stats {
    var s := Stat(stats, id);
    stats[id := FileStats(s.total + n, s.live, s.entries)]
  }

  /** Counted as live in a file although no key points there any more. */
  datatype Slack = Slack(bytes: nat, entries: nat)

  const NONE: Slack := Slack(0, 0)

  /**
   A file's counters: its total is its size, its live counts the sums over the index plus the slack,
   and no more than the total.
   */
  ghost predicate CountOk(stats: Stats, kd: KeyDir, log: Log, slack: Slack, id: nat) {
    && id in log && id in stats
    && stats[id] == FileStats(LenOf(log[id]), LiveBytes(kd, id) + slack.bytes, LiveEntries(kd, id) + slack.entries)
    && stats[id].live <= stats[id].total
  }

  lemma ReleaseExact(kd: KeyDir, key: Data, id: nat)
    requires key in kd
    ensures LiveBytes(kd - {key}, id) == LiveBytes(kd, id) - (if kd[key].file == id then kd[key].size else 0)
    ensures LiveEntries(kd - {key}, id) == LiveEntries(kd, id) - (if kd[key].file == id then 1 else 0)
  {
    SumSplit(kd, BytesIn(id), key);
    SumSplit(kd, EntriesIn(id), key);
  }

  lemma ChargeExact(kd: KeyDir, key: Data, loc: Loc, id: nat)
    ensures LiveBytes(kd[key := loc], id) == LiveBytes(kd - {key}, id) + (if loc.file == id then loc.size else 0)
    ensures LiveEntries(kd[key := loc], id) == LiveEntries(kd - {key}, id) + (if loc.file == id then 1 else 0)
  {
    SumSet(kd, BytesIn(id), key, loc);
    SumSet(kd, EntriesIn(id), key, loc);
  }

  /** A key taken out of the index and released; nothing goes below zero. */
  lemma CountRelease(stats: Stats, kd: KeyDir, log: Log, slack: Slack, key: Data, id: nat)
    requires CountOk(stats, kd, log, slack, id) && key in kd
    ensures CountOk(Release(stats, kd[key]), kd - {key}, log, slack, id)
    ensures kd[key].file == id ==> stats[id].live >= kd[key].size && stats[id].entries >= 1
  {
    ReleaseExact(kd, key, id);
  }

  lemma LenSnoc(es: seq<Entry>, e: Entry)
    ensures LenOf(es + [e]) == LenOf(es) + e.Size()
  {
    assert (es + [e])[..|es|] == es;
  }

  /** A record written and charged. */
  lemma CountCharge(stats: Stats, kd: KeyDir, log: Log, slack: Slack, key: Data, loc: Loc, e: Entry, id: nat)
    requires CountOk(stats, kd, log, slack, id) && key !in kd && loc.file in log && loc.size == e.Size()
    ensures CountOk(Charge(stats, loc), kd[key := loc], log[loc.file := log[loc.file] + [e]], slack, id)
  {
    assert kd - {key} == kd;
    LenSnoc(log[loc.file], e);
    ChargeExact(kd, key, loc, id);
  }

  /** The counter updates of Put. */
  lemma CountPut(stats: Stats, kd: KeyDir, log: Log, slack: Slack, key: Data, loc: Loc, e: Entry, id: nat)
    requires CountOk(stats, kd, log, slack, id) && loc.file in log && loc.size == e.Size()
    ensures CountOk(PutStats(stats, kd, key, loc), kd[key := loc], log[loc.file := log[loc.file] + [e]], slack, id)
  {
    if key in kd {
      CountRelease(stats, kd, log, slack, key, id);
      CountCharge(Release(stats, kd[key]), kd - {key}, log, slack, key, loc, e, id);
      assert (kd - {key})[key := loc] == kd[key := loc];
    } else {
      CountCharge(stats, kd, log, slack, key, loc, e, id);
    }
  }

  /** A tombstone counts as bytes that are not live. */
  lemma CountGrow(stats: Stats, kd: KeyDir, log: Log, slack: Slack, to: nat, e: Entry, id: nat)
    requires CountOk(stats, kd, log, slack, id) && to in log
    ensures CountOk(Grow(stats, to, e.Size()), kd, log[to := log[to] + [e]], slack, id)
  {
    LenSnoc(log[to], e);
  }

  /** A new, empty file that nothing points to. */
  lemma CountNew(stats: Stats, kd: KeyDir, log: Log, file: nat)
    requires forall key | key in kd :: kd[key].file != file
    ensures CountOk(stats[file := FileStats(0, 0, 0)], kd, log[file := []], NONE, file)
  {
    SumZero(kd, BytesIn(file));
    SumZero(kd, EntriesIn(file));
  }

  // ---------------------------------------------------------------- files in creation order

  ghost function FilesOf(created: seq<nat>, log: Log): seq<File>
    requires forall i | 0 <= i < |created| :: created[i] in log
  { seq(|created|, i requires 0 <= i < |created| => File(created[i], log[created[i]])) }

  /** Appending to the newest file replays as one more record. */
  lemma ReplayAppend(created: seq<nat>, log: Log, e: Entry)
    requires created != [] && Increasing(created) && forall i | 0 <= i < |created| :: created[i] in log
    ensures var id := created[|created| - 1];
            ReplayFiles(FilesOf(created, log[id := log[id] + [e]])) ==
            Apply(ReplayFiles(FilesOf(created, log)), id, LenOf(log[id]), e)
  {
    var n := |created| - 1;
    var id := created[n];
    var fs, gs := FilesOf(created, log), FilesOf(created, log[id := log[id] + [e]]);
    assert fs[..n] == gs[..n];
    assert (log[id] + [e])[..|log[id]|] == log[id];
  }

  /** A new empty file replays as nothing. */
  lemma ReplayNew(created: seq<nat>, log: Log, id: nat)
    requires id !in log && forall i | 0 <= i < |created| :: created[i] in log
    ensures ReplayFiles(FilesOf(created + [id], log[id := []])) == ReplayFiles(FilesOf(created, log))
  {
    var fs, gs := FilesOf(created, log), FilesOf(created + [id], log[id := []]);
    assert gs[..|created|] == fs;
  }

  // ---------------------------------------------------------------- the abstract state

  datatype State = State(
    keydir: KeyDir, stats: Stats, active: nat,
    log: Log,                       // the records of each file
    model: map<Data, Data>,         // what the store means
    written: set<(Data, Data)>,     // every key and value ever put
    created: seq<nat>,              // files in creation order
    replayable: bool,               // whether replaying them in that order rebuilds the index
    slack: nat -> Slack,            // what each file's live counts have too much
    uncounted: set<nat>,            // files whose counters mean nothing for now
    forgotten: set<nat>,            // files whose counters are erased, as nothing points there
    hinted: set<nat>,               // files with a hint file
    top: nat,                       // the highest file id issued
    work: nat)                      // ids issued and records written

  const WORD32: nat := 0x1_0000_0000
  const WORD64: nat := 0x1_0000_0000_0000_0000

  /** The index is what replaying the files in creation order rebuilds; the active file is the newest. */
  ghost predicate Replayed(created: seq<nat>, active: nat, log: Log, kd: KeyDir) {
    && Increasing(created) && created != [] && active == created[|created| - 1]
    && (forall i | 0 <= i < |created| :: created[i] in log)
    && (forall id | id in log :: id in created)
    && kd == ReplayFiles(FilesOf(created, log))
  }

  lemma ReplayedAppend(created: seq<nat>, active: nat, log: Log, kd: KeyDir, e: Entry)
    requires Replayed(created, active, log, kd)
    ensures active in log
    ensures Replayed(created, active, log[active := log[active] + [e]], Apply(kd, active, LenOf(log[active]), e))
  {
    ReplayAppend(created, log, e);
  }

  // The aspects of a good state, one at a time.

  /** Every record that is not a tombstone is of a key and value once put. */
  ghost predicate AllWritten(es: seq<Entry>, written: set<(Data, Data)>) {
    forall i {:trigger es[i]} | 0 <= i < |es| && !es[i].IsTombstone() :: (es[i].key, es[i].value) in written
  }

  ghost predicate Written(log: Log, written: set<(Data, Data)>) {
    forall id {:trigger AllWritten(log[id], written)} | id in log :: AllWritten(log[id], written)
  }

  /** Appending a record that is written, with possibly more written. */
  lemma WrittenAppend(log: Log, written: set<(Data, Data)>, id: nat, e: Entry, more: set<(Data, Data)>)
    requires Written(log, written) && id in log && written <= more && (e.IsTombstone() || (e.key, e.value) in more)
    ensures Written(log[id := log[id] + [e]], more)
  {
    var after := log[id := log[id] + [e]];
    forall x | x in after ensures AllWritten(after[x], more) { assert AllWritten(log[x], written); }
  }

  lemma WrittenNew(log: Log, written: set<(Data, Data)>, id: nat)
    requires Written(log, written)
    ensures Written(log[id := []], written)
  {
    var after := log[id := []];
    forall x | x in after ensures AllWritten(after[x], written) {
      if x != id { assert AllWritten(log[x], written); }
    }
  }

  /** The index represents the plain map, and holds nothing that was not put. */
  ghost predicate Means(s: State)
  {
    s.active in s.log && Indexed(s.keydir, s.log, s.model) && Written(s.log, s.written)
  }

  lemma {:induction false} LocatedWritten(es: seq<Entry>, offset: nat, e: Entry, written: set<(Data, Data)>)
    requires AllWritten(es, written) && Located(es, offset, e) && !e.IsTombstone()
    ensures (e.key, e.value) in written
  {
    var n := |es| - 1;
    if !(offset == LenOf(es[..n]) && es[n] == e) { LocatedWritten(es[..n], offset, e, written); }
  }

  /** Everything the store means was put. */
  lemma MeansWritten(s: State)
    requires Means(s)
    ensures forall key | key in s.model :: (key, s.model[key]) in s.written
  {
    forall key | key in s.model ensures (key, s.model[key]) in s.written {
      assert key in s.keydir;
      var loc := s.keydir[key];
      assert Points(s.log, loc, key, s.model[key]) && AllWritten(s.log[loc.file], s.written);
      LocatedWritten(s.log[loc.file], loc.offset, Entry(loc.timestamp, 0, key, s.model[key]), s.written);
    }
  }

  ghost predicate Replays(s: State) { s.replayable ==> Replayed(s.created, s.active, s.log, s.keydir) }

  /** Nothing has been counted into these files yet. */
  ghost predicate Unfilled(stats: Stats, ids: set<nat>) {
    forall id {:trigger Stat(stats, id)} | id in ids :: Stat(stats, id).live <= 0 && Stat(stats, id).entries <= 0
  }

  /** Every file's counters, but for those that mean nothing for now. */
  ghost predicate Counts(s: State) {
    && s.stats.Keys <= s.log.Keys && s.active !in s.uncounted && s.active !in s.forgotten
    && (forall id | id in s.forgotten :: id !in s.stats)
    && (forall key {:trigger s.keydir[key]} | key in s.keydir :: s.keydir[key].file !in s.forgotten)
    && Unfilled(s.stats, s.uncounted)
    && forall id {:trigger CountOk(s.stats, s.keydir, s.log, s.slack(id), id)} |
         id in s.log && id !in s.uncounted && id !in s.forgotten ::
         CountOk(s.stats, s.keydir, s.log, s.slack(id), id)
  }

  /** What the index has in the active file is that file replayed alone. */
  ghost predicate Fronts(s: State) {
    s.active in s.log && s.active !in s.hinted && InFile(s.keydir, s.active) == Replay(map[], s.active, s.log[s.active])
  }

  /** No file has an id above the last one issued. */
  ghost predicate Topped(s: State) { forall id | id in s.log :: id <= s.top }

  ghost predicate Bounded(s: State) {
    && s.active in s.log && LenOf(s.log[s.active]) < WORD64 && LenOf(s.log[s.active]) <= s.work * WORD32
    && (forall id | id in s.log :: id <= s.top) && (forall id | id in s.hinted :: id in s.log)
    && (forall id | id in s.uncounted :: id <= s.top)
    && (forall id | id in s.forgotten :: id <= s.top)
  }

  // ---------------------------------------------------------------- what operations change

  /** Ids, counters and hints only accumulate. */
  ghost predicate Later(s: State, t: State) {
    && s.top <= t.top && s.work <= t.work && t.uncounted == s.uncounted && t.forgotten == s.forgotten
    && t.replayable == s.replayable
    && (forall id {:trigger id in t.log} | id in t.log :: id in s.log || id > s.top)
    && (forall id {:trigger id in t.hinted} | id in t.hinted :: id in s.hinted || id == s.active || id > s.top)
    && (forall id: nat {:trigger t.slack(id)} | id <= s.top :: t.slack(id) == s.slack(id))
    && (forall id: nat {:trigger t.slack(id)} | id in t.log && id > s.top :: t.slack(id) == NONE)
  }

  /** Sealed files stay as they are, and no key comes to point into one. */
  ghost predicate Evolved(s: State, t: State) {
    && Later(s, t)
    && (forall id {:trigger id in s.log} | id in s.log && id != s.active :: id in t.log && t.log[id] == s.log[id])
    && (t.active == s.active || t.active > s.top)
    && (forall key {:trigger t.keydir[key]} | key in t.keydir && t.keydir[key].file in s.log
      && t.keydir[key].file != s.active ::
          key in s.keydir && s.keydir[key] == t.keydir[key])
  }

  ghost function Append(s: State, e: Entry): Log
    requires s.active in s.log
  { s.log[s.active := s.log[s.active] + [e]] }

  ghost function SetSlack(slack: nat -> Slack, id: nat, v: Slack): nat -> Slack
  {
    (x: nat) => if x == id then v else slack(x)
  }

  /** The active file sealed with its hint file, and a new one. */
  ghost function Rotated(s: State, id: nat): State {
    s.(active := id, log := s.log[id := []], created := s.created + [id], stats := s.stats[id := FileStats(0, 0, 0)],
       slack := SetSlack(s.slack, id, NONE), hinted := s.hinted + {s.active}, top := id, work := s.work + 1)
  }

  function LocFor(active: nat, offset: nat, key: Data, value: Data, ts: nat): Loc {
    Loc(active, offset, HEADER + |key| + |value|, ts)
  }

  function PutStats(stats: Stats, kd: KeyDir, key: Data, loc: Loc): Stats {
    Charge(if key in kd then Release(stats, kd[key]) else stats, loc)
  }

  ghost function AfterPut(s: State, key: Data, value: Data, ts: nat): State
    requires s.active in s.log
  {
    var loc := LocFor(s.active, LenOf(s.log[s.active]), key, value, ts);
    s.(keydir := s.keydir[key := loc], stats := PutStats(s.stats, s.keydir, key, loc),
       log := Append(s, Entry(ts, 0, key, value)), model := s.model[key := value],
       written := s.written + {(key, value)}, work := s.work + 1)
  }

  /** Deleting a key that is there; otherwise nothing happens. */
  ghost function AfterDel(s: State, key: Data, ts: nat): State
    requires s.active in s.log && key in s.keydir
  {
    var tombstone := Entry(ts, TOMBSTONE, key, []);
    s.(keydir := s.keydir - {key}, stats := Grow(Release(s.stats, s.keydir[key]), s.active, tombstone.Size()),
       log := Append(s, tombstone), model := s.model - {key}, work := s.work + 1)
  }

  /** The state a put leaves: the record goes into a new active file when the old one has been filled. */
  ghost predicate PutFrom(s: State, z: State, filled: bool, key: Data, value: Data, ts: nat) {
    var t := if filled then Rotated(s, z.active) else s;
    t.active in t.log && z == AfterPut(t, key, value, ts)
  }

  ghost predicate DelFrom(s: State, z: State, key: Data, ts: nat) {
    if key in s.keydir then s.active in s.log && z == AfterDel(s, key, ts) else z == s
  }

  lemma AllIndexed(kd: KeyDir, log: Log, model: map<Data, Data>)
    requires Indexed(kd, log, model)
    ensures forall key {:trigger kd[key]} | key in kd :: kd[key].file in log
  {
    forall key {:trigger kd[key]} | key in kd ensures kd[key].file in log { assert key in model; }
  }

  lemma RotatedMeans(s: State, id: nat)
    requires Means(s) && id !in s.log
    ensures Means(Rotated(s, id))
  {
    forall key | key in s.keydir && key in s.model ensures Points(s.log[id := []], s.keydir[key], key, s.model[key]) {
      assert Points(s.log, s.keydir[key], key, s.model[key]);
    }
    WrittenNew(s.log, s.written, id);
  }

  lemma RotatedReplays(s: State, id: nat)
    requires Replays(s) && id !in s.log && forall x | x in s.log :: x < id
    ensures Replays(Rotated(s, id))
  {
    if s.replayable { ReplayNew(s.created, s.log, id); }
  }

  lemma RotatedCounts(s: State, id: nat)
    requires Counts(s) && id !in s.log && id !in s.uncounted && id !in s.forgotten
    requires forall key {:trigger s.keydir[key]} | key in s.keydir :: s.keydir[key].file in s.log
    ensures Counts(Rotated(s, id))
  {
    var t := Rotated(s, id);
    CountNew(s.stats, s.keydir, s.log, id);
    forall x | x in t.uncounted ensures Stat(t.stats, x) == Stat(s.stats, x) {}
    forall x | x in t.log && x !in t.uncounted && x !in t.forgotten
      ensures CountOk(t.stats, t.keydir, t.log, t.slack(x), x)
    {
      if x != id { assert CountOk(s.stats, s.keydir, s.log, s.slack(x), x); }
    }
  }

  lemma RotatedBounded(s: State, id: nat)
    requires Bounded(s) && id > s.top
    requires forall key {:trigger s.keydir[key]} | key in s.keydir :: s.keydir[key].file in s.log
    ensures Bounded(Rotated(s, id)) && Fronts(Rotated(s, id)) && Evolved(s, Rotated(s, id))
  {
    var t := Rotated(s, id);
    assert InFile(t.keydir, id) == map[];
  }

  lemma AppendEvolves(s: State, t: State, e: Entry)
    requires s.active in s.log && Bounded(s) && t.log == Append(s, e) && t.active == s.active
    requires t.replayable == s.replayable
    requires t.slack == s.slack && t.uncounted == s.uncounted && t.forgotten == s.forgotten && t.hinted == s.hinted
    requires t.top == s.top && t.work == s.work + 1
    requires forall key {:trigger t.keydir[key]} | key in t.keydir && t.keydir[key].file != s.active ::
            key in s.keydir && s.keydir[key] == t.keydir[key]
    ensures Evolved(s, t)
  {}

  lemma AppendBounded(s: State, t: State, e: Entry)
    requires Bounded(s) && Fronts(s) && t.log == Append(s, e) && t.active == s.active && t.hinted == s.hinted
    requires t.uncounted == s.uncounted && t.forgotten == s.forgotten && t.top == s.top && t.work == s.work + 1
    requires e.Size() < WORD32 && LenOf(s.log[s.active]) + e.Size() < WORD64
    requires t.keydir == Apply(s.keydir, s.active, LenOf(s.log[s.active]), e)
    ensures Bounded(t) && Fronts(t)
  {
    var es := s.log[s.active];
    assert (es + [e])[..|es|] == es;
    assert InFile(t.keydir, s.active) == Apply(InFile(s.keydir, s.active), s.active, LenOf(es), e);
  }

  /** A record appended and applied to the index. */
  lemma AppendReplays(s: State, t: State, e: Entry)
    requires Replays(s) && s.active in s.log && t.created == s.created && t.active == s.active
    requires t.replayable == s.replayable
    requires t.log == Append(s, e) && t.keydir == Apply(s.keydir, s.active, LenOf(s.log[s.active]), e)
    ensures Replays(t)
  {
    if s.replayable { ReplayedAppend(s.created, s.active, s.log, s.keydir, e); }
  }

  lemma PutMeans(s: State, key: Data, value: Data, ts: nat)
    requires Means(s)
    ensures Means(AfterPut(s, key, value, ts))
  {
    IndexedPut(s.keydir, s.log, s.model, key, value, LocFor(s.active, LenOf(s.log[s.active]), key, value, ts));
    WrittenAppend(s.log, s.written, s.active, Entry(ts, 0, key, value), s.written + {(key, value)});
  }

  lemma PutUnfilled(stats: Stats, kd: KeyDir, ids: set<nat>, key: Data, loc: Loc)
    requires Unfilled(stats, ids) && loc.file !in ids
    ensures Unfilled(PutStats(stats, kd, key, loc), ids)
  {
    var more := PutStats(stats, kd, key, loc);
    forall id | id in ids ensures Stat(more, id).live <= 0 && Stat(more, id).entries <= 0 {
      assert Stat(stats, id).live <= 0;
    }
  }

  lemma DelUnfilled(stats: Stats, ids: set<nat>, loc: Loc, to: nat, n: nat)
    requires Unfilled(stats, ids) && to !in ids
    ensures Unfilled(Grow(Release(stats, loc), to, n), ids)
  {
    var more := Grow(Release(stats, loc), to, n);
    forall id | id in ids ensures Stat(more, id).live <= 0 && Stat(more, id).entries <= 0 {
      assert Stat(stats, id).live <= 0;
    }
  }

  lemma PutCounts(s: State, key: Data, value: Data, ts: nat)
    requires s.active in s.log && Counts(s)
    requires forall key {:trigger s.keydir[key]} | key in s.keydir :: s.keydir[key].file in s.log
    ensures Counts(AfterPut(s, key, value, ts))
  {
    var t, e := AfterPut(s, key, value, ts), Entry(ts, 0, key, value);
    var loc := LocFor(s.active, LenOf(s.log[s.active]), key, value, ts);
    PutUnfilled(s.stats, s.keydir, s.uncounted, key, loc);
    forall id | id in t.log && id !in t.uncounted && id !in t.forgotten
      ensures CountOk(t.stats, t.keydir, t.log, t.slack(id), id)
    {
      assert CountOk(s.stats, s.keydir, s.log, s.slack(id), id);
      CountPut(s.stats, s.keydir, s.log, s.slack(id), key, loc, e, id);
    }
  }

  lemma PutReplays(s: State, key: Data, value: Data, ts: nat)
    requires s.active in s.log && Replays(s) && Bounded(s)
    ensures Replays(AfterPut(s, key, value, ts)) && Evolved(s, AfterPut(s, key, value, ts))
  {
    AppendReplays(s, AfterPut(s, key, value, ts), Entry(ts, 0, key, value));
    AppendEvolves(s, AfterPut(s, key, value, ts), Entry(ts, 0, key, value));
  }

  lemma PutBounded(s: State, key: Data, value: Data, ts: nat)
    requires Bounded(s) && Fronts(s) && HEADER + |key| + |value| < WORD32
    requires LenOf(s.log[s.active]) + HEADER + |key| + |value| < WORD64
    ensures Bounded(AfterPut(s, key, value, ts)) && Fronts(AfterPut(s, key, value, ts))
  {
    AppendBounded(s, AfterPut(s, key, value, ts), Entry(ts, 0, key, value));
  }

  lemma DelMeans(s: State, key: Data, ts: nat)
    requires Means(s) && key in s.keydir
    ensures Means(AfterDel(s, key, ts))
  {
    IndexedDel(s.keydir, s.log, s.model, key);
    IndexedAppend(s.keydir - {key}, s.log, s.model - {key}, s.active, Entry(ts, TOMBSTONE, key, []));
    WrittenAppend(s.log, s.written, s.active, Entry(ts, TOMBSTONE, key, []), s.written);
  }

  lemma DelCounts(s: State, key: Data, ts: nat)
    requires s.active in s.log && Counts(s) && key in s.keydir && s.keydir[key].file in s.log
    ensures Counts(AfterDel(s, key, ts))
  {
    var t, e := AfterDel(s, key, ts), Entry(ts, TOMBSTONE, key, []);
    DelUnfilled(s.stats, s.uncounted, s.keydir[key], s.active, e.Size());
    forall id | id in t.log && id !in t.uncounted && id !in t.forgotten
      ensures CountOk(t.stats, t.keydir, t.log, t.slack(id), id)
    {
      assert CountOk(s.stats, s.keydir, s.log, s.slack(id), id);
      CountRelease(s.stats, s.keydir, s.log, s.slack(id), key, id);
      CountGrow(Release(s.stats, s.keydir[key]), s.keydir - {key}, s.log, s.slack(id), s.active, e, id);
    }
  }

  lemma DelReplays(s: State, key: Data, ts: nat)
    requires s.active in s.log && Replays(s) && Bounded(s) && key in s.keydir
    ensures Replays(AfterDel(s, key, ts)) && Evolved(s, AfterDel(s, key, ts))
  {
    AppendReplays(s, AfterDel(s, key, ts), Entry(ts, TOMBSTONE, key, []));
    AppendEvolves(s, AfterDel(s, key, ts), Entry(ts, TOMBSTONE, key, []));
  }

  lemma DelBounded(s: State, key: Data, ts: nat)
    requires Bounded(s) && Fronts(s) && key in s.keydir && HEADER + |key| < WORD32
    requires LenOf(s.log[s.active]) + HEADER + |key| < WORD64
    ensures Bounded(AfterDel(s, key, ts)) && Fronts(AfterDel(s, key, ts))
  {
    AppendBounded(s, AfterDel(s, key, ts), Entry(ts, TOMBSTONE, key, []));
  }

  /** No record is a tombstone. */
  ghost predicate Tombless(log: Log) {
    forall id, i {:trigger log[id][i]} | id in log && 0 <= i < |log[id]| :: !log[id][i].IsTombstone()
  }

  lemma TomblessAppend(log: Log, id: nat, e: Entry)
    requires Tombless(log) && id in log && !e.IsTombstone()
    ensures Tombless(log[id := log[id] + [e]])
  {}

  ghost predicate Good(s: State) { Means(s) && Replays(s) && Counts(s) && Bounded(s) && Fronts(s) }

  /** Every aspect survives a put, and sealed files do not notice. */
  lemma PutGood(s: State, key: Data, value: Data, ts: nat)
    requires Good(s) && HEADER + |key| + |value| < WORD32 && LenOf(s.log[s.active]) + HEADER + |key| + |value| < WORD64
    ensures Good(AfterPut(s, key, value, ts)) && Evolved(s, AfterPut(s, key, value, ts))
  {
    AllIndexed(s.keydir, s.log, s.model);
    PutMeans(s, key, value, ts);
    PutReplays(s, key, value, ts);
    PutCounts(s, key, value, ts);
    PutBounded(s, key, value, ts);
  }

  /** And a delete. */
  lemma DelGood(s: State, key: Data, ts: nat)
    requires Good(s) && key in s.keydir && HEADER + |key| < WORD32 && LenOf(s.log[s.active]) + HEADER + |key| < WORD64
    ensures Good(AfterDel(s, key, ts)) && Evolved(s, AfterDel(s, key, ts))
  {
    AllIndexed(s.keydir, s.log, s.model);
    DelMeans(s, key, ts);
    DelReplays(s, key, ts);
    DelCounts(s, key, ts);
    DelBounded(s, key, ts);
  }

  lemma IndexedPut(kd: KeyDir, log: Log, model: map<Data, Data>, key: Data, value: Data, loc: Loc)
    requires Indexed(kd, log, model) && loc.file in log && loc.offset == LenOf(log[loc.file])
    requires loc.size == HEADER + |key| + |value|
    ensures Indexed(kd[key := loc], log[loc.file := log[loc.file] + [Entry(loc.timestamp, 0, key, value)]],
            model[key := value])
  {
    var e := Entry(loc.timestamp, 0, key, value);
    IndexedAppend(kd, log, model, loc.file, e);
    LocatedIndex(log[loc.file] + [e], |log[loc.file]|);
    assert (log[loc.file] + [e])[..|log[loc.file]|] == log[loc.file];
  }

  lemma IndexedDel(kd: KeyDir, log: Log, model: map<Data, Data>, key: Data)
    requires Indexed(kd, log, model)
    ensures Indexed(kd - {key}, log, model - {key})
  {}

  lemma {:induction false} LocatedFits(es: seq<Entry>, offset: nat, e: Entry)
    requires AllFit(es) && Located(es, offset, e)
    ensures Fits(e)
  {
    var n := |es| - 1;
    if !(offset == LenOf(es[..n]) && es[n] == e) { LocatedFits(es[..n], offset, e); }
  }

  // ---------------------------------------------------------------- the files on disk

  type Image = seq<Entry> -> Data

  /** The format is lawful, and a file's image is its records' encodings end to end. */
  ghost predicate Imaged(k: Codec, image: Image) {
    Lawful(k) && forall es: seq<Entry> {:trigger BytesOf(k, es)} :: image(es) == BytesOf(k, es)
  }

  /** Each file holds exactly the encodings of its records. */
  ghost predicate Stored(image: Image, files: map<nat, Data>, log: Log) {
    && files.Keys == log.Keys
    && forall id {:trigger files[id]} | id in log && id in files :: files[id] == image(log[id]) && AllFit(log[id])
  }

  lemma StoredAppend(k: Codec, image: Image, files: map<nat, Data>, log: Log, id: nat, e: Entry)
    requires Imaged(k, image) && Stored(image, files, log) && id in log && Proper(e)
    ensures id in files && |files[id]| == LenOf(log[id])
    ensures Stored(image, files[id := files[id] + k.write(e)], log[id := log[id] + [e]])
  {
    var es := log[id];
    assert files[id] == image(es) == BytesOf(k, es) && image(es + [e]) == BytesOf(k, es + [e]);
    Appended(k, es, e);
    assert forall i | 0 <= i < |es| :: Proper(es[i]);
  }

  lemma StoredSize(k: Codec, image: Image, files: map<nat, Data>, log: Log, id: nat)
    requires Imaged(k, image) && Stored(image, files, log) && id in log
    ensures id in files && |files[id]| == LenOf(log[id])
  {
    assert files[id] == image(log[id]) == BytesOf(k, log[id]);
  }

  lemma StoredNew(k: Codec, image: Image, files: map<nat, Data>, log: Log, id: nat)
    requires Imaged(k, image) && Stored(image, files, log)
    ensures Stored(image, files[id := []], log[id := []])
  {
    assert image([]) == BytesOf(k, []);
  }

  /**
   The second half of Get: read the record at a location of the opened file; it must be this key's
   and not a tombstone.
   */
  function ReadAt(k: Codec, d: Data, loc: Loc, key: Data): Option<Data> {
    if loc.offset + loc.size > |d| then None
    else
      var read := k.read(d[loc.offset..loc.offset + loc.size]);
      if read.Ok? && read.entry.key == key && !read.entry.IsTombstone() then Some(read.entry.value) else None
  }

  /** It answers with the record that lies there, if that is this key's. */
  lemma ReadLocated(k: Codec, image: Image, es: seq<Entry>, loc: Loc, e: Entry, key: Data)
    requires Imaged(k, image) && AllFit(es) && Located(es, loc.offset, e) && e.Size() == loc.size
    ensures ReadAt(k, image(es), loc, key) == if e.key == key && !e.IsTombstone() then Some(e.value) else None
  {
    assert image(es) == BytesOf(k, es);
    BytesAt(k, es, loc.offset, e);
    LocatedFits(es, loc.offset, e);
    assert k.write(e) + [] == k.write(e);
    assert k.read(k.write(e) + []) == Ok(e);
  }

  /** What a location reads back as. */
  lemma StoredRead(k: Codec, image: Image, files: map<nat, Data>, log: Log, loc: Loc, key: Data, value: Data)
    requires Imaged(k, image) && Stored(image, files, log) && Points(log, loc, key, value)
    ensures loc.file in files && loc.offset + loc.size <= |files[loc.file]|
    ensures k.read(files[loc.file][loc.offset..loc.offset + loc.size]) == Ok(Entry(loc.timestamp, 0, key, value))
  {
    var e := Entry(loc.timestamp, 0, key, value);
    assert files[loc.file] == BytesOf(k, log[loc.file]);
    BytesAt(k, log[loc.file], loc.offset, e);
    LocatedFits(log[loc.file], loc.offset, e);
    assert k.write(e) + [] == k.write(e);
    assert k.read(k.write(e) + []) == Ok(e);
  }

  /** What the index has for a key reads back as the map's value. */
  lemma IndexReads(k: Codec, image: Image, files: map<nat, Data>, s: State, key: Data)
    requires Imaged(k, image) && Stored(image, files, s.log) && Means(s) && key in s.keydir
    ensures key in s.model && s.keydir[key].file in files
    ensures ReadAt(k, files[s.keydir[key].file], s.keydir[key], key) == Some(s.model[key])
  {
    assert key in s.model && Points(s.log, s.keydir[key], key, s.model[key]);
    StoredRead(k, image, files, s.log, s.keydir[key], key, s.model[key]);
  }

  /** The hint files are those written when their files were sealed. */
  ghost predicate HintsKept(hk: HintCodec, hints: map<nat, Data>, hinted: set<nat>, log: Log)
    requires HintLawful(hk)
  {
    && hints.Keys == hinted
    && forall id {:trigger hints[id]} | id in hints :: id in log && Summarises(hk, hints[id], File(id, log[id]))
  }

  lemma HintsNew(hk: HintCodec, hints: map<nat, Data>, hinted: set<nat>, log: Log, id: nat)
    requires HintLawful(hk) && HintsKept(hk, hints, hinted, log) && id !in log
    ensures HintsKept(hk, hints, hinted, log[id := []])
  {
    forall x | x in hints ensures x in log[id := []] && Summarises(hk, hints[x], File(x, log[id := []][x])) {}
  }

  lemma HintsAppend(hk: HintCodec, hints: map<nat, Data>, hinted: set<nat>, log: Log, id: nat, e: Entry)
    requires HintLawful(hk) && HintsKept(hk, hints, hinted, log) && id in log && id !in hinted
    ensures HintsKept(hk, hints, hinted, log[id := log[id] + [e]])
  {
    var l := log[id := log[id] + [e]];
    forall x | x in hints ensures x in l && Summarises(hk, hints[x], File(x, l[x])) { assert l[x] == log[x]; }
  }

  lemma HintsRotate(hk: HintCodec, hints: map<nat, Data>, hinted: set<nat>, log: Log, active: nat, hint: Data, id: nat)
    requires HintLawful(hk) && HintsKept(hk, hints, hinted, log) && active in log && id !in log
    requires Summarises(hk, hint, File(active, log[active]))
    ensures HintsKept(hk, hints[active := hint], hinted + {active}, log[id := []])
  {
    var h, l := hints[active := hint], log[id := []];
    forall x | x in h ensures x in l && Summarises(hk, h[x], File(x, l[x])) {
      if x != active { assert hints[x] == h[x]; }
    }
  }

  /** What the index has in the active file fits a hint file. */
  lemma ActiveFits(s: State)
    requires Means(s) && Bounded(s) && AllFit(s.log[s.active])
    ensures KeyDirFits(s.keydir, s.active)
  {
    forall key {:trigger s.keydir[key]} | key in s.keydir && s.keydir[key].file == s.active
      ensures HintFits(HintOf(key, s.keydir[key]))
    {
      var loc := s.keydir[key];
      assert key in s.model && Points(s.log, loc, key, s.model[key]);
      LocatedFits(s.log[s.active], loc.offset, Entry(loc.timestamp, 0, key, s.model[key]));
      LocatedBound(s.log[s.active], loc.offset, Entry(loc.timestamp, 0, key, s.model[key]));
    }
  }

  class Partition {
    const k: Codec
    const hk: HintCodec
    ghost const image: Image
    const maxFileSize: nat
    const gen: FileIdGenerator
    var keydir: KeyDir
    var files: map<nat, Data>
    var hints: map<nat, Data>
    var stats: Stats
    var active: nat
    ghost var state: State

    /** The fields the program keeps are those of the abstract state. */
    ghost predicate Tied()
      reads this`keydir, this`stats, this`active, this`state
    { keydir == state.keydir && stats == state.stats && active == state.active }

    ghost predicate OnDisk()
      reads this`files, this`hints, this`state
    {
      && Imaged(k, image) && Stored(image, files, state.log) && HintLawful(hk)
      && HintsKept(hk, hints, state.hinted, state.log)
    }

    ghost predicate Ids()
      reads this`state, gen
    {
      && gen.Valid() && gen.Last() == state.top && gen.sequence <= state.work
      && forall id | id in state.log :: Decode(id).partition == gen.partition && Decode(id).sequence <= state.work
    }

    /** Disk, ids and fields are those of the abstract state. */
    ghost predicate Backed()
      reads this, gen
    { OnDisk() && Ids() && Tied() }

    ghost predicate Sound()
      reads this, gen
    { Backed() && Bounded(state) && Fronts(state) }

    /** The partition is in state s. A proof names the state where it needs what Valid says of it. */
    ghost predicate In(s: State)
      reads this`state
    { state == s }

    ghost predicate Valid()
      reads this, gen
    { forall s: State {:trigger In(s)} | In(s) :: Backed() && Good(s) }

    lemma Folded()
      requires Backed() && Good(state)
      ensures Valid()
    {}

    /** The active file is there, of the size its records have; no id is above the last. */
    lemma ActiveSize()
      requires Valid()
      ensures active in files && active in state.log && |files[active]| == LenOf(state.log[active]) && Topped(state)
    {
      assert In(state);
      StoredSize(k, image, files, state.log, active);
    }

    /** A directory with these files, after CreateAndSetActiveFile. */
    constructor (k: Codec, hk: HintCodec, gen: FileIdGenerator, maxFileSize: nat, now: nat,
                 keydir: KeyDir, files: map<nat, Data>, hints: map<nat, Data>, stats: Stats,
                 ghost image: Image, ghost s: State)
      requires Imaged(k, image) && Stored(image, files, s.log) && HintLawful(hk)
      requires HintsKept(hk, hints, s.hinted, s.log)
      requires gen.Valid() && now < TIME_LIMIT && !gen.Exhausted(now) && gen.Last() == s.top && gen.sequence <= s.work
      requires keydir == s.keydir && stats == s.stats && OpenState(s)
      requires forall id | id in s.log :: Decode(id).partition == gen.partition && Decode(id).sequence <= s.work
      modifies gen
      ensures Valid() && this.gen == gen && this.k == k && this.hk == hk && this.maxFileSize == maxFileSize
      ensures this.keydir == keydir
      ensures gen.lastTimestamp == Latest(old(gen.lastTimestamp), now)
      ensures active > s.top && state == Opened(s, active)
    {
      var id := gen.Next(now);
      this.k, this.hk, this.gen, this.maxFileSize, this.image := k, hk, gen, maxFileSize, image;
      this.keydir, this.files, this.hints, active := keydir, files[id := []], hints, id;
      this.stats := stats[id := FileStats(0, 0, 0)];
      state := Opened(s, id);
      new;
      StoredNew(k, image, files, s.log, id);
      HintsNew(hk, hints, s.hinted, s.log, id);
      OpenedGood(s, id);
      Folded();
    }

    predicate ShouldRotate()
      reads this`files, this`active
    { active in files && |files[active]| >= maxFileSize }

    /** The active file has room for so many more bytes. */
    predicate HasRoom(n: nat)
      reads this`files, this`active
    { active in files && |files[active]| + n < WORD64 }

    /** A file id above all those in use. */
    method NewId(now: nat) returns (id: nat)
      requires Ids() && now < TIME_LIMIT && !gen.Exhausted(now)
      modifies gen
      ensures gen.Valid() && id == gen.Last() > state.top && gen.sequence <= state.work + 1
      ensures gen.lastTimestamp == Latest(old(gen.lastTimestamp), now)
      ensures Decode(id).partition == gen.partition && Decode(id).sequence <= state.work + 1
    { id := gen.Next(now); }

    /** WriteHintFile on the active file, whose entries are all its own. */
    method SealActive() returns (d: Data)
      requires OnDisk() && Tied() && Bounded(state) && Fronts(state) && Means(state)
      ensures Summarises(hk, d, File(active, state.log[active]))
    {
      assert files[active] == image(state.log[active]);
      ActiveFits(state);
      var walk := WalkOf(keydir);
      d := WriteHintFile(hk, keydir, active, walk);
    }

    /** Seal the active file with its hint file and start a new one. */
    method RotateActiveFile(now: nat)
      requires Valid() && now < TIME_LIMIT && !gen.Exhausted(now)
      modifies this, gen
      ensures Valid() && state.model == old(state.model) && state.written == old(state.written) && keydir == old(keydir)
      ensures active == state.active > old(state.top)
      ensures Evolved(old(state), state) && state.work == old(state.work) + 1
      ensures active in state.log && LenOf(state.log[active]) == 0
      ensures Tombless(old(state.log)) ==> Tombless(state.log)
      ensures gen.lastTimestamp == Latest(old(gen.lastTimestamp), now)
      ensures state == Rotated(old(state), active)
    {
      ghost var s := state;
      assert In(s);
      AllIndexed(s.keydir, s.log, s.model);
      var hint := SealActive();
      var id := CreateAndSetActiveFile(now, hint);
      RotatedMeans(s, id);
      RotatedReplays(s, id);
      RotatedCounts(s, id);
      RotatedBounded(s, id);
      Folded();
    }

    method CreateAndSetActiveFile(now: nat, hint: Data) returns (id: nat)
      requires OnDisk() && Ids() && Tied() && Bounded(state) && now < TIME_LIMIT && !gen.Exhausted(now)
      requires Summarises(hk, hint, File(active, state.log[active]))
      modifies this, gen
      ensures OnDisk() && Ids() && Tied() && state == Rotated(old(state), id) && id > old(state.top)
      ensures gen.lastTimestamp == Latest(old(gen.lastTimestamp), now)
    {
      id := NewId(now);
      AddFile(id, hint);
    }

    method AddFile(id: nat, hint: Data)
      requires OnDisk() && Tied() && active in state.log && id !in state.log
      requires Summarises(hk, hint, File(active, state.log[active]))
      modifies this
      ensures OnDisk() && Tied() && state == Rotated(old(state), id)
    {
      StoredNew(k, image, files, state.log, id);
      HintsRotate(hk, hints, state.hinted, state.log, active, hint, id);
      hints := hints[active := hint];
      files := files[id := []];
      active := id;
      stats := stats[id := FileStats(0, 0, 0)];
      state := Rotated(state, id);
    }

    /** DataFile::AsyncWrite: the record goes to the end of the file. */
    method WriteTo(id: nat, e: Entry) returns (offset: nat)
      requires OnDisk() && id in state.log && Proper(e)
      modifies `files
      ensures Stored(image, files, state.log[id := state.log[id] + [e]])
      ensures offset == LenOf(state.log[id])
    {
      StoredAppend(k, image, files, state.log, id, e);
      offset := |files[id]|;
      files := files[id := files[id] + k.write(e)];
    }

    method Put(key: Data, value: Data, ts: nat, now: nat)
      requires Valid() && Fits(Entry(ts, 0, key, value)) && now < TIME_LIMIT
      requires if ShouldRotate() then !gen.Exhausted(now) else HasRoom(Entry(ts, 0, key, value).Size())
      modifies this, gen
      ensures Valid() && state.model == old(state.model)[key := value]
      ensures state.written == old(state.written) + {(key, value)}
      ensures Evolved(old(state), state) && state.work <= old(state.work) + 2
      ensures Tombless(old(state.log)) ==> Tombless(state.log)
      ensures gen.lastTimestamp <= Latest(old(gen.lastTimestamp), now)
      ensures PutFrom(old(state), state, old(active in files && |files[active]| >= maxFileSize), key, value, ts)
    {
      ActiveSize();
      if ShouldRotate() {
        PutRotating(key, value, ts, now);
      } else {
        PutHere(key, value, ts);
      }
    }

    /** Put into a new active file. */
    method PutRotating(key: Data, value: Data, ts: nat, now: nat)
      requires Valid() && Fits(Entry(ts, 0, key, value)) && now < TIME_LIMIT && !gen.Exhausted(now)
      modifies this, gen
      ensures Valid() && state.model == old(state.model)[key := value]
      ensures state.written == old(state.written) + {(key, value)}
      ensures Evolved(old(state), state) && state.work == old(state.work) + 2
      ensures Tombless(old(state.log)) ==> Tombless(state.log)
      ensures gen.lastTimestamp == Latest(old(gen.lastTimestamp), now)
      ensures PutFrom(old(state), state, true, key, value, ts)
    {
      ghost var s := state;
      ActiveSize();
      RotateActiveFile(now);
      ghost var t := state;
      PutHere(key, value, ts);
      EvolvedAgain(s, t, state);
    }

    /** Put once the active file has room. */
    method PutHere(key: Data, value: Data, ts: nat)
      requires Valid() && Fits(Entry(ts, 0, key, value))
      requires active in state.log && LenOf(state.log[active]) + HEADER + |key| + |value| < WORD64
      modifies this
      ensures Valid() && state.model == old(state.model)[key := value] && active == old(active)
      ensures state.written == old(state.written) + {(key, value)}
      ensures Evolved(old(state), state) && state.work == old(state.work) + 1
      ensures Tombless(old(state.log)) ==> Tombless(state.log)
      ensures PutFrom(old(state), state, false, key, value, ts)
    {
      ghost var s := state;
      assert In(s);
      WriteAndIndex(key, value, ts);
      PutGood(s, key, value, ts);
      Folded();
      if Tombless(s.log) { TomblessAppend(s.log, s.active, Entry(ts, 0, key, value)); }
    }

    method WriteAndIndex(key: Data, value: Data, ts: nat)
      requires OnDisk() && Tied() && active in state.log && active !in state.hinted && Fits(Entry(ts, 0, key, value))
      modifies this
      ensures OnDisk() && Tied() && state == AfterPut(old(state), key, value, ts)
    {
      HintsAppend(hk, hints, state.hinted, state.log, active, Entry(ts, 0, key, value));
      var offset := WriteTo(active, Entry(ts, 0, key, value));
      IndexPut(key, LocFor(active, offset, key, value, ts));
      state := AfterPut(state, key, value, ts);
    }

    /** The index and the counters once the record is written. */
    method IndexPut(key: Data, loc: Loc)
      modifies `keydir, `stats
      ensures keydir == old(keydir)[key := loc] && stats == PutStats(old(stats), old(keydir), key, loc)
    {
      if key in keydir { stats := Release(stats, keydir[key]); }
      keydir := keydir[key := loc];
      stats := Charge(stats, loc);
    }

    method Del(key: Data, ts: nat)
      requires Valid() && Fits(Entry(ts, TOMBSTONE, key, [])) && HasRoom(Entry(ts, TOMBSTONE, key, []).Size())
      modifies this
      ensures Valid() && state.model == old(state.model) - {key} && state.written == old(state.written)
      ensures Evolved(old(state), state) && state.work <= old(state.work) + 1
      ensures DelFrom(old(state), state, key, ts)
    {
      ActiveSize();
      if key in keydir {
        DelPresent(key, ts);
      } else {
        assert In(state);
        AbsentDel(state, key);
      }
    }

    method DelPresent(key: Data, ts: nat)
      requires Valid() && key in keydir && Fits(Entry(ts, TOMBSTONE, key, []))
      requires active in state.log && LenOf(state.log[active]) + HEADER + |key| < WORD64
      modifies this
      ensures Valid() && state.model == old(state.model) - {key} && state.written == old(state.written)
      ensures Evolved(old(state), state) && state.work == old(state.work) + 1
      ensures DelFrom(old(state), state, key, ts)
    {
      ghost var s := state;
      assert In(s);
      EraseAndWrite(key, ts);
      DelGood(s, key, ts);
      Folded();
    }

    method EraseAndWrite(key: Data, ts: nat)
      requires OnDisk() && Tied() && active in state.log && active !in state.hinted && key in keydir
      requires Fits(Entry(ts, TOMBSTONE, key, []))
      modifies this
      ensures OnDisk() && Tied() && state == AfterDel(old(state), key, ts)
    {
      var tombstone := Entry(ts, TOMBSTONE, key, []);
      HintsAppend(hk, hints, state.hinted, state.log, active, tombstone);
      Unindex(key);
      var _ := WriteTo(active, tombstone);
      stats := Grow(stats, active, tombstone.Size());
      state := AfterDel(state, key, ts);
    }

    /** The key is gone from the index, and what it had counted is released. */
    method Unindex(key: Data)
      requires key in keydir
      modifies `keydir, `stats
      ensures keydir == old(keydir) - {key} && stats == Release(old(stats), old(keydir)[key])
    {
      stats := Release(stats, keydir[key]);
      keydir := keydir - {key};
    }

    lemma ReadsRight(key: Data)
      requires Valid()
      ensures key in keydir <==> key in state.model
      ensures key in keydir ==>
                && keydir[key].file in files
                && ReadAt(k, files[keydir[key].file], keydir[key], key) == Some(state.model[key])
    {
      assert In(state);
      if key in keydir { IndexReads(k, image, files, state, key); }
    }

    /** Get: look up, read the record, check that it is this key's and not a tombstone. */
    method Get(key: Data) returns (r: Option<Data>)
      requires Valid()
      ensures r == if key in state.model then Some(state.model[key]) else None
    {
      ReadsRight(key);
      if key !in keydir { return None; }
      var loc := keydir[key];
      return ReadAt(k, files[loc.file], loc, key);
    }
  }

  /** A state about to get its active file. */
  ghost predicate OpenState(s: State) {
    && Indexed(s.keydir, s.log, s.model) && Written(s.log, s.written) && s.uncounted == {} && s.forgotten == {}
    && (s.replayable ==> Increasing(s.created) && (forall i | 0 <= i < |s.created| :: s.created[i] in s.log)
                         && (forall id | id in s.log :: id in s.created)
                           && s.keydir == ReplayFiles(FilesOf(s.created, s.log)))
    && s.stats.Keys == s.log.Keys
    && (forall id {:trigger CountOk(s.stats, s.keydir, s.log, s.slack(id), id)} | id in s.log ::
      CountOk(s.stats, s.keydir, s.log, s.slack(id), id))
    && (forall id | id in s.log :: id <= s.top) && (forall id | id in s.hinted :: id in s.log)
  }

  ghost function Opened(s: State, id: nat): State {
    s.(active := id, log := s.log[id := []], created := s.created + [id], stats := s.stats[id := FileStats(0, 0, 0)],
       slack := SetSlack(s.slack, id, NONE), top := id, work := s.work + 1)
  }

  lemma OpenedMeans(s: State, id: nat)
    requires OpenState(s) && id > s.top
    ensures Means(Opened(s, id)) && Bounded(Opened(s, id)) && Fronts(Opened(s, id))
  {
    var t := Opened(s, id);
    AllIndexed(s.keydir, s.log, s.model);
    forall key | key in t.keydir && key in t.model ensures Points(t.log, t.keydir[key], key, t.model[key]) {
      assert Points(s.log, s.keydir[key], key, s.model[key]);
    }
    WrittenNew(s.log, s.written, id);
    assert InFile(t.keydir, id) == map[];
  }

  lemma OpenedCounts(s: State, id: nat)
    requires OpenState(s) && id > s.top
    ensures Counts(Opened(s, id))
  {
    var t := Opened(s, id);
    AllIndexed(s.keydir, s.log, s.model);
    CountNew(s.stats, s.keydir, s.log, id);
    forall x | x in t.log && x !in t.uncounted && x !in t.forgotten
      ensures CountOk(t.stats, t.keydir, t.log, t.slack(x), x)
    {
      if x != id { assert CountOk(s.stats, s.keydir, s.log, s.slack(x), x); }
    }
  }

  lemma OpenedGood(s: State, id: nat)
    requires OpenState(s) && id > s.top
    ensures var t := Opened(s, id); Means(t) && Replays(t) && Counts(t) && Bounded(t) && Fronts(t)
  {
    OpenedMeans(s, id);
    OpenedCounts(s, id);
    if s.replayable { ReplayNew(s.created, s.log, id); }
  }

  lemma AbsentDel(s: State, key: Data)
    requires Means(s) && Bounded(s) && key !in s.keydir
    ensures s.model - {key} == s.model && Evolved(s, s)
  {
    assert key !in s.model;
  }

  lemma EvolvedAgain(s: State, t: State, u: State)
    requires Evolved(s, t) && Evolved(t, u) && t.active > s.top && Topped(s)
    ensures Evolved(s, u)
  {}

  /** Releasing a key takes a counter of its file below zero: on unsigned words, it wraps. */
  predicate Underflows(stats: Stats, loc: Loc) {
    Release(stats, loc)[loc.file].live < 0 || Release(stats, loc)[loc.file].entries < 0
  }

  /**
   In every state of every run: overwriting or deleting a key takes a counter below zero if and only
   if the key is in a file whose counters are not written yet. That is the file a compaction is
   copying to, and none when no compaction is copying.
   */
  lemma UnderflowsIff(s: State, key: Data)
    requires Means(s) && Counts(s) && key in s.keydir
    ensures Underflows(s.stats, s.keydir[key]) <==> s.keydir[key].file in s.uncounted
  {
    var loc := s.keydir[key];
    assert key in s.model && Points(s.log, loc, key, s.model[key]);
    if loc.file !in s.uncounted {
      assert CountOk(s.stats, s.keydir, s.log, s.slack(loc.file), loc.file);
      CountRelease(s.stats, s.keydir, s.log, s.slack(loc.file), key, loc.file);
    }
  }

  /** Nothing is counted as live in any file without a key that points there. */
  ghost predicate Precise(s: State) { forall id {:trigger s.slack(id)} | id in s.log :: s.slack(id) == NONE }

  /** An operation outside a compaction, or during one, leaves exact counters exact. */
  lemma PreciseEvolves(s: State, t: State)
    requires Precise(s) && Later(s, t)
    ensures Precise(t)
  {
    forall id | id in t.log ensures t.slack(id) == NONE { assert id in s.log || id > s.top; }
  }
}
