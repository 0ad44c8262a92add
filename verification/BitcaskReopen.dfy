/** Closing a partition and opening it again from its directory. */
module BitcaskReopen {
  import opened Bytes
  import opened Wrappers
  import opened BitcaskEntry
  import opened BitcaskLog
  import opened BitcaskHints
  import opened BitcaskRecovery
  import opened BitcaskAccounting
  import opened BitcaskPartition
  import opened FileIds

  // ---------------------------------------------------------------- the index

  /** One file's contribution: its hints if it has them, else a scan of its data. */
  method RecoverFile(k: Codec, ghost image: Image, hk: HintCodec, kd: KeyDir, id: nat, data: Data,
                     hint: Option<Data>, readSize: Reads, ghost es: seq<Entry>)
    returns (r: KeyDir)
    requires Imaged(k, image) && HintLawful(hk) && data == image(es) && AllFit(es) && forall i :: readSize(i) > 0
    requires hint.Some? ==> Summarises(hk, hint.value, File(id, es))
    ensures r == if hint.Some? then kd + HintsOf(File(id, es)) else Replay(kd, id, es)
  {
    if hint.Some? {
      r := RecoverFromHintFile(hk, kd, id, hint.value);
    } else {
      var got;
      r, got := RecoverFromDataFile(k, kd, id, data, readSize);
      assert image(es) == BytesOf(k, es);
      ScanIsReplay(k, kd, id, es);
      ScanPrefix(k, kd, id, data, got);
    }
  }

  /** No prefix of a sound file looks corrupt. */
  lemma ScanPrefix(k: Codec, kd: KeyDir, file: nat, d: Data, got: nat)
    requires Lawful(k) && got <= |d| && !Scan(k, kd, file, d, 0).corrupt
    ensures !Scan(k, kd, file, d[..got], 0).corrupt
    ensures got == |d| ==> d[..got] == d
  {
    ScanMore(k, kd, file, d[..got], d[got..], 0);
    assert d[..got] + d[got..] == d;
  }

  function HasHint(hints: set<nat>): Hinted { (id: nat) => id in hints }

  /** The loop over the files, oldest first. */
  method RecoverFiles(k: Codec, ghost image: Image, files: map<nat, Data>, order: seq<nat>, hk: HintCodec,
                      hints: map<nat, Data>, readSize: Reads, ghost log: Log) returns (kd: KeyDir)
    requires Imaged(k, image) && Stored(image, files, log) && forall i | 0 <= i < |order| :: order[i] in log
    requires HintLawful(hk) && HintsKept(hk, hints, hints.Keys, log) && forall i :: readSize(i) > 0
    ensures kd == Recover(FilesOf(order, log), HasHint(hints.Keys))
  {
    ghost var fs := FilesOf(order, log);
    kd := map[];
    for i := 0 to |order|
      invariant kd == Recover(fs[..i], HasHint(hints.Keys))
    {
      var id := order[i];
      RecoverNext(order, log, HasHint(hints.Keys), i);
      assert files[id] == image(log[id]);
      var hint := if id in hints then Some(hints[id]) else None;
      kd := RecoverFile(k, image, hk, kd, id, files[id], hint, readSize, log[id]);
    }
    assert fs[..|order|] == fs;
  }

  lemma RecoverNext(order: seq<nat>, log: Log, hinted: Hinted, i: nat)
    requires (forall j | 0 <= j < |order| :: order[j] in log) && i < |order|
    ensures var fs, f := FilesOf(order, log), File(order[i], log[order[i]]);
            Recover(fs[..i + 1], hinted) == if hinted(f.id) then Recover(fs[..i], hinted) + HintsOf(f)
              else Replay(Recover(fs[..i], hinted), f.id, f.records)
  {
    var fs := FilesOf(order, log);
    assert fs[..i + 1][..i] == fs[..i];
  }

  /**
   Without hint files the live index comes back exactly; with them, exactly when no tombstone is
   hidden behind one.
   */
  lemma RecoveredIndex(created: seq<nat>, active: nat, log: Log, live: KeyDir, hinted: Hinted)
    requires Replayed(created, active, log, live)
    ensures Recover(FilesOf(created, log), hinted) == live <==> NoBuriedPut(FilesOf(created, log), hinted)
    ensures (forall i | 0 <= i < |created| :: !hinted(created[i])) ==> Recover(FilesOf(created, log), hinted) == live
    ensures forall key | key in live :: Lookup(Recover(FilesOf(created, log), hinted), key) == Some(live[key])
  {
    var fs := FilesOf(created, log);
    RecoverExact(fs, hinted);
    if forall i | 0 <= i < |created| :: !hinted(created[i]) { ScanRecoversAll(fs, hinted); }
    forall key | key in live
      ensures Lookup(Recover(fs, hinted), key) == Some(live[key])
    {
      RecoverCoversLive(fs, hinted, key);
    }
  }

  // ---------------------------------------------------------------- what a recovered index means

  /** The value of the record at an offset. */
  function ValueAt(es: seq<Entry>, offset: nat): Data {
    if es == [] then [] else if offset == LenOf(es[..|es| - 1]) then es[|es| - 1].value
      else ValueAt(es[..|es| - 1], offset)
  }

  lemma {:induction false} ValueLocated(es: seq<Entry>, offset: nat, e: Entry)
    requires Located(es, offset, e)
    ensures ValueAt(es, offset) == e.value
  {
    var n := |es| - 1;
    if offset == LenOf(es[..n]) {
      LocatedIndex(es, n);
      LocatedOnce(es, offset, e, es[n]);
    } else {
      ValueLocated(es[..n], offset, e);
    }
  }

  ghost predicate PutAt(log: Log, loc: Loc, key: Data) {
    loc.file in log && Points(log, loc, key, ValueAt(log[loc.file], loc.offset))
  }

  ghost predicate PutIn(es: seq<Entry>, loc: Loc, key: Data) {
    && Located(es, loc.offset, Entry(loc.timestamp, 0, key, ValueAt(es, loc.offset)))
    && loc.size == HEADER + |key| + |ValueAt(es, loc.offset)|
  }

  /** Replaying a file alone points at puts of it. */
  lemma {:induction false} ReplayPoints(file: nat, es: seq<Entry>, key: Data)
    requires AllFit(es) && key in Replay(map[], file, es)
    ensures var loc := Replay(map[], file, es)[key]; loc.file == file && PutIn(es, loc, key)
  {
    var n := |es| - 1;
    if es[n].key == key {
      LocatedIndex(es, n);
      assert Proper(es[n]);
    } else {
      ReplayPoints(file, es[..n], key);
      var loc := Replay(map[], file, es[..n])[key];
      LocatedBound(es[..n], loc.offset, Entry(loc.timestamp, 0, key, ValueAt(es[..n], loc.offset)));
    }
  }

  /** So does recovery, from hints or data. */
  lemma {:induction false} RecoverPoints(fs: seq<File>, hinted: Hinted, log: Log, key: Data)
    requires forall i | 0 <= i < |fs| :: fs[i].id in log && fs[i].records == log[fs[i].id] && AllFit(fs[i].records)
    requires key in Recover(fs, hinted)
    ensures PutAt(log, Recover(fs, hinted)[key], key)
  {
    var n := |fs| - 1;
    var f, kd := fs[n], Recover(fs[..n], hinted);
    ReplayAt(kd, f.id, f.records, key);
    if key in HintsOf(f) {
      ReplayPoints(f.id, f.records, key);
      assert Lookup(Recover(fs, hinted), key) == Lookup(HintsOf(f), key);
    } else {
      assert Lookup(Recover(fs, hinted), key) == Lookup(kd, key);
      RecoverPoints(fs[..n], hinted, log, key);
    }
  }

  ghost function Meaning(kd: KeyDir, log: Log): map<Data, Data> {
    map key | key in kd && kd[key].file in log :: ValueAt(log[kd[key].file], kd[key].offset)
  }

  lemma RecoveredMeans(image: Image, files: map<nat, Data>, order: seq<nat>, log: Log, hinted: Hinted)
    requires Stored(image, files, log) && forall i | 0 <= i < |order| :: order[i] in log
    ensures var kd := Recover(FilesOf(order, log), hinted); Indexed(kd, log, Meaning(kd, log))
  {
    var fs := FilesOf(order, log);
    var kd := Recover(fs, hinted);
    forall i | 0 <= i < |fs| ensures AllFit(fs[i].records) { assert files[order[i]] == image(log[order[i]]); }
    forall key | key in kd ensures PutAt(log, kd[key], key) { RecoverPoints(fs, hinted, log, key); }
  }

  /** A key with the same location means the same. */
  lemma SameMeaning(kd: KeyDir, log: Log, model: map<Data, Data>, other: KeyDir, key: Data)
    requires Indexed(kd, log, model) && key in kd && Lookup(other, key) == Some(kd[key])
    ensures key in Meaning(other, log) && key in model && Meaning(other, log)[key] == model[key]
  {
    assert key in model && Points(log, kd[key], key, model[key]);
    ValueLocated(log[kd[key].file], kd[key].offset, Entry(kd[key].timestamp, 0, key, model[key]));
  }

  // ---------------------------------------------------------------- the counters

  ghost function Exact(kd: KeyDir, log: Log, id: nat): FileStats
    requires id in log
  { FileStats(LenOf(log[id]), LiveBytes(kd, id), LiveEntries(kd, id)) }

  /** Every file's counters are the sums over the index, and its total the bytes in it. */
  ghost predicate Accounted(stats: Stats, kd: KeyDir, log: Log) {
    && stats.Keys == log.Keys
    && forall id {:trigger stats[id]} | id in log && id in stats :: stats[id] == Exact(kd, log, id)
  }

  /** Exact counters leave no slack. */
  lemma AccountedCounts(stats: Stats, kd: KeyDir, log: Log, model: map<Data, Data>, id: nat)
    requires Accounted(stats, kd, log) && Indexed(kd, log, model) && id in log
    ensures CountOk(stats, kd, log, NONE, id)
  {
    assert stats[id] == Exact(kd, log, id);
    IndexedIn(kd, log, model, id);
    LiveFull(kd, id, log[id], model);
  }

  ghost predicate DistinctWalk(walk: seq<Data>, kd: KeyDir) {
    Walk(walk, kd) && forall i, j | 0 <= i < j < |walk| :: walk[i] != walk[j]
  }

  ghost function Among(kd: KeyDir, keys: seq<Data>): KeyDir { map key | key in kd && key in keys :: kd[key] }

  /** Recover's first loop over the counters: sizes from the directory. */
  method RecoverTotals(files: map<nat, Data>, ids: seq<nat>, ghost log: Log) returns (stats: Stats)
    requires files.Keys == log.Keys && forall id | id in files :: |files[id]| == LenOf(log[id])
    requires (forall i | 0 <= i < |ids| :: ids[i] in files) && (forall id | id in files :: id in ids)
    ensures Accounted(stats, map[], log)
  {
    stats := map[];
    for i := 0 to |ids|
      invariant forall id :: id in stats <==> id in ids[..i]
      invariant forall id | id in stats :: id in files && stats[id] == FileStats(|files[id]|, 0, 0)
    {
      assert ids[..i + 1] == ids[..i] + [ids[i]];
      stats := stats[ids[i] := FileStats(|files[ids[i]]|, 0, 0)];
    }
    assert ids[..|ids|] == ids;
    assert stats.Keys == log.Keys;
  }

  /** Its second: live sums from the index. */
  method RecoverStats(files: map<nat, Data>, ids: seq<nat>, kd: KeyDir, walk: seq<Data>, ghost log: Log)
    returns (stats: Stats)
    requires files.Keys == log.Keys && forall id | id in files :: |files[id]| == LenOf(log[id])
    requires (forall i | 0 <= i < |ids| :: ids[i] in files) && (forall id | id in files :: id in ids)
    requires DistinctWalk(walk, kd) && forall key | key in kd :: kd[key].file in log
    ensures Accounted(stats, kd, log)
  {
    stats := RecoverTotals(files, ids, log);
    assert Among(kd, walk[..0]) == map[];
    for i := 0 to |walk|
      invariant Accounted(stats, Among(kd, walk[..i]), log)
    {
      AmongNext(kd, walk, i);
      AccountLoad(stats, Among(kd, walk[..i]), log, walk[i], kd[walk[i]]);
      stats := AddLive(stats, kd[walk[i]]);
    }
    assert Among(kd, walk[..|walk|]) == kd;
  }

  function AddLive(stats: Stats, loc: Loc): Stats {
    var s := Stat(stats, loc.file);
    stats[loc.file := FileStats(s.total, s.live + loc.size, s.entries + 1)]
  }

  lemma AmongNext(kd: KeyDir, walk: seq<Data>, i: nat)
    requires DistinctWalk(walk, kd) && i < |walk|
    ensures walk[i] in kd && walk[i] !in Among(kd, walk[..i])
    ensures Among(kd, walk[..i + 1]) == Among(kd, walk[..i])[walk[i] := kd[walk[i]]]
  {
    assert walk[..i + 1] == walk[..i] + [walk[i]];
  }

  lemma AccountLoad(stats: Stats, kd: KeyDir, log: Log, key: Data, loc: Loc)
    requires Accounted(stats, kd, log) && key !in kd && loc.file in log
    ensures Accounted(AddLive(stats, loc), kd[key := loc], log)
  {
    var after := AddLive(stats, loc);
    assert kd - {key} == kd;
    forall id | id in log && id in after ensures after[id] == Exact(kd[key := loc], log, id) {
      assert id in stats && stats[id] == Exact(kd, log, id);
      ChargeExact(kd, key, loc, id);
    }
  }

  // ---------------------------------------------------------------- opening

  /** The highest of the ids, which recovery hands to the generator. */
  method MaxId(order: seq<nat>) returns (m: nat)
    ensures (forall i | 0 <= i < |order| :: order[i] <= m) && (order == [] ==> m == 0) && (order != [] ==> m in order)
  {
    m := 0;
    for i := 0 to |order|
      invariant (forall j | 0 <= j < i :: order[j] <= m) && (if i == 0 then m == 0 else m in order[..i])
    {
      assert order[..i + 1] == order[..i] + [order[i]];
      m := if order[i] > m then order[i] else m;
    }
    assert order[..|order|] == order;
  }

  /** A generator that goes on above every file found. */
  method RestoreGenerator(partition: nat, order: seq<nat>) returns (gen: FileIdGenerator)
    requires partition < SEQ_LIMIT
    requires forall i | 0 <= i < |order| :: order[i] < WORD64 && Decode(order[i]).partition == partition
    ensures fresh(gen) && gen.Valid() && gen.partition == partition
    ensures forall i | 0 <= i < |order| :: order[i] <= gen.Last()
    ensures gen.sequence == 0 || exists i :: 0 <= i < |order| && gen.sequence == Decode(order[i]).sequence
    ensures (gen.lastTimestamp == 0 && gen.sequence == 0) || gen.Last() in order
  {
    gen := new FileIdGenerator(partition);
    var m := MaxId(order);
    if m > 0 {
      EncodeDecode(m);
      var d := Decode(m);
      assert d.partition == partition && d.sequence < SEQ_LIMIT;
      gen.UpdateState(d.seconds, d.sequence);
      assert gen.Last() >= m;
      DecodeEncode(FileId(partition, gen.lastTimestamp, gen.sequence));
    }
  }

  /** The recovered state, before its active file is created. */
  ghost function Recovered(p: State, order: seq<nat>, hints: set<nat>, kd: KeyDir, stats: Stats, top: nat): State {
    State(kd, stats, 0, p.log, Meaning(kd, p.log), p.written, order, p.replayable && kd == p.keydir,
          (x: nat) => NONE, {}, {}, hints, top, p.work)
  }

  lemma RecoveredCounts(stats: Stats, kd: KeyDir, log: Log, model: map<Data, Data>)
    requires Accounted(stats, kd, log) && Indexed(kd, log, model)
    ensures stats.Keys == log.Keys
    ensures forall id {:trigger CountOk(stats, kd, log, NONE, id)} | id in log :: CountOk(stats, kd, log, NONE, id)
  {
    forall id | id in log ensures CountOk(stats, kd, log, NONE, id) { AccountedCounts(stats, kd, log, model, id); }
  }

  lemma RecoveredOpens(p: State, order: seq<nat>, hints: map<nat, Data>, kd: KeyDir, stats: Stats, top: nat)
    requires Replays(p) && Written(p.log, p.written) && (forall id :: id in order <==> id in p.log)
    requires (p.replayable ==> order == p.created)
    requires Indexed(kd, p.log, Meaning(kd, p.log)) && Accounted(stats, kd, p.log)
    requires (forall id | id in p.log :: id <= top) && forall id | id in hints :: id in p.log
    ensures OpenState(Recovered(p, order, hints.Keys, kd, stats, top))
  {
    RecoveredCounts(stats, kd, p.log, Meaning(kd, p.log));
    var s := Recovered(p, order, hints.Keys, kd, stats, top);
    forall id | id in s.log ensures CountOk(s.stats, s.keydir, s.log, s.slack(id), id) {
      assert CountOk(stats, kd, p.log, NONE, id);
    }
  }

  /** What a reopened partition q keeps of p. */
  ghost predicate Reopened(p: State, order: seq<nat>, hints: set<nat>, q: State)
    requires forall i | 0 <= i < |order| :: order[i] in p.log
  {
    && q.keydir == Recover(FilesOf(order, p.log), HasHint(hints)) && q.active !in p.log
    && q.log == p.log[q.active := []]
    && q.model == Meaning(q.keydir, p.log) && q.written == p.written && q.uncounted == {} && q.forgotten == {}
    && q.work == p.work + 1
    && (forall id | id in p.log :: id < q.active) && (forall id | id in q.log :: q.slack(id) == NONE)
    && (q.replayable <==> p.replayable && q.keydir == p.keydir)
  }

  /** The hint files found on opening: those of sealed files, and of the active one after a clean close. */
  method Close(p: Partition, clean: bool) returns (hints: map<nat, Data>)
    requires p.Valid()
    ensures HintLawful(p.hk) && HintsKept(p.hk, hints, hints.Keys, p.state.log)
    ensures hints.Keys == if clean then p.state.hinted + {p.active} else p.state.hinted
  {
    assert p.In(p.state);
    hints := p.hints;
    if clean {
      var hint := p.SealActive();
      ghost var before := hints;
      hints := hints[p.active := hint];
      forall id | id in hints ensures id in p.state.log && Summarises(p.hk, hints[id], File(id, p.state.log[id])) {
        if id != p.active { assert before[id] == hints[id]; }
      }
    }
  }

  /** Every file has an id of the partition, with a sequence number that has been issued. */
  ghost predicate Numbered(log: Log, partition: nat, work: nat) {
    forall id | id in log :: id < WORD64 && Decode(id).partition == partition && Decode(id).sequence <= work
  }

  /** The listing of the directory is the creation order whenever that is known. */
  lemma ListingIsOrder(s: State, partition: nat, order: seq<nat>)
    requires Replays(s) && s.replayable && Numbered(s.log, partition, s.work)
    requires Sorted(order) && (forall id :: id in order <==> id in s.log)
    requires forall i, j | 0 <= i < j < |order| :: order[i] != order[j]
    ensures order == s.created
  {
    SameFiles(order, s.created);
    SortRestoresOrder(order, s.created, partition);
  }

  /** What closing a partition relies on. */
  lemma Closable(p: Partition)
    requires p.Valid()
    ensures Imaged(p.k, p.image) && Stored(p.image, p.files, p.state.log) && Replays(p.state)
    ensures Written(p.state.log, p.state.written)
    ensures Numbered(p.state.log, p.gen.partition, p.state.work) && Topped(p.state)
    ensures p.gen.Valid() && p.gen.Last() == p.state.top
  {
    assert p.In(p.state);
    DecodeEncode(FileId(p.gen.partition, p.gen.lastTimestamp, p.gen.sequence));
  }

  /** The directory of a partition: what recovery works from. */
  datatype Directory = Directory(
    k: Codec, hk: HintCodec, maxFileSize: nat, partition: nat, files: map<nat, Data>, hints: map<nat, Data>)

  ghost predicate Found(d: Directory, image: Image, s: State) {
    && Imaged(d.k, image) && Stored(image, d.files, s.log) && HintLawful(d.hk)
    && HintsKept(d.hk, d.hints, d.hints.Keys, s.log)
    && Replays(s) && Written(s.log, s.written) && Numbered(s.log, d.partition, s.work)
  }

  /** The order lists the files by time, which is the creation order whenever that is known. */
  ghost predicate Listed(s: State, order: seq<nat>) {
    Sorted(order) && (forall id :: id in order <==> id in s.log) && (s.replayable ==> order == s.created)
  }

  /** The generator goes on above every file. */
  ghost predicate Above(gen: FileIdGenerator, d: Directory, s: State, last: nat)
    reads gen
  {
    && gen.Valid() && gen.partition == d.partition && gen.sequence <= s.work && gen.lastTimestamp <= last
    && forall id | id in s.log :: id <= gen.Last()
  }

  lemma NotLater(gen: FileIdGenerator, was: FileIdGenerator, order: seq<nat>)
    requires gen.Valid() && was.Valid() && gen.partition == was.partition
    requires forall i | 0 <= i < |order| :: order[i] <= was.Last()
    requires (gen.lastTimestamp == 0 && gen.sequence == 0) || gen.Last() in order
    ensures gen.lastTimestamp <= was.lastTimestamp
  {
    if gen.Last() in order {
      LowerIsEarlier(FileId(gen.partition, gen.lastTimestamp, gen.sequence),
        FileId(was.partition, was.lastTimestamp, was.sequence));
    }
  }

  /**
   Main theorem: a partition opened again, after a clean close or not, is in good order: its index
   is what recovery makes of the files, its counters are exact, its new file is above every old one
   whatever the clock says (ReopenedMeans says what it means). It is refused only when the ids of a
   second have run out.
   */
  method Reopen(p: Partition, clean: bool, now: nat, readSize: Reads)
    returns (r: Option<Partition>, ghost order: seq<nat>, ghost hints: set<nat>)
    requires p.Valid() && now < TIME_LIMIT && forall i :: readSize(i) > 0
    ensures r.None? ==> p.state.work >= 0xFFFF && now <= p.gen.lastTimestamp
    ensures r.Some? ==> r.value.gen.lastTimestamp <= Latest(p.gen.lastTimestamp, now)
    ensures Listed(p.state, order) && hints == if clean then p.state.hinted + {p.active} else p.state.hinted
    ensures r.Some? ==>
            fresh(r.value) && fresh(r.value.gen) && r.value.Valid() && Reopened(p.state, order, hints, r.value.state)
  {
    var d, listing, gen := Shut(p, clean);
    order, hints := listing, d.hints.Keys;
    r := RecoverAndOpen(d, p.image, p.state, listing, gen, now, readSize, p.gen.lastTimestamp);
  }

  /** What is found on opening, the files in order, and a generator above them. */
  method Shut(p: Partition, clean: bool) returns (d: Directory, order: seq<nat>, gen: FileIdGenerator)
    requires p.Valid()
    ensures Found(d, p.image, p.state)
    ensures d.hints.Keys == (if clean then p.state.hinted + {p.active} else p.state.hinted)
    ensures Listed(p.state, order) && fresh(gen) && Above(gen, d, p.state, p.gen.lastTimestamp)
  {
    Closable(p);
    var hints := Close(p, clean);
    d := Directory(p.k, p.hk, p.maxFileSize, p.gen.partition, p.files, hints);
    order := ScanDataFiles(p.files.Keys);
    if p.state.replayable { ListingIsOrder(p.state, p.gen.partition, order); }
    gen := RestoreAbove(p, order);
  }

  /** The generator for the files of a partition. */
  method RestoreAbove(p: Partition, order: seq<nat>) returns (gen: FileIdGenerator)
    requires Numbered(p.state.log, p.gen.partition, p.state.work) && Topped(p.state)
    requires forall id :: id in order <==> id in p.state.log
    requires p.gen.Valid() && p.gen.Last() == p.state.top
    ensures fresh(gen) && gen.Valid() && gen.partition == p.gen.partition && gen.sequence <= p.state.work
    ensures gen.lastTimestamp <= p.gen.lastTimestamp && forall id | id in p.state.log :: id <= gen.Last()
  {
    assert forall i | 0 <= i < |order| :: order[i] in p.state.log;
    gen := RestoreGenerator(p.gen.partition, order);
    assert forall id | id in p.state.log :: id in order && id <= gen.Last();
    NotLater(gen, p.gen, order);
  }

  /** Recover()'s index and counters. */
  method RecoverAll(d: Directory, ghost image: Image, ghost s: State, order: seq<nat>, readSize: Reads)
    returns (kd: KeyDir, stats: Stats)
    requires Found(d, image, s) && Listed(s, order) && forall i :: readSize(i) > 0
    ensures kd == Recover(FilesOf(order, s.log), HasHint(d.hints.Keys)) && Accounted(stats, kd, s.log)
    ensures Indexed(kd, s.log, Meaning(kd, s.log))
  {
    kd := RecoverFiles(d.k, image, d.files, order, d.hk, d.hints, readSize, s.log);
    RecoveredMeans(image, d.files, order, s.log, HasHint(d.hints.Keys));
    AllIndexed(kd, s.log, Meaning(kd, s.log));
    forall id | id in d.files ensures |d.files[id]| == LenOf(s.log[id]) { StoredSize(d.k, image, d.files, s.log, id); }
    var walk := WalkOf(kd);
    stats := RecoverStats(d.files, order, kd, walk, s.log);
  }

  method RecoverAndOpen(d: Directory, ghost image: Image, ghost s: State, order: seq<nat>, gen: FileIdGenerator,
                        now: nat, readSize: Reads, ghost last: nat)
    returns (r: Option<Partition>)
    requires Found(d, image, s) && Listed(s, order) && Above(gen, d, s, last)
    requires now < TIME_LIMIT && forall i :: readSize(i) > 0
    modifies gen
    ensures r.None? ==> s.work >= 0xFFFF && now <= last
    ensures r.Some? ==> r.value.gen.lastTimestamp <= Latest(last, now)
    ensures r.Some? ==>
            fresh(r.value) && r.value.gen == gen && r.value.Valid() && Reopened(s, order, d.hints.Keys, r.value.state)
  {
    if gen.Exhausted(now) { return None; }
    var kd, stats := RecoverAll(d, image, s, order, readSize);
    ghost var top := gen.Last();
    var q := OpenRecovered(d, image, s, order, kd, stats, gen, now, last);
    OpenedReopens(s, order, d.hints, kd, stats, top, q.active);
    return Some(q);
  }

  method OpenRecovered(d: Directory, ghost image: Image, ghost s: State, order: seq<nat>, kd: KeyDir, stats: Stats,
                       gen: FileIdGenerator, now: nat, ghost last: nat)
    returns (q: Partition)
    requires Found(d, image, s) && Listed(s, order) && Above(gen, d, s, last) && now < TIME_LIMIT && !gen.Exhausted(now)
    requires Indexed(kd, s.log, Meaning(kd, s.log)) && Accounted(stats, kd, s.log)
    modifies gen
    ensures fresh(q) && q.gen == gen && q.Valid() && q.active > old(gen.Last())
    ensures gen.lastTimestamp <= Latest(last, now)
    ensures q.state == Opened(Recovered(s, order, d.hints.Keys, kd, stats, old(gen.Last())), q.active)
  {
    ghost var t := Recovered(s, order, d.hints.Keys, kd, stats, gen.Last());
    RecoveredOpens(s, order, d.hints, kd, stats, gen.Last());
    q := new Partition(d.k, d.hk, gen, d.maxFileSize, now, kd, d.files, d.hints, stats, image, t);
  }

  lemma OpenedReopens(p: State, order: seq<nat>, hints: map<nat, Data>, kd: KeyDir, stats: Stats, top: nat, id: nat)
    requires (forall x :: x in order <==> x in p.log) && kd == Recover(FilesOf(order, p.log), HasHint(hints.Keys))
    requires id > top && forall x | x in p.log :: x <= top
    ensures Reopened(p, order, hints.Keys, Opened(Recovered(p, order, hints.Keys, kd, stats, top), id))
  {}

  /**
   The index comes back from any directory, compacted or not, exactly when it is in force on disk;
   then so does what it means.
   */
  lemma ReopenedExact(p: State, order: seq<nat>, hints: set<nat>, q: State)
    requires Means(p) && Listed(p, order) && Reopened(p, order, hints, q)
    ensures q.keydir == p.keydir <==> InForce(FilesOf(order, p.log), HasHint(hints), p.keydir)
    ensures q.keydir == p.keydir ==> q.model == p.model
  {
    RecoverInForce(FilesOf(order, p.log), HasHint(hints), p.keydir);
    if q.keydir == p.keydir { SameMeanings(p.keydir, p.log, p.model); }
  }

  lemma SameMeanings(kd: KeyDir, log: Log, model: map<Data, Data>)
    requires Indexed(kd, log, model)
    ensures Meaning(kd, log) == model
  {
    forall key | key in model ensures key in Meaning(kd, log) && Meaning(kd, log)[key] == model[key] {
      assert key in kd;
      SameMeaning(kd, log, model, kd, key);
    }
    forall key | key in Meaning(kd, log) ensures key in model { assert key in kd; }
  }

  /** A reopening makes the counters exact. */
  lemma PreciseReopened(p: State, order: seq<nat>, hints: set<nat>, q: State)
    requires (forall i | 0 <= i < |order| :: order[i] in p.log) && Reopened(p, order, hints, q)
    ensures Precise(q)
  {}

  /** What survives a reopening. */
  lemma ReopenedMeans(p: State, order: seq<nat>, hints: set<nat>, q: State)
    requires Means(p) && Replays(p) && p.replayable && order == p.created && Reopened(p, order, hints, q)
    ensures q.keydir == p.keydir <==> NoBuriedPut(FilesOf(order, p.log), HasHint(hints))
    ensures q.keydir == p.keydir ==> q.model == p.model && q.replayable
    ensures forall key | key in p.model :: key in q.model && q.model[key] == p.model[key]
    ensures hints == {} ==> q.model == p.model
  {
    RecoveredIndex(p.created, p.active, p.log, p.keydir, HasHint(hints));
    forall key | key in p.model ensures key in q.model && q.model[key] == p.model[key] {
      assert key in p.keydir;
      SameMeaning(p.keydir, p.log, p.model, q.keydir, key);
    }
    if q.keydir == p.keydir {
      forall key | key in q.model ensures key in p.model { assert key in p.keydir; }
    }
  }
}
