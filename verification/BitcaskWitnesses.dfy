/** Small states, built operation by operation, in which a promise of the store fails. */
module BitcaskWitnesses {
  import opened Bytes
  import opened Wrappers
  import opened BitcaskEntry
  import opened BitcaskLog
  import opened BitcaskRecovery
  import opened BitcaskAccounting
  import opened BitcaskPartition
  import opened BitcaskReads
  import opened BitcaskReopen
  import opened BitcaskCompaction

  // ---------------------------------------------------------------- building states

  /** The states the witnesses start from: good, and with no compaction under way. */
  ghost predicate Calm(s: State) { Good(s) && s.uncounted == {} && s.forgotten == {} }

  lemma FirstFile() returns (s: State)
    ensures Calm(s) && s.active == s.top == 1
    ensures s.keydir == map[] && s.log == map[1 := []] && s.stats.Keys == {1}
  {
    var s0 := State(map[], map[], 0, map[], map[], {}, [], true, (x: nat) => NONE, {}, {}, {}, 0, 0);
    OpenedGood(s0, 1);
    s := Opened(s0, 1);
  }

  /** One key put into file 1. */
  lemma OnePut(key: Data, value: Data) returns (s: State)
    requires HEADER + |key| + |value| < WORD32
    ensures Calm(s) && s.active == s.top == 1 && s.stats.Keys == {1}
    ensures s.log == map[1 := [Entry(1, 0, key, value)]] && s.keydir == map[key := LocFor(1, 0, key, value, 1)]
  {
    var s1 := FirstFile();
    PutGood(s1, key, value, 1);
    s := AfterPut(s1, key, value, 1);
    assert [] + [Entry(1, 0, key, value)] == [Entry(1, 0, key, value)];
  }

  /** The active file, which is file 1, sealed, and file 2 started. */
  lemma Seal(s: State)
    requires Calm(s) && s.active == s.top == 1 && s.log.Keys == {1} && s.stats.Keys == {1}
    ensures Calm(Rotated(s, 2)) && Rotated(s, 2).log.Keys == {1, 2} && Rotated(s, 2).stats.Keys == {1, 2}
  {
    AllIndexed(s.keydir, s.log, s.model);
    RotatedMeans(s, 2);
    RotatedReplays(s, 2);
    RotatedCounts(s, 2);
    RotatedBounded(s, 2);
  }

  /** File 1 holds just the live record e, and the active file 2 nothing. */
  ghost predicate Holding(s: State, e: Entry) {
    && s.active == 2 && s.log == map[1 := [e], 2 := []] && s.stats.Keys == {1, 2}
    && s.keydir == map[e.key := LocFor(1, 0, e.key, e.value, e.timestamp)]
  }

  /** One put, sealed away. */
  lemma PutAndSealed(key: Data, value: Data) returns (s: State)
    requires HEADER + |key| + |value| < WORD32
    ensures Calm(s) && Holding(s, Entry(1, 0, key, value))
  {
    var t := OnePut(key, value);
    Seal(t);
    s := Rotated(t, 2);
  }

  /** The record of file 1 copied to file 3 and its key repointed. */
  ghost function MovedInto(s: State, e: Entry): (t: State)
    requires Holding(s, e)
    ensures t.active == 2 && t.log == map[1 := [e], 2 := [], 3 := [e]]
  {
    assert [] + [e] == [e];
    Moved(Copied(Begun(s, 3), 3, e), e.key, LocFor(3, 0, e.key, e.value, e.timestamp))
  }

  // ---------------------------------------------------------------- counters

  /** A live key deleted while its copy is being written: the new file counts the copy as live for good. */
  lemma DeletedWhileCopying(key: Data, value: Data, ts: nat) returns (s: State, t: State)
    requires HEADER + |key| + |value| < WORD32
    ensures var e := Entry(1, 0, key, value);
            && Calm(s) && Holding(s, e)
            && t == Totalled(AfterDel(Copied(Begun(s, 3), 3, e), key, ts), 3)
            && LiveBytes(t.keydir, 3) == 0 && t.stats[3].live == e.Size() && t.slack(3) == Slack(e.Size(), 1)
  {
    s := PutAndSealed(key, value);
    var e := Entry(1, 0, key, value);
    var u := AfterDel(Copied(Begun(s, 3), 3, e), key, ts);
    assert u.log[3] == [] + [e];
    NothingLive(u.keydir, 3, e);
    t := Totalled(u, 3);
  }

  lemma NothingLive(kd: KeyDir, id: nat, e: Entry)
    requires forall key | key in kd :: kd[key].file != id
    ensures LiveBytes(kd, id) == 0 && LiveEntries(kd, id) == 0 && LenOf([] + [e]) == e.Size()
  {
    SumZero(kd, BytesIn(id));
    SumZero(kd, EntriesIn(id));
    LenSnoc([], e);
  }

  /** A key deleted after it was repointed and before the new file has counters: they go below zero. */
  lemma DeletedAfterMove(key: Data, value: Data, ts: nat) returns (s: State, t: State)
    requires HEADER + |key| + |value| < WORD32
    ensures var e := Entry(1, 0, key, value);
            && Calm(s) && Holding(s, e)
            && t == AfterDel(MovedInto(s, e), key, ts)
            && 3 in t.stats && t.stats[3] == FileStats(0, 0 - (e.Size() as int), -1)
  {
    s := PutAndSealed(key, value);
    t := AfterDel(MovedInto(s, Entry(1, 0, key, value)), key, ts);
  }

  // ---------------------------------------------------------------- restarts

  /** A copy in the file with the highest id wins, with or without hint files. */
  lemma CopyWins(log: Log, e: Entry, hinted: Hinted)
    requires log.Keys == {2, 3} && log[3] == [e] && !e.IsTombstone()
    ensures Returns(log, hinted, e.key, e.value)
  {
    var fs := FilesOf([2, 3], log);
    assert fs[1] == File(3, [e]) && [e][..0] == [];
    assert LastOf([e], e.key) == Some(e) && Decides(fs, hinted, 1, e.key);
    RecoverLookup(fs, hinted, 1, e.key);
    assert Replay(map[], 3, [e]) == Apply(Replay(map[], 3, []), 3, LenOf([e][..0]), e);
  }

  /** File 1 compacted into file 3. */
  ghost function CompactedInto(s: State, e: Entry): (t: State)
    requires Holding(s, e)
    ensures t.active == 2 && t.log == map[2 := [], 3 := [e]]
  {
    Removed(Forgotten(Totalled(MovedInto(s, e), 3), 1), 1)
  }

  /**
   A put that follows a compaction is undone by the next restart, whatever hint files there are: the
   older copy is in a file with a higher id than the put.
   */
  lemma OldValueReturns(key: Data, before: Data, value: Data, hinted: Hinted) returns (s: State, t: State)
    requires HEADER + |key| + |before| < WORD32
    ensures Calm(s) && Holding(s, Entry(1, 0, key, before))
    ensures t == AfterPut(CompactedInto(s, Entry(1, 0, key, before)), key, value, 2)
    ensures key in t.model && t.model[key] == value
    ensures key in t.keydir && t.keydir[key].file == 2
    ensures t.log.Keys == {2, 3} && Returns(t.log, hinted, key, before)
  {
    s := PutAndSealed(key, before);
    var settled := CompactedInto(s, Entry(1, 0, key, before));
    PutAgain(settled, Entry(1, 0, key, before), value, hinted);
    t := AfterPut(settled, key, value, 2);
  }

  /** Recovery finds the key in file 3, with this value. */
  ghost predicate Returns(log: Log, hinted: Hinted, key: Data, value: Data)
    requires log.Keys == {2, 3}
  {
    var kd := Recover(FilesOf([2, 3], log), hinted);
    key in kd && kd[key].file == 3 && ValueAt(log[3], kd[key].offset) == value
  }

  lemma PutAgain(s: State, e: Entry, value: Data, hinted: Hinted)
    requires s.active == 2 && s.log == map[2 := [], 3 := [e]] && !e.IsTombstone()
    ensures var t := AfterPut(s, e.key, value, 2);
            && e.key in t.model && t.model[e.key] == value && e.key in t.keydir && t.keydir[e.key].file == 2
            && t.log.Keys == {2, 3} && Returns(t.log, hinted, e.key, e.value)
  {
    var t := AfterPut(s, e.key, value, 2);
    assert t.log.Keys == {2, 3};
    CopyWins(t.log, e, hinted);
  }

  // ---------------------------------------------------------------- reads

  /** Two keys put into file 1, which is sealed. */
  lemma TwoPutsSealed(first: Data, a: Data, second: Data, b: Data) returns (s: State)
    requires first != second && HEADER + |first| + |a| < WORD32 && HEADER + |second| + |b| < WORD32
    ensures Calm(s) && s.active == 2 && s.log == map[1 := [Entry(1, 0, first, a), Entry(2, 0, second, b)], 2 := []]
    ensures first in s.keydir && second in s.keydir && s.keydir[second].file == 1
    ensures second in s.model && s.model[second] == b
  {
    var t := TwoPuts(first, a, second, b);
    Seal(t);
    s := Rotated(t, 2);
  }

  lemma TwoPuts(first: Data, a: Data, second: Data, b: Data) returns (s: State)
    requires first != second && HEADER + |first| + |a| < WORD32 && HEADER + |second| + |b| < WORD32
    ensures Calm(s) && s.active == s.top == 1 && s.stats.Keys == {1}
    ensures s.log == map[1 := [Entry(1, 0, first, a), Entry(2, 0, second, b)]]
    ensures first in s.keydir && second in s.keydir && s.keydir[second].file == 1
    ensures second in s.model && s.model[second] == b
  {
    var t := OnePut(first, a);
    PutGood(t, second, b, 2);
    s := AfterPut(t, second, b, 2);
    assert [Entry(1, 0, first, a)] + [Entry(2, 0, second, b)] == [Entry(1, 0, first, a), Entry(2, 0, second, b)];
  }

  /**
   A Get that has opened file 1 for a live key, while a compaction copies its record to the front of
   file 3 and repoints the key: it misses the key.
   */
  lemma GetMissesLiveKey(k: Codec, image: Image, first: Data, a: Data, second: Data, b: Data)
    returns (s: State, t: State)
    requires Imaged(k, image) && first != second
    requires HEADER + |first| + |a| < WORD32 && HEADER + |second| + |b| < WORD32
    ensures var e := Entry(2, 0, second, b);
            && Calm(s) && second in s.keydir && s.keydir[second].file == 1
            && s.log.Keys == {1, 2} && s.log[1] == [Entry(1, 0, first, a), e]
            && t == Moved(Copied(Begun(s, 3), 3, e), second, LocFor(3, 0, second, b, 2))
            && second in t.model && t.model[second] == b
            && ReadAt(k, image(s.log[1]), t.keydir[second], second) != Some(b)
  {
    s := TwoPutsSealed(first, a, second, b);
    t := Moved(Copied(Begun(s, 3), 3, Entry(2, 0, second, b)), second, LocFor(3, 0, second, b, 2));
    ReadsOther(k, image, Entry(1, 0, first, a), Entry(2, 0, second, b));
  }

  /** The front of the file holds the other record, of whatever size. */
  lemma ReadsOther(k: Codec, image: Image, other: Entry, e: Entry)
    requires Imaged(k, image) && Proper(other) && Proper(e) && other.key != e.key
    ensures ReadAt(k, image([other, e]), LocFor(3, 0, e.key, e.value, e.timestamp), e.key) != Some(e.value)
  {
    var es := [other, e];
    assert es[..1] == [other] && [other][..0] == [];
    assert Located([other], 0, other);
    GetOntoRecord(k, image, es, LocFor(3, 0, e.key, e.value, e.timestamp), other, e.key, e.value);
  }
}
