/**
 Rebuilding the index of a whole directory: by scanning data files in creation
 order, and by loading the hint files of sealed ones.
 */
module BitcaskRecovery {
  import opened Bytes
  import opened Wrappers
  import opened BitcaskEntry
  import opened BitcaskLog
  import opened BitcaskHints

  datatype File = File(id: nat, records: seq<Entry>)

  /** The data files replayed one after the other. */
  function ReplayFiles(fs: seq<File>): KeyDir {
    if fs == [] then map[] else Replay(ReplayFiles(fs[..|fs| - 1]), fs[|fs| - 1].id, fs[|fs| - 1].records)
  }

  /** What a file's hint file says: the file replayed alone. */
  function HintsOf(f: File): KeyDir { Replay(map[], f.id, f.records) }

  /** Loading the hint file adds exactly what replaying the file alone would leave. */
  ghost predicate Summarises(hk: HintCodec, d: Data, f: File)
    requires HintLawful(hk)
  {
    forall base: KeyDir {:trigger Load(hk, base, f.id, d)} :: Load(hk, base, f.id, d) == base + HintsOf(f)
  }

  /** Which files have a hint file. */
  type Hinted = nat -> bool

  /** Recover(): oldest file first, each from its hint file when there is one, else by scanning its data. */
  function Recover(fs: seq<File>, hinted: Hinted): KeyDir {
    if fs == [] then map[]
    else
      var kd, f := Recover(fs[..|fs| - 1], hinted), fs[|fs| - 1];
      if hinted(f.id) then kd + HintsOf(f) else Replay(kd, f.id, f.records)
  }

  /** All records, oldest first. */
  function AllRecords(fs: seq<File>): seq<Entry> {
    if fs == [] then [] else AllRecords(fs[..|fs| - 1]) + fs[|fs| - 1].records
  }

  /** The last record of a key. */
  function LastOf(es: seq<Entry>, key: Data): Option<Entry> {
    if es == [] then None
    else if es[|es| - 1].key == key then Some(es[|es| - 1])
    else LastOf(es[..|es| - 1], key)
  }

  predicate EndsPut(es: seq<Entry>, key: Data) { LastOf(es, key).Some? && !LastOf(es, key).value.IsTombstone() }

  function Lookup(kd: KeyDir, key: Data): Option<Loc> { if key in kd then Some(kd[key]) else None }

  /** A file decides the keys it mentions, by their last record in it, and leaves the others. */
  lemma {:induction false} ReplayAt(kd: KeyDir, file: nat, es: seq<Entry>, key: Data)
    ensures Lookup(Replay(kd, file, es), key) ==
            if LastOf(es, key).None? then Lookup(kd, key)
            else if EndsPut(es, key) then Lookup(Replay(map[], file, es), key)
            else None
    ensures key in Replay(map[], file, es) <==> EndsPut(es, key)
  {
    if es != [] { ReplayAt(kd, file, es[..|es| - 1], key); }
  }

  lemma {:induction false} LastOfConcat(a: seq<Entry>, b: seq<Entry>, key: Data)
    ensures LastOf(a + b, key) == if LastOf(b, key).Some? then LastOf(b, key) else LastOf(a, key)
    decreases |b|
  {
    if b == [] {
      assert a + b == a;
    } else {
      assert (a + b)[..|a + b| - 1] == a + b[..|b| - 1];
      LastOfConcat(a, b[..|b| - 1], key);
    }
  }

  /** A key is in the rebuilt index exactly when its last record anywhere is not a tombstone. */
  lemma {:induction false} InReplayFiles(fs: seq<File>, key: Data)
    ensures key in ReplayFiles(fs) <==> EndsPut(AllRecords(fs), key)
  {
    if fs != [] {
      var n := |fs| - 1;
      InReplayFiles(fs[..n], key);
      ReplayAt(ReplayFiles(fs[..n]), fs[n].id, fs[n].records, key);
      LastOfConcat(AllRecords(fs[..n]), fs[n].records, key);
    }
  }

  /** Recovery never loses or misplaces a live key. */
  lemma {:induction false} RecoverCoversLive(fs: seq<File>, hinted: Hinted, key: Data)
    ensures key in ReplayFiles(fs) ==> Lookup(Recover(fs, hinted), key) == Lookup(ReplayFiles(fs), key)
  {
    if fs != [] {
      var n := |fs| - 1;
      RecoverCoversLive(fs[..n], hinted, key);
      ReplayAt(ReplayFiles(fs[..n]), fs[n].id, fs[n].records, key);
      ReplayAt(Recover(fs[..n], hinted), fs[n].id, fs[n].records, key);
    }
  }

  /** File i ends a key's records with a put, and recovery scans no later record of that key. */
  ghost predicate Kept(fs: seq<File>, hinted: Hinted, i: nat, key: Data)
    requires i < |fs|
  {
    EndsPut(fs[i].records, key) && forall j | i < j < |fs| :: hinted(fs[j].id) || LastOf(fs[j].records, key).None?
  }

  lemma {:induction false} InRecover(fs: seq<File>, hinted: Hinted, key: Data)
    ensures key in Recover(fs, hinted) <==> exists i :: 0 <= i < |fs| && Kept(fs, hinted, i, key)
  {
    if fs != [] {
      var n := |fs| - 1;
      var pre, f := fs[..n], fs[n];
      InRecover(pre, hinted, key);
      ReplayAt(map[], f.id, f.records, key);
      ReplayAt(Recover(pre, hinted), f.id, f.records, key);
      if EndsPut(f.records, key) { assert Kept(fs, hinted, n, key); }
      if key in Recover(fs, hinted) && !EndsPut(f.records, key) {
        var i :| 0 <= i < n && Kept(pre, hinted, i, key);
        KeptLonger(fs, hinted, i, key);
        assert Kept(fs, hinted, i, key);
      }
      if i :| 0 <= i < |fs| && Kept(fs, hinted, i, key) {
        if i < n { KeptLonger(fs, hinted, i, key); }
      }
    }
  }

  lemma KeptLonger(fs: seq<File>, hinted: Hinted, i: nat, key: Data)
    requires i < |fs| - 1
    ensures var n := |fs| - 1;
            Kept(fs, hinted, i, key) <==>
            Kept(fs[..n], hinted, i, key) && (hinted(fs[n].id) || LastOf(fs[n].records, key).None?)
  {
    var pre := fs[..|fs| - 1];
    assert forall j | 0 <= j < |pre| :: pre[j] == fs[j];
  }

  /** Every put that recovery keeps is still in force: no tombstone hides behind a hint file. */
  ghost predicate NoBuriedPut(fs: seq<File>, hinted: Hinted) {
    forall i, key | 0 <= i < |fs| && Kept(fs, hinted, i, key) :: EndsPut(AllRecords(fs), key)
  }

  /** Recovery gives the live index exactly when no kept put was deleted later on. */
  lemma RecoverExact(fs: seq<File>, hinted: Hinted)
    ensures Recover(fs, hinted) == ReplayFiles(fs) <==> NoBuriedPut(fs, hinted)
  {
    if NoBuriedPut(fs, hinted) {
      forall key ensures Lookup(Recover(fs, hinted), key) == Lookup(ReplayFiles(fs), key) {
        InRecover(fs, hinted, key);
        InReplayFiles(fs, key);
        RecoverCoversLive(fs, hinted, key);
      }
      SameLookups(Recover(fs, hinted), ReplayFiles(fs));
    }
    if Recover(fs, hinted) == ReplayFiles(fs) {
      forall i, key | 0 <= i < |fs| && Kept(fs, hinted, i, key) ensures EndsPut(AllRecords(fs), key) {
        InRecover(fs, hinted, key);
        InReplayFiles(fs, key);
      }
    }
  }

  /** With no hint files at all, recovery is always exact. */
  lemma {:induction false} ScanRecoversAll(fs: seq<File>, hinted: Hinted)
    requires forall i | 0 <= i < |fs| :: !hinted(fs[i].id)
    ensures Recover(fs, hinted) == ReplayFiles(fs)
  {
    if fs != [] {
      assert forall i | 0 <= i < |fs| - 1 :: fs[..|fs| - 1][i] == fs[i];
      ScanRecoversAll(fs[..|fs| - 1], hinted);
    }
  }

  // ---------------------------------------------------------------- against any index

  /** File i is the last to give the key: it keeps a put, and no later file has one of its own. */
  ghost predicate Decides(fs: seq<File>, hinted: Hinted, i: nat, key: Data)
    requires i < |fs|
  {
    Kept(fs, hinted, i, key) && forall j | i < j < |fs| :: !EndsPut(fs[j].records, key)
  }

  lemma {:induction false} RecoverLookup(fs: seq<File>, hinted: Hinted, i: nat, key: Data)
    requires i < |fs| && Decides(fs, hinted, i, key)
    ensures Lookup(Recover(fs, hinted), key) == Lookup(HintsOf(fs[i]), key)
  {
    var n := |fs| - 1;
    var pre, f := fs[..n], fs[n];
    ReplayAt(map[], f.id, f.records, key);
    ReplayAt(Recover(pre, hinted), f.id, f.records, key);
    if i < n {
      KeptLonger(fs, hinted, i, key);
      assert forall j | 0 <= j < n :: pre[j] == fs[j];
      RecoverLookup(pre, hinted, i, key);
    }
  }

  lemma {:induction false} SomeDecides(fs: seq<File>, hinted: Hinted, key: Data) returns (i: nat)
    requires key in Recover(fs, hinted)
    ensures i < |fs| && Decides(fs, hinted, i, key)
  {
    var n := |fs| - 1;
    var pre, f := fs[..n], fs[n];
    ReplayAt(map[], f.id, f.records, key);
    ReplayAt(Recover(pre, hinted), f.id, f.records, key);
    if EndsPut(f.records, key) {
      i := n;
    } else {
      i := SomeDecides(pre, hinted, key);
      KeptLonger(fs, hinted, i, key);
      assert forall j | 0 <= j < n :: pre[j] == fs[j];
    }
  }

  /**
   On disk, in this order, each key of the index is given last where the index points, and no other
   key is given at all.
   */
  ghost predicate InForce(fs: seq<File>, hinted: Hinted, kd: KeyDir) {
    && (forall key | key in kd :: exists i ::
      0 <= i < |fs| && fs[i].id == kd[key].file && Decides(fs, hinted, i, key)
        && Lookup(HintsOf(fs[i]), key) == Some(kd[key]))
    && (forall key, i | key !in kd && 0 <= i < |fs| :: !Kept(fs, hinted, i, key))
  }

  /** Recovery gives back any index at all, whatever has been compacted, exactly when it is in force on disk. */
  lemma RecoverInForce(fs: seq<File>, hinted: Hinted, kd: KeyDir)
    ensures Recover(fs, hinted) == kd <==> InForce(fs, hinted, kd)
  {
    if Recover(fs, hinted) == kd { InForceNeeded(fs, hinted, kd); }
    if InForce(fs, hinted, kd) {
      forall key ensures Lookup(Recover(fs, hinted), key) == Lookup(kd, key) {
        InRecover(fs, hinted, key);
        if key in kd {
          var i :| 0 <= i < |fs| && Decides(fs, hinted, i, key) && Lookup(HintsOf(fs[i]), key) == Some(kd[key]);
          RecoverLookup(fs, hinted, i, key);
        }
      }
      SameLookups(Recover(fs, hinted), kd);
    }
  }

  lemma InForceNeeded(fs: seq<File>, hinted: Hinted, kd: KeyDir)
    requires Recover(fs, hinted) == kd
    ensures InForce(fs, hinted, kd)
  {
    forall key | key in kd
      ensures exists i ::
              0 <= i < |fs| && fs[i].id == kd[key].file && Decides(fs, hinted, i, key)
                && Lookup(HintsOf(fs[i]), key) == Some(kd[key])
    {
      var i := SomeDecides(fs, hinted, key);
      RecoverLookup(fs, hinted, i, key);
      ReplayStays(fs[i].id, fs[i].records, key);
    }
    forall key, i | key !in kd && 0 <= i < |fs| ensures !Kept(fs, hinted, i, key) { InRecover(fs, hinted, key); }
  }

  /** Without tombstones nothing is buried. */
  lemma NoTombstones(fs: seq<File>, hinted: Hinted)
    requires forall i, j {:trigger fs[i].records[j]} | 0 <= i < |fs| && 0 <= j < |fs[i].records| ::
            !fs[i].records[j].IsTombstone()
    ensures NoBuriedPut(fs, hinted)
  {
    forall i, key | 0 <= i < |fs| && Kept(fs, hinted, i, key) ensures EndsPut(AllRecords(fs), key) {
      MentionedIn(fs, i, key);
      AllPuts(fs);
      LastIsOne(AllRecords(fs), key);
    }
  }

  lemma {:induction false} MentionedIn(fs: seq<File>, i: nat, key: Data)
    requires i < |fs| && LastOf(fs[i].records, key).Some?
    ensures LastOf(AllRecords(fs), key).Some?
  {
    var n := |fs| - 1;
    LastOfConcat(AllRecords(fs[..n]), fs[n].records, key);
    if i < n { MentionedIn(fs[..n], i, key); }
  }

  lemma {:induction false} AllPuts(fs: seq<File>)
    requires forall i, j {:trigger fs[i].records[j]} | 0 <= i < |fs| && 0 <= j < |fs[i].records| ::
            !fs[i].records[j].IsTombstone()
    ensures forall j | 0 <= j < |AllRecords(fs)| :: !AllRecords(fs)[j].IsTombstone()
  {
    if fs != [] {
      var n := |fs| - 1;
      var pre := fs[..n];
      forall i, j | 0 <= i < |pre| && 0 <= j < |pre[i].records| ensures !pre[i].records[j].IsTombstone() {
        assert !fs[i].records[j].IsTombstone();
      }
      AllPuts(pre);
      var a, all := AllRecords(pre), AllRecords(fs);
      forall j | 0 <= j < |all| ensures !all[j].IsTombstone() {
        if j >= |a| { assert !fs[n].records[j - |a|].IsTombstone(); }
      }
    }
  }

  lemma {:induction false} LastIsOne(es: seq<Entry>, key: Data)
    requires LastOf(es, key).Some? && forall j | 0 <= j < |es| :: !es[j].IsTombstone()
    ensures !LastOf(es, key).value.IsTombstone()
  {
    if es[|es| - 1].key != key { LastIsOne(es[..|es| - 1], key); }
  }

  lemma SameLookups(a: KeyDir, b: KeyDir)
    requires forall key :: Lookup(a, key) == Lookup(b, key)
    ensures a == b
  {
    forall key ensures key in a <==> key in b { assert Lookup(a, key) == Lookup(b, key); }
    forall key | key in a ensures a[key] == b[key] { assert Lookup(a, key) == Lookup(b, key); }
  }

  /** A key put, sealed away, then deleted comes back when both files have hints. */
  lemma DeletedKeyReturns(key: Data, value: Data)
    ensures var fs := [File(1, [Entry(1, 0, key, value)]), File(2, [Entry(2, TOMBSTONE, key, [])])];
            key !in ReplayFiles(fs) && key in Recover(fs, _ => true)
  {
    var put, tomb := [Entry(1, 0, key, value)], [Entry(2, TOMBSTONE, key, [])];
    var fs := [File(1, put), File(2, tomb)];
    assert fs[..1] == [File(1, put)] && AllRecords(fs) == AllRecords(fs[..1]) + tomb;
    assert LastOf(tomb, key) == Some(tomb[0]) && LastOf(put, key) == Some(put[0]);
    LastOfConcat(AllRecords(fs[..1]), tomb, key);
    InReplayFiles(fs, key);
    var all: Hinted := _ => true;
    assert Kept(fs, all, 0, key);
    InRecover(fs, all, key);
    assert Recover(fs, _ => true) == Recover(fs, all);
  }

  /** The hint file written when a file is sealed equals that file replayed alone. */
  lemma HintEqualsReplay(before: KeyDir, f: File)
    requires forall key | key in before :: before[key].file != f.id
    ensures InFile(Replay(before, f.id, f.records), f.id) == HintsOf(f)
  {
    var live := Replay(before, f.id, f.records);
    forall key ensures Lookup(InFile(live, f.id), key) == Lookup(HintsOf(f), key) {
      ReplayAt(before, f.id, f.records, key);
      ReplayStays(f.id, f.records, key);
    }
    SameLookups(InFile(live, f.id), HintsOf(f));
  }

  lemma {:induction false} ReplayStays(file: nat, es: seq<Entry>, key: Data)
    ensures key in Replay(map[], file, es) ==> Replay(map[], file, es)[key].file == file
  {
    if es != [] { ReplayStays(file, es[..|es| - 1], key); }
  }
}
