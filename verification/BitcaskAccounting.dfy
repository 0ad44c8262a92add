/** Per-file live bytes and entries, as sums over the index. */
module BitcaskAccounting {
  import opened Bytes
  import opened BitcaskEntry
  import opened BitcaskLog

  type Log = map<nat, seq<Entry>>

  // ---------------------------------------------------------------- the index against the files

  /** The location holds a put of this key and value. */
  ghost predicate Points(log: Log, loc: Loc, key: Data, value: Data) {
    && loc.file in log && Located(log[loc.file], loc.offset, Entry(loc.timestamp, 0, key, value))
    && loc.size == HEADER + |key| + |value|
  }

  /** The index represents the plain map. */
  ghost predicate Indexed(kd: KeyDir, log: Log, model: map<Data, Data>) {
    && (forall key {:trigger key in kd} {:trigger key in model} :: key in kd <==> key in model)
    && (forall key {:trigger kd[key]} | key in kd && key in model :: Points(log, kd[key], key, model[key]))
  }

  lemma PointsKept(log: Log, id: nat, e: Entry, loc: Loc, key: Data, value: Data)
    requires id in log && Points(log, loc, key, value)
    ensures Points(log[id := log[id] + [e]], loc, key, value)
  {
    if loc.file == id { LocatedKept(log[id], e, loc.offset, Entry(loc.timestamp, 0, key, value)); }
  }

  /** Appending a record to a file disturbs nothing the index points to. */
  lemma IndexedAppend(kd: KeyDir, log: Log, model: map<Data, Data>, id: nat, e: Entry)
    requires id in log && Indexed(kd, log, model)
    ensures Indexed(kd, log[id := log[id] + [e]], model)
  {
    forall key | key in kd && key in model ensures Points(log[id := log[id] + [e]], kd[key], key, model[key]) {
      PointsKept(log, id, e, kd[key], key, model[key]);
    }
  }

  // ---------------------------------------------------------------- sums over the index

  ghost function Pick(kd: KeyDir): Data
    requires kd != map[]
    ensures Pick(kd) in kd
  {
    var key :| key in kd; key
  }

  /** The sum of a weight over all locations. */
  ghost function Sum(kd: KeyDir, w: Loc -> nat): nat
    decreases |kd|
  {
    if kd == map[] then 0
    else
      Smaller(kd, Pick(kd));
      w(kd[Pick(kd)]) + Sum(kd - {Pick(kd)}, w)
  }

  lemma Smaller(kd: KeyDir, key: Data)
    requires key in kd
    ensures |kd - {key}| < |kd|
  {
    assert (kd - {key}).Keys == kd.Keys - {key};
    assert |(kd - {key}).Keys| < |kd.Keys|;
  }

  /** Any key can be split off. */
  lemma {:induction false} SumSplit(kd: KeyDir, w: Loc -> nat, key: Data)
    requires key in kd
    ensures Sum(kd, w) == w(kd[key]) + Sum(kd - {key}, w)
    decreases |kd|
  {
    var p := Pick(kd);
    if p != key {
      Smaller(kd, p);
      Smaller(kd, key);
      SumSplit(kd - {p}, w, key);
      SumSplit(kd - {key}, w, p);
      assert kd - {p} - {key} == kd - {key} - {p};
    }
  }

  /** Setting one key. */
  lemma SumSet(kd: KeyDir, w: Loc -> nat, key: Data, loc: Loc)
    ensures Sum(kd[key := loc], w) == w(loc) + Sum(kd - {key}, w)
  {
    SumSplit(kd[key := loc], w, key);
    assert kd[key := loc] - {key} == kd - {key};
  }

  lemma {:induction false} SumZero(kd: KeyDir, w: Loc -> nat)
    requires forall key | key in kd :: w(kd[key]) == 0
    ensures Sum(kd, w) == 0
    decreases |kd|
  {
    if kd != map[] {
      Smaller(kd, Pick(kd));
      SumZero(kd - {Pick(kd)}, w);
    }
  }

  function BytesIn(file: nat): Loc -> nat { (loc: Loc) => if loc.file == file then loc.size else 0 }
  function EntriesIn(file: nat): Loc -> nat { (loc: Loc) => if loc.file == file then 1 else 0 }

  ghost function LiveBytes(kd: KeyDir, file: nat): nat { Sum(kd, BytesIn(file)) }
  ghost function LiveEntries(kd: KeyDir, file: nat): nat { Sum(kd, EntriesIn(file)) }

  /** Every location in the file is a record of it. */
  ghost predicate AllIn(kd: KeyDir, file: nat, es: seq<Entry>, model: map<Data, Data>) {
    forall key {:trigger kd[key]} | key in kd && kd[key].file == file ::
      && key in model && Located(es, kd[key].offset, Entry(kd[key].timestamp, 0, key, model[key]))
      && kd[key].size == HEADER + |key| + |model[key]|
  }

  lemma LastAt(es: seq<Entry>, e: Entry)
    requires es != [] && Located(es, LenOf(es[..|es| - 1]), e)
    ensures e == es[|es| - 1]
  {
    LocatedIndex(es, |es| - 1);
    LocatedOnce(es, LenOf(es[..|es| - 1]), e, es[|es| - 1]);
  }

  /** Only the last record's own key can be located at it; all others lie before. */
  lemma OnlyKeyAt(kd: KeyDir, file: nat, es: seq<Entry>, model: map<Data, Data>)
    requires es != [] && AllIn(kd, file, es, model)
    ensures var n := |es| - 1;
            forall key {:trigger kd[key]} | key in kd && kd[key].file == file :: 
              if kd[key].offset == LenOf(es[..n]) then key == es[n].key
                else Located(es[..n], kd[key].offset, Entry(kd[key].timestamp, 0, key, model[key]))
  {
    var n := |es| - 1;
    forall key {:trigger kd[key]} | key in kd && kd[key].file == file && kd[key].offset == LenOf(es[..n])
      ensures key == es[n].key
    {
      LastAt(es, Entry(kd[key].timestamp, 0, key, model[key]));
    }
  }

  /** Record i is what the index has for its key. */
  ghost predicate LiveAt(kd: KeyDir, file: nat, es: seq<Entry>, i: nat)
    requires i < |es|
  { es[i].key in kd && kd[es[i].key].file == file && kd[es[i].key].offset == LenOf(es[..i]) }

  /** No record of the file has lost its key. */
  ghost predicate AllLive(kd: KeyDir, file: nat, es: seq<Entry>) {
    forall i {:trigger LiveAt(kd, file, es, i)} | 0 <= i < |es| :: LiveAt(kd, file, es, i)
  }

  /** Dropping the last record: the others are live as they were, with or without its key. */
  lemma LiveBefore(kd: KeyDir, file: nat, es: seq<Entry>)
    requires es != [] && LiveAt(kd, file, es, |es| - 1)
    ensures AllLive(kd, file, es) <==> AllLive(kd - {es[|es| - 1].key}, file, es[..|es| - 1])
  {
    var n := |es| - 1;
    var pre, rest := es[..n], kd - {es[n].key};
    forall i | 0 <= i < n ensures LiveAt(kd, file, es, i) <==> LiveAt(rest, file, pre, i) {
      assert pre[..i] == es[..i];
      if es[i].key == es[n].key { LocatedIndex(pre, i); LocatedBound(pre, LenOf(pre[..i]), pre[i]); }
    }
    if AllLive(kd, file, es) {
      forall i | 0 <= i < n ensures LiveAt(rest, file, pre, i) { assert LiveAt(kd, file, es, i); }
    }
    if AllLive(rest, file, pre) {
      forall i | 0 <= i < |es| ensures LiveAt(kd, file, es, i) { if i < n { assert LiveAt(rest, file, pre, i); } }
    }
  }

  /** The counts of a file are its whole size exactly when no record has lost its key. */
  lemma {:induction false} LiveFull(kd: KeyDir, file: nat, es: seq<Entry>, model: map<Data, Data>)
    requires AllIn(kd, file, es, model)
    ensures LiveBytes(kd, file) <= LenOf(es) && LiveEntries(kd, file) <= |es|
    ensures LiveBytes(kd, file) == LenOf(es) <==> AllLive(kd, file, es)
    ensures LiveEntries(kd, file) == |es| <==> AllLive(kd, file, es)
    decreases |es|
  {
    if es == [] {
      SumZero(kd, BytesIn(file));
      SumZero(kd, EntriesIn(file));
    } else {
      var n := |es| - 1;
      var key := es[n].key;
      OnlyKeyAt(kd, file, es, model);
      if LiveAt(kd, file, es, n) {
        LiveBefore(kd, file, es);
        LiveFull(kd - {key}, file, es[..n], model);
        SumSplit(kd, BytesIn(file), key);
        SumSplit(kd, EntriesIn(file), key);
        LastAt(es, Entry(kd[key].timestamp, 0, key, model[key]));
      } else {
        assert AllIn(kd, file, es[..n], model);
        LiveFull(kd, file, es[..n], model);
      }
    }
  }

  /** What an index points to in a file are records of it. */
  lemma IndexedIn(kd: KeyDir, log: Log, model: map<Data, Data>, file: nat)
    requires Indexed(kd, log, model) && file in log
    ensures AllIn(kd, file, log[file], model)
  {
    forall key {:trigger kd[key]} | key in kd && kd[key].file == file
      ensures key in model && Located(log[file], kd[key].offset, Entry(kd[key].timestamp, 0, key, model[key]))
      ensures kd[key].size == HEADER + |key| + |model[key]|
    {
      assert key in model && Points(log, kd[key], key, model[key]);
    }
  }

  // ---------------------------------------------------------------- grand totals

  /** The sum of a weight over files, in the order they are listed. */
  function SumOver(ids: seq<nat>, f: nat -> int): int { if ids == [] then 0 else f(ids[0]) + SumOver(ids[1..], f) }

  function Occurs(ids: seq<nat>, id: nat): nat
  {
    if ids == [] then 0 else (if ids[0] == id then 1 else 0) + Occurs(ids[1..], id)
  }

  /** Two weights that agree but at one id. */
  lemma {:induction false} SumOverMore(ids: seq<nat>, f: nat -> int, g: nat -> int, at: nat, more: nat)
    requires forall id :: f(id) == g(id) + if id == at then more else 0
    ensures SumOver(ids, f) == SumOver(ids, g) + Occurs(ids, at) * more
  {
    if ids != [] { SumOverMore(ids[1..], f, g, at, more); }
  }

  lemma {:induction false} SumOverZero(ids: seq<nat>, f: nat -> int)
    requires forall id :: f(id) == 0
    ensures SumOver(ids, f) == 0
  {
    if ids != [] { SumOverZero(ids[1..], f); }
  }

  lemma {:induction false} SumOverSame(ids: seq<nat>, f: nat -> int, g: nat -> int)
    requires forall i | 0 <= i < |ids| :: f(ids[i]) == g(ids[i])
    ensures SumOver(ids, f) == SumOver(ids, g)
  {
    if ids != [] {
      assert forall i | 0 <= i < |ids| - 1 :: ids[1..][i] == ids[i + 1];
      SumOverSame(ids[1..], f, g);
    }
  }

  function AllBytes(): Loc -> nat { (loc: Loc) => loc.size }
  function AllEntries(): Loc -> nat { (loc: Loc) => 1 }

  /** The weight of each file, from a weight for each file and location. */
  ghost function PerFile(kd: KeyDir, weigh: nat -> Loc -> nat): nat -> int { (id: nat) => Sum(kd, weigh(id)) }

  /** Every location weighs w in its own file and nothing in any other. */
  ghost predicate Splits(weigh: nat -> Loc -> nat, w: Loc -> nat) {
    forall id, loc: Loc :: weigh(id)(loc) == if loc.file == id then w(loc) else 0
  }

  lemma OneKeyMore(kd: KeyDir, key: Data, ids: seq<nat>, weigh: nat -> Loc -> nat, w: Loc -> nat)
    requires key in kd && Occurs(ids, kd[key].file) == 1 && Splits(weigh, w)
    ensures SumOver(ids, PerFile(kd, weigh)) == SumOver(ids, PerFile(kd - {key}, weigh)) + w(kd[key])
  {
    var f, g, loc := PerFile(kd, weigh), PerFile(kd - {key}, weigh), kd[key];
    forall id ensures f(id) == g(id) + (if id == loc.file then w(loc) else 0) { SumSplit(kd, weigh(id), key); }
    SumOverMore(ids, f, g, loc.file, w(loc));
  }

  lemma NoKeys(ids: seq<nat>, weigh: nat -> Loc -> nat)
    ensures SumOver(ids, PerFile(map[], weigh)) == 0
  {
    var f := PerFile(map[], weigh);
    forall id ensures f(id) == 0 { assert f(id) == Sum(map[], weigh(id)); }
    SumOverZero(ids, f);
  }

  /** A weight taken file by file adds up, over all files, to the weight of the index. */
  lemma {:induction false} GrandTotal(kd: KeyDir, ids: seq<nat>, weigh: nat -> Loc -> nat, w: Loc -> nat)
    requires Splits(weigh, w) && forall key | key in kd :: Occurs(ids, kd[key].file) == 1
    ensures SumOver(ids, PerFile(kd, weigh)) == Sum(kd, w)
    decreases |kd|
  {
    if kd == map[] {
      NoKeys(ids, weigh);
    } else {
      var key := Pick(kd);
      Smaller(kd, key);
      OneKeyMore(kd, key, ids, weigh, w);
      GrandTotal(kd - {key}, ids, weigh, w);
    }
  }

  ghost function PickKey(model: map<Data, Data>): Data
    requires model != map[]
    ensures PickKey(model) in model
  {
    var key :| key in model; key
  }

  /** The size of the records a plain map needs. */
  ghost function ModelBytes(model: map<Data, Data>): nat
    decreases |model|
  {
    if model == map[] then 0
    else
      var key := PickKey(model);
      FewerKeys(model, key);
      HEADER + |key| + |model[key]| + ModelBytes(model - {key})
  }

  lemma FewerKeys(model: map<Data, Data>, key: Data)
    requires key in model
    ensures |model - {key}| == |model| - 1
  {
    assert (model - {key}).Keys == model.Keys - {key};
  }

  /** An index that represents a map has as many entries and bytes as the map needs. */
  lemma {:induction false} IndexTotals(kd: KeyDir, model: map<Data, Data>)
    requires kd.Keys == model.Keys && forall key | key in kd :: kd[key].size == HEADER + |key| + |model[key]|
    ensures Sum(kd, AllBytes()) == ModelBytes(model) && Sum(kd, AllEntries()) == |model|
    decreases |model|
  {
    if model == map[] {
      assert kd == map[];
    } else {
      var key := PickKey(model);
      assert key in kd;
      FewerKeys(model, key);
      IndexTotals(kd - {key}, model - {key});
      SumSplit(kd, AllBytes(), key);
      SumSplit(kd, AllEntries(), key);
    }
  }
}
