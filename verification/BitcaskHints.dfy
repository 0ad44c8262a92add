/** Hint files: a summary of the index entries located in one sealed data file. */
module BitcaskHints {
  import opened Bytes
  import opened Wrappers
  import opened BitcaskEntry
  import opened BitcaskLog

  const HINT_HEADER: nat := 24

  datatype Hint = Hint(timestamp: nat, offset: nat, size: nat, key: Data)

  predicate HintFits(h: Hint) {
    && h.timestamp < 0x1_0000_0000_0000_0000 && h.offset < 0x1_0000_0000_0000_0000 && h.size < 0x1_0000_0000
    && |h.key| < 0x1_0000_0000
  }

  /** HintEntry::Serialize. */
  function EncodeHint(h: Hint): (d: Data)
    ensures |d| == HINT_HEADER + |h.key|
  { Le(h.timestamp, 8) + Le(h.offset, 8) + Le(h.size, 4) + Le(|h.key|, 4) + h.key }

  /** HintEntry::Deserialize; None asks for more data. */
  function DecodeHint(d: Data): Option<Hint> {
    if |d| < HINT_HEADER then None
    else
      var n := FromLe(d[20..24]);
      if |d| < HINT_HEADER + n then None
      else Some(Hint(FromLe(d[..8]), FromLe(d[8..16]), FromLe(d[16..20]), d[HINT_HEADER..HINT_HEADER + n]))
  }

  lemma HintLayout(a: Data, b: Data, c: Data, n: Data, key: Data, rest: Data)
    requires |a| == |b| == 8 && |c| == |n| == 4
    ensures var d := a + b + c + n + key + rest;
            d[..8] == a && d[8..16] == b && d[16..20] == c && d[20..24] == n && d[24..24 + |key|] == key
  {}

  /** Where the fields of a hint are. */
  lemma HintBytesAt(h: Hint)
    ensures var d := EncodeHint(h);
            && d[0..8] == Le(h.timestamp, 8) && d[8..16] == Le(h.offset, 8)
            && d[16..20] == Le(h.size, 4) && d[20..24] == Le(|h.key|, 4) && d[24..] == h.key
  {
    var d := EncodeHint(h);
    HintLayout(Le(h.timestamp, 8), Le(h.offset, 8), Le(h.size, 4), Le(|h.key|, 4), h.key, []);
    assert d + [] == d;
  }

  lemma DecodeEncodedHint(h: Hint, rest: Data)
    requires HintFits(h)
    ensures DecodeHint(EncodeHint(h) + rest) == Some(h)
  {
    HintLayout(Le(h.timestamp, 8), Le(h.offset, 8), Le(h.size, 4), Le(|h.key|, 4), h.key, rest);
    Limits();
    LeRoundTrip(h.timestamp, 8);
    LeRoundTrip(h.offset, 8);
    LeRoundTrip(h.size, 4);
    LeRoundTrip(|h.key|, 4);
  }

  /** The hint format as a pair of functions. */
  datatype HintCodec = HintCodec(write: Hint -> Data, read: Data -> Option<Hint>)

  ghost predicate HintLawful(k: HintCodec) {
    && (forall h: Hint {:trigger k.write(h)} :: |k.write(h)| == HINT_HEADER + |h.key|)
    && (forall h: Hint, rest: Data {:trigger k.read(k.write(h) + rest)} ::
      HintFits(h) ==> k.read(k.write(h) + rest) == Some(h))
    && (forall d: Data {:trigger k.read(d)} :: k.read(d).Some? ==> HINT_HEADER + |k.read(d).value.key| <= |d|)
  }

  function HintFormat(): HintCodec { HintCodec(h => EncodeHint(h), d => DecodeHint(d)) }

  lemma HintFormatIsLawful()
    ensures HintLawful(HintFormat())
  {
    var k := HintFormat();
    forall h: Hint, rest: Data | HintFits(h)
      ensures k.read(k.write(h) + rest) == Some(h)
    {
      DecodeEncodedHint(h, rest);
    }
  }

  // ---------------------------------------------------------------- writing and loading

  function LocOf(file: nat, h: Hint): Loc { Loc(file, h.offset, h.size, h.timestamp) }

  function HintOf(key: Data, loc: Loc): Hint { Hint(loc.timestamp, loc.offset, loc.size, key) }

  function HintBytes(k: HintCodec, hs: seq<Hint>): Data {
    if hs == [] then [] else HintBytes(k, hs[..|hs| - 1]) + k.write(hs[|hs| - 1])
  }

  function InsertAll(kd: KeyDir, file: nat, hs: seq<Hint>): KeyDir {
    if hs == [] then kd else InsertAll(kd, file, hs[..|hs| - 1])[hs[|hs| - 1].key := LocOf(file, hs[|hs| - 1])]
  }

  /** RecoverFromHintFile as a function of the bytes. */
  function Load(k: HintCodec, kd: KeyDir, file: nat, d: Data): KeyDir
    requires HintLawful(k)
    decreases |d|
  {
    if |d| < HINT_HEADER then kd
    else
      match k.read(d)
      case None => kd
      case Some(h) => Load(k, kd[h.key := LocOf(file, h)], file, d[HINT_HEADER + |h.key|..])
  }

  method RecoverFromHintFile(k: HintCodec, keydir: KeyDir, file: nat, d: Data) returns (kd: KeyDir)
    requires HintLawful(k)
    ensures kd == Load(k, keydir, file, d)
  {
    kd := keydir;
    var remaining := d;
    while |remaining| >= HINT_HEADER
      invariant Load(k, kd, file, remaining) == Load(k, keydir, file, d)
      decreases |remaining|
    {
      var r := k.read(remaining);
      if r.None? { break; }
      remaining := remaining[HINT_HEADER + |r.value.key|..];
      kd := kd[r.value.key := LocOf(file, r.value)];
    }
  }

  predicate AllHintsFit(hs: seq<Hint>) { forall i | 0 <= i < |hs| :: HintFits(hs[i]) }

  /** Loading what was written inserts the hints one by one. */
  lemma {:induction false} LoadWritten(k: HintCodec, kd: KeyDir, file: nat, hs: seq<Hint>, rest: Data)
    requires HintLawful(k) && AllHintsFit(hs)
    ensures Load(k, kd, file, HintBytes(k, hs) + rest) == Load(k, InsertAll(kd, file, hs), file, rest)
    decreases |hs|
  {
    if hs == [] {
      assert HintBytes(k, hs) + rest == rest;
    } else {
      var n := |hs| - 1;
      var h := hs[n];
      LoadWritten(k, kd, file, hs[..n], k.write(h) + rest);
      LoadOne(k, InsertAll(kd, file, hs[..n]), file, h, rest);
      assert HintBytes(k, hs) + rest == HintBytes(k, hs[..n]) + (k.write(h) + rest);
    }
  }

  lemma LoadOne(k: HintCodec, kd: KeyDir, file: nat, h: Hint, rest: Data)
    requires HintLawful(k) && HintFits(h)
    ensures Load(k, kd, file, k.write(h) + rest) == Load(k, kd[h.key := LocOf(file, h)], file, rest)
  {
    assert k.read(k.write(h) + rest) == Some(h);
    assert (k.write(h) + rest)[HINT_HEADER + |h.key|..] == rest;
  }

  /** A hint file cut short: the hints before the cut are kept. */
  lemma LoadTruncated(k: HintCodec, kd: KeyDir, file: nat, hs: seq<Hint>, x: Data)
    requires HintLawful(k) && AllHintsFit(hs) && (|x| < HINT_HEADER || k.read(x).None?)
    ensures Load(k, kd, file, HintBytes(k, hs) + x) == InsertAll(kd, file, hs)
  {
    LoadWritten(k, kd, file, hs, x);
  }

  /** Part of a hint is no hint. */
  lemma TornHint(h: Hint, m: nat)
    requires HintFits(h) && m < HINT_HEADER + |h.key|
    ensures DecodeHint(EncodeHint(h)[..m]).None?
  {
    if m >= HINT_HEADER {
      var d := EncodeHint(h);
      HintLayout(Le(h.timestamp, 8), Le(h.offset, 8), Le(h.size, 4), Le(|h.key|, 4), h.key, []);
      assert d + [] == d && d[..m][20..24] == d[20..24];
      Limits();
      LeRoundTrip(|h.key|, 4);
    }
  }

  /** The entries of the index that lie in one file. */
  function InFile(kd: KeyDir, file: nat): KeyDir { map key | key in kd && kd[key].file == file :: kd[key] }

  /** Every key of the index, in whatever order the hash map is walked. */
  ghost predicate Walk(order: seq<Data>, kd: KeyDir) {
    && (forall i | 0 <= i < |order| :: order[i] in kd)
    && (forall key | key in kd :: key in order)
  }

  /** The entries in the file have numbers that fit a hint. */
  ghost predicate KeyDirFits(kd: KeyDir, file: nat) {
    forall key {:trigger kd[key]} | key in kd && kd[key].file == file :: HintFits(HintOf(key, kd[key]))
  }

  /** The keys of the index, in an order nothing is known about. */
  method WalkOf(kd: KeyDir) returns (walk: seq<Data>)
    ensures Walk(walk, kd) && forall i, j | 0 <= i < j < |walk| :: walk[i] != walk[j]
  {
    walk := [];
    var left := kd.Keys;
    while left != {}
      invariant left <= kd.Keys
      invariant forall key :: key in kd <==> key in left || key in walk
      invariant forall i | 0 <= i < |walk| :: walk[i] in kd && walk[i] !in left
      invariant forall i, j | 0 <= i < j < |walk| :: walk[i] != walk[j]
      decreases |left|
    {
      var key :| key in left;
      walk := walk + [key];
      left := left - {key};
    }
  }

  /** WriteHintFile: collect the entries located in the file, then write them. */
  method WriteHintFile(k: HintCodec, kd: KeyDir, file: nat, order: seq<Data>) returns (d: Data)
    requires HintLawful(k) && Walk(order, kd) && KeyDirFits(kd, file)
    ensures forall base: KeyDir :: Load(k, base, file, d) == base + InFile(kd, file)
  {
    var hints: seq<Hint> := [];
    for i := 0 to |order|
      invariant AllHintsFit(hints)
      invariant forall base: KeyDir :: InsertAll(base, file, hints) == base + Taken(kd, file, order[..i])
    {
      var key := order[i];
      assert order[..i + 1] == order[..i] + [key];
      if kd[key].file == file {
        var was := hints;
        hints := hints + [HintOf(key, kd[key])];
        forall base: KeyDir ensures InsertAll(base, file, hints) == base + Taken(kd, file, order[..i + 1]) {
          assert hints[..|was|] == was && InsertAll(base, file, was) == base + Taken(kd, file, order[..i]);
          TakeOne(base, kd, file, order[..i], key);
        }
      } else {
        TakeNone(kd, file, order[..i], key);
      }
    }
    assert order[..|order|] == order;
    TakenAll(kd, file, order);
    d := [];
    for i := 0 to |hints|
      invariant d == HintBytes(k, hints[..i])
    {
      assert hints[..i + 1][..i] == hints[..i];
      d := d + k.write(hints[i]);
    }
    assert hints[..|hints|] == hints;
    forall base: KeyDir ensures Load(k, base, file, d) == base + InFile(kd, file) {
      LoadWritten(k, base, file, hints, []);
      assert d + [] == d && InsertAll(base, file, hints) == base + Taken(kd, file, order);
    }
  }

  /** The located entries among the keys walked so far. */
  ghost function Taken(kd: KeyDir, file: nat, keys: seq<Data>): KeyDir {
    map key | key in kd && key in keys && kd[key].file == file :: kd[key]
  }

  lemma TakeOne(base: KeyDir, kd: KeyDir, file: nat, keys: seq<Data>, key: Data)
    requires key in kd && kd[key].file == file
    ensures (base + Taken(kd, file, keys))[key := kd[key]] == base + Taken(kd, file, keys + [key])
  {}

  lemma TakeNone(kd: KeyDir, file: nat, keys: seq<Data>, key: Data)
    requires key in kd && kd[key].file != file
    ensures Taken(kd, file, keys + [key]) == Taken(kd, file, keys)
  {}

  lemma TakenAll(kd: KeyDir, file: nat, order: seq<Data>)
    requires Walk(order, kd)
    ensures Taken(kd, file, order) == InFile(kd, file)
  {}
}
