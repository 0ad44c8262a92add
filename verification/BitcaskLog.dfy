/** The in-memory index, its reconstruction by replaying records, and the buffered scan of a data file. */
module BitcaskLog {
  import opened Bytes
  import opened BitcaskEntry

  /** ValueLocation. */
  datatype Loc = Loc(file: nat, offset: nat, size: nat, timestamp: nat)

  type KeyDir = map<Data, Loc>

  /** What one scanned record does to the index. */
  function Apply(kd: KeyDir, file: nat, offset: nat, e: Entry): KeyDir {
    if e.IsTombstone() then kd - {e.key} else kd[e.key := Loc(file, offset, e.Size(), e.timestamp)]
  }

  function Replay(kd: KeyDir, file: nat, es: seq<Entry>): KeyDir {
    if es == [] then kd
    else var n := |es| - 1; Apply(Replay(kd, file, es[..n]), file, LenOf(es[..n]), es[n])
  }

  /** A record as the store writes them: its numbers fit, and it is a put or a tombstone. */
  predicate Proper(e: Entry) { Fits(e) && (e.flag == 0 || e.flag == TOMBSTONE) }

  predicate AllFit(es: seq<Entry>) { forall i | 0 <= i < |es| :: Proper(es[i]) }

  // ---------------------------------------------------------------- scanning bytes

  datatype Scanned = Scanned(keydir: KeyDir, pos: nat, corrupt: bool)

  /** Records read from pos on, up to an incomplete or corrupt one. */
  function Scan(k: Codec, kd: KeyDir, file: nat, d: Data, pos: nat): (r: Scanned)
    requires Lawful(k) && pos <= |d|
    ensures r.pos <= |d|
    decreases |d| - pos
  {
    if |d| - pos < HEADER then Scanned(kd, pos, false)
    else
      match k.read(d[pos..])
      case NeedMore => Scanned(kd, pos, false)
      case Corrupt => Scanned(kd, pos, true)
      case Ok(e) =>
        Scan(k, Apply(kd, file, pos, e), file, d, pos + e.Size())
  }

  /** More bytes: the scan goes on from where it stopped. */
  lemma {:induction false} ScanMore(k: Codec, kd: KeyDir, file: nat, d: Data, x: Data, pos: nat)
    requires Lawful(k) && pos <= |d|
    ensures var r := Scan(k, kd, file, d, pos);
            if r.corrupt then Scan(k, kd, file, d + x, pos) == r
            else Scan(k, kd, file, d + x, pos) == Scan(k, r.keydir, file, d + x, r.pos)
    decreases |d| - pos
  {
    if |d| - pos >= HEADER {
      assert (d + x)[pos..] == d[pos..] + x;
      match k.read(d[pos..])
      case NeedMore =>
      case Corrupt => assert k.read(d[pos..] + x) == Corrupt;
      case Ok(e) =>
        assert k.read(d[pos..] + x) == Ok(e);
        ScanMore(k, Apply(kd, file, pos, e), file, d, x, pos + e.Size());
    }
  }

  /** The whole file scans to its records. */
  lemma {:induction false} ScanRecords(k: Codec, kd: KeyDir, file: nat, es: seq<Entry>, i: nat)
    requires Lawful(k) && AllFit(es) && i <= |es|
    ensures LenOf(es[..i]) <= LenOf(es)
    ensures Scan(k, Replay(kd, file, es[..i]), file, BytesOf(k, es), LenOf(es[..i])) ==
            Scanned(Replay(kd, file, es), LenOf(es), false)
    decreases |es| - i
  {
    if i == |es| {
      assert es[..i] == es;
    } else {
      RecordAt(k, es, i);
      ScanRecords(k, kd, file, es, i + 1);
      assert es[..i + 1][..i] == es[..i];
    }
  }

  lemma RecordAt(k: Codec, es: seq<Entry>, i: nat)
    requires Lawful(k) && AllFit(es) && i < |es|
    ensures LenOf(es[..i + 1]) == LenOf(es[..i]) + es[i].Size() <= LenOf(es)
    ensures k.read(BytesOf(k, es)[LenOf(es[..i])..]) == Ok(es[i])
  {
    var d, at := BytesOf(k, es), LenOf(es[..i]);
    LocatedIndex(es, i);
    BytesAt(k, es, at, es[i]);
    assert es[..i + 1][..i] == es[..i];
    SplitAt(d, at, at + es[i].Size());
    assert k.read(k.write(es[i]) + d[at + es[i].Size()..]) == Ok(es[i]);
  }

  lemma SplitAt(d: Data, i: nat, j: nat)
    requires i <= j <= |d|
    ensures d[i..] == d[i..j] + d[j..]
  {}

  lemma Adjacent(d: Data, a: nat, b: nat, c: nat)
    requires a <= b <= c <= |d|
    ensures d[a..b] + d[b..c] == d[a..c]
  {}

  /** RecoverDataFromBuffer: the complete records in the buffer, which ends at file position readPos. */
  method RecoverDataFromBuffer(k: Codec, keydir: KeyDir, file: nat, buffer: Data, readPos: nat, ghost d: Data)
    returns (kd: KeyDir, rest: Data, corrupt: bool)
    requires Lawful(k) && |buffer| <= readPos <= |d| && buffer == d[readPos - |buffer|..readPos]
    ensures |rest| <= readPos && rest == d[readPos - |rest|..readPos]
    ensures Scanned(kd, readPos - |rest|, corrupt) == Scan(k, keydir, file, d[..readPos], readPos - |buffer|)
  {
    kd, rest, corrupt := keydir, buffer, false;
    ghost var seen := d[..readPos];
    while |rest| >= HEADER
      invariant |rest| <= readPos && rest == d[readPos - |rest|..readPos] && !corrupt
      invariant Scan(k, kd, file, seen, readPos - |rest|) == Scan(k, keydir, file, seen, readPos - |buffer|)
      decreases |rest|
    {
      assert seen[readPos - |rest|..] == rest;
      match k.read(rest) {
        case NeedMore => return;
        case Corrupt => corrupt := true; return;
        case Ok(e) =>
          var offset := readPos - |rest|;
          rest := rest[e.Size()..];
          kd := Apply(kd, file, offset, e);
      }
    }
  }

  lemma ScanChunk(k: Codec, kd: KeyDir, file: nat, d: Data, got: nat, n: nat)
    requires Lawful(k) && got + n <= |d| && !Scan(k, kd, file, d[..got], 0).corrupt
    ensures var r := Scan(k, kd, file, d[..got], 0);
            r.pos <= got && Scan(k, kd, file, d[..got + n], 0) == Scan(k, r.keydir, file, d[..got + n], r.pos)
  {
    ScanMore(k, kd, file, d[..got], d[got..got + n], 0);
    assert d[..got] + d[got..got + n] == d[..got + n];
  }

  /** How many bytes a read at this position returns; zero is end of file. */
  type Reads = nat -> nat

  /** The scan so far: kd from the records read, and the buffer holding the rest of what was read. */
  ghost predicate Reading(k: Codec, start: KeyDir, file: nat, d: Data, got: nat, buffer: Data, kd: KeyDir,
                          corrupt: bool)
    requires Lawful(k)
  {
    && |buffer| <= got <= |d| && buffer == d[got - |buffer|..got]
    && Scan(k, start, file, d[..got], 0) == Scanned(kd, got - |buffer|, corrupt)
  }

  /** One read: n more bytes into the buffer, then the complete records out of it. */
  method ReadChunk(k: Codec, ghost start: KeyDir, file: nat, d: Data, got: nat, n: nat, buffer: Data, keydir: KeyDir)
    returns (kd: KeyDir, rest: Data, corrupt: bool)
    requires Lawful(k) && Reading(k, start, file, d, got, buffer, keydir, false) && got + n <= |d|
    ensures Reading(k, start, file, d, got + n, rest, kd, corrupt)
  {
    var end := got + n;
    var more := buffer + d[got..end];
    Adjacent(d, got - |buffer|, got, end);
    assert more == d[end - |more|..end] && end - |more| == got - |buffer|;
    kd, rest, corrupt := RecoverDataFromBuffer(k, keydir, file, more, end, d);
    ChunkRead(k, start, file, d, got, end, buffer, keydir, rest, kd, corrupt);
  }

  lemma ChunkRead(k: Codec, start: KeyDir, file: nat, d: Data, got: nat, end: nat, buffer: Data, keydir: KeyDir,
                  rest: Data, kd: KeyDir, corrupt: bool)
    requires Lawful(k) && Reading(k, start, file, d, got, buffer, keydir, false) && got <= end <= |d|
    requires |rest| <= end && rest == d[end - |rest|..end]
    requires Scanned(kd, end - |rest|, corrupt) == Scan(k, keydir, file, d[..end], got - |buffer|)
    ensures Reading(k, start, file, d, end, rest, kd, corrupt)
  {
    ScanChunk(k, start, file, d, got, end - got);
  }

  /**
   RecoverFromDataFile: read by read, keeping what is left of a record in the buffer.
   However the reads fall, the result is one scan of the bytes that were read, and
   of the whole file when no read came back empty before its end.
   */
  method RecoverFromDataFile(k: Codec, keydir: KeyDir, file: nat, d: Data, readSize: Reads)
    returns (kd: KeyDir, got: nat)
    requires Lawful(k)
    ensures got <= |d| && kd == Scan(k, keydir, file, d[..got], 0).keydir
    ensures got < |d| ==> Scan(k, keydir, file, d[..got], 0).corrupt || readSize(got) == 0
  {
    kd, got := keydir, 0;
    var buffer: Data, corrupt := [], false;
    while got < |d| && !corrupt
      invariant Reading(k, keydir, file, d, got, buffer, kd, corrupt)
      decreases |d| - got
    {
      var n := if readSize(got) <= |d| - got then readSize(got) else |d| - got;
      if n == 0 { break; }
      kd, buffer, corrupt := ReadChunk(k, keydir, file, d, got, n, buffer, kd);
      got := got + n;
    }
  }

  /** Reading no further than a corrupt record is reading it all. */
  lemma ScanStopped(k: Codec, kd: KeyDir, file: nat, d: Data, got: nat)
    requires Lawful(k) && got <= |d| && (got < |d| ==> Scan(k, kd, file, d[..got], 0).corrupt)
    ensures Scan(k, kd, file, d[..got], 0).keydir == Scan(k, kd, file, d, 0).keydir
  {
    ScanMore(k, kd, file, d[..got], d[got..], 0);
    assert d[..got] + d[got..] == d && (got == |d| ==> d[..got] == d);
  }

  /** Corollary for a truncated file of whole records: scanning is replaying. */
  lemma ScanIsReplay(k: Codec, kd: KeyDir, file: nat, es: seq<Entry>)
    requires Lawful(k) && AllFit(es)
    ensures Scan(k, kd, file, BytesOf(k, es), 0) == Scanned(Replay(kd, file, es), LenOf(es), false)
  {
    ScanRecords(k, kd, file, es, 0);
  }

  // ---------------------------------------------------------------- damaged files

  /** Bytes that no complete record starts. */
  ghost predicate NoRecord(k: Codec, x: Data) { |x| < HEADER || !k.read(x).Ok? }

  /** Records followed by bytes that no complete record starts: exactly the records are kept. */
  lemma ScanKeepsRecords(k: Codec, kd: KeyDir, file: nat, es: seq<Entry>, x: Data)
    requires Lawful(k) && AllFit(es) && NoRecord(k, x)
    ensures Scan(k, kd, file, BytesOf(k, es) + x, 0) ==
            Scanned(Replay(kd, file, es), LenOf(es), |x| >= HEADER && k.read(x) == Corrupt)
  {
    ScanIsReplay(k, kd, file, es);
    ScanMore(k, kd, file, BytesOf(k, es), x, 0);
    assert (BytesOf(k, es) + x)[LenOf(es)..] == x;
  }

  /** A record cut short anywhere is not complete. */
  lemma TornRecord(k: Codec, e: Entry, m: nat)
    requires Lawful(k) && Fits(e) && m < e.Size()
    ensures NoRecord(k, k.write(e)[..m])
  {
    var w := k.write(e);
    assert w[..m] + w[m..] == w && w + [] == w;
    assert k.read(w + []) == Ok(e) && k.read(w[..m] + w[m..]) == Ok(e);
  }

  /**
   Main theorem: a file that ends in a torn record, in padding that is no record, or in anything else
   that no complete record starts, is recovered up to there, however the reads fall; nothing
   recovered before is lost.
   */
  method RecoverDamaged(k: Codec, keydir: KeyDir, file: nat, es: seq<Entry>, x: Data, readSize: Reads)
    returns (kd: KeyDir)
    requires Lawful(k) && AllFit(es) && NoRecord(k, x) && forall i :: readSize(i) > 0
    ensures kd == Replay(keydir, file, es)
  {
    ScanKeepsRecords(k, keydir, file, es, x);
    var got;
    kd, got := RecoverFromDataFile(k, keydir, file, BytesOf(k, es) + x, readSize);
    ScanStopped(k, keydir, file, BytesOf(k, es) + x, got);
  }

  /** The zero bytes of preallocated space are no record, unless the checksum of seventeen zeros is zero. */
  lemma ZeroesAreNoRecord(c: Checksum, n: nat)
    requires Crc(c, seq(17, _ => 0)) != 0
    ensures NoRecord(FormatOf(c), seq(n, _ => 0))
  {
    var x: Data := seq(n, _ => 0);
    if n >= HEADER {
      ZeroNumber(x[13..17]);
      ZeroNumber(x[17..21]);
      ZeroNumber(x[..4]);
      assert x[4..21] == seq(17, _ => 0);
    }
  }

  lemma {:induction false} ZeroNumber(d: Data)
    requires forall i | 0 <= i < |d| :: d[i] == 0
    ensures FromLe(d) == 0
    decreases |d|
  {
    if d != [] { ZeroNumber(d[1..]); }
  }
}
