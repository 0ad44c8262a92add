/** Writing records: the two writers, and reservation of file space before a write is suspended. */
module BitcaskDataFile {
  import opened Bytes
  import opened BitcaskEntry

  // ---------------------------------------------------------------- building a record

  /** memcpy into a buffer. */
  method Copy(a: array<Byte>, at: nat, bytes: Data)
    requires at + |bytes| <= a.Length
    modifies a
    ensures a[..at + |bytes|] == old(a[..at]) + bytes && a[at + |bytes|..] == old(a[at + |bytes|..])
  {
    forall j | 0 <= j < |bytes| { a[at + j] := bytes[j]; }
    assert a[at..at + |bytes|] == bytes && a[..at] == old(a[..at]);
    assert a[..at + |bytes|] == a[..at] + a[at..at + |bytes|];
  }

  /** The DataEntry constructor: header with a blank checksum, key, value, then the checksum patched in. */
  method BuildContiguous(c: Checksum, e: Entry) returns (payload: array<Byte>)
    requires Fits(e)
    ensures fresh(payload) && payload[..] == Encode(c, e)
  {
    payload := new Byte[e.Size()](_ => 0);
    BuildBody(payload, e);
    assert payload[4..] == Meta(e) + e.key + e.value;
    var crc := Crc(c, payload[4..]);
    Copy(payload, 0, Le(crc, 4));
    assert payload[..] == payload[..4] + payload[4..];
    assert payload[..4] == [] + Le(crc, 4);
    Regroup(Le(crc, 4), Meta(e), e.key, e.value);
  }

  lemma Regroup(a: Data, b: Data, c: Data, d: Data)
    ensures a + (b + c + d) == a + b + c + d
  {}

  method BuildBody(payload: array<Byte>, e: Entry)
    requires payload.Length == e.Size()
    modifies payload
    ensures payload[4..] == Meta(e) + e.key + e.value
  {
    Copy(payload, 0, Le(0, 4));
    BuildHeader(payload, e);
    ghost var blank, meta := payload[..4], Meta(e);
    Copy(payload, HEADER, e.key);
    Copy(payload, HEADER + |e.key|, e.value);
    assert payload[..] == payload[..e.Size()];
    Tail(blank, meta, e.key, e.value);
    assert payload[4..] == payload[..][4..];
  }

  lemma Tail(a: Data, b: Data, c: Data, d: Data)
    ensures (a + b + c + d)[|a|..] == b + c + d
  {}

  method BuildHeader(payload: array<Byte>, e: Entry)
    requires payload.Length >= HEADER
    modifies payload
    ensures payload[..HEADER] == payload[..4] + Meta(e)
  {
    ghost var start := payload[..4];
    Copy(payload, 4, Le(e.timestamp, 8));
    Copy(payload, 12, [e.flag]);
    Copy(payload, 13, Le(|e.key|, 4));
    Copy(payload, 17, Le(|e.value|, 4));
    Regroup5(start, Le(e.timestamp, 8), [e.flag], Le(|e.key|, 4), Le(|e.value|, 4));
  }

  lemma Regroup5(a: Data, b: Data, c: Data, d: Data, e: Data)
    ensures a + b + c + d + e == a + (b + c + d + e)
  {}

  /** ComputeCrc32c: the checksum extended over metadata, key and value in turn. */
  method ComputeCrc32c(c: Checksum, e: Entry) returns (crc: Word32)
    ensures crc == Crc(c, Meta(e) + e.key + e.value)
  {
    crc := Crc(c, Meta(e));
    ExtendParts(c, 0, Meta(e), e.key);
    ExtendParts(c, 0, Meta(e) + e.key, e.value);
    crc := Extend(c, crc, e.key);
    crc := Extend(c, crc, e.value);
  }

  /** The gather writer's three parts: header, key and value, the last two never copied. */
  method BuildGathered(c: Checksum, e: Entry) returns (header: Data, key: Data, value: Data)
    requires Fits(e)
    ensures |header| == HEADER && header + key + value == Encode(c, e)
  {
    var crc := ComputeCrc32c(c, e);
    header, key, value := Le(crc, 4) + Meta(e), e.key, e.value;
  }

  // ---------------------------------------------------------------- reserve, suspend, write

  function Zeros(n: nat): (d: Data)
    ensures |d| == n
  { seq(n, _ => 0) }

  /** A positioned write: the file grows as needed, a gap reads as zeros. */
  function PWrite(disk: Data, at: nat, bytes: Data): (r: Data)
    ensures |r| >= |disk| && |r| >= at + |bytes|
  {
    var d := if |disk| < at + |bytes| then disk + Zeros(at + |bytes| - |disk|) else disk;
    d[..at] + bytes + d[at + |bytes|..]
  }

  lemma PWriteHits(disk: Data, at: nat, bytes: Data)
    ensures PWrite(disk, at, bytes)[at..at + |bytes|] == bytes
  {}

  /** A write leaves every extent that does not overlap it alone. */
  lemma PWriteMisses(disk: Data, at: nat, bytes: Data, from: nat, to: nat)
    requires from <= to <= |disk| && (to <= at || at + |bytes| <= from)
    ensures PWrite(disk, at, bytes)[from..to] == disk[from..to]
  {
    var d := if |disk| < at + |bytes| then disk + Zeros(at + |bytes| - |disk|) else disk;
    assert d[from..to] == disk[from..to];
    forall j | from <= j < to ensures PWrite(disk, at, bytes)[j] == d[j] {}
  }

  /** Where the i-th record starts when records are laid end to end. */
  function Start(raws: seq<Data>, i: nat): nat
    requires i <= |raws|
  { if i == 0 then 0 else Start(raws, i - 1) + |raws[i - 1]| }

  class DataFile {
    var size: nat
    var disk: Data
    ghost var raws: seq<Data>       // the records' bytes, in the order the space was reserved
    ghost var landed: seq<bool>     // whose bytes have been written

    /** Record i is on disk, whole, in its own extent. */
    ghost predicate OnDisk(i: nat)
      requires i < |raws|
      reads this`raws, this`disk
    {
      Start(raws, i) + |raws[i]| <= |disk| && disk[Start(raws, i)..Start(raws, i) + |raws[i]|] == raws[i]
    }

    ghost predicate Valid()
      reads this
    {
      && |landed| == |raws| && size == Start(raws, |raws|)
      && (forall i {:trigger OnDisk(i)} | 0 <= i < |raws| :: landed[i] ==> OnDisk(i))
    }

    constructor ()
      ensures Valid() && size == 0 && raws == [] && disk == []
    { size, disk, raws, landed := 0, [], [], []; }

    /** The part of AsyncWrite before it suspends: take the offset, move the end. */
    method Reserve(n: nat, ghost raw: Data) returns (offset: nat)
      requires Valid() && |raw| == n
      modifies this
      ensures Valid() && raws == old(raws) + [raw] && landed == old(landed) + [false] && disk == old(disk)
      ensures offset == Start(raws, |raws| - 1) == old(size) && size == offset + n
    {
      offset := size;
      size := size + n;
      ghost var was := raws;
      raws, landed := raws + [raw], landed + [false];
      StartKept(was, raw, |was|);
      forall i | 0 <= i < |was| && landed[i] ensures OnDisk(i) {
        assert old(OnDisk(i));
        StartKept(was, raw, i);
      }
    }

    /** The write itself, whenever it happens; others may have reserved or written meanwhile. */
    method Land(ghost i: nat, bytes: Data, offset: nat)
      requires Valid() && i < |raws| && raws[i] == bytes && offset == Start(raws, i)
      modifies this`disk, this`landed
      ensures Valid() && landed == old(landed)[i := true]
    {
      ghost var before := disk;
      disk := PWrite(disk, offset, bytes);
      landed := landed[i := true];
      forall j | 0 <= j < |raws| && landed[j] ensures OnDisk(j) {
        if j == i {
          PWriteHits(before, offset, bytes);
        } else {
          assert old(OnDisk(j));
          Disjoint(raws, i, j);
          PWriteMisses(before, offset, bytes, Start(raws, j), Start(raws, j) + |raws[j]|);
        }
      }
    }
  }

  lemma {:induction false} StartKept(raws: seq<Data>, raw: Data, i: nat)
    requires i <= |raws|
    ensures Start(raws + [raw], i) == Start(raws, i)
  {
    if i > 0 { StartKept(raws, raw, i - 1); }
  }

  lemma {:induction false} StartGrows(raws: seq<Data>, i: nat, j: nat)
    requires i <= j <= |raws|
    ensures Start(raws, i) <= Start(raws, j)
    decreases j
  {
    if i < j { StartGrows(raws, i, j - 1); }
  }

  /** Reserved extents never overlap. */
  lemma Disjoint(raws: seq<Data>, i: nat, j: nat)
    requires i < |raws| && j < |raws| && i != j
    ensures Start(raws, i) + |raws[i]| <= Start(raws, j) || Start(raws, j) + |raws[j]| <= Start(raws, i)
  {
    if i < j { StartGrows(raws, i + 1, j); } else { StartGrows(raws, j + 1, i); }
  }

  /**
   Main result: once every write has landed, in whatever order they did, the truncated
   file is exactly the records end to end, in the order they reserved their space.
   */
  lemma AllLanded(f: DataFile, k: Codec, es: seq<Entry>)
    requires Lawful(k) && f.Valid() && forall i | 0 <= i < |f.landed| :: f.landed[i]
    requires |es| == |f.raws| && forall i | 0 <= i < |es| :: f.raws[i] == k.write(es[i])
    ensures f.size == LenOf(es) <= |f.disk| && f.disk[..f.size] == BytesOf(k, es)
  {
    PrefixLanded(f, |f.raws|);
    RawsAreBytes(k, f.raws, es, |es|);
    assert f.raws[..|es|] == f.raws && es[..|es|] == es;
  }

  lemma {:induction false} PrefixLanded(f: DataFile, n: nat)
    requires f.Valid() && n <= |f.raws| && forall i | 0 <= i < |f.landed| :: f.landed[i]
    ensures Start(f.raws, n) <= |f.disk| && f.disk[..Start(f.raws, n)] == Flatten(f.raws[..n])
  {
    if n > 0 {
      PrefixLanded(f, n - 1);
      assert f.raws[..n][..n - 1] == f.raws[..n - 1] && f.OnDisk(n - 1);
      Joined(f.disk, Start(f.raws, n - 1), Start(f.raws, n));
    }
  }

  lemma Joined(d: Data, at: nat, to: nat)
    requires at <= to <= |d|
    ensures d[..to] == d[..at] + d[at..to]
  {}

  lemma {:induction false} RawsAreBytes(k: Codec, raws: seq<Data>, es: seq<Entry>, n: nat)
    requires Lawful(k) && n <= |es| == |raws| && forall i | 0 <= i < |es| :: raws[i] == k.write(es[i])
    ensures Flatten(raws[..n]) == BytesOf(k, es[..n]) && Start(raws, n) == LenOf(es[..n])
  {
    if n > 0 {
      RawsAreBytes(k, raws, es, n - 1);
      var raw, e := raws[..n], es[..n];
      assert raw[..n - 1] == raws[..n - 1] && e[..n - 1] == es[..n - 1];
      assert Flatten(raw) == Flatten(raws[..n - 1]) + raws[n - 1];
      assert BytesOf(k, e) == BytesOf(k, es[..n - 1]) + k.write(es[n - 1]);
    }
  }
}
