/**
 The on-disk record format of the key-value store: a 21-byte header (checksum,
 timestamp, flag, key length, value length), the key and the value. The checksum
 is any byte-by-byte fold.
 */
module BitcaskEntry {
  import opened Bytes

  type Word32 = n: int | 0 <= n < 0x1_0000_0000

  /** One step of the checksum. */
  datatype Checksum = Checksum(step: (Word32, Byte) -> Word32)

  /** crc32c::Extend. */
  function Extend(c: Checksum, crc: Word32, d: Data): Word32 {
    if d == [] then crc else c.step(Extend(c, crc, d[..|d| - 1]), d[|d| - 1])
  }

  /** crc32c::Crc32c. */
  function Crc(c: Checksum, d: Data): Word32 { Extend(c, 0, d) }

  /** Extending part by part is the same as one pass over the whole. */
  lemma {:induction false} ExtendParts(c: Checksum, crc: Word32, a: Data, b: Data)
    ensures Extend(c, Extend(c, crc, a), b) == Extend(c, crc, a + b)
    decreases |b|
  {
    if b == [] {
      assert a + b == a;
    } else {
      ExtendParts(c, crc, a, b[..|b| - 1]);
      assert (a + b)[..|a + b| - 1] == a + b[..|b| - 1];
    }
  }

  // ---------------------------------------------------------------- little-endian numbers

  function Le(n: nat, width: nat): (d: Data)
    ensures |d| == width
    decreases width
  { if width == 0 then [] else [n % 256] + Le(n / 256, width - 1) }

  function FromLe(d: Data): nat { if d == [] then 0 else d[0] + 256 * FromLe(d[1..]) }

  /** One more than the largest number of so many bytes. */
  function Limit(width: nat): nat { if width == 0 then 1 else 256 * Limit(width - 1) }

  lemma {:induction false} LeRoundTrip(n: nat, width: nat)
    requires n < Limit(width)
    ensures FromLe(Le(n, width)) == n
    decreases width
  {
    if width > 0 {
      LeRoundTrip(n / 256, width - 1);
      assert Le(n, width)[1..] == Le(n / 256, width - 1);
    }
  }

  lemma {:induction false} FromLeRoundTrip(d: Data)
    ensures FromLe(d) < Limit(|d|) && Le(FromLe(d), |d|) == d
    decreases |d|
  {
    if d != [] {
      FromLeRoundTrip(d[1..]);
      var n := FromLe(d);
      assert n % 256 == d[0] && n / 256 == FromLe(d[1..]);
      assert d == [d[0]] + d[1..];
    }
  }

  /** Least significant byte first. */
  lemma LittleEndian4(n: nat)
    ensures Le(n, 4) == [n % 0x100, n / 0x100 % 0x100, n / 0x1_0000 % 0x100, n / 0x100_0000 % 0x100]
  {
    assert Le(n, 4) == [n % 256] + Le(n / 256, 3);
    assert Le(n / 256, 3) == [n / 256 % 256] + Le(n / 256 / 256, 2);
    assert Le(n / 256 / 256, 2) == [n / 256 / 256 % 256] + Le(n / 256 / 256 / 256, 1);
    assert n / 256 / 256 == n / 0x1_0000 && n / 256 / 256 / 256 == n / 0x100_0000;
  }

  lemma LittleEndian8(n: nat)
    ensures Le(n, 8) == Le(n, 4) + Le(n / 0x1_0000_0000, 4)
  {
    assert Le(n, 8) == [n % 256] + Le(n / 256, 7);
    assert Le(n / 256, 7) == [n / 256 % 256] + Le(n / 256 / 256, 6);
    assert Le(n / 256 / 256, 6) == [n / 256 / 256 % 256] + Le(n / 256 / 256 / 256, 5);
    assert Le(n / 256 / 256 / 256, 5) == [n / 256 / 256 / 256 % 256] + Le(n / 256 / 256 / 256 / 256, 4);
    assert n / 256 / 256 == n / 0x1_0000 && n / 256 / 256 / 256 == n / 0x100_0000;
    assert n / 256 / 256 / 256 / 256 == n / 0x1_0000_0000;
    LittleEndian4(n);
  }

  /** The four bytes from position i on as a number, least significant first. */
  function Number4(d: Data, i: nat): nat
    requires i + 4 <= |d|
  {
    var a: int, b: int, c: int, e: int := d[i], d[i + 1], d[i + 2], d[i + 3];
    a + 0x100 * b + 0x1_0000 * c + 0x100_0000 * e
  }

  lemma FromLe4(d: Data)
    requires |d| == 4
    ensures FromLe(d) == Number4(d, 0)
  {
    assert d[1..][1..] == d[2..] && d[2..][1..] == d[3..] && d[3..][1..] == [];
    assert FromLe(d[3..]) == d[3] && FromLe(d[2..]) == d[2] + 256 * FromLe(d[3..]);
    assert FromLe(d[1..]) == d[1] + 256 * FromLe(d[2..]);
  }

  lemma Limits()
    ensures Limit(1) == 0x100 && Limit(4) == 0x1_0000_0000 && Limit(8) == 0x1_0000_0000_0000_0000
  {
    assert Limit(2) == 0x1_0000 && Limit(3) == 0x100_0000 && Limit(5) == 0x100_0000_0000
      && Limit(6) == 0x1_0000_0000_0000;
    assert Limit(7) == 0x100_0000_0000_0000;
  }

  // ---------------------------------------------------------------- records

  const HEADER: nat := 21
  const TOMBSTONE: Byte := 1

  datatype Entry = Entry(timestamp: nat, flag: Byte, key: Data, value: Data) {
    predicate IsTombstone() { flag % 2 == 1 }
    function Size(): nat { HEADER + |key| + |value| }
  }

  /** The numbers fit their fields, and the size its 32-bit word. */
  predicate Fits(e: Entry) { e.timestamp < 0x1_0000_0000_0000_0000 && e.Size() < 0x1_0000_0000 }

  function Meta(e: Entry): (d: Data)
    ensures |d| == 17
  { Le(e.timestamp, 8) + [e.flag] + Le(|e.key|, 4) + Le(|e.value|, 4) }

  function Encode(c: Checksum, e: Entry): (d: Data)
    ensures |d| == e.Size()
  { Le(Crc(c, Meta(e) + e.key + e.value), 4) + Meta(e) + e.key + e.value }

  datatype Read = Ok(entry: Entry) | NeedMore | Corrupt

  /** DataEntry::Deserialize. */
  function Deserialize(c: Checksum, d: Data): Read {
    if |d| < HEADER then NeedMore
    else
      var klen, vlen := FromLe(d[13..17]), FromLe(d[17..21]);
      if |d| < HEADER + klen + vlen then NeedMore
      else if FromLe(d[..4]) != Crc(c, d[4..HEADER + klen + vlen]) then Corrupt
      else Ok(Entry(FromLe(d[4..12]), d[12], d[HEADER..HEADER + klen], d[HEADER + klen..HEADER + klen + vlen]))
  }

  /** The fields of an encoded record, with anything after it. */
  lemma FieldsOf(c: Checksum, e: Entry, rest: Data)
    ensures var d := Encode(c, e) + rest;
            && d[..4] == Le(Crc(c, Meta(e) + e.key + e.value), 4) && d[4..21] == Meta(e)
            && d[21..21 + |e.key|] == e.key && d[21 + |e.key|..e.Size()] == e.value
            && d[4..e.Size()] == Meta(e) + e.key + e.value
  {
    Layout(Le(Crc(c, Meta(e) + e.key + e.value), 4), Meta(e), e.key, e.value, rest);
  }

  lemma Layout(crc: Data, meta: Data, key: Data, value: Data, rest: Data)
    requires |crc| == 4 && |meta| == 17
    ensures var d, end := crc + meta + key + value + rest, 21 + |key| + |value|;
            && d[..4] == crc && d[4..21] == meta && d[21..21 + |key|] == key && d[21 + |key|..end] == value
            && d[4..end] == meta + key + value
  {}

  lemma MetaFields(e: Entry)
    ensures Meta(e)[..8] == Le(e.timestamp, 8) && Meta(e)[8] == e.flag && Meta(e)[9..13] == Le(|e.key|, 4)
    ensures Meta(e)[13..17] == Le(|e.value|, 4)
  {}

  lemma HeaderSlices(d: Data)
    requires |d| >= 21
    ensures d[4..21][..8] == d[4..12] && d[4..21][8] == d[12] && d[4..21][9..13] == d[13..17]
    ensures d[4..21][13..17] == d[17..21]
  {
    SubSlice(d, 4, 21, 0, 8);
    SubSlice(d, 4, 21, 9, 13);
    SubSlice(d, 4, 21, 13, 17);
  }

  lemma SubSlice(d: Data, a: nat, b: nat, i: nat, j: nat)
    requires i <= j <= b - a && b <= |d|
    ensures d[a..b][i..j] == d[a + i..a + j]
  {
    var u, w := d[a..b][i..j], d[a + i..a + j];
    assert |u| == |w| && forall x | 0 <= x < |w| :: u[x] == w[x];
  }

  /** Reading back what was written gives the record, whatever follows it. */
  lemma DeserializeEncoded(c: Checksum, e: Entry, rest: Data)
    requires Fits(e)
    ensures Deserialize(c, Encode(c, e) + rest) == Ok(e)
  {
    var d := Encode(c, e) + rest;
    FieldsOf(c, e, rest);
    MetaFields(e);
    HeaderSlices(d);
    Limits();
    LeRoundTrip(e.timestamp, 8);
    LeRoundTrip(|e.key|, 4);
    LeRoundTrip(|e.value|, 4);
    LeRoundTrip(Crc(c, Meta(e) + e.key + e.value), 4);
    assert FromLe(d[13..17]) == |e.key| && FromLe(d[17..21]) == |e.value| && FromLe(d[4..12]) == e.timestamp;
    assert FromLe(d[..4]) == Crc(c, d[4..e.Size()]);
  }

  /** Conversely, a record is only ever read from its own encoding. */
  lemma DeserializeOnlyEncoded(c: Checksum, d: Data, e: Entry)
    requires Deserialize(c, d) == Ok(e)
    ensures e.Size() <= |d| && d[..e.Size()] == Encode(c, e)
  {
    Deserialized(c, d, e);
    Assembled(c, d, e);
  }

  lemma Deserialized(c: Checksum, d: Data, e: Entry)
    requires Deserialize(c, d) == Ok(e)
    ensures e.Size() <= |d| && Meta(e) == d[4..21] && e.key == d[21..21 + |e.key|]
    ensures e.value == d[21 + |e.key|..e.Size()]
    ensures d[..4] == Le(Crc(c, d[4..e.Size()]), 4)
  {
    HeaderBack(d, e);
    FromLeRoundTrip(d[..4]);
  }

  lemma Assembled(c: Checksum, d: Data, e: Entry)
    requires e.Size() <= |d| && Meta(e) == d[4..21] && e.key == d[21..21 + |e.key|]
    requires e.value == d[21 + |e.key|..e.Size()]
    requires d[..4] == Le(Crc(c, d[4..e.Size()]), 4)
    ensures d[..e.Size()] == Encode(c, e)
  {
    Pieces(d, |e.key|, e.Size());
  }

  lemma Pieces(d: Data, klen: nat, n: nat)
    requires 21 + klen <= n <= |d|
    ensures d[4..n] == d[4..21] + d[21..21 + klen] + d[21 + klen..n]
    ensures d[..n] == d[..4] + d[4..21] + d[21..21 + klen] + d[21 + klen..n]
  {}

  lemma HeaderBack(d: Data, e: Entry)
    requires |d| >= 21 && e.timestamp == FromLe(d[4..12]) && e.flag == d[12]
    requires |e.key| == FromLe(d[13..17]) && |e.value| == FromLe(d[17..21])
    ensures Meta(e) == d[4..21]
  {
    FromLeRoundTrip(d[4..12]);
    FromLeRoundTrip(d[13..17]);
    FromLeRoundTrip(d[17..21]);
    assert d[4..21] == d[4..12] + [d[12]] + d[13..17] + d[17..21];
  }

  /** A record cut short is never taken for anything else. */
  lemma DeserializeCut(c: Checksum, e: Entry, m: nat)
    requires Fits(e) && m < e.Size()
    ensures Deserialize(c, Encode(c, e)[..m]) == NeedMore
  {
    if m >= HEADER {
      EncodedLengths(c, e);
      CutHeader(Encode(c, e), m);
    }
  }

  lemma EncodedLengths(c: Checksum, e: Entry)
    requires Fits(e)
    ensures FromLe(Encode(c, e)[13..17]) == |e.key| && FromLe(Encode(c, e)[17..21]) == |e.value|
  {
    var d := Encode(c, e);
    MetaOf(c, e);
    MetaFields(e);
    HeaderSlices(d);
    Limits();
    LeRoundTrip(|e.key|, 4);
    LeRoundTrip(|e.value|, 4);
  }

  lemma MetaOf(c: Checksum, e: Entry)
    ensures Encode(c, e)[4..21] == Meta(e)
  {
    FieldsOf(c, e, []);
    assert Encode(c, e) + [] == Encode(c, e);
  }

  lemma CutHeader(d: Data, m: nat)
    requires 21 <= m <= |d|
    ensures d[..m][13..17] == d[13..17] && d[..m][17..21] == d[17..21]
  {}

  /** A verdict other than NeedMore does not change when more bytes arrive. */
  lemma DeserializeExtend(c: Checksum, d: Data, x: Data)
    requires Deserialize(c, d) != NeedMore
    ensures Deserialize(c, d + x) == Deserialize(c, d)
  {
    var end := HEADER + FromLe(d[13..17]) + FromLe(d[17..21]);
    SliceLeft(d, x, 0, 4);
    SliceLeft(d, x, 4, 12);
    SliceLeft(d, x, 13, 17);
    SliceLeft(d, x, 17, 21);
    SliceLeft(d, x, 4, end);
    SliceLeft(d, x, HEADER, HEADER + FromLe(d[13..17]));
    SliceLeft(d, x, HEADER + FromLe(d[13..17]), end);
  }

  /** The compactor's reading of a record: by its lengths alone, without the checksum. */
  function Peek(d: Data): Read {
    if |d| < HEADER then NeedMore
    else
      var klen, vlen := FromLe(d[13..17]), FromLe(d[17..21]);
      if |d| < HEADER + klen + vlen then NeedMore
      else Ok(Entry(FromLe(d[4..12]), d[12], d[HEADER..HEADER + klen], d[HEADER + klen..HEADER + klen + vlen]))
  }

  /** It differs from a full read only in accepting what the checksum would refuse. */
  lemma PeekAgrees(c: Checksum, d: Data)
    ensures Deserialize(c, d).Corrupt? || Peek(d) == Deserialize(c, d)
    ensures Peek(d).NeedMore? <==> Deserialize(c, d).NeedMore?
  {}

  /**
   What the bytes decide: a record asks for more data exactly while it is not all there, by the key
   length at byte 13 and the value length at byte 17, and is corrupt exactly when it is all there and
   the checksum at byte 0 is not that of the rest.
   */
  lemma DeserializeVerdict(c: Checksum, d: Data)
    ensures Deserialize(c, d) == NeedMore <==>
            |d| < 21 || |d| < 21 + Number4(d, 13) + Number4(d, 17)
    ensures |d| >= 21 && |d| >= 21 + Number4(d, 13) + Number4(d, 17) ==>
              (Deserialize(c, d) == Corrupt <==>
               Number4(d, 0) != Crc(c, d[4..21 + Number4(d, 13) + Number4(d, 17)]))
  {
    if |d| >= 21 {
      FromLe4(d[..4]);
      FromLe4(d[13..17]);
      FromLe4(d[17..21]);
    }
  }

  // ---------------------------------------------------------------- the format as a pair of functions

  /** What a file of records needs to know about the format. */
  datatype Codec = Codec(write: Entry -> Data, read: Data -> Read, peek: Data -> Read)

  ghost predicate Lawful(k: Codec) { ReadLawful(k) && PeekLawful(k) }

  ghost predicate ReadLawful(k: Codec) {
    && (forall e: Entry {:trigger k.write(e)} :: |k.write(e)| == e.Size())
    && (forall e: Entry, rest: Data {:trigger k.read(k.write(e) + rest)} ::
      Fits(e) ==> k.read(k.write(e) + rest) == Ok(e))
    && (forall d: Data, x: Data {:trigger k.read(d + x)} :: k.read(d) != NeedMore ==> k.read(d + x) == k.read(d))
    && (forall d: Data {:trigger k.read(d)} ::
      k.read(d).Ok? ==> k.read(d).entry.Size() <= |d| && d[..k.read(d).entry.Size()] == k.write(k.read(d).entry))
  }

  ghost predicate PeekLawful(k: Codec) {
    && (forall e: Entry, rest: Data {:trigger k.peek(k.write(e) + rest)} ::
      Fits(e) ==> k.peek(k.write(e) + rest) == Ok(e))
    && (forall e: Entry, m: nat {:trigger k.peek(k.write(e)[..m])} ::
      Fits(e) && m < |k.write(e)| ==> k.peek(k.write(e)[..m]) == NeedMore)
    && (forall d: Data {:trigger k.peek(d)} :: k.peek(d).Ok? ==> k.peek(d).entry.Size() <= |d|)
  }

  function FormatOf(c: Checksum): Codec { Codec(e => Encode(c, e), d => Deserialize(c, d), d => Peek(d)) }

  /** The format reads exactly what it writes. */
  lemma FormatIsLawful(c: Checksum)
    ensures Lawful(FormatOf(c))
  {
    FormatReads(c);
    FormatPeeks(c);
  }

  lemma FormatReads(c: Checksum)
    ensures ReadLawful(FormatOf(c))
  {
    var k := FormatOf(c);
    forall e: Entry, rest: Data | Fits(e) ensures k.read(k.write(e) + rest) == Ok(e) { DeserializeEncoded(c, e, rest); }
    forall d: Data, x: Data | k.read(d) != NeedMore ensures k.read(d + x) == k.read(d) { DeserializeExtend(c, d, x); }
    forall d: Data | k.read(d).Ok?
      ensures k.read(d).entry.Size() <= |d| && d[..k.read(d).entry.Size()] == k.write(k.read(d).entry)
    {
      DeserializeOnlyEncoded(c, d, k.read(d).entry);
    }
  }

  lemma FormatPeeks(c: Checksum)
    ensures PeekLawful(FormatOf(c))
  {
    var k := FormatOf(c);
    forall e: Entry, rest: Data | Fits(e) ensures k.peek(k.write(e) + rest) == Ok(e) { PeekEncoded(c, e, rest); }
    forall e: Entry, m: nat | Fits(e) && m < |k.write(e)|
      ensures k.peek(k.write(e)[..m]) == NeedMore
    {
      PeekCut(c, e, m);
    }
    forall d: Data | k.peek(d).Ok? ensures k.peek(d).entry.Size() <= |d| { PeekSize(d); }
  }

  lemma PeekEncoded(c: Checksum, e: Entry, rest: Data)
    requires Fits(e)
    ensures Peek(Encode(c, e) + rest) == Ok(e)
  {
    DeserializeEncoded(c, e, rest);
    PeekAgrees(c, Encode(c, e) + rest);
  }

  lemma PeekCut(c: Checksum, e: Entry, m: nat)
    requires Fits(e) && m < e.Size()
    ensures Peek(Encode(c, e)[..m]) == NeedMore
  {
    DeserializeCut(c, e, m);
    PeekAgrees(c, Encode(c, e)[..m]);
  }

  lemma PeekSize(d: Data)
    requires Peek(d).Ok?
    ensures Peek(d).entry.Size() <= |d|
  {}

  // ---------------------------------------------------------------- a file of records

  function LenOf(es: seq<Entry>): nat {
    if es == [] then 0 else LenOf(es[..|es| - 1]) + es[|es| - 1].Size()
  }

  function BytesOf(k: Codec, es: seq<Entry>): (d: Data)
    requires Lawful(k)
    ensures |d| == LenOf(es)
  {
    if es == [] then [] else BytesOf(k, es[..|es| - 1]) + k.write(es[|es| - 1])
  }

  /** The record e starts at this offset. */
  predicate Located(es: seq<Entry>, offset: nat, e: Entry) {
    var n := |es| - 1;
    es != [] && ((offset == LenOf(es[..n]) && es[n] == e) || Located(es[..n], offset, e))
  }

  lemma Appended(k: Codec, es: seq<Entry>, e: Entry)
    requires Lawful(k)
    ensures LenOf(es + [e]) == LenOf(es) + e.Size() && BytesOf(k, es + [e]) == BytesOf(k, es) + k.write(e)
    ensures Located(es + [e], LenOf(es), e)
  {
    assert (es + [e])[..|es|] == es;
  }

  lemma LocatedKept(es: seq<Entry>, e: Entry, offset: nat, x: Entry)
    ensures Located(es, offset, x) ==> Located(es + [e], offset, x)
    ensures Located(es + [e], offset, x) ==> Located(es, offset, x) || (offset == LenOf(es) && x == e)
  {
    assert (es + [e])[..|es|] == es;
  }

  lemma {:induction false} LocatedBound(es: seq<Entry>, offset: nat, e: Entry)
    requires Located(es, offset, e)
    ensures offset + e.Size() <= LenOf(es)
  {
    var n := |es| - 1;
    if !(offset == LenOf(es[..n]) && es[n] == e) { LocatedBound(es[..n], offset, e); }
  }

  /** One record at most starts at an offset. */
  lemma {:induction false} LocatedOnce(es: seq<Entry>, offset: nat, e: Entry, x: Entry)
    requires Located(es, offset, e) && Located(es, offset, x)
    ensures e == x
  {
    var n := |es| - 1;
    if offset == LenOf(es[..n]) {
      if Located(es[..n], offset, e) { LocatedBound(es[..n], offset, e); }
      if Located(es[..n], offset, x) { LocatedBound(es[..n], offset, x); }
    } else {
      LocatedOnce(es[..n], offset, e, x);
    }
  }

  /** The bytes of the file at a record's offset are the record's. */
  lemma {:induction false} BytesAt(k: Codec, es: seq<Entry>, offset: nat, e: Entry)
    requires Lawful(k) && Located(es, offset, e)
    ensures offset + e.Size() <= LenOf(es) && BytesOf(k, es)[offset..offset + e.Size()] == k.write(e)
  {
    var n := |es| - 1;
    LocatedBound(es, offset, e);
    var d, x := BytesOf(k, es[..n]), k.write(es[n]);
    if offset == LenOf(es[..n]) && es[n] == e {
      SliceRight(d, x);
    } else {
      BytesAt(k, es[..n], offset, e);
      SliceLeft(d, x, offset, offset + e.Size());
    }
  }

  lemma SliceLeft(a: Data, b: Data, i: nat, j: nat)
    requires i <= j <= |a|
    ensures (a + b)[i..j] == a[i..j]
  {}

  lemma SliceRight(a: Data, b: Data)
    ensures (a + b)[|a|..|a| + |b|] == b
  {}

  lemma {:induction false} LocatedIndex(es: seq<Entry>, i: nat)
    requires i < |es|
    ensures Located(es, LenOf(es[..i]), es[i])
  {
    var n := |es| - 1;
    if i < n {
      LocatedIndex(es[..n], i);
      assert es[..n][..i] == es[..i];
    }
  }
}
