/** 64-bit file ids: partition (16 bits), seconds (32 bits), sequence (16 bits), and their generator. */
module FileIds {
  const SEQ_LIMIT: nat := 0x1_0000
  const TIME_LIMIT: nat := 0x1_0000_0000

  datatype FileId = FileId(partition: nat, seconds: nat, sequence: nat)

  predicate InRange(f: FileId) { f.partition < SEQ_LIMIT && f.seconds < TIME_LIMIT && f.sequence < SEQ_LIMIT }

  function Encode(f: FileId): nat { f.partition * 0x1_0000_0000_0000 + f.seconds * 0x1_0000 + f.sequence }

  function Decode(id: nat): FileId {
    FileId(id / 0x1_0000_0000_0000 % 0x1_0000, id / 0x1_0000 % 0x1_0000_0000, id % 0x1_0000)
  }

  lemma DecodeEncode(f: FileId)
    requires InRange(f)
    ensures Decode(Encode(f)) == f && Encode(f) < 0x1_0000_0000_0000_0000
  {
    var id := Encode(f);
    assert id / 0x1_0000 == f.partition * 0x1_0000_0000 + f.seconds;
    assert id / 0x1_0000_0000_0000 == f.partition;
  }

  lemma EncodeDecode(id: nat)
    requires id < 0x1_0000_0000_0000_0000
    ensures InRange(Decode(id)) && Encode(Decode(id)) == id
  {
    var hi := id / 0x1_0000;
    assert id == hi * 0x1_0000 + id % 0x1_0000;
    assert id / 0x1_0000_0000_0000 == hi / 0x1_0000_0000;
    assert hi == hi / 0x1_0000_0000 * 0x1_0000_0000 + hi % 0x1_0000_0000;
  }

  /** The later of two clock readings. */
  function Latest(a: nat, b: nat): nat { if a < b then b else a }

  /** FileIdCompareByTime. */
  predicate CompareByTime(a: nat, b: nat) {
    var x, y := Decode(a), Decode(b);
    if x.seconds != y.seconds then x.seconds < y.seconds else x.sequence < y.sequence
  }

  /** Comparing by time compares the ids themselves when the partition is the same. */
  lemma CompareIsOrder(a: nat, b: nat)
    requires a < 0x1_0000_0000_0000_0000 && b < 0x1_0000_0000_0000_0000 && Decode(a).partition == Decode(b).partition
    ensures CompareByTime(a, b) <==> a < b
  {
    EncodeDecode(a);
    EncodeDecode(b);
    var x, y := Decode(a), Decode(b);
    if x.seconds < y.seconds { assert x.seconds * 0x1_0000 + x.sequence < y.seconds * 0x1_0000; }
    if y.seconds < x.seconds { assert y.seconds * 0x1_0000 + y.sequence < x.seconds * 0x1_0000; }
  }

  class FileIdGenerator {
    const partition: nat
    var lastTimestamp: nat
    var sequence: nat

    ghost predicate Valid() reads this { InRange(FileId(partition, lastTimestamp, sequence)) }

    /** The id issued last. */
    function Last(): (id: nat) reads this { Encode(FileId(partition, lastTimestamp, sequence)) }

    /** The next call would start the sequence over within the same second. */
    predicate Exhausted(now: nat) reads this { now <= lastTimestamp && sequence == 0xFFFF }

    constructor (partition: nat)
      requires partition < SEQ_LIMIT
      ensures Valid() && this.partition == partition && lastTimestamp == 0 && sequence == 0
    { this.partition, lastTimestamp, sequence := partition, 0, 0; }

    /** Never moves back. */
    method UpdateState(maxTimestamp: nat, maxSequence: nat)
      requires Valid() && maxTimestamp < TIME_LIMIT && maxSequence < SEQ_LIMIT
      modifies this
      ensures Valid() && Last() == if old(Last()) <= Encode(FileId(partition, maxTimestamp, maxSequence))
                                   then Encode(FileId(partition, maxTimestamp, maxSequence)) else old(Last())
    {
      if maxTimestamp > lastTimestamp {
        lastTimestamp, sequence := maxTimestamp, maxSequence;
      } else if maxTimestamp == lastTimestamp {
        sequence := if maxSequence > sequence then maxSequence else sequence;
      }
    }

    /** The new id is above every earlier one, even if the clock went back, exactly until the sequence runs out. */
    method Next(now: nat) returns (id: nat)
      requires Valid() && now < TIME_LIMIT
      modifies this
      ensures Valid() && id == Last() && Decode(id).partition == partition
      ensures id > old(Last()) <==> !old(Exhausted(now))
      ensures Decode(id).sequence == sequence <= old(sequence) + 1 && lastTimestamp == Latest(old(lastTimestamp), now)
      ensures CompareByTime(old(Last()), id) <==> !old(Exhausted(now))
    {
      ghost var before := FileId(partition, lastTimestamp, sequence);
      if now > lastTimestamp {
        lastTimestamp, sequence := now, 0;
      } else {
        if sequence == 0xFFFF { sequence := 0; } else { sequence := sequence + 1; }
      }
      id := Encode(FileId(partition, lastTimestamp, sequence));
      DecodeEncode(before);
      DecodeEncode(FileId(partition, lastTimestamp, sequence));
      CompareIsOrder(Encode(before), id);
    }
  }

  lemma LowerIsEarlier(f: FileId, g: FileId)
    requires InRange(f) && InRange(g) && f.partition == g.partition && Encode(f) <= Encode(g)
    ensures f.seconds <= g.seconds
  {}

  // ---------------------------------------------------------------- directory order

  /** s lists the elements of t, each once, in any order. */
  ghost predicate Lists(s: seq<nat>, t: seq<nat>) {
    && |s| == |t|
    && (forall i, j | 0 <= i < j < |s| :: s[i] != s[j])
    && (forall x | x in s :: x in t)
    && (forall x | x in t :: x in s)
  }

  ghost predicate Increasing(s: seq<nat>) { forall i, j | 0 <= i < j < |s| :: s[i] < s[j] }

  predicate Sorted(s: seq<nat>) { forall i, j | 0 <= i < j < |s| :: !CompareByTime(s[j], s[i]) }

  ghost predicate OnePartition(s: seq<nat>, p: nat) {
    forall x | x in s :: x < 0x1_0000_0000_0000_0000 && Decode(x).partition == p
  }

  /** However the directory was listed, sorting puts the files back in the order they were created. */
  lemma SortRestoresOrder(s: seq<nat>, created: seq<nat>, p: nat)
    requires Increasing(created) && Lists(s, created) && OnePartition(created, p) && Sorted(s)
    ensures s == created
  {
    forall i, j | 0 <= i < j < |s| ensures s[i] <= s[j] {
      assert s[i] in created && s[j] in created;
      CompareIsOrder(s[j], s[i]);
    }
    SameSorted(s, created);
  }

  lemma {:induction false} SameSorted(s: seq<nat>, t: seq<nat>)
    requires Increasing(t) && Lists(s, t) && forall i, j | 0 <= i < j < |s| :: s[i] <= s[j]
    ensures s == t
  {
    if s != [] {
      var n := |s| - 1;
      assert t[n] in t && s[n] in s;
      var i :| 0 <= i < |s| && s[i] == t[n];
      var j :| 0 <= j < |t| && t[j] == s[n];
      assert s[n] == t[n];
      AllBut(s, t, n);
      SameSorted(s[..n], t[..n]);
      assert s == s[..n] + [s[n]] && t == t[..n] + [t[n]];
    }
  }

  lemma AllBut(s: seq<nat>, t: seq<nat>, n: nat)
    requires Increasing(t) && Lists(s, t) && |s| == n + 1 && s[n] == t[n]
    ensures Lists(s[..n], t[..n])
  {
    forall x | x in t[..n] ensures x in s[..n] {
      assert x in t && x in s;
      var i :| 0 <= i < |s| && s[i] == x;
    }
    forall x | x in s[..n] ensures x in t[..n] {
      var i :| 0 <= i < n && s[i] == x;
      assert s[i] in t;
      var j :| 0 <= j < |t| && t[j] == x;
    }
  }

  // ---------------------------------------------------------------- sorting

  /** Seconds and sequence as one number. */
  function Stamp(id: nat): nat { Decode(id).seconds * 0x1_0000 + Decode(id).sequence }

  lemma CompareStamp(a: nat, b: nat)
    ensures CompareByTime(a, b) <==> Stamp(a) < Stamp(b)
  {}

  /** Where x belongs in a sorted listing. */
  method Place(s: seq<nat>, x: nat) returns (i: nat)
    requires Sorted(s)
    ensures i <= |s| && (forall j | 0 <= j < i :: !CompareByTime(x, s[j]))
    ensures (forall j | i <= j < |s| :: CompareByTime(x, s[j]))
  {
    i := |s|;
    while i > 0 && CompareByTime(x, s[i - 1])
      invariant i <= |s| && forall j | i <= j < |s| :: CompareByTime(x, s[j])
    {
      i := i - 1;
    }
    forall j | 0 <= j < i ensures !CompareByTime(x, s[j]) {
      CompareStamp(x, s[j]);
      CompareStamp(x, s[i - 1]);
      if j < i - 1 { CompareStamp(s[i - 1], s[j]); }
    }
  }

  lemma PlacedSorted(s: seq<nat>, x: nat, i: nat)
    requires Sorted(s) && i <= |s| && (forall j | 0 <= j < i :: !CompareByTime(x, s[j]))
    requires (forall j | i <= j < |s| :: CompareByTime(x, s[j]))
    ensures Sorted(s[..i] + [x] + s[i..])
  {
    var t := s[..i] + [x] + s[i..];
    forall a, b | 0 <= a < b < |t| ensures !CompareByTime(t[b], t[a]) {
      CompareStamp(t[b], t[a]);
      if a == i { CompareStamp(x, s[b - 1]); }
    }
  }

  /** ScanDataFiles: the ids in whatever order the directory gives them, sorted by time. */
  method ScanDataFiles(ids: set<nat>) returns (order: seq<nat>)
    ensures Sorted(order) && (forall id :: id in order <==> id in ids)
    ensures forall i, j | 0 <= i < j < |order| :: order[i] != order[j]
  {
    order := [];
    var left := ids;
    while left != {}
      invariant left <= ids && Sorted(order) && (forall id :: id in order <==> id in ids && id !in left)
      invariant forall i, j | 0 <= i < j < |order| :: order[i] != order[j]
      decreases |left|
    {
      var id :| id in left;
      var i := Place(order, id);
      PlacedSorted(order, id, i);
      assert id !in order;
      order := order[..i] + [id] + order[i..];
      left := left - {id};
    }
  }

  ghost function Elements(s: seq<nat>): set<nat> { set x | x in s }

  lemma {:induction false} DistinctCard(s: seq<nat>)
    requires forall i, j | 0 <= i < j < |s| :: s[i] != s[j]
    ensures |Elements(s)| == |s|
  {
    if s != [] {
      var n := |s| - 1;
      DistinctCard(s[..n]);
      assert s == s[..n] + [s[n]];
      assert Elements(s) == Elements(s[..n]) + {s[n]} && s[n] !in Elements(s[..n]);
    }
  }

  /** Two listings of the same files have the same length. */
  lemma SameFiles(s: seq<nat>, t: seq<nat>)
    requires (forall i, j | 0 <= i < j < |s| :: s[i] != s[j]) && Increasing(t) && forall x :: x in s <==> x in t
    ensures Lists(s, t)
  {
    DistinctCard(s);
    DistinctCard(t);
    assert Elements(s) == Elements(t);
  }
}
