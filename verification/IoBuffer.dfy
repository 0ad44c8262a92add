/**
 IoBuffer: one growing array holding a published part [read, commit) and a
 staged part [commit, write), consumed from the front and appended at the end.
 */
module IoBuffers {
  import opened Bytes

  const MIN_CAPACITY: nat := 4096
  const COMPACT_THRESHOLD: nat := 1024

  function Min(a: nat, b: nat): nat { if a < b then a else b }
  function Max(a: nat, b: nat): nat { if a < b then b else a }

  ghost predicate PowerOfTwo(n: nat) { n == 1 || (n > 1 && n % 2 == 0 && PowerOfTwo(n / 2)) }

  /** RoundUpPow2 (std::bit_ceil): the least power of two that is at least n. */
  function RoundUpPow2(n: nat): (r: nat)
    ensures r >= n && PowerOfTwo(r) && (n > 1 ==> r <= 2 * (n - 1))
  {
    if n <= 1 then 1
    else
      var half := RoundUpPow2((n + 1) / 2);
      assert 2 * half / 2 == half && (n > 2 ==> half <= n - 1);
      2 * half
  }

  class IoBuffer {
    var data: array<Byte>
    var readPos: nat
    var commitPos: nat
    var writePos: nat

    ghost predicate Valid()
      reads this
    { readPos <= commitPos <= writePos <= data.Length }

    function Capacity(): nat reads this { data.Length }

    /** The bytes a reader can see. */
    function Published(): Data
      requires Valid()
      reads this, data
    { data[readPos..commitPos] }

    /** The bytes built but not yet published. */
    function Staged(): Data
      requires Valid()
      reads this, data
    { data[commitPos..writePos] }

    function WritableBytes(): nat
      requires Valid()
      reads this
    { data.Length - writePos }

    constructor (initialCapacity: nat)
      ensures Valid() && fresh(data) && Published() == [] && Staged() == [] && WritableBytes() >= initialCapacity
    {
      data := new Byte[0];
      readPos, commitPos, writePos := 0, 0, 0;
      new;
      Reserve(initialCapacity);
    }

    /** Everything between the read and write positions moves to the front of a new array. */
    method Reserve(minCapacity: nat)
      requires Valid()
      modifies this, data
      ensures Valid() && Published() == old(Published()) && Staged() == old(Staged())
      ensures Capacity() >= minCapacity && Capacity() >= old(Capacity())
      ensures if minCapacity <= old(Capacity()) then data == old(data) && readPos == old(readPos)
              && commitPos == old(commitPos) && writePos == old(writePos)
              else fresh(data) && readPos == 0 && Capacity() == Max(4096, RoundUpPow2(minCapacity))
    {
      if minCapacity <= data.Length { return; }
      var live := writePos - readPos;
      var bigger := new Byte[Max(MIN_CAPACITY, RoundUpPow2(minCapacity))](_ => 0);
      forall j | 0 <= j < live { bigger[j] := data[readPos + j]; }
      assert bigger[..live] == data[readPos..writePos];
      ghost var cut := commitPos - readPos;
      assert bigger[..cut] == bigger[..live][..cut] == data[readPos..commitPos];
      assert bigger[cut..live] == bigger[..live][cut..] == data[commitPos..writePos];
      writePos, commitPos, readPos := live, commitPos - readPos, 0;
      data := bigger;
    }

    /** std::memmove of the live bytes to the front of the same array. */
    method Compact()
      requires Valid()
      modifies this, data
      ensures Valid() && data == old(data) && readPos == 0 && writePos == old(writePos - readPos)
      ensures Published() == old(Published()) && Staged() == old(Staged())
    {
      var live, published := writePos - readPos, commitPos - readPos;
      ghost var was := data[readPos..writePos];
      assert was[..published] == data[readPos..commitPos] && was[published..] == data[commitPos..writePos];
      forall j | 0 <= j < live { data[j] := data[readPos + j]; }
      assert data[..live] == was;
      assert data[..published] == was[..published] && data[published..live] == was[published..];
      readPos, commitPos, writePos := 0, published, live;
    }

    method EnsureWritableBytes(additional: nat)
      requires Valid()
      modifies this, data
      ensures Valid() && Published() == old(Published()) && Staged() == old(Staged())
      ensures WritableBytes() >= additional && (data == old(data) || fresh(data))
      // nothing to do, or room behind enough consumed bytes, or a bigger array
      ensures if old(WritableBytes()) >= additional then
                data == old(data) && readPos == old(readPos) && commitPos == old(commitPos) && writePos == old(writePos)
              else if old(readPos) >= 1024 && old(readPos + WritableBytes()) >= additional then
                data == old(data) && readPos == 0
              else
                fresh(data) && readPos == 0 && Capacity() >= 4096 && Capacity() > old(Capacity())
    {
      if WritableBytes() >= additional { return; }
      var live := writePos - readPos;
      if data.Length - live >= additional && readPos >= COMPACT_THRESHOLD {
        Compact();
        if WritableBytes() >= additional { return; }
      }
      // Grow
      Reserve(Max(live + additional, if data.Length > 0 then data.Length + 1 else MIN_CAPACITY));
    }

    /** Publish n bytes the caller wrote into the writable span, or as many as there was room for. */
    method CommitWritten(n: nat) returns (actual: nat)
      requires Valid()
      modifies `commitPos, `writePos
      ensures Valid() && actual == Min(n, old(WritableBytes()))
      ensures |Published()| == |old(Published())| + actual
      ensures Published() + Staged() == old(Published() + Staged() + data[writePos..writePos + Min(n, WritableBytes())])
    {
      actual := Min(n, WritableBytes());
      ghost var all := data[readPos..writePos + actual];
      assert Published() + Staged() + data[writePos..writePos + actual] == all;
      writePos, commitPos := writePos + actual, commitPos + actual;
      assert Published() + Staged() == all;
    }

    /** Publish what is staged. */
    method Commit()
      requires Valid()
      modifies `commitPos
      ensures Valid() && Published() == old(Published() + Staged()) && Staged() == []
    {
      assert data[readPos..writePos] == Published() + Staged();
      commitPos := writePos;
    }

    /** Drop exactly what is staged. */
    method RollbackPending()
      requires Valid()
      modifies `writePos
      ensures Valid() && Published() == old(Published()) && Staged() == []
    { writePos := commitPos; }

    method Consume(n: nat) returns (actual: nat)
      requires Valid()
      modifies `readPos, `commitPos, `writePos
      ensures Valid() && actual == Min(n, |old(Published())|)
      ensures Published() == old(Published())[actual..] && Staged() == old(Staged())
    {
      actual := Min(n, commitPos - readPos);
      readPos := readPos + actual;
      assert data[readPos..commitPos] == old(Published())[actual..];
      if readPos == commitPos && commitPos == writePos {
        readPos, commitPos, writePos := 0, 0, 0;
      }
    }

    /** std::memcpy past the write position. */
    method CopyIn(bytes: Data)
      requires Valid() && |bytes| <= WritableBytes()
      modifies data
      ensures Published() == old(Published()) && Staged() == old(Staged())
      ensures data[writePos..writePos + |bytes|] == bytes
    {
      forall j | 0 <= j < |bytes| { data[writePos + j] := bytes[j]; }
    }

    /** The bytes just behind the staged ones join them. */
    method Stage(n: nat)
      requires Valid() && n <= WritableBytes()
      modifies `writePos
      ensures Valid() && Published() == old(Published()) && Staged() == old(Staged() + data[writePos..writePos + n])
    {
      assert data[commitPos..writePos + n] == data[commitPos..writePos] + data[writePos..writePos + n];
      writePos := writePos + n;
    }

    method Append(bytes: Data)
      requires Valid()
      modifies this, data
      ensures Valid() && Published() == old(Published()) && Staged() == old(Staged()) + bytes
      ensures data == old(data) || fresh(data)
    {
      EnsureWritableBytes(|bytes|);
      CopyIn(bytes);
      Stage(|bytes|);
    }

    method Clear()
      requires Valid()
      modifies `readPos, `commitPos, `writePos
      ensures Valid() && Published() == [] && Staged() == []
    { readPos, commitPos, writePos := 0, 0, 0; }
  }

  // ---------------------------------------------------------------- whole runs

  datatype Op =
    | Append(bytes: Data)
    | Receive(bytes: Data)
    | Publish
    | Rollback
    | Consume(n: nat)
    | EnsureWritable(n: nat)
    | Reserve(n: nat)
    | Clear

  /** The abstract buffer: two byte strings. */
  datatype Queue = Queue(published: Data, staged: Data)

  function Apply(q: Queue, op: Op): Queue {
    match op
    case Append(bytes) => q.(staged := q.staged + bytes)
    case Receive(bytes) =>
      var all, n := q.published + q.staged + bytes, |q.published| + |bytes|;
      Queue(all[..n], all[n..])   // as many bytes as came in are published, the oldest first
    case Publish => Queue(q.published + q.staged, [])
    case Rollback => q.(staged := [])
    case Consume(n) => q.(published := q.published[Min(n, |q.published|)..])
    case EnsureWritable(_) => q
    case Reserve(_) => q
    case Clear => Queue([], [])
  }

  function ApplyAll(q: Queue, ops: seq<Op>): Queue {
    if ops == [] then q else Apply(ApplyAll(q, ops[..|ops| - 1]), ops[|ops| - 1])
  }

  /** Bytes read into the writable span, and Commit(n): what was staged goes first. */
  method Receive(b: IoBuffer, bytes: Data)
    requires b.Valid()
    modifies b, b.data
    ensures b.Valid() && (b.data == old(b.data) || fresh(b.data))
    ensures Queue(b.Published(), b.Staged()) == Apply(old(Queue(b.Published(), b.Staged())), Op.Receive(bytes))
  {
    b.EnsureWritableBytes(|bytes|);
    ghost var q := Queue(b.Published(), b.Staged());
    Fill(b, bytes);
    CutAt(b.Published(), b.Staged(), q.published + q.staged + bytes);
  }

  /** Bytes read into a writable span that has room for them, and committed. */
  method Fill(b: IoBuffer, bytes: Data)
    requires b.Valid() && |bytes| <= b.WritableBytes()
    modifies b.data, b`commitPos, b`writePos
    ensures b.Valid() && |b.Published()| == |old(b.Published())| + |bytes|
    ensures b.Published() + b.Staged() == old(b.Published() + b.Staged()) + bytes
  {
    b.CopyIn(bytes);
    var _ := b.CommitWritten(|bytes|);
  }

  lemma CutAt(front: Data, back: Data, all: Data)
    requires front + back == all
    ensures front == all[..|front|] && back == all[|front|..]
  {}

  method Perform(b: IoBuffer, op: Op)
    requires b.Valid()
    modifies b, b.data
    ensures b.Valid() && (b.data == old(b.data) || fresh(b.data))
    ensures Queue(b.Published(), b.Staged()) == Apply(old(Queue(b.Published(), b.Staged())), op)
  {
    match op
    case Append(bytes) => b.Append(bytes);
    case Receive(bytes) => Receive(b, bytes);
    case Publish => b.Commit();
    case Rollback => b.RollbackPending();
    case Consume(n) => var _ := b.Consume(n);
    case EnsureWritable(n) => b.EnsureWritableBytes(n);
    case Reserve(n) => b.Reserve(n);
    case Clear => b.Clear();
  }

  /** Any run of operations on a new buffer shows exactly what the two byte strings would be. */
  method RunRefinesQueue(capacity: nat, ops: seq<Op>) returns (published: Data, staged: Data)
    ensures Queue(published, staged) == ApplyAll(Queue([], []), ops)
  {
    var b := new IoBuffer(capacity);
    for i := 0 to |ops|
      invariant b.Valid() && fresh(b) && fresh(b.data)
      invariant Queue(b.Published(), b.Staged()) == ApplyAll(Queue([], []), ops[..i])
    {
      assert ops[..i + 1][..i] == ops[..i];
      Perform(b, ops[i]);
    }
    assert ops[..|ops|] == ops;
    published, staged := b.Published(), b.Staged();
  }
}
