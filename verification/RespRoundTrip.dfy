/** The RESP writer, and the way of its values through the buffer and the parser. */
module RespRoundTrip {
  import opened Bytes
  import opened RespParser
  import opened RespTrees
  import IoBuffers

  /** What the writer can express. */
  datatype Value =
    | Simple(text: Data)
    | Error(text: Data)
    | Integer(n: int)
    | Bulk(bytes: Data)
    | NullBulk
    | Array(items: seq<Value>)
    | NullArray

  /** The frame a value is sent as; numbers are printed without leading zeros. */
  function TreeOf(v: Value): Tree {
    match v
    case Simple(s) => Text(43, s)
    case Error(s) => Text(45, s)
    case Integer(n) => Text(58, Decimal(n))
    case Bulk(s) => Blob(36, Decimal(|s|), s)
    case NullBulk => Nil(36, [45, 49])
    case NullArray => Nil(42, [45, 49])
    case Array(items) =>
      Group(42, Decimal(|items|), seq(|items|, i requires 0 <= i < |items| => TreeOf(items[i])))
  }

  function Wire(v: Value): Data { Encode(TreeOf(v)) }

  function Wires(vs: seq<Value>): (r: seq<Data>)
    ensures |r| == |vs|
  { seq(|vs|, i requires 0 <= i < |vs| => Wire(vs[i])) }

  /** Texts without a line break and numbers that fit 64 bits. */
  predicate Writable(v: Value) {
    match v
    case Simple(s) => NoCrlf(s)
    case Error(s) => NoCrlf(s)
    case Integer(n) => Int64(n)
    case Bulk(s) => Int64(|s|)
    case NullBulk => true
    case NullArray => true
    case Array(items) => Int64(|items|) && forall x | x in items :: Writable(x)
  }

  /** A value the peer's parser accepts at the top level. */
  predicate Sendable(cfg: Config, v: Value) {
    Writable(v) && |Wire(v)| <= cfg.maxSize && Nested(TreeOf(v), cfg.maxDepth)
  }

  lemma {:induction false} WritableProper(cfg: Config, v: Value)
    requires Writable(v)
    ensures Proper(cfg, TreeOf(v))
    decreases v
  {
    match v
    case Simple(_) =>
    case Error(_) =>
    case Integer(n) =>
      DecimalIsNumeral(n);
      NumeralNoCrlf(Decimal(n), n);
    case Bulk(s) => DecimalIsNumeral(|s|);
    case NullBulk => MinusOne();
    case NullArray => MinusOne();
    case Array(items) =>
      forall i | 0 <= i < |items| ensures Proper(cfg, TreeOf(items[i])) { WritableProper(cfg, items[i]); }
      ArrayProper(cfg, v);
  }

  lemma ArrayProper(cfg: Config, v: Value)
    requires v.Array? && Int64(|v.items|) && forall i | 0 <= i < |v.items| :: Proper(cfg, TreeOf(v.items[i]))
    ensures Proper(cfg, TreeOf(v))
  {
    DecimalIsNumeral(|v.items|);
    forall x | x in TreeOf(v).items ensures Proper(cfg, x) {
      var i :| 0 <= i < |v.items| && x == TreeOf(v.items[i]);
    }
  }

  lemma MinusOne()
    ensures Numeral([45, 49], -1)
  {
    assert Digits(1) == [49];
    assert Decimal(-1) == [45, 49];
    DecimalIsNumeral(-1);
  }

  /** Every sendable value parses back, whatever follows it. */
  lemma ValueRoundTrip(cfg: Config, v: Value, rest: Data)
    requires Sendable(cfg, v)
    ensures ReadsBack(cfg, TreeOf(v), Wire(v) + rest, 0)
  {
    WritableProper(cfg, v);
    TreeRoundTrip(cfg, TreeOf(v), rest, Wire(v) + rest, 0);
  }

  lemma WireArray(items: seq<Value>)
    ensures Wire(Array(items)) == Line(42, Decimal(|items|)) + Concat(Wires(items))
  {
    EncodeGroup(42, Decimal(|items|), TreeOf(Array(items)).items);
    assert Encodings(TreeOf(Array(items)).items) == Wires(items);
  }

  // ---------------------------------------------------------------- writer, parser and buffer

  class RespWriter {
    const buffer: IoBuffers.IoBuffer

    constructor (buffer: IoBuffers.IoBuffer)
      ensures this.buffer == buffer
    { this.buffer := buffer; }

    /** Appends made one after the other. */
    method AppendAll(parts: seq<Data>)
      requires buffer.Valid()
      modifies buffer, buffer.data
      ensures buffer.Valid() && (buffer.data == old(buffer.data) || fresh(buffer.data))
      ensures buffer.Published() == old(buffer.Published()) && buffer.Staged() == old(buffer.Staged()) + Concat(parts)
    {
      ghost var was := buffer.Staged();
      for i := 0 to |parts|
        invariant buffer.Valid() && (buffer.data == old(buffer.data) || fresh(buffer.data))
        invariant buffer.Published() == old(buffer.Published()) && buffer.Staged() == was + Concat(parts[..i])
      {
        buffer.Append(parts[i]);
        ConcatSnoc(parts, i);
        Regroup(was, Concat(parts[..i]), parts[i]);
      }
      assert parts[..|parts|] == parts;
    }

    /** One line: the type byte, the text and the line break. */
    method WriteLine(kind: Byte, text: Data)
      requires buffer.Valid()
      modifies buffer, buffer.data
      ensures buffer.Valid() && (buffer.data == old(buffer.data) || fresh(buffer.data))
      ensures buffer.Published() == old(buffer.Published())
      ensures buffer.Staged() == old(buffer.Staged()) + Line(kind, text)
    {
      ConcatThree([kind], text, CRLF);
      AppendAll([[kind], text, CRLF]);
    }

    /** WriteLenPrefix: type and number in one append, then the line break. */
    method WriteLenPrefix(kind: Byte, len: int)
      requires buffer.Valid()
      modifies buffer, buffer.data
      ensures buffer.Valid() && (buffer.data == old(buffer.data) || fresh(buffer.data))
      ensures buffer.Published() == old(buffer.Published())
      ensures buffer.Staged() == old(buffer.Staged()) + Line(kind, Decimal(len))
    {
      ConcatTwo([kind] + Decimal(len), CRLF);
      AppendAll([[kind] + Decimal(len), CRLF]);
    }

    method WriteBulkString(s: Data)
      requires buffer.Valid()
      modifies buffer, buffer.data
      ensures buffer.Valid() && (buffer.data == old(buffer.data) || fresh(buffer.data))
      ensures buffer.Published() == old(buffer.Published()) && buffer.Staged() == old(buffer.Staged()) + Wire(Bulk(s))
    {
      ghost var was, line := buffer.Staged(), Line(36, Decimal(|s|));
      WriteLenPrefix(36, |s|);
      ConcatTwo(s, CRLF);
      AppendAll([s, CRLF]);
      Regroup(was, line, s + CRLF);
      Regroup(line, s, CRLF);
    }

    method WriteNull(kind: Byte)
      requires buffer.Valid()
      modifies buffer, buffer.data
      ensures buffer.Valid() && (buffer.data == old(buffer.data) || fresh(buffer.data))
      ensures buffer.Published() == old(buffer.Published())
      ensures buffer.Staged() == old(buffer.Staged()) + Line(kind, [45, 49])
    {
      buffer.Append([kind, 45, 49, 13, 10]);
      assert [kind, 45, 49, 13, 10] == Line(kind, [45, 49]);
    }

    /** A whole tree, arrays as a header followed by the items. */
    method Write(v: Value)
      requires buffer.Valid()
      modifies buffer, buffer.data
      ensures buffer.Valid() && (buffer.data == old(buffer.data) || fresh(buffer.data))
      ensures buffer.Published() == old(buffer.Published()) && buffer.Staged() == old(buffer.Staged()) + Wire(v)
      decreases v, 1
    {
      match v
      case Simple(s) => WriteLine(43, s);
      case Error(s) => WriteLine(45, s);
      case Integer(n) => WriteLine(58, Decimal(n));
      case Bulk(s) => WriteBulkString(s);
      case NullBulk => WriteNull(36);
      case NullArray => WriteNull(42);
      case Array(items) =>
        ghost var was, line := buffer.Staged(), Line(42, Decimal(|items|));
        WriteLenPrefix(42, |items|);
        WriteItems(v, items);
        WireArray(items);
        Regroup(was, line, Concat(Wires(items)));
    }

    method WriteItems(v: Value, items: seq<Value>)
      requires buffer.Valid() && v == Array(items)
      modifies buffer, buffer.data
      ensures buffer.Valid() && (buffer.data == old(buffer.data) || fresh(buffer.data))
      ensures buffer.Published() == old(buffer.Published())
      ensures buffer.Staged() == old(buffer.Staged()) + Concat(Wires(items))
      decreases v, 0
    {
      ghost var was, parts := buffer.Staged(), Wires(items);
      for i := 0 to |items|
        invariant buffer.Valid() && (buffer.data == old(buffer.data) || fresh(buffer.data))
        invariant buffer.Published() == old(buffer.Published()) && buffer.Staged() == was + Concat(parts[..i])
      {
        Write(items[i]);
        ConcatSnoc(parts, i);
        Regroup(was, Concat(parts[..i]), parts[i]);
      }
      assert parts[..|items|] == parts;
    }
  }

  lemma ConcatTwo(a: Data, b: Data)
    ensures Concat([a, b]) == a + b
  {
    assert [a, b][1..] == [b] && Concat([b]) == b + Concat([]);
  }

  lemma ConcatThree(a: Data, b: Data, c: Data)
    ensures Concat([a, b, c]) == a + b + c
  {
    assert [a, b, c][1..] == [b, c];
    ConcatTwo(b, c);
  }

  lemma {:induction false} ConcatSnoc(parts: seq<Data>, i: nat)
    requires i < |parts|
    ensures Concat(parts[..i + 1]) == Concat(parts[..i]) + parts[i]
  {
    if i > 0 {
      ConcatSnoc(parts[1..], i - 1);
      assert parts[1..][..i] == parts[..i + 1][1..] && parts[1..][..i - 1] == parts[..i][1..];
    }
  }

  lemma ConcatDrop(parts: seq<Data>, i: nat)
    requires i < |parts|
    ensures Concat(parts[i..]) == parts[i] + Concat(parts[i + 1..])
  {
    assert parts[i..][1..] == parts[i + 1..];
  }

  class Parser {
    const cfg: Config
    const buffer: IoBuffers.IoBuffer

    constructor (cfg: Config, buffer: IoBuffers.IoBuffer)
      ensures this.cfg == cfg && this.buffer == buffer
    { this.cfg, this.buffer := cfg, buffer; }

    method NextFrame() returns (r: Result<Header>)
      requires buffer.Valid()
      ensures r == ParseFrame(cfg, buffer.Published(), 0)
    {
      r := ParseFrameInternal(cfg, buffer.Published(), 0);
    }
  }

  /** Write and publish. */
  method Send(writer: RespWriter, v: Value)
    requires writer.buffer.Valid() && writer.buffer.Staged() == []
    modifies writer.buffer, writer.buffer.data
    ensures writer.buffer.Valid() && (writer.buffer.data == old(writer.buffer.data) || fresh(writer.buffer.data))
    ensures writer.buffer.Published() == old(writer.buffer.Published()) + Wire(v) && writer.buffer.Staged() == []
  {
    writer.Write(v);
    assert writer.buffer.Staged() == Wire(v);
    writer.buffer.Commit();
  }

  /** Write and take it back. */
  method Discard(writer: RespWriter, v: Value)
    requires writer.buffer.Valid() && writer.buffer.Staged() == []
    modifies writer.buffer, writer.buffer.data
    ensures writer.buffer.Valid() && (writer.buffer.data == old(writer.buffer.data) || fresh(writer.buffer.data))
    ensures writer.buffer.Published() == old(writer.buffer.Published()) && writer.buffer.Staged() == []
  {
    writer.Write(v);
    writer.buffer.RollbackPending();
  }

  method SendOne(writer: RespWriter, v: Value, dropped: Value)
    requires writer.buffer.Valid() && writer.buffer.Staged() == []
    modifies writer.buffer, writer.buffer.data
    ensures writer.buffer.Valid() && (writer.buffer.data == old(writer.buffer.data) || fresh(writer.buffer.data))
    ensures writer.buffer.Published() == old(writer.buffer.Published()) + Wire(v) && writer.buffer.Staged() == []
  {
    Discard(writer, dropped);
    Send(writer, v);
  }

  method SendAll(writer: RespWriter, vs: seq<Value>, dropped: Value)
    requires writer.buffer.Valid() && writer.buffer.Published() == [] && writer.buffer.Staged() == []
    modifies writer.buffer, writer.buffer.data
    ensures writer.buffer.Valid() && (writer.buffer.data == old(writer.buffer.data) || fresh(writer.buffer.data))
    ensures writer.buffer.Published() == Concat(Wires(vs)) && writer.buffer.Staged() == []
  {
    var b := writer.buffer;
    ghost var parts := Wires(vs);
    for i := 0 to |vs|
      invariant b.Valid() && (b.data == old(b.data) || fresh(b.data))
      invariant b.Published() == Concat(parts[..i]) && b.Staged() == []
    {
      SendOne(writer, vs[i], dropped);
      ConcatSnoc(parts, i);
    }
    assert parts[..|vs|] == parts;
  }

  /** The header of one frame of the value's bytes, which read back as the value. */
  ghost predicate Received(cfg: Config, v: Value, h: Header) {
    h.size == |Wire(v)| && Shows(cfg, TreeOf(v), Wire(v), h, 0)
  }

  /** One frame parsed and consumed. */
  method TakeOne(parser: Parser, ghost v: Value, ghost rest: Data) returns (h: Header)
    requires parser.buffer.Valid() && Sendable(parser.cfg, v) && parser.buffer.Published() == Wire(v) + rest
    modifies parser.buffer
    ensures parser.buffer.Valid() && parser.buffer.data == old(parser.buffer.data) && parser.buffer.Published() == rest
    ensures Received(parser.cfg, v, h)
  {
    ValueRoundTrip(parser.cfg, v, rest);
    var r := parser.NextFrame();
    h := r.value;
    var _ := parser.buffer.Consume(h.size);
  }

  ghost predicate AllReceived(cfg: Config, vs: seq<Value>, headers: seq<Header>) {
    |vs| == |headers| && forall i | 0 <= i < |vs| :: Received(cfg, vs[i], headers[i])
  }

  lemma OneMoreReceived(cfg: Config, vs: seq<Value>, headers: seq<Header>, i: nat, h: Header)
    requires i < |vs| && AllReceived(cfg, vs[..i], headers) && Received(cfg, vs[i], h)
    ensures AllReceived(cfg, vs[..i + 1], headers + [h])
  {
    forall j | 0 <= j <= i ensures Received(cfg, vs[j], (headers + [h])[j]) {
      if j < i { assert Received(cfg, vs[..i][j], headers[j]); }
    }
  }

  ghost predicate AllSendable(cfg: Config, vs: seq<Value>) { forall i | 0 <= i < |vs| :: Sendable(cfg, vs[i]) }

  /** The frame of the value at i. */
  method TakeAt(parser: Parser, ghost vs: seq<Value>, ghost i: nat) returns (h: Header)
    requires parser.buffer.Valid() && i < |vs| && AllSendable(parser.cfg, vs)
    requires parser.buffer.Published() == Concat(Wires(vs)[i..])
    modifies parser.buffer
    ensures parser.buffer.Valid() && parser.buffer.data == old(parser.buffer.data)
    ensures parser.buffer.Published() == Concat(Wires(vs)[i + 1..]) && Received(parser.cfg, vs[i], h)
  {
    ConcatDrop(Wires(vs), i);
    h := TakeOne(parser, vs[i], Concat(Wires(vs)[i + 1..]));
  }

  /** Frames parsed and consumed until the buffer is empty. */
  method TakeAll(parser: Parser, ghost vs: seq<Value>, n: nat) returns (headers: seq<Header>)
    requires parser.buffer.Valid() && n == |vs| && AllSendable(parser.cfg, vs)
    requires parser.buffer.Published() == Concat(Wires(vs))
    modifies parser.buffer
    ensures parser.buffer.Valid() && parser.buffer.data == old(parser.buffer.data) && parser.buffer.Published() == []
    ensures AllReceived(parser.cfg, vs, headers)
  {
    headers := [];
    assert Wires(vs)[0..] == Wires(vs);
    for i := 0 to n
      invariant parser.buffer.Valid() && parser.buffer.data == old(parser.buffer.data)
      invariant parser.buffer.Published() == Concat(Wires(vs)[i..]) && AllReceived(parser.cfg, vs[..i], headers)
    {
      var h := TakeAt(parser, vs, i);
      OneMoreReceived(parser.cfg, vs, headers, i, h);
      headers := headers + [h];
    }
    assert vs[..n] == vs;
  }

  /**
   Main theorem: any number of values written and committed one after the other come out of
   the parser one by one, each as one frame of its own bytes reading back as the value, and
   leave the buffer empty. A value rolled back in between leaves no trace.
   */
  method Conversation(cfg: Config, capacity: nat, vs: seq<Value>, dropped: Value)
    returns (headers: seq<Header>, leftover: nat)
    requires AllSendable(cfg, vs)
    ensures AllReceived(cfg, vs, headers) && leftover == 0
  {
    var buffer := new IoBuffers.IoBuffer(capacity);
    var writer := new RespWriter(buffer);
    SendAll(writer, vs, dropped);
    var parser := new Parser(cfg, buffer);
    headers := TakeAll(parser, vs, |vs|);
    leftover := |buffer.Published()|;
  }
}
