/**
 The RESP frame parser: a recursive, depth-bounded reader of one frame from the
 front of a byte string, which reports the frame's extent without copying it.
 */
module RespParser {
  import opened Bytes
  import opened Wrappers

  // Frame type bytes.
  const SIMPLE_STRING: Byte := 43     // '+'
  const SIMPLE_ERROR: Byte := 45      // '-'
  const INTEGER: Byte := 58           // ':'
  const NULL: Byte := 95              // '_'
  const BOOLEAN: Byte := 35           // '#'
  const DOUBLE: Byte := 44            // ','
  const BIG_NUMBER: Byte := 40        // '('
  const BULK_STRING: Byte := 36       // '$'
  const BULK_ERROR: Byte := 33        // '!'
  const VERBATIM: Byte := 61          // '='
  const ARRAY: Byte := 42             // '*'
  const MAP: Byte := 37               // '%'
  const SET: Byte := 126              // '~'
  const PUSH: Byte := 62              // '>'
  const ATTRIBUTE: Byte := 124        // '|'

  const CR: Byte := 13
  const LF: Byte := 10
  const MINUS: Byte := 45

  predicate IsSimple(t: Byte) {
    t == INTEGER || t == SIMPLE_STRING || t == SIMPLE_ERROR || t == BOOLEAN || t == DOUBLE || t == BIG_NUMBER
      || t == NULL
  }
  predicate IsBulk(t: Byte) { t == BULK_STRING || t == BULK_ERROR || t == VERBATIM }
  predicate IsAggregate(t: Byte) { t == ARRAY || t == MAP || t == SET || t == PUSH || t == ATTRIBUTE }

  datatype ParseError = Incomplete | InvalidProtocol | Overflow | InternalError
  datatype Result<+T> = Ok(value: T) | Err(error: ParseError)

  /** A frame at the front of the bytes it was parsed from. */
  datatype Header = Header(kind: Byte, size: nat, count: nat)

  /** Limits, and which texts are accepted as doubles. */
  datatype Config = Config(maxSize: nat, maxDepth: nat, validDouble: Data -> bool)

  // ---------------------------------------------------------------- lines and integers

  predicate CrlfAt(d: Data, i: nat) { i + 1 < |d| && d[i] == CR && d[i + 1] == LF }

  /** std::string_view::find("\r\n") from position i. */
  function FindCrlf(d: Data, i: nat): (p: Option<nat>)
    ensures p.Some? ==> i <= p.value && p.value + 2 <= |d|
    decreases |d| - i
  {
    if i + 1 >= |d| then None
    else if CrlfAt(d, i) then Some(i)
    else FindCrlf(d, i + 1)
  }

  /** find gives the first CRLF, and nothing only when there is none. */
  lemma {:induction false} FindFirst(d: Data, i: nat, q: nat)
    requires i <= q
    ensures CrlfAt(d, q) && (forall j | i <= j < q :: !CrlfAt(d, j)) <==> FindCrlf(d, i) == Some(q)
    decreases |d| - i
  {
    if i + 1 < |d| && !CrlfAt(d, i) && i < q { FindFirst(d, i + 1, q); }
    if i < q && FindCrlf(d, i) == Some(q) {
      FindFirst(d, i + 1, q);
    }
  }

  predicate IsDigit(b: Byte) { 48 <= b < 58 }

  function DigitsValue(s: Data): nat
    requires AllDigits(s)
  {
    if s == [] then 0
    else
      assert IsDigit(s[|s| - 1]);
      DigitsValue(s[..|s| - 1]) * 10 + (s[|s| - 1] - 48)
  }

  predicate AllDigits(s: Data) { forall i | 0 <= i < |s| :: IsDigit(s[i]) }

  const INT64_MAX: int := 0x7fff_ffff_ffff_ffff
  const INT64_MIN: int := -0x8000_0000_0000_0000

  /** std::from_chars into an int64_t that must use up the whole text: an optional minus, then digits, in range. */
  function ParseInt(s: Data): (r: Option<int>)
    ensures r.Some? ==> INT64_MIN <= r.value <= INT64_MAX
  {
    var negative := s != [] && s[0] == MINUS;
    var digits := if negative then s[1..] else s;
    if digits == [] || !AllDigits(digits) then None
    else
      var v := if negative then -(DigitsValue(digits) as int) else DigitsValue(digits);
      if INT64_MIN <= v <= INT64_MAX then Some(v) else None
  }

  // ---------------------------------------------------------------- the parser

  /** A frame that ends with its line. */
  function LineFrame(cfg: Config, kind: Byte, size: nat): Result<Header> {
    if size > cfg.maxSize then Err(Overflow) else Ok(Header(kind, size, 0))
  }

  function ParseSimple(cfg: Config, data: Data): Result<Header>
    requires data != []
  {
    match FindCrlf(data, 0)
    case None => Err(Incomplete)
    case Some(p) =>
      var kind, payload := data[0], data[..p][Min(1, p)..];
      if kind == INTEGER && ParseInt(payload).None? then Err(InvalidProtocol)
      else if kind == BOOLEAN && payload != [116] && payload != [102] then Err(InvalidProtocol)
      else if kind == DOUBLE && !cfg.validDouble(payload) then Err(InvalidProtocol)
      else LineFrame(cfg, kind, p + 2)
  }

  function Min(a: nat, b: nat): nat { if a < b then a else b }

  function ParseBulk(cfg: Config, data: Data): Result<Header>
    requires data != []
  {
    match FindCrlf(data, 0)
    case None => Err(Incomplete)
    case Some(p) =>
      match ParseInt(data[..p][Min(1, p)..])
      case None => Err(InvalidProtocol)
      case Some(len) =>
        if len == -1 then LineFrame(cfg, data[0], p + 2)
        else if len < 0 || len > cfg.maxSize then Err(Overflow)
        else if |data| - (p + 2) < len + 2 then Err(Incomplete)
        else if !CrlfAt(data, p + 2 + len) then Err(InvalidProtocol)
        else LineFrame(cfg, data[0], p + 2 + len + 2)
  }

  function ItemCount(kind: Byte, count: nat): nat { if kind == MAP || kind == ATTRIBUTE then count * 2 else count }

  type Reader = Data -> Result<Header>

  /** A frame is not empty and lies inside the bytes it was read from. */
  ghost predicate Sound(f: Reader) {
    forall d: Data {:trigger f(d)} :: f(d).Ok? ==> 2 < f(d).value.size <= |d|
  }

  /** n frames one after the other from the offset on: where they end. */
  function Row(f: Reader, data: Data, offset: nat, n: nat): (r: Result<nat>)
    requires offset <= |data| && Sound(f)
    ensures r.Ok? ==> offset + n * 3 <= r.value <= |data|
    decreases n
  {
    if n == 0 then Ok(offset)
    else
      match f(data[offset..])
      case Err(e) => Err(e)
      case Ok(h) => Row(f, data, offset + h.size, n - 1)
  }

  /** The same frames, each with its offset, when they all parse. */
  function Frames(f: Reader, data: Data, offset: nat, n: nat): (r: seq<(nat, Header)>)
    requires offset <= |data| && Sound(f) && Row(f, data, offset, n).Ok?
    ensures |r| == n
    decreases n
  {
    if n == 0 then []
    else
      var h := f(data[offset..]).value;
      [(offset, h)] + Frames(f, data, offset + h.size, n - 1)
  }

  /** One frame at the front of data, at the given nesting depth. */
  function ParseFrame(cfg: Config, data: Data, depth: nat): (r: Result<Header>)
    ensures r.Ok? ==> 2 < r.value.size <= |data| && r.value.size <= cfg.maxSize && r.value.kind == data[0]
    decreases cfg.maxDepth - depth, 0
  {
    if depth >= cfg.maxDepth then Err(Overflow)
    else if data == [] then Err(Incomplete)
    else if IsSimple(data[0]) then ParseSimple(cfg, data)
    else if IsBulk(data[0]) then ParseBulk(cfg, data)
    else if IsAggregate(data[0]) then ParseAggregate(cfg, data, At(cfg, depth + 1))
    else Err(InvalidProtocol)
  }

  /** The parser at one depth, as a reader of children. */
  function At(cfg: Config, depth: nat): (f: Reader)
    ensures Sound(f)
    decreases cfg.maxDepth - depth, 1
  {
    (d: Data) => ParseFrame(cfg, d, depth)
  }

  function ParseAggregate(cfg: Config, data: Data, child: Reader): (r: Result<Header>)
    requires data != [] && Sound(child)
    ensures r.Ok? ==> 2 < r.value.size <= |data| && r.value.size <= cfg.maxSize && r.value.kind == data[0]
  {
    match FindCrlf(data, 0)
    case None => Err(Incomplete)
    case Some(p) =>
      match ParseInt(data[..p][Min(1, p)..])
      case None => Err(InvalidProtocol)
      case Some(n) =>
        if data[0] == ARRAY && n == -1 then LineFrame(cfg, ARRAY, p + 2)
        else if n < 0 then Err(InvalidProtocol)
        else
          match Row(child, data, p + 2, ItemCount(data[0], n))
          case Err(e) => Err(e)
          case Ok(end) => if end > cfg.maxSize then Err(Overflow) else Ok(Header(data[0], end, n))
  }

  /** ParseFrameInternal as written: the offset loop over the children. */
  method ParseFrameInternal(cfg: Config, data: Data, depth: nat) returns (r: Result<Header>)
    ensures r == ParseFrame(cfg, data, depth)
    decreases cfg.maxDepth - depth, 0
  {
    if depth >= cfg.maxDepth { return Err(Overflow); }
    if data == [] { return Err(Incomplete); }
    if IsSimple(data[0]) { return ParseSimple(cfg, data); }
    if IsBulk(data[0]) { return ParseBulk(cfg, data); }
    if !IsAggregate(data[0]) { return Err(InvalidProtocol); }
    var line := FindCrlf(data, 0);
    if line.None? { return Err(Incomplete); }
    var count := ParseInt(data[..line.value][Min(1, line.value)..]);
    if count.None? { return Err(InvalidProtocol); }
    if data[0] == ARRAY && count.value == -1 { return LineFrame(cfg, ARRAY, line.value + 2); }
    if count.value < 0 { return Err(InvalidProtocol); }
    var end := ParseChildren(cfg, data, line.value + 2, ItemCount(data[0], count.value), depth + 1);
    if end.Err? { return Err(end.error); }
    if end.value > cfg.maxSize { return Err(Overflow); }
    return Ok(Header(data[0], end.value, count.value));
  }

  lemma RowStep(f: Reader, data: Data, offset: nat, n: nat, c: Result<Header>)
    requires offset <= |data| && Sound(f) && n > 0 && f(data[offset..]) == c
    ensures c.Err? ==> Row(f, data, offset, n) == Err(c.error)
    ensures c.Ok? ==>
            offset + c.value.size <= |data| && Row(f, data, offset, n) == Row(f, data, offset + c.value.size, n - 1)
  {}

  /** The loop over the children. */
  method ParseChildren(cfg: Config, data: Data, start: nat, items: nat, depth: nat) returns (r: Result<nat>)
    requires start <= |data|
    ensures r == Row(At(cfg, depth), data, start, items)
    decreases cfg.maxDepth - depth, 1
  {
    ghost var f := At(cfg, depth);
    ghost var end := Row(f, data, start, items);
    var offset: nat, left: nat := start, items;
    while left > 0
      invariant offset <= |data| && Row(f, data, offset, left) == end
    {
      var child := ParseFrameInternal(cfg, data[offset..], depth);
      RowStep(f, data, offset, left, child);
      if child.Err? { return Err(child.error); }
      offset, left := offset + child.value.size, left - 1;
    }
    return Ok(offset);
  }

  // ---------------------------------------------------------------- verdict stability

  lemma {:induction false} FindExtend(d: Data, x: Data, i: nat)
    ensures FindCrlf(d, i).Some? ==> FindCrlf(d + x, i) == FindCrlf(d, i)
    decreases |d| - i
  {
    if i + 1 < |d| && !CrlfAt(d, i) { FindExtend(d, x, i + 1); }
  }

  lemma {:induction false} FindCut(d: Data, m: nat, i: nat)
    requires m <= |d|
    ensures FindCrlf(d, i).Some? && FindCrlf(d, i).value + 2 <= m ==> FindCrlf(d[..m], i) == FindCrlf(d, i)
    decreases |d| - i
  {
    if i + 1 < |d| && !CrlfAt(d, i) { FindCut(d, m, i + 1); }
  }

  ghost predicate Extends(f: Reader) {
    forall d: Data, x: Data {:trigger f(d + x)} :: f(d) != Err(Incomplete) ==> f(d + x) == f(d)
  }

  ghost predicate Cuts(f: Reader) {
    forall d: Data, m: nat {:trigger f(d[..m])} :: m <= |d| && f(d).Ok? && f(d).value.size <= m ==> f(d[..m]) == f(d)
  }

  lemma {:induction false} RowExtend(f: Reader, data: Data, x: Data, offset: nat, n: nat)
    requires Sound(f) && Extends(f) && offset <= |data| && Row(f, data, offset, n) != Err(Incomplete)
    ensures Row(f, data + x, offset, n) == Row(f, data, offset, n)
    decreases n
  {
    if n > 0 {
      assert (data + x)[offset..] == data[offset..] + x;
      var h := f(data[offset..]);
      if h.Ok? { RowExtend(f, data, x, offset + h.value.size, n - 1); }
    }
  }

  lemma {:induction false} RowCut(f: Reader, data: Data, m: nat, offset: nat, n: nat)
    requires Sound(f) && Cuts(f) && offset <= m <= |data| && Row(f, data, offset, n).Ok?
    requires Row(f, data, offset, n).value <= m
    ensures Row(f, data[..m], offset, n) == Row(f, data, offset, n)
    ensures Frames(f, data[..m], offset, n) == Frames(f, data, offset, n)
    decreases n
  {
    if n > 0 {
      assert data[..m][offset..] == data[offset..][..m - offset];
      RowCut(f, data, m, offset + f(data[offset..]).value.size, n - 1);
    }
  }

  /** A reader that agrees wherever another succeeds finds the same row. */
  lemma {:induction false} RowAgrees(f: Reader, g: Reader, data: Data, offset: nat, n: nat)
    requires Sound(f) && Sound(g) && offset <= |data| && Row(f, data, offset, n).Ok?
    requires forall d: Data {:trigger g(d)} :: f(d).Ok? ==> g(d) == f(d)
    ensures Row(g, data, offset, n) == Row(f, data, offset, n)
    ensures Frames(g, data, offset, n) == Frames(f, data, offset, n)
    decreases n
  {
    if n > 0 {
      var h := f(data[offset..]).value;
      assert g(data[offset..]) == f(data[offset..]);
      RowAgrees(f, g, data, offset + h.size, n - 1);
    }
  }

  /** The parts of an aggregate before its children. */
  lemma AggregateExtend(cfg: Config, data: Data, x: Data, child: Reader)
    requires data != [] && Sound(child) && Extends(child) && ParseAggregate(cfg, data, child) != Err(Incomplete)
    ensures ParseAggregate(cfg, data + x, child) == ParseAggregate(cfg, data, child)
  {
    FindExtend(data, x, 0);
    var p := FindCrlf(data, 0).value;
    assert (data + x)[..p] == data[..p];
    var n := ParseInt(data[..p][Min(1, p)..]);
    if n.Some? && n.value >= 0 { RowExtend(child, data, x, p + 2, ItemCount(data[0], n.value)); }
  }

  /** Appending bytes changes no verdict but Incomplete. */
  lemma {:induction false} FrameExtend(cfg: Config, depth: nat)
    ensures Extends(At(cfg, depth))
    decreases cfg.maxDepth - depth
  {
    if depth < cfg.maxDepth { FrameExtend(cfg, depth + 1); }
    forall d: Data, x: Data | ParseFrame(cfg, d, depth) != Err(Incomplete)
      ensures ParseFrame(cfg, d + x, depth) == ParseFrame(cfg, d, depth)
    {
      if depth < cfg.maxDepth {
        if IsAggregate(d[0]) {
          AggregateExtend(cfg, d, x, At(cfg, depth + 1));
        } else {
          LineExtend(cfg, d, x);
        }
      }
    }
  }

  lemma LineExtend(cfg: Config, d: Data, x: Data)
    requires d != []
    ensures ParseSimple(cfg, d) != Err(Incomplete) ==> ParseSimple(cfg, d + x) == ParseSimple(cfg, d)
    ensures ParseBulk(cfg, d) != Err(Incomplete) ==> ParseBulk(cfg, d + x) == ParseBulk(cfg, d)
  {
    FindExtend(d, x, 0);
    var p := FindCrlf(d, 0);
    if p.Some? { assert (d + x)[..p.value] == d[..p.value]; }
  }

  lemma AggregateCut(cfg: Config, data: Data, m: nat, child: Reader)
    requires data != [] && Sound(child) && Cuts(child) && 0 < m <= |data|
    requires ParseAggregate(cfg, data, child).Ok? && ParseAggregate(cfg, data, child).value.size <= m
    ensures ParseAggregate(cfg, data[..m], child) == ParseAggregate(cfg, data, child)
  {
    FindCut(data, m, 0);
    var p := FindCrlf(data, 0).value;
    var n := ParseInt(data[..p][Min(1, p)..]).value;
    if n >= 0 { RowCut(child, data, m, p + 2, ItemCount(data[0], n)); }
    assert data[..m][..p] == data[..p];
  }

  lemma LineCut(cfg: Config, d: Data, m: nat)
    requires 0 < m <= |d|
    ensures ParseSimple(cfg, d).Ok? && ParseSimple(cfg, d).value.size <= m ==>
            ParseSimple(cfg, d[..m]) == ParseSimple(cfg, d)
    ensures ParseBulk(cfg, d).Ok? && ParseBulk(cfg, d).value.size <= m ==> ParseBulk(cfg, d[..m]) == ParseBulk(cfg, d)
  {
    FindCut(d, m, 0);
    var p := FindCrlf(d, 0);
    if p.Some? && p.value + 2 <= m { assert d[..m][..p.value] == d[..p.value]; }
  }

  /** A frame that parses is found again in any prefix that contains it. */
  lemma {:induction false} FrameCut(cfg: Config, depth: nat)
    ensures Cuts(At(cfg, depth))
    decreases cfg.maxDepth - depth
  {
    if depth < cfg.maxDepth { FrameCut(cfg, depth + 1); }
    forall d: Data, m: nat | m <= |d| && ParseFrame(cfg, d, depth).Ok? && ParseFrame(cfg, d, depth).value.size <= m
      ensures ParseFrame(cfg, d[..m], depth) == ParseFrame(cfg, d, depth)
    {
      if IsAggregate(d[0]) { AggregateCut(cfg, d, m, At(cfg, depth + 1)); } else { LineCut(cfg, d, m); }
    }
  }

  /** A successful parse is unaffected by a smaller depth. */
  lemma {:induction false} FrameShallower(cfg: Config, data: Data, depth: nat, d: nat)
    requires d <= depth && ParseFrame(cfg, data, depth).Ok?
    ensures ParseFrame(cfg, data, d) == ParseFrame(cfg, data, depth)
    decreases cfg.maxDepth - depth
  {
    if IsAggregate(data[0]) {
      var f, g := At(cfg, depth + 1), At(cfg, d + 1);
      forall x: Data | f(x).Ok? ensures g(x) == f(x) { FrameShallower(cfg, x, depth + 1, d + 1); }
      var p := FindCrlf(data, 0).value;
      var n := ParseInt(data[..p][Min(1, p)..]).value;
      if n >= 0 { RowAgrees(f, g, data, p + 2, ItemCount(data[0], n)); }
    }
  }

  /** Main theorem: once the verdict is not Incomplete it is final, and a frame depends on exactly its own bytes. */
  lemma VerdictFinal(cfg: Config, data: Data, more: Data, depth: nat)
    requires ParseFrame(cfg, data, depth) != Err(Incomplete)
    ensures ParseFrame(cfg, data + more, depth) == ParseFrame(cfg, data, depth)
    ensures ParseFrame(cfg, data, depth).Ok? ==>
              var own := data[..ParseFrame(cfg, data, depth).value.size];
              forall tail: Data {:trigger ParseFrame(cfg, own + tail, depth)} ::
                ParseFrame(cfg, own + tail, depth) == ParseFrame(cfg, data, depth)
  {
    FrameExtend(cfg, depth);
    FrameCut(cfg, depth);
    var f, r := At(cfg, depth), ParseFrame(cfg, data, depth);
    assert f(data + more) == f(data);
    if r.Ok? {
      assert f(data[..r.value.size]) == f(data);
      forall tail: Data ensures ParseFrame(cfg, data[..r.value.size] + tail, depth) == r {
        assert f(data[..r.value.size] + tail) == f(data[..r.value.size]);
      }
    }
  }
}
