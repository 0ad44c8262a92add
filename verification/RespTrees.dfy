/**
 The RESP wire format apart from the parser: trees of all fifteen frame types, their
 encoding with the type bytes written out as numbers, and what the parser answers on
 every input.
 */
module RespTrees {
  import opened Bytes
  import opened Wrappers
  import opened RespParser
  import opened RespIterator

  const CRLF: Data := [13, 10]

  // ---------------------------------------------------------------- decimal text

  /** std::to_chars for a natural number. */
  function Digits(n: nat): (s: Data)
    ensures s != [] && AllDigits(s) && DigitsValue(s) == n
  {
    if n < 10 then
      assert DigitsValue([48 + n][..0]) == 0;
      [48 + n]
    else
      var s := Digits(n / 10) + [48 + n % 10];
      assert s[..|s| - 1] == Digits(n / 10);
      s
  }

  function Decimal(n: int): Data {
    if n < 0 then [MINUS] + Digits(0 - n) else Digits(n)
  }

  predicate Int64(n: int) { -0x8000_0000_0000_0000 <= n <= 0x7fff_ffff_ffff_ffff }

  function Zeros(z: nat): (s: Data)
    ensures |s| == z && AllDigits(s)
  { seq(z, _ => 48) }

  /** The text is a number's digits, with any number of zeros before them, after a minus or not; minus zero is zero. */
  ghost predicate Numeral(s: Data, v: int) {
    exists minus: bool, z: nat :: SpelledAs(s, v, minus, z)
  }

  predicate SpelledAs(s: Data, v: int, minus: bool, z: nat) {
    && (if minus then v <= 0 else v >= 0)
    && s == (if minus then [45] else []) + Zeros(z) + Digits(if v < 0 then 0 - v else v)
  }

  lemma {:induction false} ZerosValue(z: nat)
    ensures DigitsValue(Zeros(z)) == 0
    decreases z
  {
    if z > 0 {
      ZerosValue(z - 1);
      assert Zeros(z)[..z - 1] == Zeros(z - 1);
    }
  }

  lemma {:induction false} PaddedValue(z: nat, n: nat)
    ensures AllDigits(Zeros(z) + Digits(n)) && DigitsValue(Zeros(z) + Digits(n)) == n
    decreases n
  {
    var s := Zeros(z) + Digits(n);
    if n < 10 {
      ZerosValue(z);
      assert s[..|s| - 1] == Zeros(z) && s[|s| - 1] == 48 + n;
    } else {
      PaddedValue(z, n / 10);
      assert s[..|s| - 1] == Zeros(z) + Digits(n / 10) && s[|s| - 1] == 48 + n % 10;
    }
  }

  /** Any digits are a number's own digits after some zeros. */
  lemma {:induction false} DigitsArePadded(s: Data) returns (z: nat)
    requires s != [] && AllDigits(s)
    ensures s == Zeros(z) + Digits(DigitsValue(s))
    decreases |s|
  {
    var n := |s| - 1;
    var p, c := s[..n], s[n];
    assert s == p + [c];
    if p == [] {
      z := 0;
    } else {
      var y := DigitsArePadded(p);
      if DigitsValue(p) == 0 {
        z := y + 1;
        assert p == Zeros(y) + [48] == Zeros(z);
      } else {
        z := y;
      }
    }
  }

  /** from_chars on digits, with and without a minus before them. */
  lemma DigitsParse(digits: Data)
    requires digits != [] && AllDigits(digits)
    ensures ParseInt(digits) == if Int64(DigitsValue(digits)) then Some(DigitsValue(digits)) else None
    ensures ParseInt([45] + digits) == if Int64(0 - DigitsValue(digits)) then Some(0 - DigitsValue(digits)) else None
  {
    assert IsDigit(digits[0]);
    assert ([45] + digits)[1..] == digits;
  }

  /** A text that is read is digits, perhaps after a minus. */
  lemma ParsedDigits(s: Data) returns (minus: bool, digits: Data)
    requires ParseInt(s).Some?
    ensures s == (if minus then [45] else []) + digits && digits != [] && AllDigits(digits)
    ensures ParseInt(s) == Some(if minus then 0 - DigitsValue(digits) else DigitsValue(digits))
  {
    minus := s != [] && s[0] == MINUS;
    digits := if minus then s[1..] else s;
  }

  /** from_chars reads exactly the numerals of numbers that fit 64 bits. */
  lemma IntTextExact(s: Data, v: int)
    ensures ParseInt(s) == Some(v) <==> Int64(v) && Numeral(s, v)
  {
    if ParseInt(s) == Some(v) { NumeralFound(s, v); }
    if Int64(v) && Numeral(s, v) {
      var minus: bool, z: nat :| SpelledAs(s, v, minus, z);
      NumeralParses(s, v, minus, z);
    }
  }

  lemma NumeralFound(s: Data, v: int)
    requires ParseInt(s) == Some(v)
    ensures Int64(v) && Numeral(s, v)
  {
    var minus, digits := ParsedDigits(s);
    var z := DigitsArePadded(digits);
    Spelled(s, v, minus, z, DigitsValue(digits), digits);
  }

  lemma Spelled(s: Data, v: int, minus: bool, z: nat, n: nat, digits: Data)
    requires v == (if minus then 0 - n else n) && digits == Zeros(z) + Digits(n)
    requires s == (if minus then [45] else []) + digits
    ensures Numeral(s, v)
  {
    SameText(s, if minus then [45] else [], Zeros(z), Digits(n));
    assert SpelledAs(s, v, minus, z);
  }

  lemma SameText(s: Data, sign: Data, zeros: Data, digits: Data)
    ensures s == sign + zeros + digits <==> s == sign + (zeros + digits)
  {
    assert sign + zeros + digits == sign + (zeros + digits);
  }

  lemma NumeralParses(s: Data, v: int, minus: bool, z: nat)
    requires Int64(v) && SpelledAs(s, v, minus, z)
    ensures ParseInt(s) == Some(v)
  {
    var n := if v < 0 then 0 - v else v;
    var digits := Zeros(z) + Digits(n);
    PaddedValue(z, n);
    DigitsParse(digits);
    SameText(s, if minus then [45] else [], Zeros(z), Digits(n));
    if !minus { assert [] + digits == digits; }
  }

  lemma DecimalIsNumeral(v: int)
    ensures Numeral(Decimal(v), v)
  {
    assert Zeros(0) == [];
    assert SpelledAs(Decimal(v), v, v < 0, 0);
  }

  /** Printing then parsing gives the number back, exactly for those that fit 64 bits. */
  lemma DecimalRoundTrip(n: int)
    ensures ParseInt(Decimal(n)) == if Int64(n) then Some(n) else None
  {
    DigitsParse(Digits(if n < 0 then 0 - n else n));
  }

  lemma NumeralNoCrlf(s: Data, v: int)
    requires Numeral(s, v)
    ensures NoCrlf(s)
  {
    var minus: bool, z: nat :| SpelledAs(s, v, minus, z);
    var digits := Zeros(z) + Digits(if v < 0 then 0 - v else v);
    assert s == (if minus then [45] else []) + digits;
    forall j: nat | j < |s| ensures s[j] != CR {
      if minus && j > 0 { assert IsDigit(digits[j - 1]); }
      if !minus { assert IsDigit(digits[j]); }
    }
  }

  // ---------------------------------------------------------------- trees and their encoding

  /** + - : _ # , ( */
  predicate TextKind(b: Byte) { b == 43 || b == 45 || b == 58 || b == 95 || b == 35 || b == 44 || b == 40 }
  /** $ ! = */
  predicate BlobKind(b: Byte) { b == 36 || b == 33 || b == 61 }
  /** * % ~ > | */
  predicate GroupKind(b: Byte) { b == 42 || b == 37 || b == 126 || b == 62 || b == 124 }
  /** % and | count pairs. */
  predicate Pairs(b: Byte) { b == 37 || b == 124 }

  /** A frame: one line, a length and bytes, nothing in the place of bytes or of an array, or a count and frames. */
  datatype Tree =
    | Text(kind: Byte, text: Data)
    | Blob(kind: Byte, len: Data, bytes: Data)
    | Nil(kind: Byte, len: Data)
    | Group(kind: Byte, count: Data, items: seq<Tree>)

  function Concat(parts: seq<Data>): Data {
    if parts == [] then [] else parts[0] + Concat(parts[1..])
  }

  function Line(kind: Byte, text: Data): Data { [kind] + text + CRLF }

  function Encode(t: Tree): (d: Data)
    ensures |d| >= 3 && d[0] == t.kind
  {
    match t
    case Text(kind, text) => Line(kind, text)
    case Blob(kind, len, bytes) => Line(kind, len) + bytes + CRLF
    case Nil(kind, len) => Line(kind, len)
    case Group(kind, count, items) =>
      Line(kind, count) + Concat(seq(|items|, i requires 0 <= i < |items| => Encode(items[i])))
  }

  function Encodings(items: seq<Tree>): (r: seq<Data>)
    ensures |r| == |items|
  { seq(|items|, i requires 0 <= i < |items| => Encode(items[i])) }

  /** No line break inside; a text may still end with a carriage return. */
  predicate NoCrlf(s: Data) { forall j: nat | j < |s| :: !CrlfAt(s, j) }

  /** How many elements a frame has, as its header counts them. */
  function Count(t: Tree): nat {
    if t.Group? then (if Pairs(t.kind) then |t.items| / 2 else |t.items|) else 0
  }

  /** Texts as their types demand, lengths and counts that say how much follows. */
  ghost predicate Proper(cfg: Config, t: Tree) {
    match t
    case Text(kind, text) =>
      && TextKind(kind) && NoCrlf(text)
      && (kind == 58 ==> exists v :: Int64(v) && Numeral(text, v))
      && (kind == 35 ==> text == [116] || text == [102])
      && (kind == 44 ==> cfg.validDouble(text))
    case Blob(kind, len, bytes) => BlobKind(kind) && Int64(|bytes|) && Numeral(len, |bytes|)
    case Nil(kind, len) => (BlobKind(kind) || kind == 42) && Numeral(len, -1)
    case Group(kind, count, items) =>
      && GroupKind(kind) && Int64(Count(t)) && Numeral(count, Count(t)) && (Pairs(kind) ==> |items| % 2 == 0)
      && forall x | x in items :: Proper(cfg, x)
  }

  /** The frame nests fewer than `levels` groups above its deepest part. */
  predicate Nested(t: Tree, levels: nat) {
    levels > 0 && (t.Group? ==> forall x | x in t.items :: Nested(x, levels - 1))
  }

  /** What a frame that fits the limits is parsed as. */
  function Sized(cfg: Config, kind: Byte, size: nat, count: nat): Result<Header> {
    if size > cfg.maxSize then Err(Overflow) else Ok(Header(kind, size, count))
  }

  // ---------------------------------------------------------------- lines

  /** The header line of an encoding is what the parser finds. */
  lemma LineFound(kind: Byte, text: Data, rest: Data)
    requires kind != CR
    ensures NoCrlf(text) <==> FindCrlf(Line(kind, text) + rest, 0) == Some(1 + |text|)
    ensures (Line(kind, text) + rest)[..1 + |text|][1..] == text && (Line(kind, text) + rest)[0] == kind
  {
    var d, q := Line(kind, text) + rest, 1 + |text|;
    FindFirst(d, 0, q);
    assert d == [kind] + text + [CR, LF] + rest;
    assert CrlfAt(d, q);
    assert d[1..q] == text;
    if NoCrlf(text) {
      forall j | 0 <= j < q ensures !CrlfAt(d, j) {
        if 0 < j && j + 1 < q { assert !CrlfAt(text, j - 1) && d[j] == text[j - 1] && d[j + 1] == text[j]; }
        if j + 1 == q { assert d[j + 1] == CR; }
      }
    } else {
      var j: nat :| j < |text| && CrlfAt(text, j);
      assert d[j + 1] == text[j] && d[j + 2] == text[j + 1];
      assert CrlfAt(d, j + 1);
    }
  }

  /** Any bytes with a line break in them are a header line and what follows it. */
  lemma LineSplit(d: Data) returns (text: Data, rest: Data)
    requires d != [] && d[0] != CR && FindCrlf(d, 0).Some?
    ensures d == Line(d[0], text) + rest && NoCrlf(text) && FindCrlf(d, 0) == Some(1 + |text|)
  {
    var p := FindCrlf(d, 0).value;
    FindFirst(d, 0, p);
    text, rest := d[1..p], d[p + 2..];
    assert d == [d[0]] + d[1..p] + [d[p], d[p + 1]] + d[p + 2..];
    LineFound(d[0], text, rest);
  }

  lemma {:induction false} LineHasCrlf(d: Data, q: nat, i: nat)
    requires i <= q && CrlfAt(d, q)
    ensures FindCrlf(d, i).Some?
    decreases q - i
  {
    if i < q { LineHasCrlf(d, q, i + 1); }
  }

  /** A simple string or error comes back whole exactly when it has no line break in it. */
  lemma LineRoundTrip(cfg: Config, kind: Byte, s: Data, rest: Data, depth: nat)
    requires kind == 43 || kind == 45
    requires depth < cfg.maxDepth && |s| + 3 <= cfg.maxSize
    ensures ParseFrame(cfg, Line(kind, s) + rest, depth) == Ok(Header(kind, |s| + 3, 0)) <==> NoCrlf(s)
    ensures SimplePayload(Line(kind, s)) == s
  {
    var d := Line(kind, s) + rest;
    LineFound(kind, s, rest);
    assert FindCrlf(d, 0).Some? by { FindFirst(d, 0, 1 + |s|); LineHasCrlf(d, 1 + |s|, 0); }
  }

  // ---------------------------------------------------------------- what the parser answers, from the bytes

  /** Too deep, empty, an unknown type byte, or no line break yet. */
  lemma NoFrameVerdict(cfg: Config, d: Data, depth: nat)
    ensures depth >= cfg.maxDepth ==> ParseFrame(cfg, d, depth) == Err(Overflow)
    ensures depth < cfg.maxDepth && d == [] ==> ParseFrame(cfg, d, depth) == Err(Incomplete)
    ensures depth < cfg.maxDepth && d != [] && !TextKind(d[0]) && !BlobKind(d[0]) && !GroupKind(d[0]) ==>
              ParseFrame(cfg, d, depth) == Err(InvalidProtocol)
    ensures depth < cfg.maxDepth && d != [] && (TextKind(d[0]) || BlobKind(d[0]) || GroupKind(d[0])) && NoCrlf(d) ==>
              ParseFrame(cfg, d, depth) == Err(Incomplete)
  {
    if NoCrlf(d) && FindCrlf(d, 0).Some? { FindFirst(d, 0, FindCrlf(d, 0).value); }
  }

  /** A number, boolean or double that is none. */
  predicate BadText(cfg: Config, kind: Byte, text: Data) {
    || (kind == 58 && ParseInt(text).None?) || (kind == 35 && text != [116] && text != [102])
    || (kind == 44 && !cfg.validDouble(text))
  }

  /** One-line frames: bad numbers, booleans and doubles are refused, everything else is bounded by its size. */
  lemma TextVerdict(cfg: Config, kind: Byte, text: Data, rest: Data, depth: nat)
    requires depth < cfg.maxDepth && TextKind(kind) && NoCrlf(text)
    ensures ParseFrame(cfg, Line(kind, text) + rest, depth) ==
            if BadText(cfg, kind, text) then Err(InvalidProtocol) else Sized(cfg, kind, |text| + 3, 0)
  {
    LineFound(kind, text, rest);
  }

  /**
   Frames with a length: a bad length is refused, minus one is a null, any other length out of range
   overflows; then the bytes must be there, with a line break behind them.
   */
  lemma BlobVerdict(cfg: Config, kind: Byte, len: Data, after: Data, depth: nat)
    requires depth < cfg.maxDepth && BlobKind(kind) && NoCrlf(len)
    ensures ParseFrame(cfg, Line(kind, len) + after, depth) == BlobAnswer(cfg, kind, len, after)
  {
    LineFound(kind, len, after);
    BlobParsed(cfg, Line(kind, len) + after, |len| + 1, len, depth);
    LineAfter(kind, len, after);
  }

  function BlobAnswer(cfg: Config, kind: Byte, len: Data, after: Data): Result<Header> {
    match ParseInt(len)
    case None => Err(InvalidProtocol)
    case Some(n) =>
      if n == -1 then Sized(cfg, kind, |len| + 3, 0)
      else if n < 0 || n > cfg.maxSize then Err(Overflow)
      else if |after| < n + 2 then Err(Incomplete)
      else if after[n..n + 2] != [13, 10] then Err(InvalidProtocol)
      else Sized(cfg, kind, |len| + 3 + n + 2, 0)
  }

  lemma BlobParsed(cfg: Config, d: Data, p: nat, len: Data, depth: nat)
    requires depth < cfg.maxDepth && d != [] && BlobKind(d[0]) && p > 0
    requires FindCrlf(d, 0) == Some(p) && d[..p][1..] == len
    ensures ParseFrame(cfg, d, depth) == BlobAnswer(cfg, d[0], len, d[p + 2..])
  {
    BulkAnswer(cfg, d, p, len, d[p + 2..]);
  }

  lemma BulkAnswer(cfg: Config, d: Data, p: nat, len: Data, after: Data)
    requires d != [] && p > 0 && FindCrlf(d, 0) == Some(p) && d[..p][1..] == len && after == d[p + 2..]
    ensures ParseBulk(cfg, d) == BlobAnswer(cfg, d[0], len, after)
  {
    if ParseInt(len).Some? && 0 <= ParseInt(len).value <= cfg.maxSize {
      BulkSized(cfg, d, p, len, ParseInt(len).value, after);
    }
  }

  lemma BulkSized(cfg: Config, d: Data, p: nat, len: Data, n: nat, after: Data)
    requires d != [] && p > 0 && FindCrlf(d, 0) == Some(p) && d[..p][1..] == len && after == d[p + 2..]
    requires ParseInt(len) == Some(n) && n <= cfg.maxSize
    ensures ParseBulk(cfg, d) == BlobAnswer(cfg, d[0], len, after)
  {
    assert |len| == p - 1 && |d| - (p + 2) == |after|;
    if n + 2 <= |after| { CrlfAfter(d, p + 2, after, n); }
  }

  lemma CrlfAfter(d: Data, start: nat, after: Data, n: nat)
    requires start <= |d| && after == d[start..] && n + 2 <= |after|
    ensures CrlfAt(d, start + n) <==> after[n..n + 2] == [13, 10]
  {
    assert after[n..n + 2] == [d[start + n], d[start + n + 1]];
  }

  lemma LineAfter(kind: Byte, text: Data, after: Data)
    ensures (Line(kind, text) + after)[|text| + 3..] == after
    ensures (Line(kind, text) + after)[..|text| + 3] == Line(kind, text)
  {}

  /** How many children the number in a group's header stands for. */
  function ChildCount(kind: Byte, n: nat): nat { if Pairs(kind) then 2 * n else n }

  /**
   Groups: a bad count is refused, minus one is a null array, any other negative count is refused;
   then so many frames must follow, twice as many for maps and attributes, and all must fit.
   */
  lemma GroupVerdict(cfg: Config, kind: Byte, count: Data, after: Data, depth: nat)
    requires depth < cfg.maxDepth && GroupKind(kind) && NoCrlf(count)
    ensures ParseFrame(cfg, Line(kind, count) + after, depth) ==
            GroupAnswer(cfg, At(cfg, depth + 1), count, Line(kind, count) + after)
  {
    GroupParsed(cfg, At(cfg, depth + 1), kind, count, after, Line(kind, count) + after);
  }

  ghost function GroupAnswer(cfg: Config, f: Reader, count: Data, d: Data): Result<Header>
    requires Sound(f) && |count| + 3 <= |d|
  {
    match ParseInt(count)
    case None => Err(InvalidProtocol)
    case Some(n) =>
      if n == -1 && d[0] == 42 then Sized(cfg, 42, |count| + 3, 0)
      else if n < 0 then Err(InvalidProtocol)
      else
        match Row(f, d, |count| + 3, ChildCount(d[0], n))
        case Err(e) => Err(e)
        case Ok(end) => Sized(cfg, d[0], end, n)
  }

  lemma GroupParsed(cfg: Config, f: Reader, kind: Byte, count: Data, after: Data, d: Data)
    requires Sound(f) && GroupKind(kind) && NoCrlf(count) && d == Line(kind, count) + after
    ensures ParseAggregate(cfg, d, f) == GroupAnswer(cfg, f, count, d)
  {
    LineFound(kind, count, after);
  }

  /** The first child that fails decides, whatever came before it and whatever is to come. */
  lemma FirstBadChild(cfg: Config, kind: Byte, count: Data, n: nat, good: seq<Tree>, bad: Data, depth: nat)
    requires depth < cfg.maxDepth && GroupKind(kind) && Int64(n) && Numeral(count, n) && |good| < ChildCount(kind, n)
    requires forall i | 0 <= i < |good| :: Fine(cfg, good[i], depth + 1)
    requires ParseFrame(cfg, bad, depth + 1).Err?
    ensures ParseFrame(cfg, Line(kind, count) + Concat(Encodings(good)) + bad, depth) ==
            Err(ParseFrame(cfg, bad, depth + 1).error)
  {
    var f, parts := At(cfg, depth + 1), Encodings(good);
    var d := Line(kind, count) + Concat(parts) + bad;
    assert ParseAggregate(cfg, d, f) == Err(f(bad).error) by {
      NumeralNoCrlf(count, n);
      IntTextExact(count, n);
      FrameExtend(cfg, depth + 1);
      forall i | 0 <= i < |parts| ensures Whole(f, parts[i]) { WholeTree(cfg, good[i], depth + 1); }
      PartsFail(cfg, f, kind, count, n, parts, bad, d);
    }
  }

  lemma WholeTree(cfg: Config, t: Tree, depth: nat)
    requires Fine(cfg, t, depth)
    ensures Whole(At(cfg, depth), Encode(t))
  {
    RoundTrip(cfg, t, [], depth);
    assert Encode(t) + [] == Encode(t);
  }

  lemma PartsFail(cfg: Config, f: Reader, kind: Byte, count: Data, n: nat, parts: seq<Data>, bad: Data, d: Data)
    requires Sound(f) && Extends(f) && GroupKind(kind) && NoCrlf(count) && ParseInt(count) == Some(n)
    requires |parts| < ChildCount(kind, n) && f(bad).Err? && forall i | 0 <= i < |parts| :: Whole(f, parts[i])
    requires d == Line(kind, count) + Concat(parts) + bad
    ensures ParseAggregate(cfg, d, f) == Err(f(bad).error)
  {
    RowStopsAt(f, Line(kind, count), parts, bad, d, ChildCount(kind, n));
    Regroup(Line(kind, count), Concat(parts), bad);
    GroupParsed(cfg, f, kind, count, Concat(parts) + bad, d);
  }

  lemma {:induction false} RowStopsAt(f: Reader, prefix: Data, parts: seq<Data>, bad: Data, d: Data, n: nat)
    requires Sound(f) && Extends(f) && |parts| < n && (forall i | 0 <= i < |parts| :: Whole(f, parts[i])) && f(bad).Err?
    requires d == prefix + Concat(parts) + bad
    ensures Row(f, d, |prefix|, n) == Err(f(bad).error)
    decreases |parts|
  {
    if parts == [] {
      assert d[|prefix|..] == bad;
    } else {
      PartFirst(f, prefix, parts, bad, d);
      RowStopsAt(f, prefix + parts[0], parts[1..], bad, d, n - 1);
    }
  }

  // ---------------------------------------------------------------- payloads

  /** GetSimplePayload on the bytes of a frame. */
  function SimplePayload(frame: Data): Data {
    if |frame| < 3 then [] else frame[1..1 + (|frame| - 3)]
  }

  /** GetBulkPayload on the bytes of a frame. */
  function BulkPayload(frame: Data): Data {
    match FindCrlf(frame, 0)
    case None => []
    case Some(p) => if |frame| < p + 2 + 2 then [] else frame[p + 2..|frame| - 2]
  }

  /** A parsed frame reads back as the tree: its payload, and, child by child, its items. */
  ghost predicate Shows(cfg: Config, t: Tree, frame: Data, h: Header, depth: nat)
    decreases t
  {
    && h.kind == t.kind && h.count == Count(t)
    && match t
       case Text(_, text) => SimplePayload(frame) == text
       case Blob(_, _, bytes) => BulkPayload(frame) == bytes
       case Nil(_, _) => BulkPayload(frame) == []
       case Group(_, _, items) =>
         var kids := Kids(At(cfg, depth + 1), frame, |items|);
         Ahead(At(cfg, depth + 1), frame, ChildStart(frame), |items|, kids)
         && forall i | 0 <= i < |items| :: Shows(cfg, items[i], Cut(frame, kids[i]), kids[i].1, depth + 1)
  }

  /** The children an iterator over the frame would give. */
  function Kids(f: Reader, frame: Data, n: nat): seq<(nat, Header)>
    requires Sound(f)
  {
    if ChildStart(frame) <= |frame| && Row(f, frame, ChildStart(frame), n).Ok?
    then Frames(f, frame, ChildStart(frame), n) else []
  }

  /** The bytes of one child. */
  function Cut(frame: Data, kid: (nat, Header)): Data {
    if kid.0 + kid.1.size <= |frame| then frame[kid.0..kid.0 + kid.1.size] else []
  }

  // ---------------------------------------------------------------- rows of encodings

  /** The encoding parses as one frame of exactly its own bytes, whatever follows it. */
  ghost predicate Whole(f: Reader, part: Data) { f(part).Ok? && f(part).value.size == |part| }

  lemma {:induction false} ConcatBound(parts: seq<Data>, i: nat)
    requires i < |parts|
    ensures |parts[i]| <= |Concat(parts)|
  {
    if i > 0 { ConcatBound(parts[1..], i - 1); }
  }

  /** Whole parts laid end to end are found one by one. */
  lemma {:induction false} RowOfParts(f: Reader, prefix: Data, parts: seq<Data>, rest: Data, d: Data)
    requires Sound(f) && Extends(f) && forall i | 0 <= i < |parts| :: Whole(f, parts[i])
    requires d == prefix + Concat(parts) + rest
    ensures Row(f, d, |prefix|, |parts|) == Ok(|prefix| + |Concat(parts)|)
    decreases |parts|
  {
    if parts != [] {
      PartFirst(f, prefix, parts, rest, d);
      RowOfParts(f, prefix + parts[0], parts[1..], rest, d);
    }
  }

  lemma PartFirst(f: Reader, prefix: Data, parts: seq<Data>, rest: Data, d: Data)
    requires Extends(f) && parts != [] && Whole(f, parts[0]) && d == prefix + Concat(parts) + rest
    ensures |prefix| <= |d| && f(d[|prefix|..]) == f(parts[0]) && d == prefix + parts[0] + Concat(parts[1..]) + rest
    ensures |prefix| + |parts[0]| <= |d| && d[|prefix|..|prefix| + |parts[0]|] == parts[0]
  {
    var tail := Concat(parts[1..]) + rest;
    assert d[|prefix|..] == parts[0] + tail;
    assert f(parts[0] + tail) == f(parts[0]);
  }

  lemma {:induction false} FramesOfParts(f: Reader, prefix: Data, parts: seq<Data>, rest: Data, d: Data, i: nat)
    requires Sound(f) && Extends(f) && forall i | 0 <= i < |parts| :: Whole(f, parts[i])
    requires d == prefix + Concat(parts) + rest && i < |parts|
    requires Row(f, d, |prefix|, |parts|).Ok?
    ensures KidAt(d, Frames(f, d, |prefix|, |parts|)[i], f(parts[i]), parts[i])
    decreases |parts|
  {
    PartFirst(f, prefix, parts, rest, d);
    FramesStep(f, d, |prefix|, |parts|);
    if i > 0 { FramesOfParts(f, prefix + parts[0], parts[1..], rest, d, i - 1); }
  }

  /** The child is the frame read from this part, and lies where the part does. */
  predicate KidAt(d: Data, kid: (nat, Header), read: Result<Header>, part: Data) {
    read == Ok(kid.1) && kid.0 + |part| <= |d| && d[kid.0..kid.0 + |part|] == part
  }

  lemma FramesStep(f: Reader, d: Data, offset: nat, n: nat)
    requires offset <= |d| && Sound(f) && n > 0 && Row(f, d, offset, n).Ok?
    ensures f(d[offset..]).Ok?
    ensures var h := f(d[offset..]).value;
            && offset + h.size <= |d| && Row(f, d, offset + h.size, n - 1).Ok?
            && Frames(f, d, offset, n) == [(offset, h)] + Frames(f, d, offset + h.size, n - 1)
  {}

  lemma Regroup(a: Data, b: Data, c: Data)
    ensures a + b + c == a + (b + c)
  {}

  // ---------------------------------------------------------------- from trees to frames

  /** A tree within the limits at this depth. */
  ghost predicate Fine(cfg: Config, t: Tree, depth: nat) {
    Proper(cfg, t) && |Encode(t)| <= cfg.maxSize && depth <= cfg.maxDepth && Nested(t, cfg.maxDepth - depth)
  }

  /**
   Main theorem: a tree of any of the fifteen types, within the limits, parses as one frame of exactly
   its own bytes, whatever follows it, and reads back as the tree.
   */
  lemma RoundTrip(cfg: Config, t: Tree, rest: Data, depth: nat)
    requires Fine(cfg, t, depth)
    ensures ParseFrame(cfg, Encode(t) + rest, depth) == Ok(Header(t.kind, |Encode(t)|, Count(t)))
    ensures Shows(cfg, t, Encode(t), Header(t.kind, |Encode(t)|, Count(t)), depth)
  {
    TreeRoundTrip(cfg, t, rest, Encode(t) + rest, depth);
  }

  /** The bytes start with a frame of the tree's encoding, which reads back as the tree. */
  ghost predicate ReadsBack(cfg: Config, t: Tree, d: Data, depth: nat) {
    && ParseFrame(cfg, d, depth) == Ok(Header(t.kind, |Encode(t)|, Count(t)))
    && Shows(cfg, t, Encode(t), Header(t.kind, |Encode(t)|, Count(t)), depth)
  }

  lemma {:induction false} TreeRoundTrip(cfg: Config, t: Tree, rest: Data, d: Data, depth: nat)
    requires Fine(cfg, t, depth) && d == Encode(t) + rest
    ensures ReadsBack(cfg, t, d, depth)
    decreases t, 1
  {
    match t
    case Text(_, _) => TextRoundTrip(cfg, t, rest, d, depth);
    case Blob(_, _, _) => BlobRoundTrip(cfg, t, rest, d, depth);
    case Nil(_, _) => NilRoundTrip(cfg, t, rest, d, depth);
    case Group(_, _, _) =>
      ItemsShown(cfg, t, depth);
      GroupRoundTrip(cfg, t, rest, d, depth);
  }

  lemma {:induction false} ItemsShown(cfg: Config, t: Tree, depth: nat)
    requires Fine(cfg, t, depth) && t.Group?
    ensures forall i | 0 <= i < |t.items| :: ReadsBack(cfg, t.items[i], Encode(t.items[i]), depth + 1)
    decreases t, 0
  {
    forall i | 0 <= i < |t.items| ensures ReadsBack(cfg, t.items[i], Encode(t.items[i]), depth + 1) {
      ItemFine(cfg, t, i, depth);
      assert Encode(t.items[i]) + [] == Encode(t.items[i]);
      TreeRoundTrip(cfg, t.items[i], [], Encode(t.items[i]), depth + 1);
    }
  }

  lemma TextRoundTrip(cfg: Config, t: Tree, rest: Data, d: Data, depth: nat)
    requires Fine(cfg, t, depth) && t.Text? && d == Encode(t) + rest
    ensures ReadsBack(cfg, t, d, depth)
  {
    TextVerdict(cfg, t.kind, t.text, rest, depth);
    TextAccepted(cfg, t);
    TextPayload(t.kind, t.text);
  }

  lemma TextAccepted(cfg: Config, t: Tree)
    requires Proper(cfg, t) && t.Text?
    ensures !BadText(cfg, t.kind, t.text)
  {
    if t.kind == 58 {
      var v :| Int64(v) && Numeral(t.text, v);
      IntTextExact(t.text, v);
    }
  }

  lemma TextPayload(kind: Byte, text: Data)
    ensures SimplePayload(Line(kind, text)) == text
  {}

  lemma BlobRoundTrip(cfg: Config, t: Tree, rest: Data, d: Data, depth: nat)
    requires Fine(cfg, t, depth) && t.Blob? && d == Encode(t) + rest
    ensures ReadsBack(cfg, t, d, depth)
  {
    NumeralNoCrlf(t.len, |t.bytes|);
    IntTextExact(t.len, |t.bytes|);
    BlobBack(cfg, t, rest, d, depth);
  }

  lemma BlobBack(cfg: Config, t: Tree, rest: Data, d: Data, depth: nat)
    requires depth < cfg.maxDepth && t.Blob? && BlobKind(t.kind) && NoCrlf(t.len)
    requires ParseInt(t.len) == Some(|t.bytes|) && |t.len| + |t.bytes| + 5 <= cfg.maxSize && d == Encode(t) + rest
    ensures ReadsBack(cfg, t, d, depth)
  {
    BlobFrame(cfg, t.kind, t.len, t.bytes, rest, d, depth);
    BlobPayload(t.kind, t.len, t.bytes);
  }

  lemma BlobFrame(cfg: Config, kind: Byte, len: Data, bytes: Data, rest: Data, d: Data, depth: nat)
    requires depth < cfg.maxDepth && BlobKind(kind) && NoCrlf(len)
    requires ParseInt(len) == Some(|bytes|) && |len| + |bytes| + 5 <= cfg.maxSize
    requires d == Line(kind, len) + bytes + CRLF + rest
    ensures ParseFrame(cfg, d, depth) == Ok(Header(kind, |len| + |bytes| + 5, 0))
  {
    BlobComplete(cfg, kind, len, bytes, rest);
    RegroupFour(Line(kind, len), bytes, CRLF, rest);
    BlobVerdict(cfg, kind, len, bytes + CRLF + rest, depth);
  }

  lemma BlobComplete(cfg: Config, kind: Byte, len: Data, bytes: Data, rest: Data)
    requires ParseInt(len) == Some(|bytes|) && |len| + |bytes| + 5 <= cfg.maxSize
    ensures BlobAnswer(cfg, kind, len, bytes + CRLF + rest) == Ok(Header(kind, |len| + |bytes| + 5, 0))
  {
    assert (bytes + CRLF + rest)[|bytes|..|bytes| + 2] == CRLF;
  }

  lemma RegroupFour(a: Data, b: Data, c: Data, e: Data)
    ensures a + b + c + e == a + (b + c + e)
  {}

  lemma BlobPayload(kind: Byte, len: Data, bytes: Data)
    requires kind != CR && NoCrlf(len)
    ensures BulkPayload(Line(kind, len) + bytes + CRLF) == bytes
  {
    LineFound(kind, len, bytes + CRLF);
    var e := Line(kind, len) + bytes + CRLF;
    assert e == Line(kind, len) + (bytes + CRLF) && e[|len| + 3..|e| - 2] == bytes;
  }

  lemma NilRoundTrip(cfg: Config, t: Tree, rest: Data, d: Data, depth: nat)
    requires Fine(cfg, t, depth) && t.Nil? && d == Encode(t) + rest
    ensures ReadsBack(cfg, t, d, depth)
  {
    NumeralNoCrlf(t.len, -1);
    IntTextExact(t.len, -1);
    if t.kind == 42 { GroupVerdict(cfg, 42, t.len, rest, depth); }
      else { BlobVerdict(cfg, t.kind, t.len, rest, depth); }
    NilPayload(t.kind, t.len);
  }

  lemma NilPayload(kind: Byte, len: Data)
    requires kind != CR && NoCrlf(len)
    ensures BulkPayload(Line(kind, len)) == []
  {
    LineFound(kind, len, []);
    assert Line(kind, len) + [] == Line(kind, len);
  }

  lemma ItemFine(cfg: Config, t: Tree, i: nat, depth: nat)
    requires Fine(cfg, t, depth) && t.Group? && i < |t.items|
    ensures Fine(cfg, t.items[i], depth + 1)
  {
    assert t.items[i] in t.items;
    ConcatBound(Encodings(t.items), i);
  }

  /** A group of items that are each shown is shown. */
  lemma GroupRoundTrip(cfg: Config, t: Tree, rest: Data, d: Data, depth: nat)
    requires Fine(cfg, t, depth) && t.Group? && d == Encode(t) + rest
    requires forall i | 0 <= i < |t.items| :: ReadsBack(cfg, t.items[i], Encode(t.items[i]), depth + 1)
    ensures ReadsBack(cfg, t, d, depth)
  {
    GroupHeader(cfg, t, depth);
    GroupFrame(cfg, t, rest, d, depth);
    ItemsWhole(cfg, t.items, depth + 1);
    FrameExtend(cfg, depth + 1);
    GroupShows(cfg, t, Encodings(t.items), depth);
  }

  lemma GroupFrame(cfg: Config, t: Tree, rest: Data, d: Data, depth: nat)
    requires depth < cfg.maxDepth && t.Group? && Headed(cfg, t) && d == Encode(t) + rest
    requires forall i | 0 <= i < |t.items| :: ReadsBack(cfg, t.items[i], Encode(t.items[i]), depth + 1)
    ensures ParseFrame(cfg, d, depth) == Ok(Header(t.kind, |Encode(t)|, Count(t)))
  {
    var f := At(cfg, depth + 1);
    assert ParseAggregate(cfg, d, f) == Ok(Header(t.kind, |Encode(t)|, Count(t))) by {
      ItemsWhole(cfg, t.items, depth + 1);
      FrameExtend(cfg, depth + 1);
      GroupParses(cfg, f, t, rest, d);
    }
  }

  lemma GroupParses(cfg: Config, f: Reader, t: Tree, rest: Data, d: Data)
    requires t.Group? && Headed(cfg, t) && Sound(f) && Extends(f) && d == Encode(t) + rest
    requires forall i | 0 <= i < |t.items| :: Whole(f, Encodings(t.items)[i])
    ensures ParseAggregate(cfg, d, f) == Ok(Header(t.kind, |Encode(t)|, Count(t)))
  {
    PartsParse(cfg, f, t.kind, t.count, Count(t), Encodings(t.items), rest, Encode(t), d);
  }

  lemma ItemsWhole(cfg: Config, items: seq<Tree>, depth: nat)
    requires forall i | 0 <= i < |items| :: ReadsBack(cfg, items[i], Encode(items[i]), depth)
    ensures forall i | 0 <= i < |items| :: Whole(At(cfg, depth), Encodings(items)[i])
  {
    forall i | 0 <= i < |items| ensures Whole(At(cfg, depth), Encodings(items)[i]) {
      assert ReadsBack(cfg, items[i], Encode(items[i]), depth);
    }
  }

  /** What the header of a group says. */
  ghost predicate Headed(cfg: Config, t: Tree)
    requires t.Group?
  {
    && GroupKind(t.kind) && NoCrlf(t.count) && ParseInt(t.count) == Some(Count(t))
    && |t.items| == ChildCount(t.kind, Count(t)) && |t.count| + 3 + |Concat(Encodings(t.items))| <= cfg.maxSize
    && Encode(t) == Line(t.kind, t.count) + Concat(Encodings(t.items))
  }

  lemma GroupHeader(cfg: Config, t: Tree, depth: nat)
    requires Fine(cfg, t, depth) && t.Group?
    ensures depth < cfg.maxDepth && Headed(cfg, t)
  {
    NumeralNoCrlf(t.count, Count(t));
    IntTextExact(t.count, Count(t));
    EncodeGroup(t.kind, t.count, t.items);
  }

  lemma PartsParse(cfg: Config, f: Reader, kind: Byte, count: Data, n: nat, parts: seq<Data>, rest: Data,
                   e: Data, d: Data)
    requires Sound(f) && Extends(f) && GroupKind(kind) && NoCrlf(count) && ParseInt(count) == Some(n)
    requires |parts| == ChildCount(kind, n) && forall i | 0 <= i < |parts| :: Whole(f, parts[i])
    requires e == Line(kind, count) + Concat(parts) && d == e + rest
    ensures ParseAggregate(cfg, d, f) == Sized(cfg, kind, |e|, n)
  {
    RowOfParts(f, Line(kind, count), parts, rest, d);
    Regroup(Line(kind, count), Concat(parts), rest);
    GroupParsed(cfg, f, kind, count, Concat(parts) + rest, d);
  }

  lemma GroupShows(cfg: Config, t: Tree, parts: seq<Data>, depth: nat)
    requires t.Group? && parts == Encodings(t.items) && Extends(At(cfg, depth + 1))
    requires t.kind != CR && NoCrlf(t.count) && Encode(t) == Line(t.kind, t.count) + Concat(parts)
    requires forall i | 0 <= i < |parts| :: Whole(At(cfg, depth + 1), parts[i])
    requires forall i | 0 <= i < |t.items| :: ReadsBack(cfg, t.items[i], Encode(t.items[i]), depth + 1)
    ensures Shows(cfg, t, Encode(t), Header(t.kind, |Encode(t)|, Count(t)), depth)
  {
    var f, e := At(cfg, depth + 1), Encode(t);
    PartsAhead(f, t.kind, t.count, parts);
    forall i | 0 <= i < |t.items| ensures KidShown(cfg, t, e, i, depth) {
      KidIsPart(f, t.kind, t.count, parts, i);
      assert ReadsBack(cfg, t.items[i], Encode(t.items[i]), depth + 1);
    }
    KidsShown(cfg, t, e, depth);
  }

  ghost predicate KidShown(cfg: Config, t: Tree, e: Data, i: nat, depth: nat)
    requires t.Group? && i < |t.items|
  {
    var kids := Kids(At(cfg, depth + 1), e, |t.items|);
    |kids| == |t.items| && Shows(cfg, t.items[i], Cut(e, kids[i]), kids[i].1, depth + 1)
  }

  lemma KidsShown(cfg: Config, t: Tree, e: Data, depth: nat)
    requires t.Group? && ChildStart(e) <= |e| && Row(At(cfg, depth + 1), e, ChildStart(e), |t.items|) == Ok(|e|)
    requires forall i | 0 <= i < |t.items| :: KidShown(cfg, t, e, i, depth)
    ensures Shows(cfg, t, e, Header(t.kind, |e|, Count(t)), depth)
  {
    var kids := Kids(At(cfg, depth + 1), e, |t.items|);
    forall i | 0 <= i < |t.items| ensures Shows(cfg, t.items[i], Cut(e, kids[i]), kids[i].1, depth + 1) {
      assert KidShown(cfg, t, e, i, depth);
    }
  }

  lemma PartsAhead(f: Reader, kind: Byte, count: Data, parts: seq<Data>)
    requires Sound(f) && Extends(f) && kind != CR && NoCrlf(count)
    requires forall i | 0 <= i < |parts| :: Whole(f, parts[i])
    ensures var e := Line(kind, count) + Concat(parts);
            && ChildStart(e) == |count| + 3 && Row(f, e, |count| + 3, |parts|) == Ok(|e|)
            && Kids(f, e, |parts|) == Frames(f, e, |count| + 3, |parts|)
  {
    LineFound(kind, count, Concat(parts));
    var e := Line(kind, count) + Concat(parts);
    assert e == Line(kind, count) + Concat(parts) + [];
    RowOfParts(f, Line(kind, count), parts, [], e);
  }

  lemma KidIsPart(f: Reader, kind: Byte, count: Data, parts: seq<Data>, i: nat)
    requires Sound(f) && Extends(f) && kind != CR && NoCrlf(count) && i < |parts|
    requires forall i | 0 <= i < |parts| :: Whole(f, parts[i])
    ensures var e := Line(kind, count) + Concat(parts);
            var kids := Kids(f, e, |parts|);
            |kids| == |parts| && Cut(e, kids[i]) == parts[i] && Ok(kids[i].1) == f(parts[i])
  {
    PartsAhead(f, kind, count, parts);
    var e := Line(kind, count) + Concat(parts);
    assert e == Line(kind, count) + Concat(parts) + [];
    FramesOfParts(f, Line(kind, count), parts, [], e, i);
    assert Whole(f, parts[i]);
  }

  // ---------------------------------------------------------------- from frames to trees

  /** Main theorem, the converse: whatever parses is the encoding of such a tree. */
  lemma {:induction false} ParsedIsTree(cfg: Config, d: Data, h: Header, depth: nat) returns (t: Tree)
    requires ParseFrame(cfg, d, depth) == Ok(h)
    ensures FoundIn(cfg, t, d, h, depth)
    decreases cfg.maxDepth - depth, 1, 0
  {
    if TextKind(d[0]) {
      t := ParsedText(cfg, d, h, depth);
    } else if BlobKind(d[0]) {
      t := ParsedBlob(cfg, d, h, depth);
    } else {
      t := ParsedGroup(cfg, d, h, depth);
    }
  }

  lemma ParsedText(cfg: Config, d: Data, h: Header, depth: nat) returns (t: Tree)
    requires ParseFrame(cfg, d, depth) == Ok(h) && TextKind(d[0])
    ensures FoundIn(cfg, t, d, h, depth)
  {
    var text, rest := LineSplit(d);
    TextVerdict(cfg, d[0], text, rest, depth);
    if d[0] == 58 { IntTextExact(text, ParseInt(text).value); }
    t := Text(d[0], text);
  }

  lemma ParsedBlob(cfg: Config, d: Data, h: Header, depth: nat) returns (t: Tree)
    requires ParseFrame(cfg, d, depth) == Ok(h) && BlobKind(d[0])
    ensures FoundIn(cfg, t, d, h, depth)
  {
    var len, after := LineSplit(d);
    BlobVerdict(cfg, d[0], len, after, depth);
    t := AnsweredBlob(cfg, d[0], len, after, depth);
  }

  lemma AnsweredBlob(cfg: Config, kind: Byte, len: Data, after: Data, depth: nat) returns (t: Tree)
    requires depth < cfg.maxDepth && BlobKind(kind) && BlobAnswer(cfg, kind, len, after).Ok?
    ensures Fine(cfg, t, depth)
    ensures BlobAnswer(cfg, kind, len, after).value.size == |Encode(t)| <= |Line(kind, len) + after|
    ensures Encode(t) == (Line(kind, len) + after)[..|Encode(t)|]
  {
    var n := ParseInt(len).value;
    NumeralFound(len, n);
    if n == -1 {
      t := NilOf(cfg, kind, len, depth);
      LineAfter(kind, len, after);
    } else {
      t := BlobOf(cfg, kind, len, after, n, depth);
    }
  }

  lemma BlobOf(cfg: Config, kind: Byte, len: Data, after: Data, n: nat, depth: nat) returns (t: Tree)
    requires depth < cfg.maxDepth && BlobKind(kind) && Int64(n) && Numeral(len, n)
    requires n + 2 <= |after| && after[n..n + 2] == [13, 10] && |len| + n + 5 <= cfg.maxSize
    ensures Fine(cfg, t, depth) && |Encode(t)| == |len| + n + 5 <= |Line(kind, len) + after|
    ensures Encode(t) == (Line(kind, len) + after)[..|len| + n + 5]
  {
    t := Blob(kind, len, after[..n]);
    CutBlob(Line(kind, len), after, n);
  }

  lemma NilOf(cfg: Config, kind: Byte, len: Data, depth: nat) returns (t: Tree)
    requires depth < cfg.maxDepth && (BlobKind(kind) || kind == 42) && Numeral(len, -1) && |len| + 3 <= cfg.maxSize
    ensures Fine(cfg, t, depth) && Encode(t) == Line(kind, len)
  {
    t := Nil(kind, len);
  }

  lemma CutBlob(line: Data, after: Data, n: nat)
    requires n + 2 <= |after|
    ensures line + after[..n] + after[n..n + 2] == (line + after)[..|line| + n + 2]
  {}

  lemma {:induction false} ParsedGroup(cfg: Config, d: Data, h: Header, depth: nat) returns (t: Tree)
    requires ParseFrame(cfg, d, depth) == Ok(h) && GroupKind(d[0])
    ensures FoundIn(cfg, t, d, h, depth)
    decreases cfg.maxDepth - depth, 0, 0
  {
    var count, n, xs, hs := GroupFronts(cfg, At(cfg, depth + 1), d, h);
    if n == -1 {
      t := NilOf(cfg, 42, count, depth);
    } else {
      var items := ParsedItems(cfg, xs, hs, depth + 1);
      FoundFronts(cfg, items, xs, hs, depth + 1);
      t := GroupOf(cfg, d, h.size, count, n, items, depth);
    }
  }

  /** The header line of a group, and the frames its number announces. */
  lemma GroupFronts(cfg: Config, f: Reader, d: Data, h: Header)
    returns (count: Data, n: int, xs: seq<Data>, hs: seq<Header>)
    requires d != [] && Sound(f) && ParseAggregate(cfg, d, f) == Ok(h) && GroupKind(d[0])
    ensures |count| + 3 <= h.size <= |d| && h.size <= cfg.maxSize
    ensures d[..|count| + 3] == Line(d[0], count) && Int64(n) && Numeral(count, n)
    ensures n == -1 ==> d[0] == 42 && h.size == |count| + 3
    ensures n != -1 ==>
            && n >= 0 && |xs| == |hs| == ChildCount(d[0], n)
            && (forall i | 0 <= i < |xs| :: f(xs[i]) == Ok(hs[i]) && hs[i].size <= |xs[i]|)
            && Concat(Fronts(xs, hs)) == d[|count| + 3..h.size]
  {
    count, n := GroupHead(cfg, f, d, h);
    xs, hs := [], [];
    if n != -1 { xs, hs := RowFronts(f, d, |count| + 3, ChildCount(d[0], n), h.size); }
  }

  lemma GroupHead(cfg: Config, f: Reader, d: Data, h: Header) returns (count: Data, n: int)
    requires d != [] && Sound(f) && ParseAggregate(cfg, d, f) == Ok(h) && GroupKind(d[0])
    ensures |count| + 3 <= h.size <= |d| && h.size <= cfg.maxSize
    ensures d[..|count| + 3] == Line(d[0], count) && Int64(n) && Numeral(count, n)
    ensures n == -1 ==> d[0] == 42 && h.size == |count| + 3
    ensures n != -1 ==> n >= 0 && Row(f, d, |count| + 3, ChildCount(d[0], n)) == Ok(h.size)
  {
    var after;
    count, after := LineSplit(d);
    GroupParsed(cfg, f, d[0], count, after, d);
    LineAfter(d[0], count, after);
    n := ParseInt(count).value;
    NumeralFound(count, n);
  }

  lemma GroupOf(cfg: Config, d: Data, end: nat, count: Data, n: nat, items: seq<Tree>, depth: nat) returns (t: Tree)
    requires depth < cfg.maxDepth && |count| + 3 <= end <= |d| && end <= cfg.maxSize
    requires GroupKind(d[0]) && Int64(n) && Numeral(count, n)
    requires d[..|count| + 3] == Line(d[0], count) && |items| == ChildCount(d[0], n)
    requires forall i | 0 <= i < |items| :: Fine(cfg, items[i], depth + 1)
    requires Concat(Encodings(items)) == d[|count| + 3..end]
    ensures Fine(cfg, t, depth) && Encode(t) == d[..end]
  {
    t := Group(d[0], count, items);
    EncodeGroup(d[0], count, items);
    assert d[..|count| + 3] + d[|count| + 3..end] == d[..end];
  }

  lemma EncodeGroup(kind: Byte, count: Data, items: seq<Tree>)
    ensures Encode(Group(kind, count, items)) == Line(kind, count) + Concat(Encodings(items))
  {}

  /** The tree was found at the front of these bytes. */
  ghost predicate FoundIn(cfg: Config, t: Tree, x: Data, h: Header, depth: nat) {
    Fine(cfg, t, depth) && h.size <= |x| && Encode(t) == x[..h.size]
  }

  /** The trees of frames parsed one by one. */
  lemma {:induction false} ParsedItems(cfg: Config, xs: seq<Data>, hs: seq<Header>, depth: nat) returns (ts: seq<Tree>)
    requires |xs| == |hs| && depth <= cfg.maxDepth
    requires forall i | 0 <= i < |xs| :: ParseFrame(cfg, xs[i], depth) == Ok(hs[i])
    ensures |ts| == |xs| && forall i | 0 <= i < |ts| :: FoundIn(cfg, ts[i], xs[i], hs[i], depth)
    decreases cfg.maxDepth - depth, 2, |xs|
  {
    if xs == [] { return []; }
    var rest := ParsedItems(cfg, xs[1..], hs[1..], depth);
    var first := ParsedIsTree(cfg, xs[0], hs[0], depth);
    ts := FoundFirst(cfg, first, rest, xs, hs, depth);
  }

  lemma FoundFirst(cfg: Config, first: Tree, rest: seq<Tree>, xs: seq<Data>, hs: seq<Header>, depth: nat)
    returns (ts: seq<Tree>)
    requires |xs| == |hs| == |rest| + 1 && FoundIn(cfg, first, xs[0], hs[0], depth)
    requires forall i | 0 <= i < |rest| :: FoundIn(cfg, rest[i], xs[1..][i], hs[1..][i], depth)
    ensures |ts| == |xs| && forall i | 0 <= i < |ts| :: FoundIn(cfg, ts[i], xs[i], hs[i], depth)
  {
    ts := [first] + rest;
    forall i | 0 <= i < |ts| ensures FoundIn(cfg, ts[i], xs[i], hs[i], depth) {
      if i > 0 { assert FoundIn(cfg, rest[i - 1], xs[1..][i - 1], hs[1..][i - 1], depth); }
    }
  }

  /** The bytes of frames that lie at the front of these. */
  function Fronts(xs: seq<Data>, hs: seq<Header>): (r: seq<Data>)
    requires |xs| == |hs| && forall i | 0 <= i < |xs| :: hs[i].size <= |xs[i]|
    ensures |r| == |xs|
  { seq(|xs|, i requires 0 <= i < |xs| => xs[i][..hs[i].size]) }

  lemma FoundFronts(cfg: Config, ts: seq<Tree>, xs: seq<Data>, hs: seq<Header>, depth: nat)
    requires |ts| == |xs| == |hs| && forall i | 0 <= i < |ts| :: FoundIn(cfg, ts[i], xs[i], hs[i], depth)
    ensures (forall i | 0 <= i < |xs| :: hs[i].size <= |xs[i]|) && Encodings(ts) == Fronts(xs, hs)
    ensures forall i | 0 <= i < |ts| :: Fine(cfg, ts[i], depth)
  {
    forall i | 0 <= i < |ts| ensures hs[i].size <= |xs[i]| && Encode(ts[i]) == xs[i][..hs[i].size] {
      assert FoundIn(cfg, ts[i], xs[i], hs[i], depth);
    }
  }

  /** A row is so many frames end to end. */
  lemma {:induction false} RowFronts(f: Reader, d: Data, offset: nat, n: nat, end: nat)
    returns (xs: seq<Data>, hs: seq<Header>)
    requires offset <= |d| && Sound(f) && Row(f, d, offset, n) == Ok(end)
    ensures |xs| == |hs| == n && forall i | 0 <= i < n :: f(xs[i]) == Ok(hs[i]) && hs[i].size <= |xs[i]|
    ensures offset <= end <= |d| && Concat(Fronts(xs, hs)) == d[offset..end]
    decreases n
  {
    if n == 0 { return [], []; }
    var x := d[offset..];
    var h := f(x).value;
    var ys, ks := RowFronts(f, d, offset + h.size, n - 1, end);
    xs, hs := [x] + ys, [h] + ks;
    assert Fronts(xs, hs)[1..] == Fronts(ys, ks) && Fronts(xs, hs)[0] == x[..h.size];
    CutRow(d, offset, h.size, end);
  }

  lemma CutRow(d: Data, offset: nat, size: nat, end: nat)
    requires offset + size <= end <= |d|
    ensures d[offset..][..size] + d[offset + size..end] == d[offset..end]
  {}

  /** The parser accepts exactly the encodings of trees within the limits. */
  lemma LanguageExact(cfg: Config, d: Data, depth: nat, n: nat)
    requires n <= |d|
    ensures ParseFrame(cfg, d, depth).Ok? && ParseFrame(cfg, d, depth).value.size == n <==>
            exists t: Tree :: Fine(cfg, t, depth) && Encode(t) == d[..n]
  {
    if ParseFrame(cfg, d, depth).Ok? && ParseFrame(cfg, d, depth).value.size == n {
      var t := ParsedIsTree(cfg, d, ParseFrame(cfg, d, depth).value, depth);
    }
    if t: Tree :| Fine(cfg, t, depth) && Encode(t) == d[..n] {
      assert d == Encode(t) + d[n..];
      TreeRoundTrip(cfg, t, d[n..], d, depth);
    }
  }
}
