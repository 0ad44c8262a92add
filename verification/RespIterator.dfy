/** Streaming the children of a parsed aggregate without storing them. */
module RespIterator {
  import opened Bytes
  import opened Wrappers
  import opened RespParser

  /** Where the children of an aggregate start: after its header line. */
  function ChildStart(data: Data): nat {
    match FindCrlf(data, 0) case None => 0 case Some(p) => p + 2
  }

  class FrameIterator {
    const cfg: Config
    const frame: Data       // the bytes of the parent frame
    const depth: nat
    var current: nat
    var remaining: nat

    constructor (cfg: Config, parent: Header, data: Data, depth: nat)
      requires parent.size <= |data|
      ensures this.cfg == cfg && frame == data[..parent.size] && this.depth == depth
      ensures current == ChildStart(frame) && remaining == ItemCount(parent.kind, parent.count)
    {
      this.cfg, this.depth, frame := cfg, depth, data[..parent.size];
      current, remaining := 0, parent.count;
      new;
      var pos := FindCrlf(frame, 0);
      if pos.Some? { current := current + (pos.value + 2); }
      if parent.kind == MAP || parent.kind == ATTRIBUTE { remaining := remaining * 2; }
    }

    predicate HasNext() reads this`remaining { remaining > 0 }

    method Next() returns (r: Result<Header>)
      modifies this
      ensures r == if old(remaining) == 0 then Err(InternalError)
                   else if old(current) >= |frame| then Err(InvalidProtocol)
                   else ParseFrame(cfg, frame[old(current)..], depth)
      ensures r.Err? ==> current == old(current) && remaining == old(remaining)
      ensures r.Ok? ==> current == old(current) + r.value.size && remaining == old(remaining) - 1
    {
      if remaining == 0 { return Err(InternalError); }
      if current >= |frame| { return Err(InvalidProtocol); }
      var child := ParseFrameInternal(cfg, frame[current..], depth);
      if child.Err? { return child; }
      current := current + child.value.size;
      remaining := remaining - 1;
      return child;
    }
  }

  /** Frames laid end to end from one offset to another, each parsed at the offset it is listed with. */
  ghost predicate Tiles(f: Reader, data: Data, kids: seq<(nat, Header)>, start: nat, end: nat)
    decreases |kids|
  {
    if kids == [] then start == end
    else
      kids[0].0 == start <= |data| && f(data[start..]) == Ok(kids[0].1)
      && Tiles(f, data, kids[1..], start + kids[0].1.size, end)
  }

  lemma {:induction false} FramesTile(f: Reader, data: Data, offset: nat, n: nat)
    requires offset <= |data| && Sound(f) && Row(f, data, offset, n).Ok?
    ensures Tiles(f, data, Frames(f, data, offset, n), offset, Row(f, data, offset, n).value)
    decreases n
  {
    if n > 0 {
      var h := f(data[offset..]).value;
      FramesTile(f, data, offset + h.size, n - 1);
      assert Frames(f, data, offset, n)[1..] == Frames(f, data, offset + h.size, n - 1);
    }
  }

  /** The header line of a parsed aggregate, and the row of children the parse went through. */
  lemma AggregateRow(cfg: Config, data: Data, depth: nat)
    requires ParseFrame(cfg, data, depth).Ok? && IsAggregate(data[0])
    ensures var h := ParseFrame(cfg, data, depth).value;
            ChildStart(data) <= h.size <= |data| &&
            Row(At(cfg, depth + 1), data, ChildStart(data), ItemCount(h.kind, h.count)) == Ok(h.size)
  {
    var p := FindCrlf(data, 0).value;
    if ParseInt(data[..p][Min(1, p)..]).value == -1 {
      assert Row(At(cfg, depth + 1), data, p + 2, 0) == Ok(p + 2);
    }
  }

  /** The same row inside the frame's own bytes, and for an iterator no deeper than the parse. */
  lemma RowInFrame(cfg: Config, data: Data, depth: nat, iterDepth: nat)
    requires ParseFrame(cfg, data, depth).Ok? && IsAggregate(data[0]) && iterDepth <= depth + 1
    ensures var h := ParseFrame(cfg, data, depth).value;
            var n, start, f, g := ItemCount(h.kind, h.count), ChildStart(data), At(cfg, depth + 1), At(cfg, iterDepth);
            && Row(f, data, start, n) == Ok(h.size)
            && ChildStart(data[..h.size]) == start <= h.size
            && Row(g, data[..h.size], start, n) == Ok(h.size)
            && Frames(g, data[..h.size], start, n) == Frames(f, data, start, n)
  {
    var h := ParseFrame(cfg, data, depth).value;
    var n, start, f, g := ItemCount(h.kind, h.count), ChildStart(data), At(cfg, depth + 1), At(cfg, iterDepth);
    AggregateRow(cfg, data, depth);
    FindCut(data, h.size, 0);
    FrameCut(cfg, depth + 1);
    RowCut(f, data, h.size, start, n);
    forall x: Data | f(x).Ok? ensures g(x) == f(x) { FrameShallower(cfg, x, depth + 1, iterDepth); }
    RowAgrees(f, g, data[..h.size], start, n);
  }

  /** n frames lie ahead of the offset, up to the end of the data. */
  ghost predicate Ahead(f: Reader, data: Data, offset: nat, n: nat, rest: seq<(nat, Header)>) {
    offset <= |data| && Sound(f) && Row(f, data, offset, n) == Ok(|data|) && Frames(f, data, offset, n) == rest
  }

  lemma AheadStep(f: Reader, data: Data, offset: nat, n: nat, rest: seq<(nat, Header)>, c: Result<Header>)
    requires Ahead(f, data, offset, n, rest) && n > 0 && f(data[offset..]) == c
    ensures offset < |data| && c.Ok? && rest != [] && rest[0] == (offset, c.value)
    ensures Ahead(f, data, offset + c.value.size, n - 1, rest[1..])
  {}

  /** The caller's loop: take children while there are any. */
  method Drain(it: FrameIterator, ghost all: seq<(nat, Header)>) returns (kids: seq<(nat, Header)>)
    requires Ahead(At(it.cfg, it.depth), it.frame, it.current, it.remaining, all)
    modifies it
    ensures kids == all && it.current == |it.frame| && it.remaining == 0
  {
    ghost var f, frame, rest := At(it.cfg, it.depth), it.frame, all;
    kids := [];
    while it.HasNext()
      invariant Ahead(f, frame, it.current, it.remaining, rest) && all == kids + rest
      decreases it.remaining
    {
      ghost var n, next := it.remaining, f(frame[it.current..]);
      AheadStep(f, frame, it.current, n, rest, next);
      var at := it.current;
      var child := it.Next();
      assert child == next && rest == [(at, child.value)] + rest[1..];
      kids := kids + [(at, child.value)];
      rest := rest[1..];
    }
  }

  /**
   Main theorem: iterating a parsed aggregate never fails, yields the frames the
   parse itself found, as many as the header says, and ends at the parent's end.
   */
  method Children(cfg: Config, data: Data, depth: nat, parent: Header, iterDepth: nat)
    returns (kids: seq<(nat, Header)>)
    requires ParseFrame(cfg, data, depth) == Ok(parent) && IsAggregate(data[0]) && iterDepth <= depth + 1
    ensures |kids| == if parent.kind == MAP || parent.kind == ATTRIBUTE then 2 * parent.count else parent.count
    ensures Row(At(cfg, depth + 1), data, ChildStart(data), |kids|).Ok?
    ensures kids == Frames(At(cfg, depth + 1), data, ChildStart(data), |kids|)
    ensures Tiles(At(cfg, depth + 1), data, kids, ChildStart(data), parent.size)
  {
    RowInFrame(cfg, data, depth, iterDepth);
    FramesTile(At(cfg, depth + 1), data, ChildStart(data), ItemCount(parent.kind, parent.count));
    var it := new FrameIterator(cfg, parent, data, iterDepth);
    kids := Drain(it, Frames(At(cfg, iterDepth), it.frame, it.current, it.remaining));
  }
}
