/**
 The explicit producer's circular block index: one producer that reuses blocks,
 adds blocks and grows the index, and any number of consumers that resolve the
 indices they have claimed to blocks through whatever index header they loaded.

 A claim is any step that moves the head by k with head + k <= tail; QueueDelivery
 joins this machine with the optimistic protocol, which guarantees that.  Indices are mathematical integers; the bases
 stored in the index, the offset and the slot arithmetic are the code's 64-bit words.
 */
module BlockIndex {
  import opened Words

  const BLOCK_SIZE: nat := 32
  const INITIAL_BITS: nat := 5           // EXPLICIT_INITIAL_INDEX_SIZE == 32
  const MAX_BITS: nat := 57              // a larger index cannot be allocated

  type Block = nat
  type Value = nat
  type Tid = nat

  datatype Entry = Entry(base: nat, block: Block)

  /**
   BlockIndexHeader; origin, low and last are history: the block number at slot 0, and the numbers
   it resolves once replaced.
   */
  datatype Header = Header(bits: nat, front: nat, entries: nat -> Entry, origin: int, low: int, last: int)

  function Size(h: Header): (r: nat) ensures r > 0 { Pow2(h.bits) }

  /** Where the enqueue call stands. */
  datatype Producer =
    | PIdle
    | PScan(v: Value, j: nat)      // is_empty on the block ahead: flag j next
    | PFresh(v: Value)             // load the head, check the leeway, grow the index if full
    | PLink(v: Value)              // requisition a block and link it in
    | PBase(v: Value)              // entry.base = ...
    | PBlock(v: Value)             // entry.block = ...
    | PFront(v: Value)             // front.store
    | PCell(v: Value)              // construct the element
    | PPublish(v: Value)           // tailIndex.store

  /** Where a dequeue of the indices up to e stands; i is the first one of the current block, nf is proof-only. */
  datatype Consumer =
    | Idle
    | LoadHeader(i: nat, e: nat)
    | LoadFront(i: nat, e: nat, h: nat)
    | ReadBase(i: nat, e: nat, h: nat, f: nat, nf: nat)
    | ReadBlock(i: nat, e: nat, h: nat, slot: nat)
    | Take(i: nat, e: nat, h: nat, slot: nat, block: Block, p: nat)      // move element p out
    | SetEmpty(i: nat, e: nat, h: nat, slot: nat, block: Block, q: nat)  // flags of q..stop are set, q-1 next

  /** What has become of an index. */
  datatype Fate = Unclaimed | Claimed(t: Tid) | Emptied

  datatype State = State(
    tail: nat, head: nat,
    headers: seq<Header>,                 // the last one is *blockIndex
    prFront: nat, slots: nat,             // pr_blockIndexFront, pr_blockIndexSlotsUsed
    tailBlock: Block,
    next: Block -> Block,
    flags: Block -> nat -> bool,          // emptyFlags
    cells: Block -> nat -> Value,
    prod: Producer,
    cons: seq<Consumer>,
    values: seq<Value>,                   // history: every element enqueued
    used: seq<Block>,                     // history: the block given to block number n
    pub: nat,                             // history: block numbers whose front was published
    fate: nat -> Fate,                    // history
    out: seq<(nat, Value)>)               // history: every element moved out

  function Cur(s: State): nat requires s.headers != [] { |s.headers| - 1 }
  function Lo(s: State): int { |s.used| - s.slots }

  function Set<T>(f: nat -> T, n: nat, v: T): nat -> T { (m: nat) => if m == n then v else f(m) }
  function Set2<T>(f: nat -> nat -> T, n: nat, k: nat, v: T): nat -> nat -> T {
    (m: nat) => if m == n then ((o: nat) => if o == k then v else f(n)(o)) else f(m)
  }

  // ---------------------------------------------------------------- the producer

  /** new_block_index: twice the size, the used entries copied from the oldest on, the front on the newest. */
  function Grown(h: Header, prFront: nat, slots: nat, lo: int): Header {
    Header(h.bits + 1,
           Reduce(slots - 1),
           (j: nat) => h.entries((prFront - slots + j) % Size(h)),
           lo, 0, 0)
  }

  /** The producer's next operation. */
  function ProduceStep(s: State): State
    requires s.headers != []
  {
    var cur := s.headers[Cur(s)];
    match s.prod
    case PIdle => s
    case PScan(v, j) =>
      if !s.flags(s.next(s.tailBlock))(j) then s.(prod := PFresh(v))
      else if j + 1 < BLOCK_SIZE then s.(prod := PScan(v, j + 1))
      else
        var b := s.next(s.tailBlock);
        s.(tailBlock := b, flags := Set(s.flags, b, (_: nat) => false), used := s.used + [b], prod := PBase(v))
    case PFresh(v) =>
      if !CircularLess(s.head, s.tail + BLOCK_SIZE) then s.(prod := PIdle)
      else if s.slots == Size(cur) then
        if cur.bits < MAX_BITS then
          s.(headers :=
            s.headers[Cur(s) := cur.(low := Lo(s), last := s.pub - 1)] + [Grown(cur, s.prFront, s.slots, Lo(s))],
             prFront := s.slots, prod := PLink(v))
        else s.(prod := PIdle)
      else s.(prod := PLink(v))
    case PLink(_) => s
    case PBase(v) =>
      s.(headers :=
        s.headers[Cur(s) :=
          cur.(entries := Set(cur.entries, s.prFront, cur.entries(s.prFront).(base := Reduce(s.tail))))],
         prod := PBlock(v))
    case PBlock(v) =>
      s.(headers :=
        s.headers[Cur(s) :=
          cur.(entries := Set(cur.entries, s.prFront, cur.entries(s.prFront).(block := s.tailBlock)))],
         prod := PFront(v))
    case PFront(v) =>
      s.(headers := s.headers[Cur(s) := cur.(front := s.prFront)],
         prFront := (s.prFront + 1) % Size(cur), pub := s.pub + 1, prod := PCell(v))
    case PCell(v) =>
      s.(cells := Set2(s.cells, s.tailBlock, s.tail % BLOCK_SIZE, v), prod := PPublish(v))
    case PPublish(v) =>
      s.(tail := s.tail + 1, values := s.values + [v], prod := PIdle)
  }

  /** Link a block from the pool behind the tail block. */
  function Link(s: State, b: Block): State
    requires s.prod.PLink?
  {
    var s1 := s.(flags := Set(s.flags, b, (_: nat) => false), tailBlock := b, slots := s.slots + 1,
                 used := s.used + [b], prod := PBase(s.prod.v));
    if s.slots == 0 then s1.(next := Set(s.next, b, b))
    else s1.(next := Set(Set(s.next, b, s.next(s.tailBlock)), s.tailBlock, b))
  }

  // ---------------------------------------------------------------- the consumers

  function BlockEnd(i: nat, e: nat): nat {
    var end := (i / BLOCK_SIZE + 1) * BLOCK_SIZE;
    if e < end then e else end
  }

  /** C++ division of a signed word by the block size: toward zero. */
  function TruncDiv(x: int): int { if x >= 0 then x / BLOCK_SIZE else -(-x / BLOCK_SIZE) }

  function Signed(w: nat): int { if w < HALF then w else w - WORD }

  /** The signed distance, in blocks and as a word, from the front's base to the block of index i. */
  function Offset(i: nat, base: nat): nat {
    Reduce(TruncDiv(Signed(Reduce(Reduce(i - i % BLOCK_SIZE) - base))))
  }

  /** The slot that many blocks from slot f, in an index of the given size. */
  function SlotAt(f: nat, offset: nat, size: nat): nat
    requires size > 0
  {
    Reduce(f + offset) % size
  }

  function ConsumeStep(s: State, t: Tid): State
    requires t < |s.cons| && s.headers != [] && (HasHeader(s.cons[t]) ==> s.cons[t].h < |s.headers|)
  {
    match s.cons[t]
    case Idle => s
    case LoadHeader(i, e) => s.(cons := s.cons[t := LoadFront(i, e, Cur(s))])
    case LoadFront(i, e, h) => s.(cons := s.cons[t := ReadBase(i, e, h, s.headers[h].front, Abs(Last(s, h)))])
    case ReadBase(i, e, h, f, _) =>
      s.(cons := s.cons[t :=
        ReadBlock(i, e, h, SlotAt(f, Offset(i, s.headers[h].entries(f).base), Size(s.headers[h])))])
    case ReadBlock(i, e, h, slot) =>
      s.(cons := s.cons[t := Take(i, e, h, slot, s.headers[h].entries(slot).block, i)])
    case Take(i, e, h, slot, b, p) =>
      s.(out := s.out + [(p, s.cells(b)(p % BLOCK_SIZE))],
         cons := s.cons[t := if p + 1 < BlockEnd(i, e) then Take(i, e, h, slot, b, p + 1)
                             else SetEmpty(i, e, h, slot, b, BlockEnd(i, e))])
    case SetEmpty(i, e, h, slot, b, q) =>
      if q <= i then s   // not reached
      else
        var stop := BlockEnd(i, e);
        s.(flags := Set2(s.flags, b, BLOCK_SIZE - 1 - (q - 1) % BLOCK_SIZE, true),
           fate := Set(s.fate, q - 1, Emptied),
           cons := s.cons[t := if q - 1 > i then SetEmpty(i, e, h, slot, b, q - 1)
                               else if stop == e then Idle
                               else ReadBlock(stop, e, h, (slot + 1) % Size(s.headers[h]))])
  }

  predicate HasHeader(c: Consumer) { !c.Idle? && !c.LoadHeader? }
  function Abs(x: int): nat { if x >= 0 then x else -x }

  /** The newest and the oldest block number a header resolves. */
  function Last(s: State, h: nat): int requires h < |s.headers| { if h == Cur(s) then s.pub - 1 else s.headers[h].last }
  function Low(s: State, h: nat): int requires h < |s.headers| { if h == Cur(s) then Lo(s) else s.headers[h].low }

  // ---------------------------------------------------------------- runs

  datatype Action =
    | Offer(v: Value)              // enqueue is called
    | Produce                      // its next operation
    | Requisition(b: Block)        // the pool hands it a block nobody else has
    | GiveUp                       // an allocation failed
    | Claim(t: Tid, k: nat)        // a consumer's fetch_add on the head
    | Consume(t: Tid)              // its next operation

  ghost predicate InRing(s: State, b: Block) { exists n | 0 <= Lo(s) <= n < |s.used| :: s.used[n] == b }

  ghost predicate Enabled(s: State, act: Action) {
    && s.headers != []
    && match act
       case Offer(_) => s.prod.PIdle?
       case Produce => !s.prod.PIdle? && !s.prod.PLink?
       case Requisition(b) => s.prod.PLink? && !InRing(s, b)
       case GiveUp => s.prod.PLink? || s.prod.PFresh?
       case Claim(t, k) => t < |s.cons| && s.cons[t].Idle? && k > 0 && s.head + k <= s.tail
       case Consume(t) => t < |s.cons| && !s.cons[t].Idle? && (HasHeader(s.cons[t]) ==> s.cons[t].h < |s.headers|)
  }

  /** The indices from the head on go to consumer t. */
  ghost function ClaimStep(s: State, t: Tid, k: nat): State
    requires t < |s.cons|
  {
    s.(head := s.head + k, cons := s.cons[t := LoadHeader(s.head, s.head + k)],
       fate := (x: nat) => if s.head <= x < s.head + k then Claimed(t) else s.fate(x))
  }

  ghost function Do(s: State, act: Action): State
    requires Enabled(s, act)
  {
    match act
    case Offer(v) =>
      s.(prod := if s.tail % BLOCK_SIZE != 0 then PCell(v) else if s.slots > 0 then PScan(v, 0) else PFresh(v))
    case Produce => ProduceStep(s)
    case Requisition(b) => Link(s, b)
    case GiveUp => s.(prod := PIdle)
    case Claim(t, k) => ClaimStep(s, t, k)
    case Consume(t) => ConsumeStep(s, t)
  }

  ghost predicate Init(s: State) {
    && s.tail == s.head == s.slots == s.prFront == s.pub == 0 && s.used == [] && s.values == [] && s.out == []
    && s.prod.PIdle?
    && |s.headers| == 1 && s.headers[0].bits == INITIAL_BITS && s.headers[0].front == WORD - 1
    && s.headers[0].origin == 0
    && (forall t | 0 <= t < |s.cons| :: s.cons[t].Idle?)
    && (forall x :: s.fate(x).Unclaimed?)
  }

  ghost predicate Reaches(s: State, acts: seq<Action>, z: State)
    decreases |acts|
  {
    if acts == [] then s == z
    else Enabled(s, acts[0]) && Reaches(Do(s, acts[0]), acts[1..], z)
  }

  // ---------------------------------------------------------------- slot arithmetic

  lemma MaxSize(e: nat)
    requires e <= MAX_BITS
    ensures Pow2(e) * BLOCK_SIZE < HALF
  {
    Pow2Mono(e, 57);
    WordIsPow2();
    Pow2Splits(57, 7);
    assert Pow2(7) == 128;
  }

  /** The signed word difference of two bases, divided by the block size, is the difference of the block numbers. */
  lemma OffsetExact(i: nat, nf: nat)
    requires (i / BLOCK_SIZE - nf) * BLOCK_SIZE < HALF && (nf - i / BLOCK_SIZE) * BLOCK_SIZE < HALF
    ensures Offset(i, Reduce(nf * BLOCK_SIZE)) == Reduce(i / BLOCK_SIZE - nf)
  {
    var b := i / BLOCK_SIZE;
    var d := (b - nf) * BLOCK_SIZE;
    assert i - i % BLOCK_SIZE == b * BLOCK_SIZE;
    ModPlus(b * BLOCK_SIZE, 0 - (Reduce(nf * BLOCK_SIZE) as int), WORD);
    ReduceMinus(b * BLOCK_SIZE, nf * BLOCK_SIZE);
    assert Reduce(Reduce(b * BLOCK_SIZE) - Reduce(nf * BLOCK_SIZE)) == Reduce(d);
    if d < 0 { ModUnique(d, -1, d + WORD, WORD); } else { ModUnique(d, 0, d, WORD); }
    assert Signed(Reduce(d)) == d;
  }

  /** Adding a reduced offset to a slot and masking gives the slot that many numbers further on. */
  lemma SlotShift(f: nat, a: int, d: int, x: int, bits: nat)
    requires bits <= 64 && a + d == x && f == a % Pow2(bits)
    ensures SlotAt(f, Reduce(d), Pow2(bits)) == x % Pow2(bits)
  {
    var n := Pow2(bits);
    ReduceMask(f + Reduce(d), bits);
    ModPlus(Reduce(d), f, n);
    ReduceMask(d, bits);
    ModPlus(d, f, n);
    ModPlus(a, d, n);
  }

  lemma NearEnough(k: int, bits: nat)
    requires bits <= MAX_BITS && k < Pow2(bits)
    ensures k * BLOCK_SIZE < HALF
  {
    MaxSize(bits);
  }

  /**
   The signed offset from the front leads to the slot of the block number, whichever side it is on
   and however the words wrapped.
   */
  lemma SlotForExact(i: nat, origin: int, nf: nat, bits: nat, f: nat)
    requires bits <= MAX_BITS && nf - Pow2(bits) < i / BLOCK_SIZE < nf + Pow2(bits)
    requires f == (nf - origin) % Pow2(bits)
    ensures SlotAt(f, Offset(i, Reduce(nf * BLOCK_SIZE)), Pow2(bits)) == (i / BLOCK_SIZE - origin) % Pow2(bits)
  {
    NearEnough(i / BLOCK_SIZE - nf, bits);
    NearEnough(nf - i / BLOCK_SIZE, bits);
    OffsetExact(i, nf);
    SlotShift(f, nf - origin, i / BLOCK_SIZE - nf, i / BLOCK_SIZE - origin, bits);
  }

  // ---------------------------------------------------------------- the invariant

  function Slot(h: Header, b: int): nat { (b - h.origin) % Size(h) }

  /** The indices a consumer has claimed and not yet marked empty. */
  predicate Pending(c: Consumer, x: nat) {
    match c
    case Idle => false
    case SetEmpty(i, e, _, _, _, q) => i <= x < q || BlockEnd(i, e) <= x < e
    case _ => c.i <= x < c.e
  }

  ghost predicate ProdOk(s: State)
    requires s.headers != []
  {
    var n, entry := |s.used|, s.headers[Cur(s)].entries(s.prFront);
    match s.prod
    case PIdle => s.pub == n && s.tail <= n * BLOCK_SIZE && (n == 0 || s.tail > (n - 1) * BLOCK_SIZE)
    case PScan(_, j) =>
      && s.pub == n && s.tail == n * BLOCK_SIZE && s.slots > 0 && j < BLOCK_SIZE
      && forall o: nat | o < j :: s.flags(s.next(s.tailBlock))(o)
    case PFresh(_) => s.pub == n && s.tail == n * BLOCK_SIZE
    case PLink(_) => s.pub == n && s.tail == n * BLOCK_SIZE && s.slots < Size(s.headers[Cur(s)])
    case PBase(_) => s.pub + 1 == n && s.tail == s.pub * BLOCK_SIZE
    case PBlock(_) => s.pub + 1 == n && s.tail == s.pub * BLOCK_SIZE && entry.base == Reduce(s.tail)
    case PFront(_) => s.pub + 1 == n && s.tail == s.pub * BLOCK_SIZE && entry == Entry(Reduce(s.tail), s.tailBlock)
    case PCell(_) => s.pub == n && (n - 1) * BLOCK_SIZE <= s.tail < n * BLOCK_SIZE
    case PPublish(v) =>
      s.pub == n && (n - 1) * BLOCK_SIZE <= s.tail < n * BLOCK_SIZE && s.cells(s.tailBlock)(s.tail % BLOCK_SIZE) == v
  }

  ghost predicate Shape(s: State) {
    && s.headers != [] && s.slots <= |s.used| && s.slots <= Size(s.headers[Cur(s)])
    && (s.used != [] ==> s.slots > 0 && s.tailBlock == s.used[|s.used| - 1])
    && |s.values| == s.tail && s.head <= s.tail
    && s.prFront == Slot(s.headers[Cur(s)], s.pub)
    && ProdOk(s)
    && (forall k | 0 <= k < |s.out| :: s.out[k].0 < |s.values| && s.out[k].1 == s.values[s.out[k].0])
  }

  /** The linked blocks, oldest first: each points to the next, the newest back to the oldest, no block twice. */
  ghost predicate Ring(s: State, n: int) {
    0 <= Lo(s) <= n < |s.used| ==>
      && s.next(s.used[n]) == (if n + 1 < |s.used| then s.used[n + 1] else s.used[Lo(s)])
      && (forall m | n < m < |s.used| :: s.used[m] != s.used[n])
  }

  ghost predicate FlagOk(s: State, b: int, o: nat) {
    0 <= Lo(s) <= b < |s.used| && o < BLOCK_SIZE ==>
      (s.flags(s.used[b])(BLOCK_SIZE - 1 - o) <==> s.fate(b * BLOCK_SIZE + o).Emptied?)
  }

  ghost predicate IndexOk(s: State, x: nat) {
    && (x >= s.head <==> s.fate(x).Unclaimed?)
    && (s.fate(x).Claimed? ==> s.fate(x).t < |s.cons| && Pending(s.cons[s.fate(x).t], x))
    && (x < s.tail && x < |s.values| && !s.fate(x).Emptied? ==>
          0 <= Lo(s) <= x / BLOCK_SIZE < |s.used| && s.cells(s.used[x / BLOCK_SIZE])(x % BLOCK_SIZE) == s.values[x])
  }

  ghost predicate OwnOk(s: State, t: Tid, x: nat) {
    t < |s.cons| && Pending(s.cons[t], x) ==> s.fate(x) == Claimed(t)
  }

  /** What a consumer has loaded still leads where it should. */
  ghost predicate Resolves(s: State, c: Consumer) {
    HasHeader(c) ==>
      && c.h < |s.headers| && c.i < c.e <= s.tail
      && Low(s, c.h) <= c.i / BLOCK_SIZE && (c.e - 1) / BLOCK_SIZE <= Last(s, c.h) < |s.used|
      && match c
         case ReadBase(i, e, h, f, nf) => f == Slot(s.headers[h], nf) && (e - 1) / BLOCK_SIZE <= nf <= Last(s, h)
         case ReadBlock(i, e, h, slot) => slot == Slot(s.headers[h], i / BLOCK_SIZE)
         case Take(i, e, h, slot, b, p) =>
           slot == Slot(s.headers[h], i / BLOCK_SIZE) && b == s.used[i / BLOCK_SIZE] && i <= p < BlockEnd(i, e)
         case SetEmpty(i, e, h, slot, b, q) =>
           slot == Slot(s.headers[h], i / BLOCK_SIZE) && b == s.used[i / BLOCK_SIZE] && i < q <= BlockEnd(i, e)
         case _ => true
  }

  ghost predicate ConsOk(s: State, t: Tid) {
    t < |s.cons| ==> Resolves(s, s.cons[t]) && (s.cons[t].LoadHeader? ==> s.cons[t].i < s.cons[t].e <= s.tail)
  }

  ghost predicate HeaderOk(s: State, h: nat) {
    h < |s.headers| ==>
      && s.headers[h].bits <= MAX_BITS && 0 <= Low(s, h) && Last(s, h) < |s.used|
      && Last(s, h) < Low(s, h) + Size(s.headers[h])
      && (Last(s, h) >= 0 ==> s.headers[h].front == Slot(s.headers[h], Last(s, h)))
  }

  ghost predicate EntryOk(s: State, h: nat, b: int) {
    h < |s.headers| && 0 <= Low(s, h) <= b <= Last(s, h) < |s.used| ==>
      s.headers[h].entries(Slot(s.headers[h], b)) == Entry(Reduce(b * BLOCK_SIZE), s.used[b])
  }

  ghost predicate Inv(s: State) {
    && Shape(s)
    && (forall n: int {:trigger Ring(s, n)} :: Ring(s, n))
    && (forall b: int, o: nat {:trigger FlagOk(s, b, o)} :: FlagOk(s, b, o))
    && (forall x: nat {:trigger IndexOk(s, x)} :: IndexOk(s, x))
    && (forall t: Tid, x: nat {:trigger OwnOk(s, t, x)} :: OwnOk(s, t, x))
    && (forall t: Tid {:trigger ConsOk(s, t)} :: ConsOk(s, t))
    && (forall h: nat {:trigger HeaderOk(s, h)} :: HeaderOk(s, h))
    && (forall h: nat, b: int {:trigger EntryOk(s, h, b)} :: EntryOk(s, h, b))
  }

  /** Blocks, links and index headers are untouched. */
  ghost predicate SameIndex(s: State, s': State) {
    s'.headers == s.headers && s'.used == s.used && s'.slots == s.slots && s'.pub == s.pub && s'.next == s.next
  }

  lemma IndexKept(s: State, s': State)
    requires Inv(s) && SameIndex(s, s')
    ensures forall n: int {:trigger Ring(s', n)} :: Ring(s', n)
    ensures forall h: nat {:trigger HeaderOk(s', h)} :: HeaderOk(s', h)
    ensures forall h: nat, b: int {:trigger EntryOk(s', h, b)} :: EntryOk(s', h, b)
  {
    forall n: int ensures Ring(s', n) { assert Ring(s, n); }
    forall h: nat ensures HeaderOk(s', h) { assert HeaderOk(s, h); }
    forall h: nat, b: int ensures EntryOk(s', h, b) { assert EntryOk(s, h, b); }
  }

  lemma ResolvesKept(s: State, s': State, c: Consumer)
    requires Resolves(s, c) && SameIndex(s, s') && s.tail <= s'.tail
    ensures Resolves(s', c)
  {}

  /** Consumers other than t keep what they have. */
  lemma OthersKept(s: State, s': State, t: Tid)
    requires Inv(s) && SameIndex(s, s') && s.tail <= s'.tail
    requires t < |s.cons| == |s'.cons| && s'.cons == s.cons[t := s'.cons[t]]
    requires Resolves(s', s'.cons[t]) && (s'.cons[t].LoadHeader? ==> s'.cons[t].i < s'.cons[t].e <= s'.tail)
    ensures forall u: Tid {:trigger ConsOk(s', u)} :: ConsOk(s', u)
  {
    forall u: Tid ensures ConsOk(s', u) {
      assert ConsOk(s, u);
      if u != t && u < |s.cons| { ResolvesKept(s, s', s.cons[u]); }
    }
  }

  lemma FlagsKept(s: State, s': State)
    requires Inv(s) && s'.used == s.used && s'.slots == s.slots && s'.flags == s.flags
    requires forall x: nat :: s'.fate(x).Emptied? == s.fate(x).Emptied?
    ensures forall b: int, o: nat {:trigger FlagOk(s', b, o)} :: FlagOk(s', b, o)
  {
    forall b: int, o: nat ensures FlagOk(s', b, o) { assert FlagOk(s, b, o); }
  }

  /** Nothing but the producer's program counter changes. */
  lemma ProdOnly(s: State, p: Producer)
    requires Inv(s) && ProdOk(s.(prod := p))
    ensures Inv(s.(prod := p))
  {
    var s' := s.(prod := p);
    IndexKept(s, s');
    FlagsKept(s, s');
    forall x: nat ensures IndexOk(s', x) { assert IndexOk(s, x); }
    forall t: Tid, x: nat ensures OwnOk(s', t, x) { assert OwnOk(s, t, x); }
    forall t: Tid ensures ConsOk(s', t) { assert ConsOk(s, t); }
  }

  /** Consumer t moves on, owing the same indices; it may have moved an element out. */
  lemma ConsOnly(s: State, t: Tid, c: Consumer, out: seq<(nat, Value)>)
    requires Inv(s) && t < |s.cons|
    requires forall x: nat {:trigger Pending(c, x)} :: Pending(c, x) == Pending(s.cons[t], x)
    requires Resolves(s, c) && (c.LoadHeader? ==> c.i < c.e <= s.tail)
    requires forall k | 0 <= k < |out| :: out[k].0 < |s.values| && out[k].1 == s.values[out[k].0]
    ensures Inv(s.(cons := s.cons[t := c], out := out))
  {
    var s' := s.(cons := s.cons[t := c], out := out);
    IndexKept(s, s');
    FlagsKept(s, s');
    forall x: nat ensures IndexOk(s', x) { assert IndexOk(s, x); assert Pending(c, x) == Pending(s.cons[t], x); }
    forall u: Tid, x: nat ensures OwnOk(s', u, x) { assert OwnOk(s, u, x); }
    OthersKept(s, s', t);
  }

  // ---------------------------------------------------------------- consumer steps

  lemma StepLoadHeader(s: State, t: Tid)
    requires Inv(s) && t < |s.cons| && s.cons[t].LoadHeader?
    ensures Inv(ConsumeStep(s, t))
  {
    assert ConsOk(s, t);
    var c := s.cons[t];
    assert OwnOk(s, t, c.i) && IndexOk(s, c.i) && HeaderOk(s, Cur(s));
    ConsOnly(s, t, LoadFront(c.i, c.e, Cur(s)), s.out);
  }

  lemma StepLoadFront(s: State, t: Tid)
    requires Inv(s) && t < |s.cons| && s.cons[t].LoadFront?
    ensures s.cons[t].h < |s.headers| && Inv(ConsumeStep(s, t))
  {
    assert ConsOk(s, t);
    var c := s.cons[t];
    assert HeaderOk(s, c.h);
    ConsOnly(s, t, ReadBase(c.i, c.e, c.h, s.headers[c.h].front, Abs(Last(s, c.h))), s.out);
  }

  lemma StepReadBase(s: State, t: Tid)
    requires Inv(s) && t < |s.cons| && s.cons[t].ReadBase?
    ensures s.cons[t].h < |s.headers| && Inv(ConsumeStep(s, t))
  {
    assert ConsOk(s, t);
    var c := s.cons[t];
    var to := ReadBlock(c.i, c.e, c.h, Slot(s.headers[c.h], c.i / BLOCK_SIZE));
    BaseRead(s, t, c, to);
    ConsOnly(s, t, to, s.out);
  }

  lemma BaseRead(s: State, t: Tid, c: Consumer, to: Consumer)
    requires Inv(s) && t < |s.cons| && c == s.cons[t] && c.ReadBase? && Resolves(s, c)
    requires to == ReadBlock(c.i, c.e, c.h, Slot(s.headers[c.h], c.i / BLOCK_SIZE))
    ensures ConsumeStep(s, t) == s.(cons := s.cons[t := to], out := s.out)
  {
    assert HeaderOk(s, c.h) && EntryOk(s, c.h, c.nf);
    SlotFromBase(s, c);
  }

  lemma SlotFromBase(s: State, c: Consumer)
    requires c.ReadBase? && Resolves(s, c) && HeaderOk(s, c.h) && EntryOk(s, c.h, c.nf)
    ensures var h := s.headers[c.h];
            SlotAt(c.f, Offset(c.i, h.entries(c.f).base), Size(h)) == Slot(h, c.i / BLOCK_SIZE)
  {
    var h := s.headers[c.h];
    SlotForExact(c.i, h.origin, c.nf, h.bits, c.f);
  }

  lemma StepReadBlock(s: State, t: Tid)
    requires Inv(s) && t < |s.cons| && s.cons[t].ReadBlock?
    ensures s.cons[t].h < |s.headers| && Inv(ConsumeStep(s, t))
  {
    assert ConsOk(s, t);
    var c := s.cons[t];
    assert HeaderOk(s, c.h) && EntryOk(s, c.h, c.i / BLOCK_SIZE);
    ConsOnly(s, t, Take(c.i, c.e, c.h, c.slot, s.used[c.i / BLOCK_SIZE], c.i), s.out);
  }

  lemma StepTake(s: State, t: Tid)
    requires Inv(s) && t < |s.cons| && s.cons[t].Take?
    ensures s.cons[t].h < |s.headers| && Inv(ConsumeStep(s, t))
  {
    assert ConsOk(s, t);
    var c, s' := s.cons[t], ConsumeStep(s, t);
    assert OwnOk(s, t, c.p) && IndexOk(s, c.p);
    assert c.p / BLOCK_SIZE == c.i / BLOCK_SIZE;
    ConsOnly(s, t, s'.cons[t], s'.out);
  }

  /** Index y, pending at consumer t and in block number bn, is marked empty. */
  lemma MarkFlags(s: State, s': State, t: Tid, bn: nat, y: nat)
    requires Inv(s) && s'.used == s.used && s'.slots == s.slots
    requires bn == y / BLOCK_SIZE && 0 <= Lo(s) <= bn < |s.used|
    requires s'.flags == Set2(s.flags, s.used[bn], BLOCK_SIZE - 1 - y % BLOCK_SIZE, true)
    requires s'.fate == Set(s.fate, y, Emptied)
    ensures forall b: int, o: nat {:trigger FlagOk(s', b, o)} :: FlagOk(s', b, o)
  {
    forall b: int, o: nat ensures FlagOk(s', b, o) {
      assert FlagOk(s, b, o) && Ring(s, b) && Ring(s, bn);
    }
  }

  /** After the flag of q - 1 the consumer goes on with q - 2, with the next block, or is done. */
  lemma SetEmptyNext(s: State, c: Consumer, c': Consumer)
    requires c.SetEmpty? && Resolves(s, c) && s.headers != []
    requires c' == if c.q - 1 > c.i then c.(q := c.q - 1)
                   else if BlockEnd(c.i, c.e) == c.e then Idle
                   else ReadBlock(BlockEnd(c.i, c.e), c.e, c.h, (c.slot + 1) % Size(s.headers[c.h]))
    ensures Resolves(s, c')
    ensures forall x: nat {:trigger Pending(c', x)} :: Pending(c', x) <==> Pending(c, x) && x != c.q - 1
  {
    if c'.ReadBlock? {
      ModPlus(c.i / BLOCK_SIZE - s.headers[c.h].origin, 1, Size(s.headers[c.h]));
    }
  }

  lemma MarkIndices(s: State, s': State, t: Tid, y: nat)
    requires Inv(s) && SameIndex(s, s') && s'.tail == s.tail && s'.head == s.head && s'.values == s.values
    requires s'.cells == s.cells
    requires t < |s.cons| == |s'.cons| && s'.cons == s.cons[t := s'.cons[t]] && s.fate(y) == Claimed(t)
    requires s'.fate == Set(s.fate, y, Emptied)
    requires forall x: nat {:trigger Pending(s'.cons[t], x)} ::
            Pending(s'.cons[t], x) <==> Pending(s.cons[t], x) && x != y
    ensures forall x: nat {:trigger IndexOk(s', x)} :: IndexOk(s', x)
    ensures forall u: Tid, x: nat {:trigger OwnOk(s', u, x)} :: OwnOk(s', u, x)
  {
    forall x: nat ensures IndexOk(s', x) { assert IndexOk(s, x); }
    forall u: Tid, x: nat ensures OwnOk(s', u, x) { assert OwnOk(s, u, x); }
  }

  lemma ShapeKept(s: State, s': State)
    requires Shape(s) && SameIndex(s, s') && s'.tail == s.tail && s'.head == s.head && s'.values == s.values
    requires s'.out == s.out
    requires s'.prFront == s.prFront && s'.prod == s.prod && s'.tailBlock == s.tailBlock && s'.cells == s.cells
    requires forall b, o :: s.flags(b)(o) ==> s'.flags(b)(o)
    ensures Shape(s')
  {}

  /** The flag about to be set is clear, as the code asserts, and belongs to an index this consumer owes. */
  lemma SetEmptyOwed(s: State, t: Tid)
    requires Inv(s) && t < |s.cons| && s.cons[t].SetEmpty?
    ensures Resolves(s, s.cons[t])
    ensures 0 <= Lo(s) <= s.cons[t].i / BLOCK_SIZE == (s.cons[t].q - 1) / BLOCK_SIZE < |s.used|
    ensures s.fate(s.cons[t].q - 1) == Claimed(t)
    ensures !s.flags(s.cons[t].block)(BLOCK_SIZE - 1 - (s.cons[t].q - 1) % BLOCK_SIZE)
  {
    assert ConsOk(s, t);
    var c := s.cons[t];
    var y, bn := c.q - 1, c.i / BLOCK_SIZE;
    assert y / BLOCK_SIZE == bn;
    assert OwnOk(s, t, y) && IndexOk(s, y) && FlagOk(s, bn, y % BLOCK_SIZE);
  }

  lemma StepSetEmpty(s: State, t: Tid)
    requires Inv(s) && t < |s.cons| && s.cons[t].SetEmpty?
    ensures s.cons[t].h < |s.headers| && Inv(ConsumeStep(s, t))
  {
    SetEmptyMarks(s, t);
    var s' := ConsumeStep(s, t);
    ShapeKept(s, s');
    IndexKept(s, s');
    OthersKept(s, s', t);
  }

  /** What the step does to flags and indices, and where it leaves the consumer. */
  lemma SetEmptyMarks(s: State, t: Tid)
    requires Inv(s) && t < |s.cons| && s.cons[t].SetEmpty?
    ensures s.cons[t].h < |s.headers|
    ensures var s' := ConsumeStep(s, t);
            && (forall b: int, o: nat {:trigger FlagOk(s', b, o)} :: FlagOk(s', b, o))
            && (forall x: nat {:trigger IndexOk(s', x)} :: IndexOk(s', x))
            && (forall u: Tid, x: nat {:trigger OwnOk(s', u, x)} :: OwnOk(s', u, x))
            && Resolves(s', s'.cons[t])
  {
    SetEmptyOwed(s, t);
    var c, s' := s.cons[t], ConsumeStep(s, t);
    SetEmptyNext(s, c, s'.cons[t]);
    ResolvesKept(s, s', s'.cons[t]);
    MarkFlags(s, s', t, c.i / BLOCK_SIZE, c.q - 1);
    MarkIndices(s, s', t, c.q - 1);
  }

  lemma StepConsume(s: State, t: Tid)
    requires Inv(s) && Enabled(s, Consume(t))
    ensures Inv(ConsumeStep(s, t))
  {
    match s.cons[t]
    case Idle =>
    case LoadHeader(_, _) => StepLoadHeader(s, t);
    case LoadFront(_, _, _) => StepLoadFront(s, t);
    case ReadBase(_, _, _, _, _) => StepReadBase(s, t);
    case ReadBlock(_, _, _, _) => StepReadBlock(s, t);
    case Take(_, _, _, _, _, _) => StepTake(s, t);
    case SetEmpty(_, _, _, _, _, _) => StepSetEmpty(s, t);
  }

  lemma StepClaim(s: State, t: Tid, k: nat)
    requires Inv(s) && Enabled(s, Claim(t, k))
    ensures Inv(Do(s, Claim(t, k)))
  {
    var s' := Do(s, Claim(t, k));
    ClaimIndices(s, t, k);
    IndexKept(s, s');
    FlagsKept(s, s');
    forall u: Tid ensures ConsOk(s', u) { assert ConsOk(s, u); }
  }

  lemma ClaimIndices(s: State, t: Tid, k: nat)
    requires Inv(s) && Enabled(s, Claim(t, k))
    ensures forall x: nat :: ClaimStep(s, t, k).fate(x).Emptied? == s.fate(x).Emptied?
    ensures forall x: nat {:trigger IndexOk(ClaimStep(s, t, k), x)} :: IndexOk(ClaimStep(s, t, k), x)
    ensures forall u: Tid, x: nat {:trigger OwnOk(ClaimStep(s, t, k), u, x)} :: OwnOk(ClaimStep(s, t, k), u, x)
  {
    var s' := ClaimStep(s, t, k);
    forall x: nat ensures s'.fate(x).Emptied? == s.fate(x).Emptied? { assert IndexOk(s, x); }
    forall x: nat ensures IndexOk(s', x) { assert IndexOk(s, x); }
    forall u: Tid, x: nat ensures OwnOk(s', u, x) { assert OwnOk(s, u, x) && IndexOk(s, x); }
  }

  // ---------------------------------------------------------------- producer steps

  /** Once every flag of the oldest block is set, no index in it is still wanted. */
  lemma OldestSpent(s: State, b: Block, x: nat)
    requires Inv(s) && s.slots > 0 && b == s.used[Lo(s)] && (forall o: nat | o < BLOCK_SIZE :: s.flags(b)(o))
    requires x / BLOCK_SIZE == Lo(s)
    ensures s.fate(x).Emptied?
  {
    assert FlagOk(s, Lo(s), x % BLOCK_SIZE);
  }

  /** A consumer's first owed index is still owed. */
  lemma FirstOwed(s: State, t: Tid)
    requires Inv(s) && t < |s.cons| && HasHeader(s.cons[t])
    ensures s.fate(s.cons[t].i) == Claimed(t)
  {
    assert ConsOk(s, t) && OwnOk(s, t, s.cons[t].i);
  }

  /** A block number is added, its flags clear; nothing an owed index needs is dropped. */
  lemma Appended(s: State, s': State, b: Block)
    requires Inv(s) && s.tail == |s.used| * BLOCK_SIZE && s.pub == |s.used|
    requires s'.used == s.used + [b] && s'.headers == s.headers && s'.pub == s.pub && s'.cells == s.cells
    requires s'.fate == s.fate
    requires s'.tail == s.tail && s'.head == s.head && s'.values == s.values && s'.cons == s.cons
    requires s'.flags == Set(s.flags, b, (_: nat) => false)
    requires 0 <= Lo(s) <= Lo(s') <= |s.used|
    // what leaves the ring, and every other number of block b, is spent
    requires forall x: nat | Lo(s) <= x / BLOCK_SIZE < Lo(s') && x < s.tail :: s.fate(x).Emptied?
    requires forall n | Lo(s') <= n < |s.used| :: s.used[n] != b
    ensures forall n: int, o: nat {:trigger FlagOk(s', n, o)} :: FlagOk(s', n, o)
    ensures forall x: nat {:trigger IndexOk(s', x)} :: IndexOk(s', x)
    ensures forall t: Tid, x: nat {:trigger OwnOk(s', t, x)} :: OwnOk(s', t, x)
    ensures forall t: Tid {:trigger ConsOk(s', t)} :: ConsOk(s', t)
  {
    forall n: int, o: nat ensures FlagOk(s', n, o) {
      assert FlagOk(s, n, o);
      if n == |s.used| { assert IndexOk(s, n * BLOCK_SIZE + o); }
    }
    forall x: nat ensures IndexOk(s', x) { assert IndexOk(s, x); }
    forall t: Tid, x: nat ensures OwnOk(s', t, x) { assert OwnOk(s, t, x); }
    forall t: Tid ensures ConsOk(s', t) {
      assert ConsOk(s, t);
      if t < |s.cons| && HasHeader(s.cons[t]) { FirstOwed(s, t); assert IndexOk(s, s.cons[t].i); }
    }
  }

  lemma AppendedHeaders(s: State, s': State, b: Block)
    requires Inv(s) && s'.used == s.used + [b] && s'.headers == s.headers && s'.pub == s.pub
    requires 0 <= Lo(s) <= Lo(s')
    ensures forall h: nat {:trigger HeaderOk(s', h)} :: HeaderOk(s', h)
    ensures forall h: nat, n: int {:trigger EntryOk(s', h, n)} :: EntryOk(s', h, n)
  {
    forall h: nat ensures HeaderOk(s', h) { assert HeaderOk(s, h); }
    forall h: nat, n: int ensures EntryOk(s', h, n) { assert EntryOk(s, h, n) && HeaderOk(s, h); }
  }

  lemma StepReuse(s: State)
    requires Inv(s) && s.prod.PScan? && s.prod.j + 1 == BLOCK_SIZE && s.flags(s.next(s.tailBlock))(s.prod.j)
    ensures Inv(ProduceStep(s))
  {
    var s' := ProduceStep(s);
    var b := s'.tailBlock;
    assert Ring(s, |s.used| - 1) && Ring(s, Lo(s));
    assert b == s.used[Lo(s)];
    forall x: nat | Lo(s) <= x / BLOCK_SIZE < Lo(s') && x < s.tail ensures s.fate(x).Emptied? { OldestSpent(s, b, x); }
    forall n: int ensures Ring(s', n) {
      assert Ring(s, n);
    }
    Appended(s, s', b);
    AppendedHeaders(s, s', b);
  }

  lemma StepLink(s: State, b: Block)
    requires Inv(s) && Enabled(s, Requisition(b))
    ensures Inv(Link(s, b))
  {
    var s' := Link(s, b);
    if s.slots > 0 { assert Ring(s, |s.used| - 1); }
    assert forall n | Lo(s) <= n < |s.used| :: s.used[n] != b;
    forall n: int ensures Ring(s', n) {
      assert Ring(s, n);
    }
    Appended(s, s', b);
    AppendedHeaders(s, s', b);
  }

  /** Only index headers, their publication, and the producer's counters change. */
  ghost predicate SameBlocks(s: State, s': State) {
    && s'.used == s.used && s'.slots == s.slots && s'.next == s.next && s'.flags == s.flags && s'.fate == s.fate
    && s'.cells == s.cells
    && s'.tail == s.tail && s'.head == s.head && s'.values == s.values && s'.cons == s.cons && s'.out == s.out
    && s'.tailBlock == s.tailBlock
  }

  lemma BlocksKept(s: State, s': State)
    requires Inv(s) && SameBlocks(s, s')
    ensures forall n: int {:trigger Ring(s', n)} :: Ring(s', n)
    ensures forall b: int, o: nat {:trigger FlagOk(s', b, o)} :: FlagOk(s', b, o)
    ensures forall x: nat {:trigger IndexOk(s', x)} :: IndexOk(s', x)
    ensures forall t: Tid, x: nat {:trigger OwnOk(s', t, x)} :: OwnOk(s', t, x)
  {
    forall n: int ensures Ring(s', n) { assert Ring(s, n); }
    FlagsKept(s, s');
    forall x: nat ensures IndexOk(s', x) { assert IndexOk(s, x); }
    forall t: Tid, x: nat ensures OwnOk(s', t, x) { assert OwnOk(s, t, x); }
  }

  /** Every old header keeps its size and origin and resolves at least what it did. */
  lemma ConsumersKept(s: State, s': State)
    requires Inv(s) && SameBlocks(s, s') && |s.headers| <= |s'.headers|
    requires forall h | 0 <= h < |s.headers| ::
      s'.headers[h].bits == s.headers[h].bits && s'.headers[h].origin == s.headers[h].origin
      && Low(s', h) == Low(s, h) && Last(s, h) <= Last(s', h) < |s.used|
    ensures forall t: Tid {:trigger ConsOk(s', t)} :: ConsOk(s', t)
  {
    forall t: Tid ensures ConsOk(s', t) { assert ConsOk(s, t); }
  }

  /** The copied entries are in the new slots of their numbers. */
  lemma GrownEntry(h: Header, pub: nat, prFront: nat, slots: nat, lo: int, b: int)
    requires prFront == Slot(h, pub) && pub == lo + slots && slots <= Size(h) && lo <= b < pub
    ensures Slot(Grown(h, prFront, slots, lo), b) == b - lo
    ensures Grown(h, prFront, slots, lo).entries(b - lo) == h.entries(Slot(h, b))
  {
    ModUnique(b - lo, 0, b - lo, 2 * Size(h));
    ModPlus(pub - h.origin, b - pub, Size(h));
    assert prFront - slots + (b - lo) == (pub - h.origin) % Size(h) + (b - pub);
  }

  lemma GrownHeader(s: State)
    requires Inv(s) && s.slots == Size(s.headers[Cur(s)]) && s.headers[Cur(s)].bits < MAX_BITS && s.pub == |s.used|
    ensures var g := Grown(s.headers[Cur(s)], s.prFront, s.slots, Lo(s));
            g.front == Slot(g, s.pub - 1) && s.slots == Slot(g, s.pub) && s.pub - 1 < Lo(s) + Size(g)
  {
    var h := s.headers[Cur(s)];
    GrownEntry(h, s.pub, s.prFront, s.slots, Lo(s), s.pub - 1);
    assert s.slots < WORD by { MaxSize(h.bits); }
    ModUnique(s.slots - 1, 0, s.slots - 1, WORD);
    ModUnique(s.slots, 0, s.slots, 2 * Size(h));
  }

  lemma GrownEntries(s: State, s': State)
    requires Inv(s) && s.slots == Size(s.headers[Cur(s)]) && s.pub == |s.used| && s'.used == s.used
    requires s'.slots == s.slots && s'.pub == s.pub
    requires s'.headers == s.headers[Cur(s) := s.headers[Cur(s)].(low := Lo(s), last := s.pub - 1)]
                           + [Grown(s.headers[Cur(s)], s.prFront, s.slots, Lo(s))]
    ensures forall h: nat, b: int {:trigger EntryOk(s', h, b)} :: EntryOk(s', h, b)
  {
    var c := Cur(s);
    forall h: nat, b: int ensures EntryOk(s', h, b) {
      assert EntryOk(s, h, b) && EntryOk(s, c, b);
      if h == c + 1 && Lo(s) <= b < s.pub { GrownEntry(s.headers[c], s.pub, s.prFront, s.slots, Lo(s), b); }
    }
  }

  lemma GrownHeaders(s: State, s': State)
    requires Inv(s) && s.slots == Size(s.headers[Cur(s)]) && s.headers[Cur(s)].bits < MAX_BITS && s.pub == |s.used|
    requires s'.used == s.used && s'.slots == s.slots && s'.pub == s.pub
    requires s'.headers == s.headers[Cur(s) := s.headers[Cur(s)].(low := Lo(s), last := s.pub - 1)]
                           + [Grown(s.headers[Cur(s)], s.prFront, s.slots, Lo(s))]
    ensures forall h: nat {:trigger HeaderOk(s', h)} :: HeaderOk(s', h)
    ensures forall h: nat | h < |s.headers| :: Low(s', h) == Low(s, h) && Last(s', h) == Last(s, h) < |s.used|
  {
    GrownHeader(s);
    forall h: nat
      ensures HeaderOk(s', h) && (h < |s.headers| ==> Low(s', h) == Low(s, h) && Last(s', h) == Last(s, h) < |s.used|)
    {
      assert HeaderOk(s, h);
    }
  }

  lemma StepGrow(s: State)
    requires Inv(s) && s.prod.PFresh? && |ProduceStep(s).headers| > |s.headers|
    ensures Inv(ProduceStep(s))
  {
    var s' := ProduceStep(s);
    GrownHeader(s);
    GrownHeaders(s, s');
    GrownEntries(s, s');
    BlocksKept(s, s');
    ConsumersKept(s, s');
  }

  /** Writing the entry of the number being added disturbs no number still in the ring. */
  lemma EntryWritten(s: State, s': State, entry: Entry)
    requires Inv(s) && s.pub + 1 == |s.used|
    requires s'.headers == s.headers[Cur(s) :=
            s.headers[Cur(s)].(entries := Set(s.headers[Cur(s)].entries, s.prFront, entry))]
    requires s' == s.(headers := s'.headers, prod := s'.prod) && ProdOk(s')
    ensures Inv(s')
  {
    var c := Cur(s);
    BlocksKept(s, s');
    forall h: nat | h < |s.headers|
      ensures Low(s', h) == Low(s, h) && Last(s, h) <= Last(s', h) < |s.used|
    {
      assert HeaderOk(s, h);
    }
    ConsumersKept(s, s');
    forall h: nat ensures HeaderOk(s', h) { assert HeaderOk(s, h); }
    forall h: nat, b: int ensures EntryOk(s', h, b) {
      assert EntryOk(s, h, b);
      if h == c && Lo(s) <= b < s.pub {
        ModDistinct(s.pub - s.headers[c].origin, b - s.headers[c].origin, Size(s.headers[c]));
      }
    }
  }

  lemma StepFront(s: State)
    requires Inv(s) && s.prod.PFront?
    ensures Inv(ProduceStep(s))
  {
    var s' := ProduceStep(s);
    FrontShape(s);
    BlocksKept(s, s');
    forall h: nat | h < |s.headers|
      ensures Low(s', h) == Low(s, h) && Last(s, h) <= Last(s', h) < |s.used|
    {
      FrontHeader(s, h);
    }
    ConsumersKept(s, s');
    forall h: nat ensures HeaderOk(s', h) { if h < |s.headers| { FrontHeader(s, h); } }
    forall h: nat, b: int ensures EntryOk(s', h, b) { if h < |s.headers| { FrontEntry(s, h, b); } }
  }

  lemma FrontShape(s: State)
    requires Inv(s) && s.prod.PFront?
    ensures Shape(ProduceStep(s))
  {
    var cur := s.headers[Cur(s)];
    ModPlus(s.pub - cur.origin, 1, Size(cur));
  }

  /** The published front moves on by one block. */
  lemma FrontHeader(s: State, h: nat)
    requires Inv(s) && s.prod.PFront? && h < |s.headers|
    ensures var s' := ProduceStep(s);
            && HeaderOk(s', h) && h < |s'.headers| && Low(s', h) == Low(s, h)
            && Last(s, h) <= Last(s', h) < |s.used|
  {
    var c := Cur(s);
    assert HeaderOk(s, h);
    ModPlus(s.pub - s.headers[c].origin, 1, Size(s.headers[c]));
  }

  lemma FrontEntry(s: State, h: nat, b: int)
    requires Inv(s) && s.prod.PFront? && h < |s.headers|
    ensures EntryOk(ProduceStep(s), h, b)
  {
    assert HeaderOk(s, h) && EntryOk(s, h, b);
  }

  lemma StepCell(s: State)
    requires Inv(s) && s.prod.PCell?
    ensures Inv(ProduceStep(s))
  {
    var s', n := ProduceStep(s), |s.used| - 1;
    assert s.tail / BLOCK_SIZE == n;
    IndexKept(s, s');
    FlagsKept(s, s');
    forall x: nat ensures IndexOk(s', x) { assert IndexOk(s, x) && Ring(s, x / BLOCK_SIZE); }
    forall t: Tid, x: nat ensures OwnOk(s', t, x) { assert OwnOk(s, t, x); }
    forall t: Tid ensures ConsOk(s', t) {
      assert ConsOk(s, t);
      if t < |s.cons| { ResolvesKept(s, s', s.cons[t]); }
    }
  }

  lemma StepPublish(s: State)
    requires Inv(s) && s.prod.PPublish?
    ensures Inv(ProduceStep(s))
  {
    var s' := ProduceStep(s);
    assert s.tail / BLOCK_SIZE == |s.used| - 1;
    IndexKept(s, s');
    FlagsKept(s, s');
    forall x: nat ensures IndexOk(s', x) { assert IndexOk(s, x); }
    forall t: Tid, x: nat ensures OwnOk(s', t, x) { assert OwnOk(s, t, x); }
    forall t: Tid ensures ConsOk(s', t) {
      assert ConsOk(s, t);
      if t < |s.cons| { ResolvesKept(s, s', s.cons[t]); }
    }
  }

  lemma StepProduce(s: State)
    requires Inv(s)
    ensures Inv(ProduceStep(s))
  {
    var s', cur := ProduceStep(s), s.headers[Cur(s)];
    match s.prod
    case PIdle =>
    case PLink(_) =>
    case PScan(v, j) =>
      if s.flags(s.next(s.tailBlock))(j) && j + 1 == BLOCK_SIZE { StepReuse(s); } else { ProdOnly(s, s'.prod); }
    case PFresh(v) =>
      if |s'.headers| > |s.headers| { StepGrow(s); } else { ProdOnly(s, s'.prod); }
    case PBase(v) => EntryWritten(s, s', cur.entries(s.prFront).(base := Reduce(s.tail)));
    case PBlock(v) => EntryWritten(s, s', cur.entries(s.prFront).(block := s.tailBlock));
    case PFront(v) => StepFront(s);
    case PCell(v) => StepCell(s);
    case PPublish(v) => StepPublish(s);
  }

  lemma StepDo(s: State, act: Action)
    requires Inv(s) && Enabled(s, act)
    ensures Inv(Do(s, act))
  {
    match act
    case Offer(v) => ProdOnly(s, Do(s, act).prod);
    case Produce => StepProduce(s);
    case Requisition(b) => StepLink(s, b);
    case GiveUp => ProdOnly(s, PIdle);
    case Claim(t, k) => StepClaim(s, t, k);
    case Consume(t) => StepConsume(s, t);
  }

  lemma {:induction false} RunKeepsInv(s: State, acts: seq<Action>, z: State)
    requires Inv(s) && Reaches(s, acts, z)
    ensures Inv(z)
    decreases |acts|
  {
    if acts != [] {
      StepDo(s, acts[0]);
      RunKeepsInv(Do(s, acts[0]), acts[1..], z);
    }
  }

  lemma InitInv(s: State)
    requires Init(s)
    ensures Inv(s)
  {
    ModUnique(0, 0, 0, Size(s.headers[0]));
    forall t: Tid ensures ConsOk(s, t) {}
    forall h: nat ensures HeaderOk(s, h) {}
  }

  // ---------------------------------------------------------------- moved out once

  /** The consumer has yet to move x out. */
  predicate ToCome(c: Consumer, x: nat) {
    match c
    case Idle => false
    case Take(i, e, _, _, _, p) => p <= x < e
    case SetEmpty(i, e, _, _, _, _) => BlockEnd(i, e) <= x < e
    case _ => c.i <= x < c.e
  }

  ghost predicate MovedOut(s: State, x: nat) { exists k :: 0 <= k < |s.out| && s.out[k].0 == x }

  /** An index is claimed and to come, or moved out, never both. */
  ghost predicate OutOk(s: State, x: nat) {
    && (s.fate(x).Unclaimed? ==> !MovedOut(s, x))
    && (s.fate(x).Claimed? ==> s.fate(x).t < |s.cons| && (MovedOut(s, x) <==> !ToCome(s.cons[s.fate(x).t], x)))
    && (s.fate(x).Emptied? ==> MovedOut(s, x))
  }

  ghost predicate Once(s: State) {
    && (forall x: nat {:trigger OutOk(s, x)} :: OutOk(s, x))
    && (forall j, k | 0 <= j < k < |s.out| :: s.out[j].0 != s.out[k].0)
  }

  lemma ToComePending(s: State, t: Tid, x: nat)
    requires Inv(s) && t < |s.cons| && ToCome(s.cons[t], x)
    ensures s.fate(x) == Claimed(t)
  {
    assert OwnOk(s, t, x) && ConsOk(s, t);
  }

  lemma TakeOnce(s: State, t: Tid)
    requires Inv(s) && Once(s) && t < |s.cons| && s.cons[t].Take? && s.cons[t].h < |s.headers| && s.headers != []
    ensures Once(ConsumeStep(s, t))
  {
    var c, s' := s.cons[t], ConsumeStep(s, t);
    assert ConsOk(s, t);
    ToComePending(s, t, c.p);
    assert OutOk(s, c.p);
    assert s'.out[|s.out|].0 == c.p;
    forall x: nat ensures OutOk(s', x) {
      assert OutOk(s, x) && OwnOk(s, t, x);
      if MovedOut(s, x) {
        var k :| 0 <= k < |s.out| && s.out[k].0 == x;
        assert s'.out[k].0 == x;
      }
      assert MovedOut(s', x) <==> MovedOut(s, x) || x == c.p;
    }
  }

  lemma ConsumeOnce(s: State, t: Tid)
    requires Inv(s) && Once(s) && Enabled(s, Consume(t)) && !s.cons[t].Take?
    ensures Once(ConsumeStep(s, t))
  {
    var c, s' := s.cons[t], ConsumeStep(s, t);
    assert ConsOk(s, t);
    if c.SetEmpty? { SetEmptyOwed(s, t); }
    forall x: nat ensures OutOk(s', x) { assert OutOk(s, x) && OwnOk(s, t, x) && MovedOut(s', x) == MovedOut(s, x); }
  }

  lemma StepOnce(s: State, act: Action)
    requires Inv(s) && Once(s) && Enabled(s, act)
    ensures Once(Do(s, act))
  {
    if act.Consume? {
      if s.cons[act.t].Take? { TakeOnce(s, act.t); } else { ConsumeOnce(s, act.t); }
    } else if act.Claim? {
      ClaimOnce(s, act.t, act.k);
    } else {
      ProducerOnce(s, Do(s, act));
    }
  }

  lemma ClaimOnce(s: State, t: Tid, k: nat)
    requires Inv(s) && Once(s) && Enabled(s, Claim(t, k))
    ensures Once(ClaimStep(s, t, k))
  {
    var s' := ClaimStep(s, t, k);
    forall x: nat ensures OutOk(s', x) { assert OutOk(s, x) && IndexOk(s, x) && MovedOut(s', x) == MovedOut(s, x); }
  }

  /** Nothing about consumers changes. */
  lemma ProducerOnce(s: State, s': State)
    requires Once(s) && s'.out == s.out && s'.cons == s.cons && s'.fate == s.fate
    ensures Once(s')
  {
    forall x: nat ensures OutOk(s', x) { assert OutOk(s, x) && MovedOut(s', x) == MovedOut(s, x); }
  }

  lemma {:induction false} RunOnce(s: State, acts: seq<Action>, z: State)
    requires Inv(s) && Once(s) && Reaches(s, acts, z)
    ensures Once(z)
    decreases |acts|
  {
    if acts != [] {
      StepDo(s, acts[0]);
      StepOnce(s, acts[0]);
      RunOnce(Do(s, acts[0]), acts[1..], z);
    }
  }

  // ---------------------------------------------------------------- results

  /** Consumer t holds the very block that index x was written in. */
  predicate RightBlock(s: State, c: Consumer) {
    c.Take? || c.SetEmpty? ==> c.i / BLOCK_SIZE < |s.used| && c.block == s.used[c.i / BLOCK_SIZE]
  }

  /**
   Main theorem: in every reachable state, through reuse, growth and wrap-around of
   the index, every consumer that has resolved an index holds the block the index
   was written in, everything moved out is the element enqueued at that index, and no
   index is moved out twice or, once claimed and no longer owed, not at all.
   */
  lemma EveryLookupRight(s: State, acts: seq<Action>, z: State)
    requires Init(s) && Reaches(s, acts, z)
    ensures forall t | 0 <= t < |z.cons| :: RightBlock(z, z.cons[t])
    ensures forall k | 0 <= k < |z.out| :: z.out[k].0 < |z.values| && z.out[k].1 == z.values[z.out[k].0]
    ensures forall j, k | 0 <= j < k < |z.out| :: z.out[j].0 != z.out[k].0
    ensures forall x: nat | x < z.head :: MovedOut(z, x) || exists t :: 0 <= t < |z.cons| && ToCome(z.cons[t], x)
    ensures z.head <= z.tail == |z.values|
  {
    InitInv(s);
    RunKeepsInv(s, acts, z);
    RunOnce(s, acts, z);
    LookupsRight(z);
  }

  /** What the invariants say of lookups and of what was moved out. */
  lemma LookupsRight(z: State)
    requires Inv(z) && Once(z)
    ensures forall t | 0 <= t < |z.cons| :: RightBlock(z, z.cons[t])
    ensures forall k | 0 <= k < |z.out| :: z.out[k].0 < |z.values| && z.out[k].1 == z.values[z.out[k].0]
    ensures forall j, k | 0 <= j < k < |z.out| :: z.out[j].0 != z.out[k].0
    ensures forall x: nat | x < z.head :: MovedOut(z, x) || exists t :: 0 <= t < |z.cons| && ToCome(z.cons[t], x)
    ensures z.head <= z.tail == |z.values|
  {
    forall x: nat | x < z.head ensures MovedOut(z, x) || exists t :: 0 <= t < |z.cons| && ToCome(z.cons[t], x) {
      assert IndexOk(z, x) && OutOk(z, x);
    }
    forall t | 0 <= t < |z.cons| ensures RightBlock(z, z.cons[t]) { assert ConsOk(z, t); }
  }

  lemma LookupInv(z: State, x: nat)
    requires Inv(z) && x < z.tail && !z.fate(x).Emptied?
    ensures z.headers != [] && x < |z.values| && 0 <= Lo(z) <= x / BLOCK_SIZE < |z.used|
    ensures var h := z.headers[Cur(z)];
            h.entries(SlotAt(h.front, Offset(x, h.entries(h.front).base), Size(h))).block == z.used[x / BLOCK_SIZE]
  {
    var c := Cur(z);
    var h := z.headers[c];
    assert IndexOk(z, x) && HeaderOk(z, c) && EntryOk(z, c, z.pub - 1) && EntryOk(z, c, x / BLOCK_SIZE);
    assert x / BLOCK_SIZE <= z.pub - 1;
    SlotForExact(x, h.origin, z.pub - 1, h.bits, h.front);
  }

  /**
   The lookup of any index enqueued and not yet emptied, from the published front, ends at its own
   block, where its element still is.
   */
  lemma LookupFromFront(s: State, acts: seq<Action>, z: State, x: nat)
    requires Init(s) && Reaches(s, acts, z) && x < z.tail && !z.fate(x).Emptied?
    ensures z.headers != [] && x < |z.values|
    ensures var h := z.headers[Cur(z)];
            var e := h.entries(SlotAt(h.front, Offset(x, h.entries(h.front).base), Size(h)));
            z.cells(e.block)(x % BLOCK_SIZE) == z.values[x]
  {
    InitInv(s);
    RunKeepsInv(s, acts, z);
    LookupInv(z, x);
    assert IndexOk(z, x);
  }

  /** The assertion in set_empty: a flag is set only once per use of the block. */
  lemma FlagsSetOnce(s: State, acts: seq<Action>, z: State, t: Tid)
    requires Init(s) && Reaches(s, acts, z) && t < |z.cons| && z.cons[t].SetEmpty?
    ensures z.cons[t].q > 0 && !z.flags(z.cons[t].block)(BLOCK_SIZE - 1 - (z.cons[t].q - 1) % BLOCK_SIZE)
  {
    InitInv(s);
    RunKeepsInv(s, acts, z);
    SetEmptyOwed(z, t);
  }

  /**
   The producer's leeway test fails, and the enqueue with it, exactly when the queue is within a
   block of half the words.
   */
  lemma LeewayExact(s: State, acts: seq<Action>, z: State)
    requires Init(s) && Reaches(s, acts, z) && z.tail + BLOCK_SIZE - z.head < WORD
    ensures CircularLess(z.head, z.tail + BLOCK_SIZE) <==> z.tail - z.head < HALF - BLOCK_SIZE
  {
    InitInv(s);
    RunKeepsInv(s, acts, z);
    CircularLessExact(z.head, z.tail + BLOCK_SIZE);
  }

  // ---------------------------------------------------------------- an enqueue run to its end

  lemma {:induction false} OneMore(s: State, acts: seq<Action>, z: State, act: Action)
    requires Reaches(s, acts, z) && Enabled(z, act)
    ensures Reaches(s, acts + [act], Do(z, act))
    decreases |acts|
  {
    if acts == [] {
      assert [act][1..] == [];
    } else {
      assert (acts + [act])[1..] == acts[1..] + [act];
      OneMore(Do(s, acts[0]), acts[1..], z, act);
    }
  }

  /** A run of the producer alone. */
  ghost predicate Producing(s: State, acts: seq<Action>, z: State) {
    Reaches(s, acts, z) && forall i | 0 <= i < |acts| :: acts[i].Offer? || acts[i].Produce? || acts[i].Requisition?
  }

  lemma Go(s: State, acts: seq<Action>, m: State, act: Action) returns (acts': seq<Action>, z: State)
    requires Producing(s, acts, m) && Enabled(m, act) && (act.Offer? || act.Produce? || act.Requisition?)
    ensures Producing(s, acts', z) && z == Do(m, act)
  {
    OneMore(s, acts, m, act);
    acts', z := acts + [act], Do(m, act);
  }

  /** What an enqueue leaves alone. */
  ghost predicate Untouched(s: State, z: State) {
    z.headers != [] && z.cons == s.cons && z.head == s.head && z.out == s.out && z.fate == s.fate
  }

  /** The element is written, then published. */
  lemma FinishCell(s: State, acts: seq<Action>, m: State, v: Value) returns (acts': seq<Action>, z: State)
    requires Producing(s, acts, m) && m.headers != [] && m.prod == PCell(v)
    ensures Producing(s, acts', z) && z.prod.PIdle? && Untouched(m, z)
    ensures z.values == m.values + [v] && z.tail == m.tail + 1
  {
    acts', z := Go(s, acts, m, Produce);
    acts', z := Go(s, acts', z, Produce);
  }

  /** The new block's entry is filled in and published first. */
  lemma FinishBlock(s: State, acts: seq<Action>, m: State, v: Value) returns (acts': seq<Action>, z: State)
    requires Producing(s, acts, m) && m.headers != [] && m.prod == PBase(v)
    ensures Producing(s, acts', z) && z.prod.PIdle? && Untouched(m, z)
    ensures z.values == m.values + [v] && z.tail == m.tail + 1
  {
    acts', z := Go(s, acts, m, Produce);
    assert z.prod == PBlock(v);
    acts', z := Go(s, acts', z, Produce);
    assert z.prod == PFront(v);
    acts', z := Go(s, acts', z, Produce);
    assert z.prod == PCell(v);
    acts', z := FinishCell(s, acts', z, v);
  }

  /** The scan of the block ahead ends with the block reused, or with a new one to be found. */
  lemma {:induction false} FinishScan(s: State, acts: seq<Action>, m: State, v: Value)
    returns (acts': seq<Action>, z: State)
    requires Producing(s, acts, m) && m.headers != [] && m.prod.PScan? && m.prod.v == v && m.prod.j < BLOCK_SIZE
    ensures Producing(s, acts', z) && Untouched(m, z) && z.values == m.values && z.tail == m.tail
    ensures z.prod == PBase(v) || z == m.(prod := PFresh(v))
    decreases BLOCK_SIZE - m.prod.j
  {
    acts', z := Go(s, acts, m, Produce);
    if z.prod.PScan? {
      var y := z;
      acts', z := FinishScan(s, acts', y, v);
    }
  }

  /** There is leeway, and room in the index or in the index it grows to. */
  ghost predicate Roomy(s: State) {
    && s.headers != [] && s.head <= s.tail < s.head + HALF - BLOCK_SIZE
    && (s.slots < Size(s.headers[Cur(s)]) || s.headers[Cur(s)].bits < MAX_BITS)
    && s.slots <= Size(s.headers[Cur(s)])
  }

  /** With leeway a full index grows to twice its size, and the enqueue goes on to find a block. */
  lemma FreshGoesOn(s: State)
    requires Roomy(s) && s.prod.PFresh?
    ensures ProduceStep(s).prod == PLink(s.prod.v)
    ensures var cur, z := s.headers[Cur(s)], ProduceStep(s);
            if s.slots < Size(cur) then z.headers == s.headers
            else |z.headers| == |s.headers| + 1 && Size(z.headers[|s.headers|]) == 2 * Size(cur)
  {
    CircularLessExact(s.head, s.tail + BLOCK_SIZE);
  }

  lemma FinishFresh(s: State, acts: seq<Action>, m: State, v: Value, b: Block) returns (acts': seq<Action>, z: State)
    requires Producing(s, acts, m) && Roomy(m) && m.prod == PFresh(v) && !InRing(m, b)
    ensures Producing(s, acts', z) && z.prod.PIdle? && Untouched(m, z)
    ensures z.values == m.values + [v] && z.tail == m.tail + 1
  {
    FreshGoesOn(m);
    acts', z := Go(s, acts, m, Produce);
    assert !InRing(z, b);
    acts', z := Go(s, acts', z, Requisition(b));
    acts', z := FinishBlock(s, acts', z, v);
  }

  /**
   Main theorem: from any reachable state between enqueues, with leeway, room in the index or to grow
   it, and a block to be had if one is needed, an enqueue run to its end publishes its element after
   all the others.
   */
  lemma EnqueuePublishes(s: State, acts: seq<Action>, z: State, v: Value, b: Block)
    returns (more: seq<Action>, y: State)
    requires Init(s) && Reaches(s, acts, z) && z.prod.PIdle? && z.tail - z.head < HALF - BLOCK_SIZE
    requires z.headers != [] && (z.slots < Size(z.headers[Cur(z)]) || z.headers[Cur(z)].bits < MAX_BITS)
    requires !InRing(z, b)
    ensures Producing(z, more, y) && y.prod.PIdle? && Untouched(z, y)
    ensures y.values == z.values + [v] && y.tail == z.tail + 1
  {
    InitInv(s);
    RunKeepsInv(s, acts, z);
    more, y := Enqueues(z, v, b);
  }

  lemma Enqueues(z: State, v: Value, b: Block) returns (more: seq<Action>, y: State)
    requires Roomy(z) && z.prod.PIdle? && !InRing(z, b)
    ensures Producing(z, more, y) && y.prod.PIdle? && Untouched(z, y)
    ensures y.values == z.values + [v] && y.tail == z.tail + 1
  {
    more, y := Go(z, [], z, Offer(v));
    if y.prod.PCell? {
      more, y := FinishCell(z, more, y, v);
    } else {
      if y.prod.PScan? { more, y := FinishScan(z, more, y, v); }
      if y.prod.PBase? {
        more, y := FinishBlock(z, more, y, v);
      } else {
        assert y == z.(prod := PFresh(v));
        assert !InRing(y, b);
        more, y := FinishFresh(z, more, y, v, b);
      }
    }
  }
}
