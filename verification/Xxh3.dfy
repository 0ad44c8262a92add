/**
 XXH3 64-bit: the one-shot block loop and the buffered streaming state.

 The arithmetic of a single stripe, the scramble, the short-input hashes and the
 final merge are parameters (a Kernel); everything about where stripes, blocks and
 the last stripe come from is as in the source.
 */
module Xxh3 {
  import opened Bytes

  const STRIPE_LEN: nat := 64
  const CONSUME_RATE: nat := 8
  const BUFFER_SIZE: nat := 256
  const BUFFER_STRIPES: nat := 4
  const MIDSIZE_MAX: nat := 240
  const LASTACC_START: nat := 7
  const SECRET_SIZE_MIN: nat := 136
  const LENGTHS: nat := 0x1_0000_0000_0000_0000

  type Acc = seq<nat>        // eight 64-bit lanes
  type Hash = nat

  /** accumulate takes the offset into the secret; scramble uses the secret's last stripe. */
  datatype Kernel = Kernel(
    init: Acc,
    accumulate: (Acc, Data, nat) -> Acc,
    scramble: Acc -> Acc,
    merge: (Acc, nat) -> Hash,
    short: Data -> Hash,
    secretSize: nat)

  predicate WellFormed(k: Kernel) { k.secretSize >= SECRET_SIZE_MIN }

  function StripesPerBlock(k: Kernel): (n: nat)
    requires WellFormed(k)
    ensures n >= 9
  { (k.secretSize - STRIPE_LEN) / CONSUME_RATE }

  // ---------------------------------------------------------------- the reference: one stripe at a time

  /** The accumulators, and how many stripes of the current block they have taken. */
  datatype Lane = Lane(acc: Acc, pos: nat)

  function Stripe(data: Data, i: nat): Data
    requires (i + 1) * STRIPE_LEN <= |data|
  { data[i * STRIPE_LEN..(i + 1) * STRIPE_LEN] }

  /**
   A stripe is accumulated with the secret of its place in the block; the last of a block is
   followed by a scramble.
   */
  function Step(k: Kernel, l: Lane, stripe: Data): Lane
    requires WellFormed(k)
  {
    var a := k.accumulate(l.acc, stripe, l.pos * CONSUME_RATE);
    if l.pos + 1 == StripesPerBlock(k) then Lane(k.scramble(a), 0) else Lane(a, l.pos + 1)
  }

  function Run(k: Kernel, data: Data, n: nat): (l: Lane)
    requires WellFormed(k) && n * STRIPE_LEN <= |data|
    ensures l.pos < StripesPerBlock(k)
  {
    if n == 0 then Lane(k.init, 0) else Step(k, Run(k, data, n - 1), Stripe(data, n - 1))
  }

  /** XXH3_64bits: short inputs whole; otherwise every full stripe that leaves a byte over, then the last 64 bytes. */
  function Hash64(k: Kernel, data: Data): Hash
    requires WellFormed(k)
  {
    if |data| <= MIDSIZE_MAX then k.short(data)
    else
      var n := (|data| - 1) / STRIPE_LEN;
      k.merge(k.accumulate(Run(k, data, n).acc, data[|data| - STRIPE_LEN..],
        k.secretSize - STRIPE_LEN - LASTACC_START), |data|)
  }

  lemma {:induction false} RunExtend(k: Kernel, data: Data, more: Data, n: nat)
    requires WellFormed(k) && n * STRIPE_LEN <= |data|
    ensures Run(k, data + more, n) == Run(k, data, n)
  {
    if n > 0 {
      RunExtend(k, data, more, n - 1);
      assert Stripe(data + more, n - 1) == Stripe(data, n - 1);
    }
  }

  // ---------------------------------------------------------------- runs of stripes inside a block

  /** f_acc: n stripes of the input from stripe `from` on, the secret advancing from place pos. */
  function AccumulateRun(k: Kernel, acc: Acc, input: Data, from: nat, pos: nat, n: nat): Acc
    requires (from + n) * STRIPE_LEN <= |input|
  {
    if n == 0 then acc
    else k.accumulate(AccumulateRun(k, acc, input, from, pos, n - 1), Stripe(input, from + n - 1),
      (pos + n - 1) * CONSUME_RATE)
  }

  method Accumulate(k: Kernel, acc: Acc, input: Data, from: nat, pos: nat, n: nat) returns (r: Acc)
    requires (from + n) * STRIPE_LEN <= |input|
    ensures r == AccumulateRun(k, acc, input, from, pos, n)
  {
    r := acc;
    for j := 0 to n
      invariant r == AccumulateRun(k, acc, input, from, pos, j)
    {
      r := k.accumulate(r, Stripe(input, from + j), (pos + j) * CONSUME_RATE);
    }
  }

  /** Stripe from + j of the input is stripe s + j of the data. */
  ghost predicate SameStripe(input: Data, from: nat, data: Data, s: nat, j: nat) {
    && (from + j + 1) * STRIPE_LEN <= |input| && (s + j + 1) * STRIPE_LEN <= |data|
    && Stripe(input, from + j) == Stripe(data, s + j)
  }

  ghost predicate SameStripes(input: Data, from: nat, data: Data, s: nat, n: nat) {
    forall j: nat {:trigger SameStripe(input, from, data, s, j)} :: j < n ==> SameStripe(input, from, data, s, j)
  }

  lemma PrefixOfSuffix(d: Data, i: nat, n: nat)
    requires i + n <= |d|
    ensures d[i..][..n] == d[i..i + n]
  {}

  lemma SuffixOfSuffix(d: Data, i: nat, n: nat)
    requires i + n <= |d|
    ensures d[i..][n..] == d[i + n..]
  {}

  /** A buffer completed with the start of the input, and what is left of the input. */
  lemma SplitQueue(buffered: Data, input: Data, full: Data, s: nat)
    requires |buffered| <= BUFFER_SIZE < |buffered| + |input| && s * STRIPE_LEN <= |full|
    requires buffered + input == full[s * STRIPE_LEN..]
    ensures var load := BUFFER_SIZE - |buffered|;
            && (s + BUFFER_STRIPES) * STRIPE_LEN < |full|
            && buffered + input[..load] == full[s * STRIPE_LEN..(s + BUFFER_STRIPES) * STRIPE_LEN]
            && input[load..] == full[(s + BUFFER_STRIPES) * STRIPE_LEN..]
  {
    var load, queue := BUFFER_SIZE - |buffered|, buffered + input;
    assert queue[..BUFFER_SIZE] == buffered + input[..load] && queue[BUFFER_SIZE..] == input[load..];
    PrefixOfSuffix(full, s * STRIPE_LEN, BUFFER_SIZE);
    SuffixOfSuffix(full, s * STRIPE_LEN, BUFFER_SIZE);
  }

  /** The first n stripes of the input are those of the data from stripe s on. */
  ghost predicate Feeds(input: Data, data: Data, s: nat, n: nat) {
    n * STRIPE_LEN <= |input| && (s + n) * STRIPE_LEN <= |data| && SameStripes(input, 0, data, s, n)
  }

  /** The input starts with n stripes of the data, from stripe s on. */
  lemma SliceSame(input: Data, data: Data, s: nat, n: nat)
    requires n * STRIPE_LEN <= |input| && (s + n) * STRIPE_LEN <= |data|
    requires input[..n * STRIPE_LEN] == data[s * STRIPE_LEN..(s + n) * STRIPE_LEN]
    ensures Feeds(input, data, s, n)
  {
    var a, b := s * STRIPE_LEN, (s + n) * STRIPE_LEN;
    forall j: nat | j < n ensures SameStripe(input, 0, data, s, j) {
      var c, d := j * STRIPE_LEN, (j + 1) * STRIPE_LEN;
      assert input[..n * STRIPE_LEN][c..d] == input[c..d];
      assert data[a..b][c..d] == data[a + c..a + d];
      assert a + c == (s + j) * STRIPE_LEN && a + d == (s + j + 1) * STRIPE_LEN;
    }
  }

  lemma SameLater(input: Data, data: Data, s: nat, total: nat, skip: nat, n: nat, s': nat)
    requires SameStripes(input, 0, data, s, total) && skip + n <= total && s' == s + skip
    ensures SameStripes(input, skip, data, s', n)
  {
    forall j: nat | j < n ensures SameStripe(input, skip, data, s', j) {
      assert SameStripe(input, 0, data, s, skip + j);
    }
  }

  /** The lane after a run of n stripes that ends at or before the end of the block. */
  function Landed(k: Kernel, acc: Acc, pos: nat): Lane
    requires WellFormed(k)
  {
    if pos == StripesPerBlock(k) then Lane(k.scramble(acc), 0) else Lane(acc, pos)
  }

  /** Inside a block a run is the reference; at the block's end it is the reference before the scramble. */
  lemma {:induction false} RunOfStripes(k: Kernel, data: Data, s: nat, input: Data, from: nat, n: nat)
    requires WellFormed(k) && (s + n) * STRIPE_LEN <= |data| && (from + n) * STRIPE_LEN <= |input|
    requires SameStripes(input, from, data, s, n)
    requires Run(k, data, s).pos + n <= StripesPerBlock(k)
    ensures var l := Run(k, data, s);
            Run(k, data, s + n) == Landed(k, AccumulateRun(k, l.acc, input, from, l.pos, n), l.pos + n)
  {
    if n > 0 {
      assert SameStripe(input, from, data, s, n - 1);
      RunOfStripes(k, data, s, input, from, n - 1);
      assert s + n - 1 == s + (n - 1);
    }
  }

  /**
   XXH3_consumeStripes: finish the current block, then whole blocks, each
   followed at once by a scramble, then a partial one.  `data` and `s` say which
   stripes of which input these are.
   */
  method ConsumeStripes(k: Kernel, acc: Acc, soFar: nat, input: Data, nbStripes: nat, ghost data: Data, ghost s: nat)
    returns (r: Acc, soFar': nat)
    requires WellFormed(k)
    requires Feeds(input, data, s, nbStripes)
    requires Run(k, data, s) == Lane(acc, soFar)
    ensures Run(k, data, s + nbStripes) == Lane(r, soFar')
  {
    var done: nat := 0;
    r, soFar' := acc, soFar;
    if nbStripes >= StripesPerBlock(k) - soFar {
      r, done := ConsumeBlocks(k, acc, soFar, input, nbStripes, data, s);
      soFar' := 0;
    }
    var left: nat := nbStripes - done;
    if left > 0 {
      r := PartBlock(k, r, soFar', input, done, left, nbStripes, data, s);
      soFar' := soFar' + left;
    }
  }

  /** The loop over completed blocks: the current one, then whole ones while there are enough stripes. */
  method ConsumeBlocks(k: Kernel, acc: Acc, soFar: nat, input: Data, nbStripes: nat, ghost data: Data, ghost s: nat)
    returns (r: Acc, done: nat)
    requires WellFormed(k) && soFar < StripesPerBlock(k) <= nbStripes + soFar
    requires Feeds(input, data, s, nbStripes)
    requires Run(k, data, s) == Lane(acc, soFar)
    ensures done <= nbStripes < done + StripesPerBlock(k) && Run(k, data, s + done) == Lane(r, 0)
  {
    var perBlock := StripesPerBlock(k);
    r := OneBlock(k, acc, soFar, input, 0, perBlock - soFar, nbStripes, data, s);
    done := perBlock - soFar;
    while nbStripes - done >= perBlock
      invariant done <= nbStripes && Run(k, data, s + done) == Lane(r, 0)
      decreases nbStripes - done
    {
      r := OneBlock(k, r, 0, input, done, perBlock, nbStripes, data, s);
      done := done + perBlock;
    }
  }

  /** Some stripes that do not complete the block. */
  method PartBlock(k: Kernel, acc: Acc, place: nat, input: Data, done: nat, n: nat, ghost total: nat,
                   ghost data: Data, ghost s: nat) returns (r: Acc)
    requires WellFormed(k) && place + n < StripesPerBlock(k) && done + n <= total
    requires Feeds(input, data, s, total)
    requires Run(k, data, s + done) == Lane(acc, place)
    ensures Run(k, data, s + (done + n)) == Lane(r, place + n)
  {
    ghost var s' := s + done;
    SameLater(input, data, s, total, done, n, s');
    RunOfStripes(k, data, s', input, done, n);
    r := Accumulate(k, acc, input, done, place, n);
    assert s' + n == s + (done + n);
  }

  /** The rest of the current block, then its scramble. */
  method OneBlock(k: Kernel, acc: Acc, place: nat, input: Data, done: nat, n: nat, ghost total: nat,
                  ghost data: Data, ghost s: nat) returns (r: Acc)
    requires WellFormed(k) && n > 0 && place + n == StripesPerBlock(k) && done + n <= total
    requires Feeds(input, data, s, total)
    requires Run(k, data, s + done) == Lane(acc, place)
    ensures Run(k, data, s + (done + n)) == Lane(r, 0)
  {
    ghost var s' := s + done;
    SameLater(input, data, s, total, done, n, s');
    RunOfStripes(k, data, s', input, done, n);
    r := Accumulate(k, acc, input, done, place, n);
    r := k.scramble(r);
    assert s' + n == s + (done + n);
  }

  // ---------------------------------------------------------------- one shot

  lemma BlockCount(len: nat, perBlock: nat)
    requires len > 0 && perBlock > 0
    ensures var blocks := (len - 1) / (STRIPE_LEN * perBlock);
            var rest := ((len - 1) - STRIPE_LEN * perBlock * blocks) / STRIPE_LEN;
            0 <= rest < perBlock && blocks * perBlock + rest == (len - 1) / STRIPE_LEN
  {
    var blockLen := STRIPE_LEN * perBlock;
    var blocks := (len - 1) / blockLen;
    var m := (len - 1) - blockLen * blocks;
    assert 0 <= m < blockLen;
    assert len - 1 == STRIPE_LEN * (blocks * perBlock) + m by {
      assert blockLen * blocks == STRIPE_LEN * (perBlock * blocks);
    }
  }

  lemma Itself(data: Data, s: nat, n: nat)
    requires (s + n) * STRIPE_LEN <= |data|
    ensures SameStripes(data, s, data, s, n)
  {}

  /** The block loop of XXH3_hashLong_internal_loop. */
  method HashBlocks(k: Kernel, data: Data, blocks: nat) returns (acc: Acc)
    requires WellFormed(k) && blocks * StripesPerBlock(k) * STRIPE_LEN <= |data|
    ensures Run(k, data, blocks * StripesPerBlock(k)) == Lane(acc, 0)
  {
    var perBlock := StripesPerBlock(k);
    acc := k.init;
    ghost var done := 0;
    for n := 0 to blocks
      invariant done == n * perBlock
      invariant Run(k, data, done) == Lane(acc, 0)
    {
      assert (n + 1) * perBlock == done + perBlock;
      assert (n + 1) * perBlock <= blocks * perBlock;
      Itself(data, done, perBlock);
      RunOfStripes(k, data, done, data, done, perBlock);
      acc := Accumulate(k, acc, data, n * perBlock, 0, perBlock);
      acc := k.scramble(acc);
      done := done + perBlock;
    }
  }

  /** How many full blocks there are, and how many stripes after them; the last stripe is left for the end. */
  method PlanBlocks(len: nat, perBlock: nat) returns (blocks: nat, stripes: nat)
    requires len > 0 && perBlock > 0
    ensures stripes < perBlock && blocks * perBlock + stripes == (len - 1) / STRIPE_LEN
  {
    var blockLen := STRIPE_LEN * perBlock;
    BlockCount(len, perBlock);
    blocks := (len - 1) / blockLen;
    stripes := ((len - 1) - blockLen * blocks) / STRIPE_LEN;
  }

  /** XXH3_hashLong_internal_loop and the final merge. */
  method HashLong(k: Kernel, data: Data) returns (h: Hash)
    requires WellFormed(k) && |data| > MIDSIZE_MAX
    ensures h == Hash64(k, data)
  {
    var perBlock := StripesPerBlock(k);
    var blocks, stripes := PlanBlocks(|data|, perBlock);
    ghost var n := (|data| - 1) / STRIPE_LEN;
    var acc := HashBlocks(k, data, blocks);
    var done := blocks * perBlock;
    Itself(data, done, stripes);
    RunOfStripes(k, data, done, data, done, stripes);
    acc := Accumulate(k, acc, data, done, 0, stripes);
    assert done + stripes == n;
    h := k.merge(k.accumulate(acc, data[|data| - STRIPE_LEN..], k.secretSize - STRIPE_LEN - LASTACC_START), |data|);
  }

  method OneShot(k: Kernel, data: Data) returns (h: Hash)
    requires WellFormed(k)
    ensures h == Hash64(k, data)
  {
    if |data| <= MIDSIZE_MAX { h := k.short(data); } else { h := HashLong(k, data); }
  }

  // ---------------------------------------------------------------- streaming

  class Stream {
    const k: Kernel
    const buffer: array<Byte>
    var acc: Acc
    var bufferedSize: nat
    var stripesSoFar: nat
    var totalLen: nat
    ghost var data: Data             // everything fed so far

    /**
     All but the buffered bytes have been consumed as whole stripes; what the buffer no longer needs
     still ends with the last consumed stripe.
     */
    ghost predicate Valid()
      reads this, buffer
    {
      && WellFormed(k) && buffer.Length == BUFFER_SIZE && bufferedSize <= BUFFER_SIZE && bufferedSize <= |data|
      && totalLen == |data| < LENGTHS
      && (data != [] ==> bufferedSize > 0) && (|data| > bufferedSize ==> |data| > BUFFER_SIZE)
      && (|data| - bufferedSize) % STRIPE_LEN == 0
      && Caught(data, (|data| - bufferedSize) / STRIPE_LEN)
      && buffer[..bufferedSize] == data[|data| - bufferedSize..]
    }

    /** The first s stripes of d are consumed, and the buffer's end, where not refilled, is still the last of them. */
    ghost predicate Caught(d: Data, s: nat)
      reads `acc, `stripesSoFar, `bufferedSize, buffer
    {
      && WellFormed(k) && buffer.Length == BUFFER_SIZE && s * STRIPE_LEN <= |d|
      && Run(k, d, s) == Lane(acc, stripesSoFar)
      && (s > 0 ==> forall j | BUFFER_SIZE - STRIPE_LEN <= j < BUFFER_SIZE && bufferedSize <= j ::
                      buffer[j] == d[s * STRIPE_LEN - BUFFER_SIZE + j])
    }

    /** XXH3_64bits_reset. */
    constructor (k: Kernel)
      requires WellFormed(k)
      ensures Valid() && data == [] && this.k == k && fresh(buffer)
    {
      this.k := k;
      buffer := new Byte[BUFFER_SIZE](_ => 0);
      acc, bufferedSize, stripesSoFar, totalLen, data := k.init, 0, 0, 0, [];
    }

    /** XXH_memcpy into the buffer. */
    method Fill(at: nat, src: Data)
      requires at + |src| <= buffer.Length
      modifies buffer
      ensures buffer[..] == old(buffer[..at]) + src + old(buffer[at + |src|..])
    {
      forall j | 0 <= j < |src| { buffer[at + j] := src[j]; }
    }

    /** What is consumed stays consumed when more input arrives. */
    lemma CaughtExtend(input: Data, s: nat)
      requires Valid() && s == (|data| - bufferedSize) / STRIPE_LEN
      ensures Caught(data + input, s)
      ensures buffer[..bufferedSize] + input == (data + input)[s * STRIPE_LEN..]
    {
      RunExtend(k, data, input, s);
    }

    /** XXH3_update. */
    method Update(input: Data)
      requires Valid() && |data| + |input| < LENGTHS
      modifies this, buffer
      ensures Valid() && data == old(data) + input
    {
      ghost var full, s := data + input, (|data| - bufferedSize) / STRIPE_LEN;
      CaughtExtend(input, s);
      totalLen := totalLen + |input|;
      if |input| <= BUFFER_SIZE - bufferedSize {
        Stash(input, full, s);
      } else {
        Overflow(input, full, s);
      }
    }

    /** More input than the buffer can take: complete and consume it, consume in bulk, buffer the rest. */
    method Overflow(input: Data, ghost full: Data, ghost s: nat)
      requires Caught(full, s) && bufferedSize <= BUFFER_SIZE < bufferedSize + |input|
      requires buffer[..bufferedSize] + input == full[s * STRIPE_LEN..] && totalLen == |full| < LENGTHS
      modifies this, buffer
      ensures Valid() && data == full
    {
      if bufferedSize > 0 {
        var load := BUFFER_SIZE - bufferedSize;
        SplitQueue(buffer[..bufferedSize], input, full, s);
        DrainBuffer(input[..load], full, s);
        BulkThenStash(input[load..], full, s + BUFFER_STRIPES);
      } else {
        assert buffer[..0] + input == input;
        BulkThenStash(input, full, s);
      }
    }

    /** With an empty buffer: consume in bulk if there is enough, buffer the rest. */
    method BulkThenStash(input: Data, ghost full: Data, ghost s: nat)
      requires Caught(full, s) && bufferedSize == 0 && |input| > 0 && BUFFER_SIZE < |full|
      requires input == full[s * STRIPE_LEN..]
      requires totalLen == |full| < LENGTHS
      modifies this, buffer
      ensures Valid() && data == full
    {
      if |input| > BUFFER_SIZE {
        var n := ConsumeBulk(input, full, s);
        SuffixOfSuffix(full, s * STRIPE_LEN, n * STRIPE_LEN);
        StashAll(input[n * STRIPE_LEN..], full, s + n);
      } else {
        StashAll(input, full, s);
      }
    }

    /** The rest of the input goes to an empty buffer. */
    method StashAll(rest: Data, ghost full: Data, ghost s: nat)
      requires Caught(full, s) && bufferedSize == 0 && 0 < |rest| <= BUFFER_SIZE < |full|
      requires rest == full[s * STRIPE_LEN..]
      requires totalLen == |full| < LENGTHS
      modifies this, buffer
      ensures Valid() && data == full
    {
      assert buffer[..0] + rest == rest;
      Stash(rest, full, s);
    }

    /** The rest of the input joins the buffer, which has room for it. */
    method Stash(rest: Data, ghost full: Data, ghost s: nat)
      requires Caught(full, s) && bufferedSize + |rest| <= BUFFER_SIZE && (full != [] ==> bufferedSize + |rest| > 0)
      requires buffer[..bufferedSize] + rest == full[s * STRIPE_LEN..] && totalLen == |full| < LENGTHS
      requires s > 0 ==> |full| > BUFFER_SIZE
      modifies this, buffer
      ensures Valid() && data == full
    {
      Fill(bufferedSize, rest);
      bufferedSize := bufferedSize + |rest|;
      data := full;
      assert buffer[..bufferedSize] == full[s * STRIPE_LEN..];
      assert (|data| - bufferedSize) / STRIPE_LEN == s;
    }

    /**
     All whole stripes that leave something over, straight from the input; the last one is also kept
     at the buffer's end.
     */
    method ConsumeBulk(rest: Data, ghost full: Data, ghost s: nat) returns (n: nat)
      requires Caught(full, s) && bufferedSize == 0 && |rest| > BUFFER_SIZE && rest == full[s * STRIPE_LEN..]
      modifies this, buffer
      ensures bufferedSize == 0 && totalLen == old(totalLen) && data == old(data)
      ensures 0 < n && 0 < |rest| - n * STRIPE_LEN <= STRIPE_LEN
      ensures Caught(full, s + n)
    {
      n := (|rest| - 1) / STRIPE_LEN;
      PrefixOfSuffix(full, s * STRIPE_LEN, n * STRIPE_LEN);
      SliceSame(rest, full, s, n);
      acc, stripesSoFar := ConsumeStripes(k, acc, stripesSoFar, rest, n, full, s);
      KeepLast(rest, n, full, s);
    }

    /** The last consumed stripe goes to the end of the buffer. */
    method KeepLast(rest: Data, n: nat, ghost full: Data, ghost s: nat)
      requires buffer.Length == BUFFER_SIZE && 0 < n && n * STRIPE_LEN <= |rest| && s * STRIPE_LEN <= |full|
      requires rest == full[s * STRIPE_LEN..]
      modifies buffer
      ensures forall j | BUFFER_SIZE - STRIPE_LEN <= j < BUFFER_SIZE ::
              buffer[j] == full[(s + n) * STRIPE_LEN - BUFFER_SIZE + j]
    {
      Fill(BUFFER_SIZE - STRIPE_LEN, rest[(n - 1) * STRIPE_LEN..n * STRIPE_LEN]);
      forall j | BUFFER_SIZE - STRIPE_LEN <= j < BUFFER_SIZE
        ensures buffer[j] == full[(s + n) * STRIPE_LEN - BUFFER_SIZE + j]
      {
        assert buffer[j] == buffer[..][j] == rest[(n - 1) * STRIPE_LEN + j - (BUFFER_SIZE - STRIPE_LEN)];
      }
    }

    /** The buffer is completed and consumed whole. */
    method DrainBuffer(head: Data, ghost full: Data, ghost s: nat)
      requires WellFormed(k) && buffer.Length == BUFFER_SIZE && 0 < bufferedSize <= BUFFER_SIZE
      requires |head| == BUFFER_SIZE - bufferedSize
      requires Caught(full, s) && (s + BUFFER_STRIPES) * STRIPE_LEN <= |full|
      requires buffer[..bufferedSize] + head == full[s * STRIPE_LEN..(s + BUFFER_STRIPES) * STRIPE_LEN]
      modifies this, buffer
      ensures bufferedSize == 0 && totalLen == old(totalLen) && data == old(data)
      ensures Caught(full, s + BUFFER_STRIPES)
    {
      Fill(bufferedSize, head);
      var whole := buffer[..];
      assert whole[..BUFFER_STRIPES * STRIPE_LEN] == full[s * STRIPE_LEN..(s + BUFFER_STRIPES) * STRIPE_LEN];
      SliceSame(whole, full, s, BUFFER_STRIPES);
      acc, stripesSoFar := ConsumeStripes(k, acc, stripesSoFar, whole, BUFFER_STRIPES, full, s);
      bufferedSize := 0;
      forall j | BUFFER_SIZE - STRIPE_LEN <= j < BUFFER_SIZE
        ensures buffer[j] == full[(s + BUFFER_STRIPES) * STRIPE_LEN - BUFFER_SIZE + j]
      {
        assert buffer[j] == whole[..BUFFER_STRIPES * STRIPE_LEN][j];
      }
    }

    /** XXH3_64bits_digest, which leaves the state as it was. */
    method Digest() returns (h: Hash)
      requires Valid()
      ensures h == Hash64(k, data)
    {
      if totalLen > MIDSIZE_MAX {
        var a := DigestLong();
        h := k.merge(a, totalLen);
      } else {
        assert buffer[..totalLen] == data;
        h := k.short(buffer[..totalLen]);
      }
    }
  
    /**
     XXH3_digest_long: the buffered stripes, then the last 64 bytes, part of which may lie before
     the buffered ones.
     */
    method DigestLong() returns (a: Acc)
      requires Valid() && |data| > MIDSIZE_MAX
      ensures a == k.accumulate(Run(k, data, (|data| - 1) / STRIPE_LEN).acc, data[|data| - STRIPE_LEN..],
              k.secretSize - STRIPE_LEN - LASTACC_START)
    {
      var last: Data;
      if bufferedSize >= STRIPE_LEN {
        a := DigestBuffered();
        last := buffer[bufferedSize - STRIPE_LEN..bufferedSize];
        assert last == buffer[..bufferedSize][bufferedSize - STRIPE_LEN..];
      } else {
        a := acc;
        last := buffer[BUFFER_SIZE - (STRIPE_LEN - bufferedSize)..] + buffer[..bufferedSize];
        LastStripe(last, (|data| - bufferedSize) / STRIPE_LEN);
      }
      a := k.accumulate(a, last, k.secretSize - STRIPE_LEN - LASTACC_START);
    }

    method DigestBuffered() returns (a: Acc)
      requires Valid() && bufferedSize >= STRIPE_LEN
      ensures a == Run(k, data, (|data| - 1) / STRIPE_LEN).acc
    {
      ghost var s := (|data| - bufferedSize) / STRIPE_LEN;
      var n := (bufferedSize - 1) / STRIPE_LEN;
      var whole := buffer[..bufferedSize];
      assert whole[..n * STRIPE_LEN] == data[s * STRIPE_LEN..(s + n) * STRIPE_LEN];
      SliceSame(whole, data, s, n);
      var soFar;
      a, soFar := ConsumeStripes(k, acc, stripesSoFar, whole, n, data, s);
      assert s + n == (|data| - 1) / STRIPE_LEN;
    }

    lemma LastStripe(last: Data, s: nat)
      requires Valid() && bufferedSize < STRIPE_LEN < |data| && s == (|data| - bufferedSize) / STRIPE_LEN && s > 0
      requires last == buffer[BUFFER_SIZE - (STRIPE_LEN - bufferedSize)..] + buffer[..bufferedSize]
      ensures last == data[|data| - STRIPE_LEN..]
    {
      forall j | 0 <= j < STRIPE_LEN ensures last[j] == data[|data| - STRIPE_LEN..][j] {
        if j >= STRIPE_LEN - bufferedSize {
          assert last[j] == buffer[..bufferedSize][j - (STRIPE_LEN - bufferedSize)];
        } else {
          assert last[j] == buffer[BUFFER_SIZE - (STRIPE_LEN - bufferedSize) + j];
        }
      }
    }
  }

  /** One update per chunk. */
  method FeedAll(st: Stream, chunks: seq<Data>)
    requires st.Valid() && st.data == [] && |Flatten(chunks)| < LENGTHS
    modifies st, st.buffer
    ensures st.Valid() && st.data == Flatten(chunks)
  {
    for i := 0 to |chunks|
      invariant st.Valid() && st.data == Flatten(chunks[..i])
    {
      FlattenNext(chunks, i);
      st.Update(chunks[i]);
    }
    assert chunks[..|chunks|] == chunks;
  }

  lemma FlattenNext(chunks: seq<Data>, i: nat)
    requires i < |chunks|
    ensures Flatten(chunks[..i + 1]) == Flatten(chunks[..i]) + chunks[i]
    ensures |Flatten(chunks[..i])| + |chunks[i]| <= |Flatten(chunks)|
  {
    assert chunks[..i + 1][..i] == chunks[..i];
    FlattenBound(chunks, i + 1);
  }

  /** Main theorem: however the input is split into updates, the digest is the one-shot hash of the whole. */
  method StreamEqualsOneShot(k: Kernel, chunks: seq<Data>) returns (streamed: Hash, whole: Hash)
    requires WellFormed(k) && |Flatten(chunks)| < LENGTHS
    ensures streamed == whole == Hash64(k, Flatten(chunks))
  {
    var st := new Stream(k);
    FeedAll(st, chunks);
    streamed := st.Digest();
    whole := OneShot(k, Flatten(chunks));
  }

  // ---------------------------------------------------------------- the default secret, in numbers

  /** m stripes of the 1024-byte block b, stripe j with the secret at offset 8 * j. */
  function Part(k: Kernel, acc: Acc, data: Data, b: nat, m: nat): Acc
    requires 1024 * b + 64 * m <= |data|
  {
    if m == 0 then acc
    else k.accumulate(Part(k, acc, data, b, m - 1), data[1024 * b + 64 * (m - 1)..1024 * b + 64 * m], 8 * (m - 1))
  }

  /** b blocks of sixteen stripes, a scramble after each. */
  function Blocks(k: Kernel, data: Data, b: nat): Acc
    requires 1024 * b <= |data|
  {
    if b == 0 then k.init else k.scramble(Part(k, Blocks(k, data, b - 1), data, b - 1, 16))
  }

  /**
   With the default secret of 192 bytes a block is sixteen stripes, and stripe i is accumulated at
   offset 8 * (i % 16).
   */
  lemma RunInNumbers(k: Kernel, data: Data, b: nat, m: nat)
    requires k.secretSize == 192 && m < 16 && 1024 * b + 64 * m <= |data|
    ensures Run(k, data, 16 * b + m) == Lane(Part(k, Blocks(k, data, b), data, b, m), m)
  {
    BlocksRun(k, data, b);
    PartRuns(k, data, b, m);
  }

  lemma {:induction false} BlocksRun(k: Kernel, data: Data, b: nat)
    requires k.secretSize == 192 && 1024 * b <= |data|
    ensures Run(k, data, 16 * b) == Lane(Blocks(k, data, b), 0)
  {
    if b > 0 {
      BlocksRun(k, data, b - 1);
      PartRuns(k, data, b - 1, 15);
      AcrossBlocks(k, data, b);
    }
  }

  lemma {:induction false} PartRuns(k: Kernel, data: Data, b: nat, m: nat)
    requires k.secretSize == 192 && m < 16 && 1024 * b + 64 * m <= |data|
    requires Run(k, data, 16 * b) == Lane(Blocks(k, data, b), 0)
    ensures Run(k, data, 16 * b + m) == Lane(Part(k, Blocks(k, data, b), data, b, m), m)
  {
    if m > 0 {
      PartRuns(k, data, b, m - 1);
      WithinBlock(k, data, b, m);
    }
  }

  lemma WithinBlock(k: Kernel, data: Data, b: nat, m: nat)
    requires k.secretSize == 192 && 0 < m < 16 && 1024 * b + 64 * m <= |data|
    requires Run(k, data, 16 * b + m - 1) == Lane(Part(k, Blocks(k, data, b), data, b, m - 1), m - 1)
    ensures Run(k, data, 16 * b + m) == Lane(Part(k, Blocks(k, data, b), data, b, m), m)
  {
    var i := 16 * b + m - 1;
    OneStripe(k, data, i);
    assert 64 * i == 1024 * b + 64 * (m - 1);
  }

  lemma AcrossBlocks(k: Kernel, data: Data, b: nat)
    requires k.secretSize == 192 && b > 0 && 1024 * b <= |data|
    requires Run(k, data, 16 * (b - 1) + 15) == Lane(Part(k, Blocks(k, data, b - 1), data, b - 1, 15), 15)
    ensures Run(k, data, 16 * b) == Lane(Blocks(k, data, b), 0)
  {
    var i := 16 * b - 1;
    OneStripe(k, data, i);
    assert 64 * i == 1024 * (b - 1) + 64 * 15;
  }

  lemma OneStripe(k: Kernel, data: Data, i: nat)
    requires k.secretSize == 192 && 64 * (i + 1) <= |data|
    ensures (i + 1) * STRIPE_LEN <= |data|
    ensures var l := Run(k, data, i);
            var a := k.accumulate(l.acc, data[64 * i..64 * i + 64], 8 * l.pos);
            Run(k, data, i + 1) == if l.pos == 15 then Lane(k.scramble(a), 0) else Lane(a, l.pos + 1)
  {
    assert Stripe(data, i) == data[64 * i..64 * i + 64];
  }

  /**
   XXH3_64bits with the default secret, in numbers: up to 240 bytes the short hash; above, whole
   blocks of 1024 bytes that leave a byte over, then the whole stripes of the rest that leave a byte
   over, then the last 64 bytes at secret offset 121.
   */
  lemma HashInNumbers(k: Kernel, data: Data)
    requires k.secretSize == 192
    ensures |data| <= 240 ==> Hash64(k, data) == k.short(data)
    ensures |data| > 240 ==>
              var b := (|data| - 1) / 1024;
              var m := (|data| - 1 - 1024 * b) / 64;
              Hash64(k, data) ==
              k.merge(k.accumulate(Part(k, Blocks(k, data, b), data, b, m), data[|data| - 64..], 121), |data|)
  {
    if |data| > 240 {
      var b := (|data| - 1) / 1024;
      var m := (|data| - 1 - 1024 * b) / 64;
      assert 16 * b + m == (|data| - 1) / STRIPE_LEN;
      RunInNumbers(k, data, b, m);
    }
  }

  /** From 241 to 1024 bytes nothing is scrambled. */
  lemma OneBlockInNumbers(k: Kernel, data: Data)
    requires k.secretSize == 192 && 240 < |data| <= 1024
    ensures var m := (|data| - 1) / 64;
            Hash64(k, data) == k.merge(k.accumulate(Part(k, k.init, data, 0, m), data[|data| - 64..], 121), |data|)
  {
    HashInNumbers(k, data);
  }
}
