/**
 XXH32 and XXH64: four lanes fed a block at a time, one-shot and streaming.

 The two functions share this code up to the lane width (4 or 8 bytes), the word
 size, and how the digest decides that a whole block was seen: XXH32 keeps a sticky
 flag because its length counter wraps at 2^32, XXH64 looks at the counter itself.
 The round, the merge and the finalization of the last bytes are parameters.
 */
module XxhLanes {
  import opened Bytes
  import Words

  datatype Variant = Xxh32 | Xxh64

  datatype Lanes = Lanes(a: nat, b: nat, c: nat, d: nat)

  datatype Kernel = Kernel(
    variant: Variant,
    prime1: nat, prime2: nat, prime5: nat,
    round: (nat, Data) -> nat,
    merge: Lanes -> nat,
    finalize: (nat, Data) -> nat)

  function Width(k: Kernel): nat { if k.variant.Xxh32? then 4 else 8 }
  function BlockLen(k: Kernel): nat { if k.variant.Xxh32? then 16 else 32 }
  /** Bytes over after the last whole block. */
  function Rem(k: Kernel, n: nat): (r: nat)
    ensures r < BlockLen(k) && r <= n
  { if k.variant.Xxh32? then n % 16 else n % 32 }
  /** Arithmetic on the variant's words. */
  function Word(k: Kernel, x: int): (r: nat)
    ensures r < Modulus(k)
  { if k.variant.Xxh32? then x % 0x1_0000_0000 else x % 0x1_0000_0000_0000_0000 }
  function Modulus(k: Kernel): nat { if k.variant.Xxh32? then 0x1_0000_0000 else 0x1_0000_0000_0000_0000 }

  const SIZES: nat := 0x1_0000_0000_0000_0000      // size_t

  lemma WordSum(k: Kernel, a: int, b: int)
    ensures Word(k, a + Word(k, b)) == Word(k, a + b)
  {
    if k.variant.Xxh32? {
      Fold(a, b, 0x1_0000_0000);
    } else {
      Fold(a, b, 0x1_0000_0000_0000_0000);
    }
  }

  lemma SmallWord(k: Kernel, n: nat)
    ensures n < Modulus(k) ==> Word(k, n) == n
    ensures Word(k, n) <= n
  {}

  lemma Fold(a: int, b: int, m: nat)
    requires m > 0
    ensures (a + b % m) % m == (a + b) % m
  {
    Words.ModPlus(b, a, m);
  }

  /** XXH32_initAccs, XXH64_initAccs. */
  function InitAccs(k: Kernel, seed: nat): Lanes {
    Lanes(Word(k, seed + k.prime1 + k.prime2), Word(k, seed + k.prime2), seed, Word(k, seed - k.prime1))
  }

  function Round(k: Kernel, l: Lanes, block: Data): Lanes
    requires |block| == BlockLen(k)
  {
    var w := Width(k);
    Lanes(k.round(l.a, block[..w]), k.round(l.b, block[w..2 * w]), k.round(l.c, block[2 * w..3 * w]),
      k.round(l.d, block[3 * w..]))
  }

  // ---------------------------------------------------------------- the reference

  datatype Fed = Fed(lanes: Lanes, over: Data)

  /** Rounds while a whole block is left. */
  function Feed(k: Kernel, l: Lanes, data: Data): (f: Fed)
    ensures |f.over| < BlockLen(k)
    decreases |data|
  {
    if |data| < BlockLen(k) then Fed(l, data)
    else Feed(k, Round(k, l, data[..BlockLen(k)]), data[BlockLen(k)..])
  }

  function Hash(k: Kernel, seed: nat, data: Data): nat
    requires seed < Modulus(k)
  {
    var f := Feed(k, InitAccs(k, seed), data);
    var h := if |data| >= BlockLen(k) then k.merge(f.lanes) else Word(k, seed + k.prime5);
    k.finalize(Word(k, h + |data|), f.over)
  }

  /** Feeding in two parts is feeding the whole: only the lanes and the bytes over matter in between. */
  lemma {:induction false} FeedTwice(k: Kernel, l: Lanes, x: Data, y: Data)
    ensures Feed(k, l, x + y) == Feed(k, Feed(k, l, x).lanes, Feed(k, l, x).over + y)
    decreases |x|
  {
    var b := BlockLen(k);
    if |x| >= b {
      assert (x + y)[..b] == x[..b] && (x + y)[b..] == x[b..] + y;
      FeedTwice(k, Round(k, l, x[..b]), x[b..], y);
    }
  }

  lemma RemStep(k: Kernel, n: nat)
    requires n >= BlockLen(k)
    ensures Rem(k, n) == Rem(k, n - BlockLen(k))
  {}

  lemma {:induction false} OverLength(k: Kernel, l: Lanes, data: Data)
    ensures |Feed(k, l, data).over| == Rem(k, |data|)
    decreases |data|
  {
    var b := BlockLen(k);
    if |data| >= b {
      RemStep(k, |data|);
      OverLength(k, Round(k, l, data[..b]), data[b..]);
    }
  }

  // ---------------------------------------------------------------- one shot

  /** XXH32_consumeLong, XXH64_consumeLong. */
  method ConsumeLong(k: Kernel, l: Lanes, input: Data) returns (r: Lanes, used: nat)
    requires |input| >= BlockLen(k)
    ensures BlockLen(k) <= used <= |input| && Feed(k, l, input) == Fed(r, input[used..])
  {
    r, used := l, 0;
    var b := BlockLen(k);
    var limit := |input| - (b - 1);
    while true
      invariant used + b <= |input|
      invariant Feed(k, l, input) == Feed(k, r, input[used..])
      decreases |input| - used
    {
      assert input[used..][..b] == input[used..used + b] && input[used..][b..] == input[used + b..];
      r := Round(k, r, input[used..used + b]);
      used := used + b;
      if used >= limit { break; }
    }
  }

  method OneShot(k: Kernel, seed: nat, input: Data) returns (h: nat)
    requires seed < Modulus(k) && |input| < SIZES
    ensures h == Hash(k, seed, input)
  {
    var used := 0;
    if |input| >= BlockLen(k) {
      var accs;
      accs, used := ConsumeLong(k, InitAccs(k, seed), input);
      h := k.merge(accs);
    } else {
      h := Word(k, seed + k.prime5);
    }
    WordSum(k, h, |input|);
    h := Word(k, h + Word(k, |input|));
    h := k.finalize(h, input[used..]);
  }

  // ---------------------------------------------------------------- streaming

  class Stream {
    const k: Kernel
    const seed: nat
    const buffer: array<Byte>
    var acc: Lanes
    var bufferedSize: nat
    var totalLen: nat                // a 32- or 64-bit counter
    var largeLen: bool               // XXH32 only
    ghost var data: Data

    /** The lanes and the buffer are what feeding everything so far leaves. */
    ghost predicate Holding(d: Data)
      reads `acc, `bufferedSize, buffer
    {
      && buffer.Length == BlockLen(k) && bufferedSize < BlockLen(k)
      && Feed(k, InitAccs(k, seed), d) == Fed(acc, buffer[..bufferedSize])
    }

    ghost predicate Counted(d: Data)
      reads `totalLen, `largeLen
    {
      && seed < Modulus(k) && |d| < SIZES && totalLen == Word(k, |d|)
      && (k.variant.Xxh32? ==> largeLen == (|d| >= BlockLen(k)))
    }

    ghost predicate Valid()
      reads this, buffer
    { Holding(data) && Counted(data) }

    /** XXH32_reset, XXH64_reset. */
    constructor (k: Kernel, seed: nat)
      requires seed < Modulus(k)
      ensures Valid() && data == [] && this.k == k && this.seed == seed && fresh(buffer)
    {
      this.k, this.seed := k, seed;
      buffer := new Byte[BlockLen(k)](_ => 0);
      acc, bufferedSize, totalLen, largeLen, data := InitAccs(k, seed), 0, 0, false, [];
    }

    method Fill(at: nat, src: Data)
      requires at + |src| <= buffer.Length
      modifies buffer
      ensures buffer[..] == old(buffer[..at]) + src + old(buffer[at + |src|..])
    {
      forall j | 0 <= j < |src| { buffer[at + j] := src[j]; }
    }

    /** XXH32_update, XXH64_update. */
    method Update(input: Data)
      requires Valid() && |data| + |input| < SIZES
      modifies this, buffer
      ensures Valid() && data == old(data) + input
    {
      Count(input);
      FeedTwice(k, InitAccs(k, seed), data, input);
      Absorb(input, data + input);
      data := data + input;
    }

    /** The counters; the 32-bit one wraps, the flag does not forget. */
    method Count(input: Data)
      requires Counted(data) && |data| + |input| < SIZES
      modifies `totalLen, `largeLen
      ensures Counted(data + input)
    {
      WordSum(k, totalLen, |input|);
      WordSum(k, |input|, |data|);
      SmallWord(k, |data|);
      SmallWord(k, |data| + |input|);
      totalLen := Word(k, totalLen + Word(k, |input|));
      if k.variant.Xxh32? {
        largeLen := largeLen || |input| >= BlockLen(k) || totalLen >= BlockLen(k);
      }
    }

    /**
     Fill the buffer; once a block is complete, consume it, then whole blocks from the input, and
     buffer what is over.
     */
    method Absorb(input: Data, ghost full: Data)
      requires buffer.Length == BlockLen(k) && bufferedSize < BlockLen(k)
      requires Feed(k, InitAccs(k, seed), full) == Feed(k, acc, buffer[..bufferedSize] + input)
      modifies `acc, `bufferedSize, buffer
      ensures Holding(full)
    {
      if |input| < BlockLen(k) - bufferedSize {
        ghost var queue := buffer[..bufferedSize] + input;
        Fill(bufferedSize, input);
        bufferedSize := bufferedSize + |input|;
        assert buffer[..bufferedSize] == queue;
        return;
      }
      var rest := input;
      if bufferedSize > 0 {
        var load := BlockLen(k) - bufferedSize;
        rest := input[load..];
        assert input[..load] + rest == input;
        CompleteBlock(input[..load], rest);
      } else {
        assert buffer[..bufferedSize] + input == input;
      }
      assert Feed(k, InitAccs(k, seed), full) == Feed(k, acc, rest);
      if |rest| >= BlockLen(k) {
        var used;
        acc, used := ConsumeLong(k, acc, rest);
        rest := rest[used..];
      }
      if |rest| > 0 {
        Fill(0, rest);
        bufferedSize := |rest|;
      }
      assert buffer[..bufferedSize] == rest;
    }

    /** The buffered block is completed and consumed. */
    method CompleteBlock(head: Data, ghost rest: Data)
      requires buffer.Length == BlockLen(k) == bufferedSize + |head|
      modifies `acc, `bufferedSize, buffer
      ensures bufferedSize == 0 && Feed(k, acc, rest) == old(Feed(k, acc, buffer[..bufferedSize] + (head + rest)))
    {
      ghost var queue := buffer[..bufferedSize] + (head + rest);
      Fill(bufferedSize, head);
      assert queue == buffer[..] + rest;
      FeedTwice(k, acc, buffer[..], rest);
      var used;
      acc, used := ConsumeLong(k, acc, buffer[..]);
      assert buffer[..][used..] + rest == rest;
      bufferedSize := 0;
    }

    /** XXH32_digest, XXH64_digest. */
    method Digest() returns (h: nat)
      requires Valid()
      ensures h == Hash(k, seed, data)
    {
      OverLength(k, InitAccs(k, seed), data);
      SmallWord(k, |data|);
      var large := if k.variant.Xxh32? then largeLen else totalLen >= BlockLen(k);
      if large { h := k.merge(acc); } else { h := Word(k, acc.c + k.prime5); }
      WordSum(k, h, |data|);
      h := Word(k, h + totalLen);
      var n := if k.variant.Xxh32? then bufferedSize else Rem(k, totalLen);
      h := k.finalize(h, buffer[..n]);
    }
  }

  /**
   Main theorem: any split into updates gives the one-shot hash of the whole, for both widths, past
   the wrap of the 32-bit length too.
   */
  method StreamEqualsOneShot(k: Kernel, seed: nat, chunks: seq<Data>) returns (streamed: nat, whole: nat)
    requires seed < Modulus(k) && |Flatten(chunks)| < SIZES
    ensures streamed == whole == Hash(k, seed, Flatten(chunks))
  {
    var st := new Stream(k, seed);
    var text: Data := [];
    for i := 0 to |chunks|
      invariant st.Valid() && st.k == k && st.seed == seed && fresh(st) && fresh(st.buffer)
      invariant st.data == text == Flatten(chunks[..i])
    {
      FlattenBound(chunks, i + 1);
      assert chunks[..i + 1][..i] == chunks[..i];
      st.Update(chunks[i]);
      text := text + chunks[i];
    }
    assert chunks[..|chunks|] == chunks;
    streamed := st.Digest();
    whole := OneShot(k, seed, text);
  }

  // ---------------------------------------------------------------- the lanes, in numbers

  /** One lane over all whole blocks: the word at the given place of each. */
  function LaneOver(k: Kernel, start: nat, data: Data, block: nat, at: nat, width: nat): nat
    requires 0 < block && at + width <= block
    decreases |data|
  {
    if |data| < block then start
    else LaneOver(k, k.round(start, data[at..at + width]), data[block..], block, at, width)
  }

  /** What is left after all whole blocks. */
  function OverBytes(data: Data, block: nat): Data
    requires 0 < block
    decreases |data|
  {
    if |data| < block then data else OverBytes(data[block..], block)
  }

  lemma {:induction false} FeedLanes(k: Kernel, l: Lanes, data: Data, block: nat, w: nat)
    requires block == BlockLen(k) && w == Width(k)
    ensures Feed(k, l, data) == Fed(FourLanes(k, l, data, block, w), OverBytes(data, block))
    decreases |data|
  {
    if |data| >= block {
      RoundInNumbers(k, l, data, block, w);
      FeedLanes(k, Round(k, l, data[..block]), data[block..], block, w);
    }
  }

  lemma RoundInNumbers(k: Kernel, l: Lanes, data: Data, block: nat, w: nat)
    requires block == BlockLen(k) && w == Width(k) && block <= |data|
    ensures Round(k, l, data[..block]) ==
            Lanes(k.round(l.a, data[..w]), k.round(l.b, data[w..2 * w]),
                  k.round(l.c, data[2 * w..3 * w]), k.round(l.d, data[3 * w..4 * w]))
  {
    Slice(data, block, 0, w);
    Slice(data, block, w, 2 * w);
    Slice(data, block, 2 * w, 3 * w);
    Slice(data, block, 3 * w, 4 * w);
    assert data[..block][3 * w..] == data[..block][3 * w..4 * w];
  }

  lemma Slice(data: Data, n: nat, i: nat, j: nat)
    requires i <= j <= n <= |data|
    ensures data[..n][i..j] == data[i..j]
  {}

  /** The four lanes over all whole blocks. */
  function FourLanes(k: Kernel, l: Lanes, data: Data, block: nat, w: nat): Lanes
    requires 0 < block && 4 * w <= block
  {
    Lanes(LaneOver(k, l.a, data, block, 0, w), LaneOver(k, l.b, data, block, w, w),
          LaneOver(k, l.c, data, block, 2 * w, w), LaneOver(k, l.d, data, block, 3 * w, w))
  }

  /** The lanes start from the seed plus both primes, plus the second, the seed itself, and the seed less the first. */
  lemma InitInNumbers(k: Kernel, seed: nat)
    ensures k.variant.Xxh64? ==>
              var m := 0x1_0000_0000_0000_0000;
              InitAccs(k, seed) ==
              Lanes((seed + k.prime1 + k.prime2) % m, (seed + k.prime2) % m, seed, (seed - k.prime1) % m)
    ensures k.variant.Xxh32? ==>
              var m := 0x1_0000_0000;
              InitAccs(k, seed) ==
              Lanes((seed + k.prime1 + k.prime2) % m, (seed + k.prime2) % m, seed, (seed - k.prime1) % m)
  {}

  /**
   XXH64 in numbers: blocks of 32 bytes, each lane taking its own 8-byte word of each; below 32
   bytes no lanes at all.
   */
  lemma Xxh64InNumbers(k: Kernel, seed: nat, data: Data)
    requires k.variant.Xxh64? && seed < 0x1_0000_0000_0000_0000
    ensures var m := 0x1_0000_0000_0000_0000;
            var h := if |data| >= 32 then k.merge(FourLanes(k, InitAccs(k, seed), data, 32, 8))
                     else (seed + k.prime5) % m;
            Hash(k, seed, data) == k.finalize((h + |data|) % m, OverBytes(data, 32))
  {
    FeedLanes(k, InitAccs(k, seed), data, 32, 8);
  }

  /** XXH32 in numbers: the same with blocks of 16 bytes, words of 4, and 32-bit sums. */
  lemma Xxh32InNumbers(k: Kernel, seed: nat, data: Data)
    requires k.variant.Xxh32? && seed < 0x1_0000_0000
    ensures var m := 0x1_0000_0000;
            var h := if |data| >= 16 then k.merge(FourLanes(k, InitAccs(k, seed), data, 16, 4))
                     else (seed + k.prime5) % m;
            Hash(k, seed, data) == k.finalize((h + |data|) % m, OverBytes(data, 16))
  {
    FeedLanes(k, InitAccs(k, seed), data, 16, 4);
  }
}
