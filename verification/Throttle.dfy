/**
 The upload throttle (throttle.go): a token bucket around a reader, refilled by elapsed time and
 allowed to sleep.  Times are integer nanoseconds, token levels are real.
*/
module Throttle {
  import opened Envelope

  const CHUNK: int := 16 * 1024
  const SECOND: int := 1_000_000_000

  /* ---- mbpsToBytes ---- */

  // Go's int64 arithmetic wraps around.
  function Wrap64(x: int): int {
    (x + 0x8000_0000_0000_0000) % 0x1_0000_0000_0000_0000 - 0x8000_0000_0000_0000
  }

  // Go's integer division truncates toward zero.
  function TruncDiv(x: int, d: int): int
    requires d > 0
  {
    if x >= 0 then x / d else -(-x / d)
  }

  function MbpsToBytes(mbps: int): int {
    if mbps <= 0 then 0 else TruncDiv(Wrap64(mbps * 1_000_000), 8)
  }

  // The int64 that a product wraps to, and the quotient with its remainder on the dividend's side.
  lemma WrapsToInt64(x: int)
    ensures -0x8000_0000_0000_0000 <= Wrap64(x) < 0x8000_0000_0000_0000
    ensures exists turns: int :: x == Wrap64(x) + turns * 0x1_0000_0000_0000_0000
  {
    var turns := (x + 0x8000_0000_0000_0000) / 0x1_0000_0000_0000_0000;
    assert x == Wrap64(x) + turns * 0x1_0000_0000_0000_0000;
  }

  lemma TruncatesTowardZero(x: int, d: int)
    requires d > 0
    ensures var rest := x - TruncDiv(x, d) * d;
            -d < rest < d && (x >= 0 ==> rest >= 0) && (x <= 0 ==> rest <= 0)
  {
  }

  const MAX_MBPS: int := 0x7FFF_FFFF_FFFF_FFFF / 1_000_000

  // The rate is exact up to the point where the product leaves int64, and wrong for every setting above;
  // a setting that is not positive is no rate.
  lemma RateIsExact(mbps: int)
    ensures mbps <= 0 ==> MbpsToBytes(mbps) == 0
    ensures mbps > 0 ==> (MbpsToBytes(mbps) == mbps * 125_000 <==> mbps <= MAX_MBPS)
    ensures 0 < mbps <= MAX_MBPS ==> MbpsToBytes(mbps) > 16_384
  {
    var product, wrapped := mbps * 1_000_000, Wrap64(mbps * 1_000_000);
    assert wrapped <= 0x7FFF_FFFF_FFFF_FFFF;
    if 0 < mbps <= MAX_MBPS {
      assert wrapped == product;
    }
    if mbps > MAX_MBPS {
      assert product > 0x7FFF_FFFF_FFFF_FFFF;
      assert TruncDiv(wrapped, 8) <= 0x7FFF_FFFF_FFFF_FFFF / 8 < product / 8;
    }
  }

  // Above it the product wraps: one such setting is throttled to 8 bytes a second, and the first one
  // turns the throttle off.
  const OVERFLOWING_MBPS: int := 76_480_200_929_599_801

  lemma RateWraps()
    ensures MbpsToBytes(OVERFLOWING_MBPS) == 8
    ensures MbpsToBytes(MAX_MBPS + 1) < 0
  {
    assert OVERFLOWING_MBPS * 1_000_000 == 4146 * 0x1_0000_0000_0000_0000 + 64;
  }

  /* ---- the level ---- */

  // The level after a read that finds `level`, may take `want` bytes, and gets n of them: if the level
  // is short the reader sleeps and then has exactly `want`.
  function LevelAfter(level: real, want: nat, n: nat): real {
    (if level < want as real then want as real else level) - n as real
  }

  ghost predicate WithinRate(rate: int, level: real, want: nat, n: nat) {
    0.0 <= LevelAfter(level, want, n) <= rate as real
  }

  // The level stays within 0..rate through every read exactly when the rate is at least one chunk.
  lemma LevelStaysWithinRate(rate: int)
    requires rate > 0
    ensures (forall level: real, want: nat, n: nat | 0.0 <= level <= rate as real && n <= want <= CHUNK ::
               WithinRate(rate, level, want, n))
            <==> rate >= CHUNK
  {
    if rate < CHUNK {
      assert !WithinRate(rate, 0.0, CHUNK, 0);
    }
  }

  // In particular, `mbpsToBytes` can give a rate that a short read after a sleep takes it above.
  lemma WrappedRateIsExceeded()
    ensures var rate := MbpsToBytes(OVERFLOWING_MBPS);
            forall level: real, want: nat, n: nat | 0.0 <= level <= rate as real && n <= want ::
              (LevelAfter(level, want, n) > rate as real <==> want as real > level && want - n > rate)
  {
    RateWraps();
  }

  /* ---- the reader ---- */

  // The wrapped reader: a stream that may hand out less than asked for.
  class Source {
    const stream: Bytes
    var pos: nat
    ghost var asked: nat   // the size of the last read

    ghost predicate Valid()
      reads this
    {
      pos <= |stream|
    }

    constructor (stream: Bytes)
      ensures Valid() && this.stream == stream && pos == 0
    {
      this.stream := stream;
      pos, asked := 0, 0;
    }

    method Read(limit: nat) returns (chunk: Bytes)
      requires Valid()
      modifies this
      ensures Valid() && |chunk| <= limit && pos == old(pos) + |chunk| && chunk == stream[old(pos)..pos]
      ensures asked == limit
    {
      var n: nat :| n <= limit && pos + n <= |stream|;
      chunk := stream[pos..pos + n];
      pos, asked := pos + n, limit;
    }
  }

  // Nanoseconds that time.Sleep is asked for: the exact duration, truncated.
  function SleepTime(need: real, rate: int): int
    requires rate > 0
  {
    (need / rate as real * SECOND as real).Floor
  }

  class Reader {
    const source: Source
    const rate: int
    const began: int
    var bucket: real
    var last: int
    ghost var delivered: Bytes   // everything handed out so far
    ghost var stalls: nat        // how often a read slept

    // Everything delivered plus everything in hand is covered by the first second's allowance, the
    // elapsed time, and one nanosecond's worth for each truncated sleep.
    ghost predicate Valid()
      reads this, source
    {
      && rate > 0 && began <= last && source.Valid()
      && delivered == source.stream[..source.pos]
      && 0.0 <= bucket <= (if rate > CHUNK then rate else CHUNK) as real
      && |delivered| as real + bucket <= Allowance(rate, last - began, stalls)
    }

    // newThrottledReader for a positive rate (other rates leave the reader unwrapped).
    constructor (source: Source, rate: int, now: int)
      requires rate > 0 && source.Valid() && source.pos == 0
      ensures Valid() && this.source == source && this.rate == rate && began == now && last == now
      ensures delivered == [] && stalls == 0 && bucket == rate as real
    {
      this.source, this.rate, began := source, rate, now;
      bucket, last := rate as real, now;
      delivered, stalls := [], 0;
    }

    // What a read of `len` bytes at `now` finds in the bucket, and what it then lacks.
    function Refilled(now: int): real
      reads this
    {
      var level := bucket + Worth(rate, now - last);
      if level > rate as real then rate as real else level
    }

    // The level refills at the rate, per second, up to one second's worth.
    lemma RefillsAtRate(now: int)
      ensures var grown := bucket + rate as real * ((now - last) as real / 1_000_000_000.0);
              Refilled(now) == if grown > rate as real then rate as real else grown
    {
      WorthIs(rate, now - last);
    }

    function Want(len: nat): nat { if len > CHUNK then CHUNK else len }

    // `now` and `woke` are the two clock readings; the clock does not run backwards, and a sleep lasts
    // at least as long as asked.
    method Read(len: nat, now: int, woke: int) returns (chunk: Bytes)
      requires Valid() && last <= now
      requires Refilled(now) < Want(len) as real ==>
                 woke >= now + SleepTime(Want(len) as real - Refilled(now), rate) && woke >= now
      modifies this, source
      ensures Valid() && |chunk| <= Want(len) && source.asked == if len > 16_384 then 16_384 else len
      ensures delivered == old(delivered) + chunk && source.pos == old(source.pos) + |chunk|
      ensures if old(Refilled(now)) < Want(len) as real
              then stalls == old(stalls) + 1 && last == woke
              else stalls == old(stalls) && last == now
      ensures bucket == LevelAfter(old(Refilled(now)), Want(len), |chunk|)
    {
      hide Worth, Allowance, SleepTime;
      ghost var d := |delivered|;
      RefillCovered(d, bucket, rate, last - began, now - last, now - began, stalls);
      bucket := bucket + Worth(rate, now - last);
      if bucket > rate as real {
        bucket := rate as real;
      }
      last := now;
      var want := if len > CHUNK then CHUNK else len;
      if bucket < want as real {
        SleepCovered(d, bucket, rate, want, now - began, woke - now, woke - began, stalls);
        stalls := stalls + 1;
        bucket := want as real;
        last := woke;
      }
      assert d as real + bucket <= Allowance(rate, last - began, stalls) && want as real <= bucket;
      chunk := source.Read(want);
      bucket := bucket - |chunk| as real;
      delivered := delivered + chunk;
      assert |delivered| as real == d as real + |chunk| as real;
    }

    // By elapsed time t the reader has delivered at most rate * (1 + t), plus rate * 1ns per stall; what
    // it delivered is a prefix of the wrapped stream; and the level stays within 0..rate, or 0..one chunk
    // for smaller rates, which `LevelStaysWithinRate` shows is all that can be said.
    lemma Bounds()
      requires Valid()
      ensures |delivered| as real <= rate as real * (1.0 + (last - began) as real / 1_000_000_000.0 + stalls as real / 1_000_000_000.0)
      ensures delivered <= source.stream
      ensures 0.0 <= bucket && (bucket <= rate as real || bucket <= CHUNK as real)
      ensures rate >= CHUNK ==> bucket <= rate as real
    {
      AllowanceIsWorth(rate, last - began, stalls);
      WorthIs(rate, SECOND + (last - began) + stalls);
      var t, n := (last - began) as real, stalls as real;
      assert (SECOND + (last - began) + stalls) as real == 1_000_000_000.0 + t + n;
      assert (1_000_000_000.0 + t + n) / 1_000_000_000.0 == 1.0 + t / 1_000_000_000.0 + n / 1_000_000_000.0;
    }
  }

  // What the rate earns in some nanoseconds.
  function Worth(rate: int, nanos: int): real {
    rate as real * nanos as real / SECOND as real
  }

  lemma WorthIs(rate: int, nanos: int)
    ensures Worth(rate, nanos) == rate as real * (nanos as real / 1_000_000_000.0)
  {
  }

  // The bytes that may have been handed out: one second's worth at the start, the elapsed time, and a
  // nanosecond for each stall.
  function Allowance(rate: int, elapsed: int, stalls: nat): real {
    rate as real + Worth(rate, elapsed) + stalls as real * Worth(rate, 1)
  }

  lemma AllowanceGrows(rate: int, elapsed: int, more: int, stalls: nat)
    requires rate > 0 && more >= 0
    ensures Allowance(rate, elapsed + more, stalls) == Allowance(rate, elapsed, stalls) + Worth(rate, more)
    ensures Allowance(rate, elapsed, stalls + 1) == Allowance(rate, elapsed, stalls) + Worth(rate, 1)
    ensures Worth(rate, more) >= 0.0
  {
    assert (elapsed + more) as real == elapsed as real + more as real;
    assert (stalls + 1) as real * Worth(rate, 1) == stalls as real * Worth(rate, 1) + Worth(rate, 1);
  }

  // Refilling, even uncapped, stays covered by the allowance at the new time.
  lemma RefillCovered(d: nat, bucket: real, rate: int, elapsed: int, more: int, total: int, stalls: nat)
    requires rate > 0 && more >= 0 && total == elapsed + more
    requires d as real + bucket <= Allowance(rate, elapsed, stalls)
    ensures d as real + (bucket + Worth(rate, more)) <= Allowance(rate, total, stalls)
    ensures Worth(rate, more) >= 0.0
  {
    AllowanceGrows(rate, elapsed, more, stalls);
  }

  // So does setting the level to `want` after sleeping for what was missing.
  lemma SleepCovered(d: nat, bucket: real, rate: int, want: nat, elapsed: int, slept: int, total: int, stalls: nat)
    requires rate > 0 && total == elapsed + slept && slept >= 0
    requires slept >= SleepTime(want as real - bucket, rate)
    requires d as real + bucket <= Allowance(rate, elapsed, stalls)
    ensures d as real + want as real <= Allowance(rate, total, stalls + 1)
  {
    SleepCovers(want as real - bucket, rate, slept);
    AllowanceGrows(rate, elapsed, slept, stalls);
    AllowanceGrows(rate, total, 0, stalls);
  }

  lemma AllowanceIsWorth(rate: int, elapsed: int, stalls: nat)
    ensures Allowance(rate, elapsed, stalls) == Worth(rate, SECOND + elapsed + stalls)
  {
    var r, s := rate as real, SECOND as real;
    assert (SECOND + elapsed + stalls) as real == s + elapsed as real + stalls as real;
    assert r * (s + elapsed as real + stalls as real) / s == r + r * elapsed as real / s + stalls as real * (r / s);
  }

  // A truncated sleep earns what was missing, short of one nanosecond's worth.
  lemma SleepCovers(need: real, rate: int, slept: int)
    requires rate > 0 && slept >= SleepTime(need, rate)
    ensures Worth(rate, slept) >= need - Worth(rate, 1)
  {
    var r, s, d := rate as real, SECOND as real, need / rate as real * SECOND as real;
    assert slept as real >= d - 1.0;
    MulMonotone(r, d - 1.0, slept as real);
    assert r * d == need * s;
    assert r * (d - 1.0) / s == need - r / s;
  }

  // And no more is asked for: a sleep is the longest number of whole nanoseconds that earns no more than
  // what was missing.
  lemma SleepIsExact(need: real, rate: int)
    requires rate > 0 && need >= 0.0
    ensures Worth(rate, SleepTime(need, rate)) <= need < Worth(rate, SleepTime(need, rate) + 1)
  {
    var r, s := rate as real, SECOND as real;
    var d, t := need / r * s, SleepTime(need, rate);
    var low, high := t as real, (t + 1) as real;
    assert low <= d < high;
    EarnedBetween(r, need, s, d, low, high);
    assert Worth(rate, t) == r * low / s && Worth(rate, t + 1) == r * high / s;
  }

  lemma EarnedBetween(r: real, need: real, s: real, d: real, low: real, high: real)
    requires r > 0.0 && s > 0.0 && d == need / r * s && low <= d < high
    ensures r * low / s <= need < r * high / s
  {
    Cancels(r, need, s, d);
    Scaled(r, low, d, high, need * s);
    Divided(r * low, need, r * high, s);
  }

  lemma Scaled(r: real, low: real, d: real, high: real, product: real)
    requires r > 0.0 && low <= d < high && r * d == product
    ensures r * low <= product < r * high
  {
    MulMonotone(r, low, d);
    MulStrict(r, d, high);
  }

  lemma Cancels(r: real, need: real, s: real, d: real)
    requires r > 0.0 && d == need / r * s
    ensures r * d == need * s
  {
    var q := need / r;
    assert r * q == need;
    assert r * (q * s) == (r * q) * s;
  }

  lemma Divided(below: real, need: real, above: real, s: real)
    requires s > 0.0 && below <= need * s < above
    ensures below / s <= need < above / s
  {
    assert below / s * s == below && above / s * s == above;
    if below / s > need {
      MulStrict(s, need, below / s);
    }
    if above / s <= need {
      MulMonotone(s, above / s, need);
    }
  }

  lemma MulStrict(r: real, a: real, b: real)
    requires r > 0.0 && a < b
    ensures r * a < r * b
  {
  }

  lemma MulMonotone(r: real, a: real, b: real)
    requires r >= 0.0 && a <= b
    ensures r * a <= r * b
  {
  }
}
