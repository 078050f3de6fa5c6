/**
 The per-key token bucket that slows passphrase guessing (rateLimiter.allow in middleware.go).  Times
 are real seconds.  The main result says exactly which calls are admitted, in terms of the history of
 calls alone.
*/
module RateLimiter {
  datatype Bucket = Bucket(tokens: real, last: real)

  datatype Call = Call(key: string, time: real)

  /* ---- the limiter ---- */

  // Tokens earned between two moments.
  function Earned(rate: real, from: real, to: real): real {
    (to - from) * rate
  }

  // The length of a window.
  function Span(from: real, to: real): real {
    to - from
  }

  lemma EarnedIs(rate: real, from: real, to: real)
    ensures Earned(rate, from, to) == rate * (to - from)
    ensures Earned(rate, from, to) == rate * Span(from, to)
  {
  }

  lemma EarnedAdds(rate: real, a: real, b: real, c: real)
    ensures Earned(rate, a, c) == Earned(rate, a, b) + Earned(rate, b, c)
    ensures Earned(rate, a, a) == 0.0
  {
  }

  function Refill(b: Bucket, now: real, rate: real, burst: real): Bucket {
    var tokens := b.tokens + Earned(rate, b.last, now);
    Bucket(if tokens > burst then burst else tokens, now)
  }

  function Take(b: Bucket): (Bucket, bool) {
    if b.tokens < 1.0 then (b, false) else (b.(tokens := b.tokens - 1.0), true)
  }

  function AllowStep(buckets: map<string, Bucket>, c: Call, rate: real, burst: real): (map<string, Bucket>, bool) {
    var b := if c.key in buckets then buckets[c.key] else Bucket(burst, c.time);
    var (b1, ok) := Take(Refill(b, c.time, rate, burst));
    (buckets[c.key := b1], ok)
  }

  class Limiter {
    var buckets: map<string, Bucket>
    const rate: real
    const burst: real

    constructor (rate: real, burst: real)
      ensures this.rate == rate && this.burst == burst && buckets == map[]
    {
      this.rate, this.burst := rate, burst;
      buckets := map[];
    }

    method Allow(key: string, now: real) returns (ok: bool)
      modifies this
      ensures (buckets, ok) == AllowStep(old(buckets), Call(key, now), rate, burst)
    {
      if key !in buckets {
        buckets := buckets[key := Bucket(burst, now)];
      }
      var b := buckets[key];
      ghost var b0 := b;
      b := b.(tokens := b.tokens + Earned(rate, b.last, now));
      if b.tokens > burst {
        b := b.(tokens := burst);
      }
      b := b.(last := now);
      buckets := buckets[key := b];
      assert b == Refill(b0, now, rate, burst) && buckets == old(buckets)[key := b];
      ok := b.tokens >= 1.0;
      if ok {
        buckets := buckets[key := b.(tokens := b.tokens - 1.0)];
        assert buckets == old(buckets)[key := b.(tokens := b.tokens - 1.0)];
      }
    }
  }

  /* ---- histories ---- */

  // The buckets after a history of calls, starting from an empty limiter.
  function After(calls: seq<Call>, rate: real, burst: real): map<string, Bucket> {
    if calls == [] then map[]
    else AllowStep(After(calls[..|calls| - 1], rate, burst), calls[|calls| - 1], rate, burst).0
  }

  // The verdict on call i of a history.
  function Admitted(calls: seq<Call>, i: nat, rate: real, burst: real): bool
    requires i < |calls|
  {
    AllowStep(After(calls[..i], rate, burst), calls[i], rate, burst).1
  }

  // How many calls on `key` with an index in lo..hi were admitted.
  function CountAdmitted(calls: seq<Call>, key: string, lo: nat, hi: nat, rate: real, burst: real): nat
    requires lo <= hi <= |calls|
    decreases hi
  {
    if lo == hi then 0
    else CountAdmitted(calls, key, lo, hi - 1, rate, burst)
         + if calls[hi - 1].key == key && Admitted(calls, hi - 1, rate, burst) then 1 else 0
  }

  ghost function AdmittedIn(calls: seq<Call>, key: string, lo: nat, hi: nat, rate: real, burst: real): set<nat>
    requires lo <= hi <= |calls|
  {
    set i: nat | lo <= i < hi && calls[i].key == key && Admitted(calls, i, rate, burst)
  }

  lemma AdmittedInStep(calls: seq<Call>, key: string, lo: nat, hi: nat, rate: real, burst: real)
    requires lo < hi <= |calls|
    ensures AdmittedIn(calls, key, lo, hi, rate, burst)
            == AdmittedIn(calls, key, lo, hi - 1, rate, burst)
               + if calls[hi - 1].key == key && Admitted(calls, hi - 1, rate, burst) then {hi - 1} else {}
    ensures hi - 1 !in AdmittedIn(calls, key, lo, hi - 1, rate, burst)
  {
    hide Admitted;
  }

  // It counts them.
  lemma {:induction false} CountIsSize(calls: seq<Call>, key: string, lo: nat, hi: nat, rate: real, burst: real)
    requires lo <= hi <= |calls|
    ensures CountAdmitted(calls, key, lo, hi, rate, burst) == |AdmittedIn(calls, key, lo, hi, rate, burst)|
    decreases hi
  {
    if lo == hi {
      assert AdmittedIn(calls, key, lo, hi, rate, burst) == {};
    } else {
      hide Admitted, AdmittedIn;
      CountIsSize(calls, key, lo, hi - 1, rate, burst);
      AdmittedInStep(calls, key, lo, hi, rate, burst);
    }
  }

  // What a window that starts at call k leaves for `key` at time `now`, before call n.
  ghost function Slack(calls: seq<Call>, key: string, k: nat, n: nat, now: real, rate: real, burst: real): real
    requires k < n <= |calls|
  {
    burst + rate * Span(calls[k].time, now) - CountAdmitted(calls, key, k, n, rate, burst) as real
  }

  lemma SlackEarned(calls: seq<Call>, key: string, k: nat, n: nat, now: real, rate: real, burst: real)
    requires k < n <= |calls|
    ensures Slack(calls, key, k, n, now, rate, burst)
            == burst + Earned(rate, calls[k].time, now) - CountAdmitted(calls, key, k, n, rate, burst) as real
  {
    hide Earned, Span, CountAdmitted;
    EarnedIs(rate, calls[k].time, now);
  }

  ghost function Slacks(calls: seq<Call>, key: string, n: nat, now: real, rate: real, burst: real): seq<real>
    requires n <= |calls|
  {
    seq(n, k requires 0 <= k < n => Slack(calls, key, k, n, now, rate, burst))
  }

  // `tokens` is the least of the slacks of windows that start at a call on this key, and of the burst.
  ghost predicate Least(calls: seq<Call>, key: string, slacks: seq<real>, tokens: real, burst: real)
    requires |slacks| <= |calls|
  {
    && tokens <= burst
    && (forall k | 0 <= k < |slacks| && calls[k].key == key :: tokens <= slacks[k])
    && (tokens == burst || exists k | 0 <= k < |slacks| && calls[k].key == key :: tokens == slacks[k])
  }

  ghost predicate LeastSlack(calls: seq<Call>, key: string, n: nat, now: real, tokens: real, rate: real, burst: real)
    requires n <= |calls|
  {
    Least(calls, key, Slacks(calls, key, n, now, rate, burst), tokens, burst)
  }

  // What the key's bucket would hold at `now`.
  function TokensAt(buckets: map<string, Bucket>, key: string, now: real, rate: real, burst: real): real {
    if key in buckets then Refill(buckets[key], now, rate, burst).tokens else burst
  }

  lemma SlackLater(calls: seq<Call>, key: string, k: nat, n: nat, t0: real, t1: real, rate: real, burst: real)
    requires k < n < |calls|
    ensures Slack(calls, key, k, n + 1, t1, rate, burst)
            == Slack(calls, key, k, n, t0, rate, burst) + Earned(rate, t0, t1)
               - (if calls[n].key == key && Admitted(calls, n, rate, burst) then 1.0 else 0.0)
  {
    SlackEarned(calls, key, k, n, t0, rate, burst);
    SlackEarned(calls, key, k, n + 1, t1, rate, burst);
    hide Earned, Slack;
    EarnedAdds(rate, calls[k].time, t0, t1);
  }

  // The bucket is the least slack: the token arithmetic computes a minimum over all windows.
  lemma {:induction false} TokensAreLeastSlack(calls: seq<Call>, key: string, n: nat, now: real, rate: real, burst: real)
    requires n <= |calls|
    ensures LeastSlack(calls, key, n, now, TokensAt(After(calls[..n], rate, burst), key, now, rate, burst), rate, burst)
    ensures key in After(calls[..n], rate, burst) <==> exists k | 0 <= k < n :: calls[k].key == key
    decreases n
  {
    hide Earned;
    if n > 0 {
      var m := n - 1;
      var c := calls[m];
      assert calls[..n][..m] == calls[..m];
      var before, after := After(calls[..m], rate, burst), After(calls[..n], rate, burst);
      assert after == AllowStep(before, c, rate, burst).0;
      if c.key == key {
        // The call itself refills at c.time; from there to `now` the bucket only grows.
        TokensAreLeastSlack(calls, key, m, c.time, rate, burst);
        OwnCall(calls, key, m, now, rate, burst);
      } else {
        TokensAreLeastSlack(calls, key, m, now, rate, burst);
        OtherCall(calls, key, m, now, rate, burst);
      }
    }
  }

  lemma OtherCall(calls: seq<Call>, key: string, m: nat, now: real, rate: real, burst: real)
    requires m < |calls| && calls[m].key != key
    requires LeastSlack(calls, key, m, now, TokensAt(After(calls[..m], rate, burst), key, now, rate, burst), rate, burst)
    ensures calls[..m + 1][..m] == calls[..m]
    ensures LeastSlack(calls, key, m + 1, now, TokensAt(After(calls[..m + 1], rate, burst), key, now, rate, burst), rate, burst)
  {
    hide Earned;
    assert calls[..m + 1][..m] == calls[..m];
    var s0, s1 := Slacks(calls, key, m, now, rate, burst), Slacks(calls, key, m + 1, now, rate, burst);
    forall k | 0 <= k < m && calls[k].key == key
      ensures s1[k] == s0[k]
    {
      SlackLater(calls, key, k, m, now, now, rate, burst);
    }
    LeastUnchanged(calls, key, s0, s1, TokensAt(After(calls[..m], rate, burst), key, now, rate, burst), burst);
  }

  lemma LeastUnchanged(calls: seq<Call>, key: string, s0: seq<real>, s1: seq<real>, tokens: real, burst: real)
    requires |s1| == |s0| + 1 <= |calls| && calls[|s0|].key != key
    requires forall k | 0 <= k < |s0| && calls[k].key == key :: s1[k] == s0[k]
    requires Least(calls, key, s0, tokens, burst)
    ensures Least(calls, key, s1, tokens, burst)
  {
    if tokens != burst {
      var k :| 0 <= k < |s0| && calls[k].key == key && tokens == s0[k];
      assert tokens == s1[k];
    }
  }

  // Spending and earning shift every slack alike, and a new window starts at the burst.
  lemma LeastShifts(calls: seq<Call>, key: string, s0: seq<real>, s1: seq<real>, before: real, shift: real, burst: real)
    requires |s1| == |s0| + 1 <= |calls| && calls[|s0|].key == key
    requires forall k | 0 <= k < |s0| && calls[k].key == key :: s1[k] == s0[k] + shift
    requires s1[|s0|] == burst + shift
    requires Least(calls, key, s0, before, burst)
    ensures Least(calls, key, s1, if before + shift > burst then burst else before + shift, burst)
  {
    if before != burst {
      var k :| 0 <= k < |s0| && calls[k].key == key && before == s0[k];
      assert before + shift == s1[k];
    } else {
      assert before + shift == s1[|s0|];
    }
  }

  // A level after some time, capped at the burst.
  function Later(tokens: real, from: real, to: real, rate: real, burst: real): real {
    var grown := tokens + Earned(rate, from, to);
    if grown > burst then burst else grown
  }

  lemma StepAtKey(buckets: map<string, Bucket>, c: Call, now: real, rate: real, burst: real)
    ensures var before := TokensAt(buckets, c.key, c.time, rate, burst);
            var (after, ok) := AllowStep(buckets, c, rate, burst);
            TokensAt(after, c.key, now, rate, burst)
              == Later(before - (if ok then 1.0 else 0.0), c.time, now, rate, burst)
  {
    hide Earned;
    EarnedAdds(rate, c.time, c.time, c.time);
    var before := TokensAt(buckets, c.key, c.time, rate, burst);
    var (after, ok) := AllowStep(buckets, c, rate, burst);
    assert after[c.key] == Bucket(before - (if ok then 1.0 else 0.0), c.time);
  }

  // The bucket of the key right after its call m, and at a later moment.
  lemma OwnBucket(calls: seq<Call>, key: string, m: nat, now: real, rate: real, burst: real)
    requires m < |calls| && calls[m].key == key
    ensures calls[..m + 1][..m] == calls[..m]
    ensures var before := TokensAt(After(calls[..m], rate, burst), key, calls[m].time, rate, burst);
            TokensAt(After(calls[..m + 1], rate, burst), key, now, rate, burst)
              == Later(before - (if Admitted(calls, m, rate, burst) then 1.0 else 0.0), calls[m].time, now, rate, burst)
  {
    hide Earned;
    assert calls[..m + 1][..m] == calls[..m];
    var buckets := After(calls[..m], rate, burst);
    assert After(calls[..m + 1], rate, burst) == AllowStep(buckets, calls[m], rate, burst).0;
    StepAtKey(buckets, calls[m], now, rate, burst);
  }

  // What call m earns and spends between its own time and `now`.
  function Shift(calls: seq<Call>, m: nat, now: real, rate: real, burst: real): real
    requires m < |calls|
  {
    Earned(rate, calls[m].time, now) - if Admitted(calls, m, rate, burst) then 1.0 else 0.0
  }

  lemma NewSlack(calls: seq<Call>, key: string, m: nat, now: real, rate: real, burst: real)
    requires m < |calls| && calls[m].key == key
    ensures Slack(calls, key, m, m + 1, now, rate, burst) == burst + Shift(calls, m, now, rate, burst)
  {
    SlackEarned(calls, key, m, m + 1, now, rate, burst);
    hide Earned, Slack;
    assert CountAdmitted(calls, key, m, m, rate, burst) == 0;
  }

  lemma ShiftedSlack(calls: seq<Call>, key: string, k: nat, m: nat, now: real, rate: real, burst: real)
    requires k < m < |calls| && calls[m].key == key
    ensures Slack(calls, key, k, m + 1, now, rate, burst)
            == Slack(calls, key, k, m, calls[m].time, rate, burst) + Shift(calls, m, now, rate, burst)
  {
    hide Earned;
    SlackLater(calls, key, k, m, calls[m].time, now, rate, burst);
  }

  lemma OwnSlacks(calls: seq<Call>, key: string, m: nat, now: real, rate: real, burst: real)
    requires m < |calls| && calls[m].key == key
    ensures var s0, s1 := Slacks(calls, key, m, calls[m].time, rate, burst), Slacks(calls, key, m + 1, now, rate, burst);
            && (forall k | 0 <= k < m && calls[k].key == key :: s1[k] == s0[k] + Shift(calls, m, now, rate, burst))
            && s1[m] == burst + Shift(calls, m, now, rate, burst)
  {
    hide Earned, Slack, Shift, CountAdmitted, Admitted;
    var s0, s1 := Slacks(calls, key, m, calls[m].time, rate, burst), Slacks(calls, key, m + 1, now, rate, burst);
    forall k | 0 <= k < m && calls[k].key == key
      ensures s1[k] == s0[k] + Shift(calls, m, now, rate, burst)
    {
      ShiftedSlack(calls, key, k, m, now, rate, burst);
    }
    NewSlack(calls, key, m, now, rate, burst);
  }

  lemma OwnCall(calls: seq<Call>, key: string, m: nat, now: real, rate: real, burst: real)
    requires m < |calls| && calls[m].key == key
    requires LeastSlack(calls, key, m, calls[m].time,
                        TokensAt(After(calls[..m], rate, burst), key, calls[m].time, rate, burst), rate, burst)
    ensures LeastSlack(calls, key, m + 1, now, TokensAt(After(calls[..m + 1], rate, burst), key, now, rate, burst), rate, burst)
  {
    hide Earned;
    var before := TokensAt(After(calls[..m], rate, burst), key, calls[m].time, rate, burst);
    var s0, s1 := Slacks(calls, key, m, calls[m].time, rate, burst), Slacks(calls, key, m + 1, now, rate, burst);
    var shift := Shift(calls, m, now, rate, burst);
    assert TokensAt(After(calls[..m + 1], rate, burst), key, now, rate, burst)
           == if before + shift > burst then burst else before + shift by {
      OwnBucket(calls, key, m, now, rate, burst);
    }
    OwnSlacks(calls, key, m, now, rate, burst);
    LeastShifts(calls, key, s0, s1, before, shift, burst);
  }

  // Admitting call n keeps the window from call k to call n within its allowance.
  ghost predicate Fits(calls: seq<Call>, k: nat, n: nat, rate: real, burst: real)
    requires k < n < |calls|
  {
    CountAdmitted(calls, calls[n].key, k, n, rate, burst) as real + 1.0 <= burst + rate * Span(calls[k].time, calls[n].time)
  }

  lemma FitsBySlack(calls: seq<Call>, k: nat, n: nat, rate: real, burst: real)
    requires k < n < |calls|
    ensures Fits(calls, k, n, rate, burst) <==> 1.0 <= Slack(calls, calls[n].key, k, n, calls[n].time, rate, burst)
  {
    hide CountAdmitted, Admitted, Span;
    var count := CountAdmitted(calls, calls[n].key, k, n, rate, burst) as real;
    var earned := rate * Span(calls[k].time, calls[n].time);
    assert Fits(calls, k, n, rate, burst) <==> count + 1.0 <= burst + earned;
    assert Slack(calls, calls[n].key, k, n, calls[n].time, rate, burst) == burst + earned - count;
    Transposed(count, burst, earned);
  }

  lemma Transposed(count: real, burst: real, earned: real)
    ensures count + 1.0 <= burst + earned <==> 1.0 <= burst + earned - count
  {
  }

  // Exactness: call n is admitted if and only if, for every window that starts at an earlier call on
  // its key or at the call itself, the calls admitted in the window plus this one stay within
  // burst + rate * (window length).  Calls on other keys do not appear in the condition.
  lemma AdmissionIsExact(calls: seq<Call>, n: nat, rate: real, burst: real)
    requires n < |calls|
    ensures Admitted(calls, n, rate, burst) <==>
            1.0 <= burst && forall k | 0 <= k < n && calls[k].key == calls[n].key :: Fits(calls, k, n, rate, burst)
  {
    hide Earned, Slack, Fits;
    var key, now := calls[n].key, calls[n].time;
    TokensAreLeastSlack(calls, key, n, now, rate, burst);
    AdmittedByTokens(calls, n, rate, burst);
    var slacks := Slacks(calls, key, n, now, rate, burst);
    forall k | 0 <= k < n && calls[k].key == key
      ensures Fits(calls, k, n, rate, burst) <==> 1.0 <= slacks[k]
    {
      FitsBySlack(calls, k, n, rate, burst);
    }
  }

  lemma AdmittedByTokens(calls: seq<Call>, n: nat, rate: real, burst: real)
    requires n < |calls|
    ensures Admitted(calls, n, rate, burst) <==>
            TokensAt(After(calls[..n], rate, burst), calls[n].key, calls[n].time, rate, burst) >= 1.0
  {
    hide Earned;
    EarnedAdds(rate, calls[n].time, calls[n].time, calls[n].time);
  }

  lemma NoSpan(rate: real, t: real)
    ensures rate * Span(t, t) == 0.0
  {
    assert Span(t, t) == 0.0;
  }

  lemma FitsMeans(calls: seq<Call>, k: nat, n: nat, rate: real, burst: real)
    requires k < n < |calls| && Fits(calls, k, n, rate, burst)
    ensures CountAdmitted(calls, calls[n].key, k, n, rate, burst) as real + 1.0
            <= burst + rate * Span(calls[k].time, calls[n].time)
  {
    hide CountAdmitted, Admitted, Span;
  }

  lemma CountLast(calls: seq<Call>, k: nat, n: nat, rate: real, burst: real)
    requires k <= n < |calls| && Admitted(calls, n, rate, burst)
    ensures CountAdmitted(calls, calls[n].key, k, n + 1, rate, burst) == CountAdmitted(calls, calls[n].key, k, n, rate, burst) + 1
    ensures k == n ==> CountAdmitted(calls, calls[n].key, k, n, rate, burst) == 0
  {
    hide Admitted;
  }

  // In any window between two calls on one key, at most burst + rate * (window length) are admitted.
  lemma WindowBound(calls: seq<Call>, k: nat, n: nat, rate: real, burst: real)
    requires k <= n < |calls| && calls[k].key == calls[n].key && Admitted(calls, n, rate, burst)
    ensures CountAdmitted(calls, calls[n].key, k, n + 1, rate, burst) as real
            <= burst + rate * Span(calls[k].time, calls[n].time)
  {
    hide Admitted, Fits, CountAdmitted, Span;
    AdmissionIsExact(calls, n, rate, burst);
    CountLast(calls, k, n, rate, burst);
    if k == n {
      NoSpan(rate, calls[n].time);
    } else {
      FitsMeans(calls, k, n, rate, burst);
    }
  }

  /* ---- other keys ---- */

  function OnKey(calls: seq<Call>, key: string): seq<Call> {
    if calls == [] then []
    else OnKey(calls[..|calls| - 1], key)
         + if calls[|calls| - 1].key == key then [calls[|calls| - 1]] else []
  }

  // `OnKey` keeps exactly the calls on the key, in order.
  lemma {:induction false} OnKeyFilters(a: seq<Call>, b: seq<Call>, c: Call, key: string)
    ensures OnKey(a + b, key) == OnKey(a, key) + OnKey(b, key)
    ensures OnKey([c], key) == if c.key == key then [c] else []
    decreases |b|
  {
    assert [c][..0] == [];
    if b == [] {
      assert a + b == a;
    } else {
      var front := b[..|b| - 1];
      assert (a + b)[..|a + b| - 1] == a + front;
      OnKeyFilters(a, front, c, key);
    }
  }

  // A key's bucket is what the calls on that key alone would have made of it.
  lemma {:induction false} OtherKeysIrrelevant(calls: seq<Call>, key: string, rate: real, burst: real)
    ensures var all, own := After(calls, rate, burst), After(OnKey(calls, key), rate, burst);
            (key in all <==> key in own) && (key in all ==> all[key] == own[key])
    decreases |calls|
  {
    if calls != [] {
      var front, c := calls[..|calls| - 1], calls[|calls| - 1];
      OtherKeysIrrelevant(front, key, rate, burst);
      if c.key == key {
        var own := OnKey(front, key) + [c];
        assert own[..|own| - 1] == OnKey(front, key) && own[|own| - 1] == c;
      } else {
        assert OnKey(calls, key) == OnKey(front, key);
      }
    }
  }

  // So the verdict on a call is the same with all calls on other keys left out.
  lemma VerdictIgnoresOtherKeys(calls: seq<Call>, c: Call, rate: real, burst: real)
    ensures AllowStep(After(calls, rate, burst), c, rate, burst).1
            == AllowStep(After(OnKey(calls, c.key), rate, burst), c, rate, burst).1
  {
    OtherKeysIrrelevant(calls, c.key, rate, burst);
  }

  /* ---- which calls share a key ---- */

  // The part of "host:port" before the first ':' (strings.Cut); all of it if there is none.
  function HostOf(addr: string): string {
    if addr == "" || addr[0] == ':' then "" else [addr[0]] + HostOf(addr[1..])
  }

  function LimitKey(route: string, addr: string): string {
    route + "|" + HostOf(addr)
  }

  lemma {:induction false} HostExactly(host: string, port: string)
    requires ':' !in host
    ensures HostOf(host) == host && HostOf(host + ":" + port) == host
    decreases |host|
  {
    if host != "" {
      assert host[0] in host && forall c | c in host[1..] :: c in host;
      assert (host + ":" + port)[1..] == host[1..] + ":" + port;
      HostExactly(host[1..], port);
    } else {
      assert (host + ":" + port)[0] == ':';
    }
  }

  lemma RouteOfKey(route: string, rest: string)
    requires '|' !in route
    ensures var key := route + "|" + rest;
            && key[|route|] == '|' && (forall i | 0 <= i < |route| :: key[i] != '|')
            && key[..|route|] == route && key[|route| + 1..] == rest
  {
    forall i | 0 <= i < |route|
      ensures (route + "|" + rest)[i] != '|'
    {
      assert route[i] in route;
    }
  }

  // Calls share a bucket exactly when both the route and the host agree.
  lemma KeysApart(r1: string, a1: string, r2: string, a2: string)
    requires '|' !in r1 && '|' !in r2
    ensures LimitKey(r1, a1) == LimitKey(r2, a2) <==> r1 == r2 && HostOf(a1) == HostOf(a2)
  {
    RouteOfKey(r1, HostOf(a1));
    RouteOfKey(r2, HostOf(a2));
  }
}
