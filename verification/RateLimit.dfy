/**
 The token bucket in front of the playground endpoints. Reals stand for float64;
 time is in seconds and never goes back.
 */
module RateLimit {
  import opened Prelude
  import opened Credit

  datatype Bucket = Bucket(tokens: real, last: real, rate: real, burst: real)

  function NewBucket(perHour: int, burst: int, at: real): Bucket {
    Bucket(burst as real, at, perHour as real / 3600.0, burst as real)
  }

  function Earned(b: Bucket, now: real): real { (now - b.last) * b.rate }

  /** Tokens at hand when a call arrives. */
  function Level(b: Bucket, now: real): real {
    Min(b.tokens + Earned(b, now), b.burst)
  }

  predicate Admits(b: Bucket, now: real) { Level(b, now) >= 1.0 }

  function Use(b: Bucket, now: real): Bucket {
    b.(last := now, tokens := if Admits(b, now) then Level(b, now) - 1.0 else Level(b, now))
  }

  /** `created` is the clock's reading when a missing bucket is made. */
  datatype Call = Call(key: string, perHour: int, burst: int, created: real, now: real)

  /** The bucket a call works with; the arguments matter only when there is none yet. */
  function BucketFor(buckets: map<string, Bucket>, c: Call): Bucket {
    if c.key in buckets then buckets[c.key] else NewBucket(c.perHour, c.burst, c.created)
  }

  predicate Answer(buckets: map<string, Bucket>, c: Call) {
    Admits(BucketFor(buckets, c), c.now)
  }

  function Charge(buckets: map<string, Bucket>, c: Call): map<string, Bucket> {
    buckets[c.key := Use(BucketFor(buckets, c), c.now)]
  }

  class RateLimiter {
    var buckets: map<string, Bucket>

    constructor ()
      ensures buckets == map[]
    {
      buckets := map[];
    }

    method Allow(key: string, perHour: int, burst: int, created: real, now: real) returns (ok: bool)
      requires created <= now
      modifies this
      ensures ok == Answer(old(buckets), Call(key, perHour, burst, created, now))
      ensures buckets == Charge(old(buckets), Call(key, perHour, burst, created, now))
    {
      var b := BucketFor(buckets, Call(key, perHour, burst, created, now));
      var tokens := b.tokens + Earned(b, now);
      if tokens > b.burst {
        tokens := b.burst;
      }
      ok := !(tokens < 1.0);
      if ok {
        tokens := tokens - 1.0;
      }
      buckets := buckets[key := b.(tokens := tokens, last := now)];
    }
  }

  // ---------------------------------------------------------------- a key's whole history

  /** A fresh bucket and the times of the calls made on it. */
  ghost predicate Fresh(b: Bucket, ts: seq<real>) {
    && b.tokens == b.burst && b.rate >= 0.0
    && Nondecreasing(ts)
    && (|ts| > 0 ==> b.last <= ts[0])
  }

  function After(b: Bucket, ts: seq<real>, n: nat): Bucket
    requires n <= |ts|
  {
    if n == 0 then b else Use(After(b, ts, n - 1), ts[n - 1])
  }

  /** What Allow answers to each call of a history. */
  function Answers(b: Bucket, ts: seq<real>): seq<bool> {
    seq(|ts|, i requires 0 <= i < |ts| => Admits(After(b, ts, i), ts[i]))
  }

  // ---------------------------------------------------------------- many keys

  function Charged(calls: seq<Call>): map<string, Bucket> {
    if calls == [] then map[] else Charge(Charged(calls[..|calls| - 1]), Last(calls))
  }

  /** When a key was asked for. */
  function Times(calls: seq<Call>, key: string): seq<real> {
    if calls == [] then []
    else Times(calls[..|calls| - 1], key) + if Last(calls).key == key then [Last(calls).now] else []
  }

  function FirstCall(calls: seq<Call>, key: string): Option<Call> {
    if calls == [] then None
    else
      var first := FirstCall(calls[..|calls| - 1], key);
      if first.None? && Last(calls).key == key then Some(Last(calls)) else first
  }

  lemma {:induction false} AfterPrefix(b: Bucket, ts: seq<real>, t: real, n: nat)
    requires n <= |ts|
    ensures After(b, ts + [t], n) == After(b, ts, n)
    decreases n
  {
    if n > 0 { AfterPrefix(b, ts, t, n - 1); }
  }

  /** A key's bucket is what its first call's arguments and its own calls make of it. */
  ghost predicate Kept(calls: seq<Call>, key: string) {
    var buckets, ts, first := Charged(calls), Times(calls, key), FirstCall(calls, key);
    if first.None? then key !in buckets && ts == []
    else key in buckets
         && buckets[key] == After(NewBucket(first.value.perHour, first.value.burst, first.value.created), ts, |ts|)
  }

  lemma {:induction false} KeptAlways(calls: seq<Call>, key: string)
    ensures Kept(calls, key)
    decreases |calls|
  {
    if calls != [] {
      var pre, c := calls[..|calls| - 1], Last(calls);
      KeptAlways(pre, key);
      var ts := Times(pre, key);
      if c.key == key {
        var first := FirstCall(calls, key).value;
        AfterPrefix(NewBucket(first.perHour, first.burst, first.created), ts, c.now, |ts|);
      } else {
        assert ts + [] == ts;
      }
    }
  }

  /**
   However the calls of many keys interleave, a key is answered as if it were alone, with
   the rate and burst of its first call.
   */
  lemma KeysAreIndependent(calls: seq<Call>, c: Call)
    ensures var key, all := c.key, calls + [c]; var first := FirstCall(all, key); var ts := Times(all, key);
            && first.Some? && |ts| > 0
            && Answer(Charged(calls), c)
               == Answers(NewBucket(first.value.perHour, first.value.burst, first.value.created), ts)[|ts| - 1]
  {
    var all := calls + [c];
    assert all[..|calls|] == calls;
    KeptAlways(calls, c.key);
    var first, ts := FirstCall(all, c.key).value, Times(calls, c.key);
    AfterPrefix(NewBucket(first.perHour, first.burst, first.created), ts, c.now, |ts|);
  }

  function Credits(rate: real, ts: seq<real>): seq<real> {
    seq(|ts|, i requires 0 <= i < |ts| => rate * ts[i])
  }

  lemma Scales(rate: real, x: real, y: real)
    requires rate >= 0.0 && x <= y
    ensures rate * x <= rate * y
  {
  }

  lemma CreditCalls(b: Bucket, ts: seq<real>)
    requires Fresh(b, ts)
    ensures Calls(b.rate * b.last, Credits(b.rate, ts))
  {
    forall i, j | 0 <= i <= j < |ts| ensures b.rate * ts[i] <= b.rate * ts[j] {
      Scales(b.rate, ts[i], ts[j]);
    }
    if |ts| > 0 { Scales(b.rate, b.last, ts[0]); }
  }

  lemma {:induction false} AfterIsTokens(b: Bucket, ts: seq<real>, n: nat)
    requires n <= |ts| && b.tokens == b.burst
    ensures var a := After(b, ts, n);
            && a.rate == b.rate && a.burst == b.burst && a.last == (if n == 0 then b.last else ts[n - 1])
            && a.tokens == Tokens(b.burst, b.rate * b.last, Credits(b.rate, ts), n)
    decreases n
  {
    if n > 0 {
      AfterIsTokens(b, ts, n - 1);
      LevelAgrees(b, ts, n - 1);
    }
  }

  lemma LevelAgrees(b: Bucket, ts: seq<real>, n: nat)
    requires n < |ts|
    requires var a := After(b, ts, n);
             && a.rate == b.rate && a.burst == b.burst && a.last == (if n == 0 then b.last else ts[n - 1])
             && a.tokens == Tokens(b.burst, b.rate * b.last, Credits(b.rate, ts), n)
    ensures Level(After(b, ts, n), ts[n]) == Credit.Level(b.burst, b.rate * b.last, Credits(b.rate, ts), n)
  {
    LevelByCredit(After(b, ts, n), ts[n], Credits(b.rate, ts)[n],
                  if n == 0 then b.rate * b.last else Credits(b.rate, ts)[n - 1]);
  }

  lemma LevelByCredit(a: Bucket, now: real, earned: real, before: real)
    requires earned == a.rate * now && before == a.rate * a.last
    ensures Level(a, now) == Min(a.tokens + earned - before, a.burst)
  {
    EarnedIsCredit(a, now);
    Regroup(a.tokens, Earned(a, now), earned, before);
  }

  lemma EarnedIsCredit(a: Bucket, now: real)
    ensures Earned(a, now) == a.rate * now - a.rate * a.last
  {
    Distribute(a.rate, now, a.last);
  }

  lemma Regroup(tokens: real, gain: real, earned: real, before: real)
    requires gain == earned - before
    ensures tokens + gain == tokens + earned - before
  {
  }

  lemma Distribute(rate: real, x: real, y: real)
    ensures (x - y) * rate == rate * x - rate * y
    ensures rate * (x - y) == rate * x - rate * y
  {
  }

  lemma AnswersAreDecisions(b: Bucket, ts: seq<real>)
    requires b.tokens == b.burst
    ensures Answers(b, ts) == Decisions(b.burst, b.rate * b.last, Credits(b.rate, ts))
    ensures forall n :: 0 <= n < |ts| ==>
              Level(After(b, ts, n), ts[n]) == Credit.Level(b.burst, b.rate * b.last, Credits(b.rate, ts), n)
  {
    forall n | 0 <= n < |ts|
      ensures Level(After(b, ts, n), ts[n]) == Credit.Level(b.burst, b.rate * b.last, Credits(b.rate, ts), n)
    {
      AfterIsTokens(b, ts, n);
      LevelAgrees(b, ts, n);
    }
  }

  /** What the window from call k to call n allows: burst plus rate times its length. */
  function Allowance(b: Bucket, ts: seq<real>, k: int, n: int): real
    requires 0 <= k < |ts| && 0 <= n < |ts|
  {
    b.burst + b.rate * (ts[n] - ts[k])
  }

  lemma AllowanceIsCredit(b: Bucket, ts: seq<real>, k: int, n: int)
    requires 0 <= k < |ts| && 0 <= n < |ts|
    ensures Allowance(b, ts, k, n) == b.burst + (Credits(b.rate, ts)[n] - Credits(b.rate, ts)[k])
  {
    Distribute(b.rate, ts[n], ts[k]);
  }

  /**
   The level a call finds is the minimum, over every window that ends with it, of the
   window's allowance less what it has already admitted.
   */
  lemma LevelIsTightestWindow(b: Bucket, ts: seq<real>, n: nat)
    requires Fresh(b, ts) && n < |ts|
    ensures var level := Level(After(b, ts, n), ts[n]); var d := Answers(b, ts);
            && (forall k :: 0 <= k <= n ==> level <= Allowance(b, ts, k, n) - Count(d, k, n) as real)
            && (exists k :: 0 <= k <= n && level == Allowance(b, ts, k, n) - Count(d, k, n) as real)
  {
    var c := Credits(b.rate, ts);
    CreditCalls(b, ts);
    AnswersAreDecisions(b, ts);
    var tight := LevelIsTightest(b.burst, b.rate * b.last, c, n);
    forall k | 0 <= k <= n
      ensures Allowance(b, ts, k, n) - Count(Answers(b, ts), k, n) as real == Room(b.burst, c, Answers(b, ts), k, n)
    {
      AllowanceIsCredit(b, ts, k, n);
    }
  }

  /** Every window, however chosen, admits at most burst + rate * length. */
  lemma WindowAdmitsAtMost(b: Bucket, ts: seq<real>, i: nat, j: nat)
    requires Fresh(b, ts) && i <= j < |ts| && b.burst >= 0.0
    ensures Count(Answers(b, ts), i, j + 1) as real <= Allowance(b, ts, i, j)
  {
    CreditCalls(b, ts);
    AnswersAreDecisions(b, ts);
    AllowanceIsCredit(b, ts, i, j);
    WindowsBounded(b.burst, b.rate * b.last, Credits(b.rate, ts), i, j);
  }

  /** What the arguments of Allow mean: no hour admits more than the burst plus the hourly rate. */
  lemma HourAdmitsAtMost(perHour: nat, burst: nat, created: real, ts: seq<real>, i: nat, j: nat)
    requires Nondecreasing(ts) && i <= j < |ts| && created <= ts[0] && ts[j] - ts[i] <= 3600.0
    ensures Count(Answers(NewBucket(perHour, burst, created), ts), i, j + 1) <= burst + perHour
  {
    var b := NewBucket(perHour, burst, created);
    assert Fresh(b, ts) by { RateNonnegative(perHour); }
    WindowAdmitsAtMost(b, ts, i, j);
    HourAllowance(perHour, burst, created, ts, i, j);
  }

  lemma RateNonnegative(perHour: nat)
    ensures perHour as real / 3600.0 >= 0.0
  {
  }

  lemma HourAllowance(perHour: nat, burst: nat, created: real, ts: seq<real>, i: nat, j: nat)
    requires i <= j < |ts| && 0.0 <= ts[j] - ts[i] <= 3600.0
    ensures Allowance(NewBucket(perHour, burst, created), ts, i, j) <= (burst + perHour) as real
  {
    var b, length := NewBucket(perHour, burst, created), ts[j] - ts[i];
    HourOfCredit(b.rate, perHour, length);
    assert Allowance(b, ts, i, j) == burst as real + b.rate * length;
    assert (burst + perHour) as real == burst as real + perHour as real;
  }

  lemma HourOfCredit(rate: real, perHour: nat, length: real)
    requires rate == perHour as real / 3600.0 && 0.0 <= length <= 3600.0
    ensures rate * length <= perHour as real
  {
    RateNonnegative(perHour);
    Scales(rate, length, 3600.0);
    assert rate * 3600.0 == perHour as real;
  }

  ghost predicate Overfills(b: Bucket, ts: seq<real>, d: seq<bool>, k: int, n: int) {
    0 <= k <= n < |ts| == |d| && (Count(d, k, n) + 1) as real > Allowance(b, ts, k, n)
  }

  lemma OverfillsIsWouldBreak(b: Bucket, ts: seq<real>, d: seq<bool>)
    ensures forall k, n :: Overfills(b, ts, d, k, n) <==> WouldBreak(b.burst, Credits(b.rate, ts), d, k, n)
  {
    forall k, n | 0 <= k <= n < |ts|
      ensures Allowance(b, ts, k, n) == b.burst + (Credits(b.rate, ts)[n] - Credits(b.rate, ts)[k])
    {
      AllowanceIsCredit(b, ts, k, n);
    }
  }

  /** A call is refused exactly when admitting it would overfill some window. */
  lemma RefusedOnlyIfOverfull(b: Bucket, ts: seq<real>, n: nat)
    requires Fresh(b, ts) && n < |ts|
    ensures !Answers(b, ts)[n] <==> exists k :: Overfills(b, ts, Answers(b, ts), k, n)
  {
    CreditCalls(b, ts);
    AnswersAreDecisions(b, ts);
    OverfillsIsWouldBreak(b, ts, Answers(b, ts));
    RefusedExactly(b.burst, b.rate * b.last, Credits(b.rate, ts), n);
  }

  lemma CreditsWithout(rate: real, ts: seq<real>, m: nat)
    requires m < |ts|
    ensures Credits(rate, Without(ts, m)) == Without(Credits(rate, ts), m)
  {
    forall i | 0 <= i < |ts| - 1
      ensures Credits(rate, Without(ts, m))[i] == Without(Credits(rate, ts), m)[i]
    {
      assert Without(ts, m)[i] == ts[if i < m then i else i + 1];
    }
  }

  /** Dropping a refused call from the history changes no other answer. */
  lemma RefusedCallChangesNothing(b: Bucket, ts: seq<real>, m: nat)
    requires Fresh(b, ts) && m < |ts| && !Answers(b, ts)[m]
    ensures Answers(b, Without(ts, m)) == Without(Answers(b, ts), m)
  {
    CreditCalls(b, ts);
    AnswersAreDecisions(b, ts);
    AnswersAreDecisions(b, Without(ts, m));
    CreditsWithout(b.rate, ts, m);
    RefusedLeavesNoTrace(b.burst, b.rate * b.last, Credits(b.rate, ts), m);
  }

  /**
   Among all answers that overfill no window, even those of a limiter that knows the
   future, the bucket has admitted the most calls at every point of every history.
   */
  lemma NoLimiterAdmitsMore(b: Bucket, ts: seq<real>, d: seq<bool>, n: nat)
    requires Fresh(b, ts) && |d| == |ts| && n <= |ts|
    requires forall k, j :: 0 <= k <= j < |d| && d[j] ==> !Overfills(b, ts, d, k, j)
    ensures Count(d, 0, n) <= Count(Answers(b, ts), 0, n)
  {
    CreditCalls(b, ts);
    AnswersAreDecisions(b, ts);
    OverfillsIsWouldBreak(b, ts, d);
    NoPolicyAdmitsMore(b.burst, b.rate * b.last, Credits(b.rate, ts), d, n);
  }

  // ---------------------------------------------------------------- in the arguments of allow

  /** Admitting call n would give the window from call k more than burst + perHour * length / 3600. */
  ghost predicate TooMany(perHour: nat, burst: nat, ts: seq<real>, d: seq<bool>, k: int, n: int) {
    && 0 <= k <= n < |ts| == |d|
    && (Count(d, k, n) + 1) as real > burst as real + perHour as real * (ts[n] - ts[k]) / 3600.0
  }

  lemma PerSecond(perHour: nat, length: real)
    ensures perHour as real / 3600.0 * length == perHour as real * length / 3600.0
  {
  }

  lemma NewIsFresh(perHour: nat, burst: nat, created: real, ts: seq<real>)
    requires Nondecreasing(ts) && |ts| > 0 && created <= ts[0]
    ensures Fresh(NewBucket(perHour, burst, created), ts)
  {
    RateNonnegative(perHour);
  }

  lemma OneWindow(perHour: nat, burst: nat, created: real, ts: seq<real>, d: seq<bool>, k: int, n: int)
    ensures Overfills(NewBucket(perHour, burst, created), ts, d, k, n) <==> TooMany(perHour, burst, ts, d, k, n)
  {
    if 0 <= k <= n < |ts| { PerSecond(perHour, ts[n] - ts[k]); }
  }

  lemma SameRefusal(perHour: nat, burst: nat, created: real, ts: seq<real>, d: seq<bool>, n: nat)
    ensures (exists k :: Overfills(NewBucket(perHour, burst, created), ts, d, k, n))
       <==> (exists k :: TooMany(perHour, burst, ts, d, k, n))
  {
    var b := NewBucket(perHour, burst, created);
    if k :| Overfills(b, ts, d, k, n) { OneWindow(perHour, burst, created, ts, d, k, n); }
    if k :| TooMany(perHour, burst, ts, d, k, n) { OneWindow(perHour, burst, created, ts, d, k, n); }
  }

  /** For every history of a new key: a call is refused exactly if admitting it would overfill some window. */
  lemma NewKeyRefusals(perHour: nat, burst: nat, created: real, ts: seq<real>, n: nat)
    requires Nondecreasing(ts) && n < |ts| && created <= ts[0]
    ensures var d := Answers(NewBucket(perHour, burst, created), ts);
            !d[n] <==> exists k :: TooMany(perHour, burst, ts, d, k, n)
  {
    var b := NewBucket(perHour, burst, created);
    NewIsFresh(perHour, burst, created, ts);
    RefusedOnlyIfOverfull(b, ts, n);
    SameRefusal(perHour, burst, created, ts, Answers(b, ts), n);
  }

  lemma CountGrows(d: seq<bool>, k: nat, n: nat)
    requires k <= n <= |d|
    ensures Count(d, k, n) <= Count(d, 0, n)
  {
    CountSplits(d, 0, k, n);
    CountNonnegative(d, 0, k);
  }

  lemma {:induction false} CountNonnegative(d: seq<bool>, i: nat, j: nat)
    requires i <= j <= |d|
    ensures 0 <= Count(d, i, j) <= j - i
    decreases j
  {
    if i < j { CountNonnegative(d, i, j - 1); }
  }

  /** At one instant a window is overfull exactly if it has admitted the burst. */
  lemma OneInstant(perHour: nat, burst: nat, ts: seq<real>, d: seq<bool>, k: int, n: int)
    requires 0 <= k <= n < |ts| == |d| && ts[k] == ts[n]
    ensures TooMany(perHour, burst, ts, d, k, n) <==> Count(d, k, n) >= burst
  {
    NoLength(perHour, ts[n] - ts[k]);
    MoreThan(Count(d, k, n), burst);
  }

  lemma NoLength(perHour: nat, length: real)
    requires length == 0.0
    ensures perHour as real * length / 3600.0 == 0.0
  {
    assert perHour as real * length == 0.0;
  }

  lemma MoreThan(count: int, burst: nat)
    ensures (count + 1) as real > burst as real <==> count >= burst
  {
  }

  /** At one instant the longest window decides. */
  lemma TooManyAtOnce(perHour: nat, burst: nat, ts: seq<real>, d: seq<bool>, n: nat)
    requires n < |ts| == |d| && forall i :: 0 <= i < |ts| ==> ts[i] == ts[0]
    ensures (exists k :: TooMany(perHour, burst, ts, d, k, n)) <==> Count(d, 0, n) >= burst
  {
    if k :| TooMany(perHour, burst, ts, d, k, n) {
      OneInstant(perHour, burst, ts, d, k, n);
      CountGrows(d, k, n);
    }
    OneInstant(perHour, burst, ts, d, 0, n);
  }

  /** Of n calls at one instant on a new key exactly min(n, burst) are admitted: the first ones. */
  lemma {:induction false} BurstAtOnce(perHour: nat, burst: nat, created: real, ts: seq<real>, n: nat)
    requires n <= |ts| && |ts| > 0 && created <= ts[0] && forall i :: 0 <= i < |ts| ==> ts[i] == ts[0]
    ensures Count(Answers(NewBucket(perHour, burst, created), ts), 0, n) == if n <= burst then n else burst
    decreases n
  {
    if n > 0 {
      var d := Answers(NewBucket(perHour, burst, created), ts);
      BurstAtOnce(perHour, burst, created, ts, n - 1);
      NewKeyRefusals(perHour, burst, created, ts, n - 1);
      TooManyAtOnce(perHour, burst, ts, d, n - 1);
    }
  }
}
