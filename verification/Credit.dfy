/**
 The arithmetic of a token bucket, with earned credit in place of time: call n arrives
 when credit c[n] has been earned, and everything is linear.
 */
module Credit {

  function Min(x: real, y: real): real { if x > y then y else x }

  ghost predicate Nondecreasing(c: seq<real>) {
    forall i, j :: 0 <= i <= j < |c| ==> c[i] <= c[j]
  }

  /** The calls made on a bucket that started full when credit c0 had been earned. */
  ghost predicate Calls(c0: real, c: seq<real>) {
    Nondecreasing(c) && (|c| > 0 ==> c0 <= c[0])
  }

  function Spent(level: real): real { if level >= 1.0 then level - 1.0 else level }

  function Tokens(burst: real, c0: real, c: seq<real>, n: nat): real
    requires n <= |c|
    decreases n, 0
  {
    if n == 0 then burst else Spent(Level(burst, c0, c, n - 1))
  }

  function Level(burst: real, c0: real, c: seq<real>, n: nat): real
    requires n < |c|
    decreases n, 1
  {
    Min(Tokens(burst, c0, c, n) + c[n] - (if n == 0 then c0 else c[n - 1]), burst)
  }

  function Decisions(burst: real, c0: real, c: seq<real>): seq<bool> {
    seq(|c|, i requires 0 <= i < |c| => Level(burst, c0, c, i) >= 1.0)
  }

  /** How many of the calls i .. j - 1 were admitted. */
  function Count(d: seq<bool>, i: int, j: int): int
    requires 0 <= i && j <= |d|
    decreases j - i
  {
    if j <= i then 0 else Count(d, i, j - 1) + (if d[j - 1] then 1 else 0)
  }

  lemma {:induction false} CountSplits(d: seq<bool>, i: nat, k: nat, j: nat)
    requires i <= k <= j <= |d|
    ensures Count(d, i, j) == Count(d, i, k) + Count(d, k, j)
    decreases j
  {
    if k < j { CountSplits(d, i, k, j - 1); }
  }

  /** What the window that opens with call k leaves to call n. */
  function Room(burst: real, c: seq<real>, d: seq<bool>, k: int, n: int): real
    requires 0 <= k <= n < |c| == |d|
  {
    burst + (c[n] - c[k]) - Count(d, k, n) as real
  }

  lemma RoomStep(burst: real, c: seq<real>, d: seq<bool>, k: int, n: int)
    requires 0 <= k < n < |c| == |d|
    ensures Room(burst, c, d, k, n)
         == Room(burst, c, d, k, n - 1) - (if d[n - 1] then 1.0 else 0.0) + c[n] - c[n - 1]
  {
  }

  lemma {:induction false} LevelIsTightest(burst: real, c0: real, c: seq<real>, n: nat) returns (tight: nat)
    requires Calls(c0, c) && n < |c|
    ensures tight <= n && Level(burst, c0, c, n) == Room(burst, c, Decisions(burst, c0, c), tight, n)
    ensures forall k :: 0 <= k <= n ==> Level(burst, c0, c, n) <= Room(burst, c, Decisions(burst, c0, c), k, n)
    decreases n
  {
    var d := Decisions(burst, c0, c);
    if n == 0 {
      tight := 0;
    } else {
      var before := LevelIsTightest(burst, c0, c, n - 1);
      forall k | 0 <= k < n ensures Level(burst, c0, c, n) <= Room(burst, c, d, k, n) {
        RoomStep(burst, c, d, k, n);
      }
      RoomStep(burst, c, d, before, n);
      tight := if Level(burst, c0, c, n) == burst then n else before;
    }
  }

  lemma {:induction false} WindowsBounded(burst: real, c0: real, c: seq<real>, i: nat, j: nat)
    requires Calls(c0, c) && i <= j < |c| && burst >= 0.0
    ensures Count(Decisions(burst, c0, c), i, j + 1) as real <= burst + (c[j] - c[i])
    decreases j
  {
    var d := Decisions(burst, c0, c);
    if d[j] {
      var _ := LevelIsTightest(burst, c0, c, j);
      assert Level(burst, c0, c, j) <= Room(burst, c, d, i, j);
    } else if i < j {
      WindowsBounded(burst, c0, c, i, j - 1);
    }
  }

  /** Admitting call n would break the window that opens with call k. */
  ghost predicate WouldBreak(burst: real, c: seq<real>, d: seq<bool>, k: int, n: int) {
    0 <= k <= n < |c| == |d| && (Count(d, k, n) + 1) as real > burst + (c[n] - c[k])
  }

  lemma RefusedExactly(burst: real, c0: real, c: seq<real>, n: nat)
    requires Calls(c0, c) && n < |c|
    ensures !Decisions(burst, c0, c)[n] <==> exists k :: WouldBreak(burst, c, Decisions(burst, c0, c), k, n)
  {
    var d := Decisions(burst, c0, c);
    var tight := LevelIsTightest(burst, c0, c, n);
    if !d[n] {
      assert WouldBreak(burst, c, d, tight, n);
    }
    forall k | WouldBreak(burst, c, d, k, n) ensures !d[n] {
      assert Level(burst, c0, c, n) <= Room(burst, c, d, k, n);
    }
  }

  // ---------------------------------------------------------------- refused calls leave no trace

  function Without<T>(s: seq<T>, m: nat): seq<T>
    requires m < |s|
  {
    s[..m] + s[m + 1..]
  }

  lemma {:induction false} SameBefore(burst: real, c0: real, c: seq<real>, e: seq<real>, n: nat)
    requires n <= |c| && n <= |e| && forall i :: 0 <= i < n ==> c[i] == e[i]
    ensures Tokens(burst, c0, c, n) == Tokens(burst, c0, e, n)
    decreases n
  {
    if n > 0 { SameBefore(burst, c0, c, e, n - 1); }
  }

  /** Once past a refused call, the level is what it would be had the call not been made. */
  lemma {:induction false} SameLevelBehind(burst: real, c0: real, c: seq<real>, m: nat, n: nat)
    requires Calls(c0, c) && m < n < |c| && !Decisions(burst, c0, c)[m]
    ensures Level(burst, c0, c, n) == Level(burst, c0, Without(c, m), n - 1)
    decreases n
  {
    if n == m + 1 {
      SameBefore(burst, c0, c, Without(c, m), m);
    } else {
      SameLevelBehind(burst, c0, c, m, n - 1);
    }
  }

  lemma RefusedLeavesNoTrace(burst: real, c0: real, c: seq<real>, m: nat)
    requires Calls(c0, c) && m < |c| && !Decisions(burst, c0, c)[m]
    ensures Decisions(burst, c0, Without(c, m)) == Without(Decisions(burst, c0, c), m)
  {
    var e := Without(c, m);
    forall i | 0 <= i < |e|
      ensures Level(burst, c0, e, i) == Level(burst, c0, c, if i < m then i else i + 1)
    {
      if i < m {
        SameBefore(burst, c0, c, e, i);
      } else {
        SameLevelBehind(burst, c0, c, m, i + 1);
      }
    }
  }

  // ---------------------------------------------------------------- no limiter could admit more

  /** Decisions that never let an admitted call break a window. */
  ghost predicate KeepsWindows(burst: real, c: seq<real>, d: seq<bool>) {
    && |d| == |c|
    && forall k, n :: 0 <= k <= n < |d| && d[n] ==> !WouldBreak(burst, c, d, k, n)
  }

  lemma {:induction false} NoPolicyAdmitsMore(burst: real, c0: real, c: seq<real>, d: seq<bool>, n: nat)
    requires Calls(c0, c) && KeepsWindows(burst, c, d) && n <= |c|
    ensures Count(d, 0, n) <= Count(Decisions(burst, c0, c), 0, n)
    decreases n
  {
    if n > 0 {
      NoPolicyAdmitsMore(burst, c0, c, d, n - 1);
      var g := Decisions(burst, c0, c);
      if d[n - 1] && !g[n - 1] {
        RefusedExactly(burst, c0, c, n - 1);
        var k :| WouldBreak(burst, c, g, k, n - 1);
        NoPolicyAdmitsMore(burst, c0, c, d, k);
        CountSplits(d, 0, k, n - 1);
        CountSplits(g, 0, k, n - 1);
        assert !WouldBreak(burst, c, d, k, n - 1);
      }
    }
  }
}
