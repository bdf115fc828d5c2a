/**
 Per-connection delivery slots. Acquiring takes two steps that other workers may
 interleave with: finding the connection's channel under the mutex, and sending into it.
 */
module Semaphores {
  import opened Prelude

  datatype Phase = Waiting(conn: nat, chan: nat) | Holding(conn: nat, chan: nat)

  datatype State = State(
    limit: nat,
    pools: map<nat, nat>,      // connection to channel
    load: seq<nat>,            // tokens buffered in each channel ever made
    workers: map<nat, Phase>)

  datatype Step = Lookup(worker: nat, conn: nat) | Send(worker: nat) | Release(worker: nat)

  function Init(limit: nat): State {
    State(limit, map[], [], map[])
  }

  function Pooled(s: State, conn: nat): State {
    if conn in s.pools then s else s.(pools := s.pools[conn := |s.load|], load := s.load + [0])
  }

  function Next(s: State, step: Step): State {
    match step
    case Lookup(w, c) =>
      if w in s.workers then s
      else
        var s' := Pooled(s, c);
        s'.(workers := s.workers[w := Waiting(c, s'.pools[c])])
    case Send(w) =>
      if w in s.workers && s.workers[w].Waiting? && s.workers[w].chan < |s.load|
         && s.load[s.workers[w].chan] < s.limit
      then
        var p := s.workers[w];
        s.(load := s.load[p.chan := s.load[p.chan] + 1], workers := s.workers[w := Holding(p.conn, p.chan)])
      else s
    case Release(w) =>
      if w in s.workers && s.workers[w].Holding? && s.workers[w].chan < |s.load|
         && s.load[s.workers[w].chan] > 0
      then
        var p := s.workers[w];
        s.(load := s.load[p.chan := s.load[p.chan] - 1], workers := s.workers - {w})
      else s
  }

  function Exec(s: State, steps: seq<Step>): State {
    if steps == [] then s else Next(Exec(s, steps[..|steps| - 1]), Last(steps))
  }

  class ConnectionSemaphores {
    const limit: nat
    var pools: map<nat, nat>
    var load: seq<nat>

    ghost predicate Shows(s: State)
      reads this
    {
      limit == s.limit && pools == s.pools && load == s.load
    }

    constructor (limit: nat)
      ensures Shows(Init(limit))
    {
      this.limit := limit;
      pools, load := map[], [];
    }

    /** The part of acquire that runs under the mutex. */
    method Lookup(conn: nat, ghost w: nat, ghost s: State) returns (pool: nat)
      requires Shows(s) && w !in s.workers
      modifies this
      ensures Shows(Next(s, Step.Lookup(w, conn)))
      ensures Next(s, Step.Lookup(w, conn)).workers[w] == Waiting(conn, pool)
    {
      if conn in pools {
        pool := pools[conn];
      } else {
        pool := |load|;
        load := load + [0];
        pools := pools[conn := pool];
      }
    }

    /** The channel send, once there is room for it. */
    method Send(pool: nat, ghost w: nat, ghost s: State)
      requires Shows(s) && w in s.workers && s.workers[w].Waiting? && s.workers[w].chan == pool
      requires pool < |load| && load[pool] < limit
      modifies this
      ensures Shows(Next(s, Step.Send(w)))
    {
      load := load[pool := load[pool] + 1];
    }

    method Release(pool: nat, ghost w: nat, ghost s: State)
      requires Shows(s) && w in s.workers && s.workers[w].Holding? && s.workers[w].chan == pool
      requires pool < |load| && load[pool] > 0
      modifies this
      ensures Shows(Next(s, Step.Release(w)))
    {
      load := load[pool := load[pool] - 1];
    }
  }

  // ---------------------------------------------------------------- every interleaving

  function Holders(workers: map<nat, Phase>, chan: nat): set<nat> {
    set w | w in workers && workers[w].Holding? && workers[w].chan == chan
  }

  lemma HolderJoins(workers: map<nat, Phase>, w: nat, conn: nat, chan: nat, p: nat)
    requires w in workers && workers[w].Waiting?
    ensures |Holders(workers[w := Holding(conn, chan)], p)| == |Holders(workers, p)| + (if p == chan then 1 else 0)
  {
    assert Holders(workers[w := Holding(conn, chan)], p) == Holders(workers, p) + (if p == chan then {w} else {});
  }

  lemma HolderLeaves(workers: map<nat, Phase>, w: nat, p: nat)
    requires w in workers && workers[w].Holding?
    ensures |Holders(workers - {w}, p)| == |Holders(workers, p)| - (if p == workers[w].chan then 1 else 0)
  {
    assert Holders(workers - {w}, p) == Holders(workers, p) - (if p == workers[w].chan then {w} else {});
  }

  /** Deliveries of a connection that are in flight. */
  function InFlight(s: State, conn: nat): set<nat> {
    set w | w in s.workers && s.workers[w].Holding? && s.workers[w].conn == conn
  }

  ghost predicate PoolsOk(s: State) {
    && (forall c :: c in s.pools ==> s.pools[c] < |s.load|)
    && (forall c, d :: c in s.pools && d in s.pools && s.pools[c] == s.pools[d] ==> c == d)
    && (forall w :: w in s.workers ==> s.workers[w].conn in s.pools && s.pools[s.workers[w].conn] == s.workers[w].chan)
  }

  ghost predicate LoadsOk(s: State) {
    forall p :: 0 <= p < |s.load| ==> s.load[p] == |Holders(s.workers, p)| && s.load[p] <= s.limit
  }

  lemma PoolsKept(s: State, step: Step)
    requires PoolsOk(s)
    ensures PoolsOk(Next(s, step))
  {
    match step {
      case Lookup(w, c) => if w !in s.workers { PooledOk(s, c); ArrivalOk(Pooled(s, c), w, c); }
      case _ =>
    }
  }

  lemma ArrivalOk(s: State, w: nat, c: nat)
    requires PoolsOk(s) && c in s.pools
    ensures PoolsOk(s.(workers := s.workers[w := Waiting(c, s.pools[c])]))
  {
  }

  lemma PooledOk(s: State, conn: nat)
    requires PoolsOk(s)
    ensures PoolsOk(Pooled(s, conn)) && conn in Pooled(s, conn).pools && Pooled(s, conn).workers == s.workers
  {
  }

  lemma LookupLoads(s: State, w: nat, c: nat)
    requires PoolsOk(s) && LoadsOk(s)
    ensures LoadsOk(Next(s, Lookup(w, c)))
  {
    var s' := Next(s, Lookup(w, c));
    forall p | 0 <= p < |s'.load| ensures s'.load[p] == |Holders(s'.workers, p)| && s'.load[p] <= s'.limit {
      assert Holders(s'.workers, p) == Holders(s.workers, p);
      if p == |s.load| {
        assert forall v :: v in s.workers ==> s.workers[v].chan < |s.load|;
        assert Holders(s.workers, p) == {};
      }
    }
  }

  lemma SendLoads(s: State, w: nat)
    requires LoadsOk(s)
    ensures LoadsOk(Next(s, Send(w)))
  {
    var s' := Next(s, Send(w));
    if s' != s {
      var chan := s.workers[w].chan;
      forall p | 0 <= p < |s'.load| ensures s'.load[p] == |Holders(s'.workers, p)| && s'.load[p] <= s'.limit {
        HolderJoins(s.workers, w, s.workers[w].conn, chan, p);
      }
    }
  }

  lemma ReleaseLoads(s: State, w: nat)
    requires LoadsOk(s)
    ensures LoadsOk(Next(s, Release(w)))
  {
    var s' := Next(s, Release(w));
    if s' != s {
      var chan := s.workers[w].chan;
      forall p | 0 <= p < |s'.load| ensures s'.load[p] == |Holders(s'.workers, p)| && s'.load[p] <= s'.limit {
        HolderLeaves(s.workers, w, p);
      }
    }
  }

  lemma {:induction false} OkAlways(limit: nat, steps: seq<Step>)
    ensures PoolsOk(Exec(Init(limit), steps)) && LoadsOk(Exec(Init(limit), steps))
    ensures Exec(Init(limit), steps).limit == limit
    decreases |steps|
  {
    if steps != [] {
      var s := Exec(Init(limit), steps[..|steps| - 1]);
      OkAlways(limit, steps[..|steps| - 1]);
      PoolsKept(s, Last(steps));
      match Last(steps) {
        case Lookup(w, c) => LookupLoads(s, w, c);
        case Send(w) => SendLoads(s, w);
        case Release(w) => ReleaseLoads(s, w);
      }
    }
  }

  /** However lookups, sends and releases interleave, a connection never has more deliveries in flight than slots. */
  lemma InFlightBounded(limit: nat, steps: seq<Step>, conn: nat)
    ensures var s := Exec(Init(limit), steps);
            && |InFlight(s, conn)| <= limit
            && (conn in s.pools ==> s.pools[conn] < |s.load| && s.load[s.pools[conn]] == |InFlight(s, conn)|)
            && (conn !in s.pools ==> InFlight(s, conn) == {})
  {
    var s := Exec(Init(limit), steps);
    OkAlways(limit, steps);
    if conn in s.pools {
      assert InFlight(s, conn) == Holders(s.workers, s.pools[conn]);
    } else {
      assert InFlight(s, conn) == {};
    }
  }

  /** A connection keeps the channel it was first given, so two acquirers never use different ones. */
  lemma {:induction false} OnePoolForLife(s: State, steps: seq<Step>, conn: nat)
    requires conn in s.pools
    ensures conn in Exec(s, steps).pools && Exec(s, steps).pools[conn] == s.pools[conn]
    decreases |steps|
  {
    if steps != [] { OnePoolForLife(s, steps[..|steps| - 1], conn); }
  }

  /** A release always finds a token to take back: it never blocks. */
  lemma ReleaseNeverBlocks(limit: nat, steps: seq<Step>, w: nat)
    requires var s := Exec(Init(limit), steps); w in s.workers && s.workers[w].Holding?
    ensures w !in Next(Exec(Init(limit), steps), Release(w)).workers
  {
    var s := Exec(Init(limit), steps);
    OkAlways(limit, steps);
    assert w in Holders(s.workers, s.workers[w].chan);
  }

  /** A waiter gets through exactly when its connection has fewer deliveries in flight than slots: no slot is lost. */
  lemma FreeSlotIsGiven(limit: nat, steps: seq<Step>, w: nat)
    requires var s := Exec(Init(limit), steps); w in s.workers && s.workers[w].Waiting?
    ensures var s := Exec(Init(limit), steps); var p := s.workers[w]; var s' := Next(s, Send(w));
            && (|InFlight(s, p.conn)| < limit ==> w in s'.workers && s'.workers[w] == Holding(p.conn, p.chan))
            && (|InFlight(s, p.conn)| >= limit ==> s' == s)
  {
    OkAlways(limit, steps);
    InFlightBounded(limit, steps, Exec(Init(limit), steps).workers[w].conn);
  }
}
