/**
 The connection cache of one path under handlers that interleave: readers look up, read
 the row and store it in separate steps, writers update the row and invalidate in two.
 */
module CacheRaces {
  import opened Prelude
  import opened ConnCache

  /** A version of the row: since when the database holds it, and the steps that wrote and invalidated it. */
  datatype Version = Version(conn: Conn, since: Time, writer: Option<nat>, wroteAt: nat, droppedAt: Option<nat>)

  /** A row as some reader read it. */
  datatype Reading = Reading(version: nat, conn: Conn, time: Time, at: nat)

  datatype Reader =
    | Looking
    | Missed
    | Got(reading: Reading)
    | Served(reading: Reading, secret: string, time: Time, storedTime: Time)

  datatype Cached = Cached(reading: Reading, secret: string, expires: Time, storedTime: Time, storedAt: nat)

  datatype State = State(
    now: Time,
    clock: nat,
    versions: seq<Version>,
    cache: Option<Cached>,
    readers: map<nat, Reader>)

  function Init(c: Conn, now: Time): State {
    State(now, 1, [Version(c, now, None, 0, None)], None, map[])
  }

  datatype Step =
    | Wait(dt: nat)
    | Arrive(reader: nat)
    | Lookup(reader: nat)
    | ReadRow(reader: nat)
    | Store(reader: nat)
    | Write(writer: nat, conn: Conn)     // UPDATE connections; a patch may do two
    | Invalidate(writer: nat)            // connCache.Delete, if the writer gets there

  function Put(s: State, r: nat, reader: Reader): State {
    s.(readers := s.readers[r := reader])
  }

  function LookupStep(s: State, r: nat): State {
    if r in s.readers && s.readers[r].Looking? then
      if s.cache.Some? && s.now < s.cache.value.expires then
        var e := s.cache.value;
        Put(s, r, Served(e.reading, e.secret, s.now, e.storedTime))
      else Put(s, r, Missed)
    else s
  }

  function ReadStep(s: State, r: nat): State {
    if r in s.readers && s.readers[r].Missed? && s.versions != []
    then Put(s, r, Got(Reading(|s.versions| - 1, Last(s.versions).conn, s.now, s.clock)))
    else s
  }

  function StoreStep(s: State, r: nat): State {
    if r in s.readers && s.readers[r].Got? then
      var g := s.readers[r].reading;
      Put(s, r, Served(g, g.conn.secret, s.now, s.now))
        .(cache := Some(Cached(g, g.conn.secret, s.now + LIFETIME, s.now, s.clock)))
    else s
  }

  /** The versions of a writer that has reached its invalidation. */
  function Drop(versions: seq<Version>, w: nat, at: nat): seq<Version> {
    seq(|versions|, i requires 0 <= i < |versions| =>
      if versions[i].writer == Some(w) && versions[i].droppedAt.None?
      then versions[i].(droppedAt := Some(at)) else versions[i])
  }

  function Act(s: State, step: Step): State {
    match step
    case Wait(dt) => s.(now := s.now + dt)
    case Arrive(r) => if r in s.readers then s else Put(s, r, Looking)
    case Lookup(r) => LookupStep(s, r)
    case ReadRow(r) => ReadStep(s, r)
    case Store(r) => StoreStep(s, r)
    case Write(w, c) => s.(versions := s.versions + [Version(c, s.now, Some(w), s.clock, None)])
    case Invalidate(w) => s.(cache := None, versions := Drop(s.versions, w, s.clock))
  }

  /** Every step has a number of its own. */
  function Next(s: State, step: Step): State {
    Act(s, step).(clock := s.clock + 1)
  }

  function Exec(s: State, steps: seq<Step>): State {
    if steps == [] then s else Next(Exec(s, steps[..|steps| - 1]), Last(steps))
  }

  // ---------------------------------------------------------------- versions

  ghost predicate VersionOk(s: State, i: nat)
    requires i < |s.versions|
  {
    var v := s.versions[i];
    && v.wroteAt < s.clock && v.since <= s.now
    && (v.droppedAt.Some? ==> v.wroteAt < v.droppedAt.value < s.clock)
    && (i + 1 < |s.versions| ==> v.wroteAt < s.versions[i + 1].wroteAt && v.since <= s.versions[i + 1].since)
  }

  ghost predicate VersionsOk(s: State) {
    s.versions != [] && forall i: nat :: i < |s.versions| ==> VersionOk(s, i)
  }

  lemma VersionsKept(s: State, step: Step)
    requires VersionsOk(s)
    ensures VersionsOk(Next(s, step))
  {
    var s' := Next(s, step);
    forall i: nat | i < |s'.versions| ensures VersionOk(s', i) {
      if i < |s.versions| { assert VersionOk(s, i); }
    }
  }

  /** The row was the database's when it was read. */
  ghost predicate ReadingOk(s: State, g: Reading) {
    && g.version < |s.versions| && g.conn == s.versions[g.version].conn
    && s.versions[g.version].since <= g.time <= s.now && s.versions[g.version].wroteAt < g.at < s.clock
    && (g.version + 1 < |s.versions| ==>
          g.at < s.versions[g.version + 1].wroteAt && g.time <= s.versions[g.version + 1].since)
  }

  lemma ReadingKept(s: State, step: Step, g: Reading)
    requires ReadingOk(s, g)
    ensures ReadingOk(Next(s, step), g)
  {
  }

  // ---------------------------------------------------------------- entries and readers

  /** Whatever was invalidated so far was invalidated before this entry was stored. */
  ghost predicate OutlivedDrops(s: State, e: Cached) {
    forall i :: 0 <= i < |s.versions| && s.versions[i].droppedAt.Some? ==> s.versions[i].droppedAt.value < e.storedAt
  }

  ghost predicate EntryOk(s: State, e: Cached) {
    && ReadingOk(s, e.reading) && e.secret == e.reading.conn.secret
    && e.reading.at < e.storedAt < s.clock && e.reading.time <= e.storedTime <= s.now
    && e.expires == e.storedTime + LIFETIME
    && OutlivedDrops(s, e)
  }

  ghost predicate ReaderOk(s: State, reader: Reader) {
    match reader
    case Got(g) => ReadingOk(s, g)
    case Served(g, secret, time, stored) =>
      ReadingOk(s, g) && secret == g.conn.secret && g.time <= stored <= time <= s.now && time - stored < LIFETIME
    case _ => true
  }

  ghost predicate Inv(s: State) {
    && VersionsOk(s)
    && (s.cache.Some? ==> EntryOk(s, s.cache.value))
    && forall r :: r in s.readers ==> ReaderOk(s, s.readers[r])
  }

  lemma DropsPast(s: State)
    requires VersionsOk(s)
    ensures forall i :: 0 <= i < |s.versions| && s.versions[i].droppedAt.Some? ==>
              s.versions[i].droppedAt.value < s.clock
  {
    forall i | 0 <= i < |s.versions| && s.versions[i].droppedAt.Some?
      ensures s.versions[i].droppedAt.value < s.clock
    {
      assert VersionOk(s, i);
    }
  }

  lemma EntryKept(s: State, step: Step)
    requires Inv(s)
    ensures Next(s, step).cache.Some? ==> EntryOk(Next(s, step), Next(s, step).cache.value)
  {
    var s' := Next(s, step);
    if s'.cache.Some? {
      ReadingKept(s, step, s'.cache.value.reading);
      if s'.cache != s.cache {
        assert ReaderOk(s, s.readers[step.reader]);
        DropsPast(s);
      }
    }
  }

  lemma ReaderStays(s: State, step: Step, reader: Reader)
    requires ReaderOk(s, reader)
    ensures ReaderOk(Next(s, step), reader)
  {
    if reader.Got? || reader.Served? { ReadingKept(s, step, reader.reading); }
  }

  lemma ReaderMoves(s: State, step: Step, r: nat)
    requires Inv(s) && r in Next(s, step).readers
    requires r in s.readers ==> Next(s, step).readers[r] != s.readers[r]
    ensures ReaderOk(Next(s, step), Next(s, step).readers[r])
  {
    match step {
      case Lookup(_) => if s.cache.Some? { ReadingKept(s, step, s.cache.value.reading); }
      case ReadRow(_) => assert VersionOk(s, |s.versions| - 1);
      case Store(_) =>
        assert ReaderOk(s, s.readers[r]);
        ReadingKept(s, step, s.readers[r].reading);
      case _ =>
    }
  }

  lemma InvKept(s: State, step: Step)
    requires Inv(s)
    ensures Inv(Next(s, step))
  {
    var s' := Next(s, step);
    VersionsKept(s, step);
    EntryKept(s, step);
    forall r | r in s'.readers ensures ReaderOk(s', s'.readers[r]) {
      if r in s.readers && s'.readers[r] == s.readers[r] {
        ReaderStays(s, step, s.readers[r]);
      } else {
        ReaderMoves(s, step, r);
      }
    }
  }

  lemma {:induction false} InvAlways(c: Conn, now: Time, steps: seq<Step>)
    ensures Inv(Exec(Init(c, now), steps))
    decreases |steps|
  {
    if steps != [] {
      InvAlways(c, now, steps[..|steps| - 1]);
      InvKept(Exec(Init(c, now), steps[..|steps| - 1]), Last(steps));
    }
  }

  // ---------------------------------------------------------------- what is served

  /** The database held version i at time t. */
  predicate HeldAt(s: State, i: int, t: Time) {
    && 0 <= i < |s.versions| && s.versions[i].since <= t
    && (if i + 1 < |s.versions| then t <= s.versions[i + 1].since else t <= s.now)
  }

  /**
   However lookups, reads, stores, writes and invalidations interleave, a served pair is
   one whole row that the database held less than 30 s plus the read-to-store gap ago.
   */
  lemma ServedRowIsRecent(c: Conn, now: Time, steps: seq<Step>, r: nat)
    requires var s := Exec(Init(c, now), steps); r in s.readers && s.readers[r].Served?
    ensures var s := Exec(Init(c, now), steps); var v := s.readers[r]; var g := v.reading;
            && HeldAt(s, g.version, g.time) && g.conn == s.versions[g.version].conn && v.secret == g.conn.secret
            && v.time - g.time < 30 + (v.storedTime - g.time)
  {
    InvAlways(c, now, steps);
    var s := Exec(Init(c, now), steps);
    assert ReaderOk(s, s.readers[r]);
  }

  lemma {:induction false} WrittenInOrder(s: State, i: nat, j: nat)
    requires VersionsOk(s) && i <= j < |s.versions|
    ensures s.versions[i].wroteAt <= s.versions[j].wroteAt
    decreases j
  {
    if i < j {
      WrittenInOrder(s, i, j - 1);
      assert VersionOk(s, j - 1);
    }
  }

  /** A reading is older than a version exactly when it was made before that version was written. */
  lemma OlderMeansReadBefore(s: State, g: Reading, v: nat)
    requires VersionsOk(s) && ReadingOk(s, g) && v < |s.versions|
    ensures g.version < v <==> g.at < s.versions[v].wroteAt
  {
    if g.version < v { WrittenInOrder(s, g.version + 1, v); } else { WrittenInOrder(s, v, g.version); }
  }

  /** The step at which a lookup would hit. */
  ghost predicate Hits(s: State, r: nat) {
    r in s.readers && s.readers[r].Looking? && s.cache.Some? && s.now < s.cache.value.expires
  }

  /**
   Exactly when invalidation fails: a hit serves a row older than an invalidated write if
   and only if the reader that stored it read before that write and stored after its
   invalidation.
   */
  lemma InvalidatedRowServed(c: Conn, now: Time, steps: seq<Step>, r: nat, v: nat)
    requires var s := Exec(Init(c, now), steps); Hits(s, r) && v < |s.versions| && s.versions[v].droppedAt.Some?
    ensures var s := Exec(Init(c, now), steps); var e := s.cache.value; var served := Next(s, Lookup(r)).readers[r];
            && served.Served? && served.reading == e.reading && served.secret == e.secret
            && (served.reading.version < v <==>
                  e.reading.at < s.versions[v].wroteAt && s.versions[v].droppedAt.value < e.storedAt)
  {
    InvAlways(c, now, steps);
    var s := Exec(Init(c, now), steps);
    OlderMeansReadBefore(s, s.cache.value.reading, v);
  }

  /** So a read made after a write is never behind it, and a hit on it cannot undo the write's invalidation. */
  lemma ReadAfterWriteIsCurrent(c: Conn, now: Time, steps: seq<Step>, r: nat, v: nat)
    requires var s := Exec(Init(c, now), steps);
             Hits(s, r) && v < |s.versions| && s.versions[v].wroteAt < s.cache.value.reading.at
    ensures Next(Exec(Init(c, now), steps), Lookup(r)).readers[r].reading.version >= v
  {
    InvAlways(c, now, steps);
    var s := Exec(Init(c, now), steps);
    OlderMeansReadBefore(s, s.cache.value.reading, v);
  }

  lemma ExecAppend(s: State, steps: seq<Step>, step: Step)
    ensures Exec(s, steps + [step]) == Next(Exec(s, steps), step)
  {
    assert (steps + [step])[..|steps|] == steps;
  }

  lemma ExecThree(s: State, steps: seq<Step>, a: Step, b: Step, c: Step)
    ensures Exec(s, steps + [a, b, c]) == Next(Next(Next(Exec(s, steps), a), b), c)
  {
    ExecAppend(s, steps, a);
    ExecAppend(s, steps + [a], b);
    ExecAppend(s, steps + [a] + [b], c);
    assert steps + [a] + [b] + [c] == steps + [a, b, c];
  }

  /** A row is read, then written and invalidated, then the reading is stored. */
  const EARLY_READ: seq<Step> := [Arrive(0), Lookup(0), ReadRow(0)]

  function LateStore(after: Conn): seq<Step> {
    EARLY_READ + [Write(0, after), Invalidate(0), Store(0)]
  }

  lemma ReadsEarly(before: Conn, now: Time)
    ensures var s := Exec(Init(before, now), EARLY_READ);
            && s.versions == [Version(before, now, None, 0, None)] && s.now == now && s.clock == 4
            && s.readers == map[0 := Got(Reading(0, before, now, 3))]
  {
    ExecThree(Init(before, now), [], Arrive(0), Lookup(0), ReadRow(0));
    assert [] + [Arrive(0), Lookup(0), ReadRow(0)] == EARLY_READ;
  }

  lemma StoresLate(before: Conn, after: Conn, now: Time)
    ensures var s := Exec(Init(before, now), LateStore(after));
            && s.versions == [Version(before, now, None, 0, None), Version(after, now, Some(0), 4, Some(5))]
            && s.now == now && s.readers.Keys == {0}
            && s.cache == Some(Cached(Reading(0, before, now, 3), before.secret, now + LIFETIME, now, 6))
  {
    ReadsEarly(before, now);
    ExecThree(Init(before, now), EARLY_READ, Write(0, after), Invalidate(0), Store(0));
    var v := [Version(before, now, None, 0, None), Version(after, now, Some(0), 4, None)];
    assert Drop(v, 0, 5) == [v[0], v[1].(droppedAt := Some(5))];
  }

  /** Such a hit exists: the late store brings back the row that was invalidated. */
  lemma LateStoreIsStale(before: Conn, after: Conn, now: Time)
    ensures var s := Exec(Init(before, now), LateStore(after) + [Arrive(1)]);
            && Hits(s, 1) && |s.versions| == 2 && s.versions[1].conn == after && s.versions[1].droppedAt.Some?
            && Next(s, Lookup(1)).readers[1] == Served(Reading(0, before, now, 3), before.secret, now, now)
  {
    StoresLate(before, after, now);
    ExecAppend(Init(before, now), LateStore(after), Arrive(1));
  }
}
