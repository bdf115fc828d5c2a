/**
 Events encrypted at rest: what is inserted, what is read, and the backfill that seals
 the plaintext rows of older versions. The cipher is opaque: decryption undoes encryption.
 */
module EventCrypto {
  import opened Prelude
  import Encoding

  type Bytes = seq<Encoding.Byte>

  /** Encryption takes a nonce, which makes two sealings of one text differ. */
  datatype Cipher = Cipher(enc: (nat, Bytes) -> Bytes, dec: Bytes -> Option<Bytes>)

  ghost predicate Sound(c: Cipher) {
    forall n: nat, p: Bytes :: c.dec(c.enc(n, p)) == Some(p)
  }

  datatype Event = Event(headers: Bytes, payload: Bytes)

  /** An events row: two columns and the flag that says how to read them. */
  datatype Row = Row(headers: Bytes, payload: Bytes, encrypted: bool)

  datatype Nonces = Nonces(headers: nat, payload: nat)

  /** sealEventFields; without an encryptor the fields pass through. */
  function Seal(c: Option<Cipher>, e: Event, n: Nonces): Event {
    if c.None? then e else Event(c.value.enc(n.headers, e.headers), c.value.enc(n.payload, e.payload))
  }

  /** openEventFields. */
  function Open(c: Option<Cipher>, row: Row): Option<Event> {
    if !row.encrypted || c.None? then Some(Event(row.headers, row.payload))
    else
      var h, p := c.value.dec(row.headers), c.value.dec(row.payload);
      if h.None? || p.None? then None else Some(Event(h.value, p.value))
  }

  /** The row InsertEvent and the backfill write: marked encrypted, whether or not there is a key. */
  function SealedRow(c: Option<Cipher>, e: Event, n: Nonces): Row {
    var sealed := Seal(c, e, n);
    Row(sealed.headers, sealed.payload, true)
  }

  lemma SealedRowOpens(c: Option<Cipher>, e: Event, n: Nonces)
    requires c.Some? ==> Sound(c.value)
    ensures Open(c, SealedRow(c, e, n)) == Some(e)
  {
  }

  /** Decrypting the plain text gives the plain text. */
  predicate Fixes(c: Cipher, e: Event) {
    c.dec(e.headers) == Some(e.headers) && c.dec(e.payload) == Some(e.payload)
  }

  /** A row inserted without a key and read with one comes back only if the key undoes nothing. */
  lemma KeyAddedLater(c: Cipher, e: Event, n: Nonces)
    ensures Open(Some(c), SealedRow(None, e, n)) == Some(e) <==> Fixes(c, e)
  {
  }

  // ---------------------------------------------------------------- the store's methods

  class Store {
    var rows: map<nat, Row>

    method InsertEvent(id: nat, c: Option<Cipher>, e: Event, n: Nonces)
      requires id !in rows && (c.Some? ==> Sound(c.value))
      modifies this
      ensures rows == old(rows)[id := SealedRow(c, e, n)]
      ensures Open(c, rows[id]) == Some(e)
      ensures c.Some? ==> rows[id].headers == c.value.enc(n.headers, e.headers)
      ensures c.Some? ==> rows[id].payload == c.value.enc(n.payload, e.payload) && rows[id].encrypted
    {
      rows := rows[id := SealedRow(c, e, n)];
    }

    /**
     One backfill with the table to itself, stopped by an error before row `failAt`, if
     ever: every row keeps its meaning, the rows it reached are sealed, the count is theirs.
     */
    method Backfill(c: Cipher, order: seq<nat>, nonces: nat -> Nonces, failAt: nat) returns (count: nat)
      requires Sound(c)
      requires forall i :: i in order <==> i in rows && !rows[i].encrypted
      requires forall i, j :: 0 <= i < j < |order| ==> order[i] != order[j]
      modifies this
      ensures rows.Keys == old(rows).Keys
      ensures forall i :: i in rows ==> Open(Some(c), rows[i]) == Open(Some(c), old(rows)[i])
      ensures count <= |order| && (failAt >= |order| ==> count == |order|)
      ensures forall i :: i in rows && i !in order[..count] ==> rows[i] == old(rows)[i]
      ensures forall i :: i in rows ==> (rows[i].encrypted <==> old(rows)[i].encrypted || i in order[..count])
      ensures forall i :: i in rows && i in order[..count] ==>
                && rows[i].headers == c.enc(nonces(i).headers, old(rows)[i].headers)
                && rows[i].payload == c.enc(nonces(i).payload, old(rows)[i].payload)
    {
      count := 0;
      var snapshot := rows;
      while count < |order| && count != failAt
        invariant count <= |order| && (failAt >= |order| ==> count <= failAt)
        invariant rows.Keys == snapshot.Keys
        invariant forall i :: i in rows ==>
                    rows[i] == if i in order[..count]
                               then SealedRow(Some(c), Event(snapshot[i].headers, snapshot[i].payload), nonces(i))
                               else snapshot[i]
        decreases |order| - count
      {
        var id := order[count];
        assert order[..count + 1] == order[..count] + [id];
        rows := rows[id := SealedRow(Some(c), Event(snapshot[id].headers, snapshot[id].payload), nonces(id))];
        count := count + 1;
      }
      forall i | i in rows ensures Open(Some(c), rows[i]) == Open(Some(c), snapshot[i]) {
        if i in order[..count] {
          assert i in order;
          SealedRowOpens(Some(c), Event(snapshot[i].headers, snapshot[i].payload), nonces(i));
        }
      }
    }
  }

  // ---------------------------------------------------------------- backfills that interleave

  /** The rows a backfill selected and has not yet updated, with the text it read. */
  datatype State = State(
    rows: map<nat, Row>,
    original: map<nat, Event>,
    keyless: set<nat>,                   // inserted by a process without an encryptor
    runs: map<nat, map<nat, Event>>)

  datatype Step =
    | Insert(id: nat, event: Event, nonces: Nonces)
    | InsertKeyless(id: nat, event: Event, nonces: Nonces)
    | Begin(run: nat)
    | Update(run: nat, id: nat, nonces: Nonces)
    | Crash(run: nat)
    | Purge(id: nat)

  /** The plaintext rows, as SELECT ... WHERE payload_encrypted = FALSE returns them. */
  function PlainRows(rows: map<nat, Row>): map<nat, Event> {
    map id | id in rows && !rows[id].encrypted :: Event(rows[id].headers, rows[id].payload)
  }

  function Next(c: Cipher, s: State, step: Step): State {
    match step
    case Insert(id, e, n) =>
      if id in s.original then s
      else s.(rows := s.rows[id := SealedRow(Some(c), e, n)], original := s.original[id := e])
    case InsertKeyless(id, e, n) =>
      if id in s.original then s
      else s.(rows := s.rows[id := SealedRow(None, e, n)], original := s.original[id := e], keyless := s.keyless + {id})
    case Begin(b) => if b in s.runs then s else s.(runs := s.runs[b := PlainRows(s.rows)])
    case Update(b, id, n) =>
      if b in s.runs && id in s.runs[b] then
        s.(runs := s.runs[b := s.runs[b] - {id}],
           rows := if id in s.rows then s.rows[id := SealedRow(Some(c), s.runs[b][id], n)] else s.rows)
      else s
    case Crash(b) => s.(runs := s.runs - {b})
    case Purge(id) => s.(rows := s.rows - {id})
  }

  function Exec(c: Cipher, s: State, steps: seq<Step>): State {
    if steps == [] then s else Next(c, Exec(c, s, steps[..|steps| - 1]), Last(steps))
  }

  /** A database of an older version: plaintext rows only, and no backfill yet. */
  ghost predicate Legacy(s: State) {
    && s.runs == map[] && s.keyless == {} && s.original.Keys == s.rows.Keys
    && forall id :: id in s.rows ==> s.rows[id] == Row(s.original[id].headers, s.original[id].payload, false)
  }

  /** The text itself, or its encryption, once. */
  ghost predicate SealedOnce(c: Cipher, row: Row, e: Event) {
    if row.encrypted
    then exists n: Nonces :: row.headers == c.enc(n.headers, e.headers) && row.payload == c.enc(n.payload, e.payload)
    else row == Row(e.headers, e.payload, false)
  }

  /** A row written without a key: the text itself, marked as if it were encrypted. */
  ghost predicate Mismarked(row: Row, e: Event) {
    row == Row(e.headers, e.payload, true)
  }

  ghost predicate RowOk(c: Cipher, s: State, id: nat)
    requires id in s.rows
  {
    && id in s.original
    && if id in s.keyless then Mismarked(s.rows[id], s.original[id]) else SealedOnce(c, s.rows[id], s.original[id])
  }

  ghost predicate RowsOk(c: Cipher, s: State) {
    && s.keyless <= s.original.Keys
    && forall id :: id in s.rows ==> RowOk(c, s, id)
  }

  /** What a backfill still holds is the original text, and includes every row that is still plain. */
  ghost predicate RunOk(s: State, pending: map<nat, Event>) {
    && (forall id :: id in pending ==> id in s.original && id !in s.keyless && pending[id] == s.original[id])
    && (forall id :: id in s.rows && !s.rows[id].encrypted ==> id in pending)
  }

  ghost predicate Inv(c: Cipher, s: State) {
    RowsOk(c, s) && forall b :: b in s.runs ==> RunOk(s, s.runs[b])
  }

  lemma RowsKept(c: Cipher, s: State, step: Step)
    requires Inv(c, s)
    ensures RowsOk(c, Next(c, s, step))
  {
    var s' := Next(c, s, step);
    forall id | id in s'.rows ensures RowOk(c, s', id) {
      if id in s.rows { assert RowOk(c, s, id); }
      match step {
        case Insert(i, e, n) => if i == id && i !in s.original { assert s'.rows[id] == SealedRow(Some(c), e, n); }
        case Update(b, i, n) =>
          if b in s.runs && i in s.runs[b] && i == id {
            assert RunOk(s, s.runs[b]);
            assert s'.rows[id] == SealedRow(Some(c), s.original[id], n);
          }
        case _ =>
      }
    }
  }

  lemma RunsKept(c: Cipher, s: State, step: Step)
    requires Inv(c, s)
    ensures forall b :: b in Next(c, s, step).runs ==> RunOk(Next(c, s, step), Next(c, s, step).runs[b])
  {
    var s' := Next(c, s, step);
    forall b | b in s'.runs ensures RunOk(s', s'.runs[b]) {
      if b in s.runs {
        assert RunOk(s, s.runs[b]);
        RunStays(c, s, step, b);
      } else {
        BeginOk(c, s);
      }
    }
  }

  lemma RunStays(c: Cipher, s: State, step: Step, b: nat)
    requires RowsOk(c, s) && b in s.runs && RunOk(s, s.runs[b]) && b in Next(c, s, step).runs
    ensures RunOk(Next(c, s, step), Next(c, s, step).runs[b])
  {
  }

  lemma BeginOk(c: Cipher, s: State)
    requires RowsOk(c, s)
    ensures RunOk(s, PlainRows(s.rows))
  {
    forall id | id in PlainRows(s.rows)
      ensures id in s.original && id !in s.keyless && PlainRows(s.rows)[id] == s.original[id]
    {
      assert RowOk(c, s, id);
    }
  }

  lemma {:induction false} InvAlways(c: Cipher, s: State, steps: seq<Step>)
    requires Legacy(s)
    ensures Inv(c, Exec(c, s, steps))
    decreases |steps|
  {
    if steps != [] {
      var mid := Exec(c, s, steps[..|steps| - 1]);
      InvAlways(c, s, steps[..|steps| - 1]);
      RowsKept(c, mid, Last(steps));
      RunsKept(c, mid, Last(steps));
    }
  }

  /**
   However any number of backfills, crashes, inserts with and without a key and purges
   interleave, a stored row holds its event plain or encrypted once, and reads back as the
   event first stored exactly if it was written with the key, or the key leaves both of
   its fields as they are.
   */
  lemma ReadsBack(c: Cipher, s: State, steps: seq<Step>, id: nat)
    requires Sound(c) && Legacy(s) && id in Exec(c, s, steps).rows
    ensures var t := Exec(c, s, steps);
            && id in t.original
            && (id !in t.keyless ==> SealedOnce(c, t.rows[id], t.original[id]))
            && (Open(Some(c), t.rows[id]) == Some(t.original[id]) <==> id !in t.keyless || Fixes(c, t.original[id]))
  {
    InvAlways(c, s, steps);
    var t := Exec(c, s, steps);
    assert RowOk(c, t, id);
    if id !in t.keyless && t.rows[id].encrypted {
      var e := t.original[id];
      var n: Nonces :|
        t.rows[id].headers == c.enc(n.headers, e.headers) && t.rows[id].payload == c.enc(n.payload, e.payload);
      assert t.rows[id] == SealedRow(Some(c), e, n);
      SealedRowOpens(Some(c), t.original[id], n);
    }
  }

  /** A row written without a key is never selected by a backfill, which could not tell it needs one. */
  lemma KeylessNeverSelected(c: Cipher, s: State, steps: seq<Step>, id: nat)
    requires Legacy(s) && id in Exec(c, s, steps).keyless
    ensures var t := Exec(c, s, steps);
            && (forall b :: b in t.runs ==> id !in t.runs[b])
            && id !in PlainRows(t.rows)
            && (id in t.rows ==> id in t.original && Mismarked(t.rows[id], t.original[id]))
  {
    InvAlways(c, s, steps);
    var t := Exec(c, s, steps);
    if id in t.rows { assert RowOk(c, t, id); }
    forall b | b in t.runs ensures id !in t.runs[b] { assert RunOk(t, t.runs[b]); }
  }

  /** The first text stored under an id is never replaced. */
  lemma {:induction false} OriginalKept(c: Cipher, s: State, steps: seq<Step>, id: nat)
    requires id in s.original
    ensures id in Exec(c, s, steps).original && Exec(c, s, steps).original[id] == s.original[id]
    decreases |steps|
  {
    if steps != [] { OriginalKept(c, s, steps[..|steps| - 1], id); }
  }

  /** Once one backfill has gone through its rows, no row is plain and another selects nothing. */
  lemma RerunChangesNothing(c: Cipher, s: State, steps: seq<Step>, b: nat, again: nat)
    requires Legacy(s)
    requires var t := Exec(c, s, steps); b in t.runs && t.runs[b] == map[] && again !in t.runs
    ensures var t := Exec(c, s, steps);
            && (forall id :: id in t.rows ==> t.rows[id].encrypted)
            && Next(c, t, Begin(again)) == t.(runs := t.runs[again := map[]])
  {
    InvAlways(c, s, steps);
    var t := Exec(c, s, steps);
    assert RunOk(t, t.runs[b]);
    assert PlainRows(t.rows) == map[];
  }
}
