/**
 The connection cache in front of ingestion, with handlers that run one at a time: entries
 live 30 s and are dropped by the handlers that change what they hold.
 */
module ConnCache {
  import opened Prelude
  import Encoding

  const LIFETIME := 30

  /** A connections row; `settings` stands for the columns ingestion does not use. */
  datatype Conn = Conn(id: nat, path: string, source: string, secret: string, settings: string)

  datatype Entry = Entry(conn: Conn, secret: string, expiresAt: Time)

  /** How a statement answers; the connection may break after it was committed. */
  datatype Answer = Ok | Failed | CommittedButFailed

  datatype Db = Db(rows: map<nat, Conn>, cache: map<string, Entry>)

  /** The primary key, and UNIQUE (inbound_path). */
  ghost predicate RowsOk(rows: map<nat, Conn>) {
    && (forall i :: i in rows ==> rows[i].id == i)
    && (forall i, j :: i in rows && j in rows && rows[i].path == rows[j].path ==> i == j)
  }

  /** All a handler needs of the state it starts in: the cache may be as stale as can be. */
  ghost predicate Shaped(db: Db) {
    RowsOk(db.rows) && forall p :: p in db.cache ==> db.cache[p].conn.path == p
  }

  /** A pair that ingestion can use is the database's. */
  predicate Current(rows: map<nat, Conn>, path: string, c: Conn, secret: string) {
    c.id in rows && rows[c.id].path == path && c.source == rows[c.id].source && secret == rows[c.id].secret
  }

  /** What ingestion would use of the entry is what the database says. */
  predicate Agrees(db: Db, path: string) {
    path in db.cache ==> Current(db.rows, path, db.cache[path].conn, db.cache[path].secret)
  }

  predicate Live(db: Db, path: string, now: Time) {
    path in db.cache && now < db.cache[path].expiresAt
  }

  /** SELECT ... WHERE inbound_path = path. */
  ghost function Found(rows: map<nat, Conn>, path: string): Option<Conn> {
    if i :| i in rows && rows[i].path == path then Some(rows[i]) else None
  }

  // ---------------------------------------------------------------- what the handlers do

  datatype Op =
    | Get(path: string, now: Time, readOk: bool, decryptOk: bool)
    | Patch(id: nat, settings: string, secret: Option<string>, update: Answer, encryptOk: bool, store: Answer)
    | ChangeSource(id: nat, provider: string, store: Answer)

  ghost function HandleGet(db: Db, path: string, now: Time, readOk: bool, decryptOk: bool): Db {
    var c := Found(db.rows, path);
    if Live(db, path, now) || c.None? || !readOk || !decryptOk then db
    else db.(cache := db.cache[path := Entry(c.value, c.value.secret, now + LIFETIME)])
  }

  /** The status; a blank secret is refused after the other columns were stored. */
  function PatchCode(db: Db, id: nat, secret: Option<string>, update: Answer, encryptOk: bool, store: Answer): int {
    if id !in db.rows || update != Ok then 404
    else if secret.None? then 200
    else if Encoding.TrimSpace(secret.value) == "" then 400
    else if !encryptOk || store != Ok then 500
    else 200
  }

  /** Whether the second statement is committed. */
  predicate SecretStored(secret: Option<string>, update: Answer, encryptOk: bool, store: Answer) {
    update == Ok && secret.Some? && Encoding.TrimSpace(secret.value) != "" && encryptOk && store != Failed
  }

  function HandlePatch(db: Db, id: nat, settings: string, secret: Option<string>, update: Answer, encryptOk: bool,
                       store: Answer): Db {
    if id !in db.rows || update == Failed then db
    else
      var c := db.rows[id].(settings := settings);
      var stored := SecretStored(secret, update, encryptOk, store);
      Db(db.rows[id := if stored then c.(secret := Encoding.TrimSpace(secret.value)) else c],
         if PatchCode(db, id, secret, update, encryptOk, store) == 200 then db.cache - {c.path} else db.cache)
  }

  function HandleSource(db: Db, id: nat, provider: string, store: Answer): Db {
    if id !in db.rows || db.rows[id].source == provider || store == Failed then db
    else Db(db.rows[id := db.rows[id].(source := provider)],
            if store == Ok then db.cache - {db.rows[id].path} else db.cache)
  }

  ghost function Handle(db: Db, op: Op): Db {
    match op
    case Get(path, now, readOk, decryptOk) => HandleGet(db, path, now, readOk, decryptOk)
    case Patch(id, settings, secret, update, encryptOk, store) =>
      HandlePatch(db, id, settings, secret, update, encryptOk, store)
    case ChangeSource(id, provider, store) => HandleSource(db, id, provider, store)
  }

  /** The handler looks at, or writes, the connection of this path. */
  ghost predicate Touches(db: Db, op: Op, path: string) {
    match op
    case Get(p, _, _, _) => p == path
    case Patch(id, _, _, _, _, _) => id in db.rows && db.rows[id].path == path
    case ChangeSource(id, _, _) => id in db.rows && db.rows[id].path == path
  }

  class Server {
    var rows: map<nat, Conn>
    var cache: map<string, Entry>

    function State(): Db
      reads this
    {
      Db(rows, cache)
    }

    method FindByPath(path: string) returns (c: Option<Conn>)
      requires RowsOk(rows)
      ensures c == Found(rows, path)
      ensures c.Some? ==> c.value.id in rows && rows[c.value.id] == c.value && c.value.path == path
      ensures c.None? ==> forall i :: i in rows ==> rows[i].path != path
    {
      var todo := rows.Keys;
      while todo != {}
        invariant todo <= rows.Keys
        invariant forall i :: i in rows && i !in todo ==> rows[i].path != path
        decreases todo
      {
        var i :| i in todo;
        if rows[i].path == path {
          return Some(rows[i]);
        }
        todo := todo - {i};
      }
      c := None;
    }

    /** From any state: a served pair is the database's exactly if there was no live entry or it agreed. */
    method GetCachedConnection(path: string, now: Time, readOk: bool, decryptOk: bool)
      returns (r: Option<(Conn, string)>)
      requires Shaped(State())
      modifies `cache
      ensures State() == HandleGet(old(State()), path, now, readOk, decryptOk)
      ensures cache != old(cache) ==> path in cache && cache[path].expiresAt == now + 30
      ensures r.Some? ==>
                (Current(rows, path, r.value.0, r.value.1) <==>
                   || path !in old(cache) || now >= old(cache)[path].expiresAt || old(Agrees(State(), path)))
      ensures r.None? <==>
                && (path !in old(cache) || now >= old(cache)[path].expiresAt)
                && (!readOk || !decryptOk || forall i :: i in rows ==> rows[i].path != path)
    {
      if path in cache && now < cache[path].expiresAt {
        return Some((cache[path].conn, cache[path].secret));
      }
      var c := FindByPath(path);
      if !readOk || c.None? || !decryptOk {
        return None;
      }
      var secret := c.value.secret;
      cache := cache[path := Entry(c.value, secret, now + LIFETIME)];
      r := Some((c.value, secret));
    }

    /** From any state: a 200 leaves nothing stale behind for this path, whatever earlier answers were lost. */
    method PatchConnection(id: nat, settings: string, secret: Option<string>, update: Answer, encryptOk: bool,
                           store: Answer)
      returns (code: int)
      requires Shaped(State())
      modifies this
      ensures State() == HandlePatch(old(State()), id, settings, secret, update, encryptOk, store)
      ensures code == PatchCode(old(State()), id, secret, update, encryptOk, store)
      ensures code in {200, 400, 404, 500}
      ensures code == 404 <==> id !in old(rows) || update != Ok
      ensures code == 400 <==> id in old(rows) && update == Ok && secret.Some? && Encoding.TrimSpace(secret.value) == ""
      ensures code == 500 <==> && id in old(rows) && update == Ok && secret.Some?
                               && Encoding.TrimSpace(secret.value) != "" && (!encryptOk || store != Ok)
      ensures rows.Keys == old(rows).Keys && forall i :: i in rows && i != id ==> rows[i] == old(rows)[i]
      ensures code in {404, 400} && id in rows ==> rows[id].secret == old(rows)[id].secret
      ensures code == 200 ==> id in rows && Agrees(State(), rows[id].path)
      ensures code == 200 && secret.Some? ==> rows[id].secret == Encoding.TrimSpace(secret.value) != ""
      ensures code == 400 ==> id in rows && (Agrees(State(), rows[id].path) <==> old(Agrees(State(), rows[id].path)))
    {
      if id !in rows || update == Failed {
        return 404;
      }
      var c := rows[id].(settings := settings);
      rows := rows[id := c];
      if update == CommittedButFailed {
        return 404;
      }
      if secret.Some? {
        var trimmed := Encoding.TrimSpace(secret.value);
        if trimmed == "" {
          return 400;
        }
        if !encryptOk || store == Failed {
          return 500;
        }
        rows := rows[id := c.(secret := trimmed)];
        if store == CommittedButFailed {
          return 500;
        }
      }
      cache := cache - {c.path};
      code := 200;
    }

    /** The playground's change of source type. */
    method ChangeSource(id: nat, provider: string, store: Answer) returns (ok: bool)
      requires Shaped(State()) && id in rows
      modifies this
      ensures State() == HandleSource(old(State()), id, provider, store)
      ensures ok <==> old(rows)[id].source == provider || store == Ok
      ensures rows == old(rows) || rows == old(rows)[id := old(rows)[id].(source := provider)]
      ensures ok ==> rows[id].source == provider
      ensures ok && old(rows)[id].source != provider ==> Agrees(State(), rows[id].path)
    {
      var c := rows[id];
      if c.source == provider {
        return true;
      }
      if store == Failed {
        return false;
      }
      rows := rows[id := c.(source := provider)];
      if store == CommittedButFailed {
        return false;
      }
      cache := cache - {c.path};
      ok := true;
    }
  }

  // ---------------------------------------------------------------- one handler

  lemma FoundRow(rows: map<nat, Conn>, path: string)
    requires RowsOk(rows) && Found(rows, path).Some?
    ensures var c := Found(rows, path).value; c.id in rows && rows[c.id] == c && c.path == path
  {
  }

  lemma ShapeKept(db: Db, op: Op)
    requires Shaped(db)
    ensures Shaped(Handle(db, op))
    ensures Handle(db, op).rows.Keys == db.rows.Keys
    ensures forall i :: i in db.rows ==> Handle(db, op).rows[i].path == db.rows[i].path
  {
    if op.Get? && Found(db.rows, op.path).Some? { FoundRow(db.rows, op.path); }
  }

  /** A handler changes neither the entry of another path nor whether it agrees. */
  lemma OthersUntouched(db: Db, op: Op, path: string)
    requires Shaped(db) && !Touches(db, op, path)
    ensures var db' := Handle(db, op);
            && (path in db'.cache <==> path in db.cache)
            && (path in db.cache ==> db'.cache[path] == db.cache[path])
            && (Agrees(db', path) <==> Agrees(db, path))
  {
  }

  // ---------------------------------------------------------------- runs of handlers

  ghost function Run(db: Db, ops: seq<Op>): Db {
    if ops == [] then db else Handle(Run(db, ops[..|ops| - 1]), Last(ops))
  }

  /** A column of ingestion that was written while the answer got lost. */
  datatype Write = Source(value: string) | Secret(value: string)

  ghost predicate Stores(db: Db, op: Op, path: string) {
    && op.Get? && op.path == path && !Live(db, path, op.now)
    && Found(db.rows, path).Some? && op.readOk && op.decryptOk
  }

  ghost predicate Drops(db: Db, op: Op, path: string) {
    && Touches(db, op, path)
    && match op
       case Get(_, _, _, _) => false
       case Patch(id, _, secret, update, encryptOk, store) =>
         PatchCode(db, id, secret, update, encryptOk, store) == 200
       case ChangeSource(id, provider, store) => db.rows[id].source != provider && store == Ok
  }

  /** The write this handler commits without learning of it. */
  ghost function LostWrite(db: Db, op: Op, path: string): Option<Write> {
    if !Touches(db, op, path) then None else
    match op
    case Get(_, _, _, _) => None
    case Patch(_, _, secret, update, encryptOk, store) =>
      if store == CommittedButFailed && SecretStored(secret, update, encryptOk, store)
      then Some(Secret(Encoding.TrimSpace(secret.value))) else None
    case ChangeSource(id, provider, store) =>
      if store == CommittedButFailed && db.rows[id].source != provider then Some(Source(provider)) else None
  }

  /** The lost writes of a path since its entry was last stored or dropped, oldest first. */
  ghost function Lost(db: Db, ops: seq<Op>, path: string): seq<Write> {
    if ops == [] then []
    else
      var before, op := Run(db, ops[..|ops| - 1]), Last(ops);
      if Stores(before, op, path) || Drops(before, op, path) then []
      else
        var w := LostWrite(before, op, path);
        Lost(db, ops[..|ops| - 1], path) + if w.Some? then [w.value] else []
  }

  ghost predicate LastTo(ws: seq<Write>, secret: bool, k: int) {
    0 <= k < |ws| && ws[k].Secret? == secret && forall j :: k < j < |ws| ==> ws[j].Secret? != secret
  }

  /** What the column holds after the writes, if it held `value` before. */
  function After(ws: seq<Write>, secret: bool, value: string): string {
    if ws == [] then value
    else if Last(ws).Secret? == secret then Last(ws).value
    else After(ws[..|ws| - 1], secret, value)
  }

  lemma {:induction false} AfterIsLast(ws: seq<Write>, secret: bool, value: string)
    ensures After(ws, secret, value) != value <==> exists k :: LastTo(ws, secret, k) && ws[k].value != value
    decreases |ws|
  {
    if ws != [] {
      var n := |ws| - 1;
      if ws[n].Secret? == secret {
        assert LastTo(ws, secret, n);
      } else {
        AfterIsLast(ws[..n], secret, value);
        forall k ensures LastTo(ws[..n], secret, k) == LastTo(ws, secret, k) { }
        assert forall k :: 0 <= k < n ==> ws[..n][k] == ws[k];
      }
    }
  }

  lemma AfterAppend(ws: seq<Write>, w: Write, secret: bool, value: string)
    ensures After(ws + [w], secret, value) == if w.Secret? == secret then w.value else After(ws, secret, value)
  {
    assert (ws + [w])[..|ws|] == ws;
  }

  /** The database's row is the entry's with the lost writes on top. */
  ghost predicate Explained(db: Db, path: string, ws: seq<Write>) {
    path in db.cache ==>
      var e := db.cache[path];
      && e.conn.id in db.rows && db.rows[e.conn.id].path == path
      && db.rows[e.conn.id].source == After(ws, false, e.conn.source)
      && db.rows[e.conn.id].secret == After(ws, true, e.secret)
  }

  lemma ExplainedStep(db: Db, op: Op, path: string, ws: seq<Write>)
    requires Shaped(db) && Explained(db, path, ws)
    ensures var w := LostWrite(db, op, path);
            Explained(Handle(db, op), path,
                      if Stores(db, op, path) || Drops(db, op, path) then []
                      else ws + if w.Some? then [w.value] else [])
  {
    assert ws + [] == ws;
    if !Touches(db, op, path) {
      OthersUntouched(db, op, path);
      OtherRow(db, op, path);
    } else {
      match op {
        case Get(_, _, _, _) => ExplainedGet(db, op, path, ws);
        case Patch(_, _, _, _, _, _) => ExplainedPatch(db, op, path, ws);
        case ChangeSource(_, _, _) => ExplainedSource(db, op, path, ws);
      }
    }
  }

  lemma OtherRow(db: Db, op: Op, path: string)
    requires Shaped(db) && !Touches(db, op, path)
    ensures forall i :: i in db.rows && db.rows[i].path == path ==>
              i in Handle(db, op).rows && Handle(db, op).rows[i] == db.rows[i]
  {
  }

  lemma ExplainedGet(db: Db, op: Op, path: string, ws: seq<Write>)
    requires Shaped(db) && Explained(db, path, ws) && op.Get? && op.path == path
    ensures Explained(Handle(db, op), path, if Stores(db, op, path) then [] else ws)
  {
    if Stores(db, op, path) { FoundRow(db.rows, path); }
  }

  lemma ExplainedPatch(db: Db, op: Op, path: string, ws: seq<Write>)
    requires Shaped(db) && Explained(db, path, ws) && op.Patch? && Touches(db, op, path)
    ensures var w := LostWrite(db, op, path);
            Explained(Handle(db, op), path, if Drops(db, op, path) then [] else ws + if w.Some? then [w.value] else [])
  {
    assert ws + [] == ws;
    if LostWrite(db, op, path).Some? && path in db.cache {
      var w, e := LostWrite(db, op, path).value, db.cache[path];
      AfterAppend(ws, w, true, e.secret);
      AfterAppend(ws, w, false, e.conn.source);
    }
  }

  lemma ExplainedSource(db: Db, op: Op, path: string, ws: seq<Write>)
    requires Shaped(db) && Explained(db, path, ws) && op.ChangeSource? && Touches(db, op, path)
    ensures var w := LostWrite(db, op, path);
            Explained(Handle(db, op), path, if Drops(db, op, path) then [] else ws + if w.Some? then [w.value] else [])
  {
    assert ws + [] == ws;
    if LostWrite(db, op, path).Some? && path in db.cache {
      var w, e := LostWrite(db, op, path).value, db.cache[path];
      AfterAppend(ws, w, true, e.secret);
      AfterAppend(ws, w, false, e.conn.source);
    }
  }

  lemma {:induction false} RunExplained(rows: map<nat, Conn>, ops: seq<Op>, path: string)
    requires RowsOk(rows)
    ensures Shaped(Run(Db(rows, map[]), ops))
    ensures Explained(Run(Db(rows, map[]), ops), path, Lost(Db(rows, map[]), ops, path))
    decreases |ops|
  {
    if ops != [] {
      var pre := ops[..|ops| - 1];
      var before := Run(Db(rows, map[]), pre);
      RunExplained(rows, pre, path);
      ShapeKept(before, Last(ops));
      ExplainedStep(before, Last(ops), path, Lost(Db(rows, map[]), pre, path));
    }
  }

  /** The last of the writes to some column left another value there than the entry has. */
  ghost predicate Overwritten(e: Entry, ws: seq<Write>) {
    || (exists k :: LastTo(ws, true, k) && ws[k].value != e.secret)
    || (exists k :: LastTo(ws, false, k) && ws[k].value != e.conn.source)
  }

  /**
   After any sequence of handlers, an entry is stale exactly when, since it was last
   stored, writes were committed whose answers were lost, and the last of them to some
   column left a value other than the entry's.
   */
  lemma StaleExactly(rows: map<nat, Conn>, ops: seq<Op>, path: string)
    requires RowsOk(rows)
    ensures var db := Run(Db(rows, map[]), ops);
            !Agrees(db, path) <==>
              path in db.cache && Overwritten(db.cache[path], Lost(Db(rows, map[]), ops, path))
  {
    var db, ws := Run(Db(rows, map[]), ops), Lost(Db(rows, map[]), ops, path);
    RunExplained(rows, ops, path);
    if path in db.cache {
      AfterIsLast(ws, true, db.cache[path].secret);
      AfterIsLast(ws, false, db.cache[path].conn.source);
    }
  }

  function PutBack(c: Conn, other: string, now: Time): seq<Op> {
    [Get(c.path, now, true, true), ChangeSource(c.id, other, CommittedButFailed),
     ChangeSource(c.id, c.source, CommittedButFailed)]
  }

  /** One lost write is not enough to tell: a second one that puts the old value back makes the entry agree. */
  lemma PutBackAgrees(c: Conn, other: string, now: Time)
    requires other != c.source
    ensures var db, ops := Db(map[c.id := c], map[]), PutBack(c, other, now);
            && !Agrees(Run(db, ops[..2]), c.path)
            && c.path in Run(db, ops).cache && Agrees(Run(db, ops), c.path)
  {
    var db, ops := Db(map[c.id := c], map[]), PutBack(c, other, now);
    assert ops[..2][..1] == [ops[0]] && [ops[0]][..0] == [];
    assert Found(db.rows, c.path) == Some(c) by { assert c.id in db.rows && db.rows[c.id].path == c.path; }
    assert Run(db, [ops[0]]) == Handle(Run(db, []), ops[0]);
    assert Run(db, ops[..2]) == Handle(Run(db, [ops[0]]), ops[1]);
    assert Run(db, ops) == Handle(Run(db, ops[..2]), ops[2]);
  }

  ghost predicate AnswersArrive(op: Op) {
    op.Get? || op.store != CommittedButFailed
  }

  lemma {:induction false} NothingLost(db: Db, ops: seq<Op>, path: string)
    requires forall i :: 0 <= i < |ops| ==> AnswersArrive(ops[i])
    ensures Lost(db, ops, path) == []
    decreases |ops|
  {
    if ops != [] {
      NothingLost(db, ops[..|ops| - 1], path);
      assert AnswersArrive(Last(ops));
    }
  }

  /** As long as no answer is lost, every lookup after any sequence of handlers serves what the database says. */
  lemma AlwaysAgrees(rows: map<nat, Conn>, ops: seq<Op>, path: string)
    requires RowsOk(rows) && forall i :: 0 <= i < |ops| ==> AnswersArrive(ops[i])
    ensures Agrees(Run(Db(rows, map[]), ops), path)
  {
    NothingLost(Db(rows, map[]), ops, path);
    StaleExactly(rows, ops, path);
  }

  /** The operator's retry repairs: after any sequence of handlers, a patch that answers 200 leaves agreement. */
  lemma RetryRepairs(rows: map<nat, Conn>, ops: seq<Op>, op: Op, path: string)
    requires RowsOk(rows) && op.Patch?
    requires var db := Run(Db(rows, map[]), ops);
             && Touches(db, op, path)
             && PatchCode(db, op.id, op.secret, op.update, op.encryptOk, op.store) == 200
    ensures Agrees(Handle(Run(Db(rows, map[]), ops), op), path)
  {
  }
}
