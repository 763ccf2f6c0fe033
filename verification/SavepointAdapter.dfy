/** `transactionDatabase`: flat service transactions replayed as savepoints of one outer transaction
  * that is rolled back at the end, and `expectCode`, which undoes the statement it tries. */
module SavepointAdapter {
  import opened Options
  import opened Text

  type Db = map<string, string>

  datatype Effect = Done(db: Db) | Raised(code: string)
  type Statement = Db -> Effect

  /** What PostgreSQL makes of a text: a command about the transaction, or a statement on the database. */
  datatype Meaning = Starts | Commits | RollsBack | Works(sql: Statement)
  type Reading = string -> Meaning

  datatype Reply = Fine | Failed(code: string)

  const IN_FAILED_TRANSACTION := "25P02"
  const NO_ACTIVE_TRANSACTION := "25P01"
  const NO_SUCH_SAVEPOINT := "3B001"
  const SYNTAX_ERROR := "42601"

  // ----- one database connection -----

  datatype Name = Service(n: nat) | Label(text: string)
  datatype Save = Save(name: Name, db: Db)

  /** `start` is the committed database, to which a ROLLBACK returns; `work` is what statements see.
    * Outside of a transaction the two are the same and there are no savepoints. */
  datatype Conn = Conn(start: Db, work: Db, stack: seq<Save>, aborted: bool, open: bool)

  function Closed(db: Db): Conn {
    Conn(db, db, [], false, false)
  }

  /** An error aborts the transaction, if there is one. */
  function Fail(c: Conn, code: string): (Conn, Reply) {
    (c.(aborted := c.open), Failed(code))
  }

  /** The innermost savepoint of that name, counted from the bottom; -1 if there is none. */
  function Innermost(stack: seq<Save>, name: Name): (i: int)
    ensures -1 <= i < |stack|
    ensures i >= 0 ==> stack[i].name == name
    ensures forall k :: i < k < |stack| ==> stack[k].name != name
  {
    if stack == [] then -1
    else if stack[|stack| - 1].name == name then |stack| - 1
    else Innermost(stack[..|stack| - 1], name)
  }

  function DoSavepoint(c: Conn, name: Name): (Conn, Reply) {
    if !c.open then Fail(c, NO_ACTIVE_TRANSACTION)
    else if c.aborted then Fail(c, IN_FAILED_TRANSACTION)
    else (c.(stack := c.stack + [Save(name, c.work)]), Fine)
  }

  /** `None` is the name that the adapter has when no transaction is active; NULL is a reserved word, so
    * the command does not even parse. */
  function DoRelease(c: Conn, name: Option<Name>): (Conn, Reply) {
    if name.None? then Fail(c, SYNTAX_ERROR)
    else if !c.open then Fail(c, NO_ACTIVE_TRANSACTION)
    else if c.aborted then Fail(c, IN_FAILED_TRANSACTION)
    else if Innermost(c.stack, name.value) < 0 then Fail(c, NO_SUCH_SAVEPOINT)
    else (c.(stack := c.stack[..Innermost(c.stack, name.value)]), Fine)
  }

  /** The only savepoint command that leaves the aborted state; the savepoint itself stays. */
  function DoRollbackTo(c: Conn, name: Option<Name>): (Conn, Reply) {
    if name.None? then Fail(c, SYNTAX_ERROR)
    else if !c.open then Fail(c, NO_ACTIVE_TRANSACTION)
    else if Innermost(c.stack, name.value) < 0 then Fail(c, NO_SUCH_SAVEPOINT)
    else
      var i := Innermost(c.stack, name.value);
      (c.(work := c.stack[i].db, stack := c.stack[..i + 1], aborted := false), Fine)
  }

  /** Any other text. Committing an aborted transaction rolls it back; a transaction command that does
    * not fit draws a warning only; a statement outside of a transaction commits itself. */
  function DoText(c: Conn, meaning: Meaning): (Conn, Reply) {
    match meaning
    case Starts => if c.aborted then Fail(c, IN_FAILED_TRANSACTION) else (c.(open := true), Fine)
    case Commits => (if c.open then Closed(if c.aborted then c.start else c.work) else c, Fine)
    case RollsBack => (if c.open then Closed(c.start) else c, Fine)
    case Works(sql) =>
      if c.aborted then Fail(c, IN_FAILED_TRANSACTION)
      else (match sql(c.work)
            case Done(db) => (if c.open then c.(work := db) else Closed(db), Fine)
            case Raised(code) => Fail(c, code))
  }

  // ----- what a service expects: a connection of its own -----

  datatype FlatTx = Idle | Open(work: Db) | Aborted
  datatype Flat = Flat(committed: Db, tx: FlatTx)

  function FlatStep(f: Flat, meaning: Meaning): (Flat, Reply) {
    match meaning
    case Starts =>
      (match f.tx
       case Idle => (f.(tx := Open(f.committed)), Fine)
       case Open(_) => (f, Fine)
       case Aborted => (f, Failed(IN_FAILED_TRANSACTION)))
    case Commits =>
      (match f.tx
       case Idle => (f, Fine)
       case Open(work) => (Flat(work, Idle), Fine)
       case Aborted => (f.(tx := Idle), Fine))
    case RollsBack => (f.(tx := Idle), Fine)
    case Works(sql) =>
      (match f.tx
       case Idle => (match sql(f.committed) case Done(db) => (f.(committed := db), Fine) case Raised(code) => (f, Failed(code)))
       case Open(work) => (match sql(work) case Done(db) => (f.(tx := Open(db)), Fine) case Raised(code) => (f.(tx := Aborted), Failed(code)))
       case Aborted => (f, Failed(IN_FAILED_TRANSACTION)))
  }

  // ----- the adapter -----

  datatype Command = Begin | Commit | Rollback | Pass

  /** The adapter looks at the whole text, trimmed and in upper case. */
  function Recognise(text: string): Command {
    var command := Upper(Trim(text));
    if command == "BEGIN" then Begin
    else if command == "COMMIT" then Commit
    else if command == "ROLLBACK" then Rollback
    else Pass
  }

  /** PostgreSQL reads the texts that the adapter recognises as what they say. */
  ghost predicate Faithful(reading: Reading) {
    forall text :: Says(Recognise(text), reading(text))
  }

  predicate Says(command: Command, meaning: Meaning) {
    match command
    case Begin => meaning.Starts?
    case Commit => meaning.Commits?
    case Rollback => meaning.RollsBack?
    case Pass => true
  }

  datatype Adapter = Adapter(conn: Conn, sequence: nat, active: Option<Name>)

  ghost function Query(a: Adapter, reading: Reading, text: string): (Adapter, Reply) {
    match Recognise(text)
    case Begin =>
      var name := Service(a.sequence + 1);
      var (conn, reply) := DoSavepoint(a.conn, name);
      (Adapter(conn, a.sequence + 1, Some(name)), reply)
    case Commit =>
      var (conn, reply) := DoRelease(a.conn, a.active);
      (Adapter(conn, a.sequence, None), reply)
    case Rollback =>
      var (back, reply) := DoRollbackTo(a.conn, a.active);
      if reply.Failed? then (Adapter(back, a.sequence, None), reply)
      else
        var (conn, last) := DoRelease(back, a.active);
        (Adapter(conn, a.sequence, None), last)
    case Pass =>
      var (conn, reply) := DoText(a.conn, reading(text));
      (a.(conn := conn), reply)
  }

  /** The connection object shared with the caller, inside the outer transaction. */
  class Connection {
    const reading: Reading
    var state: Conn

    constructor (db: Db, reading: Reading)
      ensures state == Conn(db, db, [], false, true) && this.reading == reading
    {
      this.reading := reading;
      state := Conn(db, db, [], false, true);
    }

    method Savepoint(name: Name) returns (reply: Reply)
      modifies this
      ensures (state, reply) == DoSavepoint(old(state), name)
    {
      var (next, r) := DoSavepoint(state, name);
      state, reply := next, r;
    }

    method Release(name: Option<Name>) returns (reply: Reply)
      modifies this
      ensures (state, reply) == DoRelease(old(state), name)
    {
      var (next, r) := DoRelease(state, name);
      state, reply := next, r;
    }

    method RollbackTo(name: Option<Name>) returns (reply: Reply)
      modifies this
      ensures (state, reply) == DoRollbackTo(old(state), name)
    {
      var (next, r) := DoRollbackTo(state, name);
      state, reply := next, r;
    }

    method Execute(text: string) returns (reply: Reply)
      modifies this
      ensures (state, reply) == DoText(old(state), reading(text))
    {
      var (next, r) := DoText(state, reading(text));
      state, reply := next, r;
    }

    /** `expectCode`: whatever the statement does, the connection is left as it was found; only a text
      * that ends the transaction cannot be undone. */
    method ExpectCode(text: string, expected: string, savepoint: string) returns (reply: Reply)
      modifies this
      ensures !old(state).open ==> state.start == old(state).start && reply == Failed(NO_ACTIVE_TRANSACTION)
      ensures old(state).open && old(state).aborted ==> state == old(state) && reply == Failed(IN_FAILED_TRANSACTION)
      ensures old(state).open && !old(state).aborted ==>
        match reading(text)
        case Works(sql) => state == old(state) && (reply == Fine <==> sql(old(state).work) == Raised(expected))
        case Starts => state == old(state) && reply.Failed?
        case Commits => state == Closed(old(state).work) && reply == Failed(NO_ACTIVE_TRANSACTION)
        case RollsBack => state == Closed(old(state).start) && reply == Failed(NO_ACTIVE_TRANSACTION)
    {
      reply := Savepoint(Label(savepoint));
      if reply.Failed? {
        return;
      }
      ghost var before := old(state);
      ghost var mark := Save(Label(savepoint), before.work);
      TopIsInnermost(before.stack, mark);
      var tried := Execute(text);
      reply := RollbackTo(Some(Label(savepoint)));
      if reply.Failed? {
        return;
      }
      reply := Release(Some(Label(savepoint)));
      if reply.Failed? {
        return;
      }
      reply := if tried == Failed(expected) then Fine
               else if tried.Failed? then tried else Failed("");
    }
  }

  class ServiceClient {
    const client: Connection
    var sequence: nat
    var activeSavepoint: Option<Name>

    constructor (client: Connection)
      ensures this.client == client && sequence == 0 && activeSavepoint == None
    {
      this.client := client;
      sequence, activeSavepoint := 0, None;
    }

    ghost function View(): Adapter
      reads this, client
    {
      Adapter(client.state, sequence, activeSavepoint)
    }

    method Issue(text: string) returns (reply: Reply)
      modifies this, client
      ensures (View(), reply) == Query(old(View()), client.reading, text)
    {
      var command := Upper(Trim(text));
      if command == "BEGIN" {
        sequence := sequence + 1;
        activeSavepoint := Some(Service(sequence));
        reply := client.Savepoint(Service(sequence));
        return;
      }
      if command == "COMMIT" {
        var savepoint := activeSavepoint;
        activeSavepoint := None;
        reply := client.Release(savepoint);
        return;
      }
      if command == "ROLLBACK" {
        var savepoint := activeSavepoint;
        activeSavepoint := None;
        reply := client.RollbackTo(savepoint);
        if reply == Fine {
          reply := client.Release(savepoint);
        }
        return;
      }
      reply := client.Execute(text);
    }
  }

  // ----- the simulation -----

  /** The adapter stands for the flat connection `f`, on top of the savepoints in `base`. */
  ghost predicate Stands(a: Adapter, f: Flat, start: Db, base: seq<Save>) {
    match f.tx
    case Idle => a.active == None && a.conn == Conn(start, f.committed, base, false, true)
    case Open(work) =>
      a.active == Some(Service(a.sequence)) &&
      a.conn == Conn(start, work, base + [Save(Service(a.sequence), f.committed)], false, true)
    case Aborted =>
      && a.active == Some(Service(a.sequence))
      && a.conn == Conn(start, a.conn.work, base + [Save(Service(a.sequence), f.committed)], true, true)
  }

  /** The texts that the adapter can stand in for: no nested BEGIN, no COMMIT or ROLLBACK without a
    * transaction, no COMMIT of an aborted one, no failing statement outside of a transaction, and no
    * transaction command in other words, but for a redundant one that starts a transaction. */
  ghost predicate Covered(f: Flat, reading: Reading, text: string) {
    match Recognise(text)
    case Begin => f.tx.Idle?
    case Commit => f.tx.Open?
    case Rollback => !f.tx.Idle?
    case Pass =>
      match reading(text)
      case Starts => !f.tx.Idle?
      case Commits => false
      case RollsBack => false
      case Works(sql) => f.tx.Idle? ==> sql(f.committed).Done?
  }

  lemma {:induction false} TopIsInnermost(base: seq<Save>, save: Save)
    ensures Innermost(base + [save], save.name) == |base|
    ensures (base + [save])[..|base|] == base && (base + [save])[..|base| + 1] == base + [save]
  {}

  /** One text: the same reply and still standing for the flat connection, exactly when the text is
    * covered. Recovery from the aborted state by ROLLBACK is covered. */
  lemma {:induction false} StepSimulatesIff(a: Adapter, f: Flat, start: Db, base: seq<Save>, reading: Reading, text: string)
    requires Stands(a, f, start, base) && Faithful(reading)
    ensures (Query(a, reading, text).1 == FlatStep(f, reading(text)).1
             && Stands(Query(a, reading, text).0, FlatStep(f, reading(text)).0, start, base))
            <==> Covered(f, reading, text)
  {
    hide Recognise, Innermost;
    assert Says(Recognise(text), reading(text));
    TopIsInnermost(base, Save(Service(a.sequence), f.committed));
    if Recognise(text).Begin? && f.tx.Open? {
      assert |Query(a, reading, text).0.conn.stack| == |base| + 2;
    }
  }

  ghost function QueryAll(a: Adapter, reading: Reading, texts: seq<string>): (r: (Adapter, seq<Reply>))
    ensures |r.1| == |texts|
  {
    if texts == [] then (a, [])
    else
      var (mid, replies) := QueryAll(a, reading, texts[..|texts| - 1]);
      var (end, reply) := Query(mid, reading, texts[|texts| - 1]);
      (end, replies + [reply])
  }

  ghost function FlatAll(f: Flat, reading: Reading, texts: seq<string>): (r: (Flat, seq<Reply>))
    ensures |r.1| == |texts|
  {
    if texts == [] then (f, [])
    else
      var (mid, replies) := FlatAll(f, reading, texts[..|texts| - 1]);
      var (end, reply) := FlatStep(mid, reading(texts[|texts| - 1]));
      (end, replies + [reply])
  }

  ghost predicate AllCovered(f: Flat, reading: Reading, texts: seq<string>) {
    forall i :: 0 <= i < |texts| ==> Covered(FlatAll(f, reading, texts[..i]).0, reading, texts[i])
  }

  /** A whole session: every reply is the one a connection of its own would have given, whenever no
    * service transaction is open the savepoint depth is what it was, and the outer ROLLBACK returns to
    * the initial database. */
  lemma {:induction false} SessionSimulates(a: Adapter, f: Flat, start: Db, base: seq<Save>, reading: Reading, texts: seq<string>)
    requires Stands(a, f, start, base) && Faithful(reading) && AllCovered(f, reading, texts)
    ensures QueryAll(a, reading, texts).1 == FlatAll(f, reading, texts).1
    ensures Stands(QueryAll(a, reading, texts).0, FlatAll(f, reading, texts).0, start, base)
    ensures FlatAll(f, reading, texts).0.tx.Idle? ==>
      QueryAll(a, reading, texts).0.conn == Conn(start, FlatAll(f, reading, texts).0.committed, base, false, true)
    ensures DoText(QueryAll(a, reading, texts).0.conn, RollsBack).0 == Closed(start)
    decreases |texts|
  {
    hide Query, FlatStep, Covered, Recognise, Faithful;
    if texts != [] {
      var n := |texts| - 1;
      forall i | 0 <= i < n ensures Covered(FlatAll(f, reading, texts[..n][..i]).0, reading, texts[..n][i]) {
        assert texts[..n][..i] == texts[..i];
      }
      SessionSimulates(a, f, start, base, reading, texts[..n]);
      StepSimulatesIff(QueryAll(a, reading, texts[..n]).0, FlatAll(f, reading, texts[..n]).0, start, base, reading, texts[n]);
    }
  }

  /** The keywords are recognised; a semicolon is enough to hide one. */
  lemma {:induction false} Keywords()
    ensures Recognise("BEGIN") == Begin && Recognise("COMMIT") == Commit && Recognise("ROLLBACK") == Rollback
    ensures Recognise("COMMIT;") == Pass
  {
    TrimKeepsTrimmed("BEGIN");
    TrimKeepsTrimmed("COMMIT");
    TrimKeepsTrimmed("ROLLBACK");
    TrimKeepsTrimmed("COMMIT;");
    assert Upper("BEGIN") == "BEGIN" && Upper("COMMIT") == "COMMIT" && Upper("ROLLBACK") == "ROLLBACK" && |Upper("COMMIT;")| == 7;
  }

  lemma {:induction false} OneMore(a: Adapter, f: Flat, reading: Reading, texts: seq<string>, text: string)
    ensures var (mid, replies) := QueryAll(a, reading, texts);
      QueryAll(a, reading, texts + [text]) == (Query(mid, reading, text).0, replies + [Query(mid, reading, text).1])
    ensures var (mid, replies) := FlatAll(f, reading, texts);
      FlatAll(f, reading, texts + [text]) == (FlatStep(mid, reading(text)).0, replies + [FlatStep(mid, reading(text)).1])
  {
    hide Query, FlatStep;
    assert (texts + [text])[..|texts|] == texts;
  }

  /** Three texts, one after another. */
  lemma {:induction false} Unfold(a: Adapter, f: Flat, reading: Reading, x: string, y: string, z: string)
    ensures QueryAll(a, reading, [x, y, z]) ==
      var (b, first) := Query(a, reading, x);
      var (c, second) := Query(b, reading, y);
      var (d, third) := Query(c, reading, z);
      (d, [first, second, third])
    ensures FlatAll(f, reading, [x, y, z]) ==
      var (g, first) := FlatStep(f, reading(x));
      var (h, second) := FlatStep(g, reading(y));
      var (k, third) := FlatStep(h, reading(z));
      (k, [first, second, third])
  {
    hide Query, FlatStep;
    assert QueryAll(a, reading, []) == (a, []) && FlatAll(f, reading, []) == (f, []);
    hide QueryAll, FlatAll;
    assert [] + [x] == [x] && [x] + [y] == [x, y] && [x, y] + [z] == [x, y, z];
    OneMore(a, f, reading, [], x);
    OneMore(a, f, reading, [x], y);
    OneMore(a, f, reading, [x, y], z);
    var b, g := Query(a, reading, x), FlatStep(f, reading(x));
    var c, h := Query(b.0, reading, y), FlatStep(g.0, reading(y));
    var d, k := Query(c.0, reading, z), FlatStep(h.0, reading(z));
    assert [] + [b.1] == [b.1] && [b.1] + [c.1] == [b.1, c.1] && [b.1, c.1] + [d.1] == [b.1, c.1, d.1];
    assert [] + [g.1] == [g.1] && [g.1] + [h.1] == [g.1, h.1] && [g.1, h.1] + [k.1] == [g.1, h.1, k.1];
  }

  /** After BEGIN there is one savepoint more; the work then succeeds or aborts. */
  lemma {:induction false} BeginAndWork(a: Adapter, db: Db, start: Db, base: seq<Save>, reading: Reading, work: string)
    requires Stands(a, Flat(db, Idle), start, base)
    requires Recognise(work).Pass? && reading(work).Works?
    ensures var save := Save(Service(a.sequence + 1), db);
      Query(Query(a, reading, "BEGIN").0, reading, work).0 ==
        Adapter(match reading(work).sql(db)
                case Done(after) => Conn(start, after, base + [save], false, true)
                case Raised(_) => Conn(start, db, base + [save], true, true),
                a.sequence + 1, Some(save.name))
  {
    Keywords();
    hide Recognise;
  }

  /** A committed service transaction keeps its writes and a rolled back one loses them, even after a
    * failed statement. */
  lemma {:induction false} TransactionOutcome(a: Adapter, db: Db, start: Db, base: seq<Save>, reading: Reading, work: string)
    requires Stands(a, Flat(db, Idle), start, base)
    requires Recognise(work).Pass? && reading(work).Works?
    ensures var sql := reading(work).sql;
      && (sql(db).Done? ==>
            QueryAll(a, reading, ["BEGIN", work, "COMMIT"]).0.conn == Conn(start, sql(db).db, base, false, true))
      && QueryAll(a, reading, ["BEGIN", work, "ROLLBACK"]).0.conn == Conn(start, db, base, false, true)
  {
    Keywords();
    TopIsInnermost(base, Save(Service(a.sequence + 1), db));
    BeginAndWork(a, db, start, base, reading, work);
    Unfold(a, Flat(db, Idle), reading, "BEGIN", work, "COMMIT");
    Unfold(a, Flat(db, Idle), reading, "BEGIN", work, "ROLLBACK");
    hide Recognise, Innermost, FlatStep, FlatAll, QueryAll, Stands;
    var mid := Query(Query(a, reading, "BEGIN").0, reading, work).0;
    EndsOfTransaction(mid, reading, base, Save(Service(a.sequence + 1), db));
  }

  lemma {:induction false} EndsOfTransaction(mid: Adapter, reading: Reading, base: seq<Save>, save: Save)
    requires mid.conn.open && mid.conn.stack == base + [save] && mid.active == Some(save.name)
    ensures !mid.conn.aborted ==> Query(mid, reading, "COMMIT").0.conn == mid.conn.(stack := base)
    ensures Query(mid, reading, "ROLLBACK").0.conn == mid.conn.(work := save.db, stack := base, aborted := false)
  {
    Keywords();
    TopIsInnermost(base, save);
    hide Recognise, Innermost;
  }

  // ----- what the outer transaction is good for -----

  /** A text that is passed through and ends the transaction. */
  ghost predicate Ends(reading: Reading, text: string) {
    Recognise(text).Pass? && (reading(text).Commits? || reading(text).RollsBack?)
  }

  /** The transaction stays open exactly until such a text, and as long as it does nothing is committed. */
  lemma {:induction false} OpenKeptIff(a: Adapter, reading: Reading, text: string)
    requires a.conn.open
    ensures Query(a, reading, text).0.conn.open <==> !Ends(reading, text)
    ensures !Ends(reading, text) ==> Query(a, reading, text).0.conn.start == a.conn.start
    ensures Ends(reading, text) ==> Query(a, reading, text).0.conn == Closed(Query(a, reading, text).0.conn.start)
  {
    hide Recognise;
  }

  lemma {:induction false} OpenThroughout(a: Adapter, reading: Reading, texts: seq<string>)
    requires a.conn.open && forall i :: 0 <= i < |texts| ==> !Ends(reading, texts[i])
    ensures var c := QueryAll(a, reading, texts).0.conn; c.open && c.start == a.conn.start
    decreases |texts|
  {
    hide Query, Ends;
    if texts != [] {
      var n := |texts| - 1;
      OpenThroughout(a, reading, texts[..n]);
      OpenKeptIff(QueryAll(a, reading, texts[..n]).0, reading, texts[n]);
    }
  }

  /** If the session went on with that statement, the outer ROLLBACK would return to `db`. */
  ghost predicate Restores(c: Conn, sql: Statement, db: Db) {
    DoText(DoText(c, Works(sql)).0, RollsBack).0 == Closed(db)
  }

  /** At every point of the session, whatever is executed next, the outer ROLLBACK returns to the initial
    * database: exactly when no text that is passed through ends the transaction. */
  lemma {:induction false} OuterRollbackIff(a: Adapter, reading: Reading, texts: seq<string>)
    requires a.conn.open
    ensures (forall n, sql: Statement :: 0 <= n <= |texts| ==> Restores(QueryAll(a, reading, texts[..n]).0.conn, sql, a.conn.start))
            <==> forall i :: 0 <= i < |texts| ==> !Ends(reading, texts[i])
  {
    hide Query, Ends, Restores;
    if forall i :: 0 <= i < |texts| ==> !Ends(reading, texts[i]) {
      forall n, sql: Statement | 0 <= n <= |texts|
        ensures Restores(QueryAll(a, reading, texts[..n]).0.conn, sql, a.conn.start)
      {
        OpenThroughout(a, reading, texts[..n]);
        OpenRestores(QueryAll(a, reading, texts[..n]).0.conn, sql);
      }
    } else {
      var i := FirstEnd(reading, texts);
      assert texts[..i + 1] == texts[..i] + [texts[i]];
      OneMore(a, Flat(a.conn.start, Idle), reading, texts[..i], texts[i]);
      OpenThroughout(a, reading, texts[..i]);
      OpenKeptIff(QueryAll(a, reading, texts[..i]).0, reading, texts[i]);
      var sql := ClosedLoses(QueryAll(a, reading, texts[..i + 1]).0.conn, a.conn.start);
    }
  }

  lemma {:induction false} FirstEnd(reading: Reading, texts: seq<string>) returns (i: nat)
    requires exists k :: 0 <= k < |texts| && Ends(reading, texts[k])
    ensures i < |texts| && Ends(reading, texts[i]) && forall k :: 0 <= k < i ==> !Ends(reading, texts[k])
  {
    hide Ends;
    i := 0;
    while !Ends(reading, texts[i])
      invariant i < |texts| && forall k :: 0 <= k < i ==> !Ends(reading, texts[k])
      decreases |texts| - i
    {
      i := i + 1;
    }
  }

  lemma {:induction false} OpenRestores(c: Conn, sql: Statement)
    requires c.open
    ensures Restores(c, sql, c.start)
  {}

  /** Outside of a transaction a statement stays. */
  lemma {:induction false} ClosedLoses(c: Conn, db: Db) returns (sql: Statement)
    requires c == Closed(c.start)
    ensures !Restores(c, sql, db)
  {
    var other: Db := if db == map[] then map["" := ""] else map[];
    assert other != db by { assert db == map[] ==> "" in other; }
    sql := (_: Db) => Done(other);
    assert DoText(c, Works(sql)).0 == Closed(other);
  }

  /** A text that ends the outer transaction leaves nothing behind after the outer ROLLBACK exactly when
    * it rolls back, or commits a transaction that is aborted or has changed nothing. */
  lemma {:induction false} EndIsHarmlessIff(a: Adapter, reading: Reading, text: string)
    requires a.conn.open && Ends(reading, text)
    ensures DoText(Query(a, reading, text).0.conn, RollsBack).0 == Closed(a.conn.start)
            <==> reading(text).RollsBack? || a.conn.aborted || a.conn.work == a.conn.start
  {
    hide Recognise;
  }

  // ----- texts that are not covered -----

  /** `COMMIT;` is passed through and commits the outer transaction: the write survives its ROLLBACK. */
  lemma {:induction false} HiddenCommitExample(a: Adapter, db: Db, start: Db, base: seq<Save>, reading: Reading, work: string)
    requires Stands(a, Flat(db, Idle), start, base) && reading("COMMIT;") == Commits
    requires Recognise(work).Pass? && reading(work).Works? && reading(work).sql(db).Done?
    ensures DoText(QueryAll(a, reading, ["BEGIN", work, "COMMIT;"]).0.conn, RollsBack).0 == Closed(reading(work).sql(db).db)
  {
    Keywords();
    hide Recognise;
    Unfold(a, Flat(db, Idle), reading, "BEGIN", work, "COMMIT;");
  }

  /** COMMIT after a failed statement: a flat connection answers and is idle, the adapter fails and leaves
    * the outer transaction aborted. */
  lemma {:induction false} CommitAfterFailureExample(a: Adapter, db: Db, start: Db, base: seq<Save>, reading: Reading, work: string)
    requires Stands(a, Flat(db, Idle), start, base) && Faithful(reading)
    requires Recognise(work).Pass? && reading(work).Works? && reading(work).sql(db).Raised?
    ensures var texts := ["BEGIN", work, "COMMIT"];
      && FlatAll(Flat(db, Idle), reading, texts) == (Flat(db, Idle), [Fine, Failed(reading(work).sql(db).code), Fine])
      && QueryAll(a, reading, texts).1 == [Fine, Failed(reading(work).sql(db).code), Failed(IN_FAILED_TRANSACTION)]
      && QueryAll(a, reading, texts).0.conn.aborted && QueryAll(a, reading, texts).0.active == None
  {
    Keywords();
    hide Recognise;
    Unfold(a, Flat(db, Idle), reading, "BEGIN", work, "COMMIT");
  }

  /** A nested BEGIN: a flat connection ignores it, the adapter opens a second savepoint, so that one COMMIT
    * no longer closes the service transaction. */
  lemma {:induction false} NestedBeginExample(a: Adapter, db: Db, start: Db, base: seq<Save>, reading: Reading)
    requires Stands(a, Flat(db, Idle), start, base) && Faithful(reading)
    ensures var texts := ["BEGIN", "BEGIN", "COMMIT"];
      && FlatAll(Flat(db, Idle), reading, texts).0 == Flat(db, Idle)
      && |QueryAll(a, reading, texts).0.conn.stack| == |base| + 1
  {
    Keywords();
    hide Recognise, Innermost, DoText;
    var first, second := Save(Service(a.sequence + 1), db), Save(Service(a.sequence + 2), db);
    TopIsInnermost(base + [first], second);
    Unfold(a, Flat(db, Idle), reading, "BEGIN", "BEGIN", "COMMIT");
    var once := Query(a, reading, "BEGIN").0;
    assert once == Adapter(Conn(start, db, base + [first], false, true), a.sequence + 1, Some(first.name));
    var twice := Query(once, reading, "BEGIN").0;
    assert twice == Adapter(Conn(start, db, base + [first] + [second], false, true), a.sequence + 2, Some(second.name));
  }
}
