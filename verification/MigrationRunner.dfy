/** `scripts/migrate.js`: one run of `main`, as a loop over the directory listing. */
module MigrationRunner {
  /** A migration file after trimming. `blank`: nothing is left. A file with no transaction is executed
    * statement by statement; any other file in one transaction together with its record. */
  datatype Sql = Sql(blank: bool, noTransaction: bool, statements: seq<string>)
  datatype File = File(name: string, sql: Sql)

  /** What has been executed and committed, in order. The schema is whatever this history produces. */
  datatype Applied = Whole(name: string) | Single(name: string, index: nat)

  /** `recorded` is `schema_migrations`: names are unique. SHA-256 is taken to be injective, so the text
    * stands for its checksum. */
  datatype Db = Db(history: seq<Applied>, recorded: map<string, Sql>)

  datatype Outcome = UpToDate | ChecksumMismatch(name: string) | Broke(name: string)

  ghost predicate Listing(files: seq<File>) {
    forall i, j :: 0 <= i < j < |files| ==> files[i].name != files[j].name
  }

  /** Files that have something to do and are not in `known`. */
  predicate Missing(f: File, known: map<string, Sql>) {
    !f.sql.blank && f.name !in known
  }

  predicate Mismatched(f: File, known: map<string, Sql>) {
    !f.sql.blank && f.name in known && known[f.name] != f.sql
  }

  function Singles(f: File, count: nat): seq<Applied> {
    seq(count, i requires 0 <= i < count => Single(f.name, i))
  }

  function HistoryOf(f: File): seq<Applied> {
    if f.sql.noTransaction then Singles(f, |f.sql.statements|) else [Whole(f.name)]
  }

  /** The records after the first `p` files have been dealt with, starting from `known`. */
  function RecordsUpTo(known: map<string, Sql>, files: seq<File>, p: nat): map<string, Sql>
    requires p <= |files|
  {
    if p == 0 then known
    else
      var before := RecordsUpTo(known, files, p - 1);
      if Missing(files[p - 1], known) then before[files[p - 1].name := files[p - 1].sql] else before
  }

  /** What running the missing ones among the first `p` files, once each and in order, executes. */
  function HistoryUpTo(known: map<string, Sql>, files: seq<File>, p: nat): seq<Applied>
    requires p <= |files|
  {
    if p == 0 then []
    else HistoryUpTo(known, files, p - 1) + if Missing(files[p - 1], known) then HistoryOf(files[p - 1]) else []
  }

  /** Does the database accept a query of these statements, after everything that has been executed? It
    * may refuse now what it accepted before: the same index cannot be created twice. */
  type Acceptance = (seq<Applied>, seq<string>) -> bool

  /** A file is sent as one query, or statement by statement, each of which is then part of the history. */
  ghost predicate Works(f: File, history: seq<Applied>, accepts: Acceptance) {
    if f.sql.noTransaction then
      forall i :: 0 <= i < |f.sql.statements| ==> accepts(history + Singles(f, i), [f.sql.statements[i]])
    else accepts(history, f.sql.statements)
  }

  /** A run from `db` cannot get past that file. */
  ghost predicate Offends(db: Db, files: seq<File>, p: nat, accepts: Acceptance)
    requires p < |files|
  {
    || Mismatched(files[p], db.recorded)
    || (Missing(files[p], db.recorded) && !Works(files[p], db.history + HistoryUpTo(db.recorded, files, p), accepts))
  }

  ghost predicate WillFinish(db: Db, files: seq<File>, accepts: Acceptance) {
    forall i :: 0 <= i < |files| ==> !Offends(db, files, i, accepts)
  }

  /** What a run that finishes leaves. */
  function Finished(db: Db, files: seq<File>): Db {
    Db(db.history + HistoryUpTo(db.recorded, files, |files|), RecordsUpTo(db.recorded, files, |files|))
  }

  class Migrator {
    var history: seq<Applied>
    var recorded: map<string, Sql>

    ghost function View(): Db
      reads this
    {
      Db(history, recorded)
    }

    constructor (db: Db)
      ensures View() == db
    {
      history, recorded := db.history, db.recorded;
    }

    /** INSERT INTO schema_migrations: refused by the UNIQUE constraint if the name is there. */
    method RecordMigration(f: File) returns (done: bool)
      modifies this`recorded
      ensures done <==> f.name !in old(recorded)
      ensures recorded == if done then old(recorded)[f.name := f.sql] else old(recorded)
    {
      done := f.name !in recorded;
      if done {
        recorded := recorded[f.name := f.sql];
      }
    }

    /** BEGIN, the file, the record, COMMIT: both or neither. */
    method ApplyTransactional(f: File, accepts: Acceptance) returns (done: bool)
      modifies this
      ensures done <==> accepts(old(history), f.sql.statements) && f.name !in old(recorded)
      ensures View() == if done then Db(old(history) + [Whole(f.name)], old(recorded)[f.name := f.sql]) else old(View())
    {
      if !accepts(history, f.sql.statements) {
        return false;
      }
      done := RecordMigration(f);
      if done {
        history := history + [Whole(f.name)];
      }
    }

    /** Without a transaction: the record comes only after all statements, and the statements before a
      * refused one stay executed. */
    method ApplyLoose(f: File, accepts: Acceptance) returns (done: bool)
      requires f.sql.noTransaction
      modifies this
      ensures done <==> Works(f, old(history), accepts) && f.name !in old(recorded)
      ensures done ==> View() == Db(old(history) + Singles(f, |f.sql.statements|), old(recorded)[f.name := f.sql])
      ensures !done ==> recorded == old(recorded) && exists k: nat :: k <= |f.sql.statements| && history == old(history) + Singles(f, k)
    {
      ghost var start := history;
      assert Singles(f, 0) == [] && history == start + Singles(f, 0);
      for i := 0 to |f.sql.statements|
        invariant history == start + Singles(f, i) && recorded == old(recorded)
        invariant forall k :: 0 <= k < i ==> accepts(start + Singles(f, k), [f.sql.statements[k]])
      {
        if !accepts(history, [f.sql.statements[i]]) {
          return false;
        }
        assert Singles(f, i + 1) == Singles(f, i) + [Single(f.name, i)];
        history := history + [Single(f.name, i)];
      }
      done := RecordMigration(f);
    }

    method Apply(f: File, accepts: Acceptance) returns (done: bool)
      modifies this
      ensures done <==> Works(f, old(history), accepts) && f.name !in old(recorded)
      ensures done ==> View() == Db(old(history) + HistoryOf(f), old(recorded)[f.name := f.sql])
      ensures !done ==> recorded == old(recorded)
      ensures !done && !f.sql.noTransaction ==> history == old(history)
    {
      if f.sql.noTransaction {
        done := ApplyLoose(f, accepts);
      } else {
        done := ApplyTransactional(f, accepts);
      }
    }

    /** `main`, run alone. It finishes exactly when no recorded file has changed and every missing file is
      * accepted; then every missing file has been executed once, in order, and recorded. Otherwise it
      * stops at the first offender, with everything before it done. */
    method Migrate(files: seq<File>, accepts: Acceptance) returns (outcome: Outcome)
      requires Listing(files)
      modifies this
      ensures outcome == UpToDate <==> WillFinish(old(View()), files, accepts)
      ensures outcome == UpToDate ==> View() == Finished(old(View()), files)
      ensures outcome != UpToDate ==>
        exists p :: 0 <= p < |files| && files[p].name == outcome.name
          && (forall k :: 0 <= k < p ==> !Offends(old(View()), files, k, accepts))
          && (outcome.ChecksumMismatch? <==> Mismatched(files[p], old(recorded)))
          && (outcome.Broke? <==> Missing(files[p], old(recorded)) && Offends(old(View()), files, p, accepts))
          && recorded == RecordsUpTo(old(recorded), files, p)
          && (outcome.ChecksumMismatch? || !files[p].sql.noTransaction ==>
                history == old(history) + HistoryUpTo(old(recorded), files, p))
    {
      hide Works;
      var appliedMigrations := recorded;
      ghost var start := View();
      for i := 0 to |files|
        invariant appliedMigrations == start.recorded
        invariant history == start.history + HistoryUpTo(start.recorded, files, i)
        invariant recorded == RecordsUpTo(start.recorded, files, i)
        invariant forall k :: 0 <= k < i ==> !Offends(start, files, k, accepts)
      {
        var f := files[i];
        if f.sql.blank {
          continue;
        }
        if f.name in appliedMigrations {
          if appliedMigrations[f.name] != f.sql {
            assert Offends(start, files, i, accepts);
            return ChecksumMismatch(f.name);
          }
          continue;
        }
        RecordsUpToNames(start.recorded, files, i, f.name);
        var done := Apply(f, accepts);
        if !done {
          assert Offends(start, files, i, accepts);
          return Broke(f.name);
        }
      }
      outcome := UpToDate;
    }
  }

  // ----- facts about the records -----

  lemma {:induction false} RecordsUpToNames(known: map<string, Sql>, files: seq<File>, p: nat, name: string)
    requires p <= |files|
    ensures name in RecordsUpTo(known, files, p) <==>
      name in known || exists i :: 0 <= i < p && files[i].name == name && Missing(files[i], known)
    ensures name in known ==> RecordsUpTo(known, files, p)[name] == known[name]
  {
    if p > 0 {
      RecordsUpToNames(known, files, p - 1, name);
    }
  }

  lemma {:induction false} RecordsUpToValues(known: map<string, Sql>, files: seq<File>, p: nat, i: nat)
    requires Listing(files) && i < p <= |files|
    ensures Missing(files[i], known) ==> files[i].name in RecordsUpTo(known, files, p) &&
                                         RecordsUpTo(known, files, p)[files[i].name] == files[i].sql
    decreases p
  {
    if i < p - 1 {
      RecordsUpToValues(known, files, p - 1, i);
    }
  }

  /** When nothing is missing, nothing is recorded or executed. */
  lemma {:induction false} NothingMissing(known: map<string, Sql>, files: seq<File>, p: nat)
    requires p <= |files|
    requires forall i :: 0 <= i < p ==> !Missing(files[i], known)
    ensures RecordsUpTo(known, files, p) == known && HistoryUpTo(known, files, p) == []
  {
    if p > 0 {
      NothingMissing(known, files, p - 1);
    }
  }

  /** After a run that finished, a further run finishes too, whatever the database accepts by then, and
    * changes nothing. */
  lemma {:induction false} RerunChangesNothing(db: Db, files: seq<File>, accepts: Acceptance, later: Acceptance)
    requires Listing(files) && WillFinish(db, files, accepts)
    ensures var after := Finished(db, files); WillFinish(after, files, later) && Finished(after, files) == after
  {
    hide Works;
    var after := Finished(db, files);
    forall i | 0 <= i < |files| ensures !Mismatched(files[i], after.recorded) && !Missing(files[i], after.recorded) {
      RecordsUpToNames(db.recorded, files, |files|, files[i].name);
      RecordsUpToValues(db.recorded, files, |files|, i);
      assert !Offends(db, files, i, accepts);
    }
    NothingMissing(after.recorded, files, |files|);
  }

  // ----- what a run asks of the database -----

  /** A file that is executed on top of `history` sends that query when `h` has been executed. */
  ghost predicate Sends(f: File, history: seq<Applied>, h: seq<Applied>, query: seq<string>) {
    if f.sql.noTransaction then
      exists j :: 0 <= j < |f.sql.statements| && h == history + Singles(f, j) && query == [f.sql.statements[j]]
    else h == history && query == f.sql.statements
  }

  /** The queries of a run from `db` that is never refused. */
  ghost predicate Asks(db: Db, files: seq<File>, h: seq<Applied>, query: seq<string>) {
    exists k :: 0 <= k < |files| && Missing(files[k], db.recorded)
      && Sends(files[k], db.history + HistoryUpTo(db.recorded, files, k), h, query)
  }

  ghost predicate Unchanged(db: Db, files: seq<File>) {
    forall k :: 0 <= k < |files| ==> !Mismatched(files[k], db.recorded)
  }

  lemma {:induction false} WorksIff(f: File, history: seq<Applied>, accepts: Acceptance)
    ensures Works(f, history, accepts) <==> forall h, query :: Sends(f, history, h, query) ==> accepts(h, query)
  {
    if forall h, query :: Sends(f, history, h, query) ==> accepts(h, query) {
      if f.sql.noTransaction {
        forall j | 0 <= j < |f.sql.statements| ensures accepts(history + Singles(f, j), [f.sql.statements[j]]) {
          assert Sends(f, history, history + Singles(f, j), [f.sql.statements[j]]);
        }
      } else {
        assert Sends(f, history, history, f.sql.statements);
      }
    }
  }

  /** A run finishes exactly when no recorded file has changed and each of its queries is accepted. */
  lemma {:induction false} FinishesIff(db: Db, files: seq<File>, accepts: Acceptance)
    ensures WillFinish(db, files, accepts) <==>
      Unchanged(db, files) && forall h, query :: Asks(db, files, h, query) ==> accepts(h, query)
  {
    hide Works, Sends, HistoryUpTo;
    forall k | 0 <= k < |files| {
      WorksIff(files[k], db.history + HistoryUpTo(db.recorded, files, k), accepts);
    }
    if WillFinish(db, files, accepts) {
      forall h, query | Asks(db, files, h, query) ensures accepts(h, query) {
        var k :| 0 <= k < |files| && Missing(files[k], db.recorded)
          && Sends(files[k], db.history + HistoryUpTo(db.recorded, files, k), h, query);
        assert !Offends(db, files, k, accepts);
      }
      forall k | 0 <= k < |files| ensures !Mismatched(files[k], db.recorded) {
        assert !Offends(db, files, k, accepts);
      }
    }
    if Unchanged(db, files) && forall h, query :: Asks(db, files, h, query) ==> accepts(h, query) {
      forall k | 0 <= k < |files| ensures !Offends(db, files, k, accepts) {
        if Missing(files[k], db.recorded) {
          forall h, query | Sends(files[k], db.history + HistoryUpTo(db.recorded, files, k), h, query) ensures accepts(h, query) {
            assert Asks(db, files, h, query);
          }
        }
      }
    }
  }

  lemma {:induction false} HistoryGrows(known: map<string, Sql>, files: seq<File>, p: nat, q: nat)
    requires p <= q <= |files|
    ensures HistoryUpTo(known, files, p) <= HistoryUpTo(known, files, q)
    decreases q
  {
    if p < q {
      HistoryGrows(known, files, p, q - 1);
    }
  }

  lemma {:induction false} SentOnTheWay(f: File, history: seq<Applied>, h: seq<Applied>, query: seq<string>)
    requires Sends(f, history, h, query)
    ensures history <= h < history + HistoryOf(f)
  {}

  /** Every query is sent after a proper part of what the run executes. */
  lemma {:induction false} AskedOnTheWay(db: Db, files: seq<File>, h: seq<Applied>, query: seq<string>)
    requires Asks(db, files, h, query)
    ensures db.history <= h < db.history + HistoryUpTo(db.recorded, files, |files|)
  {
    hide Sends, HistoryOf;
    var k :| 0 <= k < |files| && Missing(files[k], db.recorded)
      && Sends(files[k], db.history + HistoryUpTo(db.recorded, files, k), h, query);
    var before, more := HistoryUpTo(db.recorded, files, k), HistoryOf(files[k]);
    SentOnTheWay(files[k], db.history + before, h, query);
    HistoryGrows(db.recorded, files, k + 1, |files|);
    assert HistoryUpTo(db.recorded, files, k + 1) == before + more;
    hide HistoryUpTo;
    assert db.history + before + more == db.history + (before + more);
  }

  /** If anything is executed, the first query is sent at once and the last one just before the end. */
  lemma {:induction false} FirstAndLast(db: Db, files: seq<File>, p: nat) returns (first: seq<string>, last: seq<string>, h: seq<Applied>)
    requires p <= |files| && HistoryUpTo(db.recorded, files, p) != []
    ensures Asks(db, files, db.history, first)
    ensures Asks(db, files, h, last) && |h| == |db.history + HistoryUpTo(db.recorded, files, p)| - 1
  {
    var f := files[p - 1];
    var before := HistoryUpTo(db.recorded, files, p - 1);
    if before != [] {
      first, last, h := FirstAndLast(db, files, p - 1);
    }
    if Missing(f, db.recorded) && HistoryOf(f) != [] {
      var n := |f.sql.statements|;
      last := if f.sql.noTransaction then [f.sql.statements[n - 1]] else f.sql.statements;
      h := db.history + before + if f.sql.noTransaction then Singles(f, n - 1) else [];
      assert Sends(f, db.history + before, h, last);
      if before == [] {
        first := if f.sql.noTransaction then [f.sql.statements[0]] else f.sql.statements;
        assert db.history + before == db.history && db.history + Singles(f, 0) == db.history;
        assert Sends(f, db.history + before, db.history, first);
      }
    }
  }
}
