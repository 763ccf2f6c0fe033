/** Any number of migration runners on one database, any of which may stop at any step: by a crash, a
  * refused statement, a checksum mismatch or a unique violation. */
module MigrationProtocol {
  import opened MigrationRunner

  type RunnerId = nat

  datatype Phase =
    | Ready                      // about to look at file `next`
    | Executed                   // BEGIN and the file done, nothing committed
    | Inserted                   // the record inserted as well, still uncommitted
    | Loosely(done: nat)         // without transaction: this many statements executed
    | Stopped

  /** `seen` is the result of the SELECT at the start of the run; it is never refreshed. */
  datatype Runner = Runner(next: nat, seen: map<string, Sql>, phase: Phase)

  /** `known` and `past` are the records and the history when the first runner started; `front` is how
    * many files have been dealt with by the runners together. */
  datatype State = State(db: Db, runners: map<RunnerId, Runner>, known: map<string, Sql>, past: seq<Applied>, front: nat)

  datatype Action =
    | Start(r: RunnerId)
    | Skip(r: RunnerId)
    | ExecuteAll(r: RunnerId)
    | InsertRecord(r: RunnerId)
    | CommitBoth(r: RunnerId)
    | BeginLoose(r: RunnerId)
    | ExecuteOne(r: RunnerId)
    | RecordLoose(r: RunnerId)
    | Stop(r: RunnerId)

  ghost predicate Init(s: State) {
    s.runners == map[] && s.known == s.db.recorded && s.past == s.db.history && s.front == 0
  }

  /** The file that a runner is looking at. */
  ghost predicate At(s: State, r: RunnerId, files: seq<File>) {
    r in s.runners && s.runners[r].next < |files|
  }

  ghost predicate Enabled(s: State, a: Action, files: seq<File>) {
    match a
    case Start(r) => r !in s.runners
    case Skip(r) =>
      At(s, r, files) && s.runners[r].phase == Ready &&
      var f := files[s.runners[r].next];
      f.sql.blank || (f.name in s.runners[r].seen && s.runners[r].seen[f.name] == f.sql)
    case ExecuteAll(r) =>
      At(s, r, files) && s.runners[r].phase == Ready &&
      var f := files[s.runners[r].next]; Missing(f, s.runners[r].seen) && !f.sql.noTransaction
    case InsertRecord(r) =>
      // an uncommitted insert of the same name makes this one wait; a committed one makes it fail (Stop)
      At(s, r, files) && s.runners[r].phase == Executed &&
      var f := files[s.runners[r].next];
      f.name !in s.db.recorded &&
      forall q :: q in s.runners && s.runners[q].phase == Inserted ==> s.runners[q].next != s.runners[r].next
    case CommitBoth(r) => At(s, r, files) && s.runners[r].phase == Inserted
    case BeginLoose(r) =>
      At(s, r, files) && s.runners[r].phase == Ready &&
      var f := files[s.runners[r].next]; Missing(f, s.runners[r].seen) && f.sql.noTransaction
    case ExecuteOne(r) =>
      At(s, r, files) && s.runners[r].phase.Loosely? && s.runners[r].phase.done < |files[s.runners[r].next].sql.statements|
    case RecordLoose(r) =>
      At(s, r, files) && s.runners[r].phase.Loosely? &&
      var f := files[s.runners[r].next];
      s.runners[r].phase.done == |f.sql.statements| && f.name !in s.db.recorded
    case Stop(r) => r in s.runners
  }

  ghost function Move(s: State, r: RunnerId, runner: Runner): State {
    s.(runners := s.runners[r := runner])
  }

  ghost function Apply(s: State, a: Action, files: seq<File>): State
    requires Enabled(s, a, files)
  {
    match a
    case Start(r) => Move(s, r, Runner(0, s.db.recorded, Ready))
    case Skip(r) => Move(s, r, s.runners[r].(next := s.runners[r].next + 1))
    case ExecuteAll(r) => Move(s, r, s.runners[r].(phase := Executed))
    case InsertRecord(r) => Move(s, r, s.runners[r].(phase := Inserted))
    case CommitBoth(r) =>
      var i := s.runners[r].next;
      Move(s, r, s.runners[r].(next := i + 1, phase := Ready)).(
        db := Db(s.db.history + [Whole(files[i].name)], s.db.recorded[files[i].name := files[i].sql]), front := i + 1)
    case BeginLoose(r) => Move(s, r, s.runners[r].(phase := Loosely(0)))
    case ExecuteOne(r) =>
      var k := s.runners[r].phase.done;
      Move(s, r, s.runners[r].(phase := Loosely(k + 1))).(
        db := s.db.(history := s.db.history + [Single(files[s.runners[r].next].name, k)]))
    case RecordLoose(r) =>
      var i := s.runners[r].next;
      Move(s, r, s.runners[r].(next := i + 1, phase := Ready)).(
        db := s.db.(recorded := s.db.recorded[files[i].name := files[i].sql]), front := i + 1)
    case Stop(r) => Move(s, r, s.runners[r].(phase := Stopped))
  }

  ghost predicate IsRun(ss: seq<State>, acts: seq<Action>, files: seq<File>) {
    && |ss| == |acts| + 1 && Init(ss[0])
    && forall i :: 0 <= i < |acts| ==> Enabled(ss[i], acts[i], files) && ss[i + 1] == Apply(ss[i], acts[i], files)
  }

  // ----- the invariant -----

  /** The transactional effects in a history. */
  function Wholes(h: seq<Applied>): seq<string> {
    if h == [] then []
    else Wholes(h[..|h| - 1]) + if h[|h| - 1].Whole? then [h[|h| - 1].name] else []
  }

  /** What has been executed since the first runner started. */
  ghost function Since(s: State): seq<Applied> {
    if |s.past| <= |s.db.history| then s.db.history[|s.past|..] else []
  }

  ghost predicate RunnerOk(s: State, r: RunnerId, files: seq<File>)
    requires r in s.runners
  {
    var runner := s.runners[r];
    && runner.next <= |files|
    && runner.seen.Keys <= s.db.recorded.Keys
    && (forall i :: 0 <= i < runner.next ==> files[i].sql.blank || files[i].name in s.db.recorded)
    && (runner.phase == Executed || runner.phase == Inserted ==>
          runner.next < |files| && !files[runner.next].sql.blank && !files[runner.next].sql.noTransaction)
    && (runner.phase == Inserted ==> files[runner.next].name !in s.db.recorded)
    && (runner.phase.Loosely? ==>
          && runner.next < |files| && !files[runner.next].sql.blank && files[runner.next].sql.noTransaction
          && runner.phase.done <= |files[runner.next].sql.statements|
          && forall k: nat :: k < runner.phase.done ==> Single(files[runner.next].name, k) in Since(s))
  }

  ghost predicate RunnersOk(s: State, files: seq<File>) {
    && (forall r :: r in s.runners ==> RunnerOk(s, r, files))
    && forall q, r | q in s.runners && r in s.runners && s.runners[q].phase == Inserted && s.runners[r].phase == Inserted ::
        s.runners[q].next == s.runners[r].next ==> q == r
  }

  /** All statements of a file without transaction were executed before it was recorded. */
  ghost predicate LooseDone(s: State, f: File) {
    f.sql.noTransaction && f.name in s.db.recorded && f.name !in s.known ==>
      forall k: nat :: k < |f.sql.statements| ==> Single(f.name, k) in Since(s)
  }

  ghost predicate DbOk(s: State, files: seq<File>) {
    && s.front <= |files| && s.past <= s.db.history
    && s.db.recorded == RecordsUpTo(s.known, files, s.front)
    && Wholes(s.db.history) == Wholes(s.past) + Wholes(HistoryUpTo(s.known, files, s.front))
    && forall i :: 0 <= i < |files| ==> LooseDone(s, files[i])
  }

  ghost predicate Inv(s: State, files: seq<File>) {
    RunnersOk(s, files) && DbOk(s, files)
  }

  lemma {:induction false} WholesAppend(h: seq<Applied>, g: seq<Applied>)
    ensures Wholes(h + g) == Wholes(h) + Wholes(g)
    decreases |g|
  {
    if g == [] {
      assert h + g == h;
    } else {
      WholesAppend(h, g[..|g| - 1]);
      assert (h + g)[..|h + g| - 1] == h + g[..|g| - 1];
    }
  }

  lemma {:induction false} WholesOfSingles(f: File, count: nat)
    ensures Wholes(Singles(f, count)) == []
  {
    if count > 0 {
      assert Singles(f, count)[..count - 1] == Singles(f, count - 1);
      WholesOfSingles(f, count - 1);
    }
  }

  /** Advancing past files that are blank or recorded changes nothing, so the file that is about to be
    * recorded is the first missing one. */
  lemma {:induction false} AdvanceOverDone(known: map<string, Sql>, files: seq<File>, front: nat, i: nat)
    requires Listing(files) && front <= i <= |files|
    requires forall k :: 0 <= k < i ==> files[k].sql.blank || files[k].name in RecordsUpTo(known, files, front)
    ensures RecordsUpTo(known, files, i) == RecordsUpTo(known, files, front)
    ensures HistoryUpTo(known, files, i) == HistoryUpTo(known, files, front)
    decreases i - front
  {
    if front < i {
      AdvanceOverDone(known, files, front, i - 1);
      RecordsUpToNames(known, files, front, files[i - 1].name);
      assert !Missing(files[i - 1], known);
    }
  }

  lemma FrontIsBehind(s: State, files: seq<File>, i: nat)
    requires Listing(files) && DbOk(s, files) && i < |files|
    requires !files[i].sql.blank && files[i].name !in s.db.recorded
    requires forall k :: 0 <= k < i ==> files[k].sql.blank || files[k].name in s.db.recorded
    ensures s.front <= i && Missing(files[i], s.known)
    ensures RecordsUpTo(s.known, files, i + 1) == s.db.recorded[files[i].name := files[i].sql]
    ensures HistoryUpTo(s.known, files, i + 1) == HistoryUpTo(s.known, files, s.front) + HistoryOf(files[i])
  {
    RecordsUpToNames(s.known, files, s.front, files[i].name);
    AdvanceOverDone(s.known, files, s.front, i);
  }

  lemma LooseDoneKept(s: State, a: Action, files: seq<File>, k: nat)
    requires Listing(files) && Enabled(s, a, files) && s.past <= s.db.history && !a.RecordLoose? && k < |files| && LooseDone(s, files[k])
    requires a.CommitBoth? ==> !files[s.runners[a.r].next].sql.noTransaction
    ensures LooseDone(Apply(s, a, files), files[k])
  {
    Grows(s, a, files);
    if a.CommitBoth? && files[k].sql.noTransaction {
      assert files[k].name != files[s.runners[a.r].next].name;
    }
  }

  /** A record is only ever added for the first missing file: the effect of that file and its record
    * extend the history and the records by exactly one step. */
  lemma {:induction false} CommitKeepsDb(s: State, a: Action, files: seq<File>)
    requires Listing(files) && Inv(s, files) && Enabled(s, a, files) && a.CommitBoth?
    ensures DbOk(Apply(s, a, files), files)
  {
    hide LooseDone, Since, RecordsUpTo, HistoryUpTo, Listing, Wholes, Apply;
    assert RunnerOk(s, a.r, files);
    var i := s.runners[a.r].next;
    CommitExtendsHistory(s, files, i, a.r);
    LooseDonesKept(s, a, files);
    AfterCommit(s, a, files);
    hide RunnersOk, RunnerOk, Enabled;
  }

  lemma {:induction false} AfterCommit(s: State, a: Action, files: seq<File>)
    requires Enabled(s, a, files) && a.CommitBoth?
    ensures var t, f := Apply(s, a, files), files[s.runners[a.r].next];
      && t.db == Db(s.db.history + [Whole(f.name)], s.db.recorded[f.name := f.sql])
      && t.known == s.known && t.past == s.past && t.front == s.runners[a.r].next + 1
  {
    hide Missing;
  }

  lemma {:induction false} LooseDonesKept(s: State, a: Action, files: seq<File>)
    requires Listing(files) && Enabled(s, a, files) && DbOk(s, files) && !a.RecordLoose?
    requires a.CommitBoth? ==> !files[s.runners[a.r].next].sql.noTransaction
    ensures forall k :: 0 <= k < |files| ==> LooseDone(Apply(s, a, files), files[k])
  {
    hide Enabled, Apply, Since, Wholes, RecordsUpTo, HistoryUpTo, Listing;
    forall k | 0 <= k < |files| ensures LooseDone(Apply(s, a, files), files[k]) {
      assert LooseDone(s, files[k]);
      LooseDoneKept(s, a, files, k);
    }
  }

  lemma {:induction false} CommitExtendsHistory(s: State, files: seq<File>, i: nat, r: RunnerId)
    requires Listing(files) && DbOk(s, files) && i < |files| && r in s.runners && RunnerOk(s, r, files)
    requires s.runners[r].next == i && s.runners[r].phase == Inserted
    ensures RecordsUpTo(s.known, files, i + 1) == s.db.recorded[files[i].name := files[i].sql]
    ensures Wholes(s.db.history + [Whole(files[i].name)]) == Wholes(s.past) + Wholes(HistoryUpTo(s.known, files, i + 1))
  {
    FrontIsBehind(s, files, i);
    hide LooseDone, RecordsUpTo, HistoryUpTo, Listing, Since;
    var effect := [Whole(files[i].name)];
    WholesAppend(s.db.history, effect);
    WholesAppend(HistoryUpTo(s.known, files, s.front), effect);
    assert Wholes(s.past) + Wholes(HistoryUpTo(s.known, files, s.front)) + Wholes(effect)
        == Wholes(s.past) + (Wholes(HistoryUpTo(s.known, files, s.front)) + Wholes(effect));
  }

  lemma {:induction false} RecordLooseKeepsDb(s: State, a: Action, files: seq<File>)
    requires Listing(files) && Inv(s, files) && Enabled(s, a, files) && a.RecordLoose?
    ensures DbOk(Apply(s, a, files), files)
  {
    assert RunnerOk(s, a.r, files);
    RecordExtendsNothing(s, files, s.runners[a.r].next);
    forall k | 0 <= k < |files| ensures LooseDone(Apply(s, a, files), files[k]) {
      assert LooseDone(s, files[k]);
      LooseRecorded(s, a, files, k);
    }
    hide LooseDone, RecordsUpTo, HistoryUpTo, Listing, RunnersOk, RunnerOk, Since, Wholes;
  }

  /** Recording a file without transaction adds no transactional effect. */
  lemma {:induction false} RecordExtendsNothing(s: State, files: seq<File>, i: nat)
    requires Listing(files) && DbOk(s, files) && i < |files| && files[i].sql.noTransaction
    requires !files[i].sql.blank && files[i].name !in s.db.recorded
    requires forall k :: 0 <= k < i ==> files[k].sql.blank || files[k].name in s.db.recorded
    ensures RecordsUpTo(s.known, files, i + 1) == s.db.recorded[files[i].name := files[i].sql]
    ensures Wholes(s.db.history) == Wholes(s.past) + Wholes(HistoryUpTo(s.known, files, i + 1))
  {
    FrontIsBehind(s, files, i);
    hide LooseDone, RecordsUpTo, HistoryUpTo, Listing;
    WholesOfSingles(files[i], |files[i].sql.statements|);
    WholesAppend(HistoryUpTo(s.known, files, s.front), HistoryOf(files[i]));
  }

  lemma {:induction false} LooseRecorded(s: State, a: Action, files: seq<File>, k: nat)
    requires Listing(files) && a.RecordLoose? && Enabled(s, a, files) && RunnerOk(s, a.r, files)
    requires k < |files| && LooseDone(s, files[k])
    ensures LooseDone(Apply(s, a, files), files[k])
  {
    assert files[k].name == files[s.runners[a.r].next].name ==> k == s.runners[a.r].next;
    assert Since(Apply(s, a, files)) == Since(s);
    hide Since;
  }

  lemma {:induction false} DbKept(s: State, a: Action, files: seq<File>)
    requires Listing(files) && Inv(s, files) && Enabled(s, a, files)
    ensures DbOk(Apply(s, a, files), files)
  {
    if a.CommitBoth? {
      CommitKeepsDb(s, a, files);
    } else if a.RecordLoose? {
      RecordLooseKeepsDb(s, a, files);
    } else {
      if a.ExecuteOne? {
        WholesAppend(s.db.history, [Single(files[s.runners[a.r].next].name, s.runners[a.r].phase.done)]);
      }
      LooseDonesKept(s, a, files);
    }
  }

  lemma {:induction false} PastIsKept(s: State, files: seq<File>)
    requires DbOk(s, files)
    ensures s.past <= s.db.history
  {}

  /** Records and history only grow. */
  lemma {:induction false} Grows(s: State, a: Action, files: seq<File>)
    requires Enabled(s, a, files) && s.past <= s.db.history
    ensures var t := Apply(s, a, files);
      && s.db.recorded.Keys <= t.db.recorded.Keys
      && t.past == s.past && s.past <= t.db.history
      && Since(t) == Since(s) + match a
                                case CommitBoth(r) => [Whole(files[s.runners[r].next].name)]
                                case ExecuteOne(r) => [Single(files[s.runners[r].next].name, s.runners[r].phase.done)]
                                case _ => []
  {}

  lemma RunnerKept(s: State, a: Action, files: seq<File>, r: RunnerId)
    requires Listing(files) && RunnersOk(s, files) && s.past <= s.db.history && Enabled(s, a, files) && r in s.runners && r != a.r
    ensures RunnerOk(Apply(s, a, files), r, files)
  {
    assert RunnerOk(s, r, files);
    Grows(s, a, files);
    assert a.CommitBoth? ==> RunnerOk(s, a.r, files);
    assert a.RecordLoose? ==> RunnerOk(s, a.r, files);
  }

  lemma ActorKept(s: State, a: Action, files: seq<File>)
    requires RunnersOk(s, files) && s.past <= s.db.history && Enabled(s, a, files)
    ensures RunnerOk(Apply(s, a, files), a.r, files)
  {
    Grows(s, a, files);
    if !a.Start? { assert RunnerOk(s, a.r, files); }
  }

  lemma {:induction false} StepKeepsInv(s: State, a: Action, files: seq<File>)
    requires Listing(files) && Inv(s, files) && Enabled(s, a, files)
    ensures Inv(Apply(s, a, files), files)
  {
    PastIsKept(s, files);
    DbKept(s, a, files);
    hide DbOk, RunnerOk, Apply, Enabled;
    EachRunnerKept(s, a, files);
    InsertedKept(s, a, files);
  }

  lemma {:induction false} EachRunnerKept(s: State, a: Action, files: seq<File>)
    requires Listing(files) && RunnersOk(s, files) && s.past <= s.db.history && Enabled(s, a, files)
    ensures forall r :: r in Apply(s, a, files).runners ==> RunnerOk(Apply(s, a, files), r, files)
  {
    hide RunnerOk;
    var t := Apply(s, a, files);
    forall r | r in t.runners ensures RunnerOk(t, r, files) {
      if r == a.r { ActorKept(s, a, files); } else { RunnerKept(s, a, files, r); }
    }
  }

  /** Of two uncommitted records with one name the second waits. */
  lemma {:induction false} InsertedKept(s: State, a: Action, files: seq<File>)
    requires RunnersOk(s, files) && Enabled(s, a, files)
    ensures var t := Apply(s, a, files);
      forall q, r | q in t.runners && r in t.runners && t.runners[q].phase == Inserted && t.runners[r].phase == Inserted ::
        t.runners[q].next == t.runners[r].next ==> q == r
  {
    hide RunnerOk;
  }

  lemma {:induction false} InvHolds(ss: seq<State>, acts: seq<Action>, files: seq<File>, i: nat)
    requires Listing(files) && IsRun(ss, acts, files) && i < |ss|
    ensures Inv(ss[i], files) && ss[i].known == ss[0].db.recorded && ss[i].past == ss[0].db.history
  {
    if i > 0 {
      InvHolds(ss, acts, files, i - 1);
      assert Enabled(ss[i - 1], acts[i - 1], files) && ss[i - 1 + 1] == Apply(ss[i - 1], acts[i - 1], files);
      StepKeepsInv(ss[i - 1], acts[i - 1], files);
    } else {
      assert Wholes(HistoryUpTo(ss[0].known, files, 0)) == [];
    }
  }

  // ----- the theorems -----

  /** In every interleaving and after any crash: the new records are those of the missing files up to
    * some point of the sorted listing, and the transactional effects committed since the start are
    * those of the same files, each exactly once and in the same order. */
  lemma {:induction false} RecordedIsPrefix(ss: seq<State>, acts: seq<Action>, files: seq<File>, i: nat)
    requires Listing(files) && IsRun(ss, acts, files) && i < |ss|
    ensures ss[i].front <= |files|
    ensures ss[i].db.recorded == RecordsUpTo(ss[0].db.recorded, files, ss[i].front)
    ensures Wholes(ss[i].db.history) == Wholes(ss[0].db.history) + Wholes(HistoryUpTo(ss[0].db.recorded, files, ss[i].front))
  {
    InvHolds(ss, acts, files, i);
  }

  /** A file without transaction is recorded only after all its statements were executed. */
  lemma LooseRecordComesLast(ss: seq<State>, acts: seq<Action>, files: seq<File>, i: nat, k: nat, j: nat)
    requires Listing(files) && IsRun(ss, acts, files) && i < |ss| && k < |files|
    requires files[k].sql.noTransaction && files[k].name in ss[i].db.recorded && files[k].name !in ss[0].db.recorded
    requires j < |files[k].sql.statements|
    ensures |ss[0].db.history| <= |ss[i].db.history| && Single(files[k].name, j) in ss[i].db.history[|ss[0].db.history|..]
  {
    InvHolds(ss, acts, files, i);
    assert LooseDone(ss[i], files[k]);
  }

  lemma {:induction false} ResumeFrom(known: map<string, Sql>, files: seq<File>, front: nat, p: nat)
    requires Listing(files) && front <= |files| && p <= |files|
    ensures var middle := RecordsUpTo(known, files, front);
      && RecordsUpTo(middle, files, p) == RecordsUpTo(known, files, if p < front then front else p)
      && HistoryUpTo(known, files, if p < front then front else p) == HistoryUpTo(known, files, front) + HistoryUpTo(middle, files, p)
  {
    var middle := RecordsUpTo(known, files, front);
    if p > 0 {
      ResumeFrom(known, files, front, p - 1);
      RecordsUpToNames(known, files, front, files[p - 1].name);
      if p <= front && !files[p - 1].sql.blank {
        assert files[p - 1].name in middle;
      }
      if p > front {
        assert Missing(files[p - 1], middle) <==> Missing(files[p - 1], known);
      }
    }
  }

  /** Whatever the interrupted runners left behind, a further run that finishes leaves the records and the
    * transactional effects that a single run from the start would have left. */
  lemma {:induction false} RerunFinishesTheRest(ss: seq<State>, acts: seq<Action>, files: seq<File>, i: nat)
    requires Listing(files) && IsRun(ss, acts, files) && i < |ss|
    ensures Finished(ss[i].db, files).recorded == Finished(ss[0].db, files).recorded
    ensures Wholes(Finished(ss[i].db, files).history) == Wholes(Finished(ss[0].db, files).history)
  {
    RecordedIsPrefix(ss, acts, files, i);
    hide IsRun, Wholes, RecordsUpTo, HistoryUpTo, Listing;
    ResumeFrom(ss[0].db.recorded, files, ss[i].front, |files|);
    ResumedEffects(ss[0].db.history, HistoryUpTo(ss[0].db.recorded, files, ss[i].front), ss[i].db.history,
                   HistoryUpTo(ss[i].db.recorded, files, |files|));
  }

  lemma {:induction false} ResumedEffects(past: seq<Applied>, first: seq<Applied>, now: seq<Applied>, rest: seq<Applied>)
    requires Wholes(now) == Wholes(past) + Wholes(first)
    ensures Wholes(now + rest) == Wholes(past + (first + rest))
  {
    hide Wholes;
    WholesAppend(now, rest);
    WholesAppend(past, first + rest);
    WholesAppend(first, rest);
    assert Wholes(past) + Wholes(first) + Wholes(rest) == Wholes(past) + (Wholes(first) + Wholes(rest));
  }

  // ----- can a further run finish? -----

  /** Nothing has been executed but the files that are recorded: no statement of a file without
    * transaction is left over, by a crash or from a second runner. */
  ghost predicate Clean(db: Db, s: State, files: seq<File>)
    requires s.front <= |files|
  {
    s.db.history == db.history + HistoryUpTo(db.recorded, files, s.front)
  }

  /** After that, a further run does and asks what a run from the start still had to. */
  lemma {:induction false} CleanAsksTheRest(db: Db, s: State, files: seq<File>, h: seq<Applied>, query: seq<string>)
    requires Listing(files) && s.front <= |files| && s.db.recorded == RecordsUpTo(db.recorded, files, s.front)
    requires Clean(db, s, files) && Asks(s.db, files, h, query)
    ensures Asks(db, files, h, query)
  {
    hide Sends, HistoryUpTo, RecordsUpTo;
    var k :| 0 <= k < |files| && Missing(files[k], s.db.recorded)
      && Sends(files[k], s.db.history + HistoryUpTo(s.db.recorded, files, k), h, query);
    StillMissing(db.recorded, files, s.front, k);
    ResumeFrom(db.recorded, files, s.front, k);
    var done, rest := HistoryUpTo(db.recorded, files, s.front), HistoryUpTo(s.db.recorded, files, k);
    assert db.history + done + rest == db.history + (done + rest);
    assert Sends(files[k], db.history + HistoryUpTo(db.recorded, files, k), h, query);
  }

  lemma {:induction false} StillMissing(known: map<string, Sql>, files: seq<File>, front: nat, k: nat)
    requires Listing(files) && front <= |files| && k < |files| && Missing(files[k], RecordsUpTo(known, files, front))
    ensures front <= k && Missing(files[k], known)
  {
    RecordsUpToNames(known, files, front, files[k].name);
    if k < front {
      RecordsUpToValues(known, files, front, k);
    }
  }

  /** No file changes for having been recorded as it is. */
  lemma {:induction false} UnchangedKept(known: map<string, Sql>, files: seq<File>, front: nat, k: nat)
    requires Listing(files) && front <= |files| && k < |files|
    ensures Mismatched(files[k], RecordsUpTo(known, files, front)) <==> Mismatched(files[k], known)
  {
    RecordsUpToNames(known, files, front, files[k].name);
    if k < front {
      RecordsUpToValues(known, files, front, k);
    }
  }

  // ----- what has been executed at least -----

  ghost predicate Distinct(h: seq<Applied>) {
    forall i, j :: 0 <= i < j < |h| ==> h[i] != h[j]
  }

  /** The effect belongs to one of the missing files before `p`. */
  ghost predicate Belongs(known: map<string, Sql>, files: seq<File>, p: nat, e: Applied) {
    exists k :: 0 <= k < p <= |files| && Missing(files[k], known) && e in HistoryOf(files[k]) && e.name == files[k].name
  }

  lemma {:induction false} HistoryIsDistinct(known: map<string, Sql>, files: seq<File>, p: nat)
    requires Listing(files) && p <= |files|
    ensures Distinct(HistoryUpTo(known, files, p))
    ensures forall e :: e in HistoryUpTo(known, files, p) ==> Belongs(known, files, p, e)
  {
    if p > 0 {
      HistoryIsDistinct(known, files, p - 1);
      var before, f := HistoryUpTo(known, files, p - 1), files[p - 1];
      FileIsDistinct(f);
      hide HistoryOf, Distinct;
      forall e | e in before ensures e.name != f.name && Belongs(known, files, p, e) {
        assert Belongs(known, files, p - 1, e);
      }
      if Missing(f, known) {
        DistinctConcat(before, HistoryOf(f));
        forall e | e in HistoryOf(f) ensures Belongs(known, files, p, e) {}
      }
    } else {
      assert HistoryUpTo(known, files, 0) == [];
    }
  }

  lemma {:induction false} FileIsDistinct(f: File)
    ensures Distinct(HistoryOf(f)) && forall e :: e in HistoryOf(f) ==> e.name == f.name
  {}

  lemma {:induction false} DistinctConcat(a: seq<Applied>, b: seq<Applied>)
    requires Distinct(a) && Distinct(b) && forall d, e :: d in a && e in b ==> d != e
    ensures Distinct(a + b)
  {
    forall i, j | 0 <= i < j < |a + b| ensures (a + b)[i] != (a + b)[j] {
      if i < |a| <= j {
        assert a[i] in a && b[j - |a|] in b;
      }
    }
  }

  lemma {:induction false} DistinctFits(a: seq<Applied>, b: seq<Applied>)
    requires Distinct(a) && forall e :: e in a ==> e in b
    ensures |a| <= |b|
    decreases |a|
  {
    if a != [] {
      var n := |a| - 1;
      assert a[n] in a;
      var i :| 0 <= i < |b| && b[i] == a[n];
      var rest := b[..i] + b[i + 1..];
      forall e | e in a[..n] ensures e in rest {
        assert e != a[n] && e in b;
      }
      DistinctFits(a[..n], rest);
    }
  }

  lemma {:induction false} WholesHas(h: seq<Applied>, name: string)
    ensures name in Wholes(h) <==> Whole(name) in h
  {
    if h != [] {
      var n := |h| - 1;
      WholesHas(h[..n], name);
      assert h == h[..n] + [h[n]];
    }
  }

  lemma {:induction false} WholesSince(s: State, files: seq<File>)
    requires DbOk(s, files)
    ensures Wholes(Since(s)) == Wholes(HistoryUpTo(s.known, files, s.front))
  {
    assert s.db.history == s.past + Since(s);
    WholesAppend(s.past, Since(s));
    SameRest(Wholes(s.past), Wholes(Since(s)), Wholes(HistoryUpTo(s.known, files, s.front)));
  }

  lemma {:induction false} SameRest(a: seq<string>, b: seq<string>, c: seq<string>)
    requires a + b == a + c
    ensures b == c
  {
    assert b == (a + b)[|a|..] && c == (a + c)[|a|..];
  }

  /** Everything that the recorded files consist of has been executed. */
  lemma {:induction false} AtLeast(s: State, files: seq<File>)
    requires Listing(files) && DbOk(s, files)
    ensures |HistoryUpTo(s.known, files, s.front)| <= |Since(s)|
  {
    var done := HistoryUpTo(s.known, files, s.front);
    HistoryIsDistinct(s.known, files, s.front);
    WholesSince(s, files);
    forall e | e in done ensures e in Since(s) {
      if e.Whole? {
        WholesHas(done, e.name);
        WholesHas(Since(s), e.name);
      } else {
        assert Belongs(s.known, files, s.front, e);
        var k :| 0 <= k < s.front && Missing(files[k], s.known) && e in HistoryOf(files[k]) && e.name == files[k].name;
        RecordsUpToValues(s.known, files, s.front, k);
        assert LooseDone(s, files[k]);
      }
    }
    DistinctFits(done, Since(s));
  }

  /** A further run finishes under every acceptance under which a run from the start would have, exactly
    * when no statement is left over or nothing is left to execute (or when no run could finish at all,
    * because a recorded file has changed). */
  lemma {:induction false} RerunFinishesIff(ss: seq<State>, acts: seq<Action>, files: seq<File>, i: nat)
    requires Listing(files) && IsRun(ss, acts, files) && i < |ss|
    ensures ss[i].front <= |files|
    ensures (forall accepts: Acceptance :: WillFinish(ss[0].db, files, accepts) ==> WillFinish(ss[i].db, files, accepts))
      <==> !Unchanged(ss[0].db, files) || HistoryUpTo(ss[i].db.recorded, files, |files|) == [] || Clean(ss[0].db, ss[i], files)
  {
    InvHolds(ss, acts, files, i);
    var db, s := ss[0].db, ss[i];
    hide IsRun, RunnersOk;
    forall k | 0 <= k < |files| ensures Mismatched(files[k], s.db.recorded) <==> Mismatched(files[k], db.recorded) {
      UnchangedKept(db.recorded, files, s.front, k);
    }
    AtLeast(s, files);
    FinishesIffAsksNoMore(db, s, files);
    if Unchanged(db, files) {
      assert Unchanged(s.db, files);
      AsksNoMoreIff(db, s, files);
    }
  }

  ghost predicate AsksNoMore(db: Db, s: State, files: seq<File>) {
    forall h, query :: Asks(s.db, files, h, query) ==> Asks(db, files, h, query)
  }

  lemma {:induction false} FinishesIffAsksNoMore(db: Db, s: State, files: seq<File>)
    requires Unchanged(s.db, files) <==> Unchanged(db, files)
    ensures (forall accepts: Acceptance :: WillFinish(db, files, accepts) ==> WillFinish(s.db, files, accepts))
      <==> !Unchanged(db, files) || AsksNoMore(db, s, files)
  {
    hide WillFinish, Asks, Unchanged;
    forall accepts: Acceptance
      ensures WillFinish(db, files, accepts) ==> Unchanged(db, files)
      ensures WillFinish(db, files, accepts) && AsksNoMore(db, s, files) ==> WillFinish(s.db, files, accepts)
    {
      FinishesIff(db, files, accepts);
      FinishesIff(s.db, files, accepts);
    }
    if Unchanged(db, files) {
      var accepts: Acceptance := (h, query) => Asks(db, files, h, query);
      FinishesIff(db, files, accepts);
      FinishesIff(s.db, files, accepts);
      assert WillFinish(db, files, accepts);
    }
  }

  lemma {:induction false} AsksNoMoreIff(db: Db, s: State, files: seq<File>)
    requires Listing(files) && s.front <= |files| && s.db.recorded == RecordsUpTo(db.recorded, files, s.front)
    requires |s.db.history| >= |db.history| + |HistoryUpTo(db.recorded, files, s.front)|
    ensures AsksNoMore(db, s, files) <==> HistoryUpTo(s.db.recorded, files, |files|) == [] || Clean(db, s, files)
  {
    hide Asks, RecordsUpTo, HistoryUpTo;
    var all, rest := HistoryUpTo(db.recorded, files, |files|), HistoryUpTo(s.db.recorded, files, |files|);
    var done := HistoryUpTo(db.recorded, files, s.front);
    ResumeFrom(db.recorded, files, s.front, |files|);
    assert all == done + rest;
    if rest == [] {
      forall h, query ensures !Asks(s.db, files, h, query) {
        if Asks(s.db, files, h, query) { AskedOnTheWay(s.db, files, h, query); }
      }
    } else if Clean(db, s, files) {
      forall h, query | Asks(s.db, files, h, query) ensures Asks(db, files, h, query) {
        CleanAsksTheRest(db, s, files, h, query);
      }
    } else if AsksNoMore(db, s, files) {
      NoMoreIsClean(db, s, files);
    }
  }

  lemma {:induction false} NoMoreIsClean(db: Db, s: State, files: seq<File>)
    requires Listing(files) && s.front <= |files| && s.db.recorded == RecordsUpTo(db.recorded, files, s.front)
    requires |s.db.history| >= |db.history| + |HistoryUpTo(db.recorded, files, s.front)|
    requires AsksNoMore(db, s, files) && HistoryUpTo(s.db.recorded, files, |files|) != []
    ensures Clean(db, s, files)
  {
    hide Asks, RecordsUpTo, HistoryUpTo;
    var done, rest := HistoryUpTo(db.recorded, files, s.front), HistoryUpTo(s.db.recorded, files, |files|);
    ResumeFrom(db.recorded, files, s.front, |files|);
    var first, last, h := FirstAndLast(s.db, files, |files|);
    AskedOnTheWay(db, files, s.db.history, first);
    AskedOnTheWay(db, files, h, last);
    SamePrefix(s.db.history, db.history + done, db.history + (done + rest));
  }

  lemma {:induction false} SamePrefix(a: seq<Applied>, b: seq<Applied>, whole: seq<Applied>)
    requires a <= whole && b <= whole && |a| == |b|
    ensures a == b
  {}

  // ----- files that all run in a transaction -----

  ghost predicate AllTransactional(db: Db, files: seq<File>) {
    forall k :: 0 <= k < |files| && Missing(files[k], db.recorded) ==> !files[k].sql.noTransaction
  }

  /** Every runner has seen at least the first records, and none has anything to execute outside of a
    * transaction. */
  ghost predicate NoneLoose(s: State) {
    && (forall r :: r in s.runners ==> s.known.Keys <= s.runners[r].seen.Keys && !s.runners[r].phase.Loosely?)
    && forall e :: e in Since(s) ==> e.Whole?
  }

  lemma {:induction false} NoneLooseKept(s: State, a: Action, files: seq<File>)
    requires NoneLoose(s) && Enabled(s, a, files) && s.past <= s.db.history && s.known.Keys <= s.db.recorded.Keys
    requires forall k :: 0 <= k < |files| && Missing(files[k], s.known) ==> !files[k].sql.noTransaction
    ensures NoneLoose(Apply(s, a, files))
  {
    Grows(s, a, files);
  }

  lemma {:induction false} NoneLooseThroughout(ss: seq<State>, acts: seq<Action>, files: seq<File>, i: nat)
    requires Listing(files) && IsRun(ss, acts, files) && i < |ss| && AllTransactional(ss[0].db, files)
    ensures NoneLoose(ss[i])
  {
    if i > 0 {
      NoneLooseThroughout(ss, acts, files, i - 1);
      InvHolds(ss, acts, files, i - 1);
      var s := ss[i - 1];
      forall name | name in s.known ensures name in s.db.recorded {
        RecordsUpToNames(s.known, files, s.front, name);
      }
      assert Enabled(s, acts[i - 1], files) && ss[i - 1 + 1] == Apply(s, acts[i - 1], files);
      NoneLooseKept(s, acts[i - 1], files);
    }
  }

  lemma {:induction false} SameWholes(a: seq<Applied>, b: seq<Applied>)
    requires Wholes(a) == Wholes(b)
    requires (forall e :: e in a ==> e.Whole?) && forall e :: e in b ==> e.Whole?
    ensures a == b
    decreases |a| + |b|
  {
    WholesSize(a);
    WholesSize(b);
    if a != [] {
      var m, n := |a| - 1, |b| - 1;
      assert a[m] in a && b[n] in b;
      assert Wholes(a)[..m] == Wholes(a[..m]) && Wholes(b)[..n] == Wholes(b[..n]) by { WholesSize(a[..m]); WholesSize(b[..n]); }
      SameWholes(a[..m], b[..n]);
      assert Wholes(a)[m] == Wholes(b)[n];
      assert a == a[..m] + [a[m]] && b == b[..n] + [b[n]];
    }
  }

  lemma {:induction false} WholesSize(h: seq<Applied>)
    requires forall e :: e in h ==> e.Whole?
    ensures |Wholes(h)| == |h|
    ensures h != [] ==> Wholes(h)[|h| - 1] == h[|h| - 1].name
    decreases |h|
  {
    if h != [] {
      assert h[|h| - 1] in h;
      WholesSize(h[..|h| - 1]);
    }
  }

  /** When every missing file runs in a transaction, nothing is ever left over: what has been executed is
    * exactly what the recorded files consist of, a further run can finish whenever a run from the start
    * could have, and it leaves the very same database. */
  lemma {:induction false} TransactionalRerun(ss: seq<State>, acts: seq<Action>, files: seq<File>, i: nat, accepts: Acceptance)
    requires Listing(files) && IsRun(ss, acts, files) && i < |ss| && AllTransactional(ss[0].db, files)
    ensures ss[i].front <= |files| && Clean(ss[0].db, ss[i], files)
    ensures WillFinish(ss[0].db, files, accepts) ==> WillFinish(ss[i].db, files, accepts)
    ensures Finished(ss[i].db, files) == Finished(ss[0].db, files)
  {
    InvHolds(ss, acts, files, i);
    NoneLooseThroughout(ss, acts, files, i);
    TransactionalIsClean(ss[i], files);
    hide IsRun, RunnersOk, NoneLoose, AllTransactional, Wholes;
    RerunFinishesIff(ss, acts, files, i);
    CleanFinishesAlike(ss[0].db, ss[i], files);
  }

  lemma {:induction false} CleanFinishesAlike(db: Db, s: State, files: seq<File>)
    requires Listing(files) && s.front <= |files| && s.db.recorded == RecordsUpTo(db.recorded, files, s.front)
    requires Clean(db, s, files)
    ensures Finished(s.db, files) == Finished(db, files)
  {
    hide HistoryUpTo, RecordsUpTo;
    var done, rest := HistoryUpTo(db.recorded, files, s.front), HistoryUpTo(s.db.recorded, files, |files|);
    ResumeFrom(db.recorded, files, s.front, |files|);
    assert db.history + done + rest == db.history + (done + rest);
  }

  lemma {:induction false} TransactionalIsClean(s: State, files: seq<File>)
    requires Listing(files) && DbOk(s, files) && NoneLoose(s)
    requires forall k :: 0 <= k < |files| && Missing(files[k], s.known) ==> !files[k].sql.noTransaction
    ensures s.db.history == s.past + HistoryUpTo(s.known, files, s.front)
  {
    WholesSince(s, files);
    AllWhole(s.known, files, s.front);
    assert s.db.history == s.past + Since(s);
    hide Since, HistoryUpTo, RecordsUpTo, Wholes, LooseDone, Missing;
    SameWholes(Since(s), HistoryUpTo(s.known, files, s.front));
  }

  lemma {:induction false} AllWhole(known: map<string, Sql>, files: seq<File>, p: nat)
    requires p <= |files|
    requires forall k :: 0 <= k < |files| && Missing(files[k], known) ==> !files[k].sql.noTransaction
    ensures forall e :: e in HistoryUpTo(known, files, p) ==> e.Whole?
  {
    if p > 0 {
      AllWhole(known, files, p - 1);
    }
  }

  // ----- a file without transaction, interrupted -----

  const INDEX_FILE := File("a", Sql(false, true, ["CREATE INDEX CONCURRENTLY i ON t (c);"]))

  /** A database in which the index can be created once. */
  ghost function Once(): Acceptance {
    (h: seq<Applied>, query: seq<string>) => Single("a", 0) !in h
  }

  /** The runner stops between the statement and its record. A run from the start would have finished;
    * from here on no run ever does. */
  lemma {:induction false} InterruptedIndexExample() returns (ss: seq<State>, acts: seq<Action>)
    ensures IsRun(ss, acts, [INDEX_FILE]) && WillFinish(ss[0].db, [INDEX_FILE], Once())
    ensures ss[|ss| - 1].db == Db([Single("a", 0)], map[])
    ensures forall db: Db :: Single("a", 0) in db.history && "a" !in db.recorded ==> !WillFinish(db, [INDEX_FILE], Once())
  {
    var files := [INDEX_FILE];
    ss, acts := [State(Db([], map[]), map[], map[], [], 0)], [];
    var s1 := Apply(ss[0], Start(0), files);
    assert Missing(INDEX_FILE, s1.runners[0].seen);
    var s2 := Apply(s1, BeginLoose(0), files);
    var s3 := Apply(s2, ExecuteOne(0), files);
    var s4 := Apply(s3, Stop(0), files);
    ss, acts := ss + [s1, s2, s3, s4], [Start(0), BeginLoose(0), ExecuteOne(0), Stop(0)];
    FreshFinishes();
    forall db: Db | Single("a", 0) in db.history && "a" !in db.recorded ensures !WillFinish(db, files, Once()) {
      StuckFile(db);
    }
  }

  lemma {:induction false} FreshFinishes()
    ensures WillFinish(Db([], map[]), [INDEX_FILE], Once())
  {
    assert Singles(INDEX_FILE, 0) == [] && HistoryUpTo(map[], [INDEX_FILE], 0) == [];
  }

  lemma {:induction false} StuckFile(db: Db)
    requires Single("a", 0) in db.history && "a" !in db.recorded
    ensures !WillFinish(db, [INDEX_FILE], Once())
  {
    assert Missing(INDEX_FILE, db.recorded);
    var history := db.history + HistoryUpTo(db.recorded, [INDEX_FILE], 0);
    assert Single("a", 0) in history + Singles(INDEX_FILE, 0);
    assert !Once()(history + Singles(INDEX_FILE, 0), [INDEX_FILE.sql.statements[0]]);
    assert Offends(db, [INDEX_FILE], 0, Once());
  }
}
