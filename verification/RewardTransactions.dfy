/** Donations and dispositions as concurrent READ COMMITTED transactions.
  *
  * A transaction works on its own uncommitted writes; other transactions see the last committed ledger.
  * `SELECT ... FOR UPDATE` locks a donation row, and the write to `user_rewards` locks the row of that
  * user (or the slot of its unique key); both locks are held to the end of the transaction. */
module RewardTransactions {
  import opened Options
  import opened Sums
  import opened DonationMath
  import opened RewardLedger
  import opened LedgerBalance

  type TxId = nat

  datatype Tx =
    | Creating(id: DonationId, donation: Donation, items: seq<Item>)
    | CreatePosted(id: DonationId, donation: Donation, items: seq<Item>, row: Rewards)
    | Disposing(id: DonationId, user: UserId, previousCo2: int, disposition: Disposition)
    | Resorted(id: DonationId, user: UserId, previousCo2: int, disposition: Disposition, rates: Catalogue, newItems: seq<Item>)
    | DisposePosted(id: DonationId, user: UserId, previousCo2: int, disposition: Disposition, rates: Catalogue,
                    newItems: seq<Item>, row: Rewards)
  {
    predicate Creates() { Creating? || CreatePosted? }
  }

  /** A committed operation, in commit order. */
  datatype Op =
    | CreateOp(id: DonationId, donation: Donation, items: seq<Item>)
    | DisposeOp(id: DonationId, disposition: Disposition, rates: Catalogue)

  datatype State = State(ledger: Ledger, catalogue: Catalogue, txs: map<TxId, Tx>,
                         donationLocks: map<DonationId, TxId>, userLocks: map<UserId, TxId>, log: seq<Op>)

  datatype Action =
    | BeginCreate(tx: TxId, id: DonationId, request: Request, points: map<PointId, CollectionPoint>)
    | PostCreate(tx: TxId)
    | CommitCreate(tx: TxId)
    | BeginDispose(tx: TxId, id: DonationId, disposition: Disposition)
    | Resort(tx: TxId)
    | PostDispose(tx: TxId)
    | CommitDispose(tx: TxId)
    | Rollback(tx: TxId)
    | Reprice(catalogue: Catalogue)

  ghost predicate Init(s: State) {
    s.ledger == Ledger(map[], map[], map[], []) && s.txs == map[] && s.donationLocks == map[] && s.userLocks == map[]
    && s.log == [] && RatesOk(s.catalogue)
  }

  /** A lock that somebody else holds makes the statement wait, so the step is not enabled. */
  ghost predicate Enabled(s: State, a: Action) {
    match a
    case BeginCreate(tx, id, r, points) =>
      && tx !in s.txs && id !in s.ledger.donations && Accepts(r, Registry(s.catalogue, points))
      && forall t :: t in s.txs && s.txs[t].Creates() ==> s.txs[t].id != id
    case PostCreate(tx) => tx in s.txs && s.txs[tx].Creating? && s.txs[tx].donation.user !in s.userLocks
    case CommitCreate(tx) => tx in s.txs && s.txs[tx].CreatePosted?
    case BeginDispose(tx, id, _) => tx !in s.txs && id in s.ledger.donations && id !in s.donationLocks
    case Resort(tx) => tx in s.txs && s.txs[tx].Disposing? && s.txs[tx].id in s.ledger.items
    case PostDispose(tx) =>
      tx in s.txs && s.txs[tx].Resorted? && s.txs[tx].user !in s.userLocks && s.txs[tx].user in s.ledger.rewards
    case CommitDispose(tx) => tx in s.txs && s.txs[tx].DisposePosted? && s.txs[tx].id in s.ledger.donations
    case Rollback(tx) => tx in s.txs
    case Reprice(catalogue) => RatesOk(catalogue)
  }

  ghost function Release(s: State, tx: TxId): State {
    s.(txs := s.txs - {tx},
       donationLocks := map id | id in s.donationLocks && s.donationLocks[id] != tx :: s.donationLocks[id],
       userLocks := map u | u in s.userLocks && s.userLocks[u] != tx :: s.userLocks[u])
  }

  ghost function Apply(s: State, a: Action): State
    requires Enabled(s, a)
  {
    match a
    case BeginCreate(tx, id, r, _) =>
      var items := ScoredItems(r.items, r.category.value, s.catalogue);
      s.(txs := s.txs[tx := Creating(id, NewDonation(r.user, r.category.value, InitialStatus(r), items), items)])
    case PostCreate(tx) =>
      var t := s.txs[tx];
      s.(txs := s.txs[tx := CreatePosted(t.id, t.donation, t.items, Credited(s.ledger, t.donation, t.items))],
         userLocks := s.userLocks[t.donation.user := tx])
    case CommitCreate(tx) =>
      var t := s.txs[tx];
      var l := s.ledger;
      Release(s, tx).(
        ledger := Ledger(l.donations[t.id := t.donation], l.items[t.id := t.items],
                         l.rewards[t.donation.user := t.row], l.earned + [Earned(t.donation.user, t.id, t.donation.totalPoints)]),
        log := s.log + [CreateOp(t.id, t.donation, t.items)])
    case BeginDispose(tx, id, disposition) =>
      var d := s.ledger.donations[id];
      s.(txs := s.txs[tx := Disposing(id, d.user, d.co2, disposition)], donationLocks := s.donationLocks[id := tx])
    case Resort(tx) =>
      var t := s.txs[tx];
      s.(txs := s.txs[tx := Resorted(t.id, t.user, t.previousCo2, t.disposition, s.catalogue,
                                     SortedItems(s.ledger.items[t.id], t.disposition, s.catalogue))])
    case PostDispose(tx) =>
      var t := s.txs[tx];
      var row := Adjust(s.ledger.rewards[t.user], Co2(t.newItems) - t.previousCo2);
      s.(txs := s.txs[tx := DisposePosted(t.id, t.user, t.previousCo2, t.disposition, t.rates, t.newItems, row)],
         userLocks := s.userLocks[t.user := tx])
    case CommitDispose(tx) =>
      var t := s.txs[tx];
      var l := s.ledger;
      var d := l.donations[t.id];
      Release(s, tx).(
        ledger := l.(donations := l.donations[t.id := d.(disposition := Some(t.disposition), co2 := Co2(t.newItems), status := Completed)],
                     items := l.items[t.id := t.newItems], rewards := l.rewards[t.user := t.row]),
        log := s.log + [DisposeOp(t.id, t.disposition, t.rates)])
    case Rollback(tx) => Release(s, tx)
    case Reprice(catalogue) => s.(catalogue := catalogue)
  }

  ghost predicate IsRun(ss: seq<State>, acts: seq<Action>) {
    && |ss| == |acts| + 1 && Init(ss[0])
    && forall i :: 0 <= i < |acts| ==> Enabled(ss[i], acts[i]) && ss[i + 1] == Apply(ss[i], acts[i])
  }

  // ----- what a transaction has read is still true -----

  ghost predicate DonationHeld(s: State, tx: TxId, id: DonationId, user: UserId, previousCo2: int) {
    && id in s.donationLocks && s.donationLocks[id] == tx
    && id in s.ledger.donations && id in s.ledger.items
    && s.ledger.donations[id].user == user && s.ledger.donations[id].co2 == previousCo2
  }

  ghost predicate UserHeld(s: State, tx: TxId, user: UserId) {
    user in s.userLocks && s.userLocks[user] == tx
  }

  ghost predicate ItemsReady(d: Donation, items: seq<Item>) {
    DonationOk(d, items) && forall i :: i in items ==> i.co2 >= 0
  }

  ghost predicate ResortOk(s: State, t: Tx)
    requires t.Resorted? || t.DisposePosted?
  {
    t.id in s.ledger.items && RatesOk(t.rates) && t.newItems == SortedItems(s.ledger.items[t.id], t.disposition, t.rates)
  }

  ghost predicate TxOk(s: State, tx: TxId)
    requires tx in s.txs
  {
    var t := s.txs[tx];
    match t
    case Creating(id, d, items) => id !in s.ledger.donations && ItemsReady(d, items)
    case CreatePosted(id, d, items, row) =>
      id !in s.ledger.donations && ItemsReady(d, items) && UserHeld(s, tx, d.user) && row == Credited(s.ledger, d, items)
    case Disposing(id, user, previousCo2, _) => DonationHeld(s, tx, id, user, previousCo2)
    case Resorted(id, user, previousCo2, _, _, _) => DonationHeld(s, tx, id, user, previousCo2) && ResortOk(s, t)
    case DisposePosted(id, user, previousCo2, _, _, newItems, row) =>
      && DonationHeld(s, tx, id, user, previousCo2) && ResortOk(s, t) && UserHeld(s, tx, user)
      && user in s.ledger.rewards && row == Adjust(s.ledger.rewards[user], Co2(newItems) - previousCo2)
  }

  ghost predicate TxsOk(s: State) {
    && (forall tx :: tx in s.txs ==> TxOk(s, tx))
    && (forall t, u :: t in s.txs && u in s.txs && t != u && s.txs[t].Creates() && s.txs[u].Creates() ==>
          s.txs[t].id != s.txs[u].id)
    && s.donationLocks.Keys <= s.ledger.donations.Keys
  }

  /** One operation of the service run alone on the ledger. */
  ghost function Serially(l: Ledger, op: Op): Ledger {
    match op
    case CreateOp(id, d, items) => Create(l, id, d, items)
    case DisposeOp(id, disposition, rates) =>
      if id in l.donations && id in l.items then Dispose(l, id, disposition, SortedItems(l.items[id], disposition, rates)) else l
  }

  ghost function ReplayLog(log: seq<Op>): Ledger {
    if log == [] then Ledger(map[], map[], map[], []) else Serially(ReplayLog(log[..|log| - 1]), log[|log| - 1])
  }

  ghost predicate Inv(s: State) {
    && TxsOk(s) && RatesOk(s.catalogue)
    && Balanced(s.ledger) && SavingsOk(s.ledger)
    && s.ledger == ReplayLog(s.log)
  }

  // ----- each step -----

  /** The commits write exactly what the operation run alone on the committed ledger would. */
  lemma CommitIsSerial(s: State, a: Action)
    requires TxsOk(s) && Enabled(s, a)
    ensures a.CommitCreate? ==>
      var t := s.txs[a.tx]; Apply(s, a).ledger == Serially(s.ledger, CreateOp(t.id, t.donation, t.items))
    ensures a.CommitDispose? ==>
      var t := s.txs[a.tx]; Apply(s, a).ledger == Serially(s.ledger, DisposeOp(t.id, t.disposition, t.rates))
    ensures !a.CommitCreate? && !a.CommitDispose? ==> Apply(s, a).ledger == s.ledger && Apply(s, a).log == s.log
  {
    if a.CommitCreate? || a.CommitDispose? {
      assert TxOk(s, a.tx);
    }
  }

  /** What a step leaves to transaction `tx`: its locks, and the rows behind them. */
  ghost predicate Undisturbed(s: State, t: State, tx: TxId)
    requires tx in s.txs
  {
    && tx in t.txs && t.txs[tx] == s.txs[tx]
    && (forall id :: id in s.donationLocks && s.donationLocks[id] == tx ==>
          && id in t.donationLocks && t.donationLocks[id] == tx
          && Find(t.ledger.donations, id) == Find(s.ledger.donations, id) && Find(t.ledger.items, id) == Find(s.ledger.items, id))
    && (forall u :: u in s.userLocks && s.userLocks[u] == tx ==>
          u in t.userLocks && t.userLocks[u] == tx && Find(t.ledger.rewards, u) == Find(s.ledger.rewards, u))
    && (s.txs[tx].Creates() && s.txs[tx].id !in s.ledger.donations ==> s.txs[tx].id !in t.ledger.donations)
  }

  lemma UndisturbedIsOk(s: State, t: State, tx: TxId)
    requires tx in s.txs && TxOk(s, tx) && Undisturbed(s, t, tx)
    ensures TxOk(t, tx)
  {}

  /** A transaction that goes on has nothing it relied on taken away: rows it locked keep their values,
    * and rows it did not lock are not yet read. */
  lemma {:induction false} OthersUndisturbed(s: State, a: Action, tx: TxId)
    requires TxsOk(s) && Enabled(s, a) && tx in s.txs && tx in Apply(s, a).txs
    requires !a.Reprice? && a.tx != tx
    ensures Undisturbed(s, Apply(s, a), tx)
  {
    hide TxOk;
    if a.CommitCreate? {
      CreateDisturbsNobody(s, a, tx);
    } else if a.CommitDispose? {
      DisposeDisturbsNobody(s, a, tx);
    }
  }

  lemma CreateDisturbsNobody(s: State, a: Action, tx: TxId)
    requires TxsOk(s) && Enabled(s, a) && tx in s.txs && a.CommitCreate? && a.tx != tx
    ensures Undisturbed(s, Apply(s, a), tx)
  {
    hide ScoredItems, SortedItems, Credited, Adjust, DonationOk, Co2, NewDonation, RatesOk;
    assert TxOk(s, a.tx);
  }

  lemma DisposeDisturbsNobody(s: State, a: Action, tx: TxId)
    requires TxsOk(s) && Enabled(s, a) && tx in s.txs && a.CommitDispose? && a.tx != tx
    ensures Undisturbed(s, Apply(s, a), tx)
  {
    hide ScoredItems, SortedItems, Credited, Adjust, DonationOk, Co2, NewDonation, RatesOk;
    assert TxOk(s, a.tx);
  }

  lemma ActorProceeds(s: State, a: Action)
    requires TxsOk(s) && RatesOk(s.catalogue) && Balanced(s.ledger) && Enabled(s, a) && !a.Reprice? && a.tx in Apply(s, a).txs
    ensures TxOk(Apply(s, a), a.tx)
  {
    hide UserOk, SortedItems;
    if a.tx in s.txs { assert TxOk(s, a.tx); }
    if a.BeginCreate? {
      ScoredItemsOk(a.request, Registry(s.catalogue, a.points));
    }
  }

  lemma {:induction false} TxsKept(s: State, a: Action)
    requires TxsOk(s) && RatesOk(s.catalogue) && Balanced(s.ledger) && Enabled(s, a)
    ensures TxsOk(Apply(s, a))
  {
    EachTxKept(s, a);
    IdsKept(s, a);
    hide Balanced, RatesOk, TxOk, Apply, Enabled;
  }

  lemma {:induction false} EachTxKept(s: State, a: Action)
    requires TxsOk(s) && RatesOk(s.catalogue) && Balanced(s.ledger) && Enabled(s, a)
    ensures forall tx :: tx in Apply(s, a).txs ==> TxOk(Apply(s, a), tx)
  {
    hide Balanced, RatesOk;
    var t := Apply(s, a);
    forall tx | tx in t.txs ensures TxOk(t, tx) {
      if a.Reprice? {
        assert TxOk(s, tx);
      } else {
        hide TxOk;
        if tx == a.tx { ActorProceeds(s, a); } else { OthersUndisturbed(s, a, tx); UndisturbedIsOk(s, t, tx); }
      }
    }
  }

  /** Two donations in the making have different ids, and only existing donations are locked. */
  lemma {:induction false} IdsKept(s: State, a: Action)
    requires TxsOk(s) && Enabled(s, a)
    ensures var t := Apply(s, a);
      && (forall q, u :: q in t.txs && u in t.txs && q != u && t.txs[q].Creates() && t.txs[u].Creates() ==> t.txs[q].id != t.txs[u].id)
      && t.donationLocks.Keys <= t.ledger.donations.Keys
  {
    hide TxOk, Accepts, ScoredItems, SortedItems, Credited, Adjust, Co2, NewDonation;
  }

  lemma {:induction false} LedgerKept(s: State, a: Action)
    requires Inv(s) && Enabled(s, a)
    ensures Balanced(Apply(s, a).ledger) && SavingsOk(Apply(s, a).ledger) && Apply(s, a).ledger == ReplayLog(Apply(s, a).log)
  {
    hide Balanced, SortedItems, Create, Dispose;
    CommitIsSerial(s, a);
    if a.CommitCreate? {
      var t := s.txs[a.tx];
      assert TxOk(s, a.tx);
      CreateKeepsBalance(s.ledger, t.id, t.donation, t.items);
      assert (s.log + [CreateOp(t.id, t.donation, t.items)])[..|s.log|] == s.log;
    } else if a.CommitDispose? {
      var t := s.txs[a.tx];
      assert TxOk(s, a.tx);
      DispositionKeepsBalance(s.ledger, t.id, t.disposition, t.rates);
      assert (s.log + [DisposeOp(t.id, t.disposition, t.rates)])[..|s.log|] == s.log;
    }
  }

  lemma {:induction false} StepKeepsInv(s: State, a: Action)
    requires Inv(s) && Enabled(s, a)
    ensures Inv(Apply(s, a))
  {
    hide Balanced, TxsOk, SavingsOk;
    TxsKept(s, a);
    LedgerKept(s, a);
  }

  lemma {:induction false} InvHolds(ss: seq<State>, acts: seq<Action>, i: nat)
    requires IsRun(ss, acts) && i < |ss|
    ensures Inv(ss[i])
  {
    if i > 0 {
      InvHolds(ss, acts, i - 1);
      assert Enabled(ss[i - 1], acts[i - 1]) && ss[i - 1 + 1] == Apply(ss[i - 1], acts[i - 1]);
      StepKeepsInv(ss[i - 1], acts[i - 1]);
    } else {
      EmptyIsBalanced(ss[0]);
    }
  }

  lemma EmptyIsBalanced(s: State)
    requires Init(s)
    ensures Inv(s)
  {
    forall user: UserId ensures UserOk(s.ledger, user) {}
  }

  /** In every interleaving, every committed state has each user's totals equal to the sums over that
    * user's donations and reward transactions, and each donation equal to its items; and the committed
    * ledger is what running the committed operations one after another would give. */
  lemma EveryCommittedStateBalances(ss: seq<State>, acts: seq<Action>, i: nat)
    requires IsRun(ss, acts) && i < |ss|
    ensures Balanced(ss[i].ledger)
    ensures ss[i].ledger == ReplayLog(ss[i].log)
  {
    InvHolds(ss, acts, i);
  }

  /** The clamp at zero is never what decides the new total. */
  lemma ClampNeverBites(ss: seq<State>, acts: seq<Action>, i: nat)
    requires IsRun(ss, acts) && i < |acts| && acts[i].PostDispose?
    ensures var t := ss[i].txs[acts[i].tx];
      ss[i].ledger.rewards[t.user].co2 + (Co2(t.newItems) - t.previousCo2) >= 0
  {
    InvHolds(ss, acts, i);
    var s, a := ss[i], acts[i];
    assert Enabled(s, a);
    var t := s.txs[a.tx];
    assert TxOk(s, a.tx);
    SortedItemsOk(s.ledger.items[t.id], t.disposition, t.rates);
    SeqSumNonNegative(t.newItems, (x: Item) => x.co2);
    OthersNotNegative(s.ledger, t.id);
    assert UserOk(s.ledger, t.user);
  }
}
