/** The running totals agree with the detail rows after every operation, and what a sequence of
  * dispositions leaves behind depends only on the last one of each donation. */
module LedgerBalance {
  import opened Sums
  import opened DonationMath
  import opened RewardLedger

  // ----- balance -----

  /** What one donation contributes to its donor's totals. */
  datatype Field = PointsOf | CountOf | ItemsOf | WeightOf | Co2Of

  ghost function Share(l: Ledger, user: UserId, field: Field, id: DonationId): int {
    if id in l.donations && id in l.items && l.donations[id].user == user then
      match field
      case PointsOf => l.donations[id].totalPoints
      case CountOf => 1
      case ItemsOf => |l.items[id]|
      case WeightOf => l.donations[id].weight
      case Co2Of => l.donations[id].co2
    else 0
  }

  ghost function Total(l: Ledger, user: UserId, field: Field): int {
    Sum<DonationId>(l.donations.Keys, (id: DonationId) => Share(l, user, field, id))
  }

  function EarnedBy(user: UserId): Earned -> int {
    (e: Earned) => if e.user == user then e.points else 0
  }

  /** A donation row agrees with its item rows. */
  ghost predicate DonationOk(d: Donation, items: seq<Item>) {
    && d.weight == Weight(items) && d.basePoints == Points(items) && d.co2 == Co2(items)
    && d.bonusPoints == Bonus(d.category, d.basePoints) && d.totalPoints == d.basePoints + d.bonusPoints
  }

  /** The row of a user, where a missing row stands for zeros. */
  ghost function RowOf(l: Ledger, user: UserId): Rewards {
    if user in l.rewards then l.rewards[user] else Rewards(0, 0, 0, 0, 0, Beginner)
  }

  ghost predicate UserOk(l: Ledger, user: UserId) {
    var r := RowOf(l, user);
    && r.points == Total(l, user, PointsOf) && r.donations == Total(l, user, CountOf)
    && r.items == Total(l, user, ItemsOf) && r.weight == Total(l, user, WeightOf) && r.co2 == Total(l, user, Co2Of)
    && r.points == SeqSum(l.earned, EarnedBy(user))
    && r.level == LevelFor(r.points)
  }

  ghost predicate Balanced(l: Ledger) {
    && l.items.Keys == l.donations.Keys
    && (forall id :: id in l.donations ==> DonationOk(l.donations[id], l.items[id]))
    && (forall id :: id in l.donations ==> l.donations[id].user in l.rewards)
    && forall user: UserId :: UserOk(l, user)
  }

  // ----- totals under one changed donation -----

  lemma TotalAfterInsert(l: Ledger, m: Ledger, id: DonationId, user: UserId, field: Field)
    requires id !in l.donations && m.donations.Keys == l.donations.Keys + {id}
    requires forall k :: k in l.donations ==> Share(m, user, field, k) == Share(l, user, field, k)
    ensures Total(m, user, field) == Total(l, user, field) + Share(m, user, field, id)
  {
    SumAdd<DonationId>(l.donations.Keys, (k: DonationId) => Share(m, user, field, k), id);
    SumSame<DonationId>(l.donations.Keys, (k: DonationId) => Share(l, user, field, k), (k: DonationId) => Share(m, user, field, k));
  }

  lemma TotalAfterUpdate(l: Ledger, m: Ledger, id: DonationId, user: UserId, field: Field)
    requires id in l.donations && m.donations.Keys == l.donations.Keys
    requires forall k :: k in l.donations && k != id ==> Share(m, user, field, k) == Share(l, user, field, k)
    ensures Total(m, user, field) == Total(l, user, field) - Share(l, user, field, id) + Share(m, user, field, id)
  {
    SumUpdate<DonationId>(l.donations.Keys, (k: DonationId) => Share(l, user, field, k), (k: DonationId) => Share(m, user, field, k), id);
  }

  // ----- createDonation -----

  lemma CreateKeepsUser(l: Ledger, id: DonationId, d: Donation, items: seq<Item>, user: UserId)
    requires Balanced(l) && id !in l.donations && DonationOk(d, items)
    ensures UserOk(Create(l, id, d, items), user)
  {
    hide DonationOk;
    var m := Create(l, id, d, items);
    assert UserOk(l, user);
    forall field: Field ensures Total(m, user, field) == Total(l, user, field) + Share(m, user, field, id) {
      TotalAfterInsert(l, m, id, user, field);
    }
    SeqSumLast(l.earned, Earned(d.user, id, d.totalPoints), EarnedBy(user));
  }

  lemma CreateKeepsBalance(l: Ledger, id: DonationId, d: Donation, items: seq<Item>)
    requires Balanced(l) && id !in l.donations && DonationOk(d, items)
    ensures Balanced(Create(l, id, d, items))
  {
    forall user: UserId ensures UserOk(Create(l, id, d, items), user) {
      CreateKeepsUser(l, id, d, items, user);
    }
  }

  /** Whatever request `createDonation` accepts, the ledger stays balanced. */
  lemma AcceptedDonationKeepsBalance(l: Ledger, id: DonationId, r: Request, g: Registry)
    requires Balanced(l) && id !in l.donations && Accepts(r, g)
    ensures var scored := ScoredItems(r.items, r.category.value, g.materials);
      && Balanced(Create(l, id, NewDonation(r.user, r.category.value, InitialStatus(r), scored), scored))
      && Scored(g.materials, scored)
  {
    var scored := ScoredItems(r.items, r.category.value, g.materials);
    CreateKeepsBalance(l, id, NewDonation(r.user, r.category.value, InitialStatus(r), scored), scored);
  }

  // ----- recordDonationDisposition: when does the clamp at zero bite? -----

  /** What the donor's CO2 total must become. */
  ghost function TargetCo2(l: Ledger, id: DonationId, newItems: seq<Item>): int
    requires id in l.donations
  {
    Total(l, l.donations[id].user, Co2Of) - l.donations[id].co2 + Co2(newItems)
  }

  lemma TotalsAfterDispose(l: Ledger, id: DonationId, disposition: Disposition, newItems: seq<Item>, user: UserId, field: Field)
    requires Balanced(l) && id in l.donations && |newItems| == |l.items[id]|
    ensures Total(Dispose(l, id, disposition, newItems), user, field) ==
      if field == Co2Of && user == l.donations[id].user then TargetCo2(l, id, newItems) else Total(l, user, field)
  {
    TotalAfterUpdate(l, Dispose(l, id, disposition, newItems), id, user, field);
  }

  lemma DisposeKeepsOthers(l: Ledger, id: DonationId, disposition: Disposition, newItems: seq<Item>, user: UserId)
    requires Balanced(l) && id in l.donations && |newItems| == |l.items[id]|
    ensures user != l.donations[id].user ==> UserOk(Dispose(l, id, disposition, newItems), user)
    ensures user == l.donations[id].user ==>
      (UserOk(Dispose(l, id, disposition, newItems), user) <==> TargetCo2(l, id, newItems) >= 0)
  {
    var m := Dispose(l, id, disposition, newItems);
    assert UserOk(l, user);
    forall field: Field ensures Total(m, user, field) ==
      if field == Co2Of && user == l.donations[id].user then TargetCo2(l, id, newItems) else Total(l, user, field)
    {
      TotalsAfterDispose(l, id, disposition, newItems, user, field);
    }
  }

  /** The items of a disposed donation keep their weights and points. */
  ghost predicate SameButCo2(items: seq<Item>, newItems: seq<Item>) {
    |newItems| == |items| && forall i :: 0 <= i < |items| ==> newItems[i] == items[i].(co2 := newItems[i].co2)
  }

  lemma {:induction false} SameButCo2Sums(items: seq<Item>, newItems: seq<Item>)
    requires SameButCo2(items, newItems)
    ensures Weight(newItems) == Weight(items) && Points(newItems) == Points(items)
    decreases |items|
  {
    if items != [] {
      SameButCo2Sums(items[..|items| - 1], newItems[..|items| - 1]);
    }
  }

  /** Exactly when the clamp does not bite, a disposition keeps the ledger balanced. */
  lemma DisposeKeepsBalanceIff(l: Ledger, id: DonationId, disposition: Disposition, newItems: seq<Item>)
    requires Balanced(l) && id in l.donations && SameButCo2(l.items[id], newItems)
    ensures Balanced(Dispose(l, id, disposition, newItems)) <==> TargetCo2(l, id, newItems) >= 0
  {
    var m := Dispose(l, id, disposition, newItems);
    SameButCo2Sums(l.items[id], newItems);
    forall user: UserId
      ensures user != l.donations[id].user ==> UserOk(m, user)
      ensures user == l.donations[id].user ==> (UserOk(m, user) <==> TargetCo2(l, id, newItems) >= 0)
    {
      DisposeKeepsOthers(l, id, disposition, newItems, user);
    }
    assert DonationOk(l.donations[id], l.items[id]);
    assert m.donations.Keys == l.donations.Keys && m.items.Keys == l.items.Keys;
    if Balanced(m) {
      assert UserOk(m, l.donations[id].user);
    }
  }

  /** With factors that are not negative no saving is negative, so the clamp never bites. */
  ghost predicate RatesOk(catalogue: Catalogue) {
    forall m :: m in catalogue ==> catalogue[m].co2PerKg >= 0
  }

  ghost predicate SavingsOk(l: Ledger) {
    forall id :: id in l.items ==> forall i :: i in l.items[id] ==> i.co2 >= 0
  }

  lemma SortedItemsOk(items: seq<Item>, disposition: Disposition, catalogue: Catalogue)
    requires RatesOk(catalogue)
    ensures SameButCo2(items, SortedItems(items, disposition, catalogue))
    ensures forall i :: i in SortedItems(items, disposition, catalogue) ==> i.co2 >= 0
  {
    forall k | 0 <= k < |items| ensures Sorted(items[k], disposition, catalogue).co2 >= 0 {
      Co2NotNegative(Recycle, disposition, Rate(catalogue, items[k].material), items[k].weight);
    }
  }

  lemma ScoredItemsOk(r: Request, g: Registry)
    requires RatesOk(g.materials) && Accepts(r, g)
    ensures forall i :: i in ScoredItems(r.items, r.category.value, g.materials) ==> i.co2 >= 0
  {
    forall k | 0 <= k < |r.items| ensures ScoredItem(r.items[k], r.category.value, g.materials).co2 >= 0 {
      Co2NotNegative(r.category.value, ToWaste, g.materials[r.items[k].material.value].co2PerKg, ToUnits(r.items[k].weightKg.value));
    }
  }

  lemma OthersNotNegative(l: Ledger, id: DonationId)
    requires Balanced(l) && SavingsOk(l) && id in l.donations
    ensures Total(l, l.donations[id].user, Co2Of) - l.donations[id].co2 >= 0
  {
    var user := l.donations[id].user;
    var f := (k: DonationId) => Share(l, user, Co2Of, k);
    SumRemove<DonationId>(l.donations.Keys, f, id);
    forall k: DonationId | k in l.donations.Keys ensures 0 <= f(k) {
      assert DonationOk(l.donations[k], l.items[k]);
      SeqSumNonNegative(l.items[k], (i: Item) => i.co2);
    }
    SumSubset<DonationId>({}, l.donations.Keys - {id}, f);
  }

  lemma {:induction false} DispositionKeepsBalance(l: Ledger, id: DonationId, disposition: Disposition, catalogue: Catalogue)
    requires Balanced(l) && SavingsOk(l) && RatesOk(catalogue) && id in l.donations
    ensures var m := Dispose(l, id, disposition, SortedItems(l.items[id], disposition, catalogue));
      && Balanced(m) && SavingsOk(m)
      && RowOf(m, l.donations[id].user).co2 == RowOf(l, l.donations[id].user).co2 - l.donations[id].co2 + m.donations[id].co2
  {
    var newItems := SortedItems(l.items[id], disposition, catalogue);
    SortedItemsOk(l.items[id], disposition, catalogue);
    SeqSumNonNegative(newItems, (i: Item) => i.co2);
    OthersNotNegative(l, id);
    DisposeKeepsBalanceIff(l, id, disposition, newItems);
    assert UserOk(l, l.donations[id].user);
  }
}
