/** Sequences of dispositions under fixed material factors: the deltas telescope. */
module LedgerReplay {
  import opened Options
  import opened Sums
  import opened DonationMath
  import opened RewardLedger
  import opened LedgerBalance

  datatype Call = Call(id: DonationId, disposition: Disposition)

  /** One call of `recordDonationDisposition`; an unknown donation is an error and changes nothing. */
  ghost function Apply(l: Ledger, c: Call, catalogue: Catalogue): Ledger {
    if c.id in l.donations && c.id in l.items
    then Dispose(l, c.id, c.disposition, SortedItems(l.items[c.id], c.disposition, catalogue)) else l
  }

  ghost function Replay(l: Ledger, calls: seq<Call>, catalogue: Catalogue): Ledger {
    if calls == [] then l else Apply(Replay(l, calls[..|calls| - 1], catalogue), calls[|calls| - 1], catalogue)
  }

  /** The last disposition recorded for each donation that exists. */
  ghost function Latest(calls: seq<Call>, known: set<DonationId>): map<DonationId, Disposition> {
    if calls == [] then map[]
    else
      var before := Latest(calls[..|calls| - 1], known);
      var c := calls[|calls| - 1];
      if c.id in known then before[c.id := c.disposition] else before
  }

  ghost predicate SettledRow(l: Ledger, latest: map<DonationId, Disposition>, catalogue: Catalogue, m: Ledger, id: DonationId)
    requires id in l.donations && id in l.items && id in m.donations && id in m.items
  {
    if id in latest then
      && m.items[id] == SortedItems(l.items[id], latest[id], catalogue)
      && m.donations[id] == l.donations[id].(disposition := Some(latest[id]), status := Completed, co2 := Co2(m.items[id]))
    else m.items[id] == l.items[id] && m.donations[id] == l.donations[id]
  }

  /** `m` is `l` after the given final dispositions. */
  ghost predicate Settled(l: Ledger, latest: map<DonationId, Disposition>, catalogue: Catalogue, m: Ledger) {
    && m.donations.Keys == l.donations.Keys && m.items.Keys == l.items.Keys == l.donations.Keys
    && latest.Keys <= l.donations.Keys
    && (forall id :: id in l.donations ==> SettledRow(l, latest, catalogue, m, id))
    && m.earned == l.earned && m.rewards.Keys == l.rewards.Keys
    && forall u :: u in l.rewards ==> m.rewards[u] == l.rewards[u].(co2 := m.rewards[u].co2)
  }

  /** Sorting again forgets the earlier sorting: only weight and material are read. */
  lemma SortedAgain(items: seq<Item>, first: Disposition, second: Disposition, catalogue: Catalogue)
    ensures SortedItems(SortedItems(items, first, catalogue), second, catalogue) == SortedItems(items, second, catalogue)
  {
    assert forall i :: 0 <= i < |items| ==>
      SortedItems(SortedItems(items, first, catalogue), second, catalogue)[i] == SortedItems(items, second, catalogue)[i];
  }

  lemma {:induction false} SettledStep(l: Ledger, latest: map<DonationId, Disposition>, catalogue: Catalogue, m: Ledger, c: Call)
    requires Settled(l, latest, catalogue, m) && c.id in l.donations
    ensures Settled(l, latest[c.id := c.disposition], catalogue, Apply(m, c, catalogue))
  {
    hide SortedItems, Co2, SettledRow;
    forall id | id in l.donations ensures SettledRow(l, latest[c.id := c.disposition], catalogue, Apply(m, c, catalogue), id) {
      SettledStepRow(l, latest, catalogue, m, c, id);
    }
  }

  lemma {:induction false} SettledStepRow(l: Ledger, latest: map<DonationId, Disposition>, catalogue: Catalogue, m: Ledger, c: Call,
                                          id: DonationId)
    requires Settled(l, latest, catalogue, m) && c.id in l.donations && id in l.donations
    ensures id in Apply(m, c, catalogue).donations && id in Apply(m, c, catalogue).items
    ensures SettledRow(l, latest[c.id := c.disposition], catalogue, Apply(m, c, catalogue), id)
  {
    hide SortedItems, Co2;
    assert SettledRow(l, latest, catalogue, m, id);
    if id == c.id && c.id in latest {
      SortedAgain(l.items[c.id], latest[c.id], c.disposition, catalogue);
    }
  }

  lemma {:induction false} ReplaySettles(l: Ledger, calls: seq<Call>, catalogue: Catalogue)
    requires Balanced(l) && SavingsOk(l) && RatesOk(catalogue)
    ensures var m := Replay(l, calls, catalogue);
      Balanced(m) && SavingsOk(m) && Settled(l, Latest(calls, l.donations.Keys), catalogue, m)
    decreases |calls|
  {
    if calls != [] {
      var n := |calls| - 1;
      ReplaySettles(l, calls[..n], catalogue);
      var m, c := Replay(l, calls[..n], catalogue), calls[n];
      if c.id in l.donations {
        DispositionKeepsBalance(m, c.id, c.disposition, catalogue);
        SettledStep(l, Latest(calls[..n], l.donations.Keys), catalogue, m, c);
      }
    }
  }

  /** The totals of a balanced ledger are fixed by its donations. */
  lemma SameDonationsSameCo2(m: Ledger, n: Ledger, user: UserId)
    requires m.donations == n.donations && m.items == n.items
    requires UserOk(m, user) && UserOk(n, user)
    ensures RowOf(m, user).co2 == RowOf(n, user).co2
  {
    SumSame<DonationId>(m.donations.Keys, (id: DonationId) => Share(m, user, Co2Of, id), (id: DonationId) => Share(n, user, Co2Of, id));
  }

  lemma SettledFixesRows(l: Ledger, latest: map<DonationId, Disposition>, catalogue: Catalogue, m: Ledger, n: Ledger)
    requires Settled(l, latest, catalogue, m) && Settled(l, latest, catalogue, n)
    ensures m.donations == n.donations && m.items == n.items && m.earned == n.earned && m.rewards.Keys == n.rewards.Keys
    ensures forall u :: u in m.rewards ==> m.rewards[u] == n.rewards[u].(co2 := m.rewards[u].co2)
  {
    forall id | id in l.donations ensures m.donations[id] == n.donations[id] && m.items[id] == n.items[id] {
      SettledFixesRow(l, latest, catalogue, m, n, id);
    }
    hide SettledRow;
  }

  lemma {:induction false} SettledFixesRow(l: Ledger, latest: map<DonationId, Disposition>, catalogue: Catalogue, m: Ledger, n: Ledger,
                                           id: DonationId)
    requires Settled(l, latest, catalogue, m) && Settled(l, latest, catalogue, n) && id in l.donations
    ensures m.donations[id] == n.donations[id] && m.items[id] == n.items[id]
  {
    hide SortedItems, Co2;
    assert SettledRow(l, latest, catalogue, m, id) && SettledRow(l, latest, catalogue, n, id);
  }

  lemma SettledIsUnique(l: Ledger, latest: map<DonationId, Disposition>, catalogue: Catalogue, m: Ledger, n: Ledger)
    requires Settled(l, latest, catalogue, m) && Settled(l, latest, catalogue, n) && Balanced(m) && Balanced(n)
    ensures m == n
  {
    hide UserOk, DonationOk, Settled;
    SettledFixesRows(l, latest, catalogue, m, n);
    forall u | u in m.rewards ensures m.rewards[u] == n.rewards[u] {
      SameDonationsSameCo2(m, n, u);
    }
    assert m.rewards == n.rewards;
  }

  /** Two call sequences with the same latest disposition per donation leave the same ledger, totals and
    * all, however many corrections each of them made on the way and in whatever order. */
  lemma {:induction false} LatestDispositionDecides(l: Ledger, calls: seq<Call>, other: seq<Call>, catalogue: Catalogue)
    requires Balanced(l) && SavingsOk(l) && RatesOk(catalogue)
    requires Latest(calls, l.donations.Keys) == Latest(other, l.donations.Keys)
    ensures Replay(l, calls, catalogue) == Replay(l, other, catalogue)
    ensures Balanced(Replay(l, calls, catalogue))
  {
    ReplaySettles(l, calls, catalogue);
    ReplaySettles(l, other, catalogue);
    SettledIsUnique(l, Latest(calls, l.donations.Keys), catalogue, Replay(l, calls, catalogue), Replay(l, other, catalogue));
  }

  /** Recording the same disposition again has delta 0 and changes nothing. */
  lemma RepeatChangesNothing(l: Ledger, c: Call, catalogue: Catalogue)
    requires Balanced(l) && SavingsOk(l) && RatesOk(catalogue) && c.id in l.donations
    ensures var m := Apply(l, c, catalogue);
      && Apply(m, c, catalogue) == m
      && Co2(SortedItems(m.items[c.id], c.disposition, catalogue)) - m.donations[c.id].co2 == 0
  {
    var once, twice := [c], [c, c];
    assert once[..0] == [] && twice[..1] == once && twice[..0] == [];
    assert Latest(once, l.donations.Keys) == Latest(twice, l.donations.Keys);
    LatestDispositionDecides(l, once, twice, catalogue);
    assert Replay(l, once, catalogue) == Apply(Replay(l, once[..0], catalogue), c, catalogue);
    assert Replay(l, twice, catalogue) == Apply(Replay(l, twice[..1], catalogue), c, catalogue);
    SortedAgain(l.items[c.id], c.disposition, c.disposition, catalogue);
  }

  // ----- a donation that is sorted as it was pledged, or thrown away -----

  /** The ledger after an accepted donation. */
  ghost function Donated(l: Ledger, id: DonationId, r: Request, g: Registry): Ledger
    requires Accepts(r, g)
  {
    var scored := ScoredItems(r.items, r.category.value, g.materials);
    Create(l, id, NewDonation(r.user, r.category.value, InitialStatus(r), scored), scored)
  }

  lemma {:induction false} PledgeIsSorting(r: Request, g: Registry)
    requires Accepts(r, g)
    ensures var scored := ScoredItems(r.items, r.category.value, g.materials);
      SortedItems(scored, if r.category.value == Charity then ToReuse else ToRecycle, g.materials) == scored
  {
    var scored := ScoredItems(r.items, r.category.value, g.materials);
    var sorted := SortedItems(scored, if r.category.value == Charity then ToReuse else ToRecycle, g.materials);
    forall k | 0 <= k < |scored| ensures sorted[k] == scored[k] {
      var m := g.materials[r.items[k].material.value];
      assert scored[k].material == r.items[k].material.value;
    }
  }

  lemma {:induction false} WasteIsNothing(items: seq<Item>, catalogue: Catalogue)
    ensures Co2(SortedItems(items, ToWaste, catalogue)) == 0
    decreases |items|
  {
    if items != [] {
      var n := |items| - 1;
      WasteIsNothing(items[..n], catalogue);
      var sorted := SortedItems(items, ToWaste, catalogue);
      assert sorted[..n] == SortedItems(items[..n], ToWaste, catalogue);
      assert sorted[n] == Sorted(items[n], ToWaste, catalogue);
    }
  }

  /** Recording reuse for a charity donation, or recycling for one to be recycled, only completes it: no row
    * of items and no total changes. */
  lemma {:induction false} SortedAsPledged(l: Ledger, id: DonationId, r: Request, g: Registry)
    requires Balanced(l) && SavingsOk(l) && RatesOk(g.materials) && id !in l.donations && Accepts(r, g)
    ensures var m := Donated(l, id, r, g);
      var n := Apply(m, Call(id, if r.category.value == Charity then ToReuse else ToRecycle), g.materials);
      && id in m.donations && id in n.donations && n.donations[id].co2 == m.donations[id].co2
      && n.items == m.items && n.rewards == m.rewards && n.earned == m.earned
  {
    var m := Donated(l, id, r, g);
    PledgeIsSorting(r, g);
    AcceptedDonationKeepsBalance(l, id, r, g);
    ScoredItemsOk(r, g);
    assert SavingsOk(m);
    NoTotalIsNegative(m, r.user);
    assert DonationOk(m.donations[id], m.items[id]);
    hide Accepts, ScoredItems, SortedItems, InitialStatus, Balanced, SavingsOk, Credited, NewDonation;
    SameSortingChangesNothing(m, Call(id, if r.category.value == Charity then ToReuse else ToRecycle), g.materials);
  }

  lemma {:induction false} SameSortingChangesNothing(m: Ledger, c: Call, catalogue: Catalogue)
    requires c.id in m.donations && c.id in m.items && m.donations[c.id].user in m.rewards
    requires SortedItems(m.items[c.id], c.disposition, catalogue) == m.items[c.id] && m.donations[c.id].co2 == Co2(m.items[c.id])
    requires m.rewards[m.donations[c.id].user].co2 >= 0
    ensures var n := Apply(m, c, catalogue);
      && n.items == m.items && n.rewards == m.rewards && n.earned == m.earned
      && c.id in n.donations && n.donations[c.id].co2 == m.donations[c.id].co2
  {
    hide SortedItems, Co2;
  }

  lemma {:induction false} NoTotalIsNegative(m: Ledger, user: UserId)
    requires Balanced(m) && SavingsOk(m)
    ensures RowOf(m, user).co2 >= 0
  {
    assert UserOk(m, user);
    forall k: DonationId | k in m.donations.Keys ensures 0 <= Share(m, user, Co2Of, k) {
      assert DonationOk(m.donations[k], m.items[k]);
      SeqSumNonNegative(m.items[k], (i: Item) => i.co2);
    }
    SumSubset<DonationId>({}, m.donations.Keys, (k: DonationId) => Share(m, user, Co2Of, k));
  }

  /** Recording waste takes back exactly what the donation was credited with. */
  lemma {:induction false} WasteTakesAllBack(l: Ledger, id: DonationId, r: Request, g: Registry)
    requires Balanced(l) && SavingsOk(l) && RatesOk(g.materials) && id !in l.donations && Accepts(r, g)
    ensures var m := Donated(l, id, r, g);
      var n := Apply(m, Call(id, ToWaste), g.materials);
      && id in m.donations && id in n.donations && n.donations[id].co2 == 0
      && RowOf(n, r.user) == RowOf(m, r.user).(co2 := RowOf(m, r.user).co2 - m.donations[id].co2)
      && RowOf(n, r.user).co2 == RowOf(l, r.user).co2
  {
    var m := Donated(l, id, r, g);
    AcceptedDonationKeepsBalance(l, id, r, g);
    ScoredItemsOk(r, g);
    CreditedCo2(l, id, r, g);
    assert SavingsOk(m);
    hide Donated, Accepts, Balanced, SavingsOk, RatesOk;
    WasteApplied(m, Call(id, ToWaste), g.materials);
  }

  lemma {:induction false} CreditedCo2(l: Ledger, id: DonationId, r: Request, g: Registry)
    requires Accepts(r, g)
    ensures var m := Donated(l, id, r, g);
      && id in m.donations && id in m.items && m.donations[id].user == r.user && r.user in m.rewards
      && RowOf(m, r.user).co2 == RowOf(l, r.user).co2 + m.donations[id].co2
  {
    hide Accepts, ScoredItems, InitialStatus;
  }

  lemma {:induction false} WasteApplied(m: Ledger, c: Call, catalogue: Catalogue)
    requires Balanced(m) && SavingsOk(m) && RatesOk(catalogue) && c.disposition == ToWaste
    requires c.id in m.donations && c.id in m.items
    ensures var n, user := Apply(m, c, catalogue), m.donations[c.id].user;
      && c.id in n.donations && n.donations[c.id].co2 == 0
      && RowOf(n, user) == RowOf(m, user).(co2 := RowOf(m, user).co2 - m.donations[c.id].co2)
  {
    WasteIsNothing(m.items[c.id], catalogue);
    DispositionKeepsBalance(m, c.id, ToWaste, catalogue);
    hide SortedItems, Co2, Balanced, SavingsOk, RatesOk;
  }
}
