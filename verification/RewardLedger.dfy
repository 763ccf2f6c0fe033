/** `B2CService.createDonation` and `recordDonationDisposition`: the donation tables and the running
  * totals of `user_rewards` that must agree with them. */
module RewardLedger {
  import opened Options
  import opened Sums
  import opened DonationMath

  type UserId = nat
  type DonationId = nat

  datatype Delivery = DropOff | Shipping
  datatype DonationStatus = Pending | InTransit | Received | Completed

  /** A row of `donations`. */
  datatype Donation = Donation(user: UserId, category: Category, status: DonationStatus, weight: int,
                               actualWeight: Option<int>, basePoints: int, bonusPoints: int, totalPoints: int,
                               co2: int, disposition: Option<Disposition>)

  /** A row of `user_rewards`. */
  datatype Rewards = Rewards(points: int, donations: int, items: int, weight: int, co2: int, level: Level)

  /** A row of `reward_transactions`. */
  datatype Earned = Earned(user: UserId, donation: DonationId, points: int)

  datatype Ledger = Ledger(donations: map<DonationId, Donation>, items: map<DonationId, seq<Item>>,
                           rewards: map<UserId, Rewards>, earned: seq<Earned>)

  /** An item of the request: "" and None stand for what is missing, blank or not a number. */
  datatype NewItem = NewItem(name: string, material: Option<MaterialId>, weightKg: Option<real>)

  type PointId = nat

  /** A row of `collection_points`; `located`: its latitude and longitude are numbers. */
  datatype CollectionPoint = CollectionPoint(active: bool, located: bool)

  /** `near`: the check-in is within the allowed distance of the collection point. */
  datatype Checkin = NoCheckin | Unreadable | Checkin(near: bool)

  /** None stands for a value that is missing or not one of the allowed ones. */
  datatype Request = Request(user: UserId, hasImage: bool, category: Option<Category>, delivery: Option<Delivery>,
                             items: seq<NewItem>, point: Option<PointId>, gps: Checkin, tracked: bool)
  {
    predicate DropsOff() { delivery == Some(DropOff) }
  }

  /** The tables that a request is checked against. */
  datatype Registry = Registry(materials: Catalogue, points: map<PointId, CollectionPoint>)

  datatype Error =
    | ImageRequired | InvalidCategory | InvalidDelivery | ItemsRequired | InvalidItem(index: nat) | PointRequired
    | InvalidCheckin | MaterialNotFound | PointNotFound | PointUnlocated | DonationNotFound

  datatype Outcome<T> = Ok(value: T) | Err(error: Error)

  // ----- createDonation -----

  function Usable(item: NewItem): bool {
    item.name != "" && item.material.Some? && item.weightKg.Some? && item.weightKg.value > 0.0
  }

  function InitialStatus(r: Request): DonationStatus {
    if r.DropsOff() then (if r.gps.Checkin? && r.gps.near then Received else Pending)
    else if r.tracked then InTransit
    else Pending
  }

  function ScoredItem(item: NewItem, category: Category, catalogue: Catalogue): Item
    requires Usable(item) && item.material.value in catalogue
  {
    var m := catalogue[item.material.value];
    var weight := ToUnits(item.weightKg.value);
    Item(item.material.value, weight, ItemPoints(m, weight), DonationCo2(category, m.co2PerKg, weight))
  }

  function ScoredItems(items: seq<NewItem>, category: Category, catalogue: Catalogue): (scored: seq<Item>)
    requires forall i :: 0 <= i < |items| ==> Usable(items[i]) && items[i].material.value in catalogue
    ensures |scored| == |items|
  {
    seq(|items|, i requires 0 <= i < |items| => ScoredItem(items[i], category, catalogue))
  }

  /** What is wrong with a request, in whatever order it is found out. */
  ghost predicate Objection(r: Request, g: Registry, e: Error) {
    match e
    case ImageRequired => !r.hasImage
    case InvalidCategory => r.category.None?
    case InvalidDelivery => r.delivery.None?
    case ItemsRequired => r.items == []
    case InvalidItem(k) => k < |r.items| && !Usable(r.items[k])
    case PointRequired => r.DropsOff() && r.point.None?
    case InvalidCheckin => r.DropsOff() && r.gps.Unreadable?
    case MaterialNotFound => exists i :: 0 <= i < |r.items| && r.items[i].material.Some? && r.items[i].material.value !in g.materials
    case PointNotFound => r.DropsOff() && r.point.Some? && !(r.point.value in g.points && g.points[r.point.value].active)
    case PointUnlocated => r.DropsOff() && r.point.Some? && r.point.value in g.points && !g.points[r.point.value].located
    case DonationNotFound => false
  }

  /** The order in which the checks are made. */
  function Rank(e: Error): nat {
    match e
    case ImageRequired => 0
    case InvalidCategory => 1
    case InvalidDelivery => 2
    case ItemsRequired => 3
    case InvalidItem(_) => 4
    case PointRequired => 5
    case InvalidCheckin => 6
    case MaterialNotFound => 7
    case PointNotFound => 8
    case PointUnlocated => 9
    case DonationNotFound => 10
  }

  predicate Precedes(e: Error, f: Error) {
    Rank(e) < Rank(f) || (e.InvalidItem? && f.InvalidItem? && e.index < f.index)
  }

  /** The first objection. */
  ghost predicate Refuses(r: Request, g: Registry, e: Error) {
    Objection(r, g, e) && forall f :: Objection(r, g, f) ==> !Precedes(f, e)
  }

  ghost predicate Accepts(r: Request, g: Registry) {
    && r.hasImage && r.category.Some? && r.delivery.Some?
    && r.items != [] && (forall i :: 0 <= i < |r.items| ==> Usable(r.items[i]) && r.items[i].material.value in g.materials)
    && (r.DropsOff() ==>
          && r.point.Some? && !r.gps.Unreadable?
          && r.point.value in g.points && g.points[r.point.value].active && g.points[r.point.value].located)
  }

  /** Accepted is what nothing can be said against. */
  lemma AcceptsIff(r: Request, g: Registry)
    ensures Accepts(r, g) <==> forall e :: !Objection(r, g, e)
  {
    if forall e :: !Objection(r, g, e) {
      forall i | 0 <= i < |r.items| ensures Usable(r.items[i]) && r.items[i].material.value in g.materials {
        assert !Objection(r, g, InvalidItem(i)) && !Objection(r, g, MaterialNotFound);
      }
      assert !Objection(r, g, ImageRequired) && !Objection(r, g, InvalidCategory) && !Objection(r, g, InvalidDelivery)
        && !Objection(r, g, ItemsRequired) && !Objection(r, g, PointRequired) && !Objection(r, g, InvalidCheckin)
        && !Objection(r, g, PointNotFound) && !Objection(r, g, PointUnlocated);
    }
  }

  function NewDonation(user: UserId, category: Category, status: DonationStatus, items: seq<Item>): Donation {
    var base := Points(items);
    Donation(user, category, status, Weight(items), if status == Received then Some(Weight(items)) else None,
             base, Bonus(category, base), base + Bonus(category, base), Co2(items), None)
  }

  /** INSERT INTO user_rewards ... ON CONFLICT (user_id) DO UPDATE. */
  function Credit(before: Option<Rewards>, total: int, count: int, weight: int, co2: int): Rewards {
    match before
    case None => Rewards(total, 1, count, weight, co2, LevelFor(total))
    case Some(r) =>
      var points := r.points + total;
      Rewards(points, r.donations + 1, r.items + count, r.weight + weight, r.co2 + co2,
              if points >= 2000 then Champion else if points >= 1000 then Advocate
              else if points >= 400 then Explorer else Beginner)
  }

  function Credited(l: Ledger, d: Donation, items: seq<Item>): Rewards {
    Credit(Find(l.rewards, d.user), d.totalPoints, |items|, d.weight, d.co2)
  }

  function Find<K, V>(m: map<K, V>, k: K): Option<V> {
    if k in m then Some(m[k]) else None
  }

  function Create(l: Ledger, id: DonationId, d: Donation, items: seq<Item>): Ledger {
    Ledger(l.donations[id := d], l.items[id := items],
           l.rewards[d.user := Credited(l, d, items)],
           l.earned + [Earned(d.user, id, d.totalPoints)])
  }

  // ----- recordDonationDisposition -----

  /** LEFT JOIN with COALESCE: an item whose material is gone counts with factor zero. */
  function Rate(catalogue: Catalogue, material: MaterialId): int {
    if material in catalogue then catalogue[material].co2PerKg else 0
  }

  function Sorted(item: Item, disposition: Disposition, catalogue: Catalogue): Item {
    item.(co2 := DispositionCo2(disposition, Rate(catalogue, item.material), item.weight))
  }

  function SortedItems(items: seq<Item>, disposition: Disposition, catalogue: Catalogue): (sorted: seq<Item>)
    ensures |sorted| == |items|
  {
    seq(|items|, i requires 0 <= i < |items| => Sorted(items[i], disposition, catalogue))
  }

  /** GREATEST(0, total_co2_saved + delta) */
  function Adjust(r: Rewards, delta: int): Rewards {
    r.(co2 := if r.co2 + delta < 0 then 0 else r.co2 + delta)
  }

  function Dispose(l: Ledger, id: DonationId, disposition: Disposition, newItems: seq<Item>): Ledger
    requires id in l.donations
  {
    var d := l.donations[id];
    var delta := Co2(newItems) - d.co2;
    l.(donations := l.donations[id := d.(disposition := Some(disposition), co2 := Co2(newItems), status := Completed)],
       items := l.items[id := newItems],
       rewards := if d.user in l.rewards then l.rewards[d.user := Adjust(l.rewards[d.user], delta)] else l.rewards)
  }

  lemma NextSorted(target: seq<Item>, rows: seq<Item>, i: nat)
    requires i < |rows| == |target|
    ensures (target[..i] + rows[i..])[i := target[i]] == target[..i + 1] + rows[i + 1..]
    ensures Co2(target[..i + 1]) == Co2(target[..i]) + target[i].co2
  {
    assert target[..i + 1] == target[..i] + [target[i]];
    SeqSumLast(target[..i], target[i], (x: Item) => x.co2);
  }

  // ----- what the item rows mean -----

  /** A factor for which the material is known, or zero. */
  ghost predicate SortedRow(before: Item, after: Item, disposition: Disposition, catalogue: Catalogue) {
    && after == before.(co2 := after.co2)
    && Saves(disposition, if before.material in catalogue then catalogue[before.material].co2PerKg else 0, before.weight, after.co2)
  }

  ghost predicate SortedRows(before: seq<Item>, after: seq<Item>, disposition: Disposition, catalogue: Catalogue) {
    |after| == |before| && forall k :: 0 <= k < |before| ==> SortedRow(before[k], after[k], disposition, catalogue)
  }

  lemma {:induction false} SortedItemsMean(items: seq<Item>, disposition: Disposition, catalogue: Catalogue)
    ensures SortedRows(items, SortedItems(items, disposition, catalogue), disposition, catalogue)
  {
    forall k | 0 <= k < |items|
      ensures SortedRow(items[k], SortedItems(items, disposition, catalogue)[k], disposition, catalogue)
    {
      SavingsMean(Recycle, disposition, Rate(catalogue, items[k].material), items[k].weight);
    }
  }

  /** The row written for an item of an accepted request: its weight to the nearest unit, the points to the
    * nearest whole one, and the saving that its category promises. */
  ghost predicate PledgedRow(asked: NewItem, row: Item, category: Category, catalogue: Catalogue) {
    && asked.name != "" && asked.weightKg.Some? && asked.weightKg.value > 0.0
    && asked.material == Some(row.material) && row.material in catalogue
    && var m := catalogue[row.material];
    && -0.5 < row.weight as real - 10000.0 * asked.weightKg.value <= 0.5
    && Near(1000000 * row.points, m.pointsPerKg * row.weight, 500000)
    && Saves(Pledge(category), m.co2PerKg, row.weight, row.co2)
  }

  ghost predicate PledgedRows(asked: seq<NewItem>, rows: seq<Item>, category: Category, catalogue: Catalogue) {
    |rows| == |asked| && forall k :: 0 <= k < |asked| ==> PledgedRow(asked[k], rows[k], category, catalogue)
  }

  lemma {:induction false} ScoredItemMeans(item: NewItem, category: Category, catalogue: Catalogue)
    requires Usable(item) && item.material.value in catalogue
    ensures PledgedRow(item, ScoredItem(item, category, catalogue), category, catalogue)
  {
    var m, weight := catalogue[item.material.value], ToUnits(item.weightKg.value);
    ToUnitsIsNearest(item.weightKg.value);
    RoundIsNearest(m.pointsPerKg * weight, 1000000);
    SavingsMean(category, ToWaste, m.co2PerKg, weight);
    hide Round, ToUnits, Saves, DonationCo2;
  }

  lemma {:induction false} ScoredItemsMean(items: seq<NewItem>, category: Category, catalogue: Catalogue)
    requires forall i :: 0 <= i < |items| ==> Usable(items[i]) && items[i].material.value in catalogue
    ensures PledgedRows(items, ScoredItems(items, category, catalogue), category, catalogue)
  {
    hide Usable, PledgedRow, ScoredItem;
    forall k | 0 <= k < |items| ensures PledgedRow(items[k], ScoredItems(items, category, catalogue)[k], category, catalogue) {
      ScoredItemMeans(items[k], category, catalogue);
    }
  }

  lemma {:induction false} AcceptedRows(r: Request, g: Registry)
    requires Accepts(r, g)
    ensures PledgedRows(r.items, ScoredItems(r.items, r.category.value, g.materials), r.category.value, g.materials)
  {
    hide Usable, PledgedRows;
    ScoredItemsMean(r.items, r.category.value, g.materials);
  }

  // ----- the service object -----

  class B2CService {
    var donations: map<DonationId, Donation>
    var items: map<DonationId, seq<Item>>
    var rewards: map<UserId, Rewards>
    var earned: seq<Earned>

    constructor ()
      ensures Db() == Ledger(map[], map[], map[], [])
    {
      donations, items, rewards, earned := map[], map[], map[], [];
    }

    ghost function Db(): Ledger
      reads this
    {
      Ledger(donations, items, rewards, earned)
    }

    /** The checks made before anything is written. */
    method Check(r: Request, g: Registry) returns (problem: Option<Error>)
      ensures problem.Some? ==> Refuses(r, g, problem.value)
      ensures problem.None? <==> Accepts(r, g)
    {
      problem := CheckPayload(r, g);
      if problem.None? {
        problem := CheckTables(r, g);
      }
    }

    /** The checks of the payload itself. */
    method CheckPayload(r: Request, g: Registry) returns (problem: Option<Error>)
      ensures problem.Some? ==> Refuses(r, g, problem.value) && !Accepts(r, g)
      ensures problem.None? ==> forall f :: Rank(f) < Rank(MaterialNotFound) ==> !Objection(r, g, f)
    {
      if !r.hasImage {
        return Some(ImageRequired);
      }
      if r.category.None? {
        return Some(InvalidCategory);
      }
      if r.delivery.None? {
        return Some(InvalidDelivery);
      }
      if r.items == [] {
        return Some(ItemsRequired);
      }
      for i := 0 to |r.items|
        invariant forall k :: 0 <= k < i ==> Usable(r.items[k])
      {
        if !Usable(r.items[i]) {
          return Some(InvalidItem(i));
        }
      }
      if r.delivery == Some(DropOff) {
        if r.point.None? {
          return Some(PointRequired);
        }
        if r.gps.Unreadable? {
          return Some(InvalidCheckin);
        }
      }
      problem := None;
    }

    /** The checks against the tables, inside the transaction. */
    method CheckTables(r: Request, g: Registry) returns (problem: Option<Error>)
      requires forall f :: Rank(f) < Rank(MaterialNotFound) ==> !Objection(r, g, f)
      ensures problem.Some? ==> Refuses(r, g, problem.value)
      ensures problem.None? <==> Accepts(r, g)
    {
      AcceptsIff(r, g);
      forall k | 0 <= k < |r.items| ensures Usable(r.items[k]) {
        assert !Objection(r, g, InvalidItem(k));
      }
      for i := 0 to |r.items|
        invariant forall k :: 0 <= k < i ==> Usable(r.items[k]) && r.items[k].material.value in g.materials
      {
        if r.items[i].material.value !in g.materials {
          assert Objection(r, g, MaterialNotFound);
          return Some(MaterialNotFound);
        }
      }
      if r.delivery == Some(DropOff) {
        assert !Objection(r, g, PointRequired);
        if r.point.value !in g.points || !g.points[r.point.value].active {
          assert Objection(r, g, PointNotFound);
          return Some(PointNotFound);
        }
        if !g.points[r.point.value].located {
          assert Objection(r, g, PointUnlocated);
          return Some(PointUnlocated);
        }
      }
      problem := None;
    }

    method Score(r: Request, g: Registry) returns (computed: seq<Item>, weight: int, base: int, co2: int)
      requires Accepts(r, g)
      ensures computed == ScoredItems(r.items, r.category.value, g.materials)
      ensures weight == Weight(computed) && base == Points(computed) && co2 == Co2(computed)
    {
      computed, weight, base, co2 := [], 0, 0, 0;
      for i := 0 to |r.items|
        invariant computed == ScoredItems(r.items, r.category.value, g.materials)[..i]
        invariant weight == Weight(computed) && base == Points(computed) && co2 == Co2(computed)
      {
        var item := ScoredItem(r.items[i], r.category.value, g.materials);
        assert (computed + [item])[..|computed|] == computed;
        computed := computed + [item];
        weight, base, co2 := weight + item.weight, base + item.points, co2 + item.co2;
      }
    }

    method CreditUser(user: UserId, total: int, count: int, weight: int, co2: int)
      modifies this`rewards
      ensures rewards == old(rewards)[user := Credit(Find(old(rewards), user), total, count, weight, co2)]
    {
      if user in rewards {
        var was := rewards[user];
        var points := was.points + total;
        var level := if points >= 2000 then Champion else if points >= 1000 then Advocate
                     else if points >= 400 then Explorer else Beginner;
        rewards := rewards[user := Rewards(points, was.donations + 1, was.items + count, was.weight + weight,
                                           was.co2 + co2, level)];
      } else {
        rewards := rewards[user := Rewards(total, 1, count, weight, co2, LevelFor(total))];
      }
    }

    method CreateDonation(r: Request, g: Registry, freshId: DonationId) returns (result: Outcome<DonationId>)
      requires freshId !in donations
      modifies this
      ensures result.Err? ==> Db() == old(Db()) && Refuses(r, g, result.error)
      ensures result.Ok? <==> Accepts(r, g)
      ensures result.Ok? ==>
        && result.value == freshId
        && var scored := ScoredItems(r.items, r.category.value, g.materials);
           Db() == Create(old(Db()), freshId, NewDonation(r.user, r.category.value, InitialStatus(r), scored), scored)
      ensures result.Ok? ==> freshId in items && PledgedRows(r.items, items[freshId], r.category.value, g.materials)
    {
      hide PledgedRows, Refuses, Objection, ScoredItem, ScoredItems, Weight, Points, Co2, Round, Usable, LevelFor;
      var problem := Check(r, g);
      if problem.Some? {
        return Err(problem.value);
      }
      var category := r.category.value;
      var status := Pending;
      if r.delivery == Some(DropOff) {
        if r.gps.Checkin? && r.gps.near { status := Received; }
      } else if r.tracked {
        status := InTransit;
      }
      var computed, weight, base, co2 := Score(r, g);
      AcceptedRows(r, g);
      var bonus := if category == Charity then Round(base, 2) else 0;
      var total := base + bonus;
      var actualWeight := if status == Received then Some(weight) else None;
      donations := donations[freshId := Donation(r.user, category, status, weight, actualWeight, base, bonus, total, co2, None)];
      items := items[freshId := computed];
      CreditUser(r.user, total, |computed|, weight, co2);
      earned := earned + [Earned(r.user, freshId, total)];
      result := Ok(freshId);
    }

    /** The loop over the rows of one donation: each is rewritten, the new total is accumulated. */
    method SortItems(id: DonationId, disposition: Disposition, catalogue: Catalogue) returns (newTotalCo2: int)
      requires id in items
      modifies this`items
      ensures items == old(items)[id := SortedItems(old(items)[id], disposition, catalogue)]
      ensures newTotalCo2 == Co2(items[id])
      ensures SortedRows(old(items)[id], items[id], disposition, catalogue)
    {
      var rows := items[id];
      ghost var target := SortedItems(rows, disposition, catalogue);
      newTotalCo2 := 0;
      for i := 0 to |rows|
        invariant id in items && items == old(items)[id := items[id]]
        invariant items[id] == target[..i] + rows[i..]
        invariant newTotalCo2 == Co2(target[..i])
      {
        var itemCo2 := DispositionCo2(disposition, Rate(catalogue, rows[i].material), rows[i].weight);
        assert target[i] == rows[i].(co2 := itemCo2);
        NextSorted(target, rows, i);
        newTotalCo2 := newTotalCo2 + itemCo2;
        items := items[id := items[id][i := rows[i].(co2 := itemCo2)]];
      }
      assert target[..|rows|] == target && items[id] == target;
      SortedItemsMean(rows, disposition, catalogue);
    }

    /** Returns the change of the donation's CO2 (`co2_delta`). */
    method RecordDonationDisposition(id: DonationId, disposition: Disposition, catalogue: Catalogue)
      returns (result: Outcome<int>)
      requires donations.Keys == items.Keys
      modifies this
      ensures result.Err? <==> id !in old(donations)
      ensures result.Err? ==> result.error == DonationNotFound && Db() == old(Db())
      ensures result.Ok? ==>
        && var sorted := SortedItems(old(items)[id], disposition, catalogue);
        && Db() == Dispose(old(Db()), id, disposition, sorted)
        && result.value == Co2(sorted) - old(donations)[id].co2
      ensures result.Ok? ==>
        && id in old(items) && id in items && SortedRows(old(items)[id], items[id], disposition, catalogue)
        && id in donations && donations[id].co2 == Co2(items[id]) == old(donations)[id].co2 + result.value
    {
      if id !in donations {
        return Err(DonationNotFound);
      }
      var d := donations[id];
      var newTotalCo2 := SortItems(id, disposition, catalogue);
      var delta := newTotalCo2 - d.co2;
      donations := donations[id := d.(disposition := Some(disposition), co2 := newTotalCo2, status := Completed)];
      if d.user in rewards {
        var sum := rewards[d.user].co2 + delta;
        rewards := rewards[d.user := rewards[d.user].(co2 := if sum < 0 then 0 else sum)];
      }
      result := Ok(delta);
    }
  }
}
