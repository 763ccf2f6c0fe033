/** Package totals of a shipment. A total is None (NaN) as soon as one term is; weights and volumes are exact. */
module CarrierTotals {
  import opened Options
  import opened CarrierText
  import Text
  import opened Sums

  type Figure = Option<real>

  function Plus(a: Figure, b: Figure): Figure {
    if a.Some? && b.Some? then Some(a.value + b.value) else None
  }

  function Product(a: real, b: real): real {
    a * b
  }

  function Times(a: Figure, b: Figure): Figure {
    if a.Some? && b.Some? then Some(Product(a.value, b.value)) else None
  }

  /** `packages.reduce((sum, pkg) => sum + f(pkg), 0)`. */
  function Total(packages: seq<Value>, f: Value -> Figure): Figure {
    if packages == [] then Some(0.0)
    else Plus(Total(packages[..|packages| - 1], f), f(packages[|packages| - 1]))
  }

  /** `Number(pkg.key || otherwise)`. */
  function Read(h: Host, pkg: Value, key: string, otherwise: real): Figure {
    NumberOf(h, Or(Get(pkg, key), Num(otherwise)))
  }

  datatype Basis = Weight | Dimension

  function BasisKey(basis: Basis): string {
    if basis.Weight? then "weightMeasurementBasis" else "dimensionMeasurementBasis"
  }

  predicate PerPackage(pkg: Value, basis: Basis) {
    Get(pkg, BasisKey(basis)) != Str("group_total")
  }

  function PackageFactor(h: Host, pkg: Value, basis: Basis): Figure {
    if PerPackage(pkg, basis) then Read(h, pkg, "quantity", 1.0) else Some(1.0)
  }

  function Pieces(h: Host, pkg: Value): Figure {
    Read(h, pkg, "quantity", 0.0)
  }

  function PackageQuantity(h: Host): Value -> Figure {
    pkg => Pieces(h, pkg)
  }

  function Gross(h: Host, pkg: Value): Figure {
    Times(Read(h, pkg, "grossWeightKg", 0.0), PackageFactor(h, pkg, Weight))
  }

  function PackageGross(h: Host): Value -> Figure {
    pkg => Gross(h, pkg)
  }

  function Volume(h: Host, pkg: Value): Figure {
    Times(Times(Read(h, pkg, "lengthCm", 0.0), Read(h, pkg, "widthCm", 0.0)), Read(h, pkg, "heightCm", 0.0))
  }

  function Cbm(volume: Figure): Figure {
    if volume.Some? then Some(volume.value / 1000000.0) else None
  }

  function Measurement(h: Host, pkg: Value): Figure {
    Cbm(Times(Volume(h, pkg), PackageFactor(h, pkg, Dimension)))
  }

  function PackageCbm(h: Host): Value -> Figure {
    pkg => Measurement(h, pkg)
  }

  predicate Pallet(h: Host, pkg: Value) {
    Comparable(h, Get(pkg, "packageType")) == "PALLET"
  }

  /** The packages that count. */
  function Loose(h: Host, packages: seq<Value>): seq<Value> {
    if packages == [] then []
    else Loose(h, packages[..|packages| - 1]) + if Pallet(h, packages[|packages| - 1]) then [] else [packages[|packages| - 1]]
  }

  datatype Totals = Totals(count: Figure, gross: Figure, cbm: Figure)

  function TotalsOf(h: Host, packages: seq<Value>): Totals {
    var counted := Loose(h, packages);
    Totals(Total(counted, PackageQuantity(h)), Total(counted, PackageGross(h)), Total(counted, PackageCbm(h)))
  }

  // ----- how totals combine -----

  lemma {:induction false} TotalConcat(s: seq<Value>, t: seq<Value>, f: Value -> Figure)
    ensures Total(s + t, f) == Plus(Total(s, f), Total(t, f))
    decreases |t|
  {
    if t == [] {
      assert s + t == s;
    } else {
      var n := |t| - 1;
      TotalConcat(s, t[..n], f);
      assert (s + t)[..|s + t| - 1] == s + t[..n];
    }
  }

  lemma TotalOne(x: Value, f: Value -> Figure)
    ensures Total([x], f) == f(x)
  {
    assert [x][..0] == [];
  }

  lemma LooseOne(h: Host, x: Value)
    ensures Loose(h, [x]) == if Pallet(h, x) then [] else [x]
  {
    assert [x][..0] == [];
  }

  lemma {:induction false} LooseConcat(h: Host, s: seq<Value>, t: seq<Value>)
    ensures Loose(h, s + t) == Loose(h, s) + Loose(h, t)
    decreases |t|
  {
    hide Pallet;
    if t == [] {
      assert s + t == s;
    } else {
      var n := |t| - 1;
      LooseConcat(h, s, t[..n]);
      assert (s + t)[..|s + t| - 1] == s + t[..n];
    }
  }

  lemma TotalMiddle(before: seq<Value>, x: seq<Value>, after: seq<Value>, f: Value -> Figure)
    ensures Total(before + x + after, f) == Plus(Total(x, f), Total(before + after, f))
  {
    hide Total;
    TotalConcat(before + x, after, f);
    TotalConcat(before, x, f);
    TotalConcat(before, after, f);
  }

  /** The first element of `s` taken out of a rearrangement of `s`. */
  lemma TakeFirst(s: seq<Value>, t: seq<Value>) returns (before: seq<Value>, after: seq<Value>)
    requires s != [] && multiset(s) == multiset(t)
    ensures t == before + [s[0]] + after && s == [] + [s[0]] + s[1..]
    ensures multiset(s[1..]) == multiset(before + after)
  {
    assert s[0] in multiset(t);
    var i :| 0 <= i < |t| && t[i] == s[0];
    before, after := t[..i], t[i + 1..];
    Around(t, i);
    Around(s, 0);
    assert s[..0] == [] && [] + s[1..] == s[1..];
  }

  lemma Around(s: seq<Value>, i: nat)
    requires i < |s|
    ensures s == s[..i] + [s[i]] + s[i + 1..]
    ensures multiset(s[..i] + s[i + 1..]) == multiset(s) - multiset{s[i]}
  {
    var before, after := s[..i], s[i + 1..];
    assert s == before + ([s[i]] + after);
    MultisetSplit(before, s[i], after);
  }

  /** A total does not depend on the order of its terms. */
  lemma {:induction false} TotalPermute(s: seq<Value>, t: seq<Value>, f: Value -> Figure)
    requires multiset(s) == multiset(t)
    ensures Total(s, f) == Total(t, f)
    decreases |s|
  {
    hide Total;
    assert |s| == |multiset(s)| == |multiset(t)| == |t|;
    if s != [] {
      var before, after := TakeFirst(s, t);
      TotalMiddle([], [s[0]], s[1..], f);
      TotalMiddle(before, [s[0]], after, f);
      assert [] + s[1..] == s[1..];
      TotalPermute(s[1..], before + after, f);
    }
  }

  lemma {:induction false} LoosePermute(h: Host, s: seq<Value>, t: seq<Value>)
    requires multiset(s) == multiset(t)
    ensures multiset(Loose(h, s)) == multiset(Loose(h, t))
    decreases |s|
  {
    hide Loose, Pallet;
    assert |s| == |multiset(s)| == |multiset(t)| == |t|;
    if s != [] {
      var before, after := TakeFirst(s, t);
      LooseMiddle(h, [], [s[0]], s[1..]);
      LooseMiddle(h, before, [s[0]], after);
      assert [] + s[1..] == s[1..];
      LoosePermute(h, s[1..], before + after);
    }
  }

  lemma LooseMiddle(h: Host, before: seq<Value>, x: seq<Value>, after: seq<Value>)
    ensures Loose(h, before + x + after) == Loose(h, before) + Loose(h, x) + Loose(h, after)
    ensures Loose(h, before + after) == Loose(h, before) + Loose(h, after)
    ensures multiset(Loose(h, before + x + after)) == multiset(Loose(h, x)) + multiset(Loose(h, before + after))
  {
    hide Loose, Pallet;
    LooseConcat(h, before + x, after);
    LooseConcat(h, before, x);
    LooseConcat(h, before, after);
  }

  // ----- what leaves the totals alone -----

  lemma {:induction false} PermutingKeepsTotals(h: Host, s: seq<Value>, t: seq<Value>)
    requires multiset(s) == multiset(t)
    ensures TotalsOf(h, s) == TotalsOf(h, t)
  {
    hide Loose, Total, PackageQuantity, PackageGross, PackageCbm;
    LoosePermute(h, s, t);
    TotalPermute(Loose(h, s), Loose(h, t), PackageQuantity(h));
    TotalPermute(Loose(h, s), Loose(h, t), PackageGross(h));
    TotalPermute(Loose(h, s), Loose(h, t), PackageCbm(h));
  }

  lemma {:induction false} PalletsDoNotCount(h: Host, before: seq<Value>, pallet: Value, after: seq<Value>)
    requires Pallet(h, pallet)
    ensures TotalsOf(h, before + [pallet] + after) == TotalsOf(h, before + after)
  {
    hide Total, PackageQuantity, PackageGross, PackageCbm;
    hide Loose, Pallet;
    LooseOne(h, pallet);
    LooseMiddle(h, before, [pallet], after);
    assert Loose(h, before) + [] == Loose(h, before);
  }

  function PlusTotals(a: Totals, b: Totals): Totals {
    Totals(Plus(a.count, b.count), Plus(a.gross, b.gross), Plus(a.cbm, b.cbm))
  }

  /** The totals of some lines and of the others add up, wherever the lines stand. */
  lemma {:induction false} TotalsAdd(h: Host, before: seq<Value>, x: seq<Value>, after: seq<Value>)
    ensures TotalsOf(h, before + x + after) == PlusTotals(TotalsOf(h, x), TotalsOf(h, before + after))
  {
    hide Total, Loose, Plus, PackageQuantity, PackageGross, PackageCbm;
    TotalAdds(h, before, x, after, PackageQuantity(h));
    TotalAdds(h, before, x, after, PackageGross(h));
    TotalAdds(h, before, x, after, PackageCbm(h));
  }

  lemma {:induction false} TotalAdds(h: Host, before: seq<Value>, x: seq<Value>, after: seq<Value>, f: Value -> Figure)
    ensures Total(Loose(h, before + x + after), f) == Plus(Total(Loose(h, x), f), Total(Loose(h, before + after), f))
  {
    hide Total, Loose;
    LooseMiddle(h, before, x, after);
    TotalMiddle(Loose(h, before), Loose(h, x), Loose(h, after), f);
  }

  function WithQuantity(pkg: Value, quantity: real): Value
    requires pkg.Obj?
  {
    Obj(pkg.fields["quantity" := Num(quantity)])
  }

  lemma WithQuantityKeeps(pkg: Value, q: real, key: string)
    requires pkg.Obj?
    ensures Get(WithQuantity(pkg, q), key) == if key == "quantity" then Num(q) else Get(pkg, key)
  {}

  lemma OtherKeys()
    ensures "quantity" !in ["grossWeightKg", "lengthCm", "widthCm", "heightCm", "packageType",
                            "weightMeasurementBasis", "dimensionMeasurementBasis"]
  {
    assert "quantity"[0] == 'q' && "lengthCm"[0] == 'l' && "heightCm"[0] == 'h';
  }

  /** A package with its quantity replaced keeps its volume, its weight, its bases and its kind. */
  lemma WithQuantityReads(h: Host, pkg: Value, q: real)
    requires pkg.Obj?
    ensures var p := WithQuantity(pkg, q);
      && Read(h, p, "grossWeightKg", 0.0) == Read(h, pkg, "grossWeightKg", 0.0) && Volume(h, p) == Volume(h, pkg)
      && (forall basis :: PerPackage(p, basis) == PerPackage(pkg, basis)) && Pallet(h, p) == Pallet(h, pkg)
      && forall otherwise :: Read(h, p, "quantity", otherwise) == Some(if q == 0.0 then otherwise else q)
  {
    hide WithQuantity, Get, Times, Comparable;
    OtherKeys();
    forall key { WithQuantityKeeps(pkg, q, key); }
  }

  /** Splitting a package that is measured per piece. */
  lemma {:induction false} SplittingKeepsTotals(h: Host, pkg: Value, q1: real, q2: real)
    requires pkg.Obj? && PerPackage(pkg, Weight) && PerPackage(pkg, Dimension) && q1 > 0.0 && q2 > 0.0
    ensures TotalsOf(h, [WithQuantity(pkg, q1 + q2)]) == TotalsOf(h, [WithQuantity(pkg, q1), WithQuantity(pkg, q2)])
  {
    hide Pallet, Total, Volume, PerPackage, Read, Times, Cbm, Plus, WithQuantity;
    NoFigure();
    var whole, first, second := WithQuantity(pkg, q1 + q2), WithQuantity(pkg, q1), WithQuantity(pkg, q2);
    WithQuantityReads(h, pkg, q1 + q2);
    WithQuantityReads(h, pkg, q1);
    WithQuantityReads(h, pkg, q2);
    SplitFigure(Read(h, pkg, "grossWeightKg", 0.0), q1, q2);
    SplitFigure(Volume(h, pkg), q1, q2);
    OnePackage(h, whole);
    OnePackage(h, first);
    OnePackage(h, second);
    TotalsAdd(h, [], [first], [second]);
    assert [] + [first] + [second] == [first, second] && [] + [second] == [second];
    hide Loose, TotalsOf;
  }

  lemma NoFigure()
    ensures Plus(Some(0.0), Some(0.0)) == Some(0.0)
  {}

  lemma SplitFigure(x: Figure, q1: real, q2: real)
    ensures Some(q1 + q2) == Plus(Some(q1), Some(q2))
    ensures Times(x, Some(q1 + q2)) == Plus(Times(x, Some(q1)), Times(x, Some(q2)))
    ensures Cbm(Times(x, Some(q1 + q2))) == Plus(Cbm(Times(x, Some(q1))), Cbm(Times(x, Some(q2))))
  {
    hide Product;
    if x.Some? { Distribute(x.value, q1, q2); }
  }

  lemma Distribute(x: real, a: real, b: real)
    ensures Product(x, a + b) == Product(x, a) + Product(x, b)
  {}

  // ----- a line of quantity zero -----

  /** Adding the term leaves the total as it is: it is nothing, or the total is NaN anyway. */
  predicate Neutral(term: Figure, total: Figure) {
    term == Some(0.0) || total.None?
  }

  lemma {:induction false} NeutralIff(term: Figure, total: Figure)
    ensures Plus(term, total) == total <==> Neutral(term, total)
  {}

  /** A further line leaves the three totals alone exactly when it is a pallet, or each of its terms is
    * nothing beside its total. */
  lemma {:induction false} LineIsNeutralIff(h: Host, before: seq<Value>, line: Value, after: seq<Value>)
    ensures var rest := TotalsOf(h, before + after);
      TotalsOf(h, before + [line] + after) == rest <==>
        Pallet(h, line)
        || (Neutral(PackageQuantity(h)(line), rest.count) && Neutral(PackageGross(h)(line), rest.gross)
            && Neutral(PackageCbm(h)(line), rest.cbm))
  {
    hide Total, Loose, Pallet, Neutral, Plus, PackageQuantity, PackageGross, PackageCbm;
    LooseOne(h, line);
    LooseMiddle(h, before, [line], after);
    var rest := TotalsOf(h, before + after);
    if Pallet(h, line) {
      PalletsDoNotCount(h, before, line, after);
    } else {
      AddedTerm(h, before, line, after, PackageQuantity(h));
      AddedTerm(h, before, line, after, PackageGross(h));
      AddedTerm(h, before, line, after, PackageCbm(h));
      NeutralIff(PackageQuantity(h)(line), rest.count);
      NeutralIff(PackageGross(h)(line), rest.gross);
      NeutralIff(PackageCbm(h)(line), rest.cbm);
    }
  }

  lemma {:induction false} AddedTerm(h: Host, before: seq<Value>, line: Value, after: seq<Value>, f: Value -> Figure)
    requires !Pallet(h, line)
    ensures Total(Loose(h, before + [line] + after), f) == Plus(f(line), Total(Loose(h, before + after), f))
  {
    hide Total, Loose, Pallet;
    LooseOne(h, line);
    LooseMiddle(h, before, [line], after);
    TotalMiddle(Loose(h, before), [line], Loose(h, after), f);
    TotalOne(line, f);
  }

  /** A line of quantity zero counts as no package, but weighs and measures as one, on either basis: it
    * leaves the totals alone exactly when it is a pallet or has no weight and no volume. */
  lemma {:induction false} ZeroQuantityIff(h: Host, before: seq<Value>, pkg: Value, after: seq<Value>)
    requires pkg.Obj?
    ensures var rest := TotalsOf(h, before + after);
      TotalsOf(h, before + [WithQuantity(pkg, 0.0)] + after) == rest <==>
        Pallet(h, pkg)
        || (Neutral(Read(h, pkg, "grossWeightKg", 0.0), rest.gross) && Neutral(Volume(h, pkg), rest.cbm))
  {
    hide Total, Loose, Pallet, TotalsOf, WithQuantity, PackageQuantity, PackageGross, PackageCbm, Read, Volume;
    LineIsNeutralIff(h, before, WithQuantity(pkg, 0.0), after);
    ZeroQuantityTerms(h, pkg);
  }

  lemma {:induction false} ZeroQuantityTerms(h: Host, pkg: Value)
    requires pkg.Obj?
    ensures var line := WithQuantity(pkg, 0.0);
      && PackageQuantity(h)(line) == Some(0.0) && Pallet(h, line) == Pallet(h, pkg)
      && PackageGross(h)(line) == Read(h, pkg, "grossWeightKg", 0.0)
      && PackageCbm(h)(line) == Cbm(Volume(h, pkg))
  {
    hide WithQuantity, Read, Volume, PerPackage, Pallet;
    WithQuantityReads(h, pkg, 0.0);
    TimesOne(Read(h, pkg, "grossWeightKg", 0.0));
    TimesOne(Volume(h, pkg));
  }

  lemma {:induction false} TimesOne(x: Figure)
    ensures Times(x, Some(1.0)) == x
  {}

  const FIVE_KILOS := Obj(map["grossWeightKg" := Num(5.0)])

  /** Five kilograms that no package has. */
  lemma {:induction false} ZeroQuantityExample(h: Host)
    ensures TotalsOf(h, [WithQuantity(FIVE_KILOS, 0.0)]) == Totals(Some(0.0), Some(5.0), Some(0.0))
    ensures TotalsOf(h, []) == Totals(Some(0.0), Some(0.0), Some(0.0))
  {
    hide Pallet, WithQuantity, Read, Volume, PackageQuantity, PackageGross, PackageCbm;
    var line := WithQuantity(FIVE_KILOS, 0.0);
    FiveKilos(h);
    ZeroQuantityTerms(h, FIVE_KILOS);
    LooseOne(h, line);
    TotalOne(line, PackageQuantity(h));
    TotalOne(line, PackageGross(h));
    TotalOne(line, PackageCbm(h));
  }

  lemma {:induction false} FiveKilos(h: Host)
    ensures Read(h, FIVE_KILOS, "grossWeightKg", 0.0) == Some(5.0)
    ensures Volume(h, FIVE_KILOS) == Some(0.0) && !Pallet(h, FIVE_KILOS)
  {
    assert "grossWeightKg"[0] == 'g' && "lengthCm"[0] == 'l' && "widthCm"[0] == 'w' && "heightCm"[0] == 'h' && "packageType"[0] == 'p';
    assert Comparable(h, Null) == "" by { Text.TrimKeepsTrimmed(""); }
    hide Comparable;
  }

  // ----- what a package contributes -----

  ghost predicate Holds(pkg: Value, key: string, x: real) {
    Get(pkg, key) == Num(x)
  }

  lemma {:induction false} HeldIsRead(h: Host, pkg: Value, key: string, x: real, otherwise: real)
    requires Holds(pkg, key, x)
    ensures Read(h, pkg, key, otherwise) == Some(if x == 0.0 then otherwise else x)
  {
    hide Get;
  }

  lemma {:induction false} OnePackage(h: Host, pkg: Value)
    ensures TotalsOf(h, [pkg]) ==
      if Pallet(h, pkg) then Totals(Some(0.0), Some(0.0), Some(0.0))
      else Totals(PackageQuantity(h)(pkg), PackageGross(h)(pkg), PackageCbm(h)(pkg))
  {
    hide Pallet, PackageQuantity, PackageGross, PackageCbm;
    LooseOne(h, pkg);
    TotalOne(pkg, PackageQuantity(h));
    TotalOne(pkg, PackageGross(h));
    TotalOne(pkg, PackageCbm(h));
  }

  /** In the fields: a quantity counts, and weighs what is given for each package, unless the package says that
    * this is the weight of the group. */
  lemma {:induction false} PackageWeighs(h: Host, pkg: Value, q: real, w: real)
    requires !Pallet(h, pkg) && q != 0.0 && Holds(pkg, "quantity", q) && Holds(pkg, "grossWeightKg", w)
    ensures TotalsOf(h, [pkg]).count == Some(q)
    ensures TotalsOf(h, [pkg]).gross == Some(Product(w, if Get(pkg, "weightMeasurementBasis") == Str("group_total") then 1.0 else q))
  {
    hide Pallet, Holds, Get, TotalsOf, Read, Product, PackageCbm;
    OnePackage(h, pkg);
    HeldIsRead(h, pkg, "quantity", q, 0.0);
    HeldIsRead(h, pkg, "quantity", q, 1.0);
    HeldIsRead(h, pkg, "grossWeightKg", w, 0.0);
  }

  /** And takes up length by width by height, in cubic metres, likewise. */
  lemma {:induction false} PackageMeasures(h: Host, pkg: Value, q: real, l: real, b: real, t: real)
    requires !Pallet(h, pkg) && q != 0.0 && Holds(pkg, "quantity", q)
    requires Holds(pkg, "lengthCm", l) && Holds(pkg, "widthCm", b) && Holds(pkg, "heightCm", t)
    ensures var factor := if Get(pkg, "dimensionMeasurementBasis") == Str("group_total") then 1.0 else q;
      TotalsOf(h, [pkg]).cbm == Some(Product(Product(Product(l, b), t), factor) / 1000000.0)
  {
    hide Pallet, Holds, Get, TotalsOf, Read, Product, PackageQuantity, PackageGross;
    OnePackage(h, pkg);
    HeldIsRead(h, pkg, "quantity", q, 1.0);
    HeldIsRead(h, pkg, "lengthCm", l, 0.0);
    HeldIsRead(h, pkg, "widthCm", b, 0.0);
    HeldIsRead(h, pkg, "heightCm", t, 0.0);
  }

  lemma {:induction false} PalletExample(h: Host, pkg: Value)
    requires Get(pkg, "packageType") == Str("Pallet")
    ensures Pallet(h, pkg)
  {
    Text.TrimKeepsTrimmed("Pallet");
    assert Text.Upper("Pallet") == "PALLET";
    Text.CollapseKeepsCollapsed("PALLET");
  }
}
