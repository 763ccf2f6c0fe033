/** What the outcome of `validateCarrierDocument` does not depend on. */
module CarrierInvariance {
  import opened CarrierText
  import opened CarrierDocument
  import opened CarrierTotals
  import opened CarrierChecks

  /** Two cases with the same verdict and the same list of checks. */
  ghost predicate SameOutcome(c: Case, d: Case) {
    && (Acceptable(c) <==> Acceptable(d))
    && Report(c, AllCodes(Kind(c))) == Report(d, AllCodes(Kind(d)))
  }

  /** Two cases that differ at most in how the numbers of the containers and seals are listed. */
  ghost predicate SameFacts(c: Case, d: Case) {
    && d == c.(containers := d.containers, seals := d.seals)
    && TextSet(c.h, c.containers) == TextSet(c.h, d.containers)
    && TextSet(c.h, c.seals) == TextSet(c.h, d.seals)
  }

  lemma SameCheck(c: Case, d: Case, code: Code)
    requires SameFacts(c, d)
    ensures Applies(c, code) == Applies(d, code) && Met(c, code) == Met(d, code)
  {
    hide TextSet, TextOf, Comparable, EvidenceFits, KnownMode, KnownOriginal, Confirmed, HexDigest, NumberOf, Near,
         ModeFor, Integral, Get, DigitsOf;
  }

  lemma {:induction false} SameReport(c: Case, d: Case, codes: seq<Code>)
    requires SameFacts(c, d)
    ensures Report(c, codes) == Report(d, codes) && Satisfied(c, codes) == Satisfied(d, codes)
    decreases |codes|
  {
    hide Applies, Met, SameFacts;
    forall code ensures Applies(c, code) == Applies(d, code) && Met(c, code) == Met(d, code) {
      SameCheck(c, d, code);
    }
    if codes != [] {
      SameReport(c, d, codes[..|codes| - 1]);
    }
  }

  lemma FactsDecide(c: Case, d: Case)
    requires SameFacts(c, d)
    ensures SameOutcome(c, d)
  {
    hide Acceptable, Report, Satisfied;
    AcceptableIff(c);
    AcceptableIff(d);
    SameReport(c, d, AllCodes(Kind(c)));
  }

  // ----- the packages -----

  /** The packages are read through their totals only. */
  lemma {:induction false} TotalsDecide(h: Host, s: Snapshot, packages: seq<Value>, raw: RawDocument)
    ensures CaseOf(h, s.(packages := packages), raw) == CaseOf(h, s, raw).(totals := TotalsOf(h, packages))
    ensures CaseOf(h, s, raw).totals == TotalsOf(h, s.packages)
  {
    hide TotalsOf, Normalize, Numbers, Get, Or;
  }

  lemma {:induction false} PackagesInAnyOrder(h: Host, s: Snapshot, packages: seq<Value>, raw: RawDocument)
    requires multiset(packages) == multiset(s.packages)
    ensures CaseOf(h, s, raw) == CaseOf(h, s.(packages := packages), raw)
  {
    hide CaseOf, TotalsOf;
    PermutingKeepsTotals(h, s.packages, packages);
    TotalsDecide(h, s, packages, raw);
  }

  lemma {:induction false} PalletsAreIgnored(h: Host, s: Snapshot, before: seq<Value>, pallet: Value, after: seq<Value>, raw: RawDocument)
    requires s.packages == before + after && Pallet(h, pallet)
    ensures CaseOf(h, s, raw) == CaseOf(h, s.(packages := before + [pallet] + after), raw)
  {
    hide CaseOf, TotalsOf, Pallet;
    PalletsDoNotCount(h, before, pallet, after);
    TotalsDecide(h, s, before + [pallet] + after, raw);
  }

  /** A package measured per piece may be entered as two lines of positive quantities. */
  lemma {:induction false} PackagesMayBeSplit(h: Host, s: Snapshot, before: seq<Value>, pkg: Value, after: seq<Value>, q1: real, q2: real,
                           raw: RawDocument)
    requires pkg.Obj? && PerPackage(pkg, Weight) && PerPackage(pkg, Dimension) && q1 > 0.0 && q2 > 0.0
    requires s.packages == before + [WithQuantity(pkg, q1 + q2)] + after
    ensures CaseOf(h, s, raw)
         == CaseOf(h, s.(packages := before + [WithQuantity(pkg, q1), WithQuantity(pkg, q2)] + after), raw)
  {
    hide CaseOf, TotalsOf, PerPackage, WithQuantity;
    SplittingKeepsTotals(h, pkg, q1, q2);
    TotalsAdd(h, before, [WithQuantity(pkg, q1 + q2)], after);
    TotalsAdd(h, before, [WithQuantity(pkg, q1), WithQuantity(pkg, q2)], after);
    TotalsDecide(h, s, before + [WithQuantity(pkg, q1), WithQuantity(pkg, q2)] + after, raw);
  }

  // ----- the containers -----

  lemma {:induction false} ContainersInAnyOrder(h: Host, s: Snapshot, containers: seq<Value>, raw: RawDocument)
    requires multiset(containers) == multiset(s.containers)
    ensures SameOutcome(CaseOf(h, s, raw), CaseOf(h, s.(containers := containers), raw))
  {
    hide TextSet, TotalsOf, Normalize;
    assert |multiset(containers)| == |containers| && |multiset(s.containers)| == |s.containers|;
    forall x ensures x in containers <==> x in s.containers {
      assert x in multiset(containers) <==> x in multiset(s.containers);
    }
    SameNumbers(h, s.containers, containers, "containerNumber");
    SameNumbers(h, s.containers, containers, "sealNumber");
    FactsDecide(CaseOf(h, s, raw), CaseOf(h, s.(containers := containers), raw));
  }

  lemma SameNumbers(h: Host, s: seq<Value>, t: seq<Value>, key: string)
    requires forall x :: x in s <==> x in t
    ensures TextSet(h, Numbers(s, key)) == TextSet(h, Numbers(t, key))
  {
    NumbersHave(s, t, key);
    NumbersHave(t, s, key);
    SameItems(h, Numbers(s, key).items, Numbers(t, key).items);
  }

  lemma NumbersHave(s: seq<Value>, t: seq<Value>, key: string)
    requires forall x :: x in s ==> x in t
    ensures forall v :: v in Numbers(s, key).items ==> v in Numbers(t, key).items
  {
    forall v | v in Numbers(s, key).items ensures v in Numbers(t, key).items {
      var i :| 0 <= i < |s| && Numbers(s, key).items[i] == v;
      assert s[i] in t;
      var j :| 0 <= j < |t| && t[j] == s[i];
      assert Numbers(t, key).items[j] == v;
    }
  }

  lemma SameItems(h: Host, s: seq<Value>, t: seq<Value>)
    requires forall x :: x in s <==> x in t
    ensures TextSet(h, List(s)) == TextSet(h, List(t))
  {
    hide Comparable;
  }

  // ----- the document's own lists -----

  datatype Spelling = CamelCase | SnakeCase

  /** The document with one of its lists given, under one of its names. */
  function WithList(raw: RawDocument, f: Field, items: seq<Value>, spelling: Spelling): RawDocument {
    RawDocument(Put(raw.camel, f, items, spelling.CamelCase?), Put(raw.snake, f, items, spelling.SnakeCase?), raw.rest)
  }

  function Put(values: map<Field, Value>, f: Field, items: seq<Value>, present: bool): map<Field, Value> {
    if present then values[f := List(items)] else values - {f}
  }

  lemma {:induction false} PutAt(values: map<Field, Value>, f: Field, items: seq<Value>, present: bool, g: Field)
    ensures At(Put(values, f, items, present), g) ==
      if g != f then At(values, g) else if present then List(items) else Null
  {}

  /** Container and seal numbers may be given in any order, more than once, and under either name. */
  lemma {:induction false} ListsInAnyOrder(h: Host, s: Snapshot, raw: RawDocument, f: Field, items: seq<Value>, other: seq<Value>,
                                           here: Spelling, there: Spelling)
    requires f.ContainerNumbers? || f.SealNumbers?
    requires forall x :: x in items <==> x in other
    ensures CaseOf(h, s, WithList(raw, f, items, here)) == CaseOf(h, s, WithList(raw, f, other, there))
  {
    hide TextSet, TotalsOf, Numbers, Normalize, WithList;
    SameItems(h, items, other);
    SameNormalForm(h, raw, f, items, other, here, there);
    WithListKeeps(raw, f, items, here, f);
    WithListKeeps(raw, f, other, there, f);
  }

  lemma {:induction false} WithListKeeps(raw: RawDocument, f: Field, items: seq<Value>, spelling: Spelling, g: Field)
    requires f.ContainerNumbers? || f.SealNumbers?
    ensures WithList(raw, f, items, spelling).rest == raw.rest
    ensures Pick(WithList(raw, f, items, spelling), g) == if g == f then List(items) else Pick(raw, g)
  {
    hide RuleOf, HasSnake, At, Put;
    PutAt(raw.camel, f, items, spelling.CamelCase?, g);
    PutAt(raw.snake, f, items, spelling.SnakeCase?, g);
    ListField(f);
  }

  lemma {:induction false} ListField(f: Field)
    requires f.ContainerNumbers? || f.SealNumbers?
    ensures HasSnake(f) && RuleOf(f) == Texts
  {}

  lemma {:induction false} SameNormalForm(h: Host, raw: RawDocument, f: Field, items: seq<Value>, other: seq<Value>,
                                          here: Spelling, there: Spelling)
    requires f.ContainerNumbers? || f.SealNumbers?
    requires TextSet(h, List(items)) == TextSet(h, List(other))
    ensures Normalize(h, WithList(raw, f, items, here)) == Normalize(h, WithList(raw, f, other, there))
  {
    hide TextSet, Apply, RuleOf, Pick, WithList;
    ListsApply(h, f, items, other);
    forall g: Field
      ensures Apply(h, RuleOf(g), Pick(WithList(raw, f, items, here), g))
           == Apply(h, RuleOf(g), Pick(WithList(raw, f, other, there), g))
    {
      WithListKeeps(raw, f, items, here, g);
      WithListKeeps(raw, f, other, there, g);
    }
  }

  lemma {:induction false} ListsApply(h: Host, f: Field, items: seq<Value>, other: seq<Value>)
    requires f.ContainerNumbers? || f.SealNumbers?
    requires TextSet(h, List(items)) == TextSet(h, List(other))
    ensures Apply(h, RuleOf(f), List(items)) == Apply(h, RuleOf(f), List(other))
  {
    hide TextSet, UniqueTexts;
    UniqueTextsIff(h, List(items), List(other));
  }
}
