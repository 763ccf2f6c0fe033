/** Dynamic values as a request body or a database row holds them, and the text helpers of the carrier controls. */
module CarrierText {
  import opened Options
  import opened SortedEntries
  import opened Text

  /** Null stands for null and undefined. */
  datatype Value = Null | Str(text: string) | Num(value: real) | Bool(flag: bool)
                 | List(items: seq<Value>) | Obj(fields: map<string, Value>)
  {
    predicate Truthy() {
      !(Null? || this == Str("") || this == Num(0.0) || this == Bool(false))
    }
  }

  /** The two conversions of the language that are taken as given: String(x) of a number and Number(s) of a
    * text, where None is NaN. */
  datatype Host = Host(show: real -> string, parse: string -> Option<real>)

  /** `value?.key`. */
  function Get(v: Value, key: string): Value {
    if v.Obj? && key in v.fields then v.fields[key] else Null
  }

  /** `a || b`. */
  function Or(a: Value, b: Value): Value {
    if a.Truthy() then a else b
  }

  /** `String(value ?? '')`. */
  function Print(h: Host, v: Value): string {
    match v
    case Null => ""
    case Str(text) => text
    case Num(value) => h.show(value)
    case Bool(flag) => if flag then "true" else "false"
    case List(items) => PrintAll(h, items)
    case Obj(_) => "[object Object]"
  }

  function PrintAll(h: Host, items: seq<Value>): string {
    if items == [] then "" else Print(h, items[0]) + if |items| == 1 then "" else "," + PrintAll(h, items[1..])
  }

  /** `text(value)`. */
  function TextOf(h: Host, v: Value): string {
    Trim(Print(h, v))
  }

  function Comparable(h: Host, v: Value): string {
    Collapse(Upper(TextOf(h, v)))
  }

  /** `Number(value)`. */
  function NumberOf(h: Host, v: Value): Option<real> {
    match v
    case Null => None
    case Str(text) => h.parse(text)
    case Num(value) => Some(value)
    case Bool(flag) => Some(if flag then 1.0 else 0.0)
    case List(items) => h.parse(PrintAll(h, items))
    case Obj(_) => None
  }

  /** Comparing what has been compared changes nothing more. */
  lemma ComparableTwice(h: Host, v: Value)
    ensures Comparable(h, Str(Comparable(h, v))) == Comparable(h, v)
  {
    var t := TextOf(h, v);
    TrimTrims(Print(h, v));
    UpperKeepsTrimmed(t);
    CollapseCollapses(Upper(t));
    var c := Collapse(Upper(t));
    TrimKeepsTrimmed(c);
    UpperTwice(t);
    CollapseKeepsUpper(Upper(t));
    CollapseKeepsCollapsed(c);
  }

  /** Compared are the words in upper case, whatever stands between and around them. */
  lemma {:induction false} ComparableIsWords(h: Host, v: Value)
    ensures Comparable(h, v) == Spaced(Words(Upper(Print(h, v))))
  {
    var s := Print(h, v);
    var t := TextOf(h, v);
    TrimTrims(s);
    UpperKeepsTrimmed(t);
    CollapseIsSpaced(Upper(t));
    UpperOfTrimmed(s);
    WordsOfTrimmed(Upper(s));
    WordsOfTrimmed(TrimStart(Upper(s)));
  }

  lemma {:induction false} UpperOfTrimmed(s: string)
    ensures Upper(Trim(s)) == Trim(Upper(s))
  {
    UpperOfTrimStart(s);
    UpperOfTrimEnd(TrimStart(s));
  }

  lemma {:induction false} UpperOfTrimStart(s: string)
    ensures Upper(TrimStart(s)) == TrimStart(Upper(s))
  {
    if s != [] {
      assert Upper(s)[0] == UpperChar(s[0]) && Upper(s)[1..] == Upper(s[1..]);
      UpperOfTrimStart(s[1..]);
    }
  }

  lemma {:induction false} UpperOfTrimEnd(s: string)
    ensures Upper(TrimEnd(s)) == TrimEnd(Upper(s))
    decreases |s|
  {
    if s != [] {
      var n := |s| - 1;
      assert Upper(s)[n] == UpperChar(s[n]) && Upper(s)[..n] == Upper(s[..n]);
      UpperOfTrimEnd(s[..n]);
    }
  }

  /** Texts and numbers that are made of other values: those of a list are separated by commas, and a list of
    * one is read as that one. */
  lemma {:induction false} ConversionsMean(h: Host, v: Value, w: Value, s: string)
    ensures Print(h, Bool(true)) == "true" && Print(h, Bool(false)) == "false" && Print(h, Obj(map[])) == "[object Object]"
    ensures Print(h, List([v, w])) == Print(h, v) + "," + Print(h, w) && Print(h, List([v])) == Print(h, v)
    ensures NumberOf(h, Bool(true)) == Some(1.0) && NumberOf(h, Bool(false)) == Some(0.0)
    ensures NumberOf(h, List([Str(s)])) == NumberOf(h, Str(s)) == h.parse(s)
  {
    assert [v, w][1..] == [w];
    assert PrintAll(h, [v, w]) == Print(h, v) + ("," + Print(h, w));
    assert PrintAll(h, [Str(s)]) == s + "" == s;
    assert PrintAll(h, [v]) == Print(h, v) + "";
  }

  // ----- lists of texts -----

  function Comparables(h: Host, items: seq<Value>): seq<string> {
    if items == [] then []
    else
      var first := Comparable(h, items[0]);
      (if first == "" then [] else [first]) + Comparables(h, items[1..])
  }

  /** `[...new Set(texts)]`; the sort that follows makes the order of the set irrelevant. */
  function Distinct(texts: seq<string>): seq<string> {
    if texts == [] then []
    else if texts[0] in texts[1..] then Distinct(texts[1..])
    else [texts[0]] + Distinct(texts[1..])
  }

  function Keyed(texts: seq<string>): seq<Entry<()>> {
    seq(|texts|, i requires 0 <= i < |texts| => Entry(texts[i], ()))
  }

  function Keys(entries: seq<Entry<()>>): seq<string> {
    seq(|entries|, i requires 0 <= i < |entries| => entries[i].key)
  }

  function SortTexts(texts: seq<string>): seq<string> {
    Keys(Sort(Keyed(texts), LexBefore))
  }

  function UniqueTexts(h: Host, v: Value): seq<string> {
    if v.List? then SortTexts(Distinct(Comparables(h, v.items))) else []
  }

  function SameSet(h: Host, left: Value, right: Value): bool {
    var a, b := UniqueTexts(h, left), UniqueTexts(h, right);
    |a| == |b| && forall i :: 0 <= i < |a| ==> a[i] == b[i]
  }

  /** The non-empty normalised texts of a list. */
  ghost function TextSet(h: Host, v: Value): set<string> {
    if v.List? then (set x <- v.items :: Comparable(h, x)) - {""} else {}
  }

  ghost predicate Ordered(texts: seq<string>) {
    forall i, j :: 0 <= i < j < |texts| ==> LexBefore(texts[i], texts[j])
  }

  lemma {:induction false} ComparablesHas(h: Host, items: seq<Value>, t: string)
    ensures t in Comparables(h, items) <==> t in TextSet(h, List(items))
  {
    if items != [] {
      ComparablesHas(h, items[1..], t);
      assert forall x :: x in items <==> x == items[0] || x in items[1..];
    }
  }

  lemma {:induction false} DistinctKeeps(texts: seq<string>)
    ensures forall t :: t in Distinct(texts) <==> t in texts
    ensures forall i, j :: 0 <= i < j < |Distinct(texts)| ==> Distinct(texts)[i] != Distinct(texts)[j]
  {
    if texts != [] {
      DistinctKeeps(texts[1..]);
      forall t ensures t in Distinct(texts) <==> t in texts {
        assert t in texts <==> t == texts[0] || t in texts[1..];
      }
    }
  }

  lemma SortTextsSorts(texts: seq<string>)
    requires forall i, j :: 0 <= i < j < |texts| ==> texts[i] != texts[j]
    ensures Ordered(SortTexts(texts))
    ensures forall t :: t in SortTexts(texts) <==> t in texts
  {
    hide LexBefore;
    var sorted := Sort(Keyed(texts), LexBefore);
    SortSorts(Keyed(texts));
    SortKeeps(Keyed(texts), LexBefore);
    forall t ensures t in SortTexts(texts) <==> t in texts {
      if t in SortTexts(texts) {
        var i :| 0 <= i < |sorted| && sorted[i].key == t;
        assert sorted[i] in Keyed(texts);
      }
      if t in texts {
        var i :| 0 <= i < |texts| && texts[i] == t;
        assert Keyed(texts)[i] in sorted;
        var j :| 0 <= j < |sorted| && sorted[j] == Keyed(texts)[i];
        assert SortTexts(texts)[j] == t;
      }
    }
  }

  lemma OrderedIsUnique(a: seq<string>, b: seq<string>)
    requires Ordered(a) && Ordered(b) && forall t :: t in a <==> t in b
    ensures a == b
  {
    hide LexBefore;
    var s, t := Keyed(a), Keyed(b);
    forall f ensures f in s <==> f in t {
      if f in s {
        assert f.key in b;
        var j :| 0 <= j < |b| && b[j] == f.key;
        assert t[j] == f;
      }
      if f in t {
        assert f.key in a;
        var j :| 0 <= j < |a| && a[j] == f.key;
        assert s[j] == f;
      }
    }
    SortedIsUnique(s, t);
    forall i | 0 <= i < |a| ensures a[i] == b[i] {
      assert s[i] == t[i];
    }
  }

  lemma UniqueTextsAre(h: Host, v: Value)
    ensures Ordered(UniqueTexts(h, v))
    ensures forall t :: t in UniqueTexts(h, v) <==> t in TextSet(h, v)
  {
    hide LexBefore, Distinct, SortTexts, Comparable;
    if v.List? {
      var texts := Comparables(h, v.items);
      DistinctKeeps(texts);
      SortTextsSorts(Distinct(texts));
      forall t ensures t in UniqueTexts(h, v) <==> t in TextSet(h, v) {
        ComparablesHas(h, v.items, t);
      }
    } else {
      assert UniqueTexts(h, v) == [];
    }
  }

  /** The list of unique texts is determined by the set of non-empty normalised texts, and determines it. */
  lemma UniqueTextsIff(h: Host, v: Value, w: Value)
    ensures UniqueTexts(h, v) == UniqueTexts(h, w) <==> TextSet(h, v) == TextSet(h, w)
  {
    hide Ordered, UniqueTexts, TextSet;
    UniqueTextsAre(h, v);
    UniqueTextsAre(h, w);
    if TextSet(h, v) == TextSet(h, w) {
      OrderedIsUnique(UniqueTexts(h, v), UniqueTexts(h, w));
    }
    if UniqueTexts(h, v) == UniqueTexts(h, w) {
      assert forall t :: t in TextSet(h, v) <==> t in TextSet(h, w);
    }
  }

  lemma SameSetIff(h: Host, left: Value, right: Value)
    ensures SameSet(h, left, right) <==> TextSet(h, left) == TextSet(h, right)
  {
    UniqueTextsIff(h, left, right);
  }

  /** A list of texts as a value. */
  function AsList(texts: seq<string>): Value {
    List(seq(|texts|, i requires 0 <= i < |texts| => Str(texts[i])))
  }

  lemma {:induction false} UniqueTextsTwice(h: Host, v: Value)
    ensures TextSet(h, AsList(UniqueTexts(h, v))) == TextSet(h, v)
    ensures UniqueTexts(h, AsList(UniqueTexts(h, v))) == UniqueTexts(h, v)
  {
    hide Comparable, UniqueTexts, Ordered;
    var texts := UniqueTexts(h, v);
    var again := AsList(texts);
    UniqueTextsAre(h, v);
    forall t ensures t in TextSet(h, again) <==> t in TextSet(h, v) {
      if t in TextSet(h, again) {
        var i :| 0 <= i < |texts| && t == Comparable(h, Str(texts[i]));
        InTextSet(h, v, texts[i]);
      }
      if t in TextSet(h, v) {
        InTextSet(h, v, t);
        var i :| 0 <= i < |texts| && texts[i] == t;
        assert again.items[i] == Str(t);
      }
    }
    UniqueTextsIff(h, v, again);
  }

  lemma InTextSet(h: Host, v: Value, t: string)
    requires t in TextSet(h, v)
    ensures Comparable(h, Str(t)) == t != ""
  {
    var x :| x in v.items && Comparable(h, x) == t;
    ComparableTwice(h, x);
  }
}
