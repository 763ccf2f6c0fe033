/** `sortForSerialization`: JSON values brought to a canonical property order. */
module CanonicalJson {
  import opened SortedEntries

  type Field = Entry<Json>

  /** An object is the list of its own properties in enumeration order. */
  datatype Json = Atom(text: string) | Arr(elems: seq<Json>) | Obj(fields: seq<Field>)

  // ----- orders on keys -----

  predicate Digits(k: Key) {
    forall i :: 0 <= i < |k| ==> '0' <= k[i] <= '9'
  }

  function Number(k: Key): nat
    requires Digits(k)
  {
    if k == [] then 0 else 10 * Number(k[..|k| - 1]) + (k[|k| - 1] as int - '0' as int)
  }

  /** An array index: a canonical decimal numeral below 2^32 - 1. */
  predicate IsIndex(k: Key) {
    0 < |k| <= 10 && Digits(k) && (k == "0" || k[0] != '0') && Number(k) < 4294967295
  }

  predicate NumBefore(a: Key, b: Key) {
    IsIndex(a) && IsIndex(b) && Number(a) < Number(b)
  }

  // ----- sorting fields -----

  function Only(s: seq<Field>, index: bool): seq<Field> {
    if s == [] then []
    else (if IsIndex(s[0].key) == index then [s[0]] else []) + Only(s[1..], index)
  }

  /** The order in which an object built by `Object.fromEntries` enumerates: array indices first, by
    * number, then the other keys as inserted (OrdinaryOwnPropertyKeys in ECMA-262). */
  function Enumerate(s: seq<Field>): seq<Field> {
    Sort(Only(s, true), NumBefore) + Only(s, false)
  }

  function Canon(v: Json): Json {
    match v
    case Atom(_) => v
    case Arr(elems) => Arr(CanonElems(elems))
    case Obj(fields) => Obj(Enumerate(Sort(CanonFields(fields), LexBefore)))
  }

  function CanonElems(elems: seq<Json>): (r: seq<Json>)
    ensures |r| == |elems|
    ensures forall i :: 0 <= i < |elems| ==> r[i] == Canon(elems[i])
  {
    if elems == [] then [] else [Canon(elems[0])] + CanonElems(elems[1..])
  }

  /** Sorting looks at keys only, so it may come after the values have been treated. */
  function CanonFields(fields: seq<Field>): (r: seq<Field>)
    ensures |r| == |fields|
    ensures forall i :: 0 <= i < |fields| ==> r[i] == Entry(fields[i].key, Canon(fields[i].value))
  {
    if fields == [] then [] else [Entry(fields[0].key, Canon(fields[0].value))] + CanonFields(fields[1..])
  }

  // ----- what it means -----

  /** No object has the same key twice. */
  ghost predicate Valid(v: Json) {
    match v
    case Atom(_) => true
    case Arr(elems) => forall i :: 0 <= i < |elems| ==> Valid(elems[i])
    case Obj(fields) => DistinctKeys(fields) && forall i :: 0 <= i < |fields| ==> Valid(fields[i].value)
  }

  /** Equal up to the order of object properties, at every depth. */
  ghost predicate SameData(v: Json, w: Json)
    decreases v
  {
    match (v, w)
    case (Atom(x), Atom(y)) => x == y
    case (Arr(xs), Arr(ys)) => |xs| == |ys| && forall i :: 0 <= i < |xs| ==> SameData(xs[i], ys[i])
    case (Obj(fs), Obj(gs)) =>
      && (forall k :: HasKey(fs, k) <==> HasKey(gs, k))
      && forall i, j :: 0 <= i < |fs| && 0 <= j < |gs| && fs[i].key == gs[j].key ==> SameData(fs[i].value, gs[j].value)
    case _ => false
  }

  lemma {:induction false} OnlyKeeps(s: seq<Field>, index: bool)
    ensures forall f :: f in Only(s, index) <==> f in s && IsIndex(f.key) == index
    ensures DistinctKeys(s) ==> DistinctKeys(Only(s, index))
  {
    if s != [] {
      OnlyKeeps(s[1..], index);
      var rest := Only(s[1..], index);
      if DistinctKeys(s) {
        forall k | 0 <= k < |rest| ensures rest[k].key != s[0].key {
          assert rest[k] in s[1..];
        }
      }
    }
  }

  lemma EnumerateKeeps(s: seq<Field>)
    ensures SameEntries(Enumerate(s), s)
    ensures DistinctKeys(s) ==> DistinctKeys(Enumerate(s))
  {
    OnlyKeeps(s, true);
    OnlyKeeps(s, false);
    var indices, others := Sort(Only(s, true), NumBefore), Only(s, false);
    SortKeeps(Only(s, true), NumBefore);
    if DistinctKeys(s) {
      forall i, j | 0 <= i < |indices| && 0 <= j < |others| ensures indices[i].key != others[j].key {
        assert indices[i] in Only(s, true) && others[j] in Only(s, false);
      }
    }
  }

  // ----- the theorems -----

  /** Two values have the same canonical form exactly when they differ in property order only. */
  lemma {:induction false} CanonIff(v: Json, w: Json)
    requires Valid(v) && Valid(w)
    ensures Canon(v) == Canon(w) <==> SameData(v, w)
    decreases v
  {
    match (v, w)
    case (Arr(xs), Arr(ys)) =>
      if |xs| == |ys| {
        forall i | 0 <= i < |xs| ensures Canon(xs[i]) == Canon(ys[i]) <==> SameData(xs[i], ys[i]) {
          CanonIff(xs[i], ys[i]);
        }
        assert CanonElems(xs) == CanonElems(ys) <==> forall i :: 0 <= i < |xs| ==> Canon(xs[i]) == Canon(ys[i]);
      }
    case (Obj(fs), Obj(gs)) =>
      forall i, j | 0 <= i < |fs| && 0 <= j < |gs|
        ensures Canon(fs[i].value) == Canon(gs[j].value) <==> SameData(fs[i].value, gs[j].value)
      {
        CanonIff(fs[i].value, gs[j].value);
      }
      CanonObjects(fs, gs);
    case _ =>
  }

  /** For objects it comes down to the treated fields as sets. */
  lemma {:induction false} CanonObjects(fs: seq<Field>, gs: seq<Field>)
    requires DistinctKeys(fs) && DistinctKeys(gs)
    requires forall i, j :: 0 <= i < |fs| && 0 <= j < |gs| ==>
      (Canon(fs[i].value) == Canon(gs[j].value) <==> SameData(fs[i].value, gs[j].value))
    ensures Canon(Obj(fs)) == Canon(Obj(gs)) <==> SameData(Obj(fs), Obj(gs))
  {
    var cf, cg := CanonFields(fs), CanonFields(gs);
    CanonObjectIff(cf, cg);
    hide Canon, Enumerate, Sort, SameEntries;
    if SameData(Obj(fs), Obj(gs)) {
      EntriesMatch(fs, gs);
    }
    if SameEntries(cf, cg) {
      SameKeys(gs, cf);
      SameKeys(fs, cf);
      ValuesMatch(fs, gs);
    }
  }

  lemma {:induction false} ValuesMatch(fs: seq<Field>, gs: seq<Field>)
    requires DistinctKeys(gs) && SameEntries(CanonFields(fs), CanonFields(gs))
    ensures forall i, j :: 0 <= i < |fs| && 0 <= j < |gs| && fs[i].key == gs[j].key ==> Canon(fs[i].value) == Canon(gs[j].value)
  {
    hide Canon, SameEntries;
    forall i, j | 0 <= i < |fs| && 0 <= j < |gs| && fs[i].key == gs[j].key ensures Canon(fs[i].value) == Canon(gs[j].value) {
      SameKeySameField(CanonFields(fs), CanonFields(gs), i, j);
    }
  }

  lemma {:induction false} SameKeySameField(cf: seq<Field>, cg: seq<Field>, i: nat, j: nat)
    requires SameEntries(cf, cg) && DistinctKeys(cg) && i < |cf| && j < |cg| && cf[i].key == cg[j].key
    ensures cf[i] == cg[j]
  {
    assert cf[i] in cg;
    var k :| 0 <= k < |cg| && cg[k] == cf[i];
  }

  lemma {:induction false} CanonObjectIff(cf: seq<Field>, cg: seq<Field>)
    requires DistinctKeys(cf) && DistinctKeys(cg)
    ensures Enumerate(Sort(cf, LexBefore)) == Enumerate(Sort(cg, LexBefore)) <==> SameEntries(cf, cg)
  {
    hide Enumerate, Sort;
    var sf, sg := Sort(cf, LexBefore), Sort(cg, LexBefore);
    SortKeeps(cf, LexBefore);
    SortKeeps(cg, LexBefore);
    EnumerateKeeps(sf);
    EnumerateKeeps(sg);
    if SameEntries(cf, cg) {
      SortSorts(cf);
      SortSorts(cg);
      SortedIsUnique(sf, sg);
    }
    if Enumerate(sf) == Enumerate(sg) {
      forall f ensures f in cf <==> f in cg {
        assert f in sf <==> f in Enumerate(sf);
        assert f in sg <==> f in Enumerate(sg);
        assert f in cf <==> f in sf;
        assert f in cg <==> f in sg;
      }
    }
  }

  lemma {:induction false} FieldsMatch(fs: seq<Field>, gs: seq<Field>)
    requires forall k :: HasKey(fs, k) ==> HasKey(gs, k)
    requires forall i, j :: 0 <= i < |fs| && 0 <= j < |gs| && fs[i].key == gs[j].key ==> Canon(fs[i].value) == Canon(gs[j].value)
    ensures forall f :: f in CanonFields(fs) ==> f in CanonFields(gs)
  {
    forall f | f in CanonFields(fs) ensures f in CanonFields(gs) {
      var i :| 0 <= i < |fs| && CanonFields(fs)[i] == f;
      assert HasKey(fs, f.key);
      var j :| 0 <= j < |gs| && gs[j].key == f.key;
      assert CanonFields(gs)[j] == f;
    }
  }

  lemma {:induction false} EntriesMatch(fs: seq<Field>, gs: seq<Field>)
    requires forall k :: HasKey(fs, k) <==> HasKey(gs, k)
    requires forall i, j :: 0 <= i < |fs| && 0 <= j < |gs| && fs[i].key == gs[j].key ==> Canon(fs[i].value) == Canon(gs[j].value)
    ensures SameEntries(CanonFields(fs), CanonFields(gs))
  {
    hide Canon;
    FieldsMatch(fs, gs);
    FieldsMatch(gs, fs);
  }

  /** The canonical form holds the same data and is valid. */
  lemma {:induction false} CanonKeepsData(v: Json)
    requires Valid(v)
    ensures Valid(Canon(v)) && SameData(v, Canon(v))
    decreases v
  {
    match v
    case Atom(_) =>
    case Arr(elems) =>
      forall i | 0 <= i < |elems| ensures Valid(Canon(elems[i])) && SameData(elems[i], Canon(elems[i])) {
        CanonKeepsData(elems[i]);
      }
    case Obj(fields) =>
      forall i | 0 <= i < |fields| ensures Valid(Canon(fields[i].value)) && SameData(fields[i].value, Canon(fields[i].value)) {
        CanonKeepsData(fields[i].value);
      }
      CanonObjectKeepsData(fields);
  }

  lemma {:induction false} CanonObjectKeepsData(fields: seq<Field>)
    requires DistinctKeys(fields)
    requires forall i :: 0 <= i < |fields| ==> Valid(Canon(fields[i].value)) && SameData(fields[i].value, Canon(fields[i].value))
    ensures Valid(Canon(Obj(fields))) && SameData(Obj(fields), Canon(Obj(fields)))
  {
    hide Enumerate, Sort;
    var cf := CanonFields(fields);
    var sorted := Sort(cf, LexBefore);
    var final := Enumerate(sorted);
    SortKeeps(cf, LexBefore);
    EnumerateKeeps(sorted);
    assert Canon(Obj(fields)) == Obj(final);
    forall f ensures f in final <==> f in cf {
      assert f in final <==> f in sorted;
      assert f in sorted <==> f in cf;
    }
    SameKeys(fields, final);
    forall j | 0 <= j < |final|
      ensures Valid(final[j].value)
      ensures forall i :: 0 <= i < |fields| && fields[i].key == final[j].key ==> SameData(fields[i].value, final[j].value)
    {
      assert final[j] in cf;
      var i :| 0 <= i < |cf| && cf[i] == final[j];
    }
  }

  lemma {:induction false} SameKeys(fields: seq<Field>, final: seq<Field>)
    requires SameEntries(final, CanonFields(fields))
    ensures forall k :: HasKey(fields, k) <==> HasKey(final, k)
  {
    var cf := CanonFields(fields);
    forall k ensures HasKey(fields, k) <==> HasKey(final, k) {
      if HasKey(fields, k) {
        var i :| 0 <= i < |fields| && fields[i].key == k;
        assert cf[i] in final;
        var j :| 0 <= j < |final| && final[j] == cf[i];
        assert final[j].key == k;
      }
      if HasKey(final, k) {
        var j :| 0 <= j < |final| && final[j].key == k;
        assert final[j] in cf;
        var i :| 0 <= i < |cf| && cf[i] == final[j];
        assert fields[i].key == k;
      }
    }
  }

  /** Canonicalising twice is canonicalising once. */
  lemma CanonIdempotent(v: Json)
    requires Valid(v)
    ensures Canon(Canon(v)) == Canon(v)
  {
    CanonKeepsData(v);
    CanonIff(v, Canon(v));
  }

  // ----- the order of the keys -----

  /** The decimal numeral of a number. */
  function Decimal(n: nat): Key {
    if n < 10 then [n as char + '0'] else Decimal(n / 10) + [(n % 10) as char + '0']
  }

  lemma {:induction false} NumberOfDecimal(n: nat)
    ensures Digits(Decimal(n)) && Number(Decimal(n)) == n
    ensures Decimal(n) != [] && (n == 0 <==> Decimal(n)[0] == '0') && (n == 0 ==> Decimal(n) == "0")
  {
    if n >= 10 {
      NumberOfDecimal(n / 10);
      assert Decimal(n)[..|Decimal(n)| - 1] == Decimal(n / 10);
    } else {
      assert Decimal(n)[..0] == [];
    }
  }

  lemma {:induction false} DecimalOfNumber(k: Key)
    requires k != [] && Digits(k) && (k == "0" || k[0] != '0')
    ensures Decimal(Number(k)) == k && (Number(k) == 0 ==> k == "0")
    decreases |k|
  {
    var n := |k| - 1;
    if n == 0 {
      assert k[..0] == [];
    } else {
      DecimalOfNumber(k[..n]);
      var m, d := Number(k[..n]), k[n] as int - '0' as int;
      assert k[..n] != "0" && m > 0;
      assert Number(k) == 10 * m + d && Number(k) / 10 == m && Number(k) % 10 == d;
      assert k == k[..n] + [k[n]];
    }
  }

  lemma {:induction false} DecimalSize(n: nat, size: nat, power: nat)
    requires size > 0 && n < power && power == Power(size)
    ensures |Decimal(n)| <= size
    decreases size
  {
    if n >= 10 {
      DecimalSize(n / 10, size - 1, power / 10);
    }
  }

  function Power(size: nat): nat {
    if size == 0 then 1 else 10 * Power(size - 1)
  }

  /** A numeral of a number below 2^32 - 1. */
  ghost predicate IsNumeral(k: Key) {
    exists n: nat :: n < 4294967295 && k == Decimal(n)
  }

  /** The array indices are these numerals. */
  lemma {:induction false} IndexIff(k: Key)
    ensures IsIndex(k) <==> IsNumeral(k)
  {
    if IsIndex(k) {
      DecimalOfNumber(k);
      assert k == Decimal(Number(k));
    }
    if IsNumeral(k) {
      var n: nat :| n < 4294967295 && k == Decimal(n);
      NumberOfDecimal(n);
      assert Power(10) == 10000000000;
      DecimalSize(n, 10, 10000000000);
    }
  }

  lemma {:induction false} IndicesAreLinear()
    ensures Linear(NumBefore, IsIndex)
  {
    forall a, b | IsIndex(a) && IsIndex(b) && a != b ensures NumBefore(a, b) || NumBefore(b, a) {
      DecimalOfNumber(a);
      DecimalOfNumber(b);
    }
  }

  lemma {:induction false} OnlySorted(s: seq<Field>, index: bool)
    requires LexSorted(s)
    ensures LexSorted(Only(s, index))
  {
    if s != [] {
      OnlySorted(s[1..], index);
      OnlyKeeps(s[1..], index);
      var rest := Only(s[1..], index);
      forall k | 0 <= k < |rest| ensures LexBefore(s[0].key, rest[k].key) {
        assert rest[k] in s[1..];
      }
    }
  }

  /** Of two keys of a canonical object, the earlier is the numeral of the smaller number, or the only
    * numeral, or comes first in characters. */
  ghost predicate InOrder(a: Key, b: Key) {
    if IsNumeral(b) then exists m: nat, n: nat :: m < n < 4294967295 && a == Decimal(m) && b == Decimal(n)
    else IsNumeral(a) || ComesFirst(a, b)
  }

  lemma {:induction false} CanonOrder(fields: seq<Field>, i: nat, j: nat)
    requires DistinctKeys(fields)
    requires i < j < |Canon(Obj(fields)).fields|
    ensures InOrder(Canon(Obj(fields)).fields[i].key, Canon(Obj(fields)).fields[j].key)
  {
    var cf := CanonFields(fields);
    assert DistinctKeys(cf);
    var sorted := Sort(cf, LexBefore);
    SortKeeps(cf, LexBefore);
    SortSorts(cf);
    EnumerateOrder(sorted, i, j);
  }

  lemma {:induction false} EnumerateParts(s: seq<Field>)
    requires DistinctKeys(s) && LexSorted(s)
    ensures SortedBy(Sort(Only(s, true), NumBefore), NumBefore) && LexSorted(Only(s, false))
    ensures AllIn(Sort(Only(s, true), NumBefore), IsIndex) && AllIn(Only(s, false), k => !IsIndex(k))
  {
    hide IsIndex, NumBefore, LexBefore;
    var indices, others := Only(s, true), Only(s, false);
    OnlyKeeps(s, true);
    OnlyKeeps(s, false);
    OnlySorted(s, false);
    SortKeeps(indices, NumBefore);
    IndicesAreLinear();
    forall k | 0 <= k < |indices| ensures IsIndex(indices[k].key) {
      assert indices[k] in indices;
    }
    SortSortsBy(indices, NumBefore, IsIndex);
    var sorted := Sort(indices, NumBefore);
    forall k | 0 <= k < |sorted| ensures IsIndex(sorted[k].key) {
      assert sorted[k] in sorted;
    }
    forall k | 0 <= k < |others| ensures !IsIndex(others[k].key) {
      assert others[k] in others;
    }
  }

  lemma {:induction false} SortedIsInOrder(a: Key, b: Key)
    requires NumBefore(a, b) || (IsIndex(a) && !IsIndex(b)) || (!IsIndex(a) && !IsIndex(b) && LexBefore(a, b))
    ensures InOrder(a, b)
  {
    IndexIff(a);
    IndexIff(b);
    if NumBefore(a, b) {
      DecimalOfNumber(a);
      DecimalOfNumber(b);
      assert a == Decimal(Number(a)) && b == Decimal(Number(b));
    } else if !IsIndex(a) {
      LexMeans(a, b);
    }
  }

  lemma {:induction false} EnumerateOrder(s: seq<Field>, i: nat, j: nat)
    requires DistinctKeys(s) && LexSorted(s) && i < j < |Enumerate(s)|
    ensures InOrder(Enumerate(s)[i].key, Enumerate(s)[j].key)
  {
    EnumerateParts(s);
    hide IsIndex, NumBefore, LexBefore, InOrder, Only, Sort;
    SortedIsInOrder(Enumerate(s)[i].key, Enumerate(s)[j].key);
  }
}
