/** Entries sorted by key, as `Object.entries(...).sort()` gives them: the sorted list is fixed by the set of
  * entries, in whatever order they came. */
module SortedEntries {
  type Key = string

  datatype Entry<+V> = Entry(key: Key, value: V)

  /** The default order of `sort()`: by code units. */
  predicate LexBefore(a: Key, b: Key) {
    if b == [] then false
    else if a == [] then true
    else a[0] < b[0] || (a[0] == b[0] && LexBefore(a[1..], b[1..]))
  }

  // ----- sorting -----

  function Insert<V>(f: Entry<V>, s: seq<Entry<V>>, before: (Key, Key) -> bool): seq<Entry<V>> {
    if s == [] then [f]
    else if before(f.key, s[0].key) then [f] + s
    else [s[0]] + Insert(f, s[1..], before)
  }

  function Sort<V>(s: seq<Entry<V>>, before: (Key, Key) -> bool): seq<Entry<V>> {
    if s == [] then [] else Insert(s[0], Sort(s[1..], before), before)
  }

  // ----- sorting keeps the entries -----

  ghost predicate DistinctKeys<V>(s: seq<Entry<V>>) {
    forall i, j :: 0 <= i < j < |s| ==> s[i].key != s[j].key
  }

  ghost predicate HasKey<V>(s: seq<Entry<V>>, k: Key) {
    exists i :: 0 <= i < |s| && s[i].key == k
  }

  ghost predicate SameEntries<V(!new)>(s: seq<Entry<V>>, t: seq<Entry<V>>) {
    forall f :: f in s <==> f in t
  }

  lemma {:induction false} InsertKeeps<V(!new)>(f: Entry<V>, s: seq<Entry<V>>, before: (Key, Key) -> bool)
    ensures SameEntries(Insert(f, s, before), [f] + s)
    ensures DistinctKeys([f] + s) ==> DistinctKeys(Insert(f, s, before))
  {
    if s != [] && !before(f.key, s[0].key) {
      InsertKeeps(f, s[1..], before);
      var rest := Insert(f, s[1..], before);
      forall g ensures g in [s[0]] + rest <==> g in [f] + s {
        assert g in rest <==> g in [f] + s[1..];
      }
      if DistinctKeys([f] + s) {
        DistinctTail([f] + s, [f] + s[1..]);
        forall k | 0 <= k < |rest| ensures rest[k].key != s[0].key {
          assert rest[k] in [f] + s[1..];
          if rest[k] != f {
            var j :| 0 <= j < |s[1..]| && s[1..][j] == rest[k];
            assert ([f] + s)[1] == s[0] && ([f] + s)[j + 2] == rest[k];
          } else {
            assert ([f] + s)[0] == f && ([f] + s)[1] == s[0];
          }
        }
      }
    }
  }

  /** Dropping the second of the entries. */
  lemma DistinctTail<V(!new)>(s: seq<Entry<V>>, t: seq<Entry<V>>)
    requires |s| >= 2 && t == [s[0]] + s[2..] && DistinctKeys(s)
    ensures DistinctKeys(t)
  {
    forall i, j | 0 <= i < j < |t| ensures t[i].key != t[j].key {
      assert t[j] == s[j + 1] && t[i] == s[if i == 0 then 0 else i + 1];
    }
  }

  lemma {:induction false} SortKeeps<V(!new)>(s: seq<Entry<V>>, before: (Key, Key) -> bool)
    ensures SameEntries(Sort(s, before), s)
    ensures DistinctKeys(s) ==> DistinctKeys(Sort(s, before))
  {
    if s != [] {
      SortKeeps(s[1..], before);
      var rest := Sort(s[1..], before);
      InsertKeeps(s[0], rest, before);
      forall f ensures f in Sort(s, before) <==> f in s {
        assert f in Sort(s, before) <==> f in [s[0]] + rest;
        assert f in rest <==> f in s[1..];
      }
      if DistinctKeys(s) {
        forall k | 0 <= k < |rest| ensures rest[k].key != s[0].key {
          assert rest[k] in s[1..];
        }
      }
    }
  }

  // ----- a sorted list is fixed by its entries -----

  lemma {:induction false} LexTotal(a: Key, b: Key)
    ensures LexBefore(a, b) || a == b || LexBefore(b, a)
    ensures !(LexBefore(a, b) && LexBefore(b, a)) && !LexBefore(a, a)
  {
    if a != [] && b != [] {
      LexTotal(a[1..], b[1..]);
      if a[1..] == b[1..] && a[0] == b[0] { assert a == b; }
      LexTotal(a[1..], a[1..]);
    } else if a != [] {
      LexTotal(a[1..], a[1..]);
    }
  }

  lemma {:induction false} LexTransitive(a: Key, b: Key, c: Key)
    requires LexBefore(a, b) && LexBefore(b, c)
    ensures LexBefore(a, c)
  {
    if a != [] && a[0] == b[0] == c[0] {
      LexTransitive(a[1..], b[1..], c[1..]);
    }
  }

  /** In characters: `a` is a proper prefix of `b`, or has the smaller code unit where they first differ. */
  ghost predicate ComesFirst(a: Key, b: Key) {
    exists n :: 0 <= n <= |a| && n < |b| && a[..n] == b[..n] && (n == |a| || a[n] < b[n])
  }

  lemma {:induction false} LexMeans(a: Key, b: Key)
    requires LexBefore(a, b)
    ensures ComesFirst(a, b)
  {
    if a == [] || a[0] < b[0] {
      assert a[..0] == b[..0];
    } else {
      LexMeans(a[1..], b[1..]);
      var n :| 0 <= n <= |a[1..]| && n < |b[1..]| && a[1..][..n] == b[1..][..n] && (n == |a[1..]| || a[1..][n] < b[1..][n]);
      assert a[..n + 1] == [a[0]] + a[1..][..n] && b[..n + 1] == [b[0]] + b[1..][..n];
    }
  }

  // ----- sorting by a linear order -----

  ghost predicate SortedBy<V>(s: seq<Entry<V>>, before: (Key, Key) -> bool) {
    forall i, j :: 0 <= i < j < |s| ==> before(s[i].key, s[j].key)
  }

  /** `before` is a strict linear order on the keys of `p`. */
  ghost predicate Linear(before: (Key, Key) -> bool, p: Key -> bool) {
    && (forall a, b :: p(a) && p(b) && a != b ==> before(a, b) || before(b, a))
    && forall a, b, c :: p(a) && p(b) && p(c) && before(a, b) && before(b, c) ==> before(a, c)
  }

  ghost predicate AllIn<V>(s: seq<Entry<V>>, p: Key -> bool) {
    forall i :: 0 <= i < |s| ==> p(s[i].key)
  }

  lemma {:induction false} InsertSorted<V(!new)>(f: Entry<V>, s: seq<Entry<V>>, before: (Key, Key) -> bool, p: Key -> bool)
    requires Linear(before, p) && p(f.key) && AllIn(s, p)
    requires SortedBy(s, before) && forall i :: 0 <= i < |s| ==> s[i].key != f.key
    ensures SortedBy(Insert(f, s, before), before)
  {
    if s != [] {
      if before(f.key, s[0].key) {
        assert forall i :: 0 < i < |s| ==> before(s[0].key, s[i].key);
      } else {
        InsertSorted(f, s[1..], before, p);
        var rest := Insert(f, s[1..], before);
        InsertKeeps(f, s[1..], before);
        forall i | 0 <= i < |rest| ensures before(s[0].key, rest[i].key) {
          assert rest[i] in [f] + s[1..];
        }
      }
    }
  }

  lemma {:induction false} SortSortsBy<V(!new)>(s: seq<Entry<V>>, before: (Key, Key) -> bool, p: Key -> bool)
    requires Linear(before, p) && AllIn(s, p) && DistinctKeys(s)
    ensures SortedBy(Sort(s, before), before)
  {
    if s != [] {
      SortSortsBy(s[1..], before, p);
      SortKeeps(s[1..], before);
      var rest := Sort(s[1..], before);
      forall k | 0 <= k < |rest| ensures rest[k].key != s[0].key && p(rest[k].key) {
        assert rest[k] in s[1..];
      }
      hide Linear;
      InsertSorted(s[0], rest, before, p);
    }
  }

  ghost predicate LexSorted<V>(s: seq<Entry<V>>) {
    SortedBy(s, LexBefore)
  }

  lemma {:induction false} LexIsLinear()
    ensures Linear(LexBefore, (_: Key) => true)
  {
    forall a: Key, b: Key ensures LexBefore(a, b) || a == b || LexBefore(b, a) {
      LexTotal(a, b);
    }
    forall a: Key, b: Key, c: Key | LexBefore(a, b) && LexBefore(b, c) ensures LexBefore(a, c) {
      LexTransitive(a, b, c);
    }
  }

  lemma {:induction false} SortSorts<V(!new)>(s: seq<Entry<V>>)
    requires DistinctKeys(s)
    ensures LexSorted(Sort(s, LexBefore))
  {
    LexIsLinear();
    SortSortsBy(s, LexBefore, (_: Key) => true);
  }

  lemma {:induction false} SortedIsUnique<V(!new)>(s: seq<Entry<V>>, t: seq<Entry<V>>)
    requires LexSorted(s) && LexSorted(t) && SameEntries(s, t)
    ensures s == t
    decreases |s|
  {
    assert s != [] ==> s[0] in t;
    assert t != [] ==> t[0] in s;
    if s != [] && t != [] {
      LeastFirst(s, t);
      LeastFirst(t, s);
      LexTotal(s[0].key, t[0].key);
      assert s[0] in t && t[0] in s;
      LexTotal(s[0].key, s[0].key);
      assert s[0] == t[0];
      TailEntries(s, t);
      SortedIsUnique(s[1..], t[1..]);
    }
  }

  /** The first key of a sorted list is no later than any key of a list with the same entries. */
  lemma LeastFirst<V(!new)>(s: seq<Entry<V>>, t: seq<Entry<V>>)
    requires s != [] && t != [] && LexSorted(s) && SameEntries(s, t)
    ensures t[0] == s[0] || LexBefore(s[0].key, t[0].key)
  {
    assert t[0] in s;
    var i :| 0 <= i < |s| && s[i] == t[0];
  }

  lemma TailEntries<V(!new)>(s: seq<Entry<V>>, t: seq<Entry<V>>)
    requires s != [] && t != [] && s[0] == t[0] && LexSorted(s) && LexSorted(t) && SameEntries(s, t)
    ensures SameEntries(s[1..], t[1..])
  {
    LexTotal(s[0].key, s[0].key);
    forall f ensures f in s[1..] <==> f in t[1..] {
      assert f in s <==> f in t;
      assert f == s[0] ==> f !in s[1..] && f !in t[1..];
    }
  }
}
