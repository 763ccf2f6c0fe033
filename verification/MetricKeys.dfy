/** Series keys of the metrics registry (Prometheus text-based exposition format) and the registry itself. */
module MetricKeys {
  import opened Options
  import opened SortedEntries
  import opened Text
  import opened Sums

  /** None stands for null and undefined. */
  type Label = Entry<Option<string>>

  // ----- printing -----

  /** Three `replace` passes: backslash, quote, newline. */
  function Passes(s: string): string {
    ReplaceAll(ReplaceAll(ReplaceAll(s, '\\', "\\\\"), '"', "\\\""), '\n', "\\n")
  }

  function NormalizeLabelValue(value: Option<string>): string {
    Passes(value.GetOr("unknown"))
  }

  function PrintPair(pair: Label): string {
    pair.key + "=\"" + NormalizeLabelValue(pair.value) + "\""
  }

  function Join(labels: seq<Label>): string {
    if labels == [] then ""
    else if |labels| == 1 then PrintPair(labels[0])
    else PrintPair(labels[0]) + "," + Join(labels[1..])
  }

  /** `labels` in any enumeration order; key order is taken to be the order of code units. */
  function KeyFor(name: string, labels: seq<Label>): string {
    var entries := Sort(labels, LexBefore);
    name + if entries == [] then "" else "{" + Join(entries) + "}"
  }

  // ----- reading back -----

  function ReadUntil(s: string, stop: char): (r: string)
    ensures |r| <= |s|
  {
    if s == [] || s[0] == stop then "" else [s[0]] + ReadUntil(s[1..], stop)
  }

  function DecodeChar(c: char): char {
    if c == 'n' then '\n' else c
  }

  /** After an opening quote: the value, and what follows the closing quote. */
  function ReadValue(s: string): (r: (string, string))
    ensures |r.1| <= |s|
  {
    if s == [] then ("", "")
    else if s[0] == '"' then ("", s[1..])
    else if s[0] == '\\' && |s| >= 2 then
      var (v, rest) := ReadValue(s[2..]);
      ([DecodeChar(s[1])] + v, rest)
    else
      var (v, rest) := ReadValue(s[1..]);
      ([s[0]] + v, rest)
  }

  function ReadPairs(s: string): seq<Entry<string>>
    decreases |s|
  {
    var key := ReadUntil(s, '=');
    if |key| + 2 > |s| then []
    else
      var (value, rest) := ReadValue(s[|key| + 2..]);
      [Entry(key, value)] + if rest != [] && rest[0] == ',' then ReadPairs(rest[1..]) else []
  }

  function ReadKey(s: string): (string, seq<Entry<string>>) {
    var name := ReadUntil(s, '{');
    (name, if |name| == |s| then [] else ReadPairs(s[|name| + 1..]))
  }

  // ----- the round trip -----

  /** Metric and label names. */
  predicate Identifier(s: string) {
    forall i :: 0 <= i < |s| ==> 'a' <= s[i] <= 'z' || 'A' <= s[i] <= 'Z' || '0' <= s[i] <= '9' || s[i] == '_' || s[i] == ':'
  }

  ghost predicate Named(labels: seq<Label>) {
    DistinctKeys(labels) && forall l :: l in labels ==> Identifier(l.key)
  }

  function EscapeChar(c: char): string {
    if c == '\\' then "\\\\" else if c == '"' then "\\\"" else if c == '\n' then "\\n" else [c]
  }

  function OnePass(s: string): string {
    if s == [] then [] else EscapeChar(s[0]) + OnePass(s[1..])
  }

  lemma PassesConcat(s: string, t: string)
    ensures Passes(s + t) == Passes(s) + Passes(t)
  {
    hide ReplaceAll;
    ReplaceAllConcat(s, t, '\\', "\\\\");
    var s1, t1 := ReplaceAll(s, '\\', "\\\\"), ReplaceAll(t, '\\', "\\\\");
    ReplaceAllConcat(s1, t1, '"', "\\\"");
    ReplaceAllConcat(ReplaceAll(s1, '"', "\\\""), ReplaceAll(t1, '"', "\\\""), '\n', "\\n");
  }

  lemma PassesSingle(c: char)
    ensures Passes([c]) == EscapeChar(c)
  {
    hide ReplaceAll;
    var first := Pass([c], c, '\\', "\\\\");
    var second := Pass(first, c, '"', "\\\"");
    var third := Pass(second, c, '\n', "\\n");
  }

  lemma {:induction false} PassesAreOnePass(s: string)
    ensures Passes(s) == OnePass(s)
  {
    if s != [] {
      assert s == [s[0]] + s[1..];
      PassesConcat([s[0]], s[1..]);
      PassesSingle(s[0]);
      PassesAreOnePass(s[1..]);
    }
  }

  lemma {:induction false} ReadValueBack(v: string, rest: string)
    ensures ReadValue(OnePass(v) + "\"" + rest) == (v, rest)
  {
    if v == [] {
      assert (OnePass(v) + "\"" + rest)[1..] == rest;
    } else {
      var tail := OnePass(v[1..]) + "\"" + rest;
      ReadValueBack(v[1..], rest);
      ReadChar(v[0], tail);
      assert OnePass(v) + "\"" + rest == EscapeChar(v[0]) + tail;
      assert v == [v[0]] + v[1..];
    }
  }

  lemma ReadChar(c: char, tail: string)
    ensures var (v, rest) := ReadValue(tail); ReadValue(EscapeChar(c) + tail) == ([c] + v, rest)
  {
    var s := EscapeChar(c) + tail;
    assert s[|EscapeChar(c)|..] == tail;
    if c == '\\' || c == '"' || c == '\n' {
      assert |s| >= 2 && s[0] == '\\' && DecodeChar(s[1]) == c;
    } else {
      assert s[0] == c;
    }
  }

  lemma {:induction false} ReadUntilStop(s: string, stop: char, rest: string)
    requires stop !in s
    ensures ReadUntil(s + [stop] + rest, stop) == s
  {
    if s != [] {
      assert (s + [stop] + rest)[1..] == s[1..] + [stop] + rest;
      ReadUntilStop(s[1..], stop, rest);
    }
  }

  lemma {:induction false} ReadUntilEnd(s: string, stop: char)
    requires stop !in s
    ensures ReadUntil(s, stop) == s
  {
    if s != [] {
      ReadUntilEnd(s[1..], stop);
    }
  }

  /** The labels with their values as `String(value ?? 'unknown')` makes them. */
  function Values(labels: seq<Label>): seq<Entry<string>> {
    if labels == [] then [] else [Entry(labels[0].key, labels[0].value.GetOr("unknown"))] + Values(labels[1..])
  }

  lemma IdentifierHas(s: string, c: char)
    requires Identifier(s) && c in ['=', '{']
    ensures c !in s
  {}

  lemma ReadPair(l: Label, rest: string)
    requires Identifier(l.key)
    ensures var s := PrintPair(l) + rest;
      && ReadUntil(s, '=') == l.key && |l.key| + 2 <= |s|
      && ReadValue(s[|l.key| + 2..]) == (l.value.GetOr("unknown"), rest)
  {
    var v := l.value.GetOr("unknown");
    hide ReadValue, ReadUntil, OnePass, Identifier;
    assert '=' !in l.key by { IdentifierHas(l.key, '='); }
    PassesAreOnePass(v);
    ReadValueBack(v, rest);
    var tail := OnePass(v) + "\"" + rest;
    assert PrintPair(l) + rest == l.key + ['='] + ("\"" + tail);
    ReadUntilStop(l.key, '=', "\"" + tail);
    assert (PrintPair(l) + rest)[|l.key| + 2..] == tail;
  }

  lemma {:induction false} ReadOnePair(l: Label, rest: string)
    requires Identifier(l.key)
    ensures ReadPairs(PrintPair(l) + rest) ==
      [Entry(l.key, l.value.GetOr("unknown"))] + if rest != [] && rest[0] == ',' then ReadPairs(rest[1..]) else []
  {
    hide PrintPair, ReadValue, ReadUntil, Identifier;
    ReadPair(l, rest);
  }

  lemma {:induction false} ReadPairsBack(labels: seq<Label>)
    requires labels != [] && forall l :: l in labels ==> Identifier(l.key)
    ensures ReadPairs(Join(labels) + "}") == Values(labels)
    decreases |labels|
  {
    hide PrintPair, ReadPairs, Identifier;
    if |labels| == 1 {
      ReadOnePair(labels[0], "}");
      assert Values(labels[1..]) == [];
    } else {
      var rest := "," + (Join(labels[1..]) + "}");
      ReadOnePair(labels[0], rest);
      assert Join(labels) + "}" == PrintPair(labels[0]) + rest;
      assert rest[1..] == Join(labels[1..]) + "}";
      ReadPairsBack(labels[1..]);
    }
  }

  /** The key can be read back: the name, and the labels sorted, with their values as text. */
  lemma {:induction false} KeyRoundTrip(name: string, labels: seq<Label>)
    requires Identifier(name) && Named(labels)
    ensures ReadKey(KeyFor(name, labels)) == (name, Values(Sort(labels, LexBefore)))
  {
    var entries := Sort(labels, LexBefore);
    SortKeeps(labels, LexBefore);
    if entries == [] {
      ReadUntilEnd(name, '{');
      assert name + "" == name;
    } else {
      var inside := Join(entries) + "}";
      assert KeyFor(name, labels) == name + ['{'] + inside;
      ReadUntilStop(name, '{', inside);
      assert (name + ['{'] + inside)[|name| + 1..] == inside;
      assert forall l :: l in entries ==> l in labels;
      ReadPairsBack(entries);
    }
  }

  lemma {:induction false} ValuesAt(labels: seq<Label>)
    ensures |Values(labels)| == |labels|
    ensures forall i :: 0 <= i < |labels| ==> Values(labels)[i] == Entry(labels[i].key, labels[i].value.GetOr("unknown"))
  {
    if labels != [] {
      ValuesAt(labels[1..]);
    }
  }

  lemma {:induction false} JoinReadsValues(labels: seq<Label>, other: seq<Label>)
    requires Values(labels) == Values(other)
    ensures Join(labels) == Join(other)
    decreases |labels|
  {
    ValuesAt(labels);
    ValuesAt(other);
    if labels != [] {
      assert Values(labels)[0] == Values(other)[0];
      assert Values(labels)[1..] == Values(labels[1..]) && Values(other)[1..] == Values(other[1..]);
      JoinReadsValues(labels[1..], other[1..]);
    }
  }

  /** The texts of a list with the same entries are the same entries. */
  lemma SortedValues(labels: seq<Label>)
    requires DistinctKeys(labels)
    ensures var v := Values(Sort(labels, LexBefore)); LexSorted(v) && SameEntries(v, Values(labels))
  {
    var sorted := Sort(labels, LexBefore);
    SortKeeps(labels, LexBefore);
    SortSorts(labels);
    ValuesAt(sorted);
    ValuesAt(labels);
    forall e ensures e in Values(sorted) <==> e in Values(labels) {
      if e in Values(sorted) {
        var i :| 0 <= i < |sorted| && Values(sorted)[i] == e;
        assert sorted[i] in labels;
        var j :| 0 <= j < |labels| && labels[j] == sorted[i];
        assert Values(labels)[j] == e;
      }
      if e in Values(labels) {
        var i :| 0 <= i < |labels| && Values(labels)[i] == e;
        assert labels[i] in sorted;
        var j :| 0 <= j < |sorted| && sorted[j] == labels[i];
        assert Values(sorted)[j] == e;
      }
    }
  }

  /** Two series share a key exactly when they have the same name and the same label texts, in any order. */
  lemma KeyIff(name: string, labels: seq<Label>, name': string, labels': seq<Label>)
    requires Identifier(name) && Named(labels) && Identifier(name') && Named(labels')
    ensures KeyFor(name, labels) == KeyFor(name', labels') <==> name == name' && SameEntries(Values(labels), Values(labels'))
  {
    hide KeyFor, Sort, ReadKey, Identifier, LexBefore;
    var s, s' := Sort(labels, LexBefore), Sort(labels', LexBefore);
    SortedValues(labels);
    SortedValues(labels');
    if KeyFor(name, labels) == KeyFor(name', labels') {
      KeyRoundTrip(name, labels);
      KeyRoundTrip(name', labels');
      SameByMiddle(Values(labels), Values(s), Values(labels'));
    }
    if name == name' && SameEntries(Values(labels), Values(labels')) {
      SameByMiddle(Values(s), Values(labels), Values(labels'));
      SameByMiddle(Values(s), Values(labels'), Values(s'));
      SortedIsUnique(Values(s), Values(s'));
      KeyReadsValues(name, labels, labels');
    }
  }

  lemma SameByMiddle(a: seq<Entry<string>>, b: seq<Entry<string>>, c: seq<Entry<string>>)
    requires SameEntries(a, b) && SameEntries(b, c)
    ensures SameEntries(a, c)
  {
    forall e ensures e in a <==> e in c {
      assert e in a <==> e in b;
    }
  }

  lemma KeyReadsValues(name: string, labels: seq<Label>, other: seq<Label>)
    requires Values(Sort(labels, LexBefore)) == Values(Sort(other, LexBefore))
    ensures KeyFor(name, labels) == KeyFor(name, other)
  {
    ValuesAt(Sort(labels, LexBefore));
    ValuesAt(Sort(other, LexBefore));
    JoinReadsValues(Sort(labels, LexBefore), Sort(other, LexBefore));
  }

  // ----- the registry -----

  datatype Call = Increment(key: string, value: int) | SetGauge(key: string, value: int)

  function Amount(key: string): Call -> int {
    (c: Call) => if c.Increment? && c.key == key then c.value else 0
  }

  ghost predicate Counted(calls: seq<Call>, key: string) {
    exists i :: 0 <= i < |calls| && calls[i].Increment? && calls[i].key == key
  }

  /** The value of the last `setGauge` of that key. */
  ghost function LastSet(calls: seq<Call>, key: string): Option<int> {
    if calls == [] then None
    else if calls[|calls| - 1].SetGauge? && calls[|calls| - 1].key == key then Some(calls[|calls| - 1].value)
    else LastSet(calls[..|calls| - 1], key)
  }

  /** `history` is the sequence of calls so far; amounts are in the smallest unit that is counted. */
  class Registry {
    var counters: map<string, int>
    var gauges: map<string, int>
    ghost var history: seq<Call>

    /** Each counter is the sum of its increments, each gauge its last set value. */
    ghost predicate Valid()
      reads this
    {
      && (forall k :: k in counters <==> Counted(history, k))
      && (forall k :: k in counters ==> counters[k] == SeqSum(history, Amount(k)))
      && forall k :: LastSet(history, k) == if k in gauges then Some(gauges[k]) else None
    }

    constructor ()
      ensures Valid() && history == []
    {
      counters, gauges, history := map[], map[], [];
    }

    method Increment(name: string, labels: seq<Label>, value: int)
      requires Valid()
      modifies this
      ensures Valid() && history == old(history) + [Call.Increment(KeyFor(name, labels), value)]
    {
      hide KeyFor, SeqSum, Counted;
      var key := KeyFor(name, labels);
      ghost var call := Call.Increment(key, value);
      forall k { Append(history, call, k); }
      counters := counters[key := (if key in counters then counters[key] else 0) + value];
      history := history + [call];
    }

    method SetGauge(name: string, labels: seq<Label>, value: int)
      requires Valid()
      modifies this
      ensures Valid() && history == old(history) + [Call.SetGauge(KeyFor(name, labels), value)]
    {
      hide KeyFor, SeqSum, Counted;
      var key := KeyFor(name, labels);
      ghost var call := Call.SetGauge(key, value);
      forall k { Append(history, call, k); }
      gauges := gauges[key := value];
      history := history + [call];
    }
  }

  /** What one more call means for the three readings of the history. */
  lemma Append(before: seq<Call>, call: Call, k: string)
    ensures Counted(before + [call], k) <==> Counted(before, k) || (call.Increment? && call.key == k)
    ensures SeqSum(before + [call], Amount(k)) == SeqSum(before, Amount(k)) + if call.Increment? && call.key == k then call.value else 0
    ensures !Counted(before, k) ==> SeqSum(before, Amount(k)) == 0
    ensures LastSet(before + [call], k) == if call.SetGauge? && call.key == k then Some(call.value) else LastSet(before, k)
  {
    var after := before + [call];
    assert after[|before|] == call && after[..|before|] == before;
    if Counted(before, k) {
      var i :| 0 <= i < |before| && before[i].Increment? && before[i].key == k;
      assert after[i] == before[i];
    }
    SeqSumLast(before, call, Amount(k));
    NotCountedIsZero(before, k);
  }

  lemma {:induction false} NotCountedIsZero(calls: seq<Call>, key: string)
    ensures !Counted(calls, key) ==> SeqSum(calls, Amount(key)) == 0
    decreases |calls|
  {
    if calls != [] && !Counted(calls, key) {
      var n := |calls| - 1;
      assert !(calls[n].Increment? && calls[n].key == key);
      forall i | 0 <= i < n ensures !(calls[..n][i].Increment? && calls[..n][i].key == key) {
        assert calls[..n][i] == calls[i];
      }
      NotCountedIsZero(calls[..n], key);
    }
  }
}
