/** The string operations that the services normalise with, on ASCII text. */
module Text {
  predicate Space(c: char) {
    c == ' ' || c == '\t' || c == '\n' || c == '\r' || c == 11 as char || c == 12 as char
  }

  function UpperChar(c: char): char {
    if 'a' <= c <= 'z' then (c as int - 32) as char else c
  }

  function LowerChar(c: char): char {
    if 'A' <= c <= 'Z' then (c as int + 32) as char else c
  }

  function Upper(s: string): (r: string)
    ensures |r| == |s|
  {
    seq(|s|, i requires 0 <= i < |s| => UpperChar(s[i]))
  }

  function Lower(s: string): (r: string)
    ensures |r| == |s|
  {
    seq(|s|, i requires 0 <= i < |s| => LowerChar(s[i]))
  }

  function TrimStart(s: string): string {
    if s != [] && Space(s[0]) then TrimStart(s[1..]) else s
  }

  function TrimEnd(s: string): string {
    if s != [] && Space(s[|s| - 1]) then TrimEnd(s[..|s| - 1]) else s
  }

  function Trim(s: string): string {
    TrimEnd(TrimStart(s))
  }

  /** `replace(/\s+/g, ' ')`: every run of white space becomes one blank. */
  function Collapse(s: string): string {
    if s == [] then []
    else if !Space(s[|s| - 1]) then Collapse(s[..|s| - 1]) + [s[|s| - 1]]
    else if |s| >= 2 && Space(s[|s| - 2]) then Collapse(s[..|s| - 1])
    else Collapse(s[..|s| - 1]) + [' ']
  }

  /** No white space at either end. */
  ghost predicate Trimmed(s: string) {
    s == [] || (!Space(s[0]) && !Space(s[|s| - 1]))
  }

  lemma {:induction false} TrimStartTrims(s: string)
    ensures var r := TrimStart(s); r == [] || (!Space(r[0]) && r[|r| - 1] == s[|s| - 1])
    ensures s != [] && !Space(s[|s| - 1]) ==> TrimStart(s) != []
    decreases |s|
  {
    if s != [] && Space(s[0]) {
      TrimStartTrims(s[1..]);
    }
  }

  lemma {:induction false} TrimEndTrims(s: string)
    ensures var r := TrimEnd(s); r == [] || (!Space(r[|r| - 1]) && r[0] == s[0])
    decreases |s|
  {
    if s != [] && Space(s[|s| - 1]) {
      TrimEndTrims(s[..|s| - 1]);
    }
  }

  lemma TrimTrims(s: string)
    ensures Trimmed(Trim(s))
  {
    TrimStartTrims(s);
    TrimEndTrims(TrimStart(s));
  }

  lemma TrimKeepsTrimmed(s: string)
    requires Trimmed(s)
    ensures Trim(s) == s
  {}

  lemma TrimTwice(s: string)
    ensures Trim(Trim(s)) == Trim(s)
  {
    TrimTrims(s);
    TrimKeepsTrimmed(Trim(s));
  }

  lemma LowerKeepsTrimmed(s: string)
    requires Trimmed(s)
    ensures Trimmed(Lower(s)) && Lower(Lower(s)) == Lower(s)
  {}

  lemma UpperKeepsTrimmed(s: string)
    requires Trimmed(s)
    ensures Trimmed(Upper(s))
  {}

  /** Collapsed text has single blanks as its only white space. */
  ghost predicate Collapsed(s: string) {
    && (forall i :: 0 <= i < |s| && Space(s[i]) ==> s[i] == ' ')
    && forall i :: 0 < i < |s| && Space(s[i]) ==> !Space(s[i - 1])
  }

  lemma {:induction false} CollapseCollapses(s: string)
    ensures Collapsed(Collapse(s))
    ensures s == [] <==> Collapse(s) == []
    ensures s != [] ==> (Space(Collapse(s)[|Collapse(s)| - 1]) <==> Space(s[|s| - 1]))
    ensures s != [] && !Space(s[0]) ==> Collapse(s)[0] == s[0]
    decreases |s|
  {
    if s != [] {
      CollapseCollapses(s[..|s| - 1]);
    }
  }

  lemma {:induction false} CollapseKeepsCollapsed(s: string)
    requires Collapsed(s)
    ensures Collapse(s) == s
    decreases |s|
  {
    if s != [] {
      CollapseKeepsCollapsed(s[..|s| - 1]);
    }
  }

  lemma {:induction false} CollapseKeepsUpper(s: string)
    requires Upper(s) == s
    ensures Upper(Collapse(s)) == Collapse(s)
    decreases |s|
  {
    if s != [] {
      assert forall i :: 0 <= i < |s| ==> Upper(s)[i] == UpperChar(s[i]);
      CollapseKeepsUpper(s[..|s| - 1]);
    }
  }

  lemma UpperTwice(s: string)
    ensures Upper(Upper(s)) == Upper(s)
  {}

  /** White space is the blank and the five control characters from tab to carriage return. */
  lemma {:induction false} SpaceMeans(c: char)
    ensures Space(c) <==> c as int == 32 || 9 <= c as int <= 13
  {}

  /** Case comes in two kinds, and each is undone by the other. */
  lemma {:induction false} CaseLaws(s: string)
    ensures forall c :: c in Upper(s) ==> !('a' <= c <= 'z')
    ensures forall c :: c in Lower(s) ==> !('A' <= c <= 'Z')
    ensures Lower(Upper(s)) == Lower(s) && Upper(Lower(s)) == Upper(s)
  {
    assert Lower(Upper(s)) == Lower(s) by {
      assert forall i :: 0 <= i < |s| ==> Lower(Upper(s))[i] == Lower(s)[i];
    }
    assert Upper(Lower(s)) == Upper(s) by {
      assert forall i :: 0 <= i < |s| ==> Upper(Lower(s))[i] == Upper(s)[i];
    }
  }

  ghost predicate Blank(s: string) {
    forall i :: 0 <= i < |s| ==> Space(s[i])
  }

  /** Trimming takes white space off both ends and nothing else. */
  lemma {:induction false} TrimMeans(s: string) returns (front: string, back: string)
    ensures s == front + Trim(s) + back && Blank(front) && Blank(back) && Trimmed(Trim(s))
  {
    TrimTrims(s);
    front := TakenOffFront(s);
    back := TakenOffBack(TrimStart(s));
  }

  lemma {:induction false} TakenOffFront(s: string) returns (front: string)
    ensures s == front + TrimStart(s) && Blank(front)
  {
    if s != [] && Space(s[0]) {
      front := TakenOffFront(s[1..]);
      front := [s[0]] + front;
    } else {
      front := [];
    }
  }

  lemma {:induction false} TakenOffBack(s: string) returns (back: string)
    ensures s == TrimEnd(s) + back && Blank(back)
    decreases |s|
  {
    if s != [] && Space(s[|s| - 1]) {
      back := TakenOffBack(s[..|s| - 1]);
      back := back + [s[|s| - 1]];
    } else {
      back := [];
    }
  }

  // ----- words -----

  /** The longest runs of characters that are not white space. */
  function Words(s: string): (r: seq<string>)
    ensures s != [] && !Space(s[|s| - 1]) ==> r != []
  {
    if s == [] then []
    else
      var before, c := s[..|s| - 1], s[|s| - 1];
      if Space(c) then Words(before)
      else if before == [] || Space(before[|before| - 1]) then Words(before) + [[c]]
      else
        var words := Words(before);
        words[..|words| - 1] + [words[|words| - 1] + [c]]
  }

  function Spaced(words: seq<string>): string {
    if words == [] then ""
    else if |words| == 1 then words[0]
    else Spaced(words[..|words| - 1]) + " " + words[|words| - 1]
  }

  lemma {:induction false} WordsSkipFront(c: char, s: string)
    requires Space(c)
    ensures Words([c] + s) == Words(s)
    decreases |s|
  {
    if s == [] {
      assert ([c] + s)[..0] == [];
    } else {
      WordsSkipFront(c, s[..|s| - 1]);
      assert ([c] + s)[..|[c] + s| - 1] == [c] + s[..|s| - 1];
    }
  }

  lemma {:induction false} WordsOfTrimmed(s: string)
    ensures Words(TrimStart(s)) == Words(s) && Words(TrimEnd(s)) == Words(s)
  {
    WordsOfTrimStart(s);
    WordsOfTrimEnd(s);
  }

  lemma {:induction false} WordsOfTrimStart(s: string)
    ensures Words(TrimStart(s)) == Words(s)
  {
    if s != [] && Space(s[0]) {
      WordsOfTrimStart(s[1..]);
      WordsSkipFront(s[0], s[1..]);
      assert s == [s[0]] + s[1..];
    }
  }

  lemma {:induction false} WordsOfTrimEnd(s: string)
    ensures Words(TrimEnd(s)) == Words(s)
    decreases |s|
  {
    if s != [] && Space(s[|s| - 1]) {
      WordsOfTrimEnd(s[..|s| - 1]);
    }
  }

  /** Collapsing keeps the words, with one blank after each but the last. */
  lemma {:induction false} CollapseIsSpaced(s: string)
    requires s == [] || !Space(s[0])
    ensures Collapse(s) == Spaced(Words(s)) + if s != [] && Space(s[|s| - 1]) then " " else ""
    ensures s != [] ==> Words(s) != []
    decreases |s|
  {
    if s != [] {
      var before, c := s[..|s| - 1], s[|s| - 1];
      CollapseIsSpaced(before);
      var words := Words(before);
      if !Space(c) {
        if before == [] {
          assert Words(s) == [[c]];
        } else if Space(before[|before| - 1]) {
          assert (words + [[c]])[..|words|] == words;
        } else {
          var n := |words| - 1;
          var more := words[..n] + [words[n] + [c]];
          assert more[..n] == words[..n];
          assert Spaced(more) == Spaced(words) + [c];
        }
      }
    }
  }

  // ----- replaceAll of one character -----

  function ReplaceAll(s: string, c: char, with: string): string {
    if s == [] then []
    else ReplaceAll(s[..|s| - 1], c, with) + if s[|s| - 1] == c then with else [s[|s| - 1]]
  }

  lemma {:induction false} ReplaceAllConcat(s: string, t: string, c: char, with: string)
    ensures ReplaceAll(s + t, c, with) == ReplaceAll(s, c, with) + ReplaceAll(t, c, with)
    decreases |t|
  {
    if t == [] {
      assert s + t == s;
    } else {
      ReplaceAllConcat(s, t[..|t| - 1], c, with);
      assert (s + t)[..|s + t| - 1] == s + t[..|t| - 1];
    }
  }

  lemma {:induction false} ReplaceAllAbsent(s: string, c: char, with: string)
    requires c !in s
    ensures ReplaceAll(s, c, with) == s
    decreases |s|
  {
    if s != [] {
      ReplaceAllAbsent(s[..|s| - 1], c, with);
    }
  }

  lemma ReplaceAllSingle(c: char, with: string)
    ensures ReplaceAll([c], c, with) == with
  {
    assert [c][..0] == [];
  }

  /** One pass over a single character, or over text that does not have the pattern. */
  lemma Pass(s: string, c: char, pattern: char, with: string) returns (r: string)
    requires s == [c] || pattern !in s
    ensures r == ReplaceAll(s, pattern, with)
    ensures r == if pattern in s then with else s
  {
    r := ReplaceAll(s, pattern, with);
    if pattern in s { ReplaceAllSingle(c, with); } else { ReplaceAllAbsent(s, pattern, with); }
  }
}
