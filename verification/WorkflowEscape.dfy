/** `escapeWorkflowCommand`: five `replaceAll` passes, one after another. */
module WorkflowEscape {
  import opened Text

  function Escape(s: string): string {
    ReplaceAll(ReplaceAll(ReplaceAll(ReplaceAll(ReplaceAll(s, '%', "%25"), '\r', "%0D"), '\n', "%0A"), ':', "%3A"), ',', "%2C")
  }

  /** The same escaping in one pass. */
  function EscapeChar(c: char): string {
    match c
    case '%' => "%25"
    case '\r' => "%0D"
    case '\n' => "%0A"
    case ':' => "%3A"
    case ',' => "%2C"
    case _ => [c]
  }

  function OnePass(s: string): string {
    if s == [] then [] else EscapeChar(s[0]) + OnePass(s[1..])
  }

  function DecodePair(a: char, b: char): char {
    if a == '2' && b == '5' then '%'
    else if a == '0' && b == 'D' then '\r'
    else if a == '0' && b == 'A' then '\n'
    else if a == '3' then ':'
    else ','
  }

  /** Reads an escaped text back. */
  function Unescape(s: string): string {
    if s == [] then []
    else if s[0] == '%' && |s| >= 3 then [DecodePair(s[1], s[2])] + Unescape(s[3..])
    else [s[0]] + Unescape(s[1..])
  }

  lemma EscapeConcat(s: string, t: string)
    ensures Escape(s + t) == Escape(s) + Escape(t)
  {
    hide ReplaceAll;
    ReplaceAllConcat(s, t, '%', "%25");
    var s1, t1 := ReplaceAll(s, '%', "%25"), ReplaceAll(t, '%', "%25");
    ReplaceAllConcat(s1, t1, '\r', "%0D");
    var s2, t2 := ReplaceAll(s1, '\r', "%0D"), ReplaceAll(t1, '\r', "%0D");
    ReplaceAllConcat(s2, t2, '\n', "%0A");
    var s3, t3 := ReplaceAll(s2, '\n', "%0A"), ReplaceAll(t2, '\n', "%0A");
    ReplaceAllConcat(s3, t3, ':', "%3A");
    ReplaceAllConcat(ReplaceAll(s3, ':', "%3A"), ReplaceAll(t3, ':', "%3A"), ',', "%2C");
  }

  /** Later passes do not touch what an earlier pass wrote. */
  lemma EscapeSingle(c: char)
    ensures Escape([c]) == EscapeChar(c)
  {
    hide ReplaceAll;
    var first := Pass([c], c, '%', "%25");
    var second := Pass(first, c, '\r', "%0D");
    var third := Pass(second, c, '\n', "%0A");
    var fourth := Pass(third, c, ':', "%3A");
    var fifth := Pass(fourth, c, ',', "%2C");
  }

  lemma {:induction false} EscapeIsOnePass(s: string)
    ensures Escape(s) == OnePass(s)
  {
    if s != [] {
      assert s == [s[0]] + s[1..];
      EscapeConcat([s[0]], s[1..]);
      EscapeSingle(s[0]);
      EscapeIsOnePass(s[1..]);
    }
  }

  lemma {:induction false} UnescapeOnePass(s: string)
    ensures Unescape(OnePass(s)) == s
  {
    if s != [] {
      var e, rest := EscapeChar(s[0]), OnePass(s[1..]);
      UnescapeOnePass(s[1..]);
      if |e| == 3 {
        assert (e + rest)[3..] == rest;
      } else {
        assert (e + rest)[1..] == rest;
      }
    }
  }

  lemma {:induction false} OnePassIsSafe(s: string)
    ensures forall c :: c in OnePass(s) ==> c != '\r' && c != '\n' && c != ':' && c != ','
  {
    if s != [] {
      OnePassIsSafe(s[1..]);
    }
  }

  /** The five passes lose nothing, and leave none of the characters that structure a workflow command. */
  lemma EscapeRoundTrip(s: string)
    ensures Unescape(Escape(s)) == s
    ensures forall c :: c in Escape(s) ==> c != '\r' && c != '\n' && c != ':' && c != ','
  {
    EscapeIsOnePass(s);
    UnescapeOnePass(s);
    OnePassIsSafe(s);
  }

  lemma EscapeIsInjective(s: string, t: string)
    requires Escape(s) == Escape(t)
    ensures s == t
  {
    EscapeRoundTrip(s);
    EscapeRoundTrip(t);
  }
}
