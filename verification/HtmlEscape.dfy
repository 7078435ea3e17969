/** Escaping text for HTML: five replacements in a row. */
module HtmlEscape {
  import opened Text

  /** Rust's `value.replace(c, by)`. */
  function Replace(value: string, c: char, into: string): string {
    if value == [] then []
    else (if value[0] == c then into else [value[0]]) + Replace(value[1..], c, into)
  }

  function HtmlEscape(value: string): string {
    Replace(Replace(Replace(Replace(Replace(value,
      '&', "&amp;"), '<', "&lt;"), '>', "&gt;"), '\"', "&quot;"), '\'', "&#39;")
  }

  // ---- the reference: one pass, one character at a time ---------------------------------

  function Entity(c: char): string {
    match c
    case '&' => "&amp;"
    case '<' => "&lt;"
    case '>' => "&gt;"
    case '\"' => "&quot;"
    case '\'' => "&#39;"
    case _ => [c]
  }

  function EscapeEach(value: string): string {
    if value == [] then [] else Entity(value[0]) + EscapeEach(value[1..])
  }

  lemma {:induction false} ReplaceConcat(a: string, b: string, c: char, into: string)
    ensures Replace(a + b, c, into) == Replace(a, c, into) + Replace(b, c, into)
  {
    if a == [] {
      assert a + b == b;
    } else {
      ReplaceConcat(a[1..], b, c, into);
      ReplaceHead(a, c, into);
      ReplaceHead(a + b, c, into);
      hide Replace;
      assert (a + b)[0] == a[0] && (a + b)[1..] == a[1..] + b;
      Associative(if a[0] == c then into else [a[0]], Replace(a[1..], c, into), Replace(b, c, into));
    }
  }

  lemma ReplaceHead(s: string, c: char, into: string)
    requires s != []
    ensures Replace(s, c, into) == (if s[0] == c then into else [s[0]]) + Replace(s[1..], c, into)
  {
  }

  lemma Associative(a: string, b: string, c: string)
    ensures (a + b) + c == a + (b + c)
  {
  }

  lemma {:induction false} ReplaceAbsent(value: string, c: char, into: string)
    requires c !in value
    ensures Replace(value, c, into) == value
  {
    if value != [] {
      ReplaceAbsent(value[1..], c, into);
    }
  }

  lemma ReplaceOne(c: char, into: string)
    ensures Replace([c], c, into) == into
  {
    assert [c][1..] == [];
  }

  /** The replacements after the first, and so on. */
  function From2(value: string): string { From3(Replace(value, '<', "&lt;")) }
  function From3(value: string): string { From4(Replace(value, '>', "&gt;")) }
  function From4(value: string): string { From5(Replace(value, '\"', "&quot;")) }
  function From5(value: string): string { Replace(value, '\'', "&#39;") }

  lemma From4Keeps(s: string)
    requires '\"' !in s && '\'' !in s
    ensures From4(s) == s
  {
    ReplaceAbsent(s, '\"', "&quot;");
    ReplaceAbsent(s, '\'', "&#39;");
  }

  lemma From2Keeps(s: string)
    requires '<' !in s && '>' !in s && '\"' !in s && '\'' !in s
    ensures From2(s) == s
  {
    ReplaceAbsent(s, '<', "&lt;");
    ReplaceAbsent(s, '>', "&gt;");
    From4Keeps(s);
  }

  /** The five replacements act on one character as the table does: no replacement
      touches what an earlier one wrote. */
  lemma EscapeOne(c: char)
    ensures HtmlEscape([c]) == Entity(c)
  {
    hide Replace, From2, From4;
    assert HtmlEscape([c]) == From2(Replace([c], '&', "&amp;")) by { UnfoldChain([c]); }
    ReplaceOne(c, Entity(c));
    if c == '&' {
      From2Keeps("&amp;");
    } else {
      ReplaceAbsent([c], '&', "&amp;");
      LaterStages(c);
    }
  }

  lemma UnfoldChain(s: string)
    ensures HtmlEscape(s) == From2(Replace(s, '&', "&amp;"))
  {
  }

  lemma LaterStages(c: char)
    requires c != '&'
    ensures From2([c]) == Entity(c)
  {
    hide Replace, From4;
    ReplaceOne(c, Entity(c));
    if c == '<' {
      ReplaceAbsent("&lt;", '>', "&gt;");
      From4Keeps("&lt;");
    } else {
      ReplaceAbsent([c], '<', "&lt;");
      if c == '>' {
        From4Keeps("&gt;");
      } else {
        ReplaceAbsent([c], '>', "&gt;");
        LastStages(c);
      }
    }
  }

  lemma LastStages(c: char)
    requires c !in {'&', '<', '>'}
    ensures From4([c]) == Entity(c)
  {
    hide Replace;
    ReplaceOne(c, Entity(c));
    if c == '\"' {
      ReplaceAbsent("&quot;", '\'', "&#39;");
    } else {
      ReplaceAbsent([c], '\"', "&quot;");
      if c != '\'' {
        ReplaceAbsent([c], '\'', "&#39;");
      }
    }
  }

  lemma HtmlEscapeConcat(a: string, b: string)
    ensures HtmlEscape(a + b) == HtmlEscape(a) + HtmlEscape(b)
  {
    ReplaceConcat(a, b, '&', "&amp;");
    var a1, b1 := Replace(a, '&', "&amp;"), Replace(b, '&', "&amp;");
    ReplaceConcat(a1, b1, '<', "&lt;");
    var a2, b2 := Replace(a1, '<', "&lt;"), Replace(b1, '<', "&lt;");
    ReplaceConcat(a2, b2, '>', "&gt;");
    var a3, b3 := Replace(a2, '>', "&gt;"), Replace(b2, '>', "&gt;");
    ReplaceConcat(a3, b3, '\"', "&quot;");
    var a4, b4 := Replace(a3, '\"', "&quot;"), Replace(b3, '\"', "&quot;");
    ReplaceConcat(a4, b4, '\'', "&#39;");
  }

  lemma {:induction false} ChainIsSinglePass(value: string)
    ensures HtmlEscape(value) == EscapeEach(value)
  {
    if value != [] {
      assert value == [value[0]] + value[1..];
      HtmlEscapeConcat([value[0]], value[1..]);
      EscapeOne(value[0]);
      ChainIsSinglePass(value[1..]);
    }
  }

  // ---- decoding ---------------------------------------------------------------------------

  function Decode(s: string): string
    decreases |s|
  {
    if s == [] then []
    else if HasPrefix(s, "&amp;") then "&" + Decode(s[5..])
    else if HasPrefix(s, "&lt;") then "<" + Decode(s[4..])
    else if HasPrefix(s, "&gt;") then ">" + Decode(s[4..])
    else if HasPrefix(s, "&quot;") then "\"" + Decode(s[6..])
    else if HasPrefix(s, "&#39;") then "\'" + Decode(s[5..])
    else [s[0]] + Decode(s[1..])
  }

  lemma DecodeEntity(c: char, rest: string)
    ensures Decode(Entity(c) + rest) == [c] + Decode(rest)
  {
    var e := Entity(c);
    assert (e + rest)[..|e|] == e && (e + rest)[|e|..] == rest;
    OtherEntity(e, rest, "&amp;");
    OtherEntity(e, rest, "&lt;");
    OtherEntity(e, rest, "&gt;");
    OtherEntity(e, rest, "&quot;");
    OtherEntity(e, rest, "&#39;");
    hide HasPrefix;
  }

  /** The second character tells the entities apart. */
  lemma OtherEntity(e: string, rest: string, other: string)
    requires |other| > 1 && |e| > 0
    ensures HasPrefix(e + rest, other) ==> e[0] == other[0] && (|e| == 1 || e[1] == other[1])
    ensures e == other ==> HasPrefix(e + rest, other)
  {
    var s := e + rest;
    assert s[0] == e[0] && (|e| > 1 ==> s[1] == e[1]);
    if HasPrefix(s, other) {
      assert s[..|other|][0] == other[0] && s[..|other|][1] == other[1];
    }
    if e == other {
      assert s[..|other|] == other;
    }
  }

  /** Escaping loses nothing. */
  lemma {:induction false} DecodeRecovers(value: string)
    ensures Decode(HtmlEscape(value)) == value
  {
    ChainIsSinglePass(value);
    if value != [] {
      DecodeRecovers(value[1..]);
      ChainIsSinglePass(value[1..]);
      DecodeEntity(value[0], EscapeEach(value[1..]));
    }
  }

  lemma EscapingIsInjective(a: string, b: string)
    requires HtmlEscape(a) == HtmlEscape(b)
    ensures a == b
  {
    DecodeRecovers(a);
    DecodeRecovers(b);
  }

  ghost predicate BeginsEntity(s: string) {
    exists c :: c in {'&', '<', '>', '\"', '\''} && HasPrefix(s, Entity(c))
  }

  ghost predicate Inert(s: string) {
    && (forall c :: c in s ==> c !in {'<', '>', '\"', '\''})
    && (forall i :: 0 <= i < |s| && s[i] == '&' ==> BeginsEntity(s[i..]))
  }

  lemma EntityShape(c: char)
    ensures Entity(c) != [] && (Entity(c)[0] == '&' ==> c in {'&', '<', '>', '\"', '\''})
    ensures forall i :: 0 < i < |Entity(c)| ==> Entity(c)[i] != '&'
    ensures forall x :: x in Entity(c) ==> x !in {'<', '>', '\"', '\''}
  {
  }

  lemma EntityThenInert(c: char, rest: string)
    requires Inert(rest)
    ensures Inert(Entity(c) + rest)
  {
    EntityShape(c);
    hide Entity;
    var e := Entity(c);
    var s := e + rest;
    forall x | x in s ensures x !in {'<', '>', '\"', '\''} {
      assert x in e || x in rest;
    }
    forall i | 0 <= i < |s| && s[i] == '&' ensures BeginsEntity(s[i..]) {
      if i == 0 {
        assert s[0..][..|e|] == e;
        assert HasPrefix(s[0..], Entity(c));
      } else {
        assert rest[i - |e|] == '&';
        assert s[i..] == rest[i - |e|..];
      }
    }
  }

  /** Escaped text has no character that HTML would read as markup or as the end of an
      attribute, and every ampersand begins one of the five entities. */
  lemma {:induction false} EscapedIsInert(value: string)
    ensures Inert(HtmlEscape(value))
  {
    ChainIsSinglePass(value);
    if value != [] {
      EscapedIsInert(value[1..]);
      ChainIsSinglePass(value[1..]);
      EntityThenInert(value[0], EscapeEach(value[1..]));
    }
  }
}
