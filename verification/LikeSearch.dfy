/** User search: the LIKE pattern of the SQLite store against the substring test of the
    memory store. */
module LikeSearch {
  import opened Text
  import opened CoreModel

  const ESCAPE: char := '\\'

  predicate IsSpecial(c: char) {
    c == '\\' || c == '%' || c == '_'
  }

  // ---- LIKE ... ESCAPE '\' as SQLite defines it: ASCII letters match in either case ----

  predicate SameLetter(a: char, b: char) {
    AsciiLowerChar(a) == AsciiLowerChar(b)
  }

  ghost predicate Like(pattern: string, text: string)
    decreases |pattern|
  {
    if pattern == [] then text == []
    else if pattern[0] == ESCAPE then
      |pattern| > 1 && text != [] && SameLetter(pattern[1], text[0]) && Like(pattern[2..], text[1..])
    else if pattern[0] == '%' then exists i :: 0 <= i <= |text| && Like(pattern[1..], text[i..])
    else if pattern[0] == '_' then text != [] && Like(pattern[1..], text[1..])
    else text != [] && SameLetter(pattern[0], text[0]) && Like(pattern[1..], text[1..])
  }

  // ---- escape_like ------------------------------------------------------------------------

  function Escaped(value: string): string {
    if value == [] then []
    else (if IsSpecial(value[0]) then [ESCAPE] else []) + [value[0]] + Escaped(value[1..])
  }

  lemma {:induction false} EscapedAppend(value: string, c: char)
    ensures Escaped(value + [c]) == Escaped(value) + (if IsSpecial(c) then [ESCAPE] else []) + [c]
  {
    if value != [] {
      EscapedAppend(value[1..], c);
      assert (value + [c])[1..] == value[1..] + [c];
    }
  }

  method EscapeLike(value: string) returns (escaped: string)
    ensures escaped == Escaped(value)
  {
    escaped := "";
    for i := 0 to |value|
      invariant escaped == Escaped(value[..i])
    {
      var c := value[i];
      assert value[..i + 1] == value[..i] + [c];
      EscapedAppend(value[..i], c);
      if IsSpecial(c) {
        escaped := escaped + [ESCAPE];
      }
      escaped := escaped + [c];
    }
    assert value[..|value|] == value;
  }

  // ---- what an escaped query matches ---------------------------------------------------------

  ghost predicate StartsWithFolded(text: string, q: string) {
    |q| <= |text| && AsciiLower(text[..|q|]) == AsciiLower(q)
  }

  lemma FoldedHead(text: string, q: string)
    requires q != []
    ensures StartsWithFolded(text, q)
       <==> text != [] && SameLetter(q[0], text[0]) && StartsWithFolded(text[1..], q[1..])
  {
    if |q| <= |text| {
      assert text[..|q|][1..] == text[1..][..|q| - 1];
      var a, b := AsciiLower(text[..|q|]), AsciiLower(q);
      assert a == [a[0]] + AsciiLower(text[1..][..|q| - 1]);
      assert b == [b[0]] + AsciiLower(q[1..]);
      assert a == b <==> a[0] == b[0] && a[1..] == b[1..];
    }
  }

  /** An escaped character at the head of a pattern matches that character. */
  lemma LiteralHead(c: char, tail: string, text: string)
    ensures Like((if IsSpecial(c) then [ESCAPE] else []) + [c] + tail, text)
       <==> text != [] && SameLetter(c, text[0]) && Like(tail, text[1..])
  {
    var pattern := (if IsSpecial(c) then [ESCAPE] else []) + [c] + tail;
    if IsSpecial(c) {
      assert pattern[0] == ESCAPE && pattern[1] == c && pattern[2..] == tail;
    } else {
      assert pattern[0] == c && pattern[1..] == tail;
    }
  }

  /** An escaped query at the head of a pattern consumes exactly itself. */
  lemma {:induction false} EscapedHead(q: string, rest: string, text: string)
    ensures Like(Escaped(q) + rest, text) <==> StartsWithFolded(text, q) && Like(rest, text[|q|..])
  {
    if q == [] {
      assert Escaped(q) + rest == rest;
      assert text[0..] == text;
    } else {
      hide Like;
      var tail := Escaped(q[1..]) + rest;
      assert Escaped(q) + rest == (if IsSpecial(q[0]) then [ESCAPE] else []) + [q[0]] + tail;
      FoldedHead(text, q);
      LiteralHead(q[0], tail, text);
      if text != [] {
        EscapedHead(q[1..], rest, text[1..]);
        if StartsWithFolded(text, q) {
          assert text[1..][|q| - 1..] == text[|q|..];
        }
      }
    }
  }

  lemma PercentMatchesAll(text: string)
    ensures Like("%", text)
  {
    assert Like("%"[1..], text[|text|..]);
  }

  lemma LowerOfSlice(text: string, i: nat, j: nat)
    requires i <= j <= |text|
    ensures AsciiLower(text)[i..j] == AsciiLower(text[i..j])
  {
    hide AsciiLower, AsciiLowerChar;
    var whole, part := AsciiLower(text), AsciiLower(text[i..j]);
    assert |part| == j - i;
    forall k | 0 <= k < j - i ensures whole[i..j][k] == part[k] {
      assert whole[i..j][k] == whole[i + k] && text[i..j][k] == text[i + k];
    }
  }

  lemma FoldedOccursAt(text: string, q: string, i: int)
    requires 0 <= i <= |text|
    ensures StartsWithFolded(text[i..], q) <==> OccursAt(AsciiLower(text), AsciiLower(q), i)
  {
    if i + |q| <= |text| {
      assert text[i..][..|q|] == text[i..i + |q|];
      LowerOfSlice(text, i, i + |q|);
    }
  }

  /** The pattern %escaped% matches exactly the texts that contain the query, letters
      compared as ASCII case folding does. */
  lemma LikeIsContains(q: string, text: string)
    ensures Like("%" + Escaped(q) + "%", text) <==> Contains(AsciiLower(text), AsciiLower(q))
  {
    var pattern := "%" + Escaped(q) + "%";
    assert pattern[1..] == Escaped(q) + "%";
    forall i | 0 <= i <= |text|
      ensures Like(pattern[1..], text[i..]) <==> OccursAt(AsciiLower(text), AsciiLower(q), i)
    {
      EscapedHead(q, "%", text[i..]);
      FoldedOccursAt(text, q, i);
      if StartsWithFolded(text[i..], q) {
        PercentMatchesAll(text[i..][|q|..]);
      }
    }
    if Contains(AsciiLower(text), AsciiLower(q)) {
      var i :| OccursAt(AsciiLower(text), AsciiLower(q), i);
      assert Like(pattern[1..], text[i..]);
    }
  }

  // ---- the two searches -------------------------------------------------------------------------

  /** The account fields a search looks at. SQLite stores the trimmed display name, and NULL
      for an empty e-mail; the memory store keeps the display name as given. */
  datatype User = User(email: string, displayName: string, status: string)

  /** The WHERE clause of `list_users_conn`; LIKE is never true of a NULL e-mail. */
  ghost predicate SqlFinds(u: User, filterQuery: string) {
    var query := AsciiLower(Trim(filterQuery));
    var pattern := "%" + Escaped(query) + "%";
    && u.status != "deleted"
    && (|| query == ""
        || (NormalizeEmail(u.email) != "" && Like(pattern, AsciiLower(NormalizeEmail(u.email))))
        || Like(pattern, AsciiLower(Trim(u.displayName))))
  }

  /** The filter of the memory store. */
  ghost predicate MemoryFinds(u: User, filterQuery: string) {
    var query := AsciiLower(Trim(filterQuery));
    && u.status != "deleted"
    && (query == "" || Contains(NormalizeEmail(u.email), query) || Contains(AsciiLower(u.displayName), query))
  }

  lemma {:induction false} LowerIsIdempotent(s: string)
    ensures AsciiLower(AsciiLower(s)) == AsciiLower(s)
  {
    if s != [] {
      LowerIsIdempotent(s[1..]);
      assert AsciiLower(s)[1..] == AsciiLower(s[1..]);
    }
  }

  // ---- trimming does not hide a trimmed query --------------------------------------------------

  predicate SolidEnds(s: string) {
    s != [] ==> !IsWhitespace(s[0]) && !IsWhitespace(s[|s| - 1])
  }

  lemma LowerKeepsWhitespace(c: char)
    ensures IsWhitespace(AsciiLowerChar(c)) <==> IsWhitespace(c)
  {
  }

  lemma LowerConcat(a: string, b: string)
    ensures AsciiLower(a + b) == AsciiLower(a) + AsciiLower(b)
  {
  }

  lemma LowerBlank(s: string)
    requires IsBlank(s)
    ensures IsBlank(AsciiLower(s))
  {
    forall i | 0 <= i < |s| ensures IsWhitespace(AsciiLower(s)[i]) {
      LowerKeepsWhitespace(s[i]);
    }
  }

  lemma OccursBetweenBlanks(before: string, inner: string, after: string, query: string, i: int)
    requires IsBlank(before) && IsBlank(after) && query != [] && SolidEnds(query)
    requires OccursAt(before + inner + after, query, i)
    ensures OccursAt(inner, query, i - |before|)
  {
    hide IsWhitespace;
    var whole := before + inner + after;
    var last := i + |query| - 1;
    assert whole[i] == whole[i..i + |query|][0] == query[0];
    assert whole[last] == whole[i..i + |query|][|query| - 1] == query[|query| - 1];
    assert inner[i - |before|..i - |before| + |query|] == whole[i..i + |query|];
  }

  /** Every occurrence of a query with solid ends lies in the trimmed part. */
  lemma OccursInTrimmed(name: string, query: string)
    requires query != [] && SolidEnds(query)
    ensures Contains(AsciiLower(name), query) <==> Contains(AsciiLower(Trim(name)), query)
  {
    hide IsWhitespace, OccursAt, Trim;
    var before, after := TrimIsExact(name);
    var b, inner, a := AsciiLower(before), AsciiLower(Trim(name)), AsciiLower(after);
    LowerConcat(before, Trim(name));
    LowerConcat(before + Trim(name), after);
    LowerBlank(before);
    LowerBlank(after);
    if Contains(AsciiLower(name), query) {
      var i :| OccursAt(AsciiLower(name), query, i);
      OccursBetweenBlanks(b, inner, a, query, i);
    }
    if Contains(inner, query) {
      var i :| OccursAt(inner, query, i);
      OccursInLarger(b, inner, a, query, i);
    }
  }

  lemma OccursInLarger(before: string, inner: string, after: string, query: string, i: int)
    requires OccursAt(inner, query, i)
    ensures OccursAt(before + inner + after, query, |before| + i)
  {
    var whole := before + inner + after;
    assert whole[|before| + i..|before| + i + |query|] == inner[i..i + |query|];
  }

  /** The stores find the same users for every query. */
  lemma SearchesAgree(u: User, filterQuery: string)
    ensures SqlFinds(u, filterQuery) <==> MemoryFinds(u, filterQuery)
  {
    var query := AsciiLower(Trim(filterQuery));
    var email := NormalizeEmail(u.email);
    LowerIsIdempotent(Trim(filterQuery));
    LowerIsIdempotent(Trim(u.email));
    LowerIsIdempotent(Trim(u.displayName));
    LikeIsContains(query, AsciiLower(email));
    LikeIsContains(query, AsciiLower(Trim(u.displayName)));
    if query != "" {
      var _, _ := TrimIsExact(filterQuery);
      LowerKeepsWhitespace(Trim(filterQuery)[0]);
      LowerKeepsWhitespace(Trim(filterQuery)[|query| - 1]);
      OccursInTrimmed(u.displayName, query);
      if email == "" {
        assert forall i :: !OccursAt(email, query, i);
      }
    }
  }
}
