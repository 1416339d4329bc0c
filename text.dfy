/** The few operations on Rust `str` that the lexer relies on, over `seq<char>`. */
module Text {
  import opened Seqs

  /** Rust's `char::is_whitespace`: the Unicode White_Space property. */
  predicate IsWhitespace(c: char) {
    c == ' ' || '\t' <= c <= '\r' || c == '\U{85}' || c == '\U{A0}' || c == '\U{1680}'
    || '\U{2000}' <= c <= '\U{200A}' || c == '\U{2028}' || c == '\U{2029}'
    || c == '\U{202F}' || c == '\U{205F}' || c == '\U{3000}'
  }

  /** `s.trim().is_empty()` */
  predicate IsBlank(s: string) {
    forall k | 0 <= k < |s| :: IsWhitespace(s[k])
  }

  /** An ASCII decimal digit: the single characters that `parse::<u8>()` and
      `parse::<i32>()` accept (a lone sign is rejected by both). */
  predicate IsDigit(c: char) {
    '0' <= c <= '9'
  }

  /** The number of whitespace characters `s` starts with. */
  function LeadingBlanks(s: string): (n: nat)
    ensures n <= |s| && (n < |s| ==> !IsWhitespace(s[n]))
    ensures forall k | 0 <= k < n :: IsWhitespace(s[k])
  {
    if s != [] && IsWhitespace(s[0]) then
      var n := 1 + LeadingBlanks(s[1..]);
      assert forall k | 1 <= k < n :: s[k] == s[1..][k - 1];
      n
    else 0
  }

  /** The length of `s` without the whitespace it ends with. */
  function KeptLength(s: string): (n: nat)
    ensures n <= |s| && (n > 0 ==> !IsWhitespace(s[n - 1]))
    ensures forall k | n <= k < |s| :: IsWhitespace(s[k])
  {
    if s != [] && IsWhitespace(s[|s| - 1]) then
      var n := KeptLength(s[..|s| - 1]);
      assert forall k | n <= k < |s| - 1 :: s[k] == s[..|s| - 1][k];
      n
    else |s|
  }

  function TrimStart(s: string): (r: string)
    ensures |r| <= |s| && r == s[|s| - |r|..]
    ensures r == [] || !IsWhitespace(r[0])
    ensures IsBlank(s[..|s| - |r|])
  {
    var n := LeadingBlanks(s);
    assert forall k | 0 <= k < n :: s[..n][k] == s[k];
    s[n..]
  }

  function TrimEnd(s: string): (r: string)
    ensures |r| <= |s| && r == s[..|r|]
    ensures r == [] || !IsWhitespace(r[|r| - 1])
    ensures IsBlank(s[|r|..])
  {
    var n := KeptLength(s);
    assert forall k | 0 <= k < |s| - n :: s[n..][k] == s[n + k];
    s[..n]
  }

  /** Rust's `str::trim`: drops leading and trailing whitespace. */
  function Trim(s: string): (r: string)
    ensures |r| <= |s|
  {
    TrimEnd(TrimStart(s))
  }

  /** What `trim` leaves: nothing exactly when the text is blank, no whitespace at
      either end, and only characters of the text. */
  lemma TrimFacts(s: string)
    ensures Trim(s) == [] <==> IsBlank(s)
    ensures Trim(s) != [] ==> !IsWhitespace(Trim(s)[0]) && !IsWhitespace(Trim(s)[|Trim(s)| - 1])
    ensures forall k | 0 <= k < |Trim(s)| :: Trim(s)[k] in s
  {
    TrimBlank(s);
    TrimWithin(s);
  }

  lemma TrimWithin(s: string)
    ensures forall k | 0 <= k < |TrimEnd(TrimStart(s))| :: TrimEnd(TrimStart(s))[k] in s
  {
    forall k | 0 <= k < |TrimEnd(TrimStart(s))|
      ensures TrimEnd(TrimStart(s))[k] in s
    {
      TrimCharAt(s, k);
    }
  }

  lemma TrimCharAt(s: string, k: nat)
    requires k < |TrimEnd(TrimStart(s))|
    ensures |s| - |TrimStart(s)| + k < |s|
    ensures TrimEnd(TrimStart(s))[k] == s[|s| - |TrimStart(s)| + k]
  {
    var front := TrimStart(s);
    assert TrimEnd(front)[k] == front[k];
  }

  lemma TrimBlank(s: string)
    ensures TrimEnd(TrimStart(s)) == [] <==> IsBlank(s)
  {
    var front := TrimStart(s);
    var cut := |s| - |front|;
    if TrimEnd(front) == [] {
      assert IsBlank(front) by { assert front[0..] == front; }
      assert front == [];
      assert s == s[..cut];
    }
  }

  /** A text that neither starts nor ends with whitespace is its own trim. */
  lemma TrimNothing(s: string)
    requires s != [] && !IsWhitespace(s[0]) && !IsWhitespace(s[|s| - 1])
    ensures Trim(s) == s
  {
    assert LeadingBlanks(s) == 0;
    assert s[0..] == s;
    assert KeptLength(s) == |s|;
    assert s[..|s|] == s;
  }

  /** A single character that is not whitespace is its own trim. */
  lemma TrimSolid(c: char)
    requires !IsWhitespace(c)
    ensures Trim([c]) == [c]
  {
    assert TrimStart([c]) == [c];
    assert TrimEnd([c]) == [c];
  }

  /** Index of the first character of `s` that belongs to `cs`, or `|s|` if none does. */
  function IndexOfAny(s: string, cs: string): (r: nat)
    ensures r <= |s|
    ensures forall k | 0 <= k < r :: s[k] !in cs
    ensures r < |s| ==> s[r] in cs
  {
    if s == [] then 0
    else if s[0] in cs then 0
    else 1 + IndexOfAny(s[1..], cs)
  }

  /** Concatenation of a sequence of strings. */
  function Concat(pieces: seq<string>): string {
    if pieces == [] then [] else pieces[0] + Concat(pieces[1..])
  }

  /** Rust's `str::split_inclusive` with a set of delimiter characters: each piece
      ends right after a delimiter, except perhaps the last, which ends where `s` ends;
      an empty `s` gives no piece. */
  function SplitInclusive(s: string, delimiters: string): seq<string>
    decreases |s|
  {
    if s == [] then []
    else
      var n := IndexOfAny(s, delimiters);
      if n == |s| then [s] else [s[..n + 1]] + SplitInclusive(s[n + 1..], delimiters)
  }

  /** The pieces put back together give the text. */
  lemma {:induction false} SplitInclusiveConcat(s: string, delimiters: string)
    ensures Concat(SplitInclusive(s, delimiters)) == s
    decreases |s|
  {
    if s != [] {
      var n := IndexOfAny(s, delimiters);
      if n == |s| {
        assert Concat([s]) == s + Concat([]);
      } else {
        var rest := SplitInclusive(s[n + 1..], delimiters);
        SplitInclusiveConcat(s[n + 1..], delimiters);
        assert ([s[..n + 1]] + rest)[1..] == rest;
        assert s == s[..n + 1] + s[n + 1..];
      }
    }
  }

  /** The pieces are non-empty and no longer than `s`, hold no delimiter before their
      last character, and all but the last end with a delimiter. */
  predicate WellSplit(r: seq<string>, s: string, delimiters: string) {
    (forall k | 0 <= k < |r| :: r[k] != [] && |r[k]| <= |s|) &&
    (forall k | 0 <= k < |r| :: forall j | 0 <= j < |r[k]| - 1 :: r[k][j] !in delimiters) &&
    (forall k | 0 <= k < |r| - 1 :: r[k][|r[k]| - 1] in delimiters)
  }

  lemma {:induction false} SplitInclusivePieces(s: string, delimiters: string)
    ensures WellSplit(SplitInclusive(s, delimiters), s, delimiters)
    decreases |s|
  {
    if s != [] {
      var n := IndexOfAny(s, delimiters);
      if n < |s| {
        SplitInclusivePieces(s[n + 1..], delimiters);
        PrependPiece(s[..n + 1], SplitInclusive(s[n + 1..], delimiters), s, s[n + 1..], delimiters);
      } else {
        assert SplitInclusive(s, delimiters) == [s];
      }
    }
  }

  /** A piece ending with a delimiter in front of a well-split rest. */
  lemma PrependPiece(first: string, rest: seq<string>, s: string, tail: string, delimiters: string)
    requires WellSplit(rest, tail, delimiters) && |tail| <= |s|
    requires first != [] && |first| <= |s| && first[|first| - 1] in delimiters
    requires forall j | 0 <= j < |first| - 1 :: first[j] !in delimiters
    ensures WellSplit([first] + rest, s, delimiters)
  {
    var r := [first] + rest;
    forall k | 1 <= k < |r|
      ensures r[k] == rest[k - 1]
    {
    }
  }

  /** The first delimiter of `a` is also the first delimiter of `a + b`. */
  lemma {:induction false} IndexOfAnyAppend(a: string, b: string, cs: string)
    requires IndexOfAny(a, cs) < |a|
    ensures IndexOfAny(a + b, cs) == IndexOfAny(a, cs)
  {
    if a[0] !in cs {
      assert (a + b)[1..] == a[1..] + b;
      IndexOfAnyAppend(a[1..], b, cs);
    }
  }

  /** Text with no delimiter, ended by one delimiter, is a single piece. */
  lemma SplitInclusiveOne(c: string, d: char, delimiters: string)
    requires d in delimiters && forall k | 0 <= k < |c| :: c[k] !in delimiters
    ensures SplitInclusive(c + [d], delimiters) == [c + [d]]
  {
    var s := c + [d];
    assert s[|c|] == d;
    assert IndexOfAny(s, delimiters) == |c|;
    assert s[..|c| + 1] == s && s[|c| + 1..] == [];
  }

  /** Splitting is compositional at a delimiter: the pieces of `a + b`, when `a` ends
      with a delimiter, are those of `a` followed by those of `b`. */
  lemma {:induction false} SplitInclusiveAppend(a: string, b: string, delimiters: string)
    requires a != [] && a[|a| - 1] in delimiters
    ensures SplitInclusive(a + b, delimiters) == SplitInclusive(a, delimiters) + SplitInclusive(b, delimiters)
    decreases |a|
  {
    var n := IndexOfAny(a, delimiters);
    var rest := a[n + 1..];
    SplitFirst(a, delimiters, n, rest);
    SplitFirstAppend(a, b, delimiters, n, rest);
    if rest == [] {
      assert rest + b == b;
    } else {
      assert rest[|rest| - 1] == a[|a| - 1];
      SplitInclusiveAppend(rest, b, delimiters);
      Regroup([a[..n + 1]], SplitInclusive(rest, delimiters), SplitInclusive(b, delimiters),
        SplitInclusive(a, delimiters), SplitInclusive(a + b, delimiters));
    }
  }

  /** A text whose first delimiter is at `n` is split there first. */
  lemma SplitFirst(a: string, delimiters: string, n: nat, rest: string)
    requires n == IndexOfAny(a, delimiters) && n < |a| && rest == a[n + 1..]
    ensures SplitInclusive(a, delimiters) == [a[..n + 1]] + SplitInclusive(rest, delimiters)
  {
  }

  /** ... and so is that text followed by any other. */
  lemma SplitFirstAppend(a: string, b: string, delimiters: string, n: nat, rest: string)
    requires n == IndexOfAny(a, delimiters) && n < |a| && rest == a[n + 1..]
    ensures SplitInclusive(a + b, delimiters) == [a[..n + 1]] + SplitInclusive(rest + b, delimiters)
  {
    var ab := a + b;
    IndexOfAnyAppend(a, b, delimiters);
    assert ab[..n + 1] == a[..n + 1];
    assert ab[n + 1..] == rest + b;
    SplitFirst(ab, delimiters, n, ab[n + 1..]);
  }



  /** One solid character between blanks trims to itself. */
  lemma TrimAround(pre: string, c: char, post: string)
    requires IsBlank(pre) && IsBlank(post) && !IsWhitespace(c)
    ensures Trim(pre + [c] + post) == [c]
  {
    var s := pre + [c] + post;
    AroundBack(pre, c, post);
    TrimCharAt(s, 0);
  }

  /** Around a single character that is not whitespace, `trim` starts at it. */
  lemma AroundFront(pre: string, c: char, post: string)
    requires IsBlank(pre) && IsBlank(post) && !IsWhitespace(c)
    ensures var s := pre + [c] + post; Trim(s) != [] && |s| - |TrimStart(s)| == |pre|
  {
    var s := pre + [c] + post;
    assert s[|pre|] == c;
    TrimFacts(s);
    TrimLead(s);
    TrimEnds(s);
    assert forall k | 0 <= k < |pre| :: IsWhitespace(s[k]) by {
      forall k | 0 <= k < |pre| ensures IsWhitespace(s[k]) {
        assert s[k] == pre[k];
      }
    }
  }

  /** ... and keeps that character alone. */
  lemma AroundBack(pre: string, c: char, post: string)
    requires IsBlank(pre) && IsBlank(post) && !IsWhitespace(c)
    ensures var s := pre + [c] + post; |s| - |TrimStart(s)| == |pre| && |Trim(s)| == 1
  {
    var s := pre + [c] + post;
    AroundFront(pre, c, post);
    TrimTrail(s);
    TrimEnds(s);
    assert s[|pre|] == c;
    assert forall k | |pre| < k < |s| :: IsWhitespace(s[k]) by {
      forall k | |pre| < k < |s| ensures IsWhitespace(s[k]) {
        assert s[k] == post[k - |pre| - 1];
      }
    }
  }


  /** Where `trim` cuts: what it keeps starts at the first solid character and ends at
      the last one. */
  lemma TrimSpan(s: string)
    ensures var p := |s| - |TrimStart(s)|;
      p + |Trim(s)| <= |s| &&
      (forall k | 0 <= k < p :: IsWhitespace(s[k])) &&
      (forall k | p + |Trim(s)| <= k < |s| :: IsWhitespace(s[k])) &&
      (Trim(s) != [] ==> !IsWhitespace(s[p]) && !IsWhitespace(s[p + |Trim(s)| - 1]))
  {
    TrimLead(s);
    TrimTrail(s);
    TrimEnds(s);
  }

  /** What `trim` drops at the front is whitespace. */
  lemma TrimLead(s: string)
    ensures forall k | 0 <= k < |s| - |TrimStart(s)| :: IsWhitespace(s[k])
  {
    var p := |s| - |TrimStart(s)|;
    forall k | 0 <= k < p
      ensures IsWhitespace(s[k])
    {
      assert s[k] == s[..p][k];
    }
  }

  /** What `trim` drops at the back is whitespace. */
  lemma TrimTrail(s: string)
    ensures var p := |s| - |TrimStart(s)|;
      p + |Trim(s)| <= |s| && forall k | p + |Trim(s)| <= k < |s| :: IsWhitespace(s[k])
  {
    var r := TrimStart(s);
    var p := |s| - |r|;
    var t := TrimEnd(r);
    forall k | p + |t| <= k < |s|
      ensures IsWhitespace(s[k])
    {
      assert s[k] == r[k - p] == r[|t|..][k - p - |t|];
    }
  }

  /** What `trim` keeps starts and ends with characters that are not whitespace. */
  lemma TrimEnds(s: string)
    ensures var p := |s| - |TrimStart(s)|;
      Trim(s) != [] ==> p + |Trim(s)| <= |s| && !IsWhitespace(s[p]) && !IsWhitespace(s[p + |Trim(s)| - 1])
  {
    var r := TrimStart(s);
    var p := |s| - |r|;
    var t := TrimEnd(r);
    if t != [] {
      assert s[p] == r[0] == t[0];
      assert s[p + |t| - 1] == r[|t| - 1] == t[|t| - 1];
    }
  }


  /** Text with two solid characters does not trim to a single character. */
  lemma TrimKeepsTwo(s: string, i: nat, j: nat)
    requires i < j < |s| && !IsWhitespace(s[i]) && !IsWhitespace(s[j])
    ensures |Trim(s)| >= 2
  {
    TrimSpan(s);
  }
}
