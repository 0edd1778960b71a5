/** String helpers shared by the backend services and the frontend utilities:
    whitespace stripping and collapsing, ASCII lower-casing, substring search,
    splitting on a separator, and SQL `LIKE` pattern matching. Whitespace is the
    ASCII set (space, tab, line feed, vertical tab, form feed, carriage return). */
module Strings {

  predicate IsSpace(c: char) {
    c == ' ' || 9 <= c as int <= 13
  }

  predicate AllSpace(s: string) {
    forall i :: 0 <= i < |s| ==> IsSpace(s[i])
  }

  /** Neither end of `s` is whitespace. */
  predicate NoEdgeSpace(s: string) {
    s == [] || (!IsSpace(s[0]) && !IsSpace(s[|s| - 1]))
  }

  /** No two adjacent whitespace characters. */
  predicate NoDoubleSpace(s: string) {
    forall i :: 0 <= i < |s| - 1 ==> !(IsSpace(s[i]) && IsSpace(s[i + 1]))
  }

  /** The only whitespace character in `s` is the plain space. */
  predicate OnlyBlank(s: string) {
    forall i :: 0 <= i < |s| && IsSpace(s[i]) ==> s[i] == ' '
  }

  /** The result of collapsing whitespace: single plain spaces between words only. */
  predicate Collapsed(s: string) {
    NoEdgeSpace(s) && NoDoubleSpace(s) && OnlyBlank(s)
  }

  /** The non-whitespace characters of `s`, in order: what whitespace
      normalisation must preserve. */
  function NonSpace(s: string): string {
    if s == [] then [] else (if IsSpace(s[0]) then [] else [s[0]]) + NonSpace(s[1..])
  }

  lemma {:induction false} NonSpaceAppend(a: string, b: string)
    ensures NonSpace(a + b) == NonSpace(a) + NonSpace(b)
  {
    if a != [] {
      assert (a + b)[1..] == a[1..] + b;
      NonSpaceAppend(a[1..], b);
    } else {
      assert a + b == b;
    }
  }

  lemma {:induction false} NonSpaceOfSpaces(s: string)
    requires AllSpace(s)
    ensures NonSpace(s) == []
  {
    if s != [] {
      NonSpaceOfSpaces(s[1..]);
    }
  }

  /** Leading whitespace removed (`lstrip`). */
  function StripLeft(s: string): (r: string)
    ensures |r| <= |s|
    decreases |s|
  {
    if s != [] && IsSpace(s[0]) then StripLeft(s[1..]) else s
  }

  /** Trailing whitespace removed (`rstrip`). */
  function StripRight(s: string): string
    decreases |s|
  {
    if s != [] && IsSpace(s[|s| - 1]) then StripRight(s[..|s| - 1]) else s
  }

  /** `StripLeft` drops a run of whitespace from the front and nothing else. */
  lemma {:induction false} StripLeftShape(s: string)
    ensures StripLeft(s) == s[|s| - |StripLeft(s)|..]
    ensures AllSpace(s[..|s| - |StripLeft(s)|])
    ensures StripLeft(s) == [] || !IsSpace(StripLeft(s)[0])
    ensures NonSpace(StripLeft(s)) == NonSpace(s)
    decreases |s|
  {
    if s != [] && IsSpace(s[0]) {
      StripLeftShape(s[1..]);
      var r := StripLeft(s[1..]);
      assert s[..|s| - |r|] == [s[0]] + s[1..][..|s| - 1 - |r|];
      assert s[|s| - |r|..] == s[1..][|s| - 1 - |r|..];
    } else {
      assert s[|s| - |s|..] == s;
    }
  }

  /** `StripRight` drops a run of whitespace from the back and nothing else. */
  lemma {:induction false} StripRightShape(s: string)
    ensures |StripRight(s)| <= |s| && StripRight(s) == s[..|StripRight(s)|]
    ensures AllSpace(s[|StripRight(s)|..])
    ensures StripRight(s) == [] || !IsSpace(StripRight(s)[|StripRight(s)| - 1])
    decreases |s|
  {
    if s != [] && IsSpace(s[|s| - 1]) {
      StripRightShape(s[..|s| - 1]);
      var r := StripRight(s[..|s| - 1]);
      assert s[..|s| - 1][..|r|] == s[..|r|];
      assert s[|r|..] == s[..|s| - 1][|r|..] + [s[|s| - 1]];
    } else {
      assert s[..|s|] == s;
    }
  }

  /** Python's `str.strip()` and JavaScript's `String.prototype.trim()`. */
  function Strip(s: string): string {
    StripRight(StripLeft(s))
  }

  /** A stripped string is no longer than the original, has no whitespace at
      either end, and is empty exactly when the original is all whitespace. */
  lemma StripShape(s: string)
    ensures |Strip(s)| <= |s|
    ensures NoEdgeSpace(Strip(s))
    ensures Strip(s) == [] <==> AllSpace(s)
  {
    StripLeftShape(s);
    StripRightShape(StripLeft(s));
    StripEmptyIffSpaces(s);
  }

  /** Stripping drops whitespace only, and adds no doubled or non-plain
      whitespace. */
  lemma StripKeeps(s: string)
    ensures NonSpace(Strip(s)) == NonSpace(s)
    ensures NoDoubleSpace(s) ==> NoDoubleSpace(Strip(s))
    ensures OnlyBlank(s) ==> OnlyBlank(Strip(s))
  {
    StripKeepsNonSpace(s);
    StripKeepsSpacing(s);
  }

  /** A string with no blank at either end is its own strip. */
  lemma StripTrimmed(s: string)
    requires NoEdgeSpace(s)
    ensures Strip(s) == s
  {
    assert StripLeft(s) == s;
    assert StripRight(s) == s;
  }

  lemma StripKeepsSpacing(s: string)
    ensures NoDoubleSpace(s) ==> NoDoubleSpace(StripRight(StripLeft(s)))
    ensures OnlyBlank(s) ==> OnlyBlank(StripRight(StripLeft(s)))
  {
    var t := StripLeft(s);
    var r := StripRight(t);
    var k := |s| - |t|;
    StripLeftShape(s);
    StripRightShape(t);
    forall i | 0 <= i < |r| ensures r[i] == s[k + i] {
      assert r[i] == t[i];
    }
  }

  lemma StripEmptyIffSpaces(s: string)
    ensures StripRight(StripLeft(s)) == [] <==> AllSpace(s)
  {
    var t := StripLeft(s);
    StripLeftShape(s);
    StripRightShape(t);
    assert s == s[..|s| - |t|] + t;
    if StripRight(t) == [] {
      assert t[0..] == t;
      assert t == [];
      assert s == s[..|s| - |t|];
    }
  }

  lemma StripKeepsNonSpace(s: string)
    ensures NonSpace(StripRight(StripLeft(s))) == NonSpace(s)
  {
    var t := StripLeft(s);
    var r := StripRight(t);
    StripLeftShape(s);
    StripRightShape(t);
    assert t == r + t[|r|..];
    NonSpaceAppend(r, t[|r|..]);
    NonSpaceOfSpaces(t[|r|..]);
  }

  /** Every maximal run of whitespace replaced by one plain space: the
      replacement `/\s+/g` → `' '`. */
  function Squash(s: string): string
    decreases |s|
  {
    if s == [] then []
    else if IsSpace(s[0]) then " " + Squash(StripLeft(s))
    else [s[0]] + Squash(s[1..])
  }

  /** Squashing keeps every non-whitespace character in order, and leaves no
      doubled and no non-plain whitespace; it starts with whitespace exactly
      when the original does. */
  lemma {:induction false} SquashShape(s: string)
    ensures |Squash(s)| <= |s|
    ensures Squash(s) == [] <==> s == []
    ensures Squash(s) != [] ==> (IsSpace(Squash(s)[0]) <==> IsSpace(s[0]))
    ensures NoDoubleSpace(Squash(s)) && OnlyBlank(Squash(s))
    ensures NonSpace(Squash(s)) == NonSpace(s)
    decreases |s|
  {
    SquashSpacing(s);
    if s == [] {
    } else if IsSpace(s[0]) {
      var t := StripLeft(s);
      StripLeftShape(s);
      SquashShape(t);
      NonSpaceAppend(" ", Squash(t));
      assert " " + Squash(t) == Squash(s);
    } else {
      SquashShape(s[1..]);
      NonSpaceAppend([s[0]], Squash(s[1..]));
      assert [s[0]] + Squash(s[1..]) == Squash(s);
    }
  }

  lemma {:induction false} SquashSpacing(s: string)
    ensures Squash(s) != [] ==> s != [] && (IsSpace(Squash(s)[0]) <==> IsSpace(s[0]))
    ensures NoDoubleSpace(Squash(s)) && OnlyBlank(Squash(s))
    decreases |s|
  {
    if s == [] {
    } else if IsSpace(s[0]) {
      var t := StripLeft(s);
      StripLeftShape(s);
      SquashSpacing(t);
      var rest := Squash(t);
      var r := " " + rest;
      assert r == Squash(s);
      forall i | 0 <= i < |r| - 1
        ensures !(IsSpace(r[i]) && IsSpace(r[i + 1]))
      {
        if i > 0 {
          assert r[i] == rest[i - 1] && r[i + 1] == rest[i];
        }
      }
      forall i | 0 <= i < |r| && IsSpace(r[i])
        ensures r[i] == ' '
      {
        if i > 0 {
          assert r[i] == rest[i - 1];
        }
      }
    } else {
      var rest := Squash(s[1..]);
      SquashSpacing(s[1..]);
      var r := [s[0]] + rest;
      assert r == Squash(s);
      forall i | 0 <= i < |r| - 1
        ensures !(IsSpace(r[i]) && IsSpace(r[i + 1]))
      {
        if i > 0 {
          assert r[i] == rest[i - 1] && r[i + 1] == rest[i];
        }
      }
      forall i | 0 <= i < |r| && IsSpace(r[i])
        ensures r[i] == ' '
      {
        if i > 0 {
          assert r[i] == rest[i - 1];
        }
      }
    }
  }

  /** Whitespace collapsing: JavaScript's `.replace(/\s+/g, ' ').trim()`, and
      Python's `" ".join(s.split()).strip()`, which gives the same string. */
  function Collapse(s: string): string {
    Strip(Squash(s))
  }

  /** Collapsing leaves single plain spaces between words only, keeps every
      non-whitespace character in order, and never lengthens the text. */
  lemma CollapseShape(s: string)
    ensures Collapsed(Collapse(s))
    ensures NonSpace(Collapse(s)) == NonSpace(s)
    ensures |Collapse(s)| <= |s|
  {
    SquashShape(s);
    StripShape(Squash(s));
    StripKeeps(Squash(s));
  }

  /** The notification excerpt of a reply: its collapsed text, cut to 120
      characters with "..." appended when longer. */
  function Excerpt(content: string): string {
    var e := Collapse(content);
    if |e| > 120 then e[..120] + "..." else e
  }

  /** An excerpt is at most 123 characters: the collapsed text itself, or its
      first 120 characters followed by "...". */
  lemma ExcerptShape(content: string)
    ensures |Excerpt(content)| <= 123
    ensures |Collapse(content)| <= 120 ==> Excerpt(content) == Collapse(content)
    ensures |Collapse(content)| > 120 ==>
              && |Excerpt(content)| == 123 && Excerpt(content)[..120] == Collapse(content)[..120]
              && Excerpt(content)[120..] == "..."
  {
  }

  function LowerChar(c: char): char {
    if 'A' <= c <= 'Z' then (c as int + 32) as char else c
  }

  /** ASCII lower-casing. */
  function Lower(s: string): (r: string)
    ensures |r| == |s|
    ensures forall i :: 0 <= i < |s| ==> r[i] == LowerChar(s[i])
    ensures IsLower(r)
  {
    if s == [] then [] else [LowerChar(s[0])] + Lower(s[1..])
  }

  predicate IsLower(s: string) {
    forall i :: 0 <= i < |s| ==> !('A' <= s[i] <= 'Z')
  }

  /** Lower-casing is the identity on lower-case text. */
  lemma LowerOfLower(s: string)
    requires IsLower(s)
    ensures Lower(s) == s
  {
  }

  /** Lower-casing a capital followed by lower-case text changes the capital only. */
  lemma LowerCapital(c: char, s: string)
    requires 'A' <= c <= 'Z' && IsLower(s)
    ensures Lower([c] + s) == [(c as int + 32) as char] + s
  {
    LowerOfLower(s);
    assert ([c] + s)[1..] == s;
  }

  predicate IsPrefix(p: string, s: string) {
    |p| <= |s| && s[..|p|] == p
  }

  /** `sub` occurs in `s` (JavaScript `includes`, Python `in`). */
  predicate Contains(s: string, sub: string)
    decreases |s|
  {
    IsPrefix(sub, s) || (s != [] && Contains(s[1..], sub))
  }

  /** Index of the first `c` in `s`, or `|s|` when there is none. */
  function IndexOf(s: string, c: char): (i: nat)
    ensures i <= |s|
    ensures c !in s[..i]
    ensures i < |s| ==> s[i] == c
  {
    if s == [] then 0
    else if s[0] == c then 0
    else 1 + IndexOf(s[1..], c)
  }

  lemma {:induction false} IndexOfJoined(a: string, c: char, b: string)
    requires c !in a
    ensures IndexOf(a + [c] + b, c) == |a|
  {
    if a != [] {
      assert (a + [c] + b)[1..] == a[1..] + [c] + b;
      IndexOfJoined(a[1..], c, b);
    }
  }

  /** Python's `s.split(sep)` for a one-character separator. */
  function Split(s: string, sep: char): (parts: seq<string>)
    ensures |parts| >= 1
    ensures forall i :: 0 <= i < |parts| ==> sep !in parts[i]
    decreases |s|
  {
    var i := IndexOf(s, sep);
    if i == |s| then [s] else [s[..i]] + Split(s[i + 1..], sep)
  }

  /** `sep.join(parts)`. */
  function Join(parts: seq<string>, sep: char): string {
    if parts == [] then ""
    else if |parts| == 1 then parts[0]
    else parts[0] + [sep] + Join(parts[1..], sep)
  }

  lemma JoinCons(head: string, rest: seq<string>, sep: char)
    requires |rest| >= 1
    ensures Join([head] + rest, sep) == head + [sep] + Join(rest, sep)
  {
    assert ([head] + rest)[1..] == rest;
  }

  lemma AroundIndex(s: string, i: nat)
    requires i < |s|
    ensures s == s[..i] + [s[i]] + s[i + 1..]
  {
  }

  lemma {:induction false} JoinSplit(s: string, sep: char)
    ensures Join(Split(s, sep), sep) == s
    decreases |s|
  {
    var i := IndexOf(s, sep);
    if i < |s| {
      JoinSplit(s[i + 1..], sep);
      JoinCons(s[..i], Split(s[i + 1..], sep), sep);
      AroundIndex(s, i);
    }
  }

  lemma {:induction false} SplitJoin(parts: seq<string>, sep: char)
    requires |parts| >= 1
    requires forall i :: 0 <= i < |parts| ==> sep !in parts[i]
    ensures Split(Join(parts, sep), sep) == parts
  {
    if |parts| > 1 {
      var rest := Join(parts[1..], sep);
      IndexOfJoined(parts[0], sep, rest);
      assert (parts[0] + [sep] + rest)[..|parts[0]|] == parts[0];
      assert (parts[0] + [sep] + rest)[|parts[0]| + 1..] == rest;
      SplitJoin(parts[1..], sep);
    } else {
      assert IndexOf(parts[0], sep) == |parts[0]|;
    }
  }

  /** `[p.strip() for p in parts]`. */
  function StripEach(parts: seq<string>): (r: seq<string>)
    ensures |r| == |parts|
    ensures forall i :: 0 <= i < |parts| ==> r[i] == Strip(parts[i])
  {
    seq(|parts|, i requires 0 <= i < |parts| => Strip(parts[i]))
  }

  /** Stripping a list of already trimmed entries changes nothing. */
  lemma StripEachTrimmed(parts: seq<string>)
    requires forall i :: 0 <= i < |parts| ==> NoEdgeSpace(parts[i])
    ensures StripEach(parts) == parts
  {
    forall i | 0 <= i < |parts|
      ensures StripEach(parts)[i] == parts[i]
    {
      StripTrimmed(parts[i]);
    }
  }

  /** Stripping drops whitespace only, so it introduces no non-blank character. */
  lemma StripKeepsOut(s: string, c: char)
    requires c !in s && !IsSpace(c)
    ensures c !in Strip(s)
  {
    StripKeeps(s);
    NonSpaceKeepsOut(s, c);
    NonSpaceKeepsOut(Strip(s), c);
  }

  lemma {:induction false} NonSpaceKeepsOut(s: string, c: char)
    requires !IsSpace(c)
    ensures c in s <==> c in NonSpace(s)
  {
    if s != [] {
      NonSpaceKeepsOut(s[1..], c);
      assert s == [s[0]] + s[1..];
    }
  }

  lemma StripEachKeepsOut(parts: seq<string>, c: char)
    requires forall i :: 0 <= i < |parts| ==> c !in parts[i]
    requires !IsSpace(c)
    ensures forall l :: l in StripEach(parts) ==> c !in l
  {
    forall l | l in StripEach(parts)
      ensures c !in l
    {
      var i :| 0 <= i < |parts| && StripEach(parts)[i] == l;
      StripKeepsOut(parts[i], c);
    }
  }

  /** `[p.lower() for p in parts]`. */
  function LowerEach(parts: seq<string>): (r: seq<string>)
    ensures |r| == |parts|
    ensures forall i :: 0 <= i < |parts| ==> r[i] == Lower(parts[i])
  {
    if parts == [] then [] else [Lower(parts[0])] + LowerEach(parts[1..])
  }

  /** `[p for p in parts if p]`: the empty strings dropped, order kept. */
  function DropEmpty(parts: seq<string>): (r: seq<string>)
    ensures |r| <= |parts|
    ensures forall x :: x in r <==> x in parts && x != ""
  {
    if parts == [] then []
    else (if parts[0] == "" then [] else [parts[0]]) + DropEmpty(parts[1..])
  }

  /** SQL `LIKE` (SQLite semantics, no escape character): `%` matches any run of
      characters, `_` exactly one character. */
  predicate Like(pattern: string, s: string)
    decreases |pattern| + |s|
  {
    if pattern == [] then s == []
    else if pattern[0] == '%' then Like(pattern[1..], s) || (s != [] && Like(pattern, s[1..]))
    else s != [] && (pattern[0] == '_' || pattern[0] == s[0]) && Like(pattern[1..], s[1..])
  }

  /** SQLAlchemy's `ilike` on SQLite: `lower(s) LIKE lower(pattern)`, ASCII lower-casing. */
  predicate ILike(s: string, pattern: string) {
    Like(Lower(pattern), Lower(s))
  }

  predicate NoWildcards(q: string) {
    '%' !in q && '_' !in q
  }

  lemma {:induction false} LikeTrailingPercent(q: string, s: string)
    requires NoWildcards(q)
    ensures Like(q + "%", s) <==> IsPrefix(q, s)
    decreases |q| + |s|
  {
    if q == [] {
      assert [] + "%" == "%";
      LikeAnything(s);
    } else {
      assert (q + "%")[1..] == q[1..] + "%";
      if s != [] {
        LikeTrailingPercent(q[1..], s[1..]);
        if IsPrefix(q, s) { assert s[1..][..|q| - 1] == q[1..]; }
        if IsPrefix(q[1..], s[1..]) && q[0] == s[0] { assert s[..|q|] == [s[0]] + s[1..][..|q| - 1]; }
      }
    }
  }

  lemma {:induction false} LikeAnything(s: string)
    ensures Like("%", s)
    decreases |s|
  {
    if s != [] { LikeAnything(s[1..]); }
  }

  lemma {:induction false} LikeLeadingPercent(r: string, s: string)
    ensures Like("%" + r, s) <==> (exists k :: 0 <= k <= |s| && Like(r, s[k..]))
    decreases |s|
  {
    assert ("%" + r)[1..] == r;
    assert s[0..] == s;
    if s != [] {
      LikeLeadingPercent(r, s[1..]);
      if Like("%" + r, s) {
        if Like(r, s) {
          assert Like(r, s[0..]);
        } else {
          assert Like("%" + r, s[1..]);
          var k :| 0 <= k <= |s[1..]| && Like(r, s[1..][k..]);
          assert s[k + 1..] == s[1..][k..];
          assert Like(r, s[k + 1..]);
        }
      }
      if exists k :: 0 <= k <= |s| && Like(r, s[k..]) {
        var k :| 0 <= k <= |s| && Like(r, s[k..]);
        if k > 0 {
          assert s[1..][k - 1..] == s[k..];
          assert Like("%" + r, s[1..]);
        }
      }
    }
  }

  lemma {:induction false} ContainsAt(s: string, sub: string)
    ensures Contains(s, sub) <==> (exists k :: 0 <= k <= |s| && IsPrefix(sub, s[k..]))
    decreases |s|
  {
    assert s[0..] == s;
    if s != [] {
      ContainsAt(s[1..], sub);
      if exists k :: 0 <= k <= |s[1..]| && IsPrefix(sub, s[1..][k..]) {
        var k :| 0 <= k <= |s[1..]| && IsPrefix(sub, s[1..][k..]);
        assert s[k + 1..] == s[1..][k..];
      }
      if exists k :: 0 <= k <= |s| && IsPrefix(sub, s[k..]) {
        var k :| 0 <= k <= |s| && IsPrefix(sub, s[k..]);
        if k > 0 { assert s[1..][k - 1..] == s[k..]; }
      }
    }
  }

  /** A text lacking one of the characters of `sub` does not contain it. */
  lemma MissingChar(s: string, sub: string, c: char)
    requires c in sub && c !in s
    ensures !Contains(s, sub)
  {
    ContainsAt(s, sub);
    var i :| 0 <= i < |sub| && sub[i] == c;
    forall k | 0 <= k <= |s|
      ensures !IsPrefix(sub, s[k..])
    {
      if |sub| <= |s[k..]| {
        assert s[k..][..|sub|][i] == s[k + i];
      }
    }
  }

  /** A text in which the first two characters of `sub` never stand side by
      side does not contain it. */
  lemma MissingPair(s: string, sub: string)
    requires |sub| >= 2
    requires forall k :: 0 <= k < |s| - 1 && s[k] == sub[0] ==> s[k + 1] != sub[1]
    ensures !Contains(s, sub)
  {
    ContainsAt(s, sub);
    forall k | 0 <= k <= |s|
      ensures !IsPrefix(sub, s[k..])
    {
      if |sub| <= |s[k..]| {
        assert s[k..][..|sub|][0] == s[k] && s[k..][..|sub|][1] == s[k + 1];
      }
    }
  }

  lemma LowerNoWildcards(q: string)
    requires NoWildcards(q)
    ensures NoWildcards(Lower(q))
  {
    forall i | 0 <= i < |q| ensures Lower(q)[i] != '%' && Lower(q)[i] != '_' {
      assert q[i] in q;
    }
  }

  /** A `%q%` pattern built from a query without wildcard characters matches
      exactly the strings that contain the query, ignoring ASCII case. */
  lemma {:induction false} ILikeContains(s: string, q: string)
    requires NoWildcards(q)
    ensures ILike(s, "%" + q + "%") <==> Contains(Lower(s), Lower(q))
  {
    var p := "%" + q + "%";
    assert Lower(p) == "%" + (Lower(q) + "%");
    LowerNoWildcards(q);
    LikeLeadingPercent(Lower(q) + "%", Lower(s));
    ContainsAt(Lower(s), Lower(q));
    forall k | 0 <= k <= |Lower(s)|
      ensures Like(Lower(q) + "%", Lower(s)[k..]) <==> IsPrefix(Lower(q), Lower(s)[k..])
    {
      LikeTrailingPercent(Lower(q), Lower(s)[k..]);
    }
  }
}
