/** The two SQL clauses the services lean on, as sequence operations:
    `ORDER BY` as a sort under a total preorder, and `LIMIT`/`OFFSET` as a window. */
module Query {

  ghost predicate TotalPreorder<T(!new)>(le: (T, T) -> bool) {
    && (forall x, y :: le(x, y) || le(y, x))
    && (forall x, y, z :: le(x, y) && le(y, z) ==> le(x, z))
  }

  predicate SortedBy<T>(s: seq<T>, le: (T, T) -> bool) {
    forall i, j :: 0 <= i < j < |s| ==> le(s[i], s[j])
  }

  function Insert<T(!new)>(x: T, s: seq<T>, le: (T, T) -> bool): (r: seq<T>)
    requires TotalPreorder(le)
    requires SortedBy(s, le)
    ensures SortedBy(r, le)
    ensures multiset(r) == multiset(s) + multiset{x}
    ensures forall y :: y in r ==> y == x || y in s
  {
    if s == [] then [x]
    else if le(x, s[0]) then [x] + s
    else
      var rest := Insert(x, s[1..], le);
      assert forall y :: y in rest ==> le(s[0], y);
      assert s == [s[0]] + s[1..];
      [s[0]] + rest
  }

  /** The rows of `s` in the order `ORDER BY` gives them; rows equal under `le`
      come in an unspecified order, as in SQL. */
  function SortBy<T(!new)>(s: seq<T>, le: (T, T) -> bool): (r: seq<T>)
    requires TotalPreorder(le)
    ensures SortedBy(r, le)
    ensures multiset(r) == multiset(s)
    ensures |r| == |s|
  {
    if s == [] then []
    else
      assert s == [s[0]] + s[1..];
      Insert(s[0], SortBy(s[1..], le), le)
  }

  /** `LIMIT limit OFFSET offset`. */
  function Window<T>(s: seq<T>, limit: nat, offset: nat): (r: seq<T>)
    ensures |r| <= limit
    ensures offset <= |s| ==> |r| == if offset + limit <= |s| then limit else |s| - offset
    ensures forall i :: 0 <= i < |r| ==> offset + i < |s| && r[i] == s[offset + i]
  {
    if offset >= |s| then []
    else if offset + limit <= |s| then s[offset..offset + limit]
    else s[offset..]
  }

  /** `ORDER BY` on a text column under SQLite's binary collation: character by
      character, a proper prefix first. */
  predicate TextLe(a: string, b: string) {
    if a == [] then true
    else if b == [] then false
    else if a[0] != b[0] then a[0] < b[0]
    else TextLe(a[1..], b[1..])
  }

  lemma {:induction false} TextLeTotal(a: string, b: string)
    ensures TextLe(a, b) || TextLe(b, a)
  {
    if a != [] && b != [] && a[0] == b[0] {
      TextLeTotal(a[1..], b[1..]);
    }
  }

  lemma {:induction false} TextLeTrans(a: string, b: string, c: string)
    requires TextLe(a, b) && TextLe(b, c)
    ensures TextLe(a, c)
  {
    if a != [] && b != [] && c != [] && a[0] == b[0] && b[0] == c[0] {
      TextLeTrans(a[1..], b[1..], c[1..]);
    }
  }

  /** Only equal strings are ordered both ways. */
  lemma {:induction false} TextLeAntisym(a: string, b: string)
    requires TextLe(a, b) && TextLe(b, a)
    ensures a == b
  {
    if a != [] && b != [] {
      TextLeAntisym(a[1..], b[1..]);
      assert a == [a[0]] + a[1..];
      assert b == [b[0]] + b[1..];
    }
  }

  lemma TextLePreorder()
    ensures TotalPreorder(TextLe)
  {
    forall a: string, b: string
      ensures TextLe(a, b) || TextLe(b, a)
    {
      TextLeTotal(a, b);
    }
    forall a: string, b: string, c: string | TextLe(a, b) && TextLe(b, c)
      ensures TextLe(a, c)
    {
      TextLeTrans(a, b, c);
    }
  }

  /** Sorting keeps exactly the rows it was given. */
  lemma SortByMembers<T(!new)>(s: seq<T>, le: (T, T) -> bool)
    requires TotalPreorder(le)
    ensures forall x :: x in SortBy(s, le) <==> x in s
  {
    var r := SortBy(s, le);
    forall x
      ensures x in r <==> x in s
    {
      assert x in r <==> x in multiset(r);
      assert x in s <==> x in multiset(s);
    }
  }

  /** A window of sorted rows is sorted. */
  lemma WindowOfSorted<T>(s: seq<T>, le: (T, T) -> bool, limit: nat, offset: nat)
    requires SortedBy(s, le)
    ensures SortedBy(Window(s, limit, offset), le)
  {
    var r := Window(s, limit, offset);
    forall i, j | 0 <= i < j < |r|
      ensures le(r[i], r[j])
    {
      assert r[i] == s[offset + i] && r[j] == s[offset + j];
    }
  }

  /** `ORDER BY ... LIMIT n` keeps the top rows: whatever the first page leaves
      out ranks no higher than anything on it. */
  lemma WindowTop<T>(s: seq<T>, le: (T, T) -> bool, limit: nat, x: T)
    requires SortedBy(s, le) && x in s && x !in Window(s, limit, 0)
    ensures forall y :: y in Window(s, limit, 0) ==> le(y, x)
  {
    var r := Window(s, limit, 0);
    var j :| 0 <= j < |s| && s[j] == x;
    assert r == s[..|r|];
    forall i | 0 <= i < |r|
      ensures le(r[i], x)
    {
      assert r[i] == s[i];
    }
  }
}
