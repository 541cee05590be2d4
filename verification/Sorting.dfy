/** `list.sort` with a key that separates all elements: the one strictly ascending arrangement. */
module Sorting {
  /** Irreflexive and transitive; any two different elements are ordered. */
  ghost predicate StrictOrder<T(!new)>(less: (T, T) -> bool) {
    && (forall a :: !less(a, a))
    && (forall a, b, c :: less(a, b) && less(b, c) ==> less(a, c))
  }

  /** Any two different members are ordered one way or the other. */
  ghost predicate Separates<T(!new)>(less: (T, T) -> bool, s: seq<T>) {
    forall i, j | 0 <= i < |s| && 0 <= j < |s| && i != j :: less(s[i], s[j]) || less(s[j], s[i])
  }

  predicate Ascending<T>(less: (T, T) -> bool, s: seq<T>) {
    forall i, j | 0 <= i < j < |s| :: less(s[i], s[j])
  }

  /** `s` with `x` at its place. */
  function Insert<T>(less: (T, T) -> bool, s: seq<T>, x: T): (r: seq<T>)
    ensures multiset(r) == multiset(s) + multiset{x} && |r| == |s| + 1
  {
    if s == [] then [x]
    else if less(x, s[0]) then [x] + s
    else
      assert s == [s[0]] + s[1..];
      [s[0]] + Insert(less, s[1..], x)
  }

  function Sorted<T>(less: (T, T) -> bool, s: seq<T>): (r: seq<T>)
    ensures multiset(r) == multiset(s) && |r| == |s|
  {
    if s == [] then []
    else
      assert s == s[..|s| - 1] + [s[|s| - 1]];
      Insert(less, Sorted(less, s[..|s| - 1]), s[|s| - 1])
  }

  lemma {:induction false} InsertAscends<T(!new)>(less: (T, T) -> bool, s: seq<T>, x: T)
    requires StrictOrder(less) && Ascending(less, s)
    requires forall i | 0 <= i < |s| :: less(x, s[i]) || less(s[i], x)
    ensures Ascending(less, Insert(less, s, x))
  {
    if s != [] && !less(x, s[0]) {
      var rest := Insert(less, s[1..], x);
      InsertAscends(less, s[1..], x);
      forall j | 0 <= j < |rest| ensures less(s[0], rest[j]) {
        assert rest[j] in multiset(rest);
        assert rest[j] in multiset(s[1..]) || rest[j] == x;
      }
    }
  }

  lemma {:induction false} SortedAscends<T(!new)>(less: (T, T) -> bool, s: seq<T>)
    requires StrictOrder(less) && Separates(less, s)
    ensures Ascending(less, Sorted(less, s))
  {
    if s != [] {
      var n := |s| - 1;
      SortedAscends(less, s[..n]);
      var front := Sorted(less, s[..n]);
      forall i | 0 <= i < |front| ensures less(s[n], front[i]) || less(front[i], s[n]) {
        assert front[i] in multiset(front);
        var k :| 0 <= k < n && s[k] == front[i];
      }
      InsertAscends(less, front, s[n]);
    }
  }

  lemma SameMembers<T>(s: seq<T>, t: seq<T>, x: T)
    requires multiset(s) == multiset(t)
    ensures x in s <==> x in t
  {
    assert x in s <==> x in multiset(s);
    assert x in t <==> x in multiset(t);
  }

  lemma HeadIsMember<T>(s: seq<T>)
    requires s != []
    ensures s[0] in s
  {}

  /** Two ascending lists with the same members are the same list. */
  lemma {:induction false} AscendingIsUnique<T(!new)>(less: (T, T) -> bool, s: seq<T>, t: seq<T>)
    requires StrictOrder(less) && Ascending(less, s) && Ascending(less, t)
    requires forall x :: x in s <==> x in t
    ensures s == t
    decreases |s|
  {
    if s == [] {
      if t != [] { HeadIsMember(t); }
    } else {
      assert s[0] in s && s[0] in t && t != [];
      FirstIsLeast(less, s, t);
      forall x ensures x in s[1..] <==> x in t[1..] {
        TailMembers(less, s, x);
        TailMembers(less, t, x);
      }
      AscendingIsUnique(less, s[1..], t[1..]);
      assert s == [s[0]] + s[1..] == [t[0]] + t[1..] == t;
    }
  }

  lemma FirstIsLeast<T(!new)>(less: (T, T) -> bool, s: seq<T>, t: seq<T>)
    requires StrictOrder(less) && Ascending(less, s) && Ascending(less, t) && s != [] && t != []
    requires s[0] in t && t[0] in s
    ensures s[0] == t[0]
  {
    var i :| 0 <= i < |t| && t[i] == s[0];
    var j :| 0 <= j < |s| && s[j] == t[0];
  }

  lemma TailMembers<T(!new)>(less: (T, T) -> bool, s: seq<T>, x: T)
    requires StrictOrder(less) && Ascending(less, s) && s != []
    ensures x in s[1..] <==> x in s && x != s[0]
  {
    if x in s && x != s[0] {
      var i :| 0 <= i < |s| && s[i] == x;
      assert s[1..][i - 1] == x;
    }
    if x in s[1..] {
      var i :| 0 <= i < |s[1..]| && s[1..][i] == x;
      assert less(s[0], s[i + 1]);
    }
  }
}
