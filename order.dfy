/** Python's ordering of strings and of tuples of strings, Python's `sorted`
    on a set of strings (kept here as a strictly increasing sequence), and its
    stable `sort(key=...)`. */
module Order {

  /** `a < b` on Python strings: code point by code point, a proper prefix
      first. */
  predicate StrLess(a: string, b: string)
    decreases |a|
  {
    if a == [] then b != []
    else if b == [] then false
    else if a[0] != b[0] then a[0] < b[0]
    else StrLess(a[1..], b[1..])
  }

  lemma {:induction false} StrLessIrreflexive(a: string)
    ensures !StrLess(a, a)
  {
    if a != [] {
      StrLessIrreflexive(a[1..]);
    }
  }

  lemma {:induction false} StrLessTransitive(a: string, b: string, c: string)
    requires StrLess(a, b) && StrLess(b, c)
    ensures StrLess(a, c)
    decreases |a|
  {
    if a != [] && b != [] && c != [] && a[0] == b[0] && b[0] == c[0] {
      StrLessTransitive(a[1..], b[1..], c[1..]);
    }
  }

  lemma {:induction false} StrLessTotal(a: string, b: string)
    ensures a == b || StrLess(a, b) || StrLess(b, a)
    decreases |a|
  {
    if a != [] && b != [] && a[0] == b[0] {
      StrLessTotal(a[1..], b[1..]);
      assert a == [a[0]] + a[1..] && b == [b[0]] + b[1..];
    }
  }

  lemma StrLessAsymmetric(a: string, b: string)
    requires StrLess(a, b)
    ensures !StrLess(b, a)
  {
    if StrLess(b, a) {
      StrLessTransitive(a, b, a);
      StrLessIrreflexive(a);
    }
  }

  /** `a < b` on Python tuples of strings, as `sort(key=lambda ...)` compares
      the keys it is given. */
  predicate KeysLess(a: seq<string>, b: seq<string>)
    decreases |a|
  {
    if a == [] then b != []
    else if b == [] then false
    else if a[0] != b[0] then StrLess(a[0], b[0])
    else KeysLess(a[1..], b[1..])
  }

  lemma {:induction false} KeysLessIrreflexive(a: seq<string>)
    ensures !KeysLess(a, a)
  {
    if a != [] {
      KeysLessIrreflexive(a[1..]);
    }
  }

  lemma {:induction false} KeysLessTransitive(a: seq<string>, b: seq<string>, c: seq<string>)
    requires KeysLess(a, b) && KeysLess(b, c)
    ensures KeysLess(a, c)
    decreases |a|
  {
    if a != [] && b != [] && c != [] {
      if a[0] == b[0] && b[0] == c[0] {
        KeysLessTransitive(a[1..], b[1..], c[1..]);
      } else if a[0] != b[0] && b[0] != c[0] {
        StrLessTransitive(a[0], b[0], c[0]);
        StrLessIrreflexive(a[0]);
      }
    }
  }

  lemma {:induction false} KeysLessTotal(a: seq<string>, b: seq<string>)
    ensures a == b || KeysLess(a, b) || KeysLess(b, a)
    decreases |a|
  {
    if a != [] && b != [] {
      if a[0] == b[0] {
        KeysLessTotal(a[1..], b[1..]);
        assert a == [a[0]] + a[1..] && b == [b[0]] + b[1..];
      } else {
        StrLessTotal(a[0], b[0]);
      }
    }
  }

  lemma KeysLessAsymmetric(a: seq<string>, b: seq<string>)
    requires KeysLess(a, b)
    ensures !KeysLess(b, a)
  {
    if KeysLess(b, a) {
      KeysLessTransitive(a, b, a);
      KeysLessIrreflexive(a);
    }
  }

  /** "Not greater" is transitive: the fact a stable sort relies on. */
  lemma KeysNotLessTransitive(a: seq<string>, b: seq<string>, c: seq<string>)
    requires !KeysLess(b, a) && !KeysLess(c, b)
    ensures !KeysLess(c, a)
  {
    KeysLessTotal(a, b);
    KeysLessTotal(b, c);
    if KeysLess(c, a) {
      if KeysLess(a, b) {
        KeysLessTransitive(c, a, b);
        KeysLessAsymmetric(c, b);
      } else {
        KeysLessAsymmetric(c, a);
      }
    }
  }

  // ------------------------------------------------ sets of strings, sorted

  /** A Python `set` of strings as `sorted(...)` returns it. */
  ghost predicate StrictlySorted(s: seq<string>)
  {
    forall i, j :: 0 <= i < j < |s| ==> StrLess(s[i], s[j])
  }

  lemma SortedCons(x: string, s: seq<string>)
    requires StrictlySorted(s)
    requires forall y :: y in s ==> StrLess(x, y)
    ensures StrictlySorted([x] + s)
  {
    forall i, j | 0 <= i < j < |[x] + s|
      ensures StrLess(([x] + s)[i], ([x] + s)[j])
    {
      if i > 0 {
        assert ([x] + s)[i] == s[i - 1] && ([x] + s)[j] == s[j - 1];
      } else {
        assert ([x] + s)[j] == s[j - 1];
      }
    }
  }

  /** `set.add(x)` on the sorted view of the set. */
  function Insert(s: seq<string>, x: string): (r: seq<string>)
    ensures |r| <= |s| + 1
    decreases |s|
  {
    if s == [] then [x]
    else if x == s[0] then s
    else if StrLess(x, s[0]) then [x] + s
    else [s[0]] + Insert(s[1..], x)
  }

  /** Adding to a set adds exactly that element. */
  lemma {:induction false} InsertMembers(s: seq<string>, x: string)
    ensures forall y :: y in Insert(s, x) <==> y in s || y == x
    decreases |s|
  {
    if s != [] && x != s[0] && !StrLess(x, s[0]) {
      InsertMembers(s[1..], x);
      assert forall y :: y in s <==> y == s[0] || y in s[1..];
    }
  }

  /** Insertion keeps the view sorted. */
  lemma {:induction false} InsertSorted(s: seq<string>, x: string)
    requires StrictlySorted(s)
    ensures StrictlySorted(Insert(s, x))
    decreases |s|
  {
    if s != [] && x != s[0] {
      if StrLess(x, s[0]) {
        InsertBelowHead(x, s);
      } else {
        InsertSorted(s[1..], x);
        InsertMembers(s[1..], x);
        InsertAboveHead(x, s, Insert(s[1..], x));
      }
    }
  }

  lemma InsertBelowHead(x: string, s: seq<string>)
    requires StrictlySorted(s) && s != [] && StrLess(x, s[0])
    ensures StrictlySorted([x] + s)
  {
    forall y | y in s
      ensures StrLess(x, y)
    {
      var k :| 0 <= k < |s| && s[k] == y;
      if k > 0 {
        StrLessTransitive(x, s[0], y);
      }
    }
    SortedCons(x, s);
  }

  lemma InsertAboveHead(x: string, s: seq<string>, t: seq<string>)
    requires StrictlySorted(s) && s != [] && x != s[0] && !StrLess(x, s[0])
    requires StrictlySorted(t)
    requires forall y :: y in t <==> y in s[1..] || y == x
    ensures StrictlySorted([s[0]] + t)
  {
    StrLessTotal(x, s[0]);
    forall y | y in t
      ensures StrLess(s[0], y)
    {
      if y != x {
        var k :| 0 <= k < |s[1..]| && s[1..][k] == y;
        assert s[k + 1] == y;
      }
    }
    SortedCons(s[0], t);
  }

  /** A set has exactly one sorted view: two strictly increasing sequences
      with the same elements are equal. */
  lemma {:induction false} SortedSetUnique(a: seq<string>, b: seq<string>)
    requires StrictlySorted(a) && StrictlySorted(b)
    requires forall y :: y in a <==> y in b
    ensures a == b
    decreases |a|
  {
    if a != [] {
      assert a[0] in b;
    }
    if b != [] {
      assert b[0] in a;
    }
    if a != [] && b != [] {
      if a[0] != b[0] {
        assert a[0] in a && b[0] in b;
        var i :| 0 <= i < |b| && b[i] == a[0];
        var j :| 0 <= j < |a| && a[j] == b[0];
        assert i > 0 && j > 0;
        StrLessAsymmetric(b[0], a[0]);
      }
      forall y
        ensures y in a[1..] <==> y in b[1..]
      {
        if y in a[1..] {
          var k :| 0 <= k < |a[1..]| && a[1..][k] == y;
          assert StrLess(a[0], a[k + 1]);
          StrLessIrreflexive(y);
          assert y in b && y != b[0];
          var m :| 0 <= m < |b| && b[m] == y;
          assert b[1..][m - 1] == y;
        }
        if y in b[1..] {
          var k :| 0 <= k < |b[1..]| && b[1..][k] == y;
          assert StrLess(b[0], b[k + 1]);
          StrLessIrreflexive(y);
          assert y in a && y != a[0];
          var m :| 0 <= m < |a| && a[m] == y;
          assert a[1..][m - 1] == y;
        }
      }
      SortedSetUnique(a[1..], b[1..]);
      assert a == [a[0]] + a[1..] && b == [b[0]] + b[1..];
    }
  }

  // ------------------------------------------------------ stable sort by key

  /** Inserts `x` after every element whose key is not greater than its own. */
  function InsertBy<T>(r: seq<T>, x: T, key: T -> seq<string>): (res: seq<T>)
    ensures multiset(res) == multiset(r) + multiset{x}
    decreases |r|
  {
    if r == [] then [x]
    else if KeysLess(key(x), key(r[|r| - 1])) then
      assert r == r[..|r| - 1] + [r[|r| - 1]];
      InsertBy(r[..|r| - 1], x, key) + [r[|r| - 1]]
    else r + [x]
  }

  /** `list.sort(key=key)` and `sorted(s, key=key)`: Python's sort is stable,
      and stable insertion sort is the one sort with that result. */
  function SortBy<T>(s: seq<T>, key: T -> seq<string>): (r: seq<T>)
    ensures multiset(r) == multiset(s)
  {
    if s == [] then []
    else
      assert s == s[..|s| - 1] + [s[|s| - 1]];
      InsertBy(SortBy(s[..|s| - 1], key), s[|s| - 1], key)
  }

  ghost predicate SortedBy<T>(s: seq<T>, key: T -> seq<string>)
  {
    forall i, j :: 0 <= i < j < |s| ==> !KeysLess(key(s[j]), key(s[i]))
  }

  lemma {:induction false} InsertBySorted<T>(r: seq<T>, x: T, key: T -> seq<string>)
    requires SortedBy(r, key)
    ensures SortedBy(InsertBy(r, x, key), key)
    decreases |r|
  {
    if r != [] {
      var last := r[|r| - 1];
      var res := InsertBy(r, x, key);
      if KeysLess(key(x), key(last)) {
        var p := r[..|r| - 1];
        InsertBySorted(p, x, key);
        var q := InsertBy(p, x, key);
        assert res == q + [last];
        forall i | 0 <= i < |q|
          ensures !KeysLess(key(last), key(q[i]))
        {
          assert q[i] in multiset(q);
          if q[i] == x {
            KeysLessAsymmetric(key(x), key(last));
          } else {
            assert q[i] in multiset(p);
            var k :| 0 <= k < |p| && p[k] == q[i];
            assert r[k] == q[i];
          }
        }
      } else {
        forall i | 0 <= i < |r|
          ensures !KeysLess(key(x), key(r[i]))
        {
          if i < |r| - 1 {
            KeysNotLessTransitive(key(r[i]), key(last), key(x));
          }
        }
      }
    }
  }

  /** The sorted list is ordered by key. */
  lemma {:induction false} SortBySorted<T>(s: seq<T>, key: T -> seq<string>)
    ensures SortedBy(SortBy(s, key), key)
  {
    if s != [] {
      SortBySorted(s[..|s| - 1], key);
      InsertBySorted(SortBy(s[..|s| - 1], key), s[|s| - 1], key);
    }
  }

  ghost predicate StableBy<T>(s: seq<T>, key: T -> seq<string>, rank: T -> int)
  {
    forall i, j :: 0 <= i < j < |s| && key(s[i]) == key(s[j]) ==> rank(s[i]) < rank(s[j])
  }

  lemma {:induction false} InsertByStable<T>(r: seq<T>, x: T, key: T -> seq<string>, rank: T -> int)
    requires StableBy(r, key, rank)
    requires forall y :: y in r ==> rank(y) < rank(x)
    ensures StableBy(InsertBy(r, x, key), key, rank)
    decreases |r|
  {
    if r != [] {
      var last := r[|r| - 1];
      if KeysLess(key(x), key(last)) {
        var p := r[..|r| - 1];
        assert forall y :: y in p ==> y in r;
        InsertByStable(p, x, key, rank);
        KeysLessIrreflexive(key(x));
        forall k | 0 <= k < |p| && key(p[k]) == key(last)
          ensures rank(p[k]) < rank(last)
        {
          assert r[k] == p[k];
        }
        InsertByBelow(p, x, key, rank, last);
      }
    }
  }

  /** Inserting an item whose key differs from `last`'s keeps every item
      with `last`'s key ranked below it. */
  lemma InsertByBelow<T>(p: seq<T>, x: T, key: T -> seq<string>, rank: T -> int, last: T)
    requires key(x) != key(last)
    requires forall k :: 0 <= k < |p| && key(p[k]) == key(last) ==> rank(p[k]) < rank(last)
    ensures forall i :: 0 <= i < |InsertBy(p, x, key)| && key(InsertBy(p, x, key)[i]) == key(last) ==>
              rank(InsertBy(p, x, key)[i]) < rank(last)
  {
    var q := InsertBy(p, x, key);
    forall i | 0 <= i < |q| && key(q[i]) == key(last)
      ensures rank(q[i]) < rank(last)
    {
      assert q[i] in multiset(q);
      assert q[i] in multiset(p);
      var k :| 0 <= k < |p| && p[k] == q[i];
    }
  }

  /** Stability: when the input is in increasing `rank` order, equal keys
      keep that order in the output. */
  lemma {:induction false} SortByStable<T>(s: seq<T>, key: T -> seq<string>, rank: T -> int)
    requires forall i, j :: 0 <= i < j < |s| ==> rank(s[i]) < rank(s[j])
    ensures StableBy(SortBy(s, key), key, rank)
  {
    if s != [] {
      var p := s[..|s| - 1];
      SortByStable(p, key, rank);
      forall y | y in SortBy(p, key)
        ensures rank(y) < rank(s[|s| - 1])
      {
        assert y in multiset(SortBy(p, key));
        var k :| 0 <= k < |p| && p[k] == y;
      }
      InsertByStable(SortBy(p, key), s[|s| - 1], key, rank);
    }
  }
}
