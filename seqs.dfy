/** Sequence facts shared by the services: order-preserving subsequences,
    `dict.fromkeys` de-duplication and the "last one wins" dictionary that a
    `for` loop assigning `d[key(x)] = x` builds. */
module Seqs {

  /** `a` is obtained from `b` by deleting elements, keeping the order. */
  predicate IsSubsequence<T(==)>(a: seq<T>, b: seq<T>)
    decreases |b|
  {
    if a == [] then true
    else if b == [] then false
    else if a[0] == b[0] then IsSubsequence(a[1..], b[1..])
    else IsSubsequence(a, b[1..])
  }

  lemma {:induction false} SubsequenceExtendRight<T>(a: seq<T>, b: seq<T>, y: T)
    requires IsSubsequence(a, b)
    ensures IsSubsequence(a, b + [y])
    decreases |b|
  {
    if a != [] && b != [] {
      assert (b + [y])[1..] == b[1..] + [y];
      if a[0] == b[0] {
        SubsequenceExtendRight(a[1..], b[1..], y);
      } else {
        SubsequenceExtendRight(a, b[1..], y);
      }
    }
  }

  lemma {:induction false} SubsequenceExtendBoth<T>(a: seq<T>, b: seq<T>, y: T)
    requires IsSubsequence(a, b)
    ensures IsSubsequence(a + [y], b + [y])
    decreases |b|
  {
    if a == [] {
      SubsequenceLast(b, y);
      assert a + [y] == [y];
    } else {
      assert (a + [y])[1..] == a[1..] + [y];
      assert (b + [y])[1..] == b[1..] + [y];
      if a[0] == b[0] {
        SubsequenceExtendBoth(a[1..], b[1..], y);
      } else {
        SubsequenceExtendBoth(a, b[1..], y);
      }
    }
  }

  lemma {:induction false} SubsequenceLast<T>(b: seq<T>, y: T)
    ensures IsSubsequence([y], b + [y])
    decreases |b|
  {
    if b != [] && b[0] != y {
      assert (b + [y])[1..] == b[1..] + [y];
      SubsequenceLast(b[1..], y);
    }
  }

  lemma SnocSlice<T>(a: seq<T>, b: seq<T>, j: nat)
    requires j < |b|
    ensures a + b[..j + 1] == (a + b[..j]) + [b[j]]
  {
    assert b[..j + 1] == b[..j] + [b[j]];
  }

  /** Appending one element after a concatenation. */
  lemma SnocAssoc<T>(a: seq<T>, b: seq<T>, x: T)
    ensures a + (b + [x]) == (a + b) + [x]
  {
  }

  /** Appending four pieces one after another appends their concatenation. */
  lemma AppendFour<T>(a: seq<T>, b: seq<T>, c: seq<T>, d: seq<T>, e: seq<T>)
    ensures a + b + c + d + e == a + (b + c + d + e)
  {
  }

  /** `[x for x in s if p(x)]`, built from the front as a loop appending
      to a list does. */
  function Filter<T>(s: seq<T>, p: T -> bool): seq<T>
  {
    if s == [] then []
    else Filter(s[..|s| - 1], p) + (if p(s[|s| - 1]) then [s[|s| - 1]] else [])
  }

  /** One more element of the input adds it to the filter when it passes. */
  lemma FilterStep<T>(s: seq<T>, p: T -> bool, i: nat)
    requires i < |s|
    ensures Filter(s[..i + 1], p) == Filter(s[..i], p) + (if p(s[i]) then [s[i]] else [])
  {
    assert s[..i + 1][..i] == s[..i];
  }

  /** A filter keeps, in order, exactly the elements that pass. */
  lemma {:induction false} FilterKeeps<T>(s: seq<T>, p: T -> bool)
    ensures IsSubsequence(Filter(s, p), s)
    ensures forall x :: x in Filter(s, p) <==> x in s && p(x)
  {
    if s != [] {
      var pre := s[..|s| - 1];
      var y := s[|s| - 1];
      FilterKeeps(pre, p);
      assert s == pre + [y];
      assert Filter(s, p) == Filter(pre, p) + (if p(y) then [y] else []);
      if p(y) {
        SubsequenceExtendBoth(Filter(pre, p), pre, y);
      } else {
        assert Filter(s, p) == Filter(pre, p);
        SubsequenceExtendRight(Filter(pre, p), pre, y);
      }
    }
  }

  /** A filter is no longer than its input. */
  lemma {:induction false} FilterLength<T>(s: seq<T>, p: T -> bool)
    ensures |Filter(s, p)| <= |s|
  {
    if s != [] {
      FilterLength(s[..|s| - 1], p);
    }
  }

  /** Filtering two runs filters each in turn. */
  lemma {:induction false} FilterAppend<T>(a: seq<T>, b: seq<T>, p: T -> bool)
    ensures Filter(a + b, p) == Filter(a, p) + Filter(b, p)
    decreases |b|
  {
    if b == [] {
      assert a + b == a;
    } else {
      var pre := b[..|b| - 1];
      FilterAppend(a, pre, p);
      assert (a + b)[..|a + b| - 1] == a + pre;
      assert (a + b)[|a + b| - 1] == b[|b| - 1];
    }
  }

  /** A filter every element passes keeps the whole sequence. */
  lemma {:induction false} FilterAll<T>(s: seq<T>, p: T -> bool)
    requires forall i :: 0 <= i < |s| ==> p(s[i])
    ensures Filter(s, p) == s
  {
    if s != [] {
      FilterAll(s[..|s| - 1], p);
      assert s == s[..|s| - 1] + [s[|s| - 1]];
    }
  }

  /** Filtering twice still keeps elements of the original, in order. */
  lemma {:induction false} FilterTwice<T>(s: seq<T>, p: T -> bool, q: T -> bool)
    ensures IsSubsequence(Filter(Filter(s, p), q), s)
  {
    if s != [] {
      var pre := s[..|s| - 1];
      var y := s[|s| - 1];
      FilterTwice(pre, p, q);
      var f := Filter(Filter(pre, p), q);
      assert s == pre + [y];
      if p(y) {
        var a := Filter(pre, p) + [y];
        assert Filter(s, p) == a;
        assert a[..|a| - 1] == Filter(pre, p);
        assert Filter(a, q) == f + (if q(y) then [y] else []);
        if q(y) {
          SubsequenceExtendBoth(f, pre, y);
        } else {
          assert f + [] == f;
          SubsequenceExtendRight(f, pre, y);
        }
      } else {
        assert Filter(s, p) == Filter(pre, p);
        SubsequenceExtendRight(f, pre, y);
      }
    }
  }

  predicate Distinct<T(==)>(s: seq<T>)
  {
    forall i, j :: 0 <= i < j < |s| ==> s[i] != s[j]
  }

  /** Index of the first occurrence of `x` in `s`. */
  function FirstIndex<T(==)>(s: seq<T>, x: T): (i: nat)
    requires x in s
    ensures i < |s| && s[i] == x && x !in s[..i]
  {
    if s[0] == x then 0 else FirstIndex(s[1..], x) + 1
  }

  lemma FirstIndexExtend<T>(s: seq<T>, y: T, x: T)
    requires x in s
    ensures FirstIndex(s + [y], x) == FirstIndex(s, x)
  {
    var i := FirstIndex(s, x);
    assert (s + [y])[i] == x && (s + [y])[..i] == s[..i];
  }

  /** `list(dict.fromkeys(s))`: each element once, at its first occurrence. */
  function Dedup<T(==,!new)>(s: seq<T>): (r: seq<T>)
    ensures forall x :: x in r <==> x in s
    ensures |r| <= |s|
  {
    if s == [] then []
    else
      var d := Dedup(s[..|s| - 1]);
      assert forall x :: x in s <==> x in s[..|s| - 1] || x == s[|s| - 1];
      if s[|s| - 1] in d then d else d + [s[|s| - 1]]
  }

  lemma {:induction false} DedupDistinct<T(!new)>(s: seq<T>)
    ensures Distinct(Dedup(s))
  {
    if s != [] {
      DedupDistinct(s[..|s| - 1]);
    }
  }

  lemma {:induction false} DedupSubsequence<T(!new)>(s: seq<T>)
    ensures IsSubsequence(Dedup(s), s)
  {
    if s != [] {
      var p := s[..|s| - 1];
      DedupSubsequence(p);
      assert s == p + [s[|s| - 1]];
      if s[|s| - 1] in Dedup(p) {
        SubsequenceExtendRight(Dedup(p), p, s[|s| - 1]);
      } else {
        SubsequenceExtendBoth(Dedup(p), p, s[|s| - 1]);
      }
    }
  }

  /** The kept elements appear in the order of their first occurrences. */
  lemma {:induction false} DedupFirstOccurrence<T(!new)>(s: seq<T>)
    ensures forall i, j :: 0 <= i < j < |Dedup(s)| ==>
              FirstIndex(s, Dedup(s)[i]) < FirstIndex(s, Dedup(s)[j])
  {
    if s != [] {
      var p := s[..|s| - 1];
      var y := s[|s| - 1];
      DedupFirstOccurrence(p);
      assert s == p + [y];
      var d := Dedup(s);
      forall i, j | 0 <= i < j < |d|
        ensures FirstIndex(s, d[i]) < FirstIndex(s, d[j])
      {
        FirstIndexExtend(p, y, d[i]);
        if j < |Dedup(p)| {
          FirstIndexExtend(p, y, d[j]);
        } else {
          assert d[j] == y && y !in p;
          assert FirstIndex(s, y) == |p|;
        }
      }
    }
  }

  lemma {:induction false} DedupOfDistinct<T(!new)>(s: seq<T>)
    requires Distinct(s)
    ensures Dedup(s) == s
  {
    if s != [] {
      DedupOfDistinct(s[..|s| - 1]);
      assert s == s[..|s| - 1] + [s[|s| - 1]];
    }
  }

  // ------------------------------------------------------ last one wins

  /** The dict comprehension `{key(x): x for x in s[:i] if key(x)}`: for
      each non-empty key, the last of the first `i` elements carrying it. */
  function IndexPrefix<T>(s: seq<T>, key: T -> string, i: nat): map<string, T>
    requires i <= |s|
  {
    if i == 0 then map[]
    else
      var m := IndexPrefix(s, key, i - 1);
      var k := key(s[i - 1]);
      if k == "" then m else m[k := s[i - 1]]
  }

  lemma IndexPrefixStep<T>(s: seq<T>, key: T -> string, i: nat)
    requires i < |s|
    ensures IndexPrefix(s, key, i + 1) ==
              if key(s[i]) == "" then IndexPrefix(s, key, i) else IndexPrefix(s, key, i)[key(s[i]) := s[i]]
  {
  }

  /** `{key(x): x for x in s if key(x)}`, and the loops that assign
      `d[key(x)] = x` after skipping an empty key. */
  function IndexLast<T>(s: seq<T>, key: T -> string): map<string, T>
  {
    IndexPrefix(s, key, |s|)
  }

  /** Elements after position `i` do not affect the first `i`. */
  lemma {:induction false} IndexPrefixAppend<T>(s: seq<T>, t: seq<T>, key: T -> string, i: nat)
    requires i <= |s|
    ensures IndexPrefix(s + t, key, i) == IndexPrefix(s, key, i)
  {
    if i > 0 {
      IndexPrefixAppend(s, t, key, i - 1);
      assert (s + t)[i - 1] == s[i - 1];
    }
  }

  /** One more element files itself under its key, unless the key is empty. */
  lemma IndexLastSnoc<T>(s: seq<T>, x: T, key: T -> string)
    ensures IndexLast(s + [x], key) ==
              if key(x) == "" then IndexLast(s, key) else IndexLast(s, key)[key(x) := x]
  {
    IndexPrefixAppend(s, [x], key, |s|);
    assert (s + [x])[|s|] == x;
  }

  lemma {:induction false} IndexPrefixWins<T>(s: seq<T>, key: T -> string, i: nat, k: string)
    requires i <= |s|
    ensures k in IndexPrefix(s, key, i) <==> k != "" && exists p :: 0 <= p < i && key(s[p]) == k
    ensures k in IndexPrefix(s, key, i) ==>
              exists p :: 0 <= p < i && key(s[p]) == k && IndexPrefix(s, key, i)[k] == s[p]
                && forall q :: p < q < i ==> key(s[q]) != k
  {
    if i > 0 {
      IndexPrefixWins(s, key, i - 1, k);
    }
  }

  /** A key is present iff some element has it, and then it holds the last
      such element. */
  lemma IndexLastWins<T>(s: seq<T>, key: T -> string, k: string)
    ensures k in IndexLast(s, key) <==> k != "" && exists p :: 0 <= p < |s| && key(s[p]) == k
    ensures k in IndexLast(s, key) ==>
              exists p :: 0 <= p < |s| && key(s[p]) == k && IndexLast(s, key)[k] == s[p]
                && forall q :: p < q < |s| ==> key(s[q]) != k
  {
    IndexPrefixWins(s, key, |s|, k);
  }
}
