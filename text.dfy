/** The string helpers the services share: Python's `str.strip`, `str.lower`,
    the `norm` normalisation, substring containment, `str.join`,
    `str.split` and `str(int)`. */
module Text {

  /** The characters Python's `str.isspace` accepts, which are exactly the
      ones `str.strip()` removes. */
  predicate IsSpace(c: char)
  {
    || ('\t' <= c <= '\r')
    || ('\U{1C}' <= c <= ' ')
    || c == '\U{85}' || c == '\U{A0}' || c == '\U{1680}'
    || ('\U{2000}' <= c <= '\U{200A}')
    || c == '\U{2028}' || c == '\U{2029}' || c == '\U{202F}' || c == '\U{205F}'
    || c == '\U{3000}'
  }

  ghost predicate AllSpace(s: string)
  {
    forall i :: 0 <= i < |s| ==> IsSpace(s[i])
  }

  /** `s.lstrip()`: drops the leading white space (see StripLeftTrims). */
  function StripLeft(s: string): string
  {
    if s != [] && IsSpace(s[0]) then StripLeft(s[1..]) else s
  }

  /** `s.rstrip()`: drops the trailing white space (see StripRightTrims). */
  function StripRight(s: string): string
  {
    if s != [] && IsSpace(s[|s| - 1]) then StripRight(s[..|s| - 1]) else s
  }

  /** `lstrip` keeps a suffix of its argument, removes white space and
      nothing else, and leaves none at the front. */
  lemma {:induction false} StripLeftTrims(s: string)
    ensures var r := StripLeft(s);
            |r| <= |s| && r == s[|s| - |r|..]
            && (r != [] ==> !IsSpace(r[0])) && AllSpace(s[..|s| - |r|])
  {
    if s != [] && IsSpace(s[0]) {
      var r := StripLeft(s[1..]);
      StripLeftTrims(s[1..]);
      var p := s[..|s| - |r|];
      forall i | 0 <= i < |p|
        ensures IsSpace(p[i])
      {
        if i > 0 {
          assert p[i] == s[1..][..|s| - 1 - |r|][i - 1];
        }
      }
    }
  }

  /** `rstrip` keeps a prefix of its argument, removes white space and
      nothing else, and leaves none at the back. */
  lemma {:induction false} StripRightTrims(s: string)
    ensures var r := StripRight(s);
            |r| <= |s| && r == s[..|r|]
            && (r != [] ==> !IsSpace(r[|r| - 1])) && AllSpace(s[|r|..])
  {
    if s != [] && IsSpace(s[|s| - 1]) {
      var r := StripRight(s[..|s| - 1]);
      StripRightTrims(s[..|s| - 1]);
      assert s[|r|..] == s[..|s| - 1][|r|..] + [s[|s| - 1]];
    }
  }

  /** `s.strip()`. */
  function Strip(s: string): string
  {
    StripRight(StripLeft(s))
  }

  /** `str.lower` on one character. Only A-Z are folded (see README). */
  function LowerChar(c: char): char
  {
    if 'A' <= c <= 'Z' then (c as int + 32) as char else c
  }

  function Lower(s: string): string
  {
    seq(|s|, i requires 0 <= i < |s| => LowerChar(s[i]))
  }

  /** `norm` of search_service.py and `_norm` of graph_repo.py on a string:
      lower-case, then strip. NFKC folding is not modelled (see README). */
  function Norm(s: string): string
  {
    Strip(Lower(s))
  }

  /** `_safe_norm` of detail_repo.py: strip only, no case folding. */
  function SafeNorm(s: string): string
  {
    Strip(s)
  }

  /** Python's `needle in hay` on strings. */
  predicate Contains(hay: string, needle: string)
    decreases |hay|
  {
    needle <= hay || (hay != [] && Contains(hay[1..], needle))
  }

  /** `sep.join(parts)`. */
  function Join(parts: seq<string>, sep: string): string
  {
    if parts == [] then ""
    else if |parts| == 1 then parts[0]
    else parts[0] + sep + Join(parts[1..], sep)
  }

  /** Text found in `b` is found in anything ending with `b`. */
  lemma {:induction false} ContainsBehind(a: string, b: string, needle: string)
    requires Contains(b, needle)
    ensures Contains(a + b, needle)
  {
    if a == [] {
      assert a + b == b;
    } else {
      ContainsBehind(a[1..], b, needle);
      assert (a + b)[1..] == a[1..] + b;
      assert Contains((a + b)[1..], needle);
    }
  }

  /** Every part occurs in the joined text, the first at its start. */
  lemma {:induction false} JoinHasParts(parts: seq<string>, sep: string)
    ensures parts != [] ==> parts[0] <= Join(parts, sep)
    ensures forall k :: 0 <= k < |parts| ==> Contains(Join(parts, sep), parts[k])
  {
    if |parts| >= 2 {
      var rest := Join(parts[1..], sep);
      JoinHasParts(parts[1..], sep);
      assert Join(parts, sep) == parts[0] + sep + rest;
      forall k | 1 <= k < |parts|
        ensures Contains(Join(parts, sep), parts[k])
      {
        assert parts[k] == parts[1..][k - 1];
        ContainsBehind(parts[0] + sep, rest, parts[k]);
      }
    }
  }

  /** `s.split(sep)` for a one-character separator: the pieces between the
      separators, so that joining them back with `sep` gives `s`. */
  function Split(s: string, sep: char): (r: seq<string>)
    ensures |r| >= 1
    ensures forall i :: 0 <= i < |r| ==> sep !in r[i]
  {
    if s == [] then [""]
    else if s[0] == sep then [""] + Split(s[1..], sep)
    else
      var rest := Split(s[1..], sep);
      [[s[0]] + rest[0]] + rest[1..]
  }

  function DigitChar(d: nat): char
    requires d < 10
  {
    "0123456789"[d]
  }

  function NatToStr(n: nat): (r: string)
    ensures r != ""
  {
    if n < 10 then [DigitChar(n)] else NatToStr(n / 10) + [DigitChar(n % 10)]
  }

  /** `str(n)` for an int. */
  function IntToStr(n: int): (r: string)
    ensures r != ""
  {
    if n < 0 then "-" + NatToStr(-n) else NatToStr(n)
  }

  // ---------------------------------------------------------------- lemmas

  /** Joining the pieces of a split with the separator rebuilds the string. */
  lemma {:induction false} JoinSplit(s: string, sep: char)
    ensures Join(Split(s, sep), [sep]) == s
  {
    if s == [] {
    } else if s[0] == sep {
      JoinSplit(s[1..], sep);
      assert s == [sep] + s[1..];
    } else {
      var rest := Split(s[1..], sep);
      JoinSplit(s[1..], sep);
      if |rest| == 1 {
        assert s == [s[0]] + rest[0];
      } else {
        assert Join(rest, [sep]) == rest[0] + [sep] + Join(rest[1..], [sep]);
        assert s == [s[0]] + s[1..];
      }
    }
  }

  lemma {:induction false} SplitNoSeparator(s: string, sep: char)
    requires sep !in s
    ensures Split(s, sep) == [s]
  {
    if s != [] {
      SplitNoSeparator(s[1..], sep);
      assert s == [s[0]] + s[1..];
    }
  }

  lemma {:induction false} SplitAtSeparator(a: string, b: string, sep: char)
    requires sep !in a
    ensures Split(a + [sep] + b, sep) == [a] + Split(b, sep)
  {
    if a == [] {
      assert a + [sep] + b == [sep] + b;
    } else {
      SplitAtSeparator(a[1..], b, sep);
      assert (a + [sep] + b)[1..] == a[1..] + [sep] + b;
      assert [a[0]] + a[1..] == a;
    }
  }

  /** Splitting pieces that hold no separator, once joined, gives them back. */
  lemma {:induction false} SplitJoin(parts: seq<string>, sep: char)
    requires |parts| >= 1
    requires forall i :: 0 <= i < |parts| ==> sep !in parts[i]
    ensures Split(Join(parts, [sep]), sep) == parts
  {
    if |parts| == 1 {
      SplitNoSeparator(parts[0], sep);
    } else {
      SplitJoin(parts[1..], sep);
      SplitAtSeparator(parts[0], Join(parts[1..], [sep]), sep);
      assert [parts[0]] + parts[1..] == parts;
    }
  }

  lemma {:induction false} StripLeftPadding(pre: string, s: string)
    requires AllSpace(pre)
    ensures StripLeft(pre + s) == StripLeft(s)
  {
    if pre == [] {
      assert pre + s == s;
    } else {
      assert (pre + s)[0] == pre[0] && IsSpace(pre[0]);
      assert (pre + s)[1..] == pre[1..] + s;
      StripLeftPadding(pre[1..], s);
    }
  }

  lemma {:induction false} StripRightPadding(s: string, post: string)
    requires AllSpace(post)
    ensures StripRight(s + post) == StripRight(s)
  {
    if post == [] {
      assert s + post == s;
    } else {
      var p := post[..|post| - 1];
      assert (s + post)[|s + post| - 1] == post[|post| - 1] && IsSpace(post[|post| - 1]);
      assert (s + post)[..|s + post| - 1] == s + p;
      StripRightPadding(s, p);
    }
  }

  lemma {:induction false} StripLeftAppend(a: string, b: string)
    ensures StripLeft(a + b) == if StripLeft(a) == [] then StripLeft(b) else StripLeft(a) + b
  {
    if a == [] {
      assert a + b == b;
    } else {
      assert (a + b)[0] == a[0];
      assert (a + b)[1..] == a[1..] + b;
      if IsSpace(a[0]) {
        StripLeftAppend(a[1..], b);
      }
    }
  }

  /** White space around a string does not change its stripped form. */
  lemma StripIgnoresPadding(pre: string, s: string, post: string)
    requires AllSpace(pre) && AllSpace(post)
    ensures Strip(pre + s + post) == Strip(s)
  {
    assert pre + s + post == pre + (s + post);
    StripLeftPadding(pre, s + post);
    StripLeftAppend(s, post);
    var l := StripLeft(s);
    if l == [] {
      assert post + [] == post;
      StripLeftPadding(post, []);
    } else {
      StripRightPadding(l, post);
    }
  }

  /** `strip` leaves nothing exactly when the string is all white space. */
  lemma StripBlank(s: string)
    ensures Strip(s) == "" <==> AllSpace(s)
  {
    var l := StripLeft(s);
    StripLeftTrims(s);
    StripRightTrims(l);
    if AllSpace(s) {
      assert s + [] == s;
      StripLeftPadding(s, []);
    }
  }

  /** The normalised form is empty exactly when the text is all white
      space, which is when `if not qn` takes the empty-query branch. */
  lemma NormBlank(s: string)
    ensures Norm(s) == "" <==> AllSpace(s)
  {
    StripBlank(Lower(s));
    assert forall i :: 0 <= i < |s| ==> (IsSpace(Lower(s)[i]) <==> IsSpace(s[i]));
  }

  /** The normalised form holds no capital A-Z: it is a piece of the
      lower-cased text. */
  lemma NormHasNoCapitals(s: string)
    ensures forall i :: 0 <= i < |Norm(s)| ==> !('A' <= Norm(s)[i] <= 'Z')
  {
    var l := StripLeft(Lower(s));
    StripLeftTrims(Lower(s));
    StripRightTrims(l);
    forall i | 0 <= i < |Norm(s)|
      ensures !('A' <= Norm(s)[i] <= 'Z')
    {
      assert Norm(s)[i] == l[i] == Lower(s)[|s| - |l| + i];
    }
  }

  /** A string without white space at either end is its own stripped form. */
  lemma StripTrimmed(s: string)
    requires s == [] || (!IsSpace(s[0]) && !IsSpace(s[|s| - 1]))
    ensures Strip(s) == s
  {
  }
}
