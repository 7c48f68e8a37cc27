/**
 * Small helpers shared by every component model: an optional value, the
 * JavaScript string tests the console relies on (`includes`, and `trim()`
 * producing the empty string), and filtering that keeps relative order.
 */
module Common {

  datatype Option<+T> = None | Some(value: T)

  /** The toast a handler raises (`message.warning`, `message.error`,
      `message.success`), or none. */
  datatype Feedback = Silent | Warning(text: string) | Error(text: string) | Success(text: string)

  /** A code point that ECMAScript's `String.prototype.trim` strips:
      WhiteSpace (TAB, VT, FF, ZWNBSP and every Space_Separator) and
      LineTerminator (LF, CR, LS, PS). */
  predicate IsJsWhitespace(c: char)
  {
    || c == '\U{0009}' || c == '\U{000B}' || c == '\U{000C}' || c == '\U{FEFF}'
    || c == '\U{0020}' || c == '\U{00A0}' || c == '\U{1680}'
    || ('\U{2000}' <= c <= '\U{200A}')
    || c == '\U{202F}' || c == '\U{205F}' || c == '\U{3000}'
    || c == '\U{000A}' || c == '\U{000D}' || c == '\U{2028}' || c == '\U{2029}'
  }

  /** `!s.trim()`: trimming leaves nothing, i.e. every character is whitespace. */
  predicate IsBlank(s: string)
  {
    forall i :: 0 <= i < |s| ==> IsJsWhitespace(s[i])
  }

  /** `s.includes(sub)`: `sub` occurs in `s` at some position. */
  predicate Contains(s: string, sub: string)
  {
    sub <= s || (s != [] && Contains(s[1..], sub))
  }

  /** `r` is `s` with some elements dropped and the rest kept in order. */
  predicate IsSubsequence<T(==)>(r: seq<T>, s: seq<T>)
    decreases |s|
  {
    if r == [] then true
    else if s == [] then false
    else if r[0] == s[0] then IsSubsequence(r[1..], s[1..])
    else IsSubsequence(r, s[1..])
  }

  lemma {:induction false} SubsequenceMembers<T>(r: seq<T>, s: seq<T>)
    requires IsSubsequence(r, s)
    ensures |r| <= |s|
    ensures forall x :: x in r ==> x in s
    decreases |s|
  {
    if r != [] && s != [] {
      assert r == [r[0]] + r[1..] && s == [s[0]] + s[1..];
      if r[0] == s[0] {
        SubsequenceMembers(r[1..], s[1..]);
      } else {
        SubsequenceMembers(r, s[1..]);
      }
    }
  }

  /** Narrowing a filter's condition keeps a subsequence of the wider filter. */
  lemma {:induction false} FilterNarrow<T(!new)>(s: seq<T>, p: T -> bool, q: T -> bool)
    requires forall x :: p(x) ==> q(x)
    ensures IsSubsequence(Filter(s, p), Filter(s, q))
  {
    if s != [] {
      FilterNarrow(s[1..], p, q);
      if !p(s[0]) && q(s[0]) {
        SubsequenceSkip(Filter(s[1..], p), s[0], Filter(s[1..], q));
      }
    }
  }

  lemma {:induction false} SubsequenceSkip<T>(r: seq<T>, x: T, s: seq<T>)
    requires IsSubsequence(r, s)
    ensures IsSubsequence(r, [x] + s)
    decreases |s|, 1
  {
    assert ([x] + s)[1..] == s;
    if r != [] && r[0] == x {
      SubsequenceDropHead(r, s);
    }
  }

  lemma {:induction false} SubsequenceDropHead<T>(r: seq<T>, s: seq<T>)
    requires r != [] && IsSubsequence(r, s)
    ensures IsSubsequence(r[1..], s)
    decreases |s|, 0
  {
    assert [s[0]] + s[1..] == s;
    if r[0] != s[0] {
      SubsequenceDropHead(r, s[1..]);
    }
    SubsequenceSkip(r[1..], s[0], s[1..]);
  }

  /** `Array.prototype.filter`: the elements satisfying `p`, in their original order. */
  function Filter<T(==,!new)>(s: seq<T>, p: T -> bool): (r: seq<T>)
    ensures forall x :: x in r <==> x in s && p(x)
    ensures forall i :: 0 <= i < |r| ==> p(r[i])
    ensures IsSubsequence(r, s)
  {
    if s == [] then []
    else if p(s[0]) then [s[0]] + Filter(s[1..], p)
    else Filter(s[1..], p)
  }

  lemma {:induction false} FilterAppend<T(!new)>(a: seq<T>, b: seq<T>, p: T -> bool)
    ensures Filter(a + b, p) == Filter(a, p) + Filter(b, p)
  {
    if a != [] {
      var t := a[1..] + b;
      assert a + b == [a[0]] + t;
      assert a == [a[0]] + a[1..];
      FilterCons(a[0], t, p);
      FilterCons(a[0], a[1..], p);
      FilterAppend(a[1..], b, p);
    } else {
      assert a + b == b;
    }
  }

  lemma FilterCons<T(!new)>(x: T, s: seq<T>, p: T -> bool)
    ensures Filter([x] + s, p) == if p(x) then [x] + Filter(s, p) else Filter(s, p)
  {
    assert ([x] + s)[1..] == s;
  }

  /** Filtering by a test every element passes changes nothing. */
  lemma {:induction false} FilterKeepsEverything<T(!new)>(s: seq<T>, p: T -> bool)
    requires forall k :: 0 <= k < |s| ==> p(s[k])
    ensures Filter(s, p) == s
  {
    if s != [] {
      FilterKeepsEverything(s[1..], p);
    }
  }

  /** Filtering keeps each element that passes as often as `s` holds it, and
      none of the others. */
  lemma {:induction false} FilterMultiplicity<T(!new)>(s: seq<T>, p: T -> bool)
    ensures forall x :: multiset(Filter(s, p))[x] == if p(x) then multiset(s)[x] else 0
  {
    if s != [] {
      var x, t := s[0], s[1..];
      assert s == [x] + t;
      FilterMultiplicity(t, p);
      FilterCons(x, t, p);
      assert multiset(s) == multiset{x} + multiset(t);
    }
  }

  /** Filtering with `p` and with its negation splits `s` into two parts
      that together hold every element exactly as often as `s` does. */
  lemma {:induction false} FilterPartition<T(!new)>(s: seq<T>, p: T -> bool, q: T -> bool)
    requires forall x :: q(x) == !p(x)
    ensures multiset(Filter(s, p)) + multiset(Filter(s, q)) == multiset(s)
    ensures |Filter(s, p)| + |Filter(s, q)| == |s|
  {
    if s != [] {
      var x, t := s[0], s[1..];
      assert s == [x] + t;
      FilterPartition(t, p, q);
      FilterCons(x, t, p);
      FilterCons(x, t, q);
      if p(x) {
        assert Filter(s, q) == Filter(t, q);
        assert multiset(Filter(s, p)) == multiset{x} + multiset(Filter(t, p));
      } else {
        assert Filter(s, p) == Filter(t, p);
        assert multiset(Filter(s, q)) == multiset{x} + multiset(Filter(t, q));
      }
      assert multiset(s) == multiset{x} + multiset(t);
    }
  }

  lemma {:induction false} SubsequenceSkipPrefix<T>(r: seq<T>, p: seq<T>, s: seq<T>)
    requires IsSubsequence(r, s)
    ensures IsSubsequence(r, p + s)
    decreases |p|
  {
    if p == [] {
      assert p + s == s;
    } else {
      SubsequenceSkipPrefix(r, p[1..], s);
      SubsequenceSkip(r, p[0], p[1..] + s);
      assert [p[0]] + (p[1..] + s) == p + s;
    }
  }

  lemma {:induction false} SubsequenceCons<T>(x: T, r: seq<T>, s: seq<T>)
    requires IsSubsequence(r, s)
    ensures IsSubsequence([x] + r, [x] + s)
  {
    assert ([x] + r)[1..] == r && ([x] + s)[1..] == s;
  }

  lemma {:induction false} SubsequenceAppend<T>(a: seq<T>, b: seq<T>, c: seq<T>, d: seq<T>)
    requires IsSubsequence(a, b) && IsSubsequence(c, d)
    ensures IsSubsequence(a + c, b + d)
    decreases |b|
  {
    if b == [] {
      assert a == [] && a + c == c;
      SubsequenceSkipPrefix(c, b, d);
    } else {
      assert (b + d)[1..] == b[1..] + d;
      if a != [] && a[0] == b[0] {
        SubsequenceAppend(a[1..], b[1..], c, d);
        assert (a + c)[1..] == a[1..] + c;
      } else {
        SubsequenceAppend(a, b[1..], c, d);
        SubsequenceSkip(a + c, b[0], b[1..] + d);
        assert [b[0]] + (b[1..] + d) == b + d;
      }
    }
  }

  /** Position of the first occurrence of `x` in `s`. */
  function IndexOf<T(==)>(s: seq<T>, x: T): (r: nat)
    requires x in s
    ensures r < |s| && s[r] == x
    ensures forall j :: 0 <= j < r ==> s[j] != x
  {
    if s[0] == x then 0 else 1 + IndexOf(s[1..], x)
  }

  lemma {:induction false} IndexOfAfterPrefix<T>(p: seq<T>, a: seq<T>, x: T)
    requires x !in p && x in a
    ensures IndexOf(p + a, x) == |p| + IndexOf(a, x)
  {
    if p != [] {
      assert (p + a)[1..] == p[1..] + a;
      IndexOfAfterPrefix(p[1..], a, x);
    } else {
      assert p + a == a;
    }
  }

  lemma {:induction false} IndexOfInPrefix<T>(a: seq<T>, q: seq<T>, x: T)
    requires x in a
    ensures IndexOf(a + q, x) == IndexOf(a, x)
  {
    if a[0] != x {
      assert (a + q)[1..] == a[1..] + q;
      IndexOfInPrefix(a[1..], q, x);
    }
  }

  /** Where `x` first occurs in `h + a + r` when it first occurs in `a`, read
      off a parallel sequence cut into pieces of the same lengths. */
  lemma ParallelIndexInMiddle<T, U>(h: seq<T>, a: seq<T>, r: seq<T>, dh: seq<U>, da: seq<U>, dr: seq<U>, x: T)
    requires |h| == |dh| && |a| == |da| && |r| == |dr|
    requires x !in h && x in a
    ensures x in h + a + r && (dh + da + dr)[IndexOf(h + a + r, x)] == da[IndexOf(a, x)]
  {
    assert h + a + r == h + (a + r);
    IndexOfInPrefix(a, r, x);
    IndexOfAfterPrefix(h, a + r, x);
  }

  /** The same when `x` first occurs in `r`. */
  lemma ParallelIndexInLast<T, U>(h: seq<T>, a: seq<T>, r: seq<T>, dh: seq<U>, da: seq<U>, dr: seq<U>, x: T)
    requires |h| == |dh| && |a| == |da| && |r| == |dr|
    requires x !in h && x !in a && x in r
    ensures x in h + a + r && (dh + da + dr)[IndexOf(h + a + r, x)] == dr[IndexOf(r, x)]
  {
    IndexOfAfterPrefix(h + a, r, x);
  }

  /** No element occurs twice. */
  predicate Distinct<T(==)>(s: seq<T>)
  {
    forall i, j :: 0 <= i < j < |s| ==> s[i] != s[j]
  }

  /** A sequence without repetitions has as many elements as its set. */
  lemma {:induction false} DistinctCardinality<T>(s: seq<T>)
    requires Distinct(s)
    ensures |set x | x in s| == |s|
  {
    if s != [] {
      DistinctCardinality(s[1..]);
      assert (set x | x in s) == {s[0]} + (set x | x in s[1..]);
      assert s[0] !in s[1..];
    }
  }
}
