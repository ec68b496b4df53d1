/** Shared value helpers: optional values, sequence folds and filters,
    ASCII string utilities and the integer rounding used by the
    JavaScript code (Math.round, Math.floor, the `%` operator). */
module Common {

  datatype Option<+T> = None | Some(value: T)

  /** The outcome of an operation that can fail with an error of type E. */
  datatype Result<+T, +E> = Success(value: T) | Failure(error: E)

  // ---------------------------------------------------------------------
  // Sequences
  // ---------------------------------------------------------------------

  /** Array.prototype.filter: the order-preserving subsequence satisfying p. */
  function Filter<T>(s: seq<T>, p: T -> bool): (r: seq<T>)
    ensures |r| <= |s|
  {
    if s == [] then []
    else if p(s[0]) then [s[0]] + Filter(s[1..], p)
    else Filter(s[1..], p)
  }

  /** What Filter keeps: exactly the elements that pass, and no more of each
      than the input has. */
  lemma {:induction false} FilterMembers<T>(s: seq<T>, p: T -> bool)
    ensures forall i :: 0 <= i < |Filter(s, p)| ==> p(Filter(s, p)[i]) && Filter(s, p)[i] in s
    ensures forall i :: 0 <= i < |s| && p(s[i]) ==> s[i] in Filter(s, p)
    ensures multiset(Filter(s, p)) <= multiset(s)
  {
    if s != [] {
      FilterMembers(s[1..], p);
      assert s == [s[0]] + s[1..];
      var r := Filter(s, p);
      var r' := Filter(s[1..], p);
      if p(s[0]) {
        assert r == [s[0]] + r';
        forall i | 0 <= i < |r| ensures p(r[i]) && r[i] in s {
          if i > 0 { assert r[i] == r'[i - 1]; }
        }
      } else {
        assert r == r';
      }
      forall i | 0 <= i < |s| && p(s[i]) ensures s[i] in r {
        if i > 0 { assert s[i] == s[1..][i - 1]; }
      }
    }
  }

  lemma {:induction false} FilterConcat<T>(a: seq<T>, b: seq<T>, p: T -> bool)
    ensures Filter(a + b, p) == Filter(a, p) + Filter(b, p)
  {
    if a == [] {
      assert a + b == b;
    } else {
      assert (a + b)[1..] == a[1..] + b;
      FilterConcat(a[1..], b, p);
    }
  }

  lemma FilterCons<T>(s: seq<T>, p: T -> bool)
    requires s != []
    ensures Filter(s, p) == (if p(s[0]) then [s[0]] else []) + Filter(s[1..], p)
  {
  }

  /** Filtering keeps everything exactly when every element passes. */
  lemma {:induction false} FilterAll<T>(s: seq<T>, p: T -> bool)
    requires forall i :: 0 <= i < |s| ==> p(s[i])
    ensures Filter(s, p) == s
  {
    if s != [] {
      FilterAll(s[1..], p);
    }
  }

  lemma FilterSnoc<T>(s: seq<T>, x: T, p: T -> bool)
    ensures Filter(s + [x], p) == Filter(s, p) + (if p(x) then [x] else [])
  {
    FilterConcat(s, [x], p);
    FilterCons([x], p);
    assert [x][1..] == [];
  }

  /** Filtering twice keeps what passes both filters. */
  lemma {:induction false} FilterFilter<T>(s: seq<T>, p: T -> bool, q: T -> bool, r: T -> bool)
    requires forall i :: 0 <= i < |s| ==> r(s[i]) == (p(s[i]) && q(s[i]))
    ensures Filter(Filter(s, p), q) == Filter(s, r)
  {
    if s != [] {
      FilterFilter(s[1..], p, q, r);
      FilterCons(s, p);
      FilterCons(s, r);
      if p(s[0]) {
        FilterCons(Filter(s, p), q);
        assert Filter(s, p)[1..] == Filter(s[1..], p);
      }
    }
  }

  /** No element occurs twice. */
  predicate Distinct<T(==)>(s: seq<T>)
  {
    forall a, b :: 0 <= a < b < |s| ==> s[a] != s[b]
  }

  /** A sequence without repeats holds each element at most once. */
  lemma {:induction false} DistinctOnce<T>(s: seq<T>, x: T)
    requires Distinct(s)
    ensures multiset(s)[x] <= 1
  {
    if s != [] {
      assert Distinct(s[1..]) by {
        forall a, b | 0 <= a < b < |s[1..]| ensures s[1..][a] != s[1..][b] {
          assert s[1..][a] == s[a + 1] && s[1..][b] == s[b + 1];
        }
      }
      DistinctOnce(s[1..], x);
      assert s == [s[0]] + s[1..];
      assert multiset(s) == multiset{s[0]} + multiset(s[1..]);
      if x == s[0] {
        assert x !in s[1..] by {
          forall j | 0 <= j < |s[1..]| ensures s[1..][j] != x {
            assert s[1..][j] == s[j + 1];
          }
        }
      }
    }
  }

  /** Reordering a sequence without repeats introduces none. */
  lemma DistinctPermutation<T>(a: seq<T>, b: seq<T>)
    requires Distinct(a) && multiset(a) == multiset(b)
    ensures Distinct(b)
  {
    forall i, j | 0 <= i < j < |b| ensures b[i] != b[j] {
      if b[i] == b[j] {
        assert b == b[..i] + [b[i]] + b[i + 1..j] + [b[j]] + b[j + 1..];
        assert multiset(b)[b[i]] >= 2;
        DistinctOnce(a, b[i]);
      }
    }
  }

  /** Number of elements satisfying p. */
  function Count<T>(s: seq<T>, p: T -> bool): (n: nat)
    ensures n <= |s|
    ensures n == |Filter(s, p)|
  {
    if s == [] then 0 else (if p(s[0]) then 1 else 0) + Count(s[1..], p)
  }

  lemma {:induction false} CountConcat<T>(a: seq<T>, b: seq<T>, p: T -> bool)
    ensures Count(a + b, p) == Count(a, p) + Count(b, p)
  {
    if a == [] {
      assert a + b == b;
    } else {
      assert (a + b)[1..] == a[1..] + b;
      CountConcat(a[1..], b, p);
    }
  }

  /** Sum of f over the elements of s (Array.prototype.reduce with +). */
  function SumOf<T>(s: seq<T>, f: T -> int): int
  {
    if s == [] then 0 else f(s[0]) + SumOf(s[1..], f)
  }

  lemma {:induction false} SumOfConcat<T>(a: seq<T>, b: seq<T>, f: T -> int)
    ensures SumOf(a + b, f) == SumOf(a, f) + SumOf(b, f)
  {
    if a == [] {
      assert a + b == b;
    } else {
      assert (a + b)[1..] == a[1..] + b;
      SumOfConcat(a[1..], b, f);
    }
  }

  lemma {:induction false} SumOfSnoc<T>(a: seq<T>, x: T, f: T -> int)
    ensures SumOf(a + [x], f) == SumOf(a, f) + f(x)
  {
    SumOfConcat(a, [x], f);
    assert SumOf([x], f) == f(x) + SumOf([x][1..], f);
  }

  /** The sum of a non-empty sequence is the sum of all but its last
      element plus the last. */
  lemma SumOfLast<T>(s: seq<T>, f: T -> int)
    requires s != []
    ensures SumOf(s, f) == SumOf(s[..|s| - 1], f) + f(s[|s| - 1])
  {
    assert s == s[..|s| - 1] + [s[|s| - 1]];
    SumOfSnoc(s[..|s| - 1], s[|s| - 1], f);
  }

  lemma {:induction false} SumOfNonNegative<T>(s: seq<T>, f: T -> int)
    requires forall i :: 0 <= i < |s| ==> f(s[i]) >= 0
    ensures SumOf(s, f) >= 0
  {
    if s != [] {
      SumOfNonNegative(s[1..], f);
    }
  }

  /** Sums of pointwise equal terms are equal. */
  lemma {:induction false} SumOfPointwise<T>(s: seq<T>, f: T -> int, g: T -> int)
    requires forall i :: 0 <= i < |s| ==> f(s[i]) == g(s[i])
    ensures SumOf(s, f) == SumOf(s, g)
  {
    if s != [] {
      SumOfPointwise(s[1..], f, g);
    }
  }

  /** The sum of pointwise sums is the sum of the two sums. */
  lemma {:induction false} SumOfAdd<T>(s: seq<T>, f: T -> int, g: T -> int, h: T -> int)
    requires forall i :: 0 <= i < |s| ==> h(s[i]) == f(s[i]) + g(s[i])
    ensures SumOf(s, h) == SumOf(s, f) + SumOf(s, g)
  {
    if s != [] {
      SumOfAdd(s[1..], f, g, h);
    }
  }

  /** Over a sequence without repeats, counting the positions that hold x
      gives one if x occurs and zero otherwise. */
  lemma {:induction false} SumOfIndicator<T>(s: seq<T>, x: T, f: T -> int)
    requires Distinct(s)
    requires forall i :: 0 <= i < |s| ==> f(s[i]) == if s[i] == x then 1 else 0
    ensures SumOf(s, f) == if x in s then 1 else 0
  {
    if s != [] {
      assert Distinct(s[1..]) by {
        forall a, b | 0 <= a < b < |s[1..]| ensures s[1..][a] != s[1..][b] {
          assert s[1..][a] == s[a + 1] && s[1..][b] == s[b + 1];
        }
      }
      SumOfIndicator(s[1..], x, f);
      assert x in s <==> x == s[0] || x in s[1..];
      if x == s[0] {
        forall j | 0 <= j < |s[1..]| ensures s[1..][j] != x {
          assert s[1..][j] == s[j + 1];
        }
      }
    }
  }

  lemma {:induction false} SumOfZero<T>(s: seq<T>, f: T -> int)
    requires forall i :: 0 <= i < |s| ==> f(s[i]) == 0
    ensures SumOf(s, f) == 0
  {
    if s != [] {
      SumOfZero(s[1..], f);
    }
  }

  /** The elements whose key is k. */
  function KeyIs<T>(key: T -> int, k: int): T -> bool
  {
    (y: T) => key(y) == k
  }

  /** The number of elements with each key. */
  function CountByKey<T>(s: seq<T>, key: T -> int): int -> int
  {
    (d: int) => Count(s, KeyIs(key, d))
  }

  /** Grouping by key partitions: over a list of keys without repeats that
      holds every element's key, the group sizes add up to the length. */
  lemma {:induction false} CountPartition<T>(s: seq<T>, ds: seq<int>, key: T -> int)
    requires Distinct(ds) && forall i :: 0 <= i < |s| ==> key(s[i]) in ds
    ensures SumOf(ds, CountByKey(s, key)) == |s|
  {
    if s == [] {
      SumOfZero(ds, CountByKey(s, key));
    } else {
      var x := s[0];
      var one := (d: int) => if d == key(x) then 1 else 0;
      forall i | 0 <= i < |ds|
        ensures CountByKey(s, key)(ds[i]) == one(ds[i]) + CountByKey(s[1..], key)(ds[i])
      {
      }
      SumOfAdd(ds, one, CountByKey(s[1..], key), CountByKey(s, key));
      SumOfIndicator(ds, key(x), one);
      assert forall i :: 1 <= i < |s| ==> s[i] == s[1..][i - 1];
      CountPartition(s[1..], ds, key);
    }
  }

  /** Replacing one term changes the sum by the difference. */
  lemma {:induction false} SumOfUpdate<T>(s: seq<T>, k: int, x: T, f: T -> int)
    requires 0 <= k < |s|
    ensures SumOf(s[k := x], f) == SumOf(s, f) - f(s[k]) + f(x)
  {
    if k > 0 {
      SumOfUpdate(s[1..], k - 1, x, f);
      assert s[k := x][1..] == s[1..][k - 1 := x];
    } else {
      assert s[k := x][1..] == s[1..];
    }
  }

  /** Replacing one element by another that p treats alike changes the
      sum over the filtered sequence by the difference, when p keeps it. */
  lemma {:induction false} SumOfFilterUpdate<T>(s: seq<T>, k: int, x: T, p: T -> bool, f: T -> int)
    requires 0 <= k < |s| && p(x) == p(s[k])
    ensures SumOf(Filter(s[k := x], p), f) == SumOf(Filter(s, p), f) + (if p(x) then f(x) - f(s[k]) else 0)
  {
    var s' := s[k := x];
    FilterCons(s, p);
    FilterCons(s', p);
    if k > 0 {
      assert s'[1..] == s[1..][k - 1 := x];
      SumOfFilterUpdate(s[1..], k - 1, x, p, f);
      if p(s[0]) {
        assert SumOf([s[0]] + Filter(s'[1..], p), f) == f(s[0]) + SumOf(Filter(s'[1..], p), f);
        assert SumOf([s[0]] + Filter(s[1..], p), f) == f(s[0]) + SumOf(Filter(s[1..], p), f);
      }
    } else {
      assert s'[1..] == s[1..];
      if p(x) {
        assert SumOf([x] + Filter(s[1..], p), f) == f(x) + SumOf(Filter(s[1..], p), f);
        assert SumOf([s[0]] + Filter(s[1..], p), f) == f(s[0]) + SumOf(Filter(s[1..], p), f);
      }
    }
  }

  /** A sum does not depend on the order of its terms. */
  /** Where the first element of a goes in a permutation b of a, and what
      is left of both. */
  lemma PickFirst<T>(a: seq<T>, b: seq<T>) returns (j: int)
    requires a != [] && multiset(a) == multiset(b)
    ensures 0 <= j < |b| && b[j] == a[0]
    ensures b == b[..j] + [a[0]] + b[j + 1..]
    ensures multiset(a[1..]) == multiset(b[..j] + b[j + 1..])
  {
    var x := a[0];
    assert x in multiset(b);
    j :| 0 <= j < |b| && b[j] == x;
    var rest := b[..j] + b[j + 1..];
    assert b == b[..j] + [x] + b[j + 1..];
    assert a == [x] + a[1..];
    calc {
      multiset(a[1..]) + multiset{x};
      multiset(a);
      multiset(b);
      multiset(b[..j] + [x] + b[j + 1..]);
      multiset(b[..j]) + multiset{x} + multiset(b[j + 1..]);
      multiset(rest) + multiset{x};
    }
    assert multiset(a[1..]) == (multiset(a[1..]) + multiset{x}) - multiset{x};
    assert multiset(rest) == (multiset(rest) + multiset{x}) - multiset{x};
  }

  lemma {:induction false} SumOfPermutation<T>(a: seq<T>, b: seq<T>, f: T -> int)
    requires multiset(a) == multiset(b)
    ensures SumOf(a, f) == SumOf(b, f)
    decreases |a|
  {
    if a == [] {
      assert |b| == |multiset(b)| == 0;
    } else {
      var x := a[0];
      var j := PickFirst(a, b);
      var rest := b[..j] + b[j + 1..];
      assert a == [x] + a[1..];
      SumOfPermutation(a[1..], rest, f);
      SumOfConcat(b[..j] + [x], b[j + 1..], f);
      SumOfSnoc(b[..j], x, f);
      SumOfConcat(b[..j], b[j + 1..], f);
    }
  }

  /** One for each element satisfying p. */
  function Indicator<T>(p: T -> bool): T -> int
  {
    (x: T) => if p(x) then 1 else 0
  }

  lemma {:induction false} CountAsSum<T>(s: seq<T>, p: T -> bool)
    ensures Count(s, p) == SumOf(s, Indicator(p))
  {
    if s != [] {
      CountAsSum(s[1..], p);
    }
  }

  /** A count does not depend on the order of the elements. */
  lemma CountPermutation<T>(a: seq<T>, b: seq<T>, p: T -> bool)
    requires multiset(a) == multiset(b)
    ensures Count(a, p) == Count(b, p)
  {
    CountAsSum(a, p);
    CountAsSum(b, p);
    SumOfPermutation(a, b, Indicator(p));
  }

  /** Array.prototype.map. */
  function Map<T, U>(s: seq<T>, f: T -> U): (r: seq<U>)
    ensures |r| == |s|
    ensures forall i :: 0 <= i < |s| ==> r[i] == f(s[i])
  {
    if s == [] then [] else [f(s[0])] + Map(s[1..], f)
  }

  /** `s.map(y => p(y) ? x : y)`: every element satisfying p replaced by x. */
  function ReplaceWhere<T>(s: seq<T>, p: T -> bool, x: T): (r: seq<T>)
    ensures |r| == |s|
    ensures forall i :: 0 <= i < |s| ==> r[i] == if p(s[i]) then x else s[i]
  {
    Map(s, (y: T) => if p(y) then x else y)
  }

  function Not<T>(p: T -> bool): T -> bool
  {
    (x: T) => !p(x)
  }

  /** Removing what was replaced removes what was there before, when the
      replacement itself is one of the removed. */
  lemma {:induction false} FilterReplaceWhere<T>(s: seq<T>, p: T -> bool, x: T)
    requires p(x)
    ensures Filter(ReplaceWhere(s, p, x), Not(p)) == Filter(s, Not(p))
  {
    if s != [] {
      var r := ReplaceWhere(s, p, x);
      assert r[1..] == ReplaceWhere(s[1..], p, x);
      FilterReplaceWhere(s[1..], p, x);
      FilterCons(r, Not(p));
      FilterCons(s, Not(p));
    }
  }

  /** Removing twice removes no more than once. */
  lemma FilterIdempotent<T>(s: seq<T>, p: T -> bool)
    ensures Filter(Filter(s, p), p) == Filter(s, p)
  {
    FilterMembers(s, p);
    FilterAll(Filter(s, p), p);
  }

  /** Two tests that agree on every element keep the same elements. */
  lemma {:induction false} FilterAgreeing<T>(s: seq<T>, p: T -> bool, q: T -> bool)
    requires forall k :: 0 <= k < |s| ==> p(s[k]) == q(s[k])
    ensures Filter(s, p) == Filter(s, q)
  {
    if s != [] {
      FilterAgreeing(s[1..], p, q);
    }
  }

  /** Every element passes p or its negation. */
  lemma {:induction false} CountComplement<T>(s: seq<T>, p: T -> bool)
    ensures Count(s, p) + Count(s, Not(p)) == |s|
  {
    if s != [] {
      CountComplement(s[1..], p);
    }
  }

  /** Two kept elements come from two distinct positions, in order. */
  lemma {:induction false} SubsequenceOrder<T>(s: seq<T>, p: T -> bool, i: int, j: int)
    requires 0 <= i < j < |Filter(s, p)|
    ensures exists a, b :: 0 <= a < b < |s| && Filter(s, p)[i] == s[a] && Filter(s, p)[j] == s[b]
  {
    FilterCons(s, p);
    var r := Filter(s, p);
    var t := Filter(s[1..], p);
    if p(s[0]) {
      if i == 0 {
        FilterMembers(s[1..], p);
        assert r[j] == t[j - 1] && t[j - 1] in s[1..];
        var b :| 0 <= b < |s[1..]| && s[1..][b] == t[j - 1];
        assert r[i] == s[0] && r[j] == s[b + 1];
      } else {
        SubsequenceOrder(s[1..], p, i - 1, j - 1);
        var a, b :| 0 <= a < b < |s[1..]| && t[i - 1] == s[1..][a] && t[j - 1] == s[1..][b];
        assert r[i] == s[a + 1] && r[j] == s[b + 1];
      }
    } else {
      SubsequenceOrder(s[1..], p, i, j);
      var a, b :| 0 <= a < b < |s[1..]| && t[i] == s[1..][a] && t[j] == s[1..][b];
      assert r[i] == s[a + 1] && r[j] == s[b + 1];
    }
  }

  /** Filtering permutations gives permutations. */
  lemma {:induction false} FilterPermutation<T>(a: seq<T>, b: seq<T>, p: T -> bool)
    requires multiset(a) == multiset(b)
    ensures multiset(Filter(a, p)) == multiset(Filter(b, p))
    decreases |a|
  {
    if a == [] {
      assert |b| == |multiset(b)| == 0;
    } else {
      var x := a[0];
      var j := PickFirst(a, b);
      var rest := b[..j] + b[j + 1..];
      assert a == [x] + a[1..];
      FilterPermutation(a[1..], rest, p);
      FilterConcat([x], a[1..], p);
      FilterConcat(b[..j] + [x], b[j + 1..], p);
      FilterConcat(b[..j], [x], p);
      FilterConcat(b[..j], b[j + 1..], p);
    }
  }

  // ---------------------------------------------------------------------
  // Integer arithmetic with JavaScript meaning
  // ---------------------------------------------------------------------

  /** Math.round(n / d) for d > 0: the nearest integer, halves rounded up. */
  function RoundDiv(n: int, d: int): (r: int)
    requires d > 0
    ensures 2 * d * r <= 2 * n + d < 2 * d * (r + 1)
  {
    var q := (2 * n + d) / (2 * d);
    assert 2 * d * q + (2 * n + d) % (2 * d) == 2 * n + d;
    q
  }

  /** Math.floor(n / d) for d > 0. */
  function FloorDiv(n: int, d: int): (r: int)
    requires d > 0
    ensures d * r <= n < d * (r + 1)
  {
    var q := n / d;
    assert d * q + n % d == n;
    q
  }

  /** The quotient `Math.trunc(n / d)` for d > 0: rounded toward zero. */
  function TruncDiv(n: int, d: int): (q: int)
    requires d > 0
    ensures n >= 0 ==> d * q <= n < d * (q + 1)
    ensures n < 0 ==> d * (q - 1) < n <= d * q
  {
    if n >= 0 then FloorDiv(n, d) else -FloorDiv(-n, d)
  }

  /** JavaScript's `%`: the remainder of the quotient truncated toward
      zero, so it takes the sign of the dividend. */
  function JsRem(n: int, d: int): (r: int)
    requires d > 0
    ensures n == d * TruncDiv(n, d) + r
    ensures n >= 0 ==> 0 <= r < d
    ensures n < 0 ==> -d < r <= 0
  {
    if n >= 0 then
      assert n == d * (n / d) + n % d;
      n % d
    else
      assert -n == d * (-n / d) + (-n) % d;
      -((-n) % d)
  }

  // ---------------------------------------------------------------------
  // Strings (ASCII)
  // ---------------------------------------------------------------------

  predicate IsDigit(c: char) { '0' <= c <= '9' }

  predicate IsHexDigit(c: char)
  {
    '0' <= c <= '9' || 'a' <= c <= 'f' || 'A' <= c <= 'F'
  }

  /** The value of a hexadecimal digit, either case. */
  function HexValue(c: char): (v: nat)
    requires IsHexDigit(c)
    ensures v < 16
  {
    if '0' <= c <= '9' then c as int - '0' as int
    else if 'a' <= c <= 'f' then c as int - 'a' as int + 10
    else c as int - 'A' as int + 10
  }

  function LowerChar(c: char): char
  {
    if 'A' <= c <= 'Z' then (c as int - 'A' as int + 'a' as int) as char else c
  }

  function UpperChar(c: char): char
  {
    if 'a' <= c <= 'z' then (c as int - 'a' as int + 'A' as int) as char else c
  }

  /** String.prototype.toLowerCase on ASCII letters. */
  function Lower(s: string): (r: string)
    ensures |r| == |s|
    ensures forall i :: 0 <= i < |s| ==> r[i] == LowerChar(s[i])
  {
    if s == [] then [] else [LowerChar(s[0])] + Lower(s[1..])
  }

  /** The lower-case text of seven characters, character by character. */
  lemma LowerOfSeven(s: string)
    requires |s| == 7
    ensures Lower(s) == [LowerChar(s[0]), LowerChar(s[1]), LowerChar(s[2]), LowerChar(s[3]), LowerChar(s[4]), LowerChar(s[5]), LowerChar(s[6])]
  {
    var t := [LowerChar(s[0]), LowerChar(s[1]), LowerChar(s[2]), LowerChar(s[3]), LowerChar(s[4]), LowerChar(s[5]), LowerChar(s[6])];
    LowerPointwise(s, t);
  }

  /** A text that agrees with the lower-case characters of s is Lower(s). */
  lemma LowerPointwise(s: string, t: string)
    requires |t| == |s| && forall i :: 0 <= i < |s| ==> t[i] == LowerChar(s[i])
    ensures Lower(s) == t
  {
  }

  /** String.prototype.toUpperCase on ASCII letters. */
  function Upper(s: string): (r: string)
    ensures |r| == |s|
    ensures forall i :: 0 <= i < |s| ==> r[i] == UpperChar(s[i])
  {
    if s == [] then [] else [UpperChar(s[0])] + Upper(s[1..])
  }

  /** `sub` occurs in `s` starting at index i. */
  predicate OccursAt(s: string, sub: string, i: int)
  {
    0 <= i && i + |sub| <= |s| && s[i..i + |sub|] == sub
  }

  /** String.prototype.includes. */
  predicate Contains(s: string, sub: string)
  {
    exists i | 0 <= i <= |s| - |sub| :: OccursAt(s, sub, i)
  }

  /** Case-insensitive containment, as `a.toLowerCase().includes(b.toLowerCase())`. */
  predicate ContainsIgnoringCase(s: string, sub: string)
  {
    Contains(Lower(s), Lower(sub))
  }

  lemma EmptyIsContained(s: string)
    ensures Contains(s, "")
  {
    assert OccursAt(s, "", 0);
  }

  /** String.prototype.charAt(0): the first character, or "" for "". */
  function FirstChar(s: string): (r: string)
    ensures |r| == (if s == "" then 0 else 1)
    ensures s != "" ==> r == s[..1]
  {
    if s == "" then "" else [s[0]]
  }

  /** Lexicographic order on strings by character code (JavaScript `<=` on strings). */
  predicate StrLe(a: string, b: string)
  {
    if a == [] then true
    else if b == [] then false
    else if a[0] < b[0] then true
    else if a[0] > b[0] then false
    else StrLe(a[1..], b[1..])
  }

  lemma {:induction false} StrLeTotal(a: string, b: string)
    ensures StrLe(a, b) || StrLe(b, a)
  {
    if a != [] && b != [] && a[0] == b[0] {
      StrLeTotal(a[1..], b[1..]);
    }
  }

  lemma {:induction false} StrLeTransitive(a: string, b: string, c: string)
    requires StrLe(a, b) && StrLe(b, c)
    ensures StrLe(a, c)
  {
    if a != [] && b != [] && c != [] && a[0] == b[0] && b[0] == c[0] {
      StrLeTransitive(a[1..], b[1..], c[1..]);
    }
  }

  lemma {:induction false} StrLeAntisymmetric(a: string, b: string)
    requires StrLe(a, b) && StrLe(b, a)
    ensures a == b
  {
    if a != [] && b != [] {
      StrLeAntisymmetric(a[1..], b[1..]);
      assert a == [a[0]] + a[1..];
      assert b == [b[0]] + b[1..];
    }
  }

  // ---------------------------------------------------------------------
  // Decimal text
  // ---------------------------------------------------------------------

  function DigitChar(d: nat): (c: char)
    requires d < 10
    ensures IsDigit(c)
  {
    ('0' as int + d) as char
  }

  /** The decimal text of a natural number, without leading zeros. */
  function NatText(n: nat): (r: string)
    ensures |r| >= 1
    ensures forall i :: 0 <= i < |r| ==> IsDigit(r[i])
    ensures r[0] == '0' <==> n == 0
    decreases n
  {
    if n < 10 then [DigitChar(n)] else NatText(n / 10) + [DigitChar(n % 10)]
  }

  /** Number.prototype.toString on an integer. */
  function IntText(n: int): (r: string)
    ensures |r| >= 1
    ensures (r[0] == '-') <==> n < 0
  {
    if n < 0 then "-" + NatText(-n) else NatText(n)
  }

  /** The value of a non-empty string of decimal digits. */
  function DigitsValue(s: string): (v: nat)
    requires forall i :: 0 <= i < |s| ==> IsDigit(s[i])
  {
    if s == [] then 0
    else
      assert IsDigit(s[|s| - 1]);
      DigitsValue(s[..|s| - 1]) * 10 + (s[|s| - 1] as int - '0' as int)
  }

  lemma {:induction false} NatTextValue(n: nat)
    ensures DigitsValue(NatText(n)) == n
    decreases n
  {
    var r := NatText(n);
    if n >= 10 {
      NatTextValue(n / 10);
      assert r[..|r| - 1] == NatText(n / 10);
    }
  }

  /** Distinct numbers have distinct decimal texts. */
  lemma NatTextInjective(m: nat, n: nat)
    requires NatText(m) == NatText(n)
    ensures m == n
  {
    NatTextValue(m);
    NatTextValue(n);
  }

  // ---------------------------------------------------------------------
  // Split and join on one separator character
  // ---------------------------------------------------------------------

  /** String.prototype.split with a one-character separator. */
  function Split(s: string, sep: char): (r: seq<string>)
    ensures |r| >= 1
    ensures forall i :: 0 <= i < |r| ==> sep !in r[i]
  {
    if s == [] then [""]
    else
      var rest := Split(s[1..], sep);
      if s[0] == sep then [""] + rest
      else [[s[0]] + rest[0]] + rest[1..]
  }

  /** Array.prototype.join with a one-character separator. */
  function Join(parts: seq<string>, sep: char): string
    requires |parts| >= 1
  {
    if |parts| == 1 then parts[0] else parts[0] + [sep] + Join(parts[1..], sep)
  }

  lemma JoinCons(x: string, rest: seq<string>, sep: char)
    requires |rest| >= 1
    ensures Join([x] + rest, sep) == x + [sep] + Join(rest, sep)
  {
    assert ([x] + rest)[1..] == rest;
  }

  lemma {:induction false} SplitWithout(p: string, sep: char)
    requires sep !in p
    ensures Split(p, sep) == [p]
  {
    if p != [] {
      SplitWithout(p[1..], sep);
      assert [p[0]] + p[1..] == p;
    }
  }

  lemma {:induction false} SplitAfter(p: string, rest: string, sep: char)
    requires sep !in p
    ensures Split(p + [sep] + rest, sep) == [p] + Split(rest, sep)
  {
    if p == [] {
      assert p + [sep] + rest == [sep] + rest;
      assert ([sep] + rest)[1..] == rest;
    } else {
      var s := p + [sep] + rest;
      assert s[0] == p[0];
      assert s[1..] == p[1..] + [sep] + rest;
      SplitAfter(p[1..], rest, sep);
      assert [p[0]] + p[1..] == p;
    }
  }

  /** Splitting a joined list gives the list back when no part holds the separator. */
  lemma {:induction false} SplitJoin(parts: seq<string>, sep: char)
    requires |parts| >= 1
    requires forall i :: 0 <= i < |parts| ==> sep !in parts[i]
    ensures Split(Join(parts, sep), sep) == parts
  {
    if |parts| == 1 {
      SplitWithout(parts[0], sep);
    } else {
      SplitJoin(parts[1..], sep);
      SplitAfter(parts[0], Join(parts[1..], sep), sep);
      assert [parts[0]] + parts[1..] == parts;
    }
  }

  lemma {:induction false} JoinMember(parts: seq<string>, sep: char, c: char)
    requires |parts| >= 1
    requires c != sep
    ensures c in Join(parts, sep) <==> exists i :: 0 <= i < |parts| && c in parts[i]
  {
    if |parts| > 1 {
      JoinMember(parts[1..], sep, c);
      var j := Join(parts[1..], sep);
      assert Join(parts, sep) == parts[0] + [sep] + j;
      if c in Join(parts, sep) {
        if c !in parts[0] {
          assert c in j;
          var k :| 0 <= k < |parts[1..]| && c in parts[1..][k];
          assert c in parts[k + 1];
        }
      } else {
        forall i | 0 <= i < |parts| ensures c !in parts[i] {
          if i > 0 {
            assert parts[i] == parts[1..][i - 1];
          }
        }
      }
    }
  }
}
