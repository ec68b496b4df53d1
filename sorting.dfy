/** Stable sorting of sequences, as done by Array.prototype.sort with a
    comparator (stable since ES2019) and by the database's ORDER BY.
    Insertion from the back keeps equal keys in input order. */
module Sorting {
  import opened Common

  // ---------------------------------------------------------------------
  // Descending by an integer key: `(a, b) => key(b) - key(a)`
  // ---------------------------------------------------------------------

  ghost predicate SortedDesc<T>(s: seq<T>, key: T -> int)
  {
    forall i, j :: 0 <= i < j < |s| ==> key(s[i]) >= key(s[j])
  }

  function InsertDesc<T>(x: T, s: seq<T>, key: T -> int): (r: seq<T>)
    requires SortedDesc(s, key)
    ensures |r| == |s| + 1
    ensures multiset(r) == multiset(s) + multiset{x}
    ensures SortedDesc(r, key)
    ensures |s| > 0 ==> key(r[0]) == if key(x) >= key(s[0]) then key(x) else key(s[0])
  {
    if s == [] then [x]
    else if key(x) >= key(s[0]) then [x] + s
    else
      assert s == [s[0]] + s[1..];
      var t := InsertDesc(x, s[1..], key);
      HeadBoundsDesc(x, s, t, key);
      [s[0]] + t
  }

  /** The head of a descending list bounds the rest with a smaller key put
      in. */
  lemma HeadBoundsDesc<T>(x: T, s: seq<T>, t: seq<T>, key: T -> int)
    requires s != [] && SortedDesc(s, key) && key(x) < key(s[0])
    requires multiset(t) == multiset(s[1..]) + multiset{x}
    ensures forall i :: 0 <= i < |t| ==> key(t[i]) <= key(s[0])
  {
    forall i | 0 <= i < |t| ensures key(t[i]) <= key(s[0]) {
      assert t[i] in multiset(s[1..]) + multiset{x};
      if t[i] in multiset(s[1..]) {
        var j :| 0 <= j < |s[1..]| && s[1..][j] == t[i];
        assert s[j + 1] == t[i];
      }
    }
  }

  /** Stable sort, descending by key. */
  function SortDesc<T>(s: seq<T>, key: T -> int): (r: seq<T>)
    ensures |r| == |s|
    ensures multiset(r) == multiset(s)
    ensures SortedDesc(r, key)
  {
    if s == [] then []
    else
      assert s == [s[0]] + s[1..];
      InsertDesc(s[0], SortDesc(s[1..], key), key)
  }

  lemma {:induction false} InsertDescStable<T>(x: T, s: seq<T>, key: T -> int, k: int)
    requires SortedDesc(s, key)
    ensures Filter(InsertDesc(x, s, key), KeyIs(key, k))
         == (if key(x) == k then [x] else []) + Filter(s, KeyIs(key, k))
  {
    var p := KeyIs(key, k);
    if s == [] {
    } else if key(x) >= key(s[0]) {
      FilterCons([x] + s, p);
      assert ([x] + s)[1..] == s;
    } else {
      var t := InsertDesc(x, s[1..], key);
      InsertDescStable(x, s[1..], key, k);
      assert InsertDesc(x, s, key) == [s[0]] + t;
      StableStep(x, s, t, p, key(x) == k, key(s[0]) == k);
    }
  }

  /** One step of InsertDescStable: the head of s stays in front of x. */
  lemma StableStep<T>(x: T, s: seq<T>, t: seq<T>, p: T -> bool, px: bool, ps: bool)
    requires s != [] && p(x) == px && p(s[0]) == ps && !(px && ps)
    requires Filter(t, p) == (if px then [x] else []) + Filter(s[1..], p)
    ensures Filter([s[0]] + t, p) == (if px then [x] else []) + Filter(s, p)
  {
    FilterCons([s[0]] + t, p);
    assert ([s[0]] + t)[1..] == t;
    FilterCons(s, p);
  }

  /** Stability: among elements with equal keys the input order is kept. */
  lemma {:induction false} SortDescStable<T>(s: seq<T>, key: T -> int, k: int)
    ensures Filter(SortDesc(s, key), KeyIs(key, k)) == Filter(s, KeyIs(key, k))
  {
    if s != [] {
      SortDescStable(s[1..], key, k);
      InsertDescStable(s[0], SortDesc(s[1..], key), key, k);
    }
  }

  /** Sorting the images of s: each sorted element is the image of an
      element of s, and every image is among the sorted elements. */
  lemma SortedMapMembers<T, U>(s: seq<T>, g: T -> U, key: U -> int)
    ensures forall k :: 0 <= k < |SortDesc(Map(s, g), key)| ==>
      exists j :: 0 <= j < |s| && SortDesc(Map(s, g), key)[k] == g(s[j])
    ensures forall j :: 0 <= j < |s| ==> g(s[j]) in SortDesc(Map(s, g), key)
  {
    var images := Map(s, g);
    var r := SortDesc(images, key);
    forall k | 0 <= k < |r|
      ensures exists j :: 0 <= j < |s| && r[k] == g(s[j])
    {
      assert r[k] in multiset(images);
      var j :| 0 <= j < |images| && images[j] == r[k];
    }
    forall j | 0 <= j < |s|
      ensures g(s[j]) in r
    {
      assert images[j] in multiset(r);
    }
  }

  /** A sequence that is already in order is left as it is. */
  lemma {:induction false} SortDescOfSorted<T>(s: seq<T>, key: T -> int)
    requires SortedDesc(s, key)
    ensures SortDesc(s, key) == s
  {
    if s != [] {
      SortDescOfSorted(s[1..], key);
      assert SortDesc(s, key) == InsertDesc(s[0], s[1..], key);
      if |s| > 1 {
        assert key(s[0]) >= key(s[1]);
      }
      assert s == [s[0]] + s[1..];
    }
  }

  // ---------------------------------------------------------------------
  // Ascending by a string key: `(a, b) => a.name.localeCompare(b.name)`
  // ---------------------------------------------------------------------

  ghost predicate SortedAscStr<T>(s: seq<T>, key: T -> string)
  {
    forall i, j :: 0 <= i < j < |s| ==> StrLe(key(s[i]), key(s[j]))
  }

  function InsertAscStr<T>(x: T, s: seq<T>, key: T -> string): (r: seq<T>)
    requires SortedAscStr(s, key)
    ensures |r| == |s| + 1
    ensures multiset(r) == multiset(s) + multiset{x}
    ensures SortedAscStr(r, key)
    ensures |s| > 0 ==> key(r[0]) == if StrLe(key(x), key(s[0])) then key(x) else key(s[0])
  {
    if s == [] then [x]
    else if StrLe(key(x), key(s[0])) then
      assert forall i :: 0 <= i < |s| ==> StrLe(key(x), key(s[i])) by {
        forall i | 0 <= i < |s| ensures StrLe(key(x), key(s[i])) {
          if i > 0 {
            StrLeTransitive(key(x), key(s[0]), key(s[i]));
          }
        }
      }
      [x] + s
    else
      assert s == [s[0]] + s[1..];
      StrLeTotal(key(x), key(s[0]));
      var t := InsertAscStr(x, s[1..], key);
      HeadBoundsAscStr(x, s, t, key);
      [s[0]] + t
  }

  /** The head of an ascending list bounds the rest with a greater key put
      in. */
  lemma HeadBoundsAscStr<T>(x: T, s: seq<T>, t: seq<T>, key: T -> string)
    requires s != [] && SortedAscStr(s, key) && StrLe(key(s[0]), key(x))
    requires multiset(t) == multiset(s[1..]) + multiset{x}
    ensures forall i :: 0 <= i < |t| ==> StrLe(key(s[0]), key(t[i]))
  {
    forall i | 0 <= i < |t| ensures StrLe(key(s[0]), key(t[i])) {
      assert t[i] in multiset(s[1..]) + multiset{x};
      if t[i] in multiset(s[1..]) {
        var j :| 0 <= j < |s[1..]| && s[1..][j] == t[i];
        assert s[j + 1] == t[i];
      }
    }
  }

  /** Stable sort, ascending by a string key. */
  function SortAscStr<T>(s: seq<T>, key: T -> string): (r: seq<T>)
    ensures |r| == |s|
    ensures multiset(r) == multiset(s)
    ensures SortedAscStr(r, key)
  {
    if s == [] then []
    else
      assert s == [s[0]] + s[1..];
      InsertAscStr(s[0], SortAscStr(s[1..], key), key)
  }

  function KeyIsStr<T>(key: T -> string, k: string): T -> bool
  {
    (x: T) => key(x) == k
  }

  lemma {:induction false} InsertAscStrStable<T>(x: T, s: seq<T>, key: T -> string, k: string)
    requires SortedAscStr(s, key)
    ensures Filter(InsertAscStr(x, s, key), KeyIsStr(key, k))
         == (if key(x) == k then [x] else []) + Filter(s, KeyIsStr(key, k))
  {
    var p := KeyIsStr(key, k);
    if s == [] {
    } else if StrLe(key(x), key(s[0])) {
      FilterCons([x] + s, p);
      assert ([x] + s)[1..] == s;
    } else {
      StrLeTotal(key(x), key(x));
      var t := InsertAscStr(x, s[1..], key);
      InsertAscStrStable(x, s[1..], key, k);
      assert InsertAscStr(x, s, key) == [s[0]] + t;
      StableStep(x, s, t, p, key(x) == k, key(s[0]) == k);
    }
  }

  /** Stability: among elements with equal names the input order is kept. */
  lemma {:induction false} SortAscStrStable<T>(s: seq<T>, key: T -> string, k: string)
    ensures Filter(SortAscStr(s, key), KeyIsStr(key, k)) == Filter(s, KeyIsStr(key, k))
  {
    if s != [] {
      SortAscStrStable(s[1..], key, k);
      InsertAscStrStable(s[0], SortAscStr(s[1..], key), key, k);
    }
  }
}
