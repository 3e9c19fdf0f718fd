/** Lexicographic order on strings and `sorted(...)` by a string key. */
module Ordering {

  predicate Less(a: string, b: string) {
    |b| > 0 && (|a| == 0 || a[0] < b[0] || (a[0] == b[0] && Less(a[1..], b[1..])))
  }

  lemma {:induction false} LessTotal(a: string, b: string)
    ensures Less(a, b) || Less(b, a) || a == b
    ensures !(Less(a, b) && Less(b, a))
    ensures !Less(a, a)
  {
    if a != [] && b != [] {
      LessTotal(a[1..], b[1..]);
      if a[0] == b[0] && a[1..] == b[1..] {
        assert a == [a[0]] + a[1..];
      }
    }
    if a != [] {
      LessTotal(a[1..], a[1..]);
    }
  }

  /** The order of Python's strings: a proper prefix comes first, and else the first difference decides. */
  lemma {:induction false} LessByFirstDifference(a: string, b: string)
    ensures Less(a, b) <==>
      (|a| < |b| && b[..|a|] == a) || exists k :: 0 <= k < |a| && k < |b| && a[..k] == b[..k] && a[k] < b[k]
  {
    if a != [] && b != [] && a[0] == b[0] {
      LessByFirstDifference(a[1..], b[1..]);
      assert a == [a[0]] + a[1..] && b == [b[0]] + b[1..];
      if |a| < |b| {
        assert b[..|a|] == [b[0]] + b[1..][..|a| - 1];
      }
      if k :| 0 <= k < |a[1..]| && k < |b[1..]| && a[1..][..k] == b[1..][..k] && a[1..][k] < b[1..][k] {
        assert a[..k + 1] == [a[0]] + a[1..][..k] && b[..k + 1] == [b[0]] + b[1..][..k];
        assert a[k + 1] < b[k + 1];
      }
      if k :| 0 <= k < |a| && k < |b| && a[..k] == b[..k] && a[k] < b[k] {
        assert k > 0;
        assert a[1..][..k - 1] == a[..k][1..] && b[1..][..k - 1] == b[..k][1..];
        assert a[1..][k - 1] < b[1..][k - 1];
      }
    }
  }

  lemma {:induction false} LessTransitive(a: string, b: string, c: string)
    requires Less(a, b) && Less(b, c)
    ensures Less(a, c)
  {
    if a != [] && a[0] == b[0] && b[0] == c[0] {
      LessTransitive(a[1..], b[1..], c[1..]);
    }
  }

  ghost predicate AscendingBy<T>(key: T -> string, s: seq<T>) {
    forall i, j :: 0 <= i < j < |s| ==> Less(key(s[i]), key(s[j]))
  }

  ghost predicate DistinctBy<T>(key: T -> string, s: seq<T>) {
    forall i, j :: 0 <= i < j < |s| ==> key(s[i]) != key(s[j])
  }

  function InsertBy<T>(key: T -> string, x: T, s: seq<T>): seq<T> {
    if s == [] then [x]
    else if Less(key(s[0]), key(x)) then [s[0]] + InsertBy(key, x, s[1..])
    else [x] + s
  }

  function SortBy<T>(key: T -> string, s: seq<T>): seq<T> {
    if s == [] then [] else InsertBy(key, s[0], SortBy(key, s[1..]))
  }

  lemma AscendsBehind<T>(key: T -> string, x: T, s: seq<T>)
    requires AscendingBy(key, s) && forall y :: y in s ==> Less(key(x), key(y))
    ensures AscendingBy(key, [x] + s)
  {
    hide Less;
  }

  lemma TailAscends<T>(key: T -> string, s: seq<T>)
    requires s != [] && AscendingBy(key, s)
    ensures AscendingBy(key, s[1..]) && forall y :: y in s[1..] ==> y in s && Less(key(s[0]), key(y))
    ensures s == [s[0]] + s[1..]
  {
    hide Less;
  }

  lemma {:induction false} InsertByAscends<T>(key: T -> string, x: T, s: seq<T>)
    requires AscendingBy(key, s)
    requires forall y :: y in s ==> key(y) != key(x)
    ensures AscendingBy(key, InsertBy(key, x, s))
    ensures multiset(InsertBy(key, x, s)) == multiset(s) + multiset{x}
  {
    hide Less, AscendingBy;
    if s == [] {
      AscendsBehind(key, x, s);
      assert [x] + s == [x];
    } else {
      TailAscends(key, s);
      LessTotal(key(s[0]), key(x));
      if Less(key(s[0]), key(x)) {
        InsertByAscends(key, x, s[1..]);
        var rest := InsertBy(key, x, s[1..]);
        forall y | y in rest ensures Less(key(s[0]), key(y)) {
          assert y in multiset(rest);
        }
        AscendsBehind(key, s[0], rest);
      } else {
        forall y | y in s ensures Less(key(x), key(y)) {
          if y != s[0] {
            LessTransitive(key(x), key(s[0]), key(y));
          }
        }
        AscendsBehind(key, x, s);
      }
    }
  }

  lemma InsertByMembers<T>(key: T -> string, x: T, s: seq<T>)
    requires AscendingBy(key, s)
    requires forall y :: y in s ==> key(y) != key(x)
    ensures AscendingBy(key, InsertBy(key, x, s))
    ensures forall y :: y in InsertBy(key, x, s) <==> y == x || y in s
  {
    InsertByAscends(key, x, s);
    forall y ensures y in InsertBy(key, x, s) <==> y == x || y in s {
      assert y in InsertBy(key, x, s) <==> y in multiset(InsertBy(key, x, s));
    }
  }

  /** Sorting keeps exactly the elements, in strictly ascending order of their keys. */
  lemma {:induction false} SortByCorrect<T>(key: T -> string, s: seq<T>)
    requires DistinctBy(key, s)
    ensures AscendingBy(key, SortBy(key, s))
    ensures multiset(SortBy(key, s)) == multiset(s)
  {
    if s != [] {
      assert s == [s[0]] + s[1..];
      SortByCorrect(key, s[1..]);
      forall y | y in SortBy(key, s[1..]) ensures key(y) != key(s[0]) {
        assert y in multiset(SortBy(key, s[1..]));
        assert y in s[1..];
      }
      InsertByAscends(key, s[0], SortBy(key, s[1..]));
    }
  }

  /** Sorting two listings of the same distinct elements gives the same list. */
  lemma SortByUnique<T>(key: T -> string, s: seq<T>, t: seq<T>)
    requires DistinctBy(key, s) && AscendingBy(key, t)
    requires forall x :: x in s <==> x in t
    ensures SortBy(key, s) == t
  {
    SortByCorrect(key, s);
    forall x ensures x in SortBy(key, s) <==> x in t {
      assert x in SortBy(key, s) <==> x in multiset(SortBy(key, s));
    }
    AscendingUnique(key, SortBy(key, s), t);
  }

  /** There is one ascending list of any given elements. */
  lemma {:induction false} AscendingUnique<T>(key: T -> string, s: seq<T>, t: seq<T>)
    requires AscendingBy(key, s) && AscendingBy(key, t)
    requires forall x :: x in s <==> x in t
    ensures s == t
  {
    assert s != [] ==> s[0] in t;
    assert t != [] ==> t[0] in s;
    if s != [] {
      HeadIsLeast(key, s, t);
      HeadIsLeast(key, t, s);
      LessTotal(key(s[0]), key(t[0]));
      forall x ensures x in s[1..] <==> x in t[1..] {
        LessTotal(key(s[0]), key(s[0]));
        assert x in s[1..] <==> x in s && x != s[0];
        assert x in t[1..] <==> x in t && x != t[0];
      }
      AscendingUnique(key, s[1..], t[1..]);
      assert s == [s[0]] + s[1..] && t == [t[0]] + t[1..];
    }
  }

  lemma HeadIsLeast<T>(key: T -> string, s: seq<T>, t: seq<T>)
    requires AscendingBy(key, s) && s != [] && t != []
    requires forall x :: x in t ==> x in s
    ensures t[0] == s[0] || Less(key(s[0]), key(t[0]))
  {
    assert t[0] in s;
    var i :| 0 <= i < |s| && s[i] == t[0];
  }

  function Self(s: string): string { s }

  /** `sorted(...)` of a set of strings. */
  method SortedSet(ids: set<string>) returns (s: seq<string>)
    ensures AscendingBy(Self, s)
    ensures forall id :: id in s <==> id in ids
  {
    s := [];
    var rest := ids;
    while rest != {}
      invariant rest <= ids
      invariant AscendingBy(Self, s)
      invariant forall id :: id in s <==> id in ids - rest
      decreases |rest|
    {
      var id :| id in rest;
      InsertByMembers(Self, id, s);
      s, rest := InsertBy(Self, id, s), rest - {id};
    }
  }
}
