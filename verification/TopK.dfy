/** What a top-k list is, and why merging per-shard ones loses nothing. */
module TopK {
  ghost predicate Descending<T>(score: T -> real, hits: seq<T>) {
    forall i, j :: 0 <= i < j < |hits| ==> score(hits[i]) >= score(hits[j])
  }

  /** What a list leaves out of some rows. */
  ghost function Rest<T>(hits: seq<T>, rows: multiset<T>): multiset<T> {
    rows - multiset(hits)
  }

  /** The `k` best of some rows, best first: drawn from the rows, as many as there can be, and
      nothing left out beats anything taken. */
  ghost predicate IsTopK<T>(score: T -> real, hits: seq<T>, rows: multiset<T>, k: nat) {
    && Descending(score, hits)
    && multiset(hits) <= rows
    && |hits| == (if |rows| < k then |rows| else k)
    && forall x, y :: x in hits && y in Rest(hits, rows) ==> score(y) <= score(x)
  }

  lemma SameSize<T>(m: multiset<T>, n: multiset<T>)
    requires m <= n && |m| == |n|
    ensures m == n
  {
    assert n == m + (n - m);
    assert |n| == |m| + |n - m|;
    assert n - m == multiset{};
  }

  lemma NotContained<T>(m: multiset<T>, n: multiset<T>) returns (z: T)
    requires !(m <= n)
    ensures m[z] > n[z]
  {
    z :| m[z] > n[z];
  }

  lemma SumLess<T>(m: multiset<T>, n: multiset<T>)
    ensures (m + n) - m == n
  {
  }

  /** Replacing some of the rows by their own top k changes nothing: what is best of the pruned
      rows is best of all of them. */
  lemma PruningIsExact<T>(score: T -> real, hits: seq<T>, local: seq<T>, rows: multiset<T>, others: multiset<T>, k: nat)
    requires IsTopK(score, local, rows, k) && IsTopK(score, hits, multiset(local) + others, k)
    ensures IsTopK(score, hits, rows + others, k)
  {
    var kept := multiset(local);
    assert |kept| == |local|;
    if |rows| <= k {
      SameSize(kept, rows);
    } else {
      forall x, y | x in hits && y in Rest(hits, rows + others) ensures score(y) <= score(x) {
        if y !in Rest(hits, kept + others) {
          assert y in Rest(local, rows);
          LeftOutLoses(score, hits, local, others, x, y);
        }
      }
    }
  }

  /** What a full list leaves out cannot beat a full list drawn from it. */
  lemma LeftOutLoses<T>(score: T -> real, hits: seq<T>, local: seq<T>, others: multiset<T>, x: T, y: T)
    requires |hits| == |local| && x in hits
    requires forall h :: h in local ==> score(y) <= score(h)
    requires forall h, z :: h in hits && z in Rest(hits, multiset(local) + others) ==> score(z) <= score(h)
    ensures score(y) <= score(x)
  {
    var kept, taken := multiset(local), multiset(hits);
    if kept <= taken {
      assert |kept| == |taken|;
      SameSize(kept, taken);
      assert x in taken;
    } else {
      var z := NotContained(kept, taken);
      assert z in kept && z in Rest(hits, kept + others);
    }
  }

  function Joined<T>(lists: seq<seq<T>>): seq<T> {
    if lists == [] then [] else Joined(lists[..|lists| - 1]) + lists[|lists| - 1]
  }

  ghost function Pooled<T>(rows: seq<multiset<T>>): multiset<T> {
    if rows == [] then multiset{} else Pooled(rows[..|rows| - 1]) + rows[|rows| - 1]
  }

  /** Distributed top-k is exact: the best of the shards' own top-k lists are the best of all the
      shards' rows, for any number of shards. */
  lemma {:induction false} MergeIsExact<T>(
      score: T -> real, hits: seq<T>, locals: seq<seq<T>>, rows: seq<multiset<T>>, others: multiset<T>, k: nat)
    requires |locals| == |rows| && forall i :: 0 <= i < |rows| ==> IsTopK(score, locals[i], rows[i], k)
    requires IsTopK(score, hits, multiset(Joined(locals)) + others, k)
    ensures IsTopK(score, hits, Pooled(rows) + others, k)
    decreases |locals|
  {
    hide IsTopK;
    if locals == [] {
      assert multiset(Joined(locals)) + others == Pooled(rows) + others;
    } else {
      var n := |locals| - 1;
      assert multiset(Joined(locals)) + others == multiset(locals[n]) + (multiset(Joined(locals[..n])) + others);
      PruningIsExact(score, hits, locals[n], rows[n], multiset(Joined(locals[..n])) + others, k);
      assert rows[n] + (multiset(Joined(locals[..n])) + others) == multiset(Joined(locals[..n])) + (rows[n] + others);
      MergeIsExact(score, hits, locals[..n], rows[..n], rows[n] + others, k);
      assert Pooled(rows[..n]) + (rows[n] + others) == Pooled(rows) + others;
    }
  }

  // ----- a top-k list fixes the scores -----

  function Scores<T>(score: T -> real, hits: seq<T>): seq<real> {
    if hits == [] then [] else [score(hits[0])] + Scores(score, hits[1..])
  }

  lemma {:induction false} ScoresAt<T>(score: T -> real, hits: seq<T>)
    ensures |Scores(score, hits)| == |hits| && forall i :: 0 <= i < |hits| ==> Scores(score, hits)[i] == score(hits[i])
  {
    if hits != [] {
      ScoresAt(score, hits[1..]);
    }
  }

  lemma {:induction false} ScoresConcat<T>(score: T -> real, a: seq<T>, b: seq<T>)
    ensures Scores(score, a + b) == Scores(score, a) + Scores(score, b)
  {
    if a == [] {
      assert a + b == b;
    } else {
      assert (a + b)[1..] == a[1..] + b;
      ScoresConcat(score, a[1..], b);
    }
  }

  lemma ScoresAround<T>(score: T -> real, front: seq<T>, x: T, back: seq<T>)
    ensures multiset(Scores(score, front + ([x] + back))) == multiset{score(x)} + multiset(Scores(score, front + back))
  {
    ScoresConcat(score, front, [x] + back);
    ScoresConcat(score, front, back);
    assert ([x] + back)[1..] == back;
    assert Scores(score, [x] + back) == [score(x)] + Scores(score, back);
  }

  /** Taking one element out takes its score out. */
  lemma ScoresWithout<T>(score: T -> real, s: seq<T>, i: nat)
    requires i < |s|
    ensures multiset(s[..i] + s[i + 1..]) == multiset(s) - multiset{s[i]}
    ensures multiset(Scores(score, s)) == multiset{score(s[i])} + multiset(Scores(score, s[..i] + s[i + 1..]))
  {
    hide Scores;
    WithoutAt(s, i);
    var front, back := s[..i], s[i + 1..];
    ScoresAround(score, front, s[i], back);
    assert s == front + ([s[i]] + back);
  }

  lemma {:induction false} ScoresOfSame<T>(score: T -> real, a: seq<T>, b: seq<T>)
    requires multiset(a) == multiset(b)
    ensures multiset(Scores(score, a)) == multiset(Scores(score, b))
    decreases |a|
  {
    hide Scores;
    assert |multiset(a)| == |a| && |multiset(b)| == |b|;
    if a != [] {
      assert a[0] in multiset(a);
      var i := IndexOf(b, a[0]);
      ScoresWithout(score, a, 0);
      ScoresWithout(score, b, i);
      ScoresOfSame(score, a[..0] + a[1..], b[..i] + b[i + 1..]);
    }
  }

  lemma IndexOf<T>(s: seq<T>, x: T) returns (i: nat)
    requires x in multiset(s)
    ensures i < |s| && s[i] == x
  {
    i :| 0 <= i < |s| && s[i] == x;
  }

  lemma WithoutAt<T>(s: seq<T>, i: nat)
    requires i < |s|
    ensures multiset(s[..i] + s[i + 1..]) == multiset(s) - multiset{s[i]}
  {
    assert s == s[..i] + [s[i]] + s[i + 1..];
  }

  /** The rows of a multiset, in some order. */
  lemma {:induction false} Listed<T>(rows: multiset<T>) returns (list: seq<T>)
    ensures multiset(list) == rows
    decreases |rows|
  {
    if rows == multiset{} {
      list := [];
    } else {
      var x :| x in rows;
      list := Listed(rows - multiset{x});
      list := list + [x];
    }
  }

  ghost predicate Falling(s: seq<real>) {
    forall i, j :: 0 <= i < j < |s| ==> s[i] >= s[j]
  }

  /** The head of a falling list that nothing beats is the largest there is. */
  ghost predicate Leads(a: seq<real>, rest: multiset<real>) {
    Falling(a) && forall x, y :: x in a && y in rest ==> y <= x
  }

  lemma HeadIsLargest(a: seq<real>, rest: multiset<real>, v: real)
    requires Leads(a, rest) && a != [] && v in multiset(a) + rest
    ensures v <= a[0]
  {
    if v in multiset(a) {
      var i :| 0 <= i < |a| && a[i] == v;
    } else {
      assert v in rest && a[0] in a;
    }
  }

  lemma TailLeads(a: seq<real>, rest: multiset<real>)
    requires Leads(a, rest) && a != []
    ensures Leads(a[1..], rest)
    ensures multiset(a[1..]) + rest == (multiset(a) + rest) - multiset{a[0]}
  {
    assert a == [a[0]] + a[1..];
    forall x | x in a[1..] ensures x in a {}
  }

  lemma {:induction false} LargestFirst(a: seq<real>, ra: multiset<real>, b: seq<real>, rb: multiset<real>)
    requires |a| == |b| && Leads(a, ra) && Leads(b, rb) && multiset(a) + ra == multiset(b) + rb
    ensures a == b
  {
    if a != [] {
      hide Leads;
      HeadIsLargest(a, ra, b[0]);
      HeadIsLargest(b, rb, a[0]);
      TailLeads(a, ra);
      TailLeads(b, rb);
      LargestFirst(a[1..], ra, b[1..], rb);
      assert a == [a[0]] + a[1..] && b == [b[0]] + b[1..];
    }
  }

  /** Any two top-k lists of the same rows have the same scores in the same order. */
  lemma ScoresAreDetermined<T>(score: T -> real, a: seq<T>, b: seq<T>, rows: multiset<T>, k: nat)
    requires IsTopK(score, a, rows, k) && IsTopK(score, b, rows, k)
    ensures Scores(score, a) == Scores(score, b)
  {
    ScoresAt(score, a);
    ScoresAt(score, b);
    var ra := BestScores(score, a, rows, k);
    var rb := BestScores(score, b, rows, k);
    ScoresOfSame(score, a + ra, b + rb);
    ScoresConcat(score, a, ra);
    ScoresConcat(score, b, rb);
    hide IsTopK, Leads, Scores;
    LargestFirst(Scores(score, a), multiset(Scores(score, ra)), Scores(score, b), multiset(Scores(score, rb)));
  }

  lemma BestScores<T>(score: T -> real, a: seq<T>, rows: multiset<T>, k: nat) returns (rest: seq<T>)
    requires IsTopK(score, a, rows, k)
    ensures multiset(a + rest) == rows
    ensures Leads(Scores(score, a), multiset(Scores(score, rest)))
  {
    rest := Listed(Rest(a, rows));
    assert multiset(a) + Rest(a, rows) == rows;
    ScoresAt(score, a);
    ScoresBounded(score, a, rest);
  }

  lemma ScoresBounded<T>(score: T -> real, a: seq<T>, rest: seq<T>)
    requires forall x, y :: x in a && y in multiset(rest) ==> score(y) <= score(x)
    ensures forall x, y :: x in Scores(score, a) && y in multiset(Scores(score, rest)) ==> y <= x
  {
    ScoresAt(score, a);
    ScoresAt(score, rest);
    hide Scores;
    forall x, y | x in Scores(score, a) && y in multiset(Scores(score, rest)) ensures y <= x {
      var i :| 0 <= i < |a| && Scores(score, a)[i] == x;
      var j := IndexOf(Scores(score, rest), y);
      assert a[i] in a && rest[j] in rest;
    }
  }

  // ----- sorting and truncating -----

  function InsertHit<T>(score: T -> real, h: T, sorted: seq<T>): seq<T> {
    if sorted == [] then [h]
    else if score(sorted[0]) >= score(h) then [sorted[0]] + InsertHit(score, h, sorted[1..])
    else [h] + sorted
  }

  lemma {:induction false} InsertHitMembers<T>(score: T -> real, h: T, sorted: seq<T>)
    ensures multiset(InsertHit(score, h, sorted)) == multiset(sorted) + multiset{h}
    ensures forall x :: x in InsertHit(score, h, sorted) ==> x == h || x in sorted
  {
    if sorted != [] {
      assert sorted == [sorted[0]] + sorted[1..];
      InsertHitMembers(score, h, sorted[1..]);
    }
  }

  lemma {:induction false} InsertHitSorts<T>(score: T -> real, h: T, sorted: seq<T>)
    requires Descending(score, sorted)
    ensures Descending(score, InsertHit(score, h, sorted))
  {
    if sorted != [] {
      var rest := sorted[1..];
      InsertHitSorts(score, h, rest);
      InsertHitMembers(score, h, rest);
      forall x | x in rest ensures score(sorted[0]) >= score(x) {
        var i :| 0 <= i < |rest| && rest[i] == x;
        assert sorted[i + 1] == x;
      }
    }
  }

  /** A stable descending sort by score. */
  method SortByScore<T>(score: T -> real, hits: seq<T>) returns (sorted: seq<T>)
    ensures Descending(score, sorted) && multiset(sorted) == multiset(hits)
  {
    sorted := [];
    for i := 0 to |hits|
      invariant Descending(score, sorted) && multiset(sorted) == multiset(hits[..i])
    {
      InsertHitSorts(score, hits[i], sorted);
      InsertHitMembers(score, hits[i], sorted);
      sorted := InsertHit(score, hits[i], sorted);
      assert hits[..i + 1] == hits[..i] + [hits[i]];
    }
    assert hits[..|hits|] == hits;
  }

  lemma SplitSorted<T>(score: T -> real, sorted: seq<T>, n: nat)
    requires Descending(score, sorted) && n <= |sorted|
    ensures Descending(score, sorted[..n])
    ensures forall x, y :: x in sorted[..n] && y in multiset(sorted[n..]) ==> score(y) <= score(x)
  {
    forall x, y | x in sorted[..n] && y in multiset(sorted[n..]) ensures score(y) <= score(x) {
      var i :| 0 <= i < n && sorted[i] == x;
      var j := IndexOf(sorted[n..], y);
      assert sorted[n + j] == y;
    }
  }

  /** The first `k` of a sorted list are the top k of its rows. */
  lemma PrefixIsTopK<T>(score: T -> real, sorted: seq<T>, k: nat)
    requires Descending(score, sorted)
    ensures IsTopK(score, if |sorted| < k then sorted else sorted[..k], multiset(sorted), k)
  {
    var n := if |sorted| < k then |sorted| else k;
    SplitSorted(score, sorted, n);
    var taken, rest := sorted[..n], sorted[n..];
    assert sorted == taken + rest && (|sorted| < k ==> taken == sorted);
    SumLess(multiset(taken), multiset(rest));
    assert |multiset(sorted)| == |sorted|;
    hide Descending;
  }
}
