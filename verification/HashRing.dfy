/** Placement: highest-random-weight choice and the ring of virtual nodes. */
module HashRing {
  import opened Wrappers
  import opened Ordering

  /** The hash of a string, read as an unsigned integer. */
  type Hash = string -> nat

  // ----- rendezvous hashing -----

  function Score(hash: Hash, key: string, node: string): nat {
    hash(key + "#" + node)
  }

  /** The first of the nodes with the greatest hash of key and node together. */
  ghost predicate IsChoice(hash: Hash, key: string, nodes: seq<string>, best: string) {
    exists i :: 0 <= i < |nodes| && ChosenAt(hash, key, nodes, i) && best == nodes[i]
  }

  ghost predicate ChosenAt(hash: Hash, key: string, nodes: seq<string>, i: nat)
    requires i < |nodes|
  {
    && (forall j :: 0 <= j < |nodes| ==> hash(key + "#" + nodes[j]) <= hash(key + "#" + nodes[i]))
    && (forall j :: 0 <= j < i ==> hash(key + "#" + nodes[j]) < hash(key + "#" + nodes[i]))
  }

  ghost predicate DistinctScores(hash: Hash, key: string, nodes: seq<string>) {
    forall a, b :: a in nodes && b in nodes && a != b ==> Score(hash, key, a) != Score(hash, key, b)
  }

  lemma ChoiceUnique(hash: Hash, key: string, nodes: seq<string>, a: string, b: string)
    requires IsChoice(hash, key, nodes, a) && IsChoice(hash, key, nodes, b)
    ensures a == b
  {
    var i :| 0 <= i < |nodes| && ChosenAt(hash, key, nodes, i) && a == nodes[i];
    var j :| 0 <= j < |nodes| && ChosenAt(hash, key, nodes, j) && b == nodes[j];
    assert !(i < j) && !(j < i);
  }

  /** With distinct scores the choice depends on the set of nodes alone, not on their order. */
  lemma ChoiceDependsOnSet(hash: Hash, key: string, nodes: seq<string>, nodes': seq<string>, a: string, b: string)
    requires DistinctScores(hash, key, nodes)
    requires forall n :: n in nodes <==> n in nodes'
    requires IsChoice(hash, key, nodes, a) && IsChoice(hash, key, nodes', b)
    ensures a == b
  {
    assert a in nodes' && b in nodes;
  }

  /** A node that joins takes a key for itself, exactly when it outscores the choice, or leaves it
      where it was. */
  lemma JoinMovesOnlyToJoiner(hash: Hash, key: string, nodes: seq<string>, joiner: string, before: string, after: string)
    requires IsChoice(hash, key, nodes, before) && IsChoice(hash, key, nodes + [joiner], after)
    ensures after == if Score(hash, key, joiner) > Score(hash, key, before) then joiner else before
  {
    var i :| 0 <= i < |nodes| && ChosenAt(hash, key, nodes, i) && before == nodes[i];
    var all := nodes + [joiner];
    forall j | 0 <= j < |nodes| ensures all[j] == nodes[j] {}
    if Score(hash, key, joiner) > Score(hash, key, before) {
      assert ChosenAt(hash, key, all, |nodes|) && all[|nodes|] == joiner;
      ChoiceUnique(hash, key, all, after, joiner);
    } else {
      assert ChosenAt(hash, key, all, i);
      ChoiceUnique(hash, key, all, after, before);
    }
  }

  /** `list.remove`: without the first occurrence. */
  function Dropped(nodes: seq<string>, node: string): (rest: seq<string>)
    ensures node !in nodes ==> rest == nodes
    ensures forall n :: n != node ==> (n in rest <==> n in nodes)
  {
    if nodes == [] then [] else if nodes[0] == node then nodes[1..] else [nodes[0]] + Dropped(nodes[1..], node)
  }

  /** The first occurrence goes, and everything else stays in its place. */
  lemma {:induction false} DroppedIs(nodes: seq<string>, i: nat)
    requires i < |nodes| && nodes[i] !in nodes[..i]
    ensures Dropped(nodes, nodes[i]) == nodes[..i] + nodes[i + 1..]
  {
    if i > 0 {
      assert nodes[0] in nodes[..i] && nodes[..i] == [nodes[0]] + nodes[1..][..i - 1];
      DroppedIs(nodes[1..], i - 1);
    }
  }

  ghost predicate Distinct(nodes: seq<string>) {
    forall i, j :: 0 <= i < j < |nodes| ==> nodes[i] != nodes[j]
  }

  lemma {:induction false} DroppedGone(nodes: seq<string>, node: string)
    requires Distinct(nodes)
    ensures node !in Dropped(nodes, node) && Distinct(Dropped(nodes, node))
    ensures multiset(Dropped(nodes, node)) == multiset(nodes) - multiset{node}
  {
    if nodes != [] {
      var rest := nodes[1..];
      assert nodes == [nodes[0]] + rest;
      if nodes[0] != node {
        DroppedGone(rest, node);
        assert nodes[0] !in rest;
      } else {
        assert forall j :: 0 <= j < |rest| ==> rest[j] == nodes[j + 1] != nodes[0];
      }
    }
  }

  ghost predicate NoMark(node: string) {
    '#' !in node
  }

  lemma LongerKeyMarks(key: string, a: string, other: string, b: string)
    requires |key| < |other| && key + "#" + a == other + "#" + b
    ensures !NoMark(a)
  {
    var x := key + "#" + a;
    assert a[|other| - |key| - 1] == x[|other|] == (other + "#" + b)[|other|] == '#';
  }

  /** What is hashed of different keys, or of different nodes, is different. */
  lemma MixedApart(key: string, a: string, other: string, b: string)
    requires NoMark(a) && NoMark(b) && key + "#" + a == other + "#" + b
    ensures key == other && a == b
  {
    var x, y := key + "#" + a, other + "#" + b;
    if |key| < |other| {
      LongerKeyMarks(key, a, other, b);
    }
    if |other| < |key| {
      LongerKeyMarks(other, b, key, a);
    }
    assert x[..|key|] == key && y[..|other|] == other && x[|key| + 1..] == a && y[|other| + 1..] == b;
  }

  /** Keys are placed independently: whatever the nodes, two keys can go to any two of them. */
  lemma KeysAreIndependent(nodes: seq<string>, key: string, a: string, other: string, b: string) returns (hash: Hash)
    requires key != other && a in nodes && b in nodes && forall n :: n in nodes ==> NoMark(n)
    ensures IsChoice(hash, key, nodes, a) && IsChoice(hash, other, nodes, b)
  {
    var here, there := key + "#" + a, other + "#" + b;
    hash := s => if s == here || s == there then 1 else 0;
    forall n | n in nodes
      ensures hash(key + "#" + n) == if n == a then 1 else 0
      ensures hash(other + "#" + n) == if n == b then 1 else 0
    {
      if key + "#" + n == here { MixedApart(key, n, key, a); }
      if key + "#" + n == there { MixedApart(key, n, other, b); }
      if other + "#" + n == here { MixedApart(other, n, key, a); }
      if other + "#" + n == there { MixedApart(other, n, other, b); }
    }
    OnlyOneOutscores(hash, key, nodes, a);
    OnlyOneOutscores(hash, other, nodes, b);
  }

  lemma OnlyOneOutscores(hash: Hash, key: string, nodes: seq<string>, a: string)
    requires a in nodes && forall n :: n in nodes ==> hash(key + "#" + n) == if n == a then 1 else 0
    ensures IsChoice(hash, key, nodes, a)
  {
    var i := FirstAt(nodes, a);
    assert ChosenAt(hash, key, nodes, i);
  }

  lemma {:induction false} FirstAt(nodes: seq<string>, a: string) returns (i: nat)
    requires a in nodes
    ensures i < |nodes| && nodes[i] == a && a !in nodes[..i]
  {
    if nodes[0] == a {
      i := 0;
    } else {
      var k := FirstAt(nodes[1..], a);
      i := k + 1;
      assert nodes[..i] == [nodes[0]] + nodes[1..][..k];
    }
  }

  // ----- the full order of get_nodes -----

  /** Before in the descending order of (score, node). */
  predicate Above(hash: Hash, key: string, a: string, b: string) {
    Score(hash, key, a) > Score(hash, key, b) || (Score(hash, key, a) == Score(hash, key, b) && Less(b, a))
  }

  function InsertNode(hash: Hash, key: string, n: string, ranked: seq<string>): seq<string> {
    if ranked == [] then [n]
    else if Above(hash, key, ranked[0], n) then [ranked[0]] + InsertNode(hash, key, n, ranked[1..])
    else [n] + ranked
  }

  /** `sort(reverse=True)` of the scored nodes. */
  function Ranked(hash: Hash, key: string, nodes: seq<string>): seq<string> {
    if nodes == [] then [] else InsertNode(hash, key, nodes[0], Ranked(hash, key, nodes[1..]))
  }

  ghost predicate AtLeast(hash: Hash, key: string, a: string, b: string) {
    a == b || hash(key + "#" + a) > hash(key + "#" + b) || (hash(key + "#" + a) == hash(key + "#" + b) && Less(b, a))
  }

  ghost predicate InRank(hash: Hash, key: string, ranked: seq<string>) {
    forall i, j :: 0 <= i < j < |ranked| ==> AtLeast(hash, key, ranked[i], ranked[j])
  }

  lemma AtLeastIs(hash: Hash, key: string)
    ensures forall a, b :: AtLeast(hash, key, a, b) <==> a == b || Above(hash, key, a, b)
  {
  }

  lemma AboveOrder(hash: Hash, key: string, a: string, b: string, c: string)
    ensures a != b ==> Above(hash, key, a, b) || Above(hash, key, b, a)
    ensures Above(hash, key, a, b) && Above(hash, key, b, c) ==> Above(hash, key, a, c)
  {
    LessTotal(a, b);
    if Less(c, b) && Less(b, a) {
      LessTransitive(c, b, a);
    }
    hide Less;
  }

  lemma {:induction false} InsertNodeMembers(hash: Hash, key: string, n: string, ranked: seq<string>)
    ensures multiset(InsertNode(hash, key, n, ranked)) == multiset(ranked) + multiset{n}
    ensures forall m :: m in InsertNode(hash, key, n, ranked) <==> m == n || m in ranked
  {
    hide Above;
    var all := InsertNode(hash, key, n, ranked);
    if ranked != [] {
      assert ranked == [ranked[0]] + ranked[1..];
      if Above(hash, key, ranked[0], n) {
        InsertNodeMembers(hash, key, n, ranked[1..]);
      }
    }
    forall m ensures m in all <==> m == n || m in ranked {
      assert m in all <==> m in multiset(all);
    }
  }

  lemma {:induction false} InsertNodeRanks(hash: Hash, key: string, n: string, ranked: seq<string>)
    requires InRank(hash, key, ranked)
    ensures InRank(hash, key, InsertNode(hash, key, n, ranked))
  {
    AtLeastIs(hash, key);
    hide Above, AtLeast;
    if ranked != [] {
      var rest := ranked[1..];
      assert ranked == [ranked[0]] + rest;
      forall m | m in rest ensures AtLeast(hash, key, ranked[0], m) {
        var i :| 0 <= i < |rest| && rest[i] == m;
        assert AtLeast(hash, key, ranked[0], ranked[i + 1]);
      }
      if Above(hash, key, ranked[0], n) {
        InsertNodeRanks(hash, key, n, rest);
        InsertNodeMembers(hash, key, n, rest);
        assert forall m :: m in InsertNode(hash, key, n, rest) ==> AtLeast(hash, key, ranked[0], m);
      } else {
        AboveOrder(hash, key, n, ranked[0], n);
        forall m | m in ranked ensures AtLeast(hash, key, n, m) {
          AboveOrder(hash, key, n, ranked[0], m);
        }
      }
    }
  }

  /** The ranking is a permutation of the nodes, descending by score and then by name, strictly so when no
      node is listed twice. */
  lemma {:induction false} RankedRanks(hash: Hash, key: string, nodes: seq<string>)
    ensures InRank(hash, key, Ranked(hash, key, nodes))
    ensures multiset(Ranked(hash, key, nodes)) == multiset(nodes)
    ensures Distinct(nodes) ==> Distinct(Ranked(hash, key, nodes))
  {
    RankedMultiset(hash, key, nodes);
    DistinctByCount(nodes);
    DistinctByCount(Ranked(hash, key, nodes));
  }

  lemma {:induction false} RankedMultiset(hash: Hash, key: string, nodes: seq<string>)
    ensures InRank(hash, key, Ranked(hash, key, nodes))
    ensures multiset(Ranked(hash, key, nodes)) == multiset(nodes)
  {
    hide InRank;
    if nodes == [] {
      NothingRanks(hash, key);
    } else {
      var rest := nodes[1..];
      assert nodes == [nodes[0]] + rest;
      RankedMultiset(hash, key, rest);
      InsertNodeRanks(hash, key, nodes[0], Ranked(hash, key, rest));
      InsertNodeMembers(hash, key, nodes[0], Ranked(hash, key, rest));
    }
  }

  lemma NothingRanks(hash: Hash, key: string)
    ensures InRank(hash, key, [])
  {
  }

  lemma {:induction false} DistinctByCount(nodes: seq<string>)
    ensures Distinct(nodes) <==> forall n :: multiset(nodes)[n] <= 1
  {
    if nodes == [] {
      assert forall n :: n !in multiset(nodes);
    } else {
      var first, rest := nodes[0], nodes[1..];
      assert nodes == [first] + rest;
      DistinctByCount(rest);
      assert multiset(nodes)[first] == multiset(rest)[first] + 1;
      forall n | n != first ensures multiset(nodes)[n] == multiset(rest)[n] {
      }
      assert first in rest <==> multiset(rest)[first] >= 1;
      DistinctCons(first, rest);
    }
  }

  lemma DistinctCons(first: string, rest: seq<string>)
    ensures Distinct([first] + rest) <==> Distinct(rest) && first !in rest
  {
    var nodes := [first] + rest;
    forall i | 0 <= i < |rest| ensures nodes[i + 1] == rest[i] {
    }
    if Distinct(nodes) {
      forall i, j | 0 <= i < j < |rest| ensures rest[i] != rest[j] {
        assert nodes[i + 1] != nodes[j + 1];
      }
      forall i | 0 <= i < |rest| ensures rest[i] != first {
        assert nodes[0] != nodes[i + 1];
      }
    }
  }

  lemma HeadIsChoice(hash: Hash, key: string, nodes: seq<string>, ranked: seq<string>, best: string)
    requires DistinctScores(hash, key, nodes) && IsChoice(hash, key, nodes, best)
    requires InRank(hash, key, ranked) && forall n :: n in ranked <==> n in nodes
    ensures ranked != [] && ranked[0] == best
  {
    ChoiceIsTop(hash, key, nodes, best);
    hide Less, Score, IsChoice;
    assert best in ranked;
    var at :| 0 <= at < |ranked| && ranked[at] == best;
    if at > 0 {
      assert AtLeast(hash, key, ranked[0], ranked[at]);
      assert ranked[0] in nodes;
    }
  }

  lemma RankedMembers(hash: Hash, key: string, nodes: seq<string>)
    requires Distinct(nodes)
    ensures var ranked := Ranked(hash, key, nodes);
      && |ranked| == |nodes|
      && (forall n :: n in ranked <==> n in nodes)
      && (ranked != [] ==> forall n :: n in ranked[1..] <==> n in nodes && n != ranked[0])
  {
    var ranked := Ranked(hash, key, nodes);
    RankedRanks(hash, key, nodes);
    hide Ranked, Score, Less;
    assert |ranked| == |multiset(ranked)|;
    forall n ensures n in ranked <==> n in nodes {
      assert n in ranked <==> n in multiset(ranked);
    }
    if ranked != [] {
      assert ranked == [ranked[0]] + ranked[1..];
    }
  }

  lemma DroppedMembers(nodes: seq<string>, node: string)
    requires Distinct(nodes)
    ensures forall n :: n in Dropped(nodes, node) <==> n in nodes && n != node
  {
    DroppedGone(nodes, node);
  }

  /** With distinct scores the choice is the first of the ranking, and when it leaves, each of
      its keys goes to the second; every other key stays. */
  lemma LeaveMovesToSecond(hash: Hash, key: string, nodes: seq<string>, leaver: string, before: string, after: string)
    requires Distinct(nodes) && DistinctScores(hash, key, nodes)
    requires IsChoice(hash, key, nodes, before) && IsChoice(hash, key, Dropped(nodes, leaver), after)
    ensures before != leaver ==> after == before
    ensures var ranked := Ranked(hash, key, nodes);
      && |ranked| == |nodes| >= 1 && ranked[0] == before
      && (before == leaver ==> |ranked| >= 2 && ranked[1] == after)
  {
    var ranked := Ranked(hash, key, nodes);
    RankedRanks(hash, key, nodes);
    RankedMembers(hash, key, nodes);
    DroppedMembers(nodes, leaver);
    hide Ranked, Score, Dropped, Less, Above, IsChoice, Distinct;
    HeadIsChoice(hash, key, nodes, ranked, before);
    if before == leaver {
      HeadIsChoice(hash, key, Dropped(nodes, leaver), ranked[1..], after);
    } else {
      ChoiceIsTop(hash, key, nodes, before);
      ChoiceStays(hash, key, nodes, Dropped(nodes, leaver), before, after);
    }
  }

  lemma ChoiceIsTop(hash: Hash, key: string, nodes: seq<string>, best: string)
    requires IsChoice(hash, key, nodes, best)
    ensures best in nodes && forall n :: n in nodes ==> Score(hash, key, n) <= Score(hash, key, best)
  {
  }

  lemma ChoiceStays(hash: Hash, key: string, nodes: seq<string>, fewer: seq<string>, before: string, after: string)
    requires DistinctScores(hash, key, nodes) && IsChoice(hash, key, nodes, before) && IsChoice(hash, key, fewer, after)
    requires before in fewer && forall n :: n in fewer ==> n in nodes
    ensures after == before
  {
    ChoiceIsTop(hash, key, nodes, before);
    ChoiceIsTop(hash, key, fewer, after);
  }

  /** The choice goes by list order among equals and the ranking by name: the choice heads the ranking if and
      only if no node with the same score has a greater name. */
  lemma ChoiceHeadsRankingIff(hash: Hash, key: string, nodes: seq<string>, best: string)
    requires IsChoice(hash, key, nodes, best)
    ensures var ranked := Ranked(hash, key, nodes);
      && ranked != []
      && (ranked[0] == best <==> forall n :: n in nodes && Score(hash, key, n) == Score(hash, key, best) ==> !Less(best, n))
  {
    var ranked := Ranked(hash, key, nodes);
    ChoiceIsTop(hash, key, nodes, best);
    RankedRanks(hash, key, nodes);
    hide Ranked, IsChoice, Less, Score, Distinct;
    forall n ensures n in nodes <==> n in ranked {
      assert n in multiset(nodes) <==> n in multiset(ranked);
    }
    var head := ranked[0];
    assert head in nodes;
    forall n | n in nodes ensures AtLeast(hash, key, head, n) {
      var i :| 0 <= i < |ranked| && ranked[i] == n;
      if i > 0 { assert AtLeast(hash, key, ranked[0], ranked[i]); }
    }
    forall n ensures !(Less(best, n) && Less(n, best)) && !Less(n, n) {
      LessTotal(best, n);
      LessTotal(n, n);
    }
  }

  /** A Python slice `s[:n]`. */
  function Take(s: seq<string>, n: int): seq<string> {
    s[..TakeLength(|s|, n)]
  }

  /** How much of a list `[:n]` takes: a negative `n` counts from the end. */
  function TakeLength(length: nat, n: int): (k: nat)
    ensures k <= length
    ensures 0 <= n <= length ==> k == n
  {
    if n >= length then length else if n >= 0 then n else if -n >= length then 0 else length + n
  }

  /** As many of the nodes as a slice `[:n]` takes, best first; none that was left out ranks above one of them. */
  ghost predicate TopNodes(hash: Hash, key: string, nodes: seq<string>, n: int, top: seq<string>) {
    && (0 <= n <= |nodes| ==> |top| == n) && (n > |nodes| ==> |top| == |nodes|)
    && (-|nodes| <= n < 0 ==> |top| == |nodes| + n) && (n < -|nodes| ==> top == [])
    && InRank(hash, key, top)
    && multiset(top) <= multiset(nodes)
    && forall a, b :: a in top && b in multiset(nodes) - multiset(top) ==> AtLeast(hash, key, a, b)
  }

  lemma CutOfRanking(hash: Hash, key: string, ranked: seq<string>, k: nat)
    requires InRank(hash, key, ranked) && k <= |ranked|
    ensures InRank(hash, key, ranked[..k])
    ensures forall a, b :: a in ranked[..k] && b in ranked[k..] ==> AtLeast(hash, key, a, b)
  {
    hide AtLeast;
    forall a, b | a in ranked[..k] && b in ranked[k..] ensures AtLeast(hash, key, a, b) {
      var i :| 0 <= i < k && ranked[i] == a;
      var j :| k <= j < |ranked| && ranked[j] == b;
    }
  }

  lemma CutCounts<T>(all: seq<T>, k: nat)
    requires k <= |all|
    ensures multiset(all[..k]) <= multiset(all) && multiset(all) - multiset(all[..k]) == multiset(all[k..])
  {
    assert all == all[..k] + all[k..];
  }

  lemma TakenIsTop(hash: Hash, key: string, nodes: seq<string>, n: int)
    ensures TopNodes(hash, key, nodes, n, Take(Ranked(hash, key, nodes), n))
  {
    var ranked := Ranked(hash, key, nodes);
    RankedMultiset(hash, key, nodes);
    hide Ranked, AtLeast, InRank;
    assert |ranked| == |multiset(ranked)| == |multiset(nodes)| == |nodes|;
    var k := TakeLength(|ranked|, n);
    CutOfRanking(hash, key, ranked, k);
    CutCounts(ranked, k);
    forall b | b in multiset(ranked[k..]) ensures b in ranked[k..] {
    }
  }

  class RendezvousHash {
    const hash: Hash
    var nodes: seq<string>

    constructor (hash: Hash, nodes: seq<string>)
      ensures this.hash == hash && this.nodes == nodes
    {
      this.hash, this.nodes := hash, nodes;
    }

    method AddNode(node: string)
      modifies this
      ensures nodes == if node in old(nodes) then old(nodes) else old(nodes) + [node]
    {
      if node !in nodes {
        nodes := nodes + [node];
      }
    }

    method RemoveNode(node: string)
      modifies this
      ensures nodes == Dropped(old(nodes), node)
    {
      if node in nodes {
        nodes := Dropped(nodes, node);
      }
    }

    /** The choice for a key, or the error of an empty node list. */
    method GetNode(key: string) returns (best: Option<string>)
      ensures best.None? <==> nodes == []
      ensures best.Some? ==> IsChoice(hash, key, nodes, best.value)
    {
      best := None;
      var bestScore: int := -1;
      ghost var at := 0;
      for i := 0 to |nodes|
        invariant best.None? <==> i == 0
        invariant best.None? ==> bestScore == -1
        invariant best.Some? ==> 0 <= at < i && best.value == nodes[at] && bestScore == Score(hash, key, nodes[at])
        invariant forall j :: 0 <= j < i ==> Score(hash, key, nodes[j]) <= bestScore
        invariant forall j :: 0 <= j < at && j < i ==> Score(hash, key, nodes[j]) < bestScore
      {
        var score := Score(hash, key, nodes[i]);
        if score > bestScore {
          bestScore, best, at := score, Some(nodes[i]), i;
        }
      }
      if nodes != [] {
        assert ChosenAt(hash, key, nodes, at);
      }
    }

    /** The best of the nodes for a key, best first. */
    method GetNodes(key: string, n: int) returns (top: seq<string>)
      ensures TopNodes(hash, key, nodes, n, top)
      ensures top == Take(Ranked(hash, key, nodes), n)
    {
      var scored := Ranked(hash, key, nodes);
      top := Take(scored, n);
      TakenIsTop(hash, key, nodes, n);
    }
  }

  // ----- the ring of virtual nodes -----

  /** The point of a node's i-th virtual node. */
  type Points = (string, nat) -> nat

  function PointsOf(point: Points, node: string, replicas: nat): set<nat> {
    set i | 0 <= i < replicas :: point(node, i)
  }

  /** The ring after a node joined: its points are its own, whoever held them. */
  function Joined(ring: map<nat, string>, points: set<nat>, node: string): map<nat, string> {
    ring + (map p | p in points :: node)
  }

  ghost predicate SortedKeys(keys: seq<nat>, ring: map<nat, string>) {
    && (forall i, j :: 0 <= i < j < |keys| ==> keys[i] < keys[j])
    && (forall k :: k in keys <==> k in ring)
  }

  /** The next point strictly clockwise of a position, wrapping around to the least. */
  ghost predicate Successor(points: set<nat>, h: nat, k: nat) {
    && k in points
    && (if exists p :: p in points && p > h then
          k > h && forall p :: p in points && p > h ==> k <= p
        else
          forall p :: p in points ==> k <= p)
  }

  lemma SuccessorUnique(points: set<nat>, h: nat, a: nat, b: nat)
    requires Successor(points, h, a) && Successor(points, h, b)
    ensures a == b
  {
    assert a in points && b in points;
    if p :| p in points && p > h {
      assert a <= b && b <= a;
    }
  }

  ghost predicate Owns(ring: map<nat, string>, h: nat, node: string) {
    exists k :: Successor(ring.Keys, h, k) && ring[k] == node
  }

  /** A node that joins takes positions for itself alone; the others keep their owner. */
  lemma JoinTakesOnlyForItself(ring: map<nat, string>, points: set<nat>, joiner: string, h: nat, before: string, after: string)
    requires Owns(ring, h, before) && Owns(Joined(ring, points, joiner), h, after)
    ensures after == before || after == joiner
  {
    var k :| Successor(ring.Keys, h, k) && ring[k] == before;
    var ring' := Joined(ring, points, joiner);
    var k' :| Successor(ring'.Keys, h, k') && ring'[k'] == after;
    if k' !in points {
      assert k' in ring && forall p :: p in ring ==> p in ring';
      StillSuccessor(ring'.Keys, ring.Keys, h, k');
      SuccessorUnique(ring.Keys, h, k, k');
    }
  }

  /** Of fewer points, the one that was next still is. */
  lemma StillSuccessor(points: set<nat>, fewer: set<nat>, h: nat, k: nat)
    requires Successor(points, h, k) && fewer <= points && k in fewer
    ensures Successor(fewer, h, k)
  {
  }

  /** A node that leaves gives up its own positions; every other keeps its owner. */
  lemma LeaveMovesOnlyItsOwn(ring: map<nat, string>, points: set<nat>, h: nat, k: nat, after: string)
    requires Successor(ring.Keys, h, k) && k !in points && Owns(ring - points, h, after)
    ensures after == ring[k]
  {
    var ring' := ring - points;
    var k' :| Successor(ring'.Keys, h, k') && ring'[k'] == after;
    StillSuccessor(ring.Keys, ring'.Keys, h, k);
    SuccessorUnique(ring'.Keys, h, k, k');
  }

  /** Joining and leaving again restores the ring, and with it every assignment, exactly when the
      node's points were free. */
  lemma JoinThenLeaveRestoresIff(ring: map<nat, string>, points: set<nat>, node: string)
    ensures Joined(ring, points, node) - points == ring <==> points !! ring.Keys
  {
    var back := Joined(ring, points, node) - points;
    assert back.Keys == ring.Keys - points;
    if points !! ring.Keys {
      assert forall k :: k in ring ==> back[k] == ring[k];
      assert back == ring;
    }
  }

  /** The order in which two nodes join is invisible exactly when they share no point. */
  lemma JoinsCommuteIff(ring: map<nat, string>, ps: set<nat>, a: string, qs: set<nat>, b: string)
    requires a != b
    ensures Joined(Joined(ring, ps, a), qs, b) == Joined(Joined(ring, qs, b), ps, a) <==> ps !! qs
  {
    var left, right := Joined(Joined(ring, ps, a), qs, b), Joined(Joined(ring, qs, b), ps, a);
    JoinedAt(Joined(ring, ps, a), qs, b);
    JoinedAt(ring, ps, a);
    JoinedAt(Joined(ring, qs, b), ps, a);
    JoinedAt(ring, qs, b);
    hide Joined;
    if p :| p in ps && p in qs {
      assert Find(left, p) == Some(b) && Find(right, p) == Some(a);
    } else {
      assert forall k :: Find(left, k) == Find(right, k);
      assert forall k :: k in left <==> Find(left, k).Some?;
      assert forall k :: k in right <==> Find(right, k).Some?;
      assert forall k :: k in left ==> left[k] == right[k];
      assert left == right;
    }
  }

  lemma JoinedNext(ring: map<nat, string>, points: set<nat>, p: nat, node: string)
    ensures Joined(ring, points + {p}, node) == Joined(ring, points, node)[p := node]
  {
  }

  lemma JoinedAt(ring: map<nat, string>, points: set<nat>, node: string)
    ensures forall k :: Find(Joined(ring, points, node), k) == if k in points then Some(node) else Find(ring, k)
  {
  }

  /** `bisect.bisect`: how many of the keys are not above `h`. */
  method Bisect(keys: seq<nat>, h: nat) returns (at: nat)
    requires forall i, j :: 0 <= i < j < |keys| ==> keys[i] < keys[j]
    ensures at <= |keys|
    ensures forall i :: 0 <= i < at ==> keys[i] <= h
    ensures forall i :: at <= i < |keys| ==> h < keys[i]
  {
    at := 0;
    var hi := |keys|;
    while at < hi
      invariant 0 <= at <= hi <= |keys|
      invariant forall i :: 0 <= i < at ==> keys[i] <= h
      invariant forall i :: hi <= i < |keys| ==> h < keys[i]
    {
      var mid := (at + hi) / 2;
      if h < keys[mid] {
        hi := mid;
      } else {
        at := mid + 1;
      }
    }
  }

  lemma Inserted(keys: seq<nat>, at: nat, p: nat)
    requires at <= |keys|
    ensures forall k :: k in keys[..at] + [p] + keys[at..] <==> k in keys || k == p
  {
    assert keys == keys[..at] + keys[at..];
  }

  /** `sorted(ring.keys())`. */
  method SortKeys(points: set<nat>) returns (keys: seq<nat>)
    ensures forall i, j :: 0 <= i < j < |keys| ==> keys[i] < keys[j]
    ensures forall k :: k in keys <==> k in points
  {
    keys := [];
    var rest := points;
    while rest != {}
      invariant rest <= points
      invariant forall i, j :: 0 <= i < j < |keys| ==> keys[i] < keys[j]
      invariant forall k :: k in keys <==> k in points - rest
      decreases |rest|
    {
      var p :| p in rest;
      var at := Bisect(keys, p);
      Inserted(keys, at, p);
      assert p !in keys;
      forall i | 0 <= i < at ensures keys[i] < p {
        assert keys[i] in keys;
      }
      keys, rest := keys[..at] + [p] + keys[at..], rest - {p};
    }
  }

  class ConsistentHashRing {
    const hash: Hash
    const point: Points
    const replicas: nat
    var ring: map<nat, string>
    var sortedKeys: seq<nat>

    ghost predicate Valid()
      reads this
    {
      SortedKeys(sortedKeys, ring)
    }

    constructor (hash: Hash, point: Points, replicas: nat)
      ensures Valid() && ring == map[]
      ensures this.hash == hash && this.point == point && this.replicas == replicas
    {
      this.hash, this.point, this.replicas := hash, point, replicas;
      ring, sortedKeys := map[], [];
    }

    method AddNode(node: string)
      requires Valid()
      modifies this
      ensures Valid() && ring == Joined(old(ring), PointsOf(point, node, replicas), node)
    {
      assert ring == Joined(ring, PointsOf(point, node, 0), node);
      hide Joined, PointsOf;
      for i := 0 to replicas
        invariant ring == Joined(old(ring), PointsOf(point, node, i), node)
      {
        PointsNext(node, i);
        JoinedNext(old(ring), PointsOf(point, node, i), point(node, i), node);
        ring := ring[point(node, i) := node];
      }
      sortedKeys := SortKeys(ring.Keys);
    }

    lemma PointsNext(node: string, i: nat)
      ensures PointsOf(point, node, i + 1) == PointsOf(point, node, i) + {point(node, i)}
    {
      forall p ensures p in PointsOf(point, node, i + 1) <==> p in PointsOf(point, node, i) || p == point(node, i) {
        if p in PointsOf(point, node, i + 1) {
          var j: nat :| j < i + 1 && point(node, j) == p;
          assert j < i || j == i;
        }
      }
    }

    method RemoveNode(node: string)
      requires Valid()
      modifies this
      ensures Valid() && ring == old(ring) - PointsOf(point, node, replicas)
    {
      for i := 0 to replicas
        invariant ring == old(ring) - PointsOf(point, node, i)
      {
        PointsNext(node, i);
        ring := ring - {point(node, i)};
      }
      sortedKeys := SortKeys(ring.Keys);
    }

    /** The owner of a key: that of the next point strictly clockwise of its hash. */
    method GetNode(key: string) returns (node: Option<string>)
      requires Valid()
      ensures node.None? <==> ring == map[]
      ensures node.Some? ==> Owns(ring, hash(key), node.value)
      ensures node.Some? ==> exists k ::
        && k in ring && ring[k] == node.value
        && (if exists p :: p in ring && p > hash(key) then k > hash(key) && forall p :: p in ring && p > hash(key) ==> k <= p
            else forall p :: p in ring ==> k <= p)
    {
      if ring == map[] {
        return None;
      }
      ghost var some :| some in ring;
      assert some in sortedKeys;
      var h := hash(key);
      var at := Bisect(sortedKeys, h);
      var i := at % |sortedKeys|;
      var k := sortedKeys[i];
      assert k in sortedKeys;
      Wraps(at, |sortedKeys|);
      WrapsToSuccessor(sortedKeys, ring, h, at);
      node := Some(ring[k]);
    }
  }

  lemma Wraps(at: nat, n: nat)
    requires at <= n && n > 0
    ensures at % n == if at < n then at else 0
  {
  }

  lemma WrapsToSuccessor(keys: seq<nat>, ring: map<nat, string>, h: nat, at: nat)
    requires SortedKeys(keys, ring) && at <= |keys| && keys != []
    requires forall j :: 0 <= j < at ==> keys[j] <= h
    requires forall j :: at <= j < |keys| ==> h < keys[j]
    ensures Successor(ring.Keys, h, keys[if at < |keys| then at else 0])
  {
    var k := keys[if at < |keys| then at else 0];
    assert k in keys;
    forall p | p in ring.Keys
      ensures p > h ==> at < |keys| && k <= p
      ensures at == |keys| ==> k <= p
    {
      assert p in keys;
      var j :| 0 <= j < |keys| && keys[j] == p;
    }
    if at < |keys| {
      assert k in ring.Keys && k > h;
    }
  }
}
