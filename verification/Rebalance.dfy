/** The read-only rebalancing recommendation and the potential it never raises. */
module Rebalance {
  import opened Wrappers
  import opened Ordering
  import opened Protocol

  /** A shard the recommendation counts. */
  predicate Counts(s: ShardRec, ns: string, node: string) {
    s.namespace == ns && Migratable(s.state) && s.nodeId == node
  }

  /** How many movable shards of the namespace a node owns. */
  function Load(shards: seq<ShardRec>, ns: string, node: string): nat {
    if shards == [] then 0 else (if Counts(shards[0], ns, node) then 1 else 0) + Load(shards[1..], ns, node)
  }

  ghost function Owned(shards: seq<ShardRec>, ns: string, node: string): set<nat> {
    set i | 0 <= i < |shards| && shards[i].namespace == ns && shards[i].nodeId == node
            && (shards[i].state == Active || shards[i].state == Draining)
  }

  lemma {:induction false} LoadAppend(shards: seq<ShardRec>, s: ShardRec, ns: string, node: string)
    ensures Load(shards + [s], ns, node) == Load(shards, ns, node) + if Counts(s, ns, node) then 1 else 0
  {
    if shards == [] {
      assert [] + [s] == [s];
    } else {
      LoadAppend(shards[1..], s, ns, node);
      assert (shards + [s])[1..] == shards[1..] + [s];
    }
  }

  lemma OwnedNext(shards: seq<ShardRec>, ns: string, node: string, n: nat)
    requires n + 1 == |shards|
    ensures |Owned(shards, ns, node)| == |Owned(shards[..n], ns, node)| + if Counts(shards[n], ns, node) then 1 else 0
  {
    assert forall i :: 0 <= i < n ==> shards[..n][i] == shards[i];
    assert Owned(shards, ns, node) == Owned(shards[..n], ns, node) + if Counts(shards[n], ns, node) then {n} else {};
  }

  /** The load is how many ACTIVE and DRAINING shards of the namespace the node owns. */
  lemma {:induction false} LoadCounts(shards: seq<ShardRec>, ns: string, node: string)
    ensures Load(shards, ns, node) == |Owned(shards, ns, node)|
  {
    hide Counts;
    if shards == [] {
      assert Owned(shards, ns, node) == {};
    } else {
      var n := |shards| - 1;
      LoadCounts(shards[..n], ns, node);
      assert shards == shards[..n] + [shards[n]];
      LoadAppend(shards[..n], shards[n], ns, node);
      OwnedNext(shards, ns, node, n);
      hide Owned, Load;
    }
  }

  datatype Recommendation = Recommendation(namespace: string, shard: ShardRec, owner: string, target: string)

  ghost predicate Heaviest(shards: seq<ShardRec>, known: seq<string>, ns: string, node: string) {
    && node in known
    && forall n :: n in known && n != node ==>
         Load(shards, ns, n) < Load(shards, ns, node) || (Load(shards, ns, n) == Load(shards, ns, node) && Less(node, n))
  }

  ghost predicate LightestOther(shards: seq<ShardRec>, known: seq<string>, ns: string, owner: string, node: string) {
    && node in known && node != owner
    && forall n :: n in known && n != owner && n != node ==>
         Load(shards, ns, node) < Load(shards, ns, n) || (Load(shards, ns, node) == Load(shards, ns, n) && Less(node, n))
  }

  /** No two members differ by more than one. */
  ghost predicate Level(shards: seq<ShardRec>, known: seq<string>, ns: string) {
    forall a, b :: a in known && b in known ==> Load(shards, ns, a) <= Load(shards, ns, b) + 1
  }

  /** What a recommendation promises: a movable shard of a most-loaded member, to a strictly
      less loaded member than which no other is lighter. */
  ghost predicate Sound(shards: seq<ShardRec>, known: seq<string>, r: Recommendation) {
    && r.shard in shards && Counts(r.shard, r.namespace, r.owner)
    && Heaviest(shards, known, r.namespace, r.owner)
    && LightestOther(shards, known, r.namespace, r.owner, r.target)
    && Load(shards, r.namespace, r.target) < Load(shards, r.namespace, r.owner)
    && Load(shards, r.namespace, r.owner) >= 2
    && forall s :: s in shards && Counts(s, r.namespace, r.owner) ==> s.id == r.shard.id || Less(r.shard.id, s.id)
  }

  lemma {:induction false} LoadHasShard(shards: seq<ShardRec>, ns: string, node: string)
    ensures Load(shards, ns, node) > 0 <==> exists s :: s in shards && Counts(s, ns, node)
  {
    if shards != [] {
      LoadHasShard(shards[1..], ns, node);
      assert shards == [shards[0]] + shards[1..];
    }
  }

  /** The most loaded member; of several, the one with the least id. */
  method PickHeaviest(shards: seq<ShardRec>, known: seq<string>, ns: string) returns (owner: string)
    requires known != [] && AscendingBy(Self, known)
    ensures Heaviest(shards, known, ns, owner)
  {
    ghost var at := 0;
    owner := known[0];
    for i := 0 to |known|
      invariant 0 <= at < |known| && known[at] == owner && (at < i || (i == 0 && at == 0))
      invariant forall j :: 0 <= j < i ==> Load(shards, ns, known[j]) <= Load(shards, ns, owner)
      invariant forall j :: 0 <= j < at ==> Load(shards, ns, known[j]) < Load(shards, ns, owner)
    {
      if Load(shards, ns, known[i]) > Load(shards, ns, owner) {
        owner, at := known[i], i;
      }
    }
    forall j | 0 <= j < |known| && known[j] != owner && j > at ensures Less(owner, known[j]) {
      assert Less(Self(known[at]), Self(known[j]));
    }
  }

  /** The least loaded other member; of several, the one with the least id. */
  method PickLightest(shards: seq<ShardRec>, known: seq<string>, ns: string, owner: string) returns (target: Option<string>)
    requires AscendingBy(Self, known)
    ensures target.Some? ==> LightestOther(shards, known, ns, owner, target.value)
    ensures target.None? ==> forall n :: n in known ==> n == owner
  {
    ghost var at := 0;
    target := None;
    for i := 0 to |known|
      invariant target.Some? ==> 0 <= at < i && known[at] == target.value && target.value != owner
      invariant target.Some? ==> forall j :: 0 <= j < i && known[j] != owner ==>
        Load(shards, ns, target.value) <= Load(shards, ns, known[j])
      invariant target.Some? ==> forall j :: 0 <= j < at && known[j] != owner ==>
        Load(shards, ns, target.value) < Load(shards, ns, known[j])
      invariant target.None? ==> forall j :: 0 <= j < i ==> known[j] == owner
    {
      if known[i] != owner && (target.None? || Load(shards, ns, known[i]) < Load(shards, ns, target.value)) {
        target, at := Some(known[i]), i;
      }
    }
    if target.Some? {
      forall j | at < j < |known| ensures Less(target.value, known[j]) {
        assert Less(Self(known[at]), Self(known[j]));
      }
    }
  }

  /** The owner's movable shard with the least id. */
  method PickShard(shards: seq<ShardRec>, ns: string, owner: string) returns (shard: ShardRec)
    requires Load(shards, ns, owner) > 0
    ensures shard in shards && Counts(shard, ns, owner)
    ensures forall s :: s in shards && Counts(s, ns, owner) ==> s.id == shard.id || Less(shard.id, s.id)
  {
    LoadHasShard(shards, ns, owner);
    shard :| shard in shards && Counts(shard, ns, owner);
    for i := 0 to |shards|
      invariant shard in shards && Counts(shard, ns, owner)
      invariant forall j :: 0 <= j < i && Counts(shards[j], ns, owner) ==> shards[j].id == shard.id || Less(shard.id, shards[j].id)
    {
      LessTotal(shards[i].id, shard.id);
      if Counts(shards[i], ns, owner) && Less(shards[i].id, shard.id) {
        forall j | 0 <= j < i && Counts(shards[j], ns, owner) ensures Less(shards[i].id, shards[j].id) {
          if shards[j].id != shard.id {
            LessTransitive(shards[i].id, shard.id, shards[j].id);
          }
        }
        shard := shards[i];
      }
    }
  }

  lemma OneChoice(shards: seq<ShardRec>, known: seq<string>, ns: string, owner: string, target: string, q: Recommendation)
    requires q.namespace == ns && Sound(shards, known, q)
    requires Heaviest(shards, known, ns, owner)
    ensures q.owner == owner
    ensures LightestOther(shards, known, ns, owner, target) ==> q.target == target
  {
    LessTotal(owner, q.owner);
    LessTotal(target, q.target);
    hide Load, Less;
  }

  /** One namespace's recommendation: none exactly when no recommendation would be sound, and then
      the members are level. */
  method Recommend(shards: seq<ShardRec>, known: seq<string>, ns: string) returns (r: Option<Recommendation>)
    requires AscendingBy(Self, known)
    ensures r.Some? ==> r.value.namespace == ns && Sound(shards, known, r.value)
    ensures r.Some? ==>
      var s := r.value.shard; s.namespace == ns && s.nodeId == r.value.owner && (s.state == Active || s.state == Draining)
    ensures r.None? ==> Level(shards, known, ns) && forall q: Recommendation :: q.namespace == ns ==> !Sound(shards, known, q)
    ensures r.None? <==> forall a, b :: a in known && b in known && Load(shards, ns, b) < Load(shards, ns, a) ==> Load(shards, ns, a) <= 1
  {
    if known == [] {
      return None;
    }
    var owner := PickHeaviest(shards, known, ns);
    forall q: Recommendation, n: string | q.namespace == ns && Sound(shards, known, q)
      ensures q.owner == owner && (LightestOther(shards, known, ns, owner, n) ==> q.target == n)
    {
      OneChoice(shards, known, ns, owner, n, q);
    }
    if Load(shards, ns, owner) <= 1 {
      return None;
    }
    var target := PickLightest(shards, known, ns, owner);
    if target.None? || Load(shards, ns, target.value) >= Load(shards, ns, owner) {
      return None;
    }
    var shard := PickShard(shards, ns, owner);
    r := Some(Recommendation(ns, shard, owner, target.value));
  }

  ghost predicate Covered(recs: seq<Recommendation>, ns: string) {
    exists r :: r in recs && r.namespace == ns
  }

  lemma CoveredGrows(recs: seq<Recommendation>, r: Recommendation, ns: string)
    ensures Covered(recs, ns) || r.namespace == ns ==> Covered(recs + [r], ns)
  {
    assert (recs + [r])[|recs|] == r;
    assert forall q :: q in recs ==> q in recs + [r];
  }

  ghost predicate Ordered(recs: seq<Recommendation>, namespaces: seq<string>) {
    && (forall i, j :: 0 <= i < j < |recs| ==> Less(recs[i].namespace, recs[j].namespace))
    && forall r :: r in recs ==> r.namespace in namespaces
  }

  lemma OrderedGrows(recs: seq<Recommendation>, r: Recommendation, namespaces: seq<string>, i: nat)
    requires i < |namespaces| && r.namespace == namespaces[i]
    requires Ordered(recs, namespaces[..i]) && AscendingBy(Self, namespaces)
    ensures Ordered(recs + [r], namespaces[..i + 1])
    ensures Ordered(recs, namespaces[..i + 1])
  {
    hide Less;
    assert namespaces[..i + 1] == namespaces[..i] + [namespaces[i]];
    forall q | q in recs ensures Less(q.namespace, namespaces[i]) {
      var k :| 0 <= k < i && namespaces[k] == q.namespace;
      assert Less(Self(namespaces[k]), Self(namespaces[i]));
    }
  }

  /** At most one recommendation for each namespace, in the namespaces' order; every namespace
      that is not level gets one. */
  method RecommendRebalance(shards: seq<ShardRec>, nodes: seq<NodeRec>) returns (recs: seq<Recommendation>)
    requires DistinctBy(Self, Remaining(nodes))
    ensures forall r :: r in recs ==> Sound(shards, Known(nodes), r)
    ensures forall i, j :: 0 <= i < j < |recs| ==> Less(recs[i].namespace, recs[j].namespace)
    ensures forall s :: s in shards ==> Covered(recs, s.namespace) || Level(shards, Known(nodes), s.namespace)
  {
    var known := Known(nodes);
    SortByCorrect(Self, Remaining(nodes));
    ghost var all := set s | s in shards :: s.namespace;
    var namespaces := SortedSet(set s | s in shards :: s.namespace);
    hide Sound, Level, Covered, Known, DistinctBy, Less;
    recs := [];
    for i := 0 to |namespaces|
      invariant forall r :: r in recs ==> Sound(shards, known, r)
      invariant Ordered(recs, namespaces[..i])
      invariant forall k :: 0 <= k < i ==> Covered(recs, namespaces[k]) || Level(shards, known, namespaces[k])
    {
      var r := Recommend(shards, known, namespaces[i]);
      if r.Some? {
        OrderedGrows(recs, r.value, namespaces, i);
        forall k | 0 <= k <= i ensures Covered(recs, namespaces[k]) || k == i ==> Covered(recs + [r.value], namespaces[k]) {
          CoveredGrows(recs, r.value, namespaces[k]);
        }
        recs := recs + [r.value];
      }
    }
    forall s | s in shards ensures Covered(recs, s.namespace) || Level(shards, known, s.namespace) {
      assert s.namespace in all;
    }
  }

  /** The members that are not REMOVED, sorted. */
  function Known(nodes: seq<NodeRec>): seq<string> {
    SortBy(Self, Remaining(nodes))
  }

  function Remaining(nodes: seq<NodeRec>): seq<string> {
    if nodes == [] then []
    else (if nodes[0].state != Removed then [nodes[0].nodeId] else []) + Remaining(nodes[1..])
  }

  // ----- following recommendations -----

  /** The shards after one of them was handed to another node. */
  function Moved(shards: seq<ShardRec>, id: string, target: string): seq<ShardRec> {
    if shards == [] then []
    else [if shards[0].id == id then shards[0].(nodeId := target) else shards[0]] + Moved(shards[1..], id, target)
  }

  ghost predicate DistinctIds(shards: seq<ShardRec>) {
    forall i, j :: 0 <= i < j < |shards| ==> shards[i].id != shards[j].id
  }

  lemma {:induction false} MovedLoads(shards: seq<ShardRec>, ns: string, s: ShardRec, owner: string, target: string, n: string)
    requires DistinctIds(shards) && s in shards && Counts(s, ns, owner) && owner != target
    ensures Load(Moved(shards, s.id, target), ns, n)
         == Load(shards, ns, n) + (if n == target then 1 else 0) - (if n == owner then 1 else 0)
  {
    var rest := shards[1..];
    assert shards == [shards[0]] + rest;
    if shards[0] == s {
      MovedAway(rest, s.id, target);
    } else {
      MovedLoads(rest, ns, s, owner, target, n);
    }
    assert Moved(shards, s.id, target)[1..] == Moved(rest, s.id, target);
  }

  lemma {:induction false} MovedAway(shards: seq<ShardRec>, id: string, target: string)
    requires forall s :: s in shards ==> s.id != id
    ensures Moved(shards, id, target) == shards
  {
    if shards != [] {
      MovedAway(shards[1..], id, target);
    }
  }

  /** The sum of the squared loads. */
  function Potential(shards: seq<ShardRec>, ns: string, known: seq<string>): nat {
    if known == [] then 0
    else Load(shards, ns, known[0]) * Load(shards, ns, known[0]) + Potential(shards, ns, known[1..])
  }

  lemma {:induction false} PotentialOfMove(
      shards: seq<ShardRec>, ns: string, s: ShardRec, owner: string, target: string, known: seq<string>)
    requires DistinctIds(shards) && s in shards && Counts(s, ns, owner) && owner != target
    requires DistinctBy(Self, known)
    ensures Potential(Moved(shards, s.id, target), ns, known) == Potential(shards, ns, known)
            + (if target in known then 2 * Load(shards, ns, target) + 1 else 0)
            - (if owner in known then 2 * Load(shards, ns, owner) - 1 else 0)
  {
    if known != [] {
      var rest := known[1..];
      assert known == [known[0]] + rest;
      PotentialOfMove(shards, ns, s, owner, target, rest);
      MovedLoads(shards, ns, s, owner, target, known[0]);
      forall i | 0 <= i < |rest| ensures rest[i] != known[0] {
        assert Self(known[0]) != Self(known[i + 1]);
      }
      SquareStep(Load(shards, ns, known[0]));
    }
  }

  lemma SquareStep(x: int)
    ensures (x + 1) * (x + 1) == x * x + 2 * x + 1 && (x - 1) * (x - 1) == x * x - 2 * x + 1
  {
  }

  /** Following a recommendation never raises the potential, and lowers it by twice the gap less
      one: strictly as soon as the gap is two, and not at all when it is one. */
  lemma RecommendationLowersPotential(shards: seq<ShardRec>, known: seq<string>, r: Recommendation)
    requires DistinctIds(shards) && DistinctBy(Self, known) && Sound(shards, known, r)
    ensures var gap := Load(shards, r.namespace, r.owner) - Load(shards, r.namespace, r.target);
      && gap >= 1
      && Potential(Moved(shards, r.shard.id, r.target), r.namespace, known) == Potential(shards, r.namespace, known) - 2 * (gap - 1)
  {
    PotentialOfMove(shards, r.namespace, r.shard, r.owner, r.target, known);
  }

  lemma {:induction false} MovedStaysDistinct(shards: seq<ShardRec>, id: string, target: string)
    ensures |Moved(shards, id, target)| == |shards|
    ensures forall i :: 0 <= i < |shards| ==> Moved(shards, id, target)[i].id == shards[i].id
  {
    if shards != [] {
      MovedStaysDistinct(shards[1..], id, target);
    }
  }

  /** A recommendation across a gap of one finds the members level already. */
  lemma GapOneIsLevel(shards: seq<ShardRec>, known: seq<string>, r: Recommendation)
    requires Sound(shards, known, r)
    requires Load(shards, r.namespace, r.owner) == Load(shards, r.namespace, r.target) + 1
    ensures Level(shards, known, r.namespace)
  {
    forall a, b | a in known && b in known
      ensures Load(shards, r.namespace, a) <= Load(shards, r.namespace, b) + 1
    {
      hide Load;
    }
  }

  /** A recommendation followed across a gap of two or more. */
  ghost predicate Follows(before: seq<ShardRec>, after: seq<ShardRec>, known: seq<string>, r: Recommendation, ns: string) {
    && r.namespace == ns && Sound(before, known, r)
    && Load(before, ns, r.owner) >= Load(before, ns, r.target) + 2
    && after == Moved(before, r.shard.id, r.target)
  }

  lemma FollowedOnce(before: seq<ShardRec>, after: seq<ShardRec>, known: seq<string>, r: Recommendation, ns: string)
    requires Follows(before, after, known, r, ns) && DistinctIds(before) && DistinctBy(Self, known)
    ensures DistinctIds(after)
    ensures Potential(after, ns, known) + 2 <= Potential(before, ns, known)
  {
    RecommendationLowersPotential(before, known, r);
    MovedStaysDistinct(before, r.shard.id, r.target);
    hide Load, Potential, Moved, Sound;
  }

  /** Balancing ends: the moves across a gap of two or more are at most half the first potential,
      whatever recommendation is followed each time. */
  lemma {:induction false} FollowingEnds(states: seq<seq<ShardRec>>, known: seq<string>, recs: seq<Recommendation>, ns: string, n: nat)
    requires |states| == |recs| + 1 && n <= |recs|
    requires DistinctIds(states[0]) && DistinctBy(Self, known)
    requires forall i :: 0 <= i < |recs| ==> Follows(states[i], states[i + 1], known, recs[i], ns)
    ensures DistinctIds(states[n])
    ensures 2 * n + Potential(states[n], ns, known) <= Potential(states[0], ns, known)
  {
    if n > 0 {
      hide Follows, Potential, DistinctIds, DistinctBy;
      FollowingEnds(states, known, recs, ns, n - 1);
      assert Follows(states[n - 1], states[n - 1 + 1], known, recs[n - 1], ns);
      FollowedOnce(states[n - 1], states[n], known, recs[n - 1], ns);
    }
  }

  /** A recommendation passes every check of a creation, if its members share the cluster, have
      ids, and the shard has no migration in progress. */
  lemma RecommendationIsAdmitted(cfg: Config, w: World, shards: seq<ShardRec>, nodes: seq<NodeRec>, r: Recommendation, newId: string)
    requires forall s :: s in shards <==> s.id in w.shards && w.shards[s.id] == s
    requires forall n :: n in nodes <==> n.nodeId in w.nodes && w.nodes[n.nodeId] == n
    requires forall n :: n in nodes ==> n.clusterId == cfg.clusterId && n.nodeId != ""
    requires DistinctBy(Self, Remaining(nodes)) && Sound(shards, Known(nodes), r)
    requires forall i :: i in w.migs && w.migs[i].shardId == r.shard.id ==> w.migs[i].Terminal()
    ensures Create(cfg, w, r.namespace, r.shard.id, r.target, newId, Quiet).outcome == Done
  {
    KnownAreMembers(nodes, r.owner);
    KnownAreMembers(nodes, r.target);
    hide Load, Known;
  }

  lemma KnownAreMembers(nodes: seq<NodeRec>, id: string)
    requires DistinctBy(Self, Remaining(nodes))
    ensures id in Known(nodes) <==> exists n :: n in nodes && n.nodeId == id && n.state != Removed
  {
    SortByCorrect(Self, Remaining(nodes));
    assert id in Known(nodes) <==> id in multiset(Known(nodes));
    assert id in Remaining(nodes) <==> id in multiset(Remaining(nodes));
    RemainingMembers(nodes, id);
  }

  lemma {:induction false} RemainingMembers(nodes: seq<NodeRec>, id: string)
    ensures id in Remaining(nodes) <==> exists n :: n in nodes && n.nodeId == id && n.state != Removed
  {
    if nodes != [] {
      RemainingMembers(nodes[1..], id);
      assert nodes == [nodes[0]] + nodes[1..];
    }
  }
}
