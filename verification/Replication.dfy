/** Delivery of one operation to a shard's replicas, and the health view derived from it. */
module Replication {
  import opened Wrappers
  import opened Ordering

  /** A replica, as the health records are keyed. */
  datatype ReplicaKey = ReplicaKey(namespace: string, shardId: string, node: string)

  datatype ReplicaHealth = ReplicaHealth(
    replicaId: string, healthy: bool, available: bool, lastError: Option<string>, successes: nat, failures: nat)

  datatype ShardRef = ShardRef(id: string, nodeId: string, replicas: seq<string>)

  datatype ReplicationResult = ReplicationResult(
    primary: string, attempted: seq<string>, acknowledged: seq<string>, failed: seq<string>,
    failures: map<string, string>, requiredAcks: int, success: bool, degraded: bool)

  datatype HealthView = HealthView(
    primary: string, configured: nat, healthy: nat, available: nat, requiredAcks: int, ready: bool, degraded: bool,
    replicas: seq<ReplicaHealth>)

  // ----- the history the health records summarise -----

  /** One delivery that was made, with the error it raised, if it did. */
  datatype Delivery = Delivery(key: ReplicaKey, error: Option<string>)

  ghost function Latest(history: seq<Delivery>, key: ReplicaKey): Option<Delivery> {
    if history == [] then None
    else if history[|history| - 1].key == key then Some(history[|history| - 1])
    else Latest(history[..|history| - 1], key)
  }

  ghost function Count(history: seq<Delivery>, key: ReplicaKey, failed: bool): nat {
    if history == [] then 0
    else Count(history[..|history| - 1], key, failed)
         + (if history[|history| - 1].key == key && history[|history| - 1].error.Some? == failed then 1 else 0)
  }

  /** No known failure: the latest delivery succeeded, or there was none. */
  ghost predicate Healthy(history: seq<Delivery>, key: ReplicaKey) {
    Latest(history, key).None? || Latest(history, key).value.error.None?
  }

  lemma HistoryAppend(history: seq<Delivery>, d: Delivery, key: ReplicaKey)
    ensures Latest(history + [d], key) == if d.key == key then Some(d) else Latest(history, key)
    ensures forall failed ::
              Count(history + [d], key, failed)
              == Count(history, key, failed) + (if d.key == key && d.error.Some? == failed then 1 else 0)
  {
    assert (history + [d])[..|history|] == history;
  }

  /** The delivery to a replica behind which there is no other to it is its latest; and it has none only if
      there was none. */
  lemma {:induction false} LatestIs(history: seq<Delivery>, key: ReplicaKey, i: nat)
    ensures i < |history| && history[i].key == key && (forall j :: i < j < |history| ==> history[j].key != key) ==>
      Latest(history, key) == Some(history[i])
    ensures (forall j :: 0 <= j < |history| ==> history[j].key != key) ==> Latest(history, key) == None
  {
    if history != [] && history[|history| - 1].key != key {
      var before := history[..|history| - 1];
      LatestIs(before, key, i);
      assert forall j :: 0 <= j < |before| ==> before[j] == history[j];
    }
  }

  ghost function Made(history: seq<Delivery>, key: ReplicaKey, failed: bool): set<nat> {
    set i | 0 <= i < |history| && history[i].key == key && history[i].error.Some? == failed
  }

  lemma MadeNext(history: seq<Delivery>, key: ReplicaKey, failed: bool, n: nat)
    requires n + 1 == |history|
    ensures |Made(history, key, failed)|
         == |Made(history[..n], key, failed)| + if history[n].key == key && history[n].error.Some? == failed then 1 else 0
  {
    var before, after := Made(history[..n], key, failed), Made(history, key, failed);
    forall i ensures i in after <==> i in before || (i == n && history[n].key == key && history[n].error.Some? == failed) {
      assert i < n ==> i < 0 || history[..n][i] == history[i];
    }
    if n in after {
      assert after == before + {n} && n !in before;
    } else {
      assert after == before;
    }
  }

  /** The counters of a replica are how many of the deliveries to it went through, and how many did not. */
  lemma {:induction false} CountIs(history: seq<Delivery>, key: ReplicaKey, failed: bool)
    ensures Count(history, key, failed) == |Made(history, key, failed)|
  {
    if history == [] {
      assert Made(history, key, failed) == {};
    } else {
      CountIs(history[..|history| - 1], key, failed);
      MadeNext(history, key, failed, |history| - 1);
      hide Made;
    }
  }

  /** A delivery to each replica in turn. */
  ghost function Deliveries(namespace: string, shard: string, nodes: seq<string>, errors: seq<Option<string>>): seq<Delivery>
    requires |errors| == |nodes|
  {
    seq(|nodes|, i requires 0 <= i < |nodes| => Delivery(ReplicaKey(namespace, shard, nodes[i]), errors[i]))
  }

  /** What a delivery to each replica comes to: a faulted node raises before its endpoint is asked. */
  ghost function Outcomes(faults: set<string>, nodes: seq<string>, answers: seq<Option<string>>): seq<Option<string>>
    requires |answers| == |nodes|
  {
    seq(|nodes|, i requires 0 <= i < |nodes| =>
      if nodes[i] in faults then Some("ReplicaUnavailableError") else answers[i])
  }

  /** The nodes whose delivery failed, or did not, in order. */
  ghost function Those(nodes: seq<string>, errors: seq<Option<string>>, failed: bool): seq<string>
    requires |errors| == |nodes|
  {
    if nodes == [] then []
    else
      var n := |nodes| - 1;
      Those(nodes[..n], errors[..n], failed) + (if errors[n].Some? == failed then [nodes[n]] else [])
  }

  lemma ThoseNext(nodes: seq<string>, errors: seq<Option<string>>, i: nat, failed: bool)
    requires |errors| == |nodes| && i < |nodes|
    ensures Those(nodes[..i + 1], errors[..i + 1], failed)
         == Those(nodes[..i], errors[..i], failed) + (if errors[i].Some? == failed then [nodes[i]] else [])
  {
    assert nodes[..i + 1][..i] == nodes[..i] && errors[..i + 1][..i] == errors[..i];
  }

  /** The errors that a result keeps: one for each failed node, which is that of one of its deliveries. */
  ghost predicate Explained(failures: map<string, string>, failed: seq<string>, nodes: seq<string>, errors: seq<Option<string>>)
    requires |errors| == |nodes|
  {
    && (forall n :: n in failures <==> n in failed)
    && forall n :: n in failures ==> exists i :: 0 <= i < |errors| && nodes[i] == n && errors[i] == Some(failures[n])
  }

  lemma ExplainedMeans(failures: map<string, string>, failed: seq<string>, nodes: seq<string>, errors: seq<Option<string>>)
    requires |errors| == |nodes|
    ensures failures == map[] && failed == [] ==> Explained(failures, failed, nodes, errors)
    ensures Explained(failures, failed, nodes, errors) ==>
      && (forall n :: n in failures <==> n in failed)
      && forall n :: n in failures ==> exists i :: 0 <= i < |errors| && nodes[i] == n && errors[i] == Some(failures[n])
  {
  }

  lemma ExplainedNext(failures: map<string, string>, failed: seq<string>, nodes: seq<string>, errors: seq<Option<string>>, i: nat)
    requires |errors| == |nodes| && i < |nodes| && Explained(failures, failed, nodes[..i], errors[..i])
    ensures errors[i].None? ==> Explained(failures, failed, nodes[..i + 1], errors[..i + 1])
    ensures errors[i].Some? ==>
      Explained(failures[nodes[i] := errors[i].value], failed + [nodes[i]], nodes[..i + 1], errors[..i + 1])
  {
    var ns, es := nodes[..i + 1], errors[..i + 1];
    forall n | n in failures ensures exists k :: 0 <= k < |es| && ns[k] == n && es[k] == Some(failures[n]) {
      var k :| 0 <= k < i && nodes[..i][k] == n && errors[..i][k] == Some(failures[n]);
      assert ns[k] == n;
    }
    assert ns[i] == nodes[i] && es[i] == errors[i];
  }

  // ----- the health view -----

  ghost function Row(faults: set<string>, history: seq<Delivery>, key: ReplicaKey): ReplicaHealth {
    ReplicaHealth(key.node, Healthy(history, key), key.node !in faults,
                  if Latest(history, key).Some? then Latest(history, key).value.error else None,
                  Count(history, key, false), Count(history, key, true))
  }

  /** The view as a reading of the deliveries that were made and the current faults. */
  ghost predicate Reads(v: HealthView, faults: set<string>, history: seq<Delivery>, namespace: string, shard: ShardRef) {
    && v.configured == |v.replicas| == |shard.replicas|
    && (forall i :: 0 <= i < |shard.replicas| ==>
         v.replicas[i] == Row(faults, history, ReplicaKey(namespace, shard.id, shard.replicas[i])))
    && v.healthy == HealthyAmong(v.replicas) && v.available == AvailableAmong(v.replicas)
    && (v.degraded <==> exists i :: 0 <= i < |v.replicas| && !(v.replicas[i].healthy && v.replicas[i].available))
  }

  function HealthyAmong(rows: seq<ReplicaHealth>): nat {
    if rows == [] then 0 else HealthyAmong(rows[..|rows| - 1]) + (if rows[|rows| - 1].healthy then 1 else 0)
  }

  function AvailableAmong(rows: seq<ReplicaHealth>): nat {
    if rows == [] then 0 else AvailableAmong(rows[..|rows| - 1]) + (if rows[|rows| - 1].available then 1 else 0)
  }

  ghost function Holding(n: nat, holds: nat -> bool): set<nat> {
    set i | 0 <= i < n && holds(i)
  }

  lemma HoldingNext(n: nat, holds: nat -> bool)
    ensures |Holding(n + 1, holds)| == |Holding(n, holds)| + if holds(n) then 1 else 0
  {
    if holds(n) {
      assert Holding(n + 1, holds) == Holding(n, holds) + {n} && n !in Holding(n, holds);
    } else {
      assert Holding(n + 1, holds) == Holding(n, holds);
    }
  }

  /** The counters of a view are how many of its rows are healthy, and available. */
  lemma {:induction false} CountersCount(rows: seq<ReplicaHealth>, healthy: nat -> bool, available: nat -> bool)
    requires forall i :: 0 <= i < |rows| ==> rows[i].healthy == healthy(i) && rows[i].available == available(i)
    ensures HealthyAmong(rows) == |Holding(|rows|, healthy)| && AvailableAmong(rows) == |Holding(|rows|, available)|
  {
    if rows != [] {
      var n := |rows| - 1;
      CountersCount(rows[..n], healthy, available);
      HoldingNext(n, healthy);
      HoldingNext(n, available);
    } else {
      assert Holding(0, healthy) == {} && Holding(0, available) == {};
    }
  }

  /** What a view counts, from the faults and the deliveries alone: replicas whose latest delivery did not
      fail, and replicas that are not faulted. */
  lemma ViewCounts(v: HealthView, faults: set<string>, history: seq<Delivery>, namespace: string, shard: ShardRef)
    requires Reads(v, faults, history, namespace, shard)
    ensures v.healthy == |set i | 0 <= i < |shard.replicas| && Healthy(history, ReplicaKey(namespace, shard.id, shard.replicas[i]))|
    ensures v.available == |set i | 0 <= i < |shard.replicas| && shard.replicas[i] !in faults|
  {
    var n := |shard.replicas|;
    var healthy := (i: nat) => i < n && Healthy(history, ReplicaKey(namespace, shard.id, shard.replicas[i]));
    var available := (i: nat) => i < n && shard.replicas[i] !in faults;
    hide Healthy;
    CountersCount(v.replicas, healthy, available);
    assert Holding(n, healthy) == set i | 0 <= i < n && Healthy(history, ReplicaKey(namespace, shard.id, shard.replicas[i]));
    assert Holding(n, available) == set i | 0 <= i < n && shard.replicas[i] !in faults;
  }

  class InProcessReplicaTransport {
    var faults: set<string>
    var health: map<ReplicaKey, ReplicaHealth>
    ghost var history: seq<Delivery>

    /** The records say, for every replica, exactly what its deliveries came to. */
    ghost predicate Valid()
      reads this
    {
      forall key :: Recorded(health, history, key)
    }

    constructor ()
      ensures Valid() && faults == {} && history == []
    {
      faults, health, history := {}, map[], [];
    }

    method FailNode(node: string)
      requires Valid()
      modifies this`faults
      ensures Valid() && faults == old(faults) + {node}
    {
      faults := faults + {node};
    }

    /** Healing clears the fault and nothing else: health waits for a delivery. */
    method HealNode(node: string)
      requires Valid()
      modifies this`faults
      ensures Valid() && faults == old(faults) - {node}
    {
      faults := faults - {node};
    }

    method RecordNode(key: ReplicaKey, error: Option<string>)
      requires Valid()
      modifies this`health, this`history
      ensures Valid() && history == old(history) + [Delivery(key, error)]
    {
      hide Latest, Count;
      var rec := if key in health then health[key] else ReplicaHealth(key.node, true, key.node !in faults, None, 0, 0);
      if error.None? {
        rec := rec.(healthy := true, available := true, lastError := None, successes := rec.successes + 1);
      } else {
        rec := rec.(healthy := false, available := key.node !in faults, lastError := error, failures := rec.failures + 1);
      }
      ghost var before, past := health, history;
      health := health[key := rec];
      history := history + [Delivery(key, error)];
      forall k ensures Recorded(health, history, k) {
        assert Recorded(before, past, k) && Recorded(before, past, key);
        HistoryAppend(past, Delivery(key, error), k);
      }
    }

    /** One operation to every replica; `answers` is what each endpoint raises when asked. */
    method Deliver(namespace: string, shard: ShardRef, answers: seq<Option<string>>, requiredAcks: int) returns (r: ReplicationResult)
      requires Valid() && |answers| == |shard.replicas|
      modifies this`health, this`history
      ensures Valid()
      ensures var errors := Outcomes(faults, shard.replicas, answers);
        && history == old(history) + Deliveries(namespace, shard.id, shard.replicas, errors)
        && r.attempted == shard.replicas
        && r.acknowledged == Those(shard.replicas, errors, false)
        && r.failed == Those(shard.replicas, errors, true)
        && (r.success <==> 1 + |r.acknowledged| >= requiredAcks)
        && (r.degraded <==> r.failed != [])
        && (forall n :: n in r.failures <==> n in r.failed)
        && (forall n :: n in r.failures ==>
              exists i :: 0 <= i < |errors| && shard.replicas[i] == n && errors[i] == Some(r.failures[n]))
      ensures r.primary == (if shard.nodeId != "" then shard.nodeId else shard.id) && r.requiredAcks == requiredAcks
    {
      var attempted, acknowledged, failed, failures := [], [], [], map[];
      ghost var errors := Outcomes(faults, shard.replicas, answers);
      ghost var all := Deliveries(namespace, shard.id, shard.replicas, errors);
      hide Those, Explained;
      ExplainedMeans(failures, failed, [], []);
      assert Those([], [], false) == [] && Those([], [], true) == [] by {
        NoneOfNone();
      }
      for i := 0 to |shard.replicas|
        invariant Valid() && history == old(history) + all[..i]
        invariant attempted == shard.replicas[..i]
        invariant acknowledged == Those(shard.replicas[..i], errors[..i], false)
        invariant failed == Those(shard.replicas[..i], errors[..i], true)
        invariant Explained(failures, failed, shard.replicas[..i], errors[..i])
      {
        var node := shard.replicas[i];
        ThoseNext(shard.replicas, errors, i, false);
        ThoseNext(shard.replicas, errors, i, true);
        ExplainedNext(failures, failed, shard.replicas, errors, i);
        attempted := attempted + [node];
        var error := if node in faults then Some("ReplicaUnavailableError") else answers[i];
        assert all[..i + 1] == all[..i] + [Delivery(ReplicaKey(namespace, shard.id, node), error)];
        RecordNode(ReplicaKey(namespace, shard.id, node), error);
        if error.None? {
          acknowledged := acknowledged + [node];
        } else {
          failed := failed + [node];
          failures := failures[node := error.value];
        }
      }
      assert shard.replicas[..|shard.replicas|] == shard.replicas && errors[..|shard.replicas|] == errors && all[..|all|] == all;
      ExplainedMeans(failures, failed, shard.replicas, errors);
      r := ReplicationResult(if shard.nodeId != "" then shard.nodeId else shard.id, attempted, acknowledged, failed, failures,
                             requiredAcks, 1 + |acknowledged| >= requiredAcks, failed != []);
    }

    /** The current health of a shard; it changes nothing. */
    method ReplicationHealth(namespace: string, shard: ShardRef, requiredAcks: int, primaryAvailable: bool) returns (v: HealthView)
      requires Valid()
      ensures Reads(v, faults, history, namespace, shard)
      ensures v.ready <==> primaryAvailable && 1 + v.healthy >= requiredAcks
      ensures v.primary == (if shard.nodeId != "" then shard.nodeId else shard.id) && v.requiredAcks == requiredAcks
    {
      var rows: seq<ReplicaHealth>, healthy, available, degraded := [], 0, 0, false;
      hide Latest, Count;
      for i := 0 to |shard.replicas|
        invariant |rows| == i
        invariant forall j :: 0 <= j < i ==> rows[j] == Row(faults, history, ReplicaKey(namespace, shard.id, shard.replicas[j]))
        invariant healthy == HealthyAmong(rows) && available == AvailableAmong(rows)
        invariant degraded <==> exists j :: 0 <= j < i && !(rows[j].healthy && rows[j].available)
      {
        var key := ReplicaKey(namespace, shard.id, shard.replicas[i]);
        assert Recorded(health, history, key);
        var row :=
          if key in health then health[key].(available := key.node !in faults)
          else ReplicaHealth(key.node, true, key.node !in faults, None, 0, 0);
        assert (rows + [row])[..i] == rows;
        rows := rows + [row];
        healthy := healthy + (if row.healthy then 1 else 0);
        available := available + (if row.available then 1 else 0);
        degraded := degraded || !row.healthy || !row.available;
        assert rows[i] == row;
      }
      v := HealthView(if shard.nodeId != "" then shard.nodeId else shard.id, |rows|, healthy, available, requiredAcks,
                      primaryAvailable && 1 + healthy >= requiredAcks, degraded, rows);
    }
  }

  ghost predicate Recorded(health: map<ReplicaKey, ReplicaHealth>, history: seq<Delivery>, key: ReplicaKey) {
    if key !in health then
      Latest(history, key) == None && Count(history, key, false) == 0 && Count(history, key, true) == 0
    else
      && Latest(history, key).Some?
      && health[key].replicaId == key.node
      && health[key].healthy == Healthy(history, key)
      && health[key].lastError == Latest(history, key).value.error
      && health[key].successes == Count(history, key, false)
      && health[key].failures == Count(history, key, true)
  }

  lemma NoneOfNone()
    ensures Those([], [], false) == [] && Those([], [], true) == []
  {
  }

  // ----- health agrees with delivery -----

  lemma {:induction false} LatestAfter(history: seq<Delivery>, made: seq<Delivery>, key: ReplicaKey)
    ensures Latest(history + made, key) == if Latest(made, key).Some? then Latest(made, key) else Latest(history, key)
  {
    if made == [] {
      assert history + made == history;
    } else {
      var n := |made| - 1;
      assert history + made == (history + made[..n]) + [made[n]];
      HistoryAppend(history + made[..n], made[n], key);
      LatestAfter(history, made[..n], key);
    }
  }

  /** Among deliveries to distinct replicas, the only one to a replica is its latest. */
  lemma {:induction false} LatestOfDistinct(namespace: string, shard: string, nodes: seq<string>, errors: seq<Option<string>>, i: nat)
    requires |errors| == |nodes| && i < |nodes|
    requires forall j :: i < j < |nodes| ==> nodes[j] != nodes[i]
    ensures Latest(Deliveries(namespace, shard, nodes, errors), ReplicaKey(namespace, shard, nodes[i]))
         == Some(Delivery(ReplicaKey(namespace, shard, nodes[i]), errors[i]))
  {
    var n := |nodes| - 1;
    var all := Deliveries(namespace, shard, nodes, errors);
    assert all[..n] == Deliveries(namespace, shard, nodes[..n], errors[..n]);
    if i < n {
      LatestOfDistinct(namespace, shard, nodes[..n], errors[..n], i);
    }
  }

  /** What the view says of each replica right after a delivery to distinct replicas. */
  lemma RowAfterDelivery(faults: set<string>, history: seq<Delivery>, namespace: string, shard: ShardRef,
                         answers: seq<Option<string>>, i: nat)
    requires |answers| == |shard.replicas| && i < |shard.replicas|
    requires forall j :: i < j < |shard.replicas| ==> shard.replicas[j] != shard.replicas[i]
    ensures var errors := Outcomes(faults, shard.replicas, answers);
      var row := Row(faults, history + Deliveries(namespace, shard.id, shard.replicas, errors),
                     ReplicaKey(namespace, shard.id, shard.replicas[i]));
      && row.healthy == errors[i].None?
      && (row.healthy ==> row.available)
  {
    var errors := Outcomes(faults, shard.replicas, answers);
    var made := Deliveries(namespace, shard.id, shard.replicas, errors);
    LatestOfDistinct(namespace, shard.id, shard.replicas, errors, i);
    LatestAfter(history, made, ReplicaKey(namespace, shard.id, shard.replicas[i]));
    hide Latest, Count;
  }

  /** A view that shows each delivery's own outcome counts what the result counts. */
  lemma {:induction false} CountsAgree(rows: seq<ReplicaHealth>, nodes: seq<string>, errors: seq<Option<string>>)
    requires |rows| == |nodes| == |errors|
    requires forall i :: 0 <= i < |rows| ==> rows[i].healthy == errors[i].None?
    ensures HealthyAmong(rows) == |Those(nodes, errors, false)|
    ensures Those(nodes, errors, true) == [] <==> forall i :: 0 <= i < |rows| ==> rows[i].healthy
  {
    if rows != [] {
      var n := |rows| - 1;
      CountsAgree(rows[..n], nodes[..n], errors[..n]);
      assert forall i :: 0 <= i < n ==> rows[..n][i] == rows[i];
    }
  }

  /** The result of a delivery and the view read right after it say the same. */
  ghost predicate Agrees(faults: set<string>, history: seq<Delivery>, namespace: string, shard: ShardRef,
                         answers: seq<Option<string>>, requiredAcks: int, v: HealthView)
    requires |answers| == |shard.replicas|
  {
    var errors := Outcomes(faults, shard.replicas, answers);
    && (1 + v.healthy >= requiredAcks <==> 1 + |Those(shard.replicas, errors, false)| >= requiredAcks)
    && (v.degraded <==> Those(shard.replicas, errors, true) != [])
  }

  /** Health agrees with delivery: for distinct replicas, right after a delivery the shard is ready
      exactly when the result succeeded, and degraded exactly when some replica failed. */
  lemma HealthAgreesWithDelivery(faults: set<string>, history: seq<Delivery>, namespace: string, shard: ShardRef,
                                 answers: seq<Option<string>>, requiredAcks: int, v: HealthView)
    requires |answers| == |shard.replicas| && Distinct(shard.replicas)
    requires Reads(v, faults, history + Deliveries(namespace, shard.id, shard.replicas, Outcomes(faults, shard.replicas, answers)),
                   namespace, shard)
    ensures Agrees(faults, history, namespace, shard, answers, requiredAcks, v)
  {
    var errors := Outcomes(faults, shard.replicas, answers);
    hide Row, Outcomes;
    forall i | 0 <= i < |shard.replicas|
      ensures v.replicas[i].healthy == errors[i].None? && (v.replicas[i].healthy ==> v.replicas[i].available)
    {
      RowAfterDelivery(faults, history, namespace, shard, answers, i);
    }
    CountsAgree(v.replicas, shard.replicas, errors);
  }

  /** The history right after a delivery of these outcomes, nothing being faulted. */
  ghost function Delivered(history: seq<Delivery>, namespace: string, shard: ShardRef, answers: seq<Option<string>>): seq<Delivery>
    requires |answers| == |shard.replicas|
  {
    history + Deliveries(namespace, shard.id, shard.replicas, Outcomes({}, shard.replicas, answers))
  }

  ghost predicate Distinct(nodes: seq<string>) {
    forall i, j :: 0 <= i < j < |nodes| ==> nodes[i] != nodes[j]
  }

  lemma {:induction false} LastOccurrence(nodes: seq<string>, i: nat) returns (l: nat)
    requires i < |nodes|
    ensures i <= l < |nodes| && nodes[l] == nodes[i]
    ensures forall j :: l < j < |nodes| ==> nodes[j] != nodes[i]
    decreases |nodes| - i
  {
    if j :| i < j < |nodes| && nodes[j] == nodes[i] {
      l := LastOccurrence(nodes, j);
    } else {
      l := i;
    }
  }

  lemma {:induction false} FailureListed(nodes: seq<string>, errors: seq<Option<string>>, i: nat)
    requires |errors| == |nodes| && i < |nodes| && errors[i].Some?
    ensures Those(nodes, errors, true) != []
  {
    if i < |nodes| - 1 {
      FailureListed(nodes[..|nodes| - 1], errors[..|nodes| - 1], i);
    }
  }

  /** A replica listed twice: when only its first delivery fails, the result is degraded while
      the view is not. */
  lemma RepeatedReplicaHidesFailure(history: seq<Delivery>, namespace: string, shard: ShardRef, i: nat, j: nat, v: HealthView)
    requires i < j < |shard.replicas| && shard.replicas[i] == shard.replicas[j]
    requires var answers := FailsAt(i, |shard.replicas|);
      Reads(v, {}, Delivered(history, namespace, shard, answers), namespace, shard)
    ensures !Agrees({}, history, namespace, shard, FailsAt(i, |shard.replicas|), 1, v)
  {
    var answers := FailsAt(i, |shard.replicas|);
    var errors := Outcomes({}, shard.replicas, answers);
    FailureListed(shard.replicas, errors, i);
    hide Row, Those;
    forall k | 0 <= k < |shard.replicas| ensures v.replicas[k].healthy && v.replicas[k].available {
      var l := LastOccurrence(shard.replicas, k);
      assert l != i;
      RowAfterDelivery({}, history, namespace, shard, answers, l);
    }
  }

  ghost function FailsAt(i: nat, n: nat): seq<Option<string>> {
    seq(n, k => if k == i then Some("error") else None)
  }

  lemma ViewExists(faults: set<string>, history: seq<Delivery>, namespace: string, shard: ShardRef) returns (v: HealthView)
    ensures Reads(v, faults, history, namespace, shard)
  {
    var rows := seq(|shard.replicas|, k requires 0 <= k < |shard.replicas| =>
      Row(faults, history, ReplicaKey(namespace, shard.id, shard.replicas[k])));
    v := HealthView("", |rows|, HealthyAmong(rows), AvailableAmong(rows), 0, false,
                    exists i :: 0 <= i < |rows| && !(rows[i].healthy && rows[i].available), rows);
  }

  /** The view agrees with every delivery, whatever its outcomes, exactly for distinct replicas. */
  lemma HealthAgreesIff(history: seq<Delivery>, namespace: string, shard: ShardRef)
    ensures Distinct(shard.replicas) <==>
      forall answers, requiredAcks, v |
        && |answers| == |shard.replicas|
        && Reads(v, {}, Delivered(history, namespace, shard, answers), namespace, shard) ::
        Agrees({}, history, namespace, shard, answers, requiredAcks, v)
  {
    hide Reads, Agrees;
    if Distinct(shard.replicas) {
      forall answers, requiredAcks, v |
        && |answers| == |shard.replicas|
        && Reads(v, {}, Delivered(history, namespace, shard, answers), namespace, shard)
        ensures Agrees({}, history, namespace, shard, answers, requiredAcks, v)
      {
        HealthAgreesWithDelivery({}, history, namespace, shard, answers, requiredAcks, v);
      }
    } else {
      var i, j :| 0 <= i < j < |shard.replicas| && shard.replicas[i] == shard.replicas[j];
      var answers := FailsAt(i, |shard.replicas|);
      var v := ViewExists({}, Delivered(history, namespace, shard, answers), namespace, shard);
      RepeatedReplicaHidesFailure(history, namespace, shard, i, j, v);
    }
  }

  // ----- one summary of a request -----

  datatype Summary = Summary(success: bool, degraded: bool, attempted: nat, acknowledged: nat, requiredAcks: int, failed: seq<string>)

  /** The results of a request's records, merged. */
  method AggregateReplication(results: seq<ReplicationResult>, requiredAcks: int) returns (s: Summary)
    ensures s.success <==> results != [] && forall r :: r in results ==> r.success
    ensures s.degraded <==> exists r :: r in results && (r.degraded || !r.success)
    ensures s.attempted == |set r, n | r in results && n in r.attempted :: n|
    ensures s.acknowledged == |set r, n | r in results && n in r.acknowledged :: n|
    ensures AscendingBy(Self, s.failed)
    ensures forall n :: n in s.failed <==> exists r :: r in results && n in r.failed
  {
    var attempted := set r, n | r in results && n in r.attempted :: n;
    var acknowledged := set r, n | r in results && n in r.acknowledged :: n;
    var failed := SortedSet(set r, n | r in results && n in r.failed :: n);
    s := Summary(results != [] && forall r :: r in results ==> r.success,
                 exists r :: r in results && (r.degraded || !r.success),
                 |attempted|, |acknowledged|, requiredAcks, failed);
  }
}
