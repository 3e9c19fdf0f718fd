/** Routing: the cached selection, the write gate and the decision layer. */
module Router {
  import opened Wrappers
  import opened HashRing
  import opened ControlObjects
  import P = Protocol

  datatype RouteError =
    | NoShards | NoNodes | NotWritable(state: P.ShardState) | NotReadable(state: P.ShardState)
    | NoOwner | UnknownNode | RemovedNode | OwnershipMismatch(owner: string)

  type Members = Option<map<string, P.NodeRec>>

  /** `validate_node`, when a membership is wired in. */
  function MemberProblem(members: Members, node: string): Option<RouteError> {
    if members.None? then None
    else if node !in members.value then Some(UnknownNode)
    else if members.value[node].state == P.Removed then Some(RemovedNode)
    else None
  }

  predicate Readable(s: P.ShardState) {
    s == P.Active || s == P.Draining
  }

  function OwnerProblem(s: P.ShardRec, members: Members): Option<RouteError> {
    if s.nodeId == "" then Some(NoOwner) else MemberProblem(members, s.nodeId)
  }

  /** Why a write of this caller to this shard is refused. */
  function WriteRefusal(s: P.ShardRec, members: Members, caller: Option<string>): Option<RouteError> {
    if s.state != P.Active then Some(NotWritable(s.state))
    else if OwnerProblem(s, members).Some? then OwnerProblem(s, members)
    else if caller.Some? && s.nodeId != caller.value then Some(OwnershipMismatch(s.nodeId))
    else None
  }

  datatype Mode = Any | Read | Write

  datatype RouteType = Local | Remote | Unavailable

  datatype RoutingDecision = RoutingDecision(
    namespace: string, shardId: string, owner: Option<string>, local: Option<string>, routeType: RouteType,
    ownerState: Option<P.NodeState>, reason: Option<RouteError>)

  /** `_decision_for`: the reasons in the order they are looked for. */
  function DecisionFor(s: P.ShardRec, members: Members, local: Option<string>, mode: Mode): RoutingDecision {
    var owner := if s.nodeId == "" then None else Some(s.nodeId);
    var byState :=
      if mode == Read && !Readable(s.state) then Some(NotReadable(s.state))
      else if mode == Write && s.state != P.Active then Some(NotWritable(s.state))
      else None;
    var reason :=
      if byState.Some? then byState
      else if owner == None then Some(NoOwner)
      else MemberProblem(members, owner.value);
    var ownerState :=
      if byState.Some? || owner == None || members.None? || owner.value !in members.value then None
      else Some(members.value[owner.value].state);
    var kind := if reason.Some? then Unavailable else if local.Some? && owner == local then Local else Remote;
    RoutingDecision(s.namespace, s.id, owner, local, kind, ownerState, reason)
  }

  /** The decision layer says of a write what the gate does: LOCAL exactly when the gate admits the
      local node, REMOTE exactly when the one thing wrong is that another node owns the shard, and
      UNAVAILABLE, with the gate's own reason, otherwise. */
  lemma DecisionAgreesWithGate(s: P.ShardRec, members: Members, local: string)
    ensures var d, refusal := DecisionFor(s, members, Some(local), Write), WriteRefusal(s, members, Some(local));
      && (d.routeType == Local <==> refusal == None)
      && (d.routeType == Remote <==> refusal.Some? && refusal.value.OwnershipMismatch?)
      && (d.routeType == Unavailable ==> d.reason == refusal)
      && (d.routeType != Unavailable ==> d.reason == None)
  {
  }

  /** The gates are the ones the migration theorems take for granted: `route_write` for upserts, and
      `writable`, which does not look at the membership, for deletes. */
  lemma GateIsWriteAdmitted(w: P.World, id: string, node: string)
    requires id in w.shards
    ensures WriteRefusal(w.shards[id], Some(w.nodes), Some(node)) == None <==> P.WriteAdmitted(w, node, id)
    ensures WriteRefusal(w.shards[id], None, Some(node)) == None <==> P.DeleteAdmitted(w, node, id)
  {
  }

  /** Every reason a write is refused for, in the order in which they are looked for, and no other. */
  lemma RefusalReasons(s: P.ShardRec, members: Members, caller: Option<string>)
    ensures var r := WriteRefusal(s, members, caller);
      var member := s.nodeId != "" && (members.None? || (s.nodeId in members.value && members.value[s.nodeId].state != P.Removed));
      && (r == Some(NotWritable(s.state)) <==> s.state != P.Active)
      && (r == Some(NoOwner) <==> s.state == P.Active && s.nodeId == "")
      && (r == Some(UnknownNode) <==> s.state == P.Active && s.nodeId != "" && members.Some? && s.nodeId !in members.value)
      && (r == Some(RemovedNode) <==>
            s.state == P.Active && s.nodeId != "" && members.Some? && s.nodeId in members.value && members.value[s.nodeId].state == P.Removed)
      && (r == Some(OwnershipMismatch(s.nodeId)) <==> s.state == P.Active && member && caller.Some? && caller.value != s.nodeId)
      && (r == None <==> s.state == P.Active && member && (caller.Some? ==> caller.value == s.nodeId))
  {
  }

  /** A decision is to the owner, LOCAL or REMOTE, exactly when the state serves the mode and the owner is a member
      that was not removed; else it gives the first reason. A read asks for ACTIVE or DRAINING, a write for ACTIVE. */
  lemma DecisionReasons(s: P.ShardRec, members: Members, local: Option<string>, mode: Mode)
    ensures var d := DecisionFor(s, members, local, mode);
      var known := members.None? || s.nodeId in members.value;
      var removed := members.Some? && s.nodeId in members.value && members.value[s.nodeId].state == P.Removed;
      var served := match mode
        case Any => true
        case Read => s.state != P.Creating && s.state != P.Offline && s.state != P.Splitting && s.state != P.Retired
        case Write => s.state != P.Creating && s.state != P.Draining && s.state != P.Offline && s.state != P.Splitting && s.state != P.Retired;
      && d.namespace == s.namespace && d.shardId == s.id && d.local == local
      && d.owner == (if s.nodeId == "" then None else Some(s.nodeId))
      && (d.reason == Some(NotReadable(s.state)) <==> mode == Read && !served)
      && (d.reason == Some(NotWritable(s.state)) <==> mode == Write && !served)
      && (d.reason == Some(NoOwner) <==> served && s.nodeId == "")
      && (d.reason == Some(UnknownNode) <==> served && s.nodeId != "" && !known)
      && (d.reason == Some(RemovedNode) <==> served && s.nodeId != "" && removed)
      && (d.routeType == Unavailable <==> !served || s.nodeId == "" || !known || removed)
      && (d.routeType == Local <==> d.routeType != Unavailable && local == Some(s.nodeId))
      && (d.ownerState == if served && s.nodeId != "" && members.Some? && known then Some(members.value[s.nodeId].state) else None)
  {
  }

  /** Queries reach every shard that is alive for the protocol: one that takes a write or a delete, and one whose
      migration would be let through, before and behind the copy. */
  lemma LivingShardsAreQueried(router: ShardRouter, namespace: string, out: seq<Shard>, s: Shard, w: P.World, node: string, m: P.MigrationRec)
    requires namespace in router.cache && s in router.cache[namespace] && s.id in w.shards && w.shards[s.id] == s.View()
    requires forall x :: x in out <==> x in router.cache[namespace] && (x.state == P.Active || x.state == P.Draining)
    ensures P.WriteAdmitted(w, node, s.id) || P.DeleteAdmitted(w, node, s.id) ==> s in out
    ensures m.shardId == s.id && P.SourceProblem(w, m) == None ==> s in out
  {
    hide P.MemberError;
  }

  // ----- which shard a record belongs to -----

  /** The id that outscores every other of the set. */
  ghost predicate Wins(hash: Hash, key: string, ids: set<string>, id: string) {
    id in ids && forall n :: n in ids && n != id ==> Score(hash, key, n) < Score(hash, key, id)
  }

  /** One id has the greatest score alone. */
  ghost predicate HasWinner(hash: Hash, key: string, ids: set<string>) {
    exists id :: Wins(hash, key, ids, id)
  }

  lemma ChoiceWins(hash: Hash, key: string, nodes: seq<string>, ids: set<string>, id: string)
    requires IsChoice(hash, key, nodes, id) && SetOf(nodes) == ids && HasWinner(hash, key, ids)
    ensures Wins(hash, key, ids, id)
  {
    ChoiceIsTop(hash, key, nodes, id);
    var top :| Wins(hash, key, ids, top);
    assert top in nodes && id in ids;
  }

  lemma DistinctHasWinner(hash: Hash, key: string, nodes: seq<string>)
    requires nodes != [] && DistinctScores(hash, key, nodes)
    ensures HasWinner(hash, key, SetOf(nodes))
  {
    assert nodes[0] in SetOf(nodes);
    var top := TopOf(hash, key, SetOf(nodes));
    assert Wins(hash, key, SetOf(nodes), top);
  }

  lemma {:induction false} TopOf(hash: Hash, key: string, ids: set<string>) returns (top: string)
    requires ids != {}
    ensures top in ids && forall n :: n in ids ==> Score(hash, key, n) <= Score(hash, key, top)
    decreases |ids|
  {
    var id :| id in ids;
    var rest := ids - {id};
    if rest == {} {
      top := id;
      assert forall n :: n in ids ==> n == id || n in rest;
    } else {
      top := TopOf(hash, key, rest);
      if Score(hash, key, top) < Score(hash, key, id) {
        top := id;
      }
      assert forall n :: n in ids ==> n == id || n in rest;
    }
  }

  lemma {:induction false} Listed(ids: set<string>) returns (nodes: seq<string>)
    ensures SetOf(nodes) == ids
    decreases |ids|
  {
    if ids == {} {
      nodes := [];
    } else {
      var id :| id in ids;
      nodes := Listed(ids - {id});
      assert forall n :: n in [id] + nodes <==> n == id || n in SetOf(nodes);
      nodes := [id] + nodes;
    }
  }

  lemma TopFirst(hash: Hash, key: string, ids: set<string>, top: string) returns (nodes: seq<string>)
    requires top in ids && forall n :: n in ids ==> Score(hash, key, n) <= Score(hash, key, top)
    ensures SetOf(nodes) == ids && IsChoice(hash, key, nodes, top)
  {
    var rest := Listed(ids);
    nodes := [top] + rest;
    assert forall n :: n in nodes <==> n == top || n in SetOf(rest);
    forall j | 0 <= j < |nodes| ensures Score(hash, key, nodes[j]) <= Score(hash, key, nodes[0]) {
      assert nodes[j] in nodes;
    }
    assert ChosenAt(hash, key, nodes, 0);
  }

  /** Two lists of the same shards, in whatever order, always give the same choice. */
  ghost predicate OrderFree(hash: Hash, key: string, ids: set<string>) {
    forall nodes, nodes', a, b ::
      SetOf(nodes) == ids == SetOf(nodes') && IsChoice(hash, key, nodes, a) && IsChoice(hash, key, nodes', b) ==> a == b
  }

  /** The selection is independent of the order the store lists its shards in, if and only if one
      shard has the greatest score alone. */
  lemma OrderFreeIff(hash: Hash, key: string, ids: set<string>)
    requires ids != {}
    ensures OrderFree(hash, key, ids) <==> HasWinner(hash, key, ids)
  {
    hide IsChoice, Score;
    if HasWinner(hash, key, ids) {
      forall nodes, nodes', a, b
        | SetOf(nodes) == ids == SetOf(nodes') && IsChoice(hash, key, nodes, a) && IsChoice(hash, key, nodes', b)
        ensures a == b
      {
        ChoiceWins(hash, key, nodes, ids, a);
        ChoiceWins(hash, key, nodes', ids, b);
      }
    } else {
      var a := TopOf(hash, key, ids);
      assert !Wins(hash, key, ids, a);
      var b :| b in ids && b != a && Score(hash, key, b) >= Score(hash, key, a);
      var nodes := TopFirst(hash, key, ids, a);
      var nodes' := TopFirst(hash, key, ids, b);
    }
  }

  /** A node that a router listing these shards admits as writer of a record. */
  ghost predicate AdmittedOver(hash: Hash, key: string, w: P.World, ids: set<string>, node: string) {
    exists id :: Wins(hash, key, ids, id) && P.WriteAdmitted(w, node, id)
  }

  /** A router that still lists the shards from before one was added admits another writer than an
      up-to-date one, exactly for the records that the new shard takes over. */
  lemma StaleListAdmitsTwoIff(hash: Hash, key: string, w: P.World, ids: set<string>, id: string, added: string, a: string, b: string)
    requires Wins(hash, key, ids, id) && added !in ids && Score(hash, key, added) != Score(hash, key, id)
    requires P.WriteAdmitted(w, a, id) && P.WriteAdmitted(w, b, added) && a != b
    ensures AdmittedOver(hash, key, w, ids, a)
    ensures AdmittedOver(hash, key, w, ids + {added}, b) <==> Score(hash, key, id) < Score(hash, key, added)
  {
    hide P.WriteAdmitted, Score;
    assert Wins(hash, key, ids, id);
    if Score(hash, key, id) < Score(hash, key, added) {
      assert Wins(hash, key, ids + {added}, added);
    } else {
      OnlyWinner(hash, key, ids + {added}, id);
      OneOwner(w, id, a, b);
    }
  }

  lemma OnlyWinner(hash: Hash, key: string, ids: set<string>, id: string)
    requires id in ids && forall n :: n in ids && n != id ==> Score(hash, key, n) < Score(hash, key, id)
    ensures forall other :: Wins(hash, key, ids, other) ==> other == id
  {
  }

  lemma OneOwner(w: P.World, id: string, a: string, b: string)
    requires P.WriteAdmitted(w, a, id)
    ensures P.WriteAdmitted(w, b, id) ==> a == b
  {
  }

  /** The ids of the shards that have one. */
  function Ids(shards: seq<Shard>): seq<string> {
    if shards == [] then []
    else (if shards[0].id != "" then [shards[0].id] else []) + Ids(shards[1..])
  }

  ghost predicate DistinctShards(shards: seq<Shard>) {
    forall i, j :: 0 <= i < j < |shards| ==> shards[i].id != shards[j].id
  }

  lemma {:induction false} IdsMembers(shards: seq<Shard>, id: string)
    ensures id in Ids(shards) <==> id != "" && exists i :: 0 <= i < |shards| && shards[i].id == id
  {
    if shards != [] {
      IdsMembers(shards[1..], id);
      assert shards[0] == shards[0] && forall i :: 0 <= i < |shards[1..]| ==> shards[1..][i] == shards[i + 1];
    }
  }

  ghost function IdSet(shards: seq<Shard>): set<string> {
    SetOf(Ids(shards))
  }

  /** `list_by_namespace`, in the order the store happens to list. */
  method ListByNamespace(store: InMemoryEtcd, namespace: string) returns (shards: seq<Shard>)
    requires store.Valid()
    ensures DistinctShards(shards)
    ensures forall s :: s in shards <==> s.id in store.data && store.data[s.id] == s && s.namespace == namespace
  {
    shards := [];
    var rest := store.data.Keys;
    while rest != {}
      invariant rest <= store.data.Keys
      invariant DistinctShards(shards)
      invariant forall s :: s in shards <==> s.id in store.data.Keys - rest && store.data[s.id] == s && s.namespace == namespace
      decreases |rest|
    {
      var id :| id in rest;
      var s := store.data[id];
      if s.namespace == namespace {
        forall i | 0 <= i < |shards| ensures shards[i].id != id {
          assert shards[i] in shards;
        }
        shards := shards + [s];
      }
      rest := rest - {id};
    }
  }

  class ShardRouter {
    const store: InMemoryEtcd
    const wired: bool
    const hash: Hash
    const shardKey: (string, string) -> string
    var cache: map<string, seq<Shard>>
    var hrwCache: map<string, seq<string>>

    constructor (store: InMemoryEtcd, wired: bool, hash: Hash, shardKey: (string, string) -> string)
      ensures Valid() && cache == map[] && hrwCache == map[]
      ensures this.store == store && this.wired == wired && this.hash == hash && this.shardKey == shardKey
    {
      this.store, this.wired, this.hash, this.shardKey := store, wired, hash, shardKey;
      cache, hrwCache := map[], map[];
    }

    ghost predicate Valid()
      reads this
    {
      forall ns :: ns in cache ==> DistinctShards(cache[ns])
    }

    function Membership(): Members
      reads store
    {
      if wired then Some(store.nodes) else None
    }

    method Invalidate(namespace: string)
      requires Valid()
      modifies this
      ensures Valid() && cache == old(cache) - {namespace} && hrwCache == old(hrwCache) - {namespace}
    {
      cache, hrwCache := cache - {namespace}, hrwCache - {namespace};
    }

    /** The cached list while it lives, else a fresh one. */
    method GetShardsCached(namespace: string, live: bool) returns (shards: seq<Shard>)
      requires Valid() && store.Valid()
      modifies this`cache
      ensures Valid() && cache == old(cache)[namespace := shards]
      ensures live && namespace in old(cache) ==> shards == old(cache)[namespace]
      ensures !(live && namespace in old(cache)) ==>
        forall s :: s in shards <==> s.id in store.data && store.data[s.id] == s && s.namespace == namespace
    {
      if live && namespace in cache {
        return cache[namespace];
      }
      shards := ListByNamespace(store, namespace);
      cache := cache[namespace := shards];
    }

    /** What a selection promises: the choice of the cached HRW, whose nodes are the ids of the
        cached list in some order. */
    ghost predicate Selected(namespace: string, record: string, s: Shard)
      reads this
    {
      && namespace in cache && s in cache[namespace] && s.id != ""
      && namespace in hrwCache && SetOf(hrwCache[namespace]) == IdSet(cache[namespace])
      && IsChoice(hash, shardKey(namespace, record), hrwCache[namespace], s.id)
    }

    method Select(namespace: string, record: string, live: bool) returns (r: Result<Shard, RouteError>)
      requires Valid() && store.Valid()
      modifies this
      ensures Valid() && namespace in cache
      ensures live && namespace in old(cache) ==> cache == old(cache)
      ensures r.Success? ==> Selected(namespace, record, r.value)
      ensures r.Failure? ==> r.error == if cache[namespace] == [] then NoShards else NoNodes
      ensures r.Failure? <==> Ids(cache[namespace]) == []
    {
      var shards := GetShardsCached(namespace, live);
      if shards == [] {
        return Failure(NoShards);
      }
      var ids := Ids(shards);
      var nodes := if namespace in hrwCache then hrwCache[namespace] else ids;
      if SetOf(ids) != SetOf(nodes) {
        nodes := ids;
      }
      SameMembers(ids, nodes);
      hrwCache := hrwCache[namespace := nodes];
      var hrw := new RendezvousHash(hash, nodes);
      var best := hrw.GetNode(shardKey(namespace, record));
      if best == None {
        return Failure(NoNodes);
      }
      ChoiceIsTop(hash, shardKey(namespace, record), nodes, best.value);
      var s := FindShard(shards, best.value);
      r := Success(s);
    }

    /** The gate of `route_write` is open to the caller: the shard was selected, and nothing refuses. */
    ghost predicate Routed(namespace: string, record: string, caller: Option<string>, s: Shard)
      reads this, store, s
    {
      Selected(namespace, record, s) && WriteRefusal(s.View(), if wired then Some(store.nodes) else None, caller) == None
    }

    /** The write gate: the selected shard is ACTIVE, the caller owns it, and where a membership is wired in that
        owner is a member that was not removed; otherwise the error is the first of these that fails. */
    method RouteWrite(namespace: string, record: string, caller: Option<string>, live: bool) returns (r: Result<Shard, RouteError>)
      requires Valid() && store.Valid()
      modifies this
      ensures Valid() && namespace in cache
      ensures r.Success? ==> Routed(namespace, record, caller, r.value)
      ensures r.Success? ==>
        var s := r.value;
        && s.state == P.Active && s.nodeId != "" && (caller.Some? ==> caller.value == s.nodeId)
        && (wired ==> s.nodeId in store.nodes && store.nodes[s.nodeId].state != P.Removed)
      ensures r.Failure? && Ids(cache[namespace]) != [] ==>
        exists s :: s in cache[namespace] && Selected(namespace, record, s)
          && WriteRefusal(s.View(), if wired then Some(store.nodes) else None, caller) == Some(r.error)
      ensures r.Failure? && Ids(cache[namespace]) == [] ==> r.error == if cache[namespace] == [] then NoShards else NoNodes
    {
      r := Select(namespace, record, live);
      if r.Failure? {
        return;
      }
      var s := r.value;
      if s.state != P.Active {
        return Failure(NotWritable(s.state));
      }
      if wired {
        if s.nodeId == "" {
          return Failure(NoOwner);
        }
        var problem := MemberProblem(Membership(), s.nodeId);
        if problem.Some? {
          return Failure(problem.value);
        }
      }
      if s.nodeId == "" {
        return Failure(NoOwner);
      }
      if caller.Some? && s.nodeId != caller.value {
        return Failure(OwnershipMismatch(s.nodeId));
      }
    }

    method RouteWriteDecision(namespace: string, record: string, local: Option<string>, live: bool)
      returns (r: Result<RoutingDecision, RouteError>)
      requires Valid() && store.Valid()
      modifies this
      ensures Valid() && namespace in cache
      ensures r.Success? ==>
        exists s :: s in cache[namespace] && Selected(namespace, record, s)
          && r.value == DecisionFor(s.View(), if wired then Some(store.nodes) else None, local, Write)
      ensures r.Failure? <==> Ids(cache[namespace]) == []
    {
      var selected := Select(namespace, record, live);
      if selected.Failure? {
        return Failure(selected.error);
      }
      var s := selected.value;
      var view := P.ShardRec(s.id, s.namespace, s.nodeId, s.state, s.replicas, s.version);
      assert view == s.View();
      r := Success(DecisionFor(view, Membership(), local, Write));
    }

    /** All the shards of a namespace, if the node may write every one of them. */
    method Writable(namespace: string, caller: Option<string>, live: bool) returns (r: Result<seq<Shard>, RouteError>)
      requires Valid() && store.Valid()
      modifies this`cache
      ensures Valid() && namespace in cache
      ensures r.Success? <==> forall s :: s in cache[namespace] ==> WriteRefusal(s.View(), None, caller) == None
      ensures r.Success? ==> r.value == cache[namespace]
      ensures r.Failure? ==> exists s :: s in cache[namespace] && WriteRefusal(s.View(), None, caller) == Some(r.error)
    {
      var shards := GetShardsCached(namespace, live);
      var out := [];
      for i := 0 to |shards|
        invariant out == shards[..i]
        invariant forall j :: 0 <= j < i ==> WriteRefusal(shards[j].View(), None, caller) == None
      {
        var s := shards[i];
        assert s in shards && OwnerProblem(s.View(), None) == if s.nodeId == "" then Some(NoOwner) else None;
        if s.state != P.Active {
          assert WriteRefusal(s.View(), None, caller) == Some(NotWritable(s.state));
          return Failure(NotWritable(s.state));
        }
        if s.nodeId == "" {
          return Failure(NoOwner);
        }
        if caller.Some? && s.nodeId != caller.value {
          return Failure(OwnershipMismatch(s.nodeId));
        }
        out := out + [s];
      }
      r := Success(out);
    }

    /** The shards a query fans out to: each readable one, once. */
    method RouteForQuery(namespace: string, live: bool) returns (out: seq<Shard>)
      requires Valid() && store.Valid()
      modifies this`cache
      ensures Valid() && namespace in cache && DistinctShards(out)
      ensures forall s :: s in out <==> s in cache[namespace] && (s.state == P.Active || s.state == P.Draining)
    {
      var shards := GetShardsCached(namespace, live);
      out := [];
      assert cache[namespace] == shards && DistinctShards(shards);
      for i := 0 to |shards|
        invariant DistinctShards(out)
        invariant forall s :: s in out <==> s in shards[..i] && Readable(s.state)
      {
        if Readable(shards[i].state) {
          forall j | 0 <= j < |out| ensures out[j].id != shards[i].id {
            assert out[j] in out;
            var k :| 0 <= k < i && shards[k] == out[j];
          }
          out := out + [shards[i]];
        }
      }
    }
  }

  function SetOf(ids: seq<string>): set<string> {
    set id | id in ids
  }

  lemma SameMembers(ids: seq<string>, nodes: seq<string>)
    requires SetOf(ids) == SetOf(nodes)
    ensures forall n :: n in nodes <==> n in ids
    ensures ids == [] <==> nodes == []
  {
    forall n ensures n in nodes <==> n in ids {
      assert n in SetOf(nodes) <==> n in SetOf(ids);
    }
    assert ids != [] ==> ids[0] in nodes;
    assert nodes != [] ==> nodes[0] in ids;
  }

  /** Two routers that cached the same shards, in any order and at any time, select the same one, if one
      of them has the greatest score alone. */
  lemma SelectionsAgree(first: ShardRouter, second: ShardRouter, namespace: string, record: string, s: Shard, s': Shard)
    requires second.hash == first.hash && second.shardKey == first.shardKey
    requires first.Selected(namespace, record, s) && second.Selected(namespace, record, s')
    requires IdSet(first.cache[namespace]) == IdSet(second.cache[namespace])
    requires HasWinner(first.hash, first.shardKey(namespace, record), IdSet(first.cache[namespace]))
    ensures s.id == s'.id
  {
    var key, ids := first.shardKey(namespace, record), IdSet(first.cache[namespace]);
    ChoiceWins(first.hash, key, first.hrwCache[namespace], ids, s.id);
    ChoiceWins(first.hash, key, second.hrwCache[namespace], ids, s'.id);
  }

  /** Single writer: two nodes whose gates are open for one record are the same node, if their routers
      cached the same shards, objects of one store, and one of those has the greatest score alone. */
  lemma SingleWriter(first: ShardRouter, second: ShardRouter, namespace: string, record: string, s: Shard, s': Shard,
                     a: string, b: string)
    requires second.store == first.store && second.hash == first.hash && second.shardKey == first.shardKey
    requires first.Routed(namespace, record, Some(a), s) && second.Routed(namespace, record, Some(b), s')
    requires forall x, y :: x in first.cache[namespace] && y in second.cache[namespace] && x.id == y.id ==> x == y
    requires IdSet(first.cache[namespace]) == IdSet(second.cache[namespace])
    requires HasWinner(first.hash, first.shardKey(namespace, record), IdSet(first.cache[namespace]))
    ensures a == b
  {
    SelectionsAgree(first, second, namespace, record, s, s');
  }

  /** On a tie at the top the gates of two nodes can be open at once: for two ACTIVE shards with the
      same score, two routers that were given them in opposite orders each admit another owner. */
  lemma TieAdmitsTwo(first: ShardRouter, second: ShardRouter, namespace: string, record: string, x: Shard, y: Shard)
    requires second.store == first.store && second.wired == first.wired && second.hash == first.hash && second.shardKey == first.shardKey
    requires x.id != "" && y.id != "" && x.id != y.id
    requires Score(first.hash, first.shardKey(namespace, record), x.id) == Score(first.hash, first.shardKey(namespace, record), y.id)
    requires namespace in first.cache && first.cache[namespace] == [x, y]
    requires namespace in first.hrwCache && first.hrwCache[namespace] == [x.id, y.id]
    requires namespace in second.cache && second.cache[namespace] == [y, x]
    requires namespace in second.hrwCache && second.hrwCache[namespace] == [y.id, x.id]
    requires WriteRefusal(x.View(), first.Membership(), None) == None && WriteRefusal(y.View(), first.Membership(), None) == None
    ensures IdSet(first.cache[namespace]) == IdSet(second.cache[namespace])
    ensures first.Routed(namespace, record, Some(x.nodeId), x) && second.Routed(namespace, record, Some(y.nodeId), y)
  {
    var key := first.shardKey(namespace, record);
    TwoIds(x, y);
    TwoIds(y, x);
    assert ChosenAt(first.hash, key, [x.id, y.id], 0) && ChosenAt(first.hash, key, [y.id, x.id], 0);
  }

  lemma TwoIds(x: Shard, y: Shard)
    requires x.id != "" && y.id != ""
    ensures Ids([x, y]) == [x.id, y.id] && IdSet([x, y]) == {x.id, y.id} == SetOf([x.id, y.id])
  {
    assert [x, y][1..] == [y] && [y][1..] == [];
    assert Ids([y]) == [y.id];
  }

  /** The shard that has the id; the first with any id if none does. */
  method FindShard(shards: seq<Shard>, id: string) returns (s: Shard)
    requires id in Ids(shards)
    ensures s in shards && s.id == id && id != ""
  {
    IdsMembers(shards, id);
    var i := 0;
    while shards[i].id != id
      invariant 0 <= i < |shards|
      invariant forall j :: 0 <= j < i ==> shards[j].id != id
      decreases |shards| - i
    {
      i := i + 1;
    }
    s := shards[i];
  }
}
