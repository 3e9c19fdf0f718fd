/** Shard lifecycle and cluster membership over the shared store. */
module LifecycleManagers {
  import opened Wrappers
  import opened Transfer
  import opened ControlObjects
  import F = Persistence
  import P = Protocol

  /** The store's part of the world; storage roots play no role here. */
  ghost function WorldOf(store: InMemoryEtcd): P.World
    reads store`data, store`migrations, store`nodes, store.data.Values, store.migrations.Values
  {
    P.World(store.Shards(), store.Migs(), store.nodes, map[])
  }

  class ShardLifecycleManager {
    const store: InMemoryEtcd

    constructor (store: InMemoryEtcd)
      ensures this.store == store
    {
      this.store := store;
    }

    /** Is it the store's own object, so that a change to it is a change to the store? */
    ghost predicate Holds(shard: Shard)
      reads store`data
    {
      shard.id in store.data && store.data[shard.id] == shard
    }

    /** An object outside the store changed; the store did not. */
    twostate lemma StoreUntouched(shard: Shard)
      requires old(store.Valid()) && store.data == old(store.data) && store.migrations == old(store.migrations)
      requires store.nodes == old(store.nodes)
      requires forall i :: i in store.data ==> unchanged(store.data[i])
      requires forall i :: i in store.migrations ==> unchanged(store.migrations[i])
      ensures WorldOf(store) == old(WorldOf(store))
    {
      assert store.Shards() == old(store.Shards());
      assert store.Migs() == old(store.Migs());
    }

    /** The object was put, over whatever was held under its id, or was held all along. */
    twostate lemma ShardPut(shard: Shard)
      requires old(store.Valid()) && store.migrations == old(store.migrations)
      requires store.data == old(store.data)[shard.id := shard] && store.nodes == old(store.nodes)
      requires forall i :: i in old(store.data) && old(store.data)[i] != shard ==> unchanged(old(store.data)[i])
      requires forall i :: i in store.migrations ==> unchanged(store.migrations[i])
      ensures WorldOf(store) == P.WithShard(old(WorldOf(store)), shard.View())
    {
      assert store.Shards() == old(store.Shards())[shard.id := shard.View()];
      assert store.Migs() == old(store.Migs());
    }

    /** The shard as its creator asked for it. */
    ghost function Asked(s: P.ShardRec, owner: Option<string>, replicas: Option<seq<string>>): P.ShardRec {
      s.(nodeId := if owner.Some? then owner.value else s.nodeId, replicas := if replicas.Some? then replicas.value else s.replicas)
    }

    /** Why a new shard is refused. */
    ghost function Refusal(w: P.World, s: P.ShardRec): Option<P.Error> {
      if s.nodeId == "" then Some(P.NoOwner)
      else if s.nodeId in s.replicas then Some(P.OwnershipConflict)
      else P.MemberError(w, s.nodeId)
    }

    lemma AcceptedIff(w: P.World, s: P.ShardRec)
      ensures Refusal(w, s) == None <==>
        s.nodeId != "" && s.nodeId !in s.replicas && s.nodeId in w.nodes && w.nodes[s.nodeId].state != P.Removed
    {
    }

    /** The owner and replicas asked for are set, checked, and the state is CREATING from here on. */
    method Admit(shard: Shard, owner: Option<string>, replicas: Option<seq<string>>) returns (error: Option<P.Error>)
      requires store.Valid()
      modifies shard
      ensures var asked := Asked(old(shard.View()), owner, replicas);
        && error == Refusal(old(WorldOf(store)), asked)
        && shard.View() == if error == None then asked.(state := P.Creating) else asked
    {
      hide InMemoryEtcd.Shards, InMemoryEtcd.Migs;
      if owner.Some? {
        shard.nodeId := owner.value;
      }
      if replicas.Some? {
        shard.replicas := replicas.value;
      }
      error := shard.ValidateOwnership();
      if error.Some? {
        return;
      }
      error := ValidateNode(shard.nodeId);
      if error == None {
        shard.state := P.Creating;
      }
    }

    /** Registers a shard in CREATING under an explicit owner. A refusal leaves the object as it was asked
        for, and a put that raises leaves it in CREATING. The store follows its own object at once, and
        takes another one in, over what it held under the id, only if nothing raised. The file then no
        longer says what the store holds exactly when a refusal changed the store's own object. */
    method Create(shard: Shard, owner: Option<string>, replicas: Option<seq<string>>, putOk: bool) returns (r: P.Outcome)
      requires store.Valid()
      modifies shard, store`data, store`file, store`writes
      ensures store.Valid()
      ensures var asked := Asked(old(shard.View()), owner, replicas);
        var refusal := Refusal(old(WorldOf(store)), asked);
        && r == (if refusal.Some? then P.Raised(refusal.value) else P.After(putOk, P.Done))
        && shard.View() == if refusal.Some? then asked else asked.(state := P.Creating)
      ensures shard.nodeId == (if owner.Some? then owner.value else old(shard.nodeId))
      ensures shard.replicas == (if replicas.Some? then replicas.value else old(shard.replicas)) && shard.version == old(shard.version)
      ensures r == P.Done <==>
        && shard.nodeId != "" && shard.nodeId !in shard.replicas && putOk
        && shard.nodeId in store.nodes && store.nodes[shard.nodeId].state != P.Removed
      ensures r == P.Done ==> shard.state == P.Creating
      ensures store.data == if r == P.Done then old(store.data)[shard.id := shard] else old(store.data)
      ensures if old(Holds(shard))
        then WorldOf(store) == P.WithShard(old(WorldOf(store)), shard.View())
        else P.Answer(WorldOf(store), r) == P.AddShard(old(WorldOf(store)), Asked(old(shard.View()), owner, replicas), putOk)
      ensures store.Wrote(old(store.file), old(store.writes), if r == P.Done then [store.Held()] else [])
      ensures old(store.Synced()) && store.disk(old(store.writes)) && store.hash.Injective() && !F.Reserved(shard.id) && old(Holds(shard)) ==>
        (store.Synced() <==> r == P.Done || shard.View() == old(shard.View()))
    {
      hide InMemoryEtcd.Shards, InMemoryEtcd.Migs, InMemoryEtcd.Wrote, P.MemberError, P.AddShard, F.Document, F.Reserved;
      ghost var c, n, held, known := store.Held(), store.writes, Holds(shard), store.Synced();
      AcceptedIff(WorldOf(store), Asked(shard.View(), owner, replicas));
      if held {
        HeldView(shard);
      }
      r := TakeIn(shard, owner, replicas, putOk);
      if held && known && store.disk(n) && store.hash.Injective() && !F.Reserved(shard.id) {
        SyncedIff(c, n, shard, r == P.Done);
      }
    }

    lemma HeldView(shard: Shard)
      requires Holds(shard)
      ensures shard.id in store.Shards() && store.Shards()[shard.id] == shard.View()
      ensures store.Shards()[shard.id := shard.View()] == store.Shards()
    {
    }

    /** The same, without what it means for the file. */
    method TakeIn(shard: Shard, owner: Option<string>, replicas: Option<seq<string>>, putOk: bool) returns (r: P.Outcome)
      requires store.Valid()
      modifies shard, store`data, store`file, store`writes
      ensures store.Valid()
      ensures var asked := Asked(old(shard.View()), owner, replicas);
        var refusal := Refusal(old(WorldOf(store)), asked);
        && r == (if refusal.Some? then P.Raised(refusal.value) else P.After(putOk, P.Done))
        && shard.View() == if refusal.Some? then asked else asked.(state := P.Creating)
      ensures store.data == if r == P.Done then old(store.data)[shard.id := shard] else old(store.data)
      ensures if old(Holds(shard))
        then WorldOf(store) == P.WithShard(old(WorldOf(store)), shard.View())
        else P.Answer(WorldOf(store), r) == P.AddShard(old(WorldOf(store)), Asked(old(shard.View()), owner, replicas), putOk)
      ensures store.Wrote(old(store.file), old(store.writes), if r == P.Done then [store.Held()] else [])
    {
      hide InMemoryEtcd.Shards, InMemoryEtcd.Migs, InMemoryEtcd.Wrote, P.MemberError;
      ghost var held := Holds(shard);
      r := AdmitAndPut(shard, owner, replicas, putOk);
      if held || r == P.Done {
        assert held ==> old(store.data)[shard.id := shard] == old(store.data);
        ShardPut(shard);
      } else {
        StoreUntouched(shard);
      }
    }

    lemma SyncedIff(c: F.Contents, n: nat, shard: Shard, put: bool)
      requires store.hash.Injective() && store.disk(n) && !F.Reserved(shard.id) && shard.id in c.shards
      requires store.Held() == c.(shards := c.shards[shard.id := shard.View()])
      requires store.Wrote(F.Document(store.hash, c), n, if put then [store.Held()] else [])
      ensures store.Synced() <==> put || shard.View() == c.shards[shard.id]
    {
      hide F.Document, F.Reserved, F.Saved;
      F.SyncedIff(store.hash, store.disk, n, c, store.Held(), store.file, store.writes, shard.id, put);
    }

    /** The object as asked for, checked and put; the store has to be looked at by the caller. */
    method AdmitAndPut(shard: Shard, owner: Option<string>, replicas: Option<seq<string>>, putOk: bool) returns (r: P.Outcome)
      requires store.Valid()
      modifies shard, store`data, store`file, store`writes
      ensures store.Valid()
      ensures var asked := Asked(old(shard.View()), owner, replicas);
        var refusal := Refusal(old(WorldOf(store)), asked);
        && r == (if refusal.Some? then P.Raised(refusal.value) else P.After(putOk, P.Done))
        && shard.View() == if refusal.Some? then asked else asked.(state := P.Creating)
      ensures store.data == if r == P.Done then old(store.data)[shard.id := shard] else old(store.data)
      ensures store.Wrote(old(store.file), old(store.writes), if r == P.Done then [store.Held()] else [])
    {
      hide InMemoryEtcd.Shards, InMemoryEtcd.Migs, InMemoryEtcd.Wrote, P.MemberError;
      store.WroteNothing(store.file, store.writes);
      var error := Admit(shard, owner, replicas);
      if error.Some? {
        return P.Raised(error.value);
      }
      var returned := store.Put(shard, putOk);
      r := P.After(returned, P.Done);
    }

    method ValidateNode(node: string) returns (error: Option<P.Error>)
      ensures error == P.MemberError(WorldOf(store), node)
    {
      if node !in store.nodes {
        return Some(P.UnknownNode);
      }
      error := if store.nodes[node].state == P.Removed then Some(P.RemovedNode) else None;
    }

    /** Moves the shard object on and puts it, or puts it back as it was. */
    method Advance(shard: Shard, to: P.ShardState, putOk: bool) returns (r: P.Outcome)
      requires store.Valid()
      modifies shard, store`data, store`file, store`writes
      ensures store.Valid()
      ensures r == if !P.ShardCanMove(old(shard.state), to) then P.Raised(P.BadTransition) else P.After(putOk, P.Done)
      ensures shard.View() == if r == P.Done then old(shard.View()).(state := to, version := old(shard.version) + 1)
                              else old(shard.View())
      ensures store.data == if r == P.Done then old(store.data)[shard.id := shard] else old(store.data)
      ensures store.Wrote(old(store.file), old(store.writes), if r == P.Done then [store.Held()] else [])
    {
      hide InMemoryEtcd.Shards, InMemoryEtcd.Migs, InMemoryEtcd.Wrote, P.ShardCanMove;
      store.WroteNothing(store.file, store.writes);
      var oldState, oldVersion := shard.state, shard.version;
      var moved := shard.Transition(to);
      if !moved {
        return P.Raised(P.BadTransition);
      }
      var returned := store.Put(shard, putOk);
      if !returned {
        shard.state, shard.version := oldState, oldVersion;
      }
      r := P.After(returned, P.Done);
    }

    /** Validated transition of any shard object, rolled back with its version when the put raises. */
    method Transition(shard: Shard, to: P.ShardState, putOk: bool) returns (r: P.Outcome)
      requires store.Valid()
      modifies shard, store`data, store`file, store`writes
      ensures store.Valid()
      ensures r == if !P.ShardCanMove(old(shard.state), to) then P.Raised(P.BadTransition) else P.After(putOk, P.Done)
      ensures shard.View() == if r == P.Done then old(shard.View()).(state := to, version := old(shard.version) + 1)
                              else old(shard.View())
      ensures store.data == if r == P.Done then old(store.data)[shard.id := shard] else old(store.data)
      ensures WorldOf(store) == if r == P.Done then P.WithShard(old(WorldOf(store)), shard.View()) else old(WorldOf(store))
      ensures old(Holds(shard)) ==> P.Answer(WorldOf(store), r) == P.MoveShard(old(WorldOf(store)), shard.id, to, putOk)
      ensures store.Wrote(old(store.file), old(store.writes), if r == P.Done then [store.Held()] else [])
    {
      hide InMemoryEtcd.Shards, InMemoryEtcd.Migs, InMemoryEtcd.Wrote, P.ShardCanMove;
      ghost var held := Holds(shard);
      if held {
        HeldView(shard);
      }
      r := Advance(shard, to, putOk);
      if held || r == P.Done {
        assert held ==> old(store.data)[shard.id := shard] == old(store.data);
        ShardPut(shard);
      } else {
        StoreUntouched(shard);
      }
    }

    /** Why an owner change is refused. */
    ghost function OwnerError(w: P.World, s: P.ShardRec, newOwner: string, newReplicas: seq<string>): Option<P.Error> {
      if s.state != P.Draining then Some(P.BadTransition)
      else if newOwner == "" then Some(P.NoOwner)
      else if P.MemberError(w, newOwner).Some? then P.MemberError(w, newOwner)
      else if newOwner in newReplicas then Some(P.OwnershipConflict) else None
    }

    /** The checks of an owner change. */
    method OwnerRefusal(shard: Shard, newOwner: string, newReplicas: seq<string>) returns (error: Option<P.Error>)
      ensures error == OwnerError(WorldOf(store), shard.View(), newOwner, newReplicas)
    {
      if shard.state != P.Draining {
        return Some(P.BadTransition);
      }
      if newOwner == "" {
        return Some(P.NoOwner);
      }
      error := ValidateNode(newOwner);
      if error == None && newOwner in newReplicas {
        error := Some(P.OwnershipConflict);
      }
    }

    /** Reassigns the owner of any DRAINING shard object. A put that raises restores the owner and the
        replicas but not the version. */
    method ChangeOwner(shard: Shard, newOwner: string, replicas: Option<seq<string>>, putOk: bool) returns (r: P.Outcome)
      requires store.Valid()
      modifies shard, store`data, store`file, store`writes
      ensures store.Valid()
      ensures var newReplicas := if replicas.Some? then replicas.value else old(shard.replicas);
        var refusal := OwnerError(old(WorldOf(store)), old(shard.View()), newOwner, newReplicas);
        var bumped := old(shard.View()).(version := old(shard.version) + 1);
        && r == (if refusal.Some? then P.Raised(refusal.value) else P.After(putOk, P.Done))
        && shard.View() == (if refusal.Some? then old(shard.View())
                            else if putOk then bumped.(nodeId := newOwner, replicas := newReplicas) else bumped)
      ensures store.data == if r == P.Done then old(store.data)[shard.id := shard] else old(store.data)
      ensures if old(Holds(shard))
        then P.Answer(WorldOf(store), r) == P.ChangeOwner(old(WorldOf(store)), shard.id, newOwner, replicas, putOk)
        else WorldOf(store) == if r == P.Done then P.WithShard(old(WorldOf(store)), shard.View()) else old(WorldOf(store))
      ensures store.Wrote(old(store.file), old(store.writes), if r == P.Done then [store.Held()] else [])
    {
      hide InMemoryEtcd.Shards, InMemoryEtcd.Migs, InMemoryEtcd.Wrote, P.MemberError;
      ghost var held := Holds(shard);
      if held {
        HeldView(shard);
      }
      r := CheckAndReassign(shard, newOwner, replicas, putOk);
      if held || r == P.Done {
        assert held ==> old(store.data)[shard.id := shard] == old(store.data);
        ShardPut(shard);
      } else {
        StoreUntouched(shard);
      }
    }

    /** The same on the object, whatever the store holds. */
    method CheckAndReassign(shard: Shard, newOwner: string, replicas: Option<seq<string>>, putOk: bool) returns (r: P.Outcome)
      requires store.Valid()
      modifies shard, store`data, store`file, store`writes
      ensures store.Valid()
      ensures var newReplicas := if replicas.Some? then replicas.value else old(shard.replicas);
        var refusal := OwnerError(old(WorldOf(store)), old(shard.View()), newOwner, newReplicas);
        var bumped := old(shard.View()).(version := old(shard.version) + 1);
        && r == (if refusal.Some? then P.Raised(refusal.value) else P.After(putOk, P.Done))
        && shard.View() == (if refusal.Some? then old(shard.View())
                            else if putOk then bumped.(nodeId := newOwner, replicas := newReplicas) else bumped)
      ensures store.data == if r == P.Done then old(store.data)[shard.id := shard] else old(store.data)
      ensures store.Wrote(old(store.file), old(store.writes), if r == P.Done then [store.Held()] else [])
    {
      hide InMemoryEtcd.Shards, InMemoryEtcd.Migs, InMemoryEtcd.Wrote, P.MemberError;
      store.WroteNothing(store.file, store.writes);
      var newReplicas := if replicas.Some? then replicas.value else shard.replicas;
      var error := OwnerRefusal(shard, newOwner, newReplicas);
      if error.Some? {
        return P.Raised(error.value);
      }
      r := Reassign(shard, newOwner, newReplicas, putOk);
    }

    /** Writes the new owner, or what is left of it when the put raises. */
    method Reassign(shard: Shard, newOwner: string, newReplicas: seq<string>, putOk: bool) returns (r: P.Outcome)
      requires store.Valid()
      modifies shard, store`data, store`file, store`writes
      ensures store.Valid() && store.data == (if putOk then old(store.data)[shard.id := shard] else old(store.data))
      ensures r == P.After(putOk, P.Done)
      ensures var bumped := old(shard.View()).(version := old(shard.version) + 1);
        shard.View() == if putOk then bumped.(nodeId := newOwner, replicas := newReplicas) else bumped
      ensures store.Wrote(old(store.file), old(store.writes), if putOk then [store.Held()] else [])
    {
      var oldOwner, oldReplicas := shard.nodeId, shard.replicas;
      shard.nodeId, shard.replicas, shard.version := newOwner, newReplicas, shard.version + 1;
      var returned := store.Put(shard, putOk);
      if !returned {
        shard.nodeId, shard.replicas := oldOwner, oldReplicas;
      }
      r := P.After(returned, P.Done);
    }
  }

  class ClusterMembershipManager {
    const store: InMemoryEtcd
    const clusterId: string

    constructor (store: InMemoryEtcd, clusterId: string)
      ensures this.store == store && this.clusterId == clusterId
    {
      this.store, this.clusterId := store, clusterId;
    }

    ghost function Config(): P.Config {
      P.Config(clusterId, Layout(map[], ""))
    }

    method Register(node: string, cluster: Option<string>, putOk: bool) returns (r: P.Outcome)
      requires store.Valid()
      modifies store`nodes, store`file, store`writes
      ensures store.Valid()
      ensures P.Answer(WorldOf(store), r) == P.Register(Config(), old(WorldOf(store)), node, cluster, putOk)
      ensures store.Wrote(old(store.file), old(store.writes), if r == P.Done then [store.Held()] else [])
    {
      hide InMemoryEtcd.Wrote;
      store.WroteNothing(store.file, store.writes);
      if node in store.nodes {
        return P.Raised(P.DuplicateNode);
      }
      if cluster.Some? && cluster.value != "" && cluster.value != clusterId {
        return P.Raised(P.ClusterMismatch);
      }
      var returned := store.PutNode(P.NodeRec(node, clusterId, P.Joining, 1), putOk);
      r := P.After(returned, P.Done);
    }

    method Transition(node: string, to: P.NodeState, putOk: bool) returns (r: P.Outcome)
      requires store.Valid()
      modifies store`nodes, store`file, store`writes
      ensures store.Valid()
      ensures P.Answer(WorldOf(store), r) == P.MoveNode(Config(), old(WorldOf(store)), node, to, putOk)
      ensures store.Wrote(old(store.file), old(store.writes), if r == P.Done then [store.Held()] else [])
    {
      hide InMemoryEtcd.Wrote;
      store.WroteNothing(store.file, store.writes);
      if node !in store.nodes {
        return P.Raised(P.UnknownNode);
      }
      var n := store.nodes[node];
      if n.clusterId != clusterId {
        return P.Raised(P.ClusterMismatch);
      }
      if !P.NodeCanMove(n.state, to) {
        return P.Raised(P.BadTransition);
      }
      var returned := store.PutNode(n.(state := to, version := n.version + 1), putOk);
      r := P.After(returned, P.Done);
    }

    /** Startup of the local node: a new one is registered and activated, a JOINING one is activated, and a
        node that was ACTIVE, DRAINING or REMOVED is left exactly as it was. Each of the two puts can raise. */
    method BootstrapLocalNode(node: string, registered: bool, activated: bool) returns (r: P.Outcome)
      requires store.Valid()
      modifies store`nodes, store`file, store`writes
      ensures store.Valid()
      ensures node in old(store.nodes) && old(store.nodes)[node].state != P.Joining ==>
        store.nodes == old(store.nodes) && r == P.Done
      ensures node in old(store.nodes) && old(store.nodes)[node].state == P.Joining ==>
        var n := old(store.nodes)[node];
        if n.clusterId != clusterId then store.nodes == old(store.nodes) && r == P.Raised(P.ClusterMismatch)
        else if !activated then store.nodes == old(store.nodes) && r == P.Raised(P.StoreFailed)
        else store.nodes == old(store.nodes)[node := n.(state := P.Available, version := n.version + 1)] && r == P.Done
      ensures node !in old(store.nodes) ==>
        if !registered then store.nodes == old(store.nodes) && r == P.Raised(P.StoreFailed)
        else if !activated then
          store.nodes == old(store.nodes)[node := P.NodeRec(node, clusterId, P.Joining, 1)] && r == P.Raised(P.StoreFailed)
        else store.nodes == old(store.nodes)[node := P.NodeRec(node, clusterId, P.Available, 2)] && r == P.Done
      ensures store.Wrote(old(store.file), old(store.writes),
                          (if node !in old(store.nodes) && registered then [Joined(old(store.Held()), node)] else [])
                          + if r == P.Done && (node in old(store.nodes) ==> old(store.nodes)[node].state == P.Joining)
                            then [store.Held()] else [])
    {
      hide InMemoryEtcd.Shards, InMemoryEtcd.Migs, F.Saved;
      r := P.Done;
      ghost var f, n, first := store.file, store.writes, [];
      store.WroteNothing(f, n);
      assert first + first == first;
      if node !in store.nodes {
        r := Register(node, None, registered);
        if r != P.Done {
          return;
        }
        first := [store.Held()];
      }
      ghost var f1, n1 := store.file, store.writes;
      store.WroteNothing(f1, n1);
      if store.nodes[node].state == P.Joining {
        r := Transition(node, P.Available, activated);
        store.WroteThen(f, n, first, f1, n1, if r == P.Done then [store.Held()] else []);
      }
    }

    ghost function Joined(c: F.Contents, node: string): F.Contents {
      c.(nodes := c.nodes[node := P.NodeRec(node, clusterId, P.Joining, 1)])
    }
  }
}
