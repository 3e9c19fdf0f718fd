/** The metadata objects as the source has them: updated in place, shared with the store that
    holds them. */
module ControlObjects {
  import opened Wrappers
  import opened Transfer
  import F = Persistence
  import P = Protocol

  class Shard {
    const id: string
    const namespace: string
    var nodeId: string
    var state: P.ShardState
    var replicas: seq<string>
    var version: int

    constructor (id: string, namespace: string, nodeId: string, replicas: seq<string>)
      ensures View() == P.ShardRec(id, namespace, nodeId, P.Active, replicas, 1)
    {
      this.id, this.namespace, this.nodeId, this.replicas := id, namespace, nodeId, replicas;
      state, version := P.Active, 1;
    }

    /** The shard as it was stored. */
    constructor Loaded(s: P.ShardRec)
      ensures View() == s
    {
      id, namespace, nodeId, replicas := s.id, s.namespace, s.nodeId, s.replicas;
      state, version := s.state, s.version;
    }

    function View(): P.ShardRec
      reads this
    {
      P.ShardRec(id, namespace, nodeId, state, replicas, version)
    }

    /** Applies a declared transition, or leaves the shard untouched. */
    method Transition(to: P.ShardState) returns (ok: bool)
      modifies this`state, this`version
      ensures ok <==> P.ShardCanMove(old(state), to)
      ensures View() == if ok then old(View()).(state := to, version := old(version) + 1) else old(View())
    {
      ok := P.ShardCanMove(state, to);
      if ok {
        state, version := to, version + 1;
      }
    }

    /** An owner, and the owner not among the replicas. */
    method ValidateOwnership() returns (error: Option<P.Error>)
      ensures error == if nodeId == "" then Some(P.NoOwner)
                       else if nodeId in replicas then Some(P.OwnershipConflict) else None
    {
      if nodeId == "" {
        return Some(P.NoOwner);
      }
      error := if nodeId in replicas then Some(P.OwnershipConflict) else None;
    }
  }

  class ShardMigration {
    const id: string
    const namespace: string
    const shardId: string
    const source: string
    const target: string
    const sourceVersion: int
    const clusterId: string
    var state: P.MigState
    var version: int
    var error: Option<string>
    var sourceDigest: Option<Digest>
    var targetDigest: Option<Digest>
    var finalized: bool

    constructor (id: string, namespace: string, shardId: string, source: string, target: string, sourceVersion: int, clusterId: string)
      ensures View() == P.MigrationRec(id, namespace, shardId, source, target, P.Pending, sourceVersion, clusterId,
                                       None, 1, None, None, false)
    {
      this.id, this.namespace, this.shardId, this.source, this.target := id, namespace, shardId, source, target;
      this.sourceVersion, this.clusterId := sourceVersion, clusterId;
      state, version, error, sourceDigest, targetDigest, finalized := P.Pending, 1, None, None, None, false;
    }

    /** The migration as it was stored. */
    constructor Loaded(m: P.MigrationRec)
      ensures View() == m
    {
      id, namespace, shardId, source, target := m.id, m.namespace, m.shardId, m.source, m.target;
      sourceVersion, clusterId := m.sourceVersion, m.clusterId;
      state, version, error := m.state, m.version, m.error;
      sourceDigest, targetDigest, finalized := m.sourceDigest, m.targetDigest, m.finalized;
    }

    function View(): P.MigrationRec
      reads this
    {
      P.MigrationRec(id, namespace, shardId, source, target, state, sourceVersion, clusterId,
                     error, version, sourceDigest, targetDigest, finalized)
    }

    method Transition(to: P.MigState) returns (ok: bool)
      modifies this`state, this`version
      ensures ok <==> P.MigCanMove(old(state), to)
      ensures View() == if ok then old(View()).Moved(to) else old(View())
    {
      ok := P.MigCanMove(state, to);
      if ok {
        state, version := to, version + 1;
      }
    }
  }

  /** The metadata store with its file. It keeps the objects themselves, so a change to one is a change
      to the store, and to the file only with the next put. `ok` is whether the environment lets a put
      return; a write of the file that fails is swallowed. */
  class InMemoryEtcd {
    const hash: F.Hash
    /** Which writes of the file succeed, by their number. */
    const disk: nat -> bool
    var data: map<string, Shard>
    var migrations: map<string, ShardMigration>
    var nodes: map<string, P.NodeRec>
    var file: map<string, F.Doc>
    var writes: nat

    ghost predicate Valid()
      reads `data, `migrations, `nodes
    {
      && (forall i :: i in data ==> data[i].id == i)
      && (forall i :: i in migrations ==> migrations[i].id == i)
      && (forall i :: i in nodes ==> nodes[i].nodeId == i)
    }

    function Shards(): map<string, P.ShardRec>
      reads `data, data.Values
    {
      map i | i in data :: data[i].View()
    }

    function Migs(): map<string, P.MigrationRec>
      reads `migrations, migrations.Values
    {
      map i | i in migrations :: migrations[i].View()
    }

    function Held(): F.Contents
      reads `data, `nodes, `migrations, data.Values, migrations.Values
    {
      F.Contents(Shards(), nodes, Migs())
    }

    /** The file is the document of what is held. */
    ghost predicate Synced()
      reads this, data.Values, migrations.Values
    {
      file == F.Document(hash, Held())
    }

    /** These contents were put since the file and the number of writes were as given. */
    ghost predicate Wrote(before: map<string, F.Doc>, n: nat, puts: seq<F.Contents>)
      reads `file, `writes
    {
      F.Saved(hash, disk, before, n, puts, file, writes)
    }

    lemma WroteNothing(before: map<string, F.Doc>, n: nat)
      ensures Wrote(before, n, []) <==> file == before && writes == n
    {
    }

    lemma WroteThen(f0: map<string, F.Doc>, n0: nat, a: seq<F.Contents>, f1: map<string, F.Doc>, n1: nat, b: seq<F.Contents>)
      requires F.Saved(hash, disk, f0, n0, a, f1, n1) && Wrote(f1, n1, b)
      ensures Wrote(f0, n0, a + b)
    {
      F.SavedThen(hash, disk, f0, n0, a, f1, n1, b, file, writes);
    }

    /** `_load`: what the items of the file give, in their order, before the first that raises. */
    constructor (hash: F.Hash, disk: nat -> bool, onDisk: map<string, F.Doc>, items: seq<F.KeyDoc>)
      requires F.Lists(items, onDisk)
      ensures this.hash == hash && this.disk == disk && file == onDisk && writes == 0
      ensures Held() == F.LoadInto(hash, F.Empty, items)
      ensures fresh(data.Values) && fresh(migrations.Values)
      ensures Valid() <==> F.Keyed(Held())
    {
      this.hash, this.disk := hash, disk;
      data, migrations, nodes, file, writes := map[], map[], map[], onDisk, 0;
      new;
      Load(items);
    }

    method Load(items: seq<F.KeyDoc>)
      requires Held() == F.Empty
      modifies this`data, this`migrations, this`nodes
      ensures Held() == F.LoadInto(hash, F.Empty, items)
      ensures fresh(data.Values - old(data).Values) && fresh(migrations.Values - old(migrations).Values)
      ensures Valid() <==> F.Keyed(Held())
    {
      var i := 0;
      LoadedAll(items);
      while i < |items|
        invariant 0 <= i <= |items|
        invariant fresh(data.Values - old(data).Values) && fresh(migrations.Values - old(migrations).Values)
        invariant F.LoadInto(hash, Held(), items[i..]) == F.LoadInto(hash, F.Empty, items)
      {
        hide F.Decode, F.With, F.LoadInto, Held;
        LoadNext(Held(), items, i);
        var item := F.Decode(hash, items[i].key, items[i].value);
        if item == None {
          break;
        }
        Keep(items[i].key, item.value);
        i := i + 1;
      }
      KeyedIsValid();
    }

    lemma LoadNext(c: F.Contents, items: seq<F.KeyDoc>, i: nat)
      requires i < |items|
      ensures F.LoadInto(hash, c, items[i..]) ==
              match F.Decode(hash, items[i].key, items[i].value)
              case None => c
              case Some(item) => F.LoadInto(hash, F.With(c, items[i].key, item), items[i + 1..])
    {
      assert items[i..][1..] == items[i + 1..];
      hide F.Decode, F.With;
    }

    lemma LoadedAll(items: seq<F.KeyDoc>)
      ensures items[0..] == items && forall c :: F.LoadInto(hash, c, items[|items|..]) == c
    {
    }

    lemma KeyedIsValid()
      ensures Valid() <==> F.Keyed(Held())
    {
      assert forall k :: k in data ==> Held().shards[k] == data[k].View();
      assert forall k :: k in migrations ==> Held().migs[k] == migrations[k].View();
    }

    /** One item of the file becomes an object under its key. */
    method Keep(key: string, item: F.Item)
      modifies this`data, this`migrations, this`nodes
      ensures Held() == F.With(old(Held()), key, item)
      ensures fresh(data.Values - old(data).Values) && fresh(migrations.Values - old(migrations).Values)
    {
      if item.MigrationItem? {
        if F.StartsWith(key, F.MigrationPrefix()) {
          KeepMigration(key[|F.MigrationPrefix()|..], item.migration);
        }
      } else if item.NodeItem? {
        if F.StartsWith(key, F.NodePrefix()) {
          nodes := nodes[key[|F.NodePrefix()|..] := item.node];
        }
      } else {
        KeepShard(key, item.shard);
      }
    }

    method KeepMigration(key: string, rec: P.MigrationRec)
      modifies this`migrations
      ensures Held() == old(Held()).(migs := old(Migs())[key := rec])
      ensures fresh(migrations.Values - old(migrations).Values)
    {
      var m := new ShardMigration.Loaded(rec);
      migrations := migrations[key := m];
      assert Migs() == old(Migs())[key := rec];
      assert forall o :: o in migrations.Values ==> o == m || o in old(migrations).Values;
    }

    method KeepShard(key: string, rec: P.ShardRec)
      modifies this`data
      ensures Held() == old(Held()).(shards := old(Shards())[key := rec])
      ensures fresh(data.Values - old(data).Values)
    {
      var s := new Shard.Loaded(rec);
      data := data[key := s];
      assert Shards() == old(Shards())[key := rec];
      assert forall o :: o in data.Values ==> o == s || o in old(data).Values;
    }

    /** `_persist`: everything held goes into one document. */
    method Persist()
      modifies this`file, this`writes
      ensures Wrote(old(file), old(writes), [Held()])
    {
      hide F.Document, F.FileAfter;
      F.OneWrite(hash, disk, file, writes, Held());
      if disk(writes) {
        file := F.Document(hash, Held());
      }
      writes := writes + 1;
    }

    method Put(s: Shard, ok: bool) returns (returned: bool)
      requires Valid()
      modifies this`data, this`file, this`writes
      ensures returned == ok
      ensures Valid() && data == if ok then old(data)[s.id := s] else old(data)
      ensures Wrote(old(file), old(writes), if ok then [Held()] else [])
    {
      hide F.Document, F.FileAfter;
      F.OneWrite(hash, disk, file, writes, F.Empty);
      if ok {
        data := data[s.id := s];
        Persist();
      }
      returned := ok;
    }

    method PutMigration(m: ShardMigration, ok: bool) returns (returned: bool)
      requires Valid()
      modifies this`migrations, this`file, this`writes
      ensures returned == ok
      ensures Valid() && migrations == if ok then old(migrations)[m.id := m] else old(migrations)
      ensures Wrote(old(file), old(writes), if ok then [Held()] else [])
    {
      hide F.Document, F.FileAfter;
      F.OneWrite(hash, disk, file, writes, F.Empty);
      if ok {
        migrations := migrations[m.id := m];
        Persist();
      }
      returned := ok;
    }

    method PutNode(n: P.NodeRec, ok: bool) returns (returned: bool)
      requires Valid()
      modifies this`nodes, this`file, this`writes
      ensures returned == ok
      ensures Valid() && nodes == if ok then old(nodes)[n.nodeId := n] else old(nodes)
      ensures Wrote(old(file), old(writes), if ok then [Held()] else [])
    {
      hide F.Document, F.FileAfter;
      F.OneWrite(hash, disk, file, writes, F.Empty);
      if ok {
        nodes := nodes[n.nodeId := n];
        Persist();
      }
      returned := ok;
    }

    method Delete(id: string)
      requires Valid()
      modifies this`data, this`file, this`writes
      ensures Valid() && data == old(data) - {id}
      ensures Wrote(old(file), old(writes), [Held()])
    {
      data := data - {id};
      Persist();
    }
  }
}
