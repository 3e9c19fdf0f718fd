/** The migration manager over the store's own objects: fields set in place, put, and set back
    when a put raises. Each method is the protocol's function of the world before it. */
module MigrationManager {
  import opened Wrappers
  import opened Recovery
  import opened Transfer
  import opened ControlObjects
  import F = Persistence
  import P = Protocol

  class ShardMigrationManager {
    const store: InMemoryEtcd
    const transfer: ShardTransferProvider
    const cfg: P.Config

    constructor (store: InMemoryEtcd, transfer: ShardTransferProvider, clusterId: string)
      ensures this.store == store && this.transfer == transfer && cfg == P.Config(clusterId, transfer.layout)
    {
      this.store, this.transfer, this.cfg := store, transfer, P.Config(clusterId, transfer.layout);
    }

    ghost predicate Valid()
      reads store`data, store`migrations, store`nodes, transfer
    {
      store.Valid() && transfer.Valid() && cfg.layout == transfer.layout
    }

    ghost function World(): P.World
      reads store`data, store`migrations, store`nodes, store.data.Values, store.migrations.Values, transfer
    {
      P.World(store.Shards(), store.Migs(), store.nodes, transfer.roots)
    }

    /** Among the migration objects only this one changed. */
    twostate lemma OneMigration(m: ShardMigration)
      requires old(store.Valid()) && store.migrations == old(store.migrations)
      requires m.id in store.migrations && store.migrations[m.id] == m
      requires forall i :: i in store.migrations && i != m.id ==> unchanged(store.migrations[i])
      ensures store.Migs() == old(store.Migs())[m.id := m.View()]
    {
    }

    /** Among the shard objects only this one changed. */
    twostate lemma OneShard(shard: Shard)
      requires old(store.Valid()) && store.data == old(store.data)
      requires shard.id in store.data && store.data[shard.id] == shard
      requires forall i :: i in store.data && i != shard.id ==> unchanged(store.data[i])
      ensures store.Shards() == old(store.Shards())[shard.id := shard.View()]
    {
    }

    /** Only one migration object, and perhaps the storage, changed. */
    twostate lemma MigrationChanged(m: ShardMigration)
      requires old(Valid()) && store.data == old(store.data) && store.migrations == old(store.migrations)
      requires store.nodes == old(store.nodes)
      requires m.id in store.migrations && store.migrations[m.id] == m
      requires forall s :: s in store.data.Values ==> unchanged(s)
      requires forall o :: o in store.migrations.Values && o != m ==> unchanged(o)
      ensures World() == P.WithMig(old(World()).(roots := transfer.roots), m.View())
    {
      assert forall i :: i in store.migrations && i != m.id ==> store.migrations[i] in store.migrations.Values;
      OneMigration(m);
      assert forall i :: i in store.data ==> store.data[i] in store.data.Values;
      assert store.Shards() == old(store.Shards());
    }

    /** `_fail`: the put may raise, the record is FAILED either way. */
    method Fail(m: ShardMigration, reason: string, putOk: bool) returns (returned: bool)
      requires Valid() && m.id in store.migrations && store.migrations[m.id] == m
      modifies m, store`migrations, store`file, store`writes
      ensures Valid() && store.migrations == old(store.migrations)
      ensures m.View() == old(m.View()).Fail(reason) && returned == putOk
      ensures store.Wrote(old(store.file), old(store.writes), if putOk then [store.Held()] else [])
    {
      var moved := m.Transition(P.Failed);
      m.error := Some(reason);
      returned := store.PutMigration(m, putOk);
      assert old(store.migrations)[m.id := m] == old(store.migrations);
    }

    /** `_require` and `_require_state`. */
    method Require(id: string, expected: P.MigState) returns (r: Result<ShardMigration, P.Error>)
      requires Valid()
      ensures r.Failure? ==> r.error == P.NotFound || r.error == P.WrongState
      ensures r.Failure? ==> forall putOk :: P.Enter(World(), id, expected, putOk) == P.Refused(P.Answer(World(), P.Raised(r.error)))
      ensures r.Success? ==>
        && id in store.migrations && r.value == store.migrations[id] && r.value.id == id && r.value in store.migrations.Values
        && id in World().migs && World().migs[id] == r.value.View() && r.value.state == expected
    {
      if id !in store.migrations {
        return Failure(P.NotFound);
      }
      var m := store.migrations[id];
      if m.state != expected {
        return Failure(P.WrongState);
      }
      r := Success(m);
    }

    /** `_assert_source_valid`: a stale migration is failed before the error is raised. */
    method AssertSourceValid(m: ShardMigration, putOk: bool) returns (r: Result<Shard, P.Error>)
      requires Valid() && m.id in store.migrations && store.migrations[m.id] == m
      modifies m, store`migrations, store`file, store`writes
      ensures Valid()
      ensures match P.SourceProblem(old(World()), old(m.View()))
        case None => World() == old(World()) && unchanged(m) && store.migrations == old(store.migrations)
                     && m.shardId in store.data && r == Success(store.data[m.shardId])
                     && store.data[m.shardId] in store.data.Values && store.data[m.shardId].id == m.shardId
                     && m.shardId in World().shards && World().shards[m.shardId] == store.data[m.shardId].View()
        case Some(why) => World() == P.WithMig(old(World()), old(m.View()).Fail(why))
                          && r == Failure(if putOk then P.SourceInvalid else P.StoreFailed)
      ensures store.Wrote(old(store.file), old(store.writes), if P.SourceProblem(old(World()), old(m.View())).Some? && putOk then [store.Held()] else [])
    {
      var why := None;
      if m.shardId !in store.data {
        why := Some("shard no longer exists");
      } else {
        var s := store.data[m.shardId];
        if !P.Migratable(s.state) {
          why := Some("shard is not migratable");
        } else if s.nodeId != m.source {
          why := Some("stale: owner changed");
        } else if s.version != m.sourceVersion {
          why := Some("stale: version changed");
        }
      }
      if why == None {
        return Success(store.data[m.shardId]);
      }
      var returned := Fail(m, why.value, putOk);
      MigrationChanged(m);
      r := Failure(if returned then P.SourceInvalid else P.StoreFailed);
    }

    lemma PutBack(w: P.World, id: string)
      requires id in w.migs && w.migs[id].id == id
      ensures P.WithMig(w, w.migs[id]) == w
    {
    }

    /** The common start of the steps: find the migration in the expected state and check its
        source again. A null migration means that the step ends here. */
    method Begin(id: string, expected: P.MigState, putOk: bool) returns (m: ShardMigration?, shard: Shard?, r: P.Outcome)
      requires Valid()
      modifies store`migrations, store.migrations.Values, store`file, store`writes
      ensures Valid()
      ensures m == null ==> P.Enter(old(World()), id, expected, putOk) == P.Refused(P.Answer(World(), r))
      ensures m != null ==>
        && m.id == id && id in store.migrations && m == store.migrations[id] && m in store.migrations.Values
        && shard != null && shard.id == m.shardId && shard.id in store.data && shard == store.data[shard.id] && shard in store.data.Values
        && P.Enter(old(World()), id, expected, putOk) == P.Entered(m.View(), shard.View())
        && World() == old(World()) && id in World().migs && World().migs[id] == m.View() && m.state == expected
        && shard.id in World().shards && World().shards[shard.id] == shard.View()
        && store.migrations == old(store.migrations) && (forall o :: o in store.migrations.Values ==> unchanged(o))
      ensures store.Wrote(old(store.file), old(store.writes), if m == null && r == P.Raised(P.SourceInvalid) then [store.Held()] else [])
    {
      hide InMemoryEtcd.Shards, InMemoryEtcd.Migs, P.SourceProblem;
      hide InMemoryEtcd.Wrote;
      store.WroteNothing(store.file, store.writes);
      m, shard, r := null, null, P.Done;
      var found := Require(id, expected);
      if found.Failure? {
        r := P.Raised(found.error);
        return;
      }
      var source := AssertSourceValid(found.value, putOk);
      if source.Failure? {
        r := P.Raised(source.error);
        return;
      }
      m, shard := found.value, source.value;
    }

    /** Moves the migration on and puts it, or puts it back as it was. */
    method Advance(m: ShardMigration, to: P.MigState, putOk: bool) returns (moved: bool)
      requires Valid() && m.id in store.migrations && store.migrations[m.id] == m && P.MigCanMove(m.state, to)
      modifies m, store`migrations, store`file, store`writes
      ensures Valid() && store.migrations == old(store.migrations) && moved == putOk
      ensures m.View() == if putOk then old(m.View()).Moved(to) else old(m.View())
      ensures store.Wrote(old(store.file), old(store.writes), if putOk then [store.Held()] else [])
    {
      var oldState, oldVersion := m.state, m.version;
      var allowed := m.Transition(to);
      moved := store.PutMigration(m, putOk);
      assert old(store.migrations)[m.id := m] == old(store.migrations);
      if !moved {
        m.state, m.version := oldState, oldVersion;
      }
    }

    method Prepare(id: string, env: P.Env) returns (r: P.Outcome)
      requires Valid()
      modifies store`migrations, store.migrations.Values, store`file, store`writes
      ensures Valid()
      ensures P.Answer(World(), r) == P.Prepare(old(World()), id, env)
      ensures store.Wrote(old(store.file), old(store.writes), F.PreparePuts(old(World()), id, env))
    {
      hide InMemoryEtcd.Shards, InMemoryEtcd.Migs, P.Enter;
      var m, shard, refused := Begin(id, P.Pending, env.put0);
      if m == null {
        return refused;
      }
      var moved := Advance(m, P.Preparing, env.put0);
      MigrationChanged(m);
      PutBack(old(World()), id);
      r := P.After(moved, P.Done);
    }

    /** Both copy failures and their rollback: the storage is real unless the environment makes
        it raise, and then it leaves what the environment says. `copied` is what happened. */
    method StartCopy(id: string, env: P.Env) returns (r: P.Outcome, ghost copied: P.Copy)
      requires Valid() && P.ValidEnv(env)
      modifies store`migrations, store.migrations.Values, transfer, store`file, store`writes
      ensures Valid()
      ensures P.Answer(World(), r) == P.StartCopy(cfg, old(World()), id, env.(copy := copied))
      ensures store.Wrote(old(store.file), old(store.writes), F.StartCopyPuts(cfg, old(World()), id, env.(copy := copied)))
      ensures env.put0 && copied.Landed? && P.Enter(old(World()), id, P.Preparing, env.put0).Entered? ==>
        var m := old(World()).migs[id];
        IsImage(copied.root, LogicalOf(P.RootAt(cfg, old(World()), m.source, m.shardId)))
    {
      hide InMemoryEtcd.Shards, InMemoryEtcd.Migs, InMemoryEtcd.Wrote, P.Enter, P.EndCopy, P.StartCopy, LogicalOf, DigestOf, IsImage, Stored;
      CopyAnswer(World(), id, env, transfer.roots);
      var m, shard, refused := Begin(id, P.Preparing, env.put0);
      if m == null {
        return refused, env.copy;
      }
      store.WroteNothing(old(store.file), old(store.writes));
      r, copied := CopyEntered(m, shard, env);
    }

    /** A copy whose migration was found valid. */
    method CopyEntered(m: ShardMigration, shard: Shard, env: P.Env) returns (r: P.Outcome, ghost copied: P.Copy)
      requires Valid() && P.ValidEnv(env) && m.state == P.Preparing && shard.id == m.shardId
      requires m.id in store.migrations && store.migrations[m.id] == m
      requires m.id in World().migs && World().migs[m.id] == m.View()
      requires P.Enter(World(), m.id, P.Preparing, env.put0) == P.Entered(m.View(), shard.View())
      modifies m, store`migrations, transfer, store`file, store`writes
      ensures Valid()
      ensures P.Answer(World(), r) == P.StartCopy(cfg, old(World()), m.id, env.(copy := copied))
      ensures store.Wrote(old(store.file), old(store.writes), F.StartCopyPuts(cfg, old(World()), m.id, env.(copy := copied)))
      ensures env.put0 && copied.Landed? ==> IsImage(copied.root, LogicalOf(P.RootAt(cfg, old(World()), m.source, m.shardId)))
    {
      hide InMemoryEtcd.Shards, InMemoryEtcd.Migs, F.Saved, P.Enter, P.EndCopy, P.StartCopy, LogicalOf, DigestOf, IsImage, Stored;
      ghost var w, f, n := World(), store.file, store.writes;
      copied := env.copy;
      CopyAnswer(w, m.id, env, w.roots);
      var moved := Advance(m, P.Copying, env.put0);
      MigrationChanged(m);
      if !moved {
        PutBack(w, m.id);
        return P.Raised(P.StoreFailed), copied;
      }
      ghost var f1, n1, copying := store.file, store.writes, store.Held();
      r, copied := Copy(m, env);
      MigrationChanged(m);
      CopyAnswer(w, m.id, env.(copy := copied), transfer.roots);
      store.WroteThen(f, n, [copying], f1, n1, if r == P.Raised(P.StoreFailed) then [] else [store.Held()]);
    }

    lemma CopyAnswer(w: P.World, id: string, env: P.Env, roots: Storage)
      ensures match P.Enter(w, id, P.Preparing, env.put0)
        case Refused(a) => P.StartCopy(cfg, w, id, env) == a
        case Entered(m, s) =>
          var end := P.EndCopy(m.Moved(P.Copying), DigestOf(LogicalOf(P.RootAt(cfg, w, m.source, s.id))), env);
          && (!env.put0 ==> P.StartCopy(cfg, w, id, env) == P.Answer(w, P.Raised(P.StoreFailed)))
          && (env.put0 && roots == (if end.touched then Stored(w.roots, cfg.layout.Dir(m.target), s.id, end.left) else w.roots) ==>
                P.StartCopy(cfg, w, id, env) == P.Answer(P.WithMig(w.(roots := roots), end.m), end.outcome))
    {
      hide P.Enter, P.EndCopy, LogicalOf, DigestOf;
    }

    /** Export the source and import it into the target. */
    method Move(source: string, target: string, shard: string) returns (digest: Digest)
      requires Valid()
      modifies transfer
      ensures Valid()
      ensures digest == DigestOf(LogicalOf(old(transfer.RootAt(source, shard))))
      ensures IsImage(transfer.RootAt(target, shard), LogicalOf(old(transfer.RootAt(source, shard))))
      ensures transfer.roots == old(transfer.roots)[(transfer.layout.Dir(target), shard) := transfer.RootAt(target, shard)]
    {
      hide LogicalOf, DigestOf, IsImage;
      var e := transfer.ExportShard(source, shard);
      transfer.ImportShard(target, shard, e);
      digest := e.digest;
    }

    method Copy(m: ShardMigration, env: P.Env) returns (r: P.Outcome, ghost copied: P.Copy)
      requires Valid() && P.ValidEnv(env) && m.state == P.Copying
      requires m.id in store.migrations && store.migrations[m.id] == m
      modifies store`migrations, m, transfer, store`file, store`writes
      ensures Valid() && store.migrations == old(store.migrations)
      ensures copied.Landed? ==> IsImage(copied.root, LogicalOf(old(transfer.RootAt(m.source, m.shardId))))
      ensures var end := P.EndCopy(old(m.View()), DigestOf(LogicalOf(old(transfer.RootAt(m.source, m.shardId)))), env.(copy := copied));
        && m.View() == end.m && r == end.outcome
        && transfer.roots == if end.touched then Stored(old(transfer.roots), transfer.layout.Dir(m.target), m.shardId, end.left)
                             else old(transfer.roots)
      ensures store.Wrote(old(store.file), old(store.writes), if r == P.Raised(P.StoreFailed) then [] else [store.Held()])
    {
      hide LogicalOf, DigestOf, IsImage, VerifyPasses;
      copied := env.copy;
      if env.copy.Landed? {
        var digest := Move(m.source, m.target, m.shardId);
        ImageVerifies(transfer.RootAt(m.target, m.shardId), LogicalOf(old(transfer.RootAt(m.source, m.shardId))));
        copied := P.Landed(transfer.RootAt(m.target, m.shardId));
        m.sourceDigest := Some(digest);
        r := CheckCopy(m, digest, env);
      } else {
        r := CopyRaises(m, env);
      }
    }

    /** A copy that raised; an import may have left something. */
    method CopyRaises(m: ShardMigration, env: P.Env) returns (r: P.Outcome)
      requires Valid() && P.ValidEnv(env) && !env.copy.Landed?
      requires m.id in store.migrations && store.migrations[m.id] == m
      modifies store`migrations, m, transfer, store`file, store`writes
      ensures Valid() && store.migrations == old(store.migrations)
      ensures m.View() == old(m.View()).Fail("copy failed") && r == P.After(env.put1, P.Raised(P.WrongState))
      ensures transfer.roots == if env.copy.ImportRaises? then
                                  Stored(old(transfer.roots), transfer.layout.Dir(m.target), m.shardId, env.copy.left)
                                else old(transfer.roots)
      ensures store.Wrote(old(store.file), old(store.writes), if env.put1 then [store.Held()] else [])
    {
      hide InMemoryEtcd.Wrote;
      if env.copy.ImportRaises? {
        transfer.Leave(m.target, m.shardId, env.copy.left);
      }
      var returned := Fail(m, "copy failed", env.put1);
      r := P.After(returned, P.Raised(P.WrongState));
    }

    /** The read-back of a copy that landed. */
    method CheckCopy(m: ShardMigration, digest: Digest, env: P.Env) returns (r: P.Outcome)
      requires Valid() && m.state == P.Copying && m.sourceDigest == Some(digest)
      requires m.id in store.migrations && store.migrations[m.id] == m
      modifies store`migrations, m, store`file, store`writes
      ensures Valid() && store.migrations == old(store.migrations)
      ensures var copied := old(m.View()).(targetDigest := Some(DigestOf(LogicalOf(transfer.RootAt(m.target, m.shardId)))));
        if env.readFails then m.View() == old(m.View()).Fail("copy failed") && r == P.After(env.put1, P.Raised(P.WrongState))
        else if !VerifyPasses(transfer.RootAt(m.target, m.shardId), Some(digest)) then
          m.View() == old(m.View()).Fail("verify failed") && r == P.After(env.put1, P.Raised(P.VerificationFailed))
        else if !env.put1 then m.View() == copied.Fail("copy failed") && r == P.After(env.put2, P.Raised(P.WrongState))
        else m.View() == copied && r == P.Done
      ensures store.Wrote(old(store.file), old(store.writes), if r == P.Raised(P.StoreFailed) then [] else [store.Held()])
    {
      hide LogicalOf, DigestOf, VerifyPasses;
      if env.readFails {
        var returned := Fail(m, "copy failed", env.put1);
        return P.After(returned, P.Raised(P.WrongState));
      }
      var verified := transfer.VerifyShard(m.target, m.shardId, Some(digest));
      if verified.Failure? {
        var returned := Fail(m, "verify failed", env.put1);
        return P.After(returned, P.Raised(P.VerificationFailed));
      }
      m.targetDigest := Some(verified.value);
      var returned := store.PutMigration(m, env.put1);
      assert old(store.migrations)[m.id := m] == old(store.migrations);
      if !returned {
        var failed := Fail(m, "copy failed", env.put2);
        return P.After(failed, P.Raised(P.WrongState));
      }
      r := P.Done;
    }

    ghost function Stored(roots: Storage, dir: string, shard: string, left: Option<Root>): Storage {
      match left
      case None => roots - {(dir, shard)}
      case Some(root) => roots[(dir, shard) := root]
    }

    lemma ImageVerifies(root: Root, l: Logical)
      requires IsImage(root, l)
      ensures VerifyPasses(root, Some(DigestOf(l))) && LogicalOf(root) == l && root.Valid()
    {
    }

    method Verify(id: string, env: P.Env) returns (r: P.Outcome)
      requires Valid()
      modifies store`migrations, store.migrations.Values, store`file, store`writes
      ensures Valid()
      ensures P.Answer(World(), r) == P.Verify(cfg, old(World()), id, env)
      ensures store.Wrote(old(store.file), old(store.writes), F.VerifyPuts(cfg, old(World()), id, env))
    {
      hide InMemoryEtcd.Shards, InMemoryEtcd.Migs, InMemoryEtcd.Wrote, P.Enter, P.Verify, LogicalOf, DigestOf, VerifyPasses;
      VerifyAnswer(World(), id, env);
      var m, shard, refused := Begin(id, P.Copying, env.put0);
      if m == null {
        return refused;
      }
      store.WroteNothing(old(store.file), old(store.writes));
      r := VerifyEntered(m, shard, env);
    }

    lemma VerifyAnswer(w: P.World, id: string, env: P.Env)
      ensures match P.Enter(w, id, P.Copying, env.put0)
        case Refused(a) => P.Verify(cfg, w, id, env) == a
        case Entered(m, s) =>
          var root := P.RootAt(cfg, w, m.target, s.id);
          var m' := if env.readFails then m.Moved(P.Verifying)
                    else if !VerifyPasses(root, m.sourceDigest) then m.Moved(P.Verifying).Fail("verification failed")
                    else m.Moved(P.Verifying).(targetDigest := Some(DigestOf(LogicalOf(root))));
          var error := if env.readFails then P.Raised(P.TransferFailed)
                       else P.After(env.put1, if VerifyPasses(root, m.sourceDigest) then P.Done else P.Raised(P.VerificationFailed));
          P.Verify(cfg, w, id, env) == if env.put0 then P.Answer(P.WithMig(w, m'), error) else P.Answer(w, P.Raised(P.StoreFailed))
    {
      hide P.Enter, LogicalOf, DigestOf, VerifyPasses;
    }

    /** A verification whose migration was found valid. */
    method VerifyEntered(m: ShardMigration, shard: Shard, env: P.Env) returns (r: P.Outcome)
      requires Valid() && m.state == P.Copying && shard.id == m.shardId
      requires m.id in store.migrations && store.migrations[m.id] == m
      requires m.id in World().migs && World().migs[m.id] == m.View()
      requires P.Enter(World(), m.id, P.Copying, env.put0) == P.Entered(m.View(), shard.View())
      modifies m, store`migrations, store`file, store`writes
      ensures Valid()
      ensures P.Answer(World(), r) == P.Verify(cfg, old(World()), m.id, env)
      ensures store.Wrote(old(store.file), old(store.writes), F.VerifyPuts(cfg, old(World()), m.id, env))
    {
      hide InMemoryEtcd.Shards, InMemoryEtcd.Migs, F.Saved, P.Enter, P.Verify, LogicalOf, DigestOf, VerifyPasses;
      ghost var w, f, n := World(), store.file, store.writes;
      VerifyAnswer(w, m.id, env);
      var moved := Advance(m, P.Verifying, env.put0);
      MigrationChanged(m);
      if !moved {
        PutBack(w, m.id);
        return P.Raised(P.StoreFailed);
      }
      ghost var f1, n1, verifying := store.file, store.writes, store.Held();
      r := ReadBack(m, shard, env);
      MigrationChanged(m);
      store.WroteThen(f, n, [verifying], f1, n1, if env.readFails || r == P.Raised(P.StoreFailed) then [] else [store.Held()]);
    }

    /** Only a digest mismatch fails the migration; another error of the storage just propagates. */
    method ReadBack(m: ShardMigration, shard: Shard, env: P.Env) returns (r: P.Outcome)
      requires Valid() && m.state == P.Verifying
      requires m.id in store.migrations && store.migrations[m.id] == m && shard.id == m.shardId
      modifies store`migrations, m, store`file, store`writes
      ensures Valid() && store.migrations == old(store.migrations)
      ensures var root := transfer.RootAt(m.target, m.shardId);
        if env.readFails then m.View() == old(m.View()) && r == P.Raised(P.TransferFailed)
        else if !VerifyPasses(root, m.sourceDigest) then
          m.View() == old(m.View()).Fail("verification failed") && r == P.After(env.put1, P.Raised(P.VerificationFailed))
        else
          m.View() == old(m.View()).(targetDigest := Some(DigestOf(LogicalOf(root)))) && r == P.After(env.put1, P.Done)
      ensures store.Wrote(old(store.file), old(store.writes), if env.readFails || r == P.Raised(P.StoreFailed) then [] else [store.Held()])
    {
      hide LogicalOf, DigestOf, VerifyPasses;
      if env.readFails {
        return P.Raised(P.TransferFailed);
      }
      var verified := transfer.VerifyShard(m.target, shard.id, m.sourceDigest);
      if verified.Failure? {
        var returned := Fail(m, "verification failed", env.put1);
        return P.After(returned, P.Raised(P.VerificationFailed));
      }
      m.targetDigest := Some(verified.value);
      var returned := store.PutMigration(m, env.put1);
      assert old(store.migrations)[m.id := m] == old(store.migrations);
      r := P.After(returned, P.Done);
    }

    /** A known, non-removed member of this cluster. */
    method ValidateMember(node: string) returns (ok: bool)
      ensures ok <==> P.ValidMember(cfg, World(), node)
    {
      ok := node in store.nodes && store.nodes[node].state != P.Removed && store.nodes[node].clusterId == cfg.clusterId;
    }

    method ValidateReplicas(replicas: seq<string>) returns (ok: bool)
      ensures ok <==> forall r :: r in replicas ==> P.MemberError(World(), r) == None
    {
      for i := 0 to |replicas|
        invariant forall r :: r in replicas[..i] ==> P.MemberError(World(), r) == None
      {
        assert replicas[..i + 1] == replicas[..i] + [replicas[i]];
        if replicas[i] !in store.nodes || store.nodes[replicas[i]].state == P.Removed {
          assert P.MemberError(World(), replicas[i]) != None;
          return false;
        }
      }
      assert replicas[..|replicas|] == replicas;
      ok := true;
    }

    /** The ownership commit: hand the shard over, check, put; or restore it as it was. */
    method TakeOwnership(shard: Shard, target: string, env: P.Env) returns (accepted: bool)
      requires Valid() && shard.id in store.data && store.data[shard.id] == shard
      modifies shard, store`data, store`file, store`writes
      ensures Valid() && store.data == old(store.data)
      ensures accepted <==> P.OwnershipAccepted(old(World()), P.Handed(old(shard.View()), target), env)
      ensures shard.View() == if accepted then P.Handed(old(shard.View()), target) else old(shard.View())
      ensures store.Wrote(old(store.file), old(store.writes), if accepted then [store.Held()] else [])
    {
      hide InMemoryEtcd.Shards, InMemoryEtcd.Migs;
      var oldOwner, oldReplicas, oldVersion := shard.nodeId, shard.replicas, shard.version;
      var newReplicas := P.Without(shard.replicas, target);
      shard.nodeId, shard.replicas, shard.version := target, newReplicas, shard.version + 1;
      var error := shard.ValidateOwnership();
      var members := ValidateReplicas(newReplicas);
      accepted := false;
      if error == None && members {
        accepted := store.Put(shard, env.put1);
        assert old(store.data)[shard.id := shard] == old(store.data);
      }
      if !accepted {
        shard.nodeId, shard.replicas, shard.version := oldOwner, oldReplicas, oldVersion;
      }
    }

    /** The source's cleanup, which never takes ownership back. */
    method CleanUp(m: ShardMigration, env: P.Env)
      requires transfer.Valid() && P.ValidEnv(env)
      modifies m, transfer
      ensures transfer.Valid()
      ensures m.View() == if env.cleanup.Cleaned? then old(m.View()).(finalized := true)
                          else old(m.View()).(error := Some("source finalization failed"), finalized := false)
      ensures transfer.roots == Stored(old(transfer.roots), transfer.layout.Dir(m.source), m.shardId, P.Left(env.cleanup))
    {
      match env.cleanup {
        case Cleaned =>
          transfer.FinalizeSource(m.source, m.shardId);
          m.finalized := true;
        case CleanupRaises(left) =>
          transfer.Leave(m.source, m.shardId, left);
          m.error, m.finalized := Some("source finalization failed"), false;
      }
    }

    /** The cleanup and the last put. */
    method Finish(m: ShardMigration, env: P.Env) returns (r: P.Outcome)
      requires Valid() && P.ValidEnv(env) && m.state == P.Committing
      requires m.id in store.migrations && store.migrations[m.id] == m
      modifies m, store`migrations, transfer, store`file, store`writes
      ensures Valid() && store.migrations == old(store.migrations)
      ensures m.View() == P.Finished(old(m.View()), env.cleanup) && r == P.After(env.put3, P.Done)
      ensures transfer.roots == Stored(old(transfer.roots), cfg.layout.Dir(m.source), m.shardId, P.Left(env.cleanup))
      ensures store.Wrote(old(store.file), old(store.writes), if env.put3 then [store.Held()] else [])
    {
      hide InMemoryEtcd.Wrote, Stored;
      CleanUp(m, env);
      var moved := m.Transition(P.Completed);
      var returned := store.PutMigration(m, env.put3);
      assert old(store.migrations)[m.id := m] == old(store.migrations);
      r := P.After(returned, P.Done);
    }

    lemma CommitAnswer(w: P.World, id: string, env: P.Env)
      requires id in w.migs && w.migs[id].id == id
      ensures match P.Enter(w, id, P.Verifying, env.put0)
        case Refused(a) => P.Commit(cfg, w, id, env) == a
        case Entered(m, s) =>
          var committing, handed := m.Moved(P.Committing), P.Handed(s, m.target);
          if !P.ValidMember(cfg, w, m.target) then P.Commit(cfg, w, id, env) == P.Answer(w, P.Raised(P.TargetInvalid))
          else if !env.put0 then P.Commit(cfg, w, id, env) == P.Answer(w, P.Raised(P.StoreFailed))
          else if !P.OwnershipAccepted(w, handed, env) then
            P.Commit(cfg, w, id, env)
            == P.Answer(P.WithMig(w, committing.Fail("ownership commit failed")), P.After(env.put2, P.Raised(P.CommitFailed)))
          else
            var roots := Stored(w.roots, cfg.layout.Dir(m.source), s.id, P.Left(env.cleanup));
            P.Commit(cfg, w, id, env)
            == P.Answer(P.WithMig(P.WithShard(w, handed).(roots := roots), P.Finished(committing, env.cleanup)), P.After(env.put3, P.Done))
    {
      hide P.Enter, P.ValidMember, P.OwnershipAccepted, P.Handed, P.Finished;
    }

    /** What `HandOver` does, on values. */
    ghost predicate HandedOver(w: P.World, m: P.MigrationRec, s: P.ShardRec, env: P.Env,
                               m': P.MigrationRec, s': P.ShardRec, roots: Storage, r: P.Outcome) {
      if P.OwnershipAccepted(w, P.Handed(s, m.target), env) then
        && s' == P.Handed(s, m.target) && m' == P.Finished(m, env.cleanup) && r == P.After(env.put3, P.Done)
        && roots == Stored(w.roots, cfg.layout.Dir(m.source), m.shardId, P.Left(env.cleanup))
      else
        && s' == s && m' == m.Fail("ownership commit failed")
        && r == P.After(env.put2, P.Raised(P.CommitFailed)) && roots == w.roots
    }

    /** The shard is put with its new owner, if it is accepted. */
    ghost function HandOverPuts(w: P.World, handed: P.ShardRec, env: P.Env): seq<F.Contents> {
      if P.OwnershipAccepted(w, handed, env) then [F.Metadata(P.WithShard(w, handed))] else []
    }

    /** From COMMITTING on: ownership, cleanup and completion, or the rollback and FAILED. */
    method HandOver(m: ShardMigration, shard: Shard, env: P.Env) returns (r: P.Outcome)
      requires Valid() && P.ValidEnv(env) && m.state == P.Committing && shard.id == m.shardId
      requires m.id in store.migrations && store.migrations[m.id] == m
      requires shard.id in store.data && store.data[shard.id] == shard
      modifies m, shard, store`migrations, store`data, transfer, store`file, store`writes
      ensures Valid() && store.migrations == old(store.migrations) && store.data == old(store.data)
      ensures HandedOver(old(World()), old(m.View()), old(shard.View()), env, m.View(), shard.View(), transfer.roots, r)
      ensures store.Wrote(old(store.file), old(store.writes),
                          HandOverPuts(old(World()), P.Handed(old(shard.View()), m.target), env) + if r == P.Raised(P.StoreFailed) then [] else [store.Held()])
    {
      hide InMemoryEtcd.Shards, InMemoryEtcd.Migs, P.OwnershipAccepted, P.Handed, P.Finished, Stored;
      hide F.Saved;
      ghost var f, n := store.file, store.writes;
      var accepted := TakeOwnership(shard, m.target, env);
      OneShard(shard);
      assert store.Migs() == old(store.Migs());
      ghost var f1, n1, handed := store.file, store.writes, if accepted then [store.Held()] else [];
      if accepted {
        r := Finish(m, env);
      } else {
        var returned := Fail(m, "ownership commit failed", env.put2);
        r := P.After(returned, P.Raised(P.CommitFailed));
      }
      store.WroteThen(f, n, handed, f1, n1, if r == P.Raised(P.StoreFailed) then [] else [store.Held()]);
    }

    /** Only the members and the roots of the world matter to it. */
    lemma SameMembers(w: P.World, w': P.World, m: P.MigrationRec, s: P.ShardRec, env: P.Env,
                      m': P.MigrationRec, s': P.ShardRec, roots: Storage, r: P.Outcome)
      requires w'.nodes == w.nodes && w'.roots == w.roots
      ensures HandedOver(w', m.Moved(P.Committing), s, env, m', s', roots, r)
          <==> HandedOver(w, m.Moved(P.Committing), s, env, m', s', roots, r)
    {
      hide P.Handed, P.Finished, Stored, P.MigrationRec.Fail;
      assert forall n :: P.MemberError(w', n) == P.MemberError(w, n);
    }

    lemma CommitEnds(w: P.World, id: string, env: P.Env, m: P.MigrationRec, s: P.ShardRec,
                     m': P.MigrationRec, s': P.ShardRec, roots: Storage, r: P.Outcome)
      requires id in w.migs && w.migs[id].id == id && s.id in w.shards && w.shards[s.id] == s && s.id == m.shardId
      requires P.Enter(w, id, P.Verifying, env.put0) == P.Entered(m, s) && P.ValidMember(cfg, w, m.target) && env.put0
      requires HandedOver(w, m.Moved(P.Committing), s, env, m', s', roots, r)
      ensures P.Answer(P.WithMig(P.WithShard(w, s').(roots := roots), m'), r) == P.Commit(cfg, w, id, env)
    {
      hide P.Enter, P.Commit, P.ValidMember, P.OwnershipAccepted, P.Handed, P.Finished, Stored, P.MigrationRec.Fail;
      CommitAnswer(w, id, env);
      PutShardBack(w, s.id);
    }

    /** The puts of a commit from COMMITTING on, up to the last. */
    ghost function CommitStart(w: P.World, m: P.MigrationRec, s: P.ShardRec, env: P.Env): seq<F.Contents> {
      var committing := P.WithMig(w, m.Moved(P.Committing));
      if env.put0 then [F.Metadata(committing)] + HandOverPuts(committing, P.Handed(s, m.target), env) else []
    }

    lemma CommitWrites(w: P.World, id: string, env: P.Env, m: P.MigrationRec, s: P.ShardRec)
      requires P.Enter(w, id, P.Verifying, env.put0) == P.Entered(m, s) && P.ValidMember(cfg, w, m.target)
      ensures F.CommitPuts(cfg, w, id, env)
           == CommitStart(w, m, s, env) + if env.put0 then F.LastPut(P.Commit(cfg, w, id, env)) else []
    {
      hide P.Enter, P.Commit, P.ValidMember, P.Handed, F.LastPut;
      var w1, handed := P.WithMig(w, m.Moved(P.Committing)), P.Handed(s, m.target);
      assert P.OwnershipAccepted(w1, handed, env) == P.OwnershipAccepted(w, handed, env) by {
        assert forall x :: P.MemberError(w1, x) == P.MemberError(w, x);
      }
    }

    /** COMMITTING is put, or the commit stops there; then the hand-over. */
    method PassOn(m: ShardMigration, shard: Shard, env: P.Env) returns (r: P.Outcome)
      requires Valid() && P.ValidEnv(env) && m.state == P.Verifying && shard.id == m.shardId
      requires m.id in store.migrations && store.migrations[m.id] == m
      requires shard.id in store.data && store.data[shard.id] == shard
      modifies m, shard, store`migrations, store`data, transfer, store`file, store`writes
      ensures Valid() && store.migrations == old(store.migrations) && store.data == old(store.data)
      ensures
        if env.put0 then
          HandedOver(old(World()), old(m.View()).Moved(P.Committing), old(shard.View()), env, m.View(), shard.View(), transfer.roots, r)
        else
          m.View() == old(m.View()) && shard.View() == old(shard.View()) && transfer.roots == old(transfer.roots) && r == P.Raised(P.StoreFailed)
      ensures store.Wrote(old(store.file), old(store.writes),
                          CommitStart(old(World()), old(m.View()), old(shard.View()), env)
                          + if r == P.Raised(P.StoreFailed) then [] else [store.Held()])
    {
      hide InMemoryEtcd.Shards, InMemoryEtcd.Migs, HandedOver, HandOverPuts, F.Saved, P.Handed;
      ghost var w, m0, s0, f, n := World(), m.View(), shard.View(), store.file, store.writes;
      var moved := Advance(m, P.Committing, env.put0);
      MigrationChanged(m);
      if !moved {
        assert CommitStart(w, m0, s0, env) + [] == [];
        return P.Raised(P.StoreFailed);
      }
      ghost var w1, f1, n1 := World(), store.file, store.writes;
      r := HandOver(m, shard, env);
      SameMembers(w, w1, m0, s0, env, m.View(), shard.View(), transfer.roots, r);
      ghost var last := if r == P.Raised(P.StoreFailed) then [] else [store.Held()];
      ghost var handed := HandOverPuts(w1, P.Handed(s0, m.target), env);
      store.WroteThen(f, n, [F.Metadata(w1)], f1, n1, handed + last);
      assert [F.Metadata(w1)] + (handed + last) == [F.Metadata(w1)] + handed + last;
    }

    /** A commit whose migration and target were found valid. */
    method CommitEntered(m: ShardMigration, shard: Shard, env: P.Env) returns (r: P.Outcome)
      requires Valid() && P.ValidEnv(env) && m.state == P.Verifying && shard.id == m.shardId
      requires m.id in store.migrations && store.migrations[m.id] == m
      requires shard.id in store.data && store.data[shard.id] == shard
      requires m.id in World().migs && World().migs[m.id] == m.View()
      requires shard.id in World().shards && World().shards[shard.id] == shard.View()
      requires P.Enter(World(), m.id, P.Verifying, env.put0) == P.Entered(m.View(), shard.View())
      requires P.ValidMember(cfg, World(), m.target)
      modifies m, shard, store`migrations, store`data, transfer, store`file, store`writes
      ensures Valid()
      ensures P.Answer(World(), r) == P.Commit(cfg, old(World()), m.id, env)
      ensures store.Wrote(old(store.file), old(store.writes),
                          CommitStart(old(World()), old(m.View()), old(shard.View()), env)
                          + if r == P.Raised(P.StoreFailed) then [] else [store.Held()])
    {
      hide InMemoryEtcd.Shards, InMemoryEtcd.Migs, InMemoryEtcd.Wrote, P.Enter, P.Commit, P.ValidMember, HandedOver, CommitStart;
      ghost var w, m0, s0 := World(), m.View(), shard.View();
      CommitAnswer(w, m.id, env);
      PutBack(w, m.id);
      PutShardBack(w, shard.id);
      r := PassOn(m, shard, env);
      if env.put0 {
        CommitEnds(w, m.id, env, m0, s0, m.View(), shard.View(), transfer.roots, r);
      }
      OneMigration(m);
      OneShard(shard);
    }

    method Commit(id: string, env: P.Env) returns (r: P.Outcome)
      requires Valid() && P.ValidEnv(env)
      modifies store`migrations, store.migrations.Values, store`data, store.data.Values, transfer, store`file, store`writes
      ensures Valid()
      ensures P.Answer(World(), r) == P.Commit(cfg, old(World()), id, env)
      ensures store.Wrote(old(store.file), old(store.writes), F.CommitPuts(cfg, old(World()), id, env))
    {
      hide InMemoryEtcd.Shards, InMemoryEtcd.Migs, P.Enter, P.Commit, P.ValidMember;
      ghost var w := World();
      CommitRefused(w, id, env);
      var m, shard, refused := Begin(id, P.Verifying, env.put0);
      if m == null {
        return refused;
      }
      CommitAnswer(w, id, env);
      var member := ValidateMember(m.target);
      if !member {
        return P.Raised(P.TargetInvalid);
      }
      store.WroteNothing(old(store.file), old(store.writes));
      CommitWrites(w, id, env, m.View(), shard.View());
      r := CommitEntered(m, shard, env);
    }

    lemma CommitRefused(w: P.World, id: string, env: P.Env)
      ensures P.Enter(w, id, P.Verifying, env.put0).Refused? ==>
        P.Commit(cfg, w, id, env) == P.Enter(w, id, P.Verifying, env.put0).answer
    {
    }

    lemma PutShardBack(w: P.World, id: string)
      requires id in w.shards && w.shards[id].id == id
      ensures P.WithShard(w, w.shards[id]) == w
    {
    }

    /** Is another migration of the shard in progress? */
    method InProgress(shardId: string) returns (found: bool)
      requires Valid()
      ensures found <==> exists i :: i in World().migs && World().migs[i].shardId == shardId && !World().migs[i].Terminal()
    {
      var rest := store.migrations.Keys;
      while rest != {}
        invariant rest <= store.migrations.Keys
        invariant forall i :: i in store.migrations && i !in rest ==>
                    store.migrations[i].shardId != shardId || store.migrations[i].View().Terminal()
        decreases |rest|
      {
        var i :| i in rest;
        var m := store.migrations[i];
        if m.shardId == shardId && m.state != P.Completed && m.state != P.Failed && m.state != P.Cancelled {
          assert i in World().migs && World().migs[i] == m.View();
          return true;
        }
        rest := rest - {i};
      }
      assert forall i :: i in World().migs ==> World().migs[i] == store.migrations[i].View();
      found := false;
    }

    ghost function Pending(newId: string, namespace: string, s: Shard, target: string): P.MigrationRec
      reads s
    {
      P.MigrationRec(newId, namespace, s.id, s.nodeId, target, P.Pending, s.version, cfg.clusterId, None, 1, None, None, false)
    }

    /** The checks of a creation, in the source's order. */
    method Refusal(namespace: string, shardId: string, target: string) returns (error: Option<P.Error>)
      requires Valid()
      ensures error.Some? ==> forall newId, env ::
        P.Create(cfg, World(), namespace, shardId, target, newId, env) == P.Answer(World(), P.Raised(error.value))
      ensures error == None ==>
        && shardId in store.data
        && forall newId, env :: P.Create(cfg, World(), namespace, shardId, target, newId, env) ==
             (if env.put0 then P.Answer(P.WithMig(World(), Pending(newId, namespace, store.data[shardId], target)), P.Done)
              else P.Answer(World(), P.Raised(P.StoreFailed)))
    {
      assert shardId in World().shards <==> shardId in store.data;
      assert shardId in store.data ==> World().shards[shardId] == store.data[shardId].View();
      hide InMemoryEtcd.Shards, InMemoryEtcd.Migs, P.ValidMember;
      if shardId !in store.data {
        return Some(P.Invalid);
      }
      var s := store.data[shardId];
      if s.namespace != namespace {
        return Some(P.Invalid);
      }
      if !P.Migratable(s.state) {
        return Some(P.SourceInvalid);
      }
      if s.nodeId == "" {
        return Some(P.NoOwner);
      }
      var sourceOk := ValidateMember(s.nodeId);
      if !sourceOk {
        return Some(P.SourceInvalid);
      }
      var targetOk := ValidateMember(target);
      if !targetOk || target == s.nodeId {
        return Some(P.TargetInvalid);
      }
      var conflict := InProgress(shardId);
      error := if conflict then Some(P.Conflict) else None;
    }

    twostate lemma MigrationAdded(new m: ShardMigration)
      requires old(Valid()) && store.data == old(store.data) && store.nodes == old(store.nodes) && transfer.roots == old(transfer.roots)
      requires m.id !in old(store.migrations) && store.migrations == old(store.migrations)[m.id := m]
      requires forall i :: i in store.data ==> unchanged(store.data[i])
      requires forall i :: i in old(store.migrations) ==> unchanged(old(store.migrations)[i])
      ensures World() == P.WithMig(old(World()), m.View())
    {
      assert store.Migs() == old(store.Migs())[m.id := m.View()];
      assert store.Shards() == old(store.Shards());
    }

    method CreateMigration(namespace: string, shardId: string, target: string, newId: string, env: P.Env) returns (r: P.Outcome)
      requires Valid() && newId !in store.migrations
      modifies store`migrations, store`file, store`writes
      ensures Valid()
      ensures P.Answer(World(), r) == P.Create(cfg, old(World()), namespace, shardId, target, newId, env)
      ensures store.Wrote(old(store.file), old(store.writes), F.OnePut(P.Create(cfg, old(World()), namespace, shardId, target, newId, env)))
    {
      hide InMemoryEtcd.Shards, InMemoryEtcd.Migs, InMemoryEtcd.Wrote, P.Create;
      store.WroteNothing(store.file, store.writes);
      var error := Refusal(namespace, shardId, target);
      if error.Some? {
        return P.Raised(error.value);
      }
      if !env.put0 {
        return P.Raised(P.StoreFailed);
      }
      var s := store.data[shardId];
      ghost var rec := Pending(newId, namespace, s, target);
      assert P.Create(cfg, World(), namespace, shardId, target, newId, env) == P.Answer(P.WithMig(World(), rec), P.Done);
      assert World() == old(World());
      var m := new ShardMigration(newId, namespace, shardId, s.nodeId, target, s.version, cfg.clusterId);
      assert m.View() == rec;
      var returned := store.PutMigration(m, true);
      MigrationAdded(m);
      r := P.Done;
    }

    /** Which cancels discard what was imported. */
    method DiscardImport(m: ShardMigration, env: P.Env)
      requires Valid() && P.ValidEnv(env)
      modifies transfer
      ensures Valid()
      ensures transfer.roots == if m.shardId in store.data && (m.state == P.Copying || m.state == P.Verifying)
                                then Stored(old(transfer.roots), cfg.layout.Dir(m.target), m.shardId, P.Left(env.cleanup))
                                else old(transfer.roots)
    {
      if m.shardId in store.data && (m.state == P.Copying || m.state == P.Verifying) {
        match env.cleanup
        case Cleaned => transfer.DiscardTarget(m.target, m.shardId);
        case CleanupRaises(left) => transfer.Leave(m.target, m.shardId, left);
      }
    }

    lemma CancelAnswer(w: P.World, id: string, env: P.Env)
      requires id in w.migs
      ensures var m := w.migs[id];
        var roots := if m.shardId in w.shards && (m.state == P.Copying || m.state == P.Verifying)
                     then Stored(w.roots, cfg.layout.Dir(m.target), m.shardId, P.Left(env.cleanup)) else w.roots;
        P.Cancel(cfg, w, id, env) == if !P.Cancelable(m.state) then P.Answer(w, P.Raised(P.WrongState))
          else P.Answer(P.WithMig(w.(roots := roots), m.Moved(P.Cancelled)), P.After(env.put0, P.Done))
    {
    }

    method Cancel(id: string, env: P.Env) returns (r: P.Outcome)
      requires Valid() && P.ValidEnv(env)
      modifies store`migrations, store.migrations.Values, transfer, store`file, store`writes
      ensures Valid()
      ensures P.Answer(World(), r) == P.Cancel(cfg, old(World()), id, env)
      ensures store.Wrote(old(store.file), old(store.writes), F.OnePut(P.Cancel(cfg, old(World()), id, env)))
    {
      ghost var w := World();
      assert id in w.migs <==> id in store.migrations;
      store.WroteNothing(store.file, store.writes);
      if id !in store.migrations {
        return P.Raised(P.NotFound);
      }
      var m := store.migrations[id];
      assert m in store.migrations.Values && w.migs[id] == m.View();
      hide InMemoryEtcd.Migs, InMemoryEtcd.Shards, InMemoryEtcd.Wrote, P.Cancel;
      CancelAnswer(w, id, env);
      if !P.Cancelable(m.state) {
        return P.Raised(P.WrongState);
      }
      r := CancelEntered(m, env);
    }

    /** A cancel in a state that can be cancelled. */
    method CancelEntered(m: ShardMigration, env: P.Env) returns (r: P.Outcome)
      requires Valid() && P.ValidEnv(env) && P.Cancelable(m.state)
      requires m.id in store.migrations && store.migrations[m.id] == m
      requires m.id in World().migs && World().migs[m.id] == m.View()
      modifies m, store`migrations, transfer, store`file, store`writes
      ensures Valid()
      ensures P.Answer(World(), r) == P.Cancel(cfg, old(World()), m.id, env)
      ensures store.Wrote(old(store.file), old(store.writes), F.OnePut(P.Cancel(cfg, old(World()), m.id, env)))
    {
      ghost var w := World();
      assert m.shardId in w.shards <==> m.shardId in store.data;
      hide InMemoryEtcd.Migs, InMemoryEtcd.Shards, InMemoryEtcd.Wrote, P.Cancel, P.MigrationRec.Moved, Stored;
      CancelAnswer(w, m.id, env);
      r := Close(m, env);
      MigrationChanged(m);
    }

    /** The import is discarded and the record CANCELLED; it is not set back when the put raises. */
    method Close(m: ShardMigration, env: P.Env) returns (r: P.Outcome)
      requires Valid() && P.ValidEnv(env) && P.Cancelable(m.state)
      requires m.id in store.migrations && store.migrations[m.id] == m
      modifies m, store`migrations, transfer, store`file, store`writes
      ensures Valid() && store.migrations == old(store.migrations)
      ensures m.View() == old(m.View()).Moved(P.Cancelled) && r == P.After(env.put0, P.Done)
      ensures transfer.roots == if m.shardId in store.data && (old(m.state) == P.Copying || old(m.state) == P.Verifying)
                                then Stored(old(transfer.roots), cfg.layout.Dir(m.target), m.shardId, P.Left(env.cleanup))
                                else old(transfer.roots)
      ensures store.Wrote(old(store.file), old(store.writes), if env.put0 then [store.Held()] else [])
    {
      hide Stored, InMemoryEtcd.Wrote;
      DiscardImport(m, env);
      var moved := m.Transition(P.Cancelled);
      var returned := store.PutMigration(m, env.put0);
      assert old(store.migrations)[m.id := m] == old(store.migrations);
      r := P.After(returned, P.Done);
    }

    /** The operator's backstop. */
    method ForceFail(id: string, reason: string, env: P.Env) returns (r: P.Outcome)
      requires Valid()
      modifies store`migrations, store.migrations.Values, store`file, store`writes
      ensures Valid()
      ensures P.Answer(World(), r) == P.ForceFail(old(World()), id, reason, env)
      ensures store.Wrote(old(store.file), old(store.writes), F.OnePut(P.ForceFail(old(World()), id, reason, env)))
    {
      store.WroteNothing(store.file, store.writes);
      if id !in store.migrations {
        return P.Raised(P.NotFound);
      }
      var m := store.migrations[id];
      assert m in store.migrations.Values && old(World()).migs[id] == m.View();
      if m.state == P.Completed || m.state == P.Failed || m.state == P.Cancelled {
        return P.Raised(P.WrongState);
      }
      hide InMemoryEtcd.Migs, InMemoryEtcd.Shards, InMemoryEtcd.Wrote;
      var returned := Fail(m, reason, env.put0);
      MigrationChanged(m);
      r := P.After(returned, P.Done);
    }
  }
}
