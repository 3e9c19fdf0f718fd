/** Migrating a DRAINING shard: the gate admits no write behind the copy, so nothing is lost. */
module DrainingMigration {
  import opened Wrappers
  import opened Records
  import opened Recovery
  import opened Transfer
  import opened Protocol
  import opened StaleGuard
  import opened MigrationSafety
  import opened DataSafety
  import opened CarefulMigration

  /** The migration created at step `i`, of a shard that was DRAINING then. */
  ghost predicate CreatedDraining(ws: seq<World>, steps: seq<Step>, i: nat, id: string)
    requires i < |steps| && |ws| == |steps| + 1
  {
    Creates(ws, steps, i, id) && (steps[i].shardId in ws[i].shards ==> ws[i].shards[steps[i].shardId].state == Draining)
  }

  /** A DRAINING shard takes no write as long as its migration would be let through. */
  lemma DrainingIsQuiet(cfg: Config, ws: seq<World>, steps: seq<Step>, i: nat, q: nat, id: string)
    requires IsRun(cfg, ws, steps) && i < q < |steps| && CreatedDraining(ws, steps, i, id)
    ensures Unwritten(ws[q], steps[q], id)
    ensures Current(ws[q], id) ==> !(steps[q].WriteCall? && steps[q].shardId == steps[i].shardId)
  {
    hide Next, Enabled, OnCourse, Content;
    if Current(ws[q], id) && steps[q].WriteCall? {
      RunMovesForward(cfg, ws, steps, 0, i);
      CreationIsOnCourse(cfg, ws[i], steps[i], Logical(map[], {}));
      RunKeepsSubject(cfg, ws, steps, i + 1, q, id);
      CurrentSinceCreation(cfg, ws, steps, i, q, q, id);
      WriteIsAtOwner(cfg, ws[q], steps[q]);
    }
  }

  /** No acknowledged write is lost by migrating a DRAINING shard: if the migration created at step
      `i` reads COMPLETED at some later moment, then one commit in between took the shard over, the
      new owner held exactly what the old owner held at the creation, and no write to the shard was
      admitted in the meantime. */
  lemma NoAcknowledgedWriteIsLost(cfg: Config, ws: seq<World>, steps: seq<Step>, i: nat, n: nat, id: string) returns (j: nat)
    requires cfg.layout.Separate() && IsRun(cfg, ws, steps) && OneLivePerShard(ws[0]) && RootsValid(ws[0])
    requires i < n <= |steps| && CreatedDraining(ws, steps, i, id)
    requires forall q :: i < q < n ==> WithCare(ws[q], steps[q], id)
    requires id in ws[n].migs && ws[n].migs[id].state == Completed
    ensures i < j < n && steps[j].CommitCall? && steps[j].id == id
    ensures var s, target := steps[i].shardId, ws[n].migs[id].target;
      && s in ws[i].shards && s in ws[j + 1].shards && ws[j + 1].shards[s].nodeId == target
      && Content(cfg, ws[j + 1], target, s) == Content(cfg, ws[i], ws[i].shards[s].nodeId, s)
    ensures forall q :: i <= q <= j ==> !(steps[q].WriteCall? && steps[q].shardId == steps[i].shardId)
  {
    hide Next, Enabled, Content, OneLivePerShard, RootsValid, WithCare, Layout.Separate, Unwritten;
    forall q | i < q < n ensures Unwritten(ws[q], steps[q], id) {
      DrainingIsQuiet(cfg, ws, steps, i, q, id);
    }
    j := QuietCopyLosesNothing(cfg, ws, steps, i, n, id);
    forall q | i <= q <= j ensures !(steps[q].WriteCall? && steps[q].shardId == steps[i].shardId) {
      if i < q {
        AlongTheWay(cfg, ws, steps, i, q, j, id);
        DrainingIsQuiet(cfg, ws, steps, i, q, id);
      }
    }
    var s := steps[i].shardId;
    SourceRests(cfg, ws, steps, i, i + 1, j, j, id);
    RunMovesForward(cfg, ws, steps, 0, i);
    CreationIsOnCourse(cfg, ws[i], steps[i], Logical(map[], {}));
    SameRootsSameContent(cfg, ws[i], ws[i + 1], ws[i].shards[s].nodeId, s);
  }

  /** Migrating a DRAINING shard then loses nothing, with no further condition. */
  lemma WholeCallsLoseNothing(cfg: Config, ws: seq<World>, steps: seq<Step>, i: nat, n: nat, id: string) returns (j: nat)
    requires cfg.layout.Separate() && IsRun(cfg, ws, steps) && OneLivePerShard(ws[0]) && RootsValid(ws[0])
    requires i < n <= |steps| && CreatedDraining(ws, steps, i, id)
    requires forall q :: i < q < n && Subject(steps[q]) == Some(id) ==> !IsCrash(steps[q])
    requires id in ws[n].migs && ws[n].migs[id].state == Completed
    ensures i < j < n && steps[j].CommitCall? && steps[j].id == id
    ensures var s, target := steps[i].shardId, ws[n].migs[id].target;
      && s in ws[i].shards && s in ws[j + 1].shards && ws[j + 1].shards[s].nodeId == target
      && Content(cfg, ws[j + 1], target, s) == Content(cfg, ws[i], ws[i].shards[s].nodeId, s)
    ensures forall q :: i <= q <= j ==> !(steps[q].WriteCall? && steps[q].shardId == steps[i].shardId)
  {
    hide Next, Enabled, Content, OneLivePerShard, RootsValid, Layout.Separate, WithCare;
    WholeCallsAreCareful(cfg, ws, steps, i, n, id);
    j := NoAcknowledgedWriteIsLost(cfg, ws, steps, i, n, id);
  }

  lemma TerminalIsUnwritten(w: World, step: Step, id: string)
    requires id in w.migs && w.migs[id].Terminal()
    ensures Unwritten(w, step, id)
  {
  }

  /** Migrations of the shard are started while it is DRAINING, and called with care. */
  ghost predicate DrainingRun(ws: seq<World>, steps: seq<Step>, s: string)
    requires |ws| == |steps| + 1
  {
    && (forall id :: Live(ws[0], id) ==> ws[0].migs[id].shardId != s)
    && (forall q :: 0 <= q < |steps| && steps[q].CreateCall? && steps[q].shardId == s && s in ws[q].shards ==>
          ws[q].shards[s].state == Draining)
    && (forall q, id :: 0 <= q < |steps| && id in ws[q].migs && ws[q].migs[id].shardId == s ==> WithCare(ws[q], steps[q], id))
  }

  /** A history that migrates the shard only out of DRAINING is careful with it, whatever is written when. */
  lemma DrainingRunIsCareful(cfg: Config, ws: seq<World>, steps: seq<Step>, s: string)
    requires IsRun(cfg, ws, steps) && DrainingRun(ws, steps, s)
    ensures CarefulRun(ws, steps, s)
  {
    hide Next, Enabled, WithCare, Unwritten, OnCourse;
    forall q | 0 <= q < |steps| ensures Careful(ws[q], steps[q], s) {
      forall id | id in ws[q].migs && ws[q].migs[id].shardId == s ensures Unwritten(ws[q], steps[q], id) {
        if id in ws[0].migs {
          RunKeepsSubject(cfg, ws, steps, 0, q, id);
          TerminalAbsorbs(cfg, ws, steps, 0, q, id);
          TerminalIsUnwritten(ws[q], steps[q], id);
        } else {
          var i := BornAt(cfg, ws, steps, q, id);
          RunMovesForward(cfg, ws, steps, 0, i);
          CreationIsOnCourse(cfg, ws[i], steps[i], Logical(map[], {}));
          RunKeepsSubject(cfg, ws, steps, i + 1, q, id);
          DrainingIsQuiet(cfg, ws, steps, i, q, id);
        }
      }
    }
  }
}
