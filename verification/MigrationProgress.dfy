/** An undisturbed migration goes through: each of the five calls succeeds in turn. */
module MigrationProgress {
  import opened Wrappers
  import opened Segments
  import opened Recovery
  import opened Transfer
  import opened Protocol
  import opened StaleGuard
  import opened MigrationSafety
  import opened DataSafety
  import opened CarefulMigration
  import opened MigrationLimits

  /** Nothing stands in the way of a migration of the shard to the target. */
  ghost predicate Clear(cfg: Config, w: World, shardId: string, target: string) {
    && shardId in w.shards
    && var s := w.shards[shardId];
      && Migratable(s.state) && s.nodeId != "" && s.nodeId != target
      && ValidMember(cfg, w, s.nodeId) && ValidMember(cfg, w, target) && target != ""
      && (forall r :: r in s.replicas ==> MemberError(w, r) == None)
      && (forall i :: i in w.migs && w.migs[i].shardId == shardId ==> w.migs[i].Terminal())
  }

  function Fresh(cfg: Config, s: ShardRec, target: string, id: string): MigrationRec {
    MigrationRec(id, s.namespace, s.id, s.nodeId, target, Pending, s.version, cfg.clusterId, None, 1, None, None, false)
  }

  /** The environment of a copy that lands. */
  function Lands(root: Root): Env {
    Quiet.(copy := Landed(root))
  }

  /** A call that succeeds, and is a careful one. */
  ghost predicate Succeeds(cfg: Config, w: World, step: Step, w': World, s: string) {
    Enabled(cfg, w, step) && Run1(cfg, w, step) == Answer(w', Done) && Careful(w, step, s)
  }

  lemma CreateDone(cfg: Config, w: World, shardId: string, target: string, id: string)
    requires Tidy(w) && Clear(cfg, w, shardId, target) && id !in w.migs
    ensures var s := w.shards[shardId];
      Succeeds(cfg, w, CreateCall(s.namespace, shardId, target, id, Quiet), WithMig(w, Fresh(cfg, s, target, id)), shardId)
  {
    hide MemberError;
  }

  lemma PrepareDone(cfg: Config, w: World, id: string, s: string)
    requires Tidy(w) && Current(w, id) && w.migs[id].state == Pending
    ensures Succeeds(cfg, w, PrepareCall(id, Quiet), WithMig(w, w.migs[id].Moved(Preparing)), s)
  {
  }

  /** The record of a finished copy. */
  ghost function CopiedRec(m: MigrationRec, digest: Digest): MigrationRec {
    m.Moved(Copying).(sourceDigest := Some(digest), targetDigest := Some(digest))
  }

  /** An import that landed as an exact image always verifies. */
  lemma CopyDone(cfg: Config, w: World, id: string, root: Root, s: string)
    requires Tidy(w) && Current(w, id) && w.migs[id].state == Preparing
    requires RootAt(cfg, w, w.migs[id].source, w.migs[id].shardId).Valid()
    requires IsImage(root, Content(cfg, w, w.migs[id].source, w.migs[id].shardId))
    ensures var m := w.migs[id];
      Succeeds(cfg, w, StartCopyCall(id, Lands(root)),
               WithMig(WithRoot(cfg, w, m.target, m.shardId, Some(root)), CopiedRec(m, DigestOf(Content(cfg, w, m.source, m.shardId)))),
               s)
  {
    var m := w.migs[id];
    var l := Content(cfg, w, m.source, m.shardId);
    LogicalIsSane(RootAt(cfg, w, m.source, m.shardId));
    VerificationIsExactIff(root, l, Some(DigestOf(l)));
    assert root.Valid();
    hide VerifyPasses, DigestOf, LogicalOf, WithRoot, IsImage, Root.Valid;
  }

  lemma VerifyDone(cfg: Config, w: World, id: string, l: Logical, s: string)
    requires Tidy(w) && Current(w, id) && w.migs[id].state == Copying
    requires Keyed(l.records) && IsImage(RootAt(cfg, w, w.migs[id].target, w.migs[id].shardId), l)
    requires w.migs[id].sourceDigest == w.migs[id].targetDigest == Some(DigestOf(l))
    ensures Succeeds(cfg, w, VerifyCall(id, Quiet), WithMig(w, w.migs[id].Moved(Verifying)), s)
  {
    var m := w.migs[id];
    var root := RootAt(cfg, w, m.target, m.shardId);
    VerificationIsExactIff(root, l, m.sourceDigest);
    assert LogicalOf(root) == l;
    hide VerifyPasses, DigestOf, LogicalOf, IsImage;
    assert m.Moved(Verifying).(targetDigest := Some(DigestOf(l))) == m.Moved(Verifying);
  }

  lemma CommitDone(cfg: Config, w: World, id: string, s: string)
    requires Tidy(w) && Current(w, id) && w.migs[id].state == Verifying && w.migs[id].sourceDigest.Some?
    requires ValidMember(cfg, w, w.migs[id].target)
    requires OwnershipAccepted(w, Handed(w.shards[w.migs[id].shardId], w.migs[id].target), Quiet)
    ensures var m := w.migs[id];
      Succeeds(cfg, w, CommitCall(id, Quiet),
               WithMig(WithRoot(cfg, WithShard(w, Handed(w.shards[m.shardId], m.target)), m.source, m.shardId, None),
                       Finished(m.Moved(Committing), Cleaned)), s)
  {
    hide WithRoot, ValidMember, OwnershipAccepted, Handed;
  }

  /** Only migration records and roots differ, and the migration still is of the same shard. */
  ghost predicate Along(w: World, w': World, m: MigrationRec, id: string) {
    && w'.shards == w.shards && w'.nodes == w.nodes && Tidy(w') && id in w'.migs && SameSubject(m, w'.migs[id])
  }

  lemma AlongIsCurrent(cfg: Config, w: World, w': World, shardId: string, target: string, id: string)
    requires Tidy(w) && Clear(cfg, w, shardId, target)
    requires Along(w, w', Fresh(cfg, w.shards[shardId], target, id), id)
    ensures Current(w', id) && w'.migs[id].shardId == shardId && w'.migs[id].target == target
    ensures w'.migs[id].source == w.shards[shardId].nodeId
    ensures ValidMember(cfg, w', target)
    ensures OwnershipAccepted(w', Handed(w'.shards[shardId], target), Quiet)
  {
  }

  /** Creation and preparation. */
  lemma PreparedUndisturbed(cfg: Config, w: World, shardId: string, target: string, id: string) returns (w1: World, w2: World)
    requires Tidy(w) && Clear(cfg, w, shardId, target) && id !in w.migs
    ensures var s := w.shards[shardId];
      && Succeeds(cfg, w, CreateCall(s.namespace, shardId, target, id, Quiet), w1, shardId)
      && Succeeds(cfg, w1, PrepareCall(id, Quiet), w2, shardId)
    ensures var m := Fresh(cfg, w.shards[shardId], target, id);
      Along(w, w2, m, id) && w2.migs[id] == m.Moved(Preparing) && w2.roots == w.roots
  {
    var s := w.shards[shardId];
    var m := Fresh(cfg, s, target, id);
    CreateDone(cfg, w, shardId, target, id);
    w1 := WithMig(w, m);
    AlongIsCurrent(cfg, w, w1, shardId, target, id);
    PrepareDone(cfg, w1, id, shardId);
    w2 := WithMig(w1, m.Moved(Preparing));
    hide Succeeds, Clear, Current, ValidMember, OwnershipAccepted;
  }

  /** The copy. */
  lemma CopiedUndisturbed(cfg: Config, w: World, w2: World, shardId: string, target: string, id: string, root: Root)
    returns (w3: World)
    requires cfg.layout.Separate() && Tidy(w) && RootsValid(w) && Clear(cfg, w, shardId, target)
    requires var m := Fresh(cfg, w.shards[shardId], target, id);
      Along(w, w2, m, id) && w2.migs[id] == m.Moved(Preparing) && w2.roots == w.roots
    requires IsImage(root, Content(cfg, w, w.shards[shardId].nodeId, shardId))
    ensures Succeeds(cfg, w2, StartCopyCall(id, Lands(root)), w3, shardId)
    ensures var m := Fresh(cfg, w.shards[shardId], target, id);
      && ReadyToCopy(cfg, w2, id) && Along(w, w3, m, id)
      && w3.migs[id] == CopiedRec(m.Moved(Preparing), DigestOf(Content(cfg, w, m.source, shardId)))
      && RootAt(cfg, w3, target, shardId) == root && RootAt(cfg, w3, m.source, shardId) == RootAt(cfg, w, m.source, shardId)
  {
    var m := Fresh(cfg, w.shards[shardId], target, id);
    AlongIsCurrent(cfg, w, w2, shardId, target, id);
    CopyDone(cfg, w2, id, root, shardId);
    WithRootShape(cfg, w2, target, shardId, Some(root));
    WithRootTouches(cfg, w2, target, shardId, Some(root));
    w3 := WithMig(WithRoot(cfg, w2, target, shardId, Some(root)),
                  CopiedRec(m.Moved(Preparing), DigestOf(Content(cfg, w, m.source, shardId))));
    hide WithRoot, Succeeds, LogicalOf, DigestOf, Clear, Current, ValidMember, OwnershipAccepted, Handed, IsImage;
  }

  /** Verification and commit. */
  lemma CommittedUndisturbed(cfg: Config, w: World, w3: World, shardId: string, target: string, id: string, l: Logical)
    returns (w4: World, w5: World)
    requires cfg.layout.Separate() && Tidy(w) && Clear(cfg, w, shardId, target) && Keyed(l.records)
    requires var m := Fresh(cfg, w.shards[shardId], target, id);
      Along(w, w3, m, id) && w3.migs[id] == CopiedRec(m.Moved(Preparing), DigestOf(l))
    requires IsImage(RootAt(cfg, w3, target, shardId), l)
    ensures Succeeds(cfg, w3, VerifyCall(id, Quiet), w4, shardId) && Succeeds(cfg, w4, CommitCall(id, Quiet), w5, shardId)
    ensures ReadyToCommit(cfg, w4, id) && w4.migs[id].target == target && w4.migs[id].shardId == shardId && w4.roots == w3.roots
    ensures w4.shards == w.shards && w4.nodes == w.nodes
    ensures w5.shards == w.shards[shardId := Handed(w.shards[shardId], target)]
    ensures RootAt(cfg, w5, target, shardId) == RootAt(cfg, w3, target, shardId)
    ensures RootAt(cfg, w5, w.shards[shardId].nodeId, shardId) == EmptyRoot
    ensures id in w5.migs && w5.migs[id].state == Completed && w5.migs[id].finalized
    ensures w5.migs[id].sourceDigest == w5.migs[id].targetDigest == Some(DigestOf(l))
  {
    var s := w.shards[shardId];
    AlongIsCurrent(cfg, w, w3, shardId, target, id);
    VerifyDone(cfg, w3, id, l, shardId);
    w4 := WithMig(w3, w3.migs[id].Moved(Verifying));
    AlongIsCurrent(cfg, w, w4, shardId, target, id);
    CommitDone(cfg, w4, id, shardId);
    var owned := WithShard(w4, Handed(s, target));
    WithRootShape(cfg, owned, s.nodeId, shardId, None);
    WithRootTouches(cfg, owned, s.nodeId, shardId, None);
    w5 := WithMig(WithRoot(cfg, owned, s.nodeId, shardId, None), Finished(w4.migs[id].Moved(Committing), Cleaned));
    hide WithRoot, Succeeds, LogicalOf, DigestOf, IsImage, Current, ValidMember, OwnershipAccepted, Handed;
  }

  lemma StoredIsValid(cfg: Config, w: World, node: string, shard: string)
    requires RootsValid(w)
    ensures RootAt(cfg, w, node, shard).Valid()
  {
  }

  /** From any world in which nothing stands in the way, with an import that did its work, the
      five calls succeed one after the other. At the end the target owns the shard and holds what
      the source held, the source's root is gone, and the record is COMPLETED, finalized, with both
      digests of that content. Every call is a careful one. */
  lemma UndisturbedMigrationCompletes(cfg: Config, w: World, shardId: string, target: string, id: string, root: Root)
    returns (w1: World, w2: World, w3: World, w4: World, w5: World)
    requires cfg.layout.Separate() && Tidy(w) && RootsValid(w) && Clear(cfg, w, shardId, target) && id !in w.migs
    requires IsImage(root, Content(cfg, w, w.shards[shardId].nodeId, shardId))
    ensures var s := w.shards[shardId];
      && Succeeds(cfg, w, CreateCall(s.namespace, shardId, target, id, Quiet), w1, shardId)
      && Succeeds(cfg, w1, PrepareCall(id, Quiet), w2, shardId)
      && Succeeds(cfg, w2, StartCopyCall(id, Lands(root)), w3, shardId)
      && Succeeds(cfg, w3, VerifyCall(id, Quiet), w4, shardId)
      && Succeeds(cfg, w4, CommitCall(id, Quiet), w5, shardId)
    ensures ReadyToCopy(cfg, w2, id) && w2.migs[id].target == target && w2.migs[id].shardId == shardId
    ensures w2.shards == w.shards && w2.roots == w.roots
    ensures ReadyToCommit(cfg, w4, id) && w4.migs[id].target == target && w4.migs[id].shardId == shardId
    ensures w4.shards == w.shards && w4.nodes == w.nodes
    ensures RootAt(cfg, w4, w.shards[shardId].nodeId, shardId) == RootAt(cfg, w, w.shards[shardId].nodeId, shardId)
    ensures RootAt(cfg, w4, target, shardId) == root
    ensures var content := Content(cfg, w, w.shards[shardId].nodeId, shardId);
      && w5.shards == w.shards[shardId := Handed(w.shards[shardId], target)]
      && Content(cfg, w5, target, shardId) == content
      && RootAt(cfg, w5, w.shards[shardId].nodeId, shardId) == EmptyRoot
      && id in w5.migs && w5.migs[id].state == Completed && w5.migs[id].finalized
      && w5.migs[id].sourceDigest == w5.migs[id].targetDigest == Some(DigestOf(content))
  {
    hide Succeeds, LogicalOf, DigestOf, Handed, Layout.Separate, ReadyToCopy, ReadyToCommit, RootsValid, StoredRoot, ValidMember,
         MemberError, Root.Valid;
    var node := w.shards[shardId].nodeId;
    assert RootAt(cfg, w, node, shardId).Valid() by { StoredIsValid(cfg, w, node, shardId); }
    LogicalIsSane(RootAt(cfg, w, node, shardId));
    w1, w2 := PreparedUndisturbed(cfg, w, shardId, target, id);
    w3 := CopiedUndisturbed(cfg, w, w2, shardId, target, id, root);
    w4, w5 := CommittedUndisturbed(cfg, w, w3, shardId, target, id, Content(cfg, w, node, shardId));
    hide Along;
  }

  /** Calls that succeed one after the other are a run, and a careful one. */
  lemma SuccessesAreARun(cfg: Config, ws: seq<World>, steps: seq<Step>, s: string)
    requires |ws| == |steps| + 1 && Tidy(ws[0])
    requires forall i :: 0 <= i < |steps| ==> Succeeds(cfg, ws[i], steps[i], ws[i + 1], s)
    ensures IsRun(cfg, ws, steps)
    ensures (forall id :: Live(ws[0], id) ==> ws[0].migs[id].shardId != s) ==> CarefulRun(ws, steps, s)
  {
    hide Enabled, Run1, Careful;
    forall i | 0 <= i < |steps|
      ensures Enabled(cfg, ws[i], steps[i]) && ws[i + 1] == Next(cfg, ws[i], steps[i]) && Careful(ws[i], steps[i], s)
    {
      assert Succeeds(cfg, ws[i], steps[i], ws[i + 1], s);
    }
  }
}
