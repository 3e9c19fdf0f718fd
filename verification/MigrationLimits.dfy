/** Where the protocol does lose data: each hypothesis of the data theorems, dropped alone. */
module MigrationLimits {
  import opened Wrappers
  import opened Records
  import opened Recovery
  import opened Transfer
  import opened Protocol
  import opened StaleGuard
  import opened DataSafety

  /** Verified, still current, and nothing in the way of the ownership commit. */
  ghost predicate ReadyToCommit(cfg: Config, w: World, id: string) {
    && Tidy(w) && Current(w, id) && w.migs[id].state == Verifying && w.migs[id].source != w.migs[id].target
    && ValidMember(cfg, w, w.migs[id].target)
    && OwnershipAccepted(w, Handed(w.shards[w.migs[id].shardId], w.migs[id].target), Quiet)
  }

  /** Prepared, still current, and nothing in the way of copy and commit. */
  ghost predicate ReadyToCopy(cfg: Config, w: World, id: string) {
    && Tidy(w) && Current(w, id) && w.migs[id].state == Preparing && w.migs[id].source != w.migs[id].target
    && w.migs[id].sourceDigest == None && ValidMember(cfg, w, w.migs[id].target)
    && OwnershipAccepted(w, Handed(w.shards[w.migs[id].shardId], w.migs[id].target), Quiet)
  }

  /** The target is the owner now, and it holds what was found there. */
  ghost predicate HandedOverAs(cfg: Config, w: World, id: string, l: Logical) {
    && id in w.migs && w.migs[id].state == Completed && w.migs[id].shardId in w.shards
    && w.shards[w.migs[id].shardId].nodeId == w.migs[id].target
    && Content(cfg, w, w.migs[id].target, w.migs[id].shardId) == l
  }

  lemma CommitHandsOverWhatItFinds(cfg: Config, w: World, id: string)
    requires cfg.layout.Separate() && ReadyToCommit(cfg, w, id)
    ensures Enabled(cfg, w, CommitCall(id, Quiet))
    ensures HandedOverAs(cfg, Next(cfg, w, CommitCall(id, Quiet)), id, Content(cfg, w, w.migs[id].target, w.migs[id].shardId))
  {
    var m := w.migs[id];
    var w' := Next(cfg, w, CommitCall(id, Quiet));
    hide LogicalOf, Layout.Dir, OwnershipAccepted, ValidMember, Without;
    assert cfg.layout.Dir(m.source) != cfg.layout.Dir(m.target);
    assert RootAt(cfg, w', m.target, m.shardId) == RootAt(cfg, w, m.target, m.shardId);
  }

  /** An ACTIVE shard keeps taking writes behind the copy; the commit then drops them. */
  lemma WriteBehindTheCopyIsLost(cfg: Config, w: World, id: string, op: Op, root: Root)
    requires cfg.layout.Separate() && ReadyToCommit(cfg, w, id)
    requires var m := w.migs[id];
      && Content(cfg, w, m.target, m.shardId) == Content(cfg, w, m.source, m.shardId)
      && Enabled(cfg, w, WriteCall(m.source, m.shardId, op, root))
      && Apply(Content(cfg, w, m.source, m.shardId), op) != Content(cfg, w, m.source, m.shardId)
    ensures var m := w.migs[id];
      var written := Next(cfg, w, WriteCall(m.source, m.shardId, op, root));
      && Enabled(cfg, written, CommitCall(id, Quiet))
      && HandedOverAs(cfg, Next(cfg, written, CommitCall(id, Quiet)), id, Content(cfg, w, m.source, m.shardId))
      && Content(cfg, written, m.source, m.shardId) != Content(cfg, w, m.source, m.shardId)
  {
    var m := w.migs[id];
    var written := Next(cfg, w, WriteCall(m.source, m.shardId, op, root));
    WithRootShape(cfg, w, m.source, m.shardId, Some(root));
    OtherRoot(cfg, w, m.source, m.shardId, Some(root), m.target);
    assert ReadyToCommit(cfg, written, id);
    CommitHandsOverWhatItFinds(cfg, written, id);
    hide Next, LogicalOf, Layout.Dir;
  }

  lemma OtherRoot(cfg: Config, w: World, node: string, shard: string, root: Option<Root>, other: string)
    requires cfg.layout.Separate()
    ensures var w' := WithRoot(cfg, w, node, shard, root);
      && RootAt(cfg, w', node, shard) == (if root.Some? then root.value else EmptyRoot)
      && (other != node ==> RootAt(cfg, w', other, shard) == RootAt(cfg, w, other, shard))
  {
    hide Layout.Dir;
  }

  lemma UncheckedVerify(cfg: Config, w: World, id: string)
    requires Tidy(w) && Current(w, id) && w.migs[id].state == Copying && w.migs[id].sourceDigest == None
    ensures var a := Run1(cfg, w, VerifyCall(id, Quiet));
      && a.outcome == Done && a.world.roots == w.roots && a.world.shards == w.shards && a.world.nodes == w.nodes
      && a.world.migs.Keys == w.migs.Keys && Tidy(a.world)
      && a.world.migs[id].state == Verifying && SameSubject(w.migs[id], a.world.migs[id])
  {
    hide DigestOf, LogicalOf, RootAt;
  }

  /** A process that dies inside `start_copy` leaves COPYING without a digest; verification then
      checks nothing and the commit hands over whatever the torn import left. */
  lemma TornCopyIsCommitted(cfg: Config, w: World, id: string, left: Root)
    requires cfg.layout.Separate() && ReadyToCopy(cfg, w, id) && left.Valid()
    ensures Enabled(cfg, w, CrashInCopy(id, Some(left)))
    ensures var cut := Next(cfg, w, CrashInCopy(id, Some(left)));
      && Enabled(cfg, cut, VerifyCall(id, Quiet))
      && Run1(cfg, cut, VerifyCall(id, Quiet)).outcome == Done
      && (var verified := Next(cfg, cut, VerifyCall(id, Quiet));
          && Enabled(cfg, verified, CommitCall(id, Quiet))
          && HandedOverAs(cfg, Next(cfg, verified, CommitCall(id, Quiet)), id, LogicalOf(left)))
  {
    CutLeavesCopying(cfg, w, id, left);
    var cut := Next(cfg, w, CrashInCopy(id, Some(left)));
    hide Next, CrashesInto, Enabled;
    CutCopyIsCommitted(cfg, w, cut, id, left);
  }

  /** What is left of a copy whose process died: COPYING, no digest, a torn root at the target. */
  ghost predicate CrashesInto(cfg: Config, w: World, cut: World, id: string, left: Root)
    requires id in w.migs
  {
    && Tidy(cut) && Current(cut, id) && SameSubject(w.migs[id], cut.migs[id])
    && cut.shards == w.shards && cut.nodes == w.nodes
    && cut.migs[id].state == Copying && cut.migs[id].sourceDigest == None
    && RootAt(cfg, cut, w.migs[id].target, w.migs[id].shardId) == left
  }

  lemma CutLeavesCopying(cfg: Config, w: World, id: string, left: Root)
    requires cfg.layout.Separate() && Tidy(w) && Current(w, id) && left.Valid()
    requires w.migs[id].state == Preparing && w.migs[id].sourceDigest == None
    ensures Enabled(cfg, w, CrashInCopy(id, Some(left)))
    ensures CrashesInto(cfg, w, Next(cfg, w, CrashInCopy(id, Some(left))), id, left)
  {
    var m := w.migs[id];
    WithRootShape(cfg, w, m.target, m.shardId, Some(left));
    OtherRoot(cfg, w, m.target, m.shardId, Some(left), m.source);
    hide WithRoot, Layout.Dir;
  }

  lemma CutCopyIsCommitted(cfg: Config, w: World, cut: World, id: string, left: Root)
    requires cfg.layout.Separate() && Current(w, id) && CrashesInto(cfg, w, cut, id, left)
    requires w.migs[id].source != w.migs[id].target && ValidMember(cfg, w, w.migs[id].target)
    requires OwnershipAccepted(w, Handed(w.shards[w.migs[id].shardId], w.migs[id].target), Quiet)
    ensures Enabled(cfg, cut, VerifyCall(id, Quiet)) && Run1(cfg, cut, VerifyCall(id, Quiet)).outcome == Done
    ensures var verified := Next(cfg, cut, VerifyCall(id, Quiet));
      && Enabled(cfg, verified, CommitCall(id, Quiet))
      && HandedOverAs(cfg, Next(cfg, verified, CommitCall(id, Quiet)), id, LogicalOf(left))
  {
    UncheckedVerify(cfg, cut, id);
    var verified := Next(cfg, cut, VerifyCall(id, Quiet));
    hide LogicalOf, DigestOf, Layout.Dir, WithRoot, Without, Handed, Verify;
    assert ReadyToCommit(cfg, verified, id);
    CommitHandsOverWhatItFinds(cfg, verified, id);
  }

  /** A process that dies inside a cancel, after the target was discarded and before CANCELLED was
      stored, leaves VERIFYING over an empty target; the commit hands that over. */
  lemma CutCancelIsCommitted(cfg: Config, w: World, id: string)
    requires cfg.layout.Separate() && ReadyToCommit(cfg, w, id)
    ensures Enabled(cfg, w, CrashInCancel(id, None))
    ensures var cut := Next(cfg, w, CrashInCancel(id, None));
      && Enabled(cfg, cut, CommitCall(id, Quiet))
      && HandedOverAs(cfg, Next(cfg, cut, CommitCall(id, Quiet)), id, LogicalOf(EmptyRoot))
  {
    var m := w.migs[id];
    var cut := Next(cfg, w, CrashInCancel(id, None));
    WithRootShape(cfg, w, m.target, m.shardId, None);
    OtherRoot(cfg, w, m.target, m.shardId, None, m.source);
    assert ReadyToCommit(cfg, cut, id);
    CommitHandsOverWhatItFinds(cfg, cut, id);
  }

  /** Two nodes on one directory: the cleanup of the source deletes the target, so a commit keeps what
      the target held if and only if the directories differ or there was nothing to keep. */
  lemma CommitKeepsTargetIff(cfg: Config, w: World, id: string)
    requires ReadyToCommit(cfg, w, id)
    ensures Enabled(cfg, w, CommitCall(id, Quiet))
    ensures var m := w.migs[id];
      HandedOverAs(cfg, Next(cfg, w, CommitCall(id, Quiet)), id, Content(cfg, w, m.target, m.shardId))
      <==> cfg.layout.Dir(m.source) != cfg.layout.Dir(m.target) || Content(cfg, w, m.target, m.shardId) == LogicalOf(EmptyRoot)
  {
    var m := w.migs[id];
    var w' := Next(cfg, w, CommitCall(id, Quiet));
    hide LogicalOf, Layout.Dir, OwnershipAccepted, ValidMember, Without;
    if cfg.layout.Dir(m.source) == cfg.layout.Dir(m.target) {
      assert RootAt(cfg, w', m.target, m.shardId) == EmptyRoot;
    } else {
      assert RootAt(cfg, w', m.target, m.shardId) == RootAt(cfg, w, m.target, m.shardId);
    }
  }
}
