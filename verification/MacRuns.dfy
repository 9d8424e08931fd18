/** The macOS skeleton over whole runs. */
module MacRuns {
  import opened Text
  import opened TmpPath
  import opened FsState
  import opened FsTree
  import opened FsPaths
  import opened FsReach
  import opened FsOps
  import opened FsWellFormed
  import opened FsEdits
  import opened FsIsolation
  import opened FsScaffold
  import opened MacTree

  /** The skeleton and the two aliases are among the kept nodes. */
  ghost predicate KeepsMac(s: Fs, a: Skeleton, keep: set<nat>) {
    && Covers(s, keep)
    && a.priv in keep && a.vari in keep && a.anchor in keep && a.anchorVar in keep && a.tmp in keep && a.varTmp in keep
    && Valid(s, ROOT) && TMP in s.nodes[ROOT].children && VAR in s.nodes[ROOT].children
    && s.nodes[ROOT].children[TMP] in keep && s.nodes[ROOT].children[VAR] in keep
  }

  lemma KeptDirEntry(s: Fs, s': Fs, keep: set<nat>, p: nat, k: Bytes, n: nat)
    requires Kept(s, s', keep) && n in keep && EntryIs(s, p, k, n)
    ensures EntryIs(s', p, k, n) && Linked(s', n) && (IsDir(s, n) ==> IsDir(s', n))
    ensures Plain(s, n) ==> Plain(s', n)
  {
    EntryFacts(s, p, k, n);
    SupportsSelf(s, keep, n);
    SupportsUp(s, keep, n);
    KeptEntry(s, s', keep, p, k, n);
    KeptStill(s, s', keep, p);
    KeptPlace(s, s', keep, n);
  }

  lemma KeptLink(s: Fs, s': Fs, keep: set<nat>, k: Bytes, target: Bytes)
    requires Kept(s, s', keep) && LinkIs(s, ROOT, k, target) && s.nodes[ROOT].children[k] in keep
    ensures LinkIs(s', ROOT, k, target) && s'.nodes[ROOT].children[k] == s.nodes[ROOT].children[k]
  {
    var n := s.nodes[ROOT].children[k];
    KeptDirEntry(s, s', keep, ROOT, k, n);
    SupportsSelf(s, keep, n);
    assert Pinned(s, s', n);
  }

  lemma KeptAnchor(s: Fs, s': Fs, keep: set<nat>, n: nat)
    requires Kept(s, s', keep) && n in keep && Linked(s, n)
    ensures Ends(s, Reported(Physical), n) && Ends(s', Reported(Physical), n) && Linked(s', n)
    ensures FullPath(s', Physical, n) == FullPath(s, Physical, n)
  {
    SupportsSelf(s, keep, n);
    KeptNames(s, s', keep, n);
  }

  /** No further mount target appears. */
  lemma KeptTargets(s: Fs, s': Fs, keep: set<nat>, a: Skeleton)
    requires Kept(s, s', keep) && Valid(s, a.tmp) && Valid(s, a.varTmp)
    requires forall n :: 0 <= n < |s.nodes| && s.nodes[n].virtualParent.Some? ==> n == a.tmp || n == a.varTmp
    ensures forall n :: 0 <= n < |s'.nodes| && s'.nodes[n].virtualParent.Some? ==> n == a.tmp || n == a.varTmp
    ensures SameMounts(s.nodes[a.tmp], s'.nodes[a.tmp]) && SameMounts(s.nodes[a.varTmp], s'.nodes[a.varTmp])
  {
    forall n | 0 <= n < |s'.nodes| && s'.nodes[n].virtualParent.Some? ensures n == a.tmp || n == a.varTmp {
      assert MountStays(s, s', n);
    }
    assert MountStays(s, s', a.tmp) && MountStays(s, s', a.varTmp);
  }

  lemma KeptMac(s: Fs, s': Fs, keep: set<nat>, root: Bytes, a: Skeleton)
    requires Mac(s, root, a) && KeepsMac(s, a, keep) && Kept(s, s', keep)
    ensures Mac(s', root, a) && KeepsMac(s', a, keep)
  {
    KeptScaffold(s, s', keep);
    KeptCovers(s, s', keep);
    KeptDirEntry(s, s', keep, ROOT, PRIVATE, a.priv);
    KeptDirEntry(s, s', keep, a.priv, VAR, a.vari);
    KeptDirEntry(s, s', keep, a.anchor, VAR, a.anchorVar);
    KeptDirEntry(s, s', keep, a.anchor, TMP, a.tmp);
    KeptDirEntry(s, s', keep, a.anchorVar, TMP, a.varTmp);
    KeptLink(s, s', keep, TMP, PRIVATE_TMP);
    KeptLink(s, s', keep, VAR, PRIVATE_VAR);
    KeptTargets(s, s', keep, a);
    KeptAnchor(s, s', keep, a.anchor);
  }

  /** The host temp directories stay the mountpoints. */
  lemma KeptTemps(s: Fs, s': Fs, keep: set<nat>, a: Skeleton)
    requires IsDir(s, a.priv) && IsDir(s, a.vari) && Covers(s, keep) && Kept(s, s', keep) && HostTemps(s, a)
    ensures HostTemps(s', a)
  {
    assert NodeClosed(s.nodes[a.priv], |s.nodes|) && NodeClosed(s.nodes[a.vari], |s.nodes|);
    KeptTemp(s, s', keep, a.priv);
    KeptTemp(s, s', keep, a.vari);
    forall n | 0 <= n < |s'.nodes|
      ensures s'.nodes[n].mountedBy.Some? <==> n == HostTemp(s', a, TmpSub) || n == HostTemp(s', a, VarTmpSub)
    {
      assert MountStays(s, s', n);
    }
  }

  lemma KeptTemp(s: Fs, s': Fs, keep: set<nat>, p: nat)
    requires Kept(s, s', keep) && Covers(s, keep) && IsDir(s, p) && TMP in s.nodes[p].children
    requires NodeClosed(s.nodes[p], |s.nodes|) && s.nodes[s.nodes[p].children[TMP]].mountedBy.Some?
    ensures Valid(s', p) && TMP in s'.nodes[p].children && s'.nodes[p].children[TMP] == s.nodes[p].children[TMP]
  {
    KeptDirEntry(s, s', keep, p, TMP, s.nodes[p].children[TMP]);
  }

  /** Over a whole safe run the tree stays a macOS tree for the same root, so that what the
      mapper promises holds in every state the run reaches. */
  lemma {:induction false} RunMac(s: Fs, root: Bytes, a: Skeleton, keep: set<nat>, ops: seq<Op>)
    requires Mac(s, root, a) && KeepsMac(s, a, keep) && SafeRun(s, keep, ops)
    ensures Mac(After(s, ops), root, a) && (HostTemps(s, a) ==> HostTemps(After(s, ops), a)) && After(s, ops).fold == s.fold
    decreases |ops|
  {
    if ops != [] {
      StepKeeps(s, keep, ops[0]);
      if HostTemps(s, a) {
        KeptTemps(s, Apply(s, ops[0]).0, keep, a);
      }
      KeptMac(s, Apply(s, ops[0]).0, keep, root, a);
      RunMac(Apply(s, ops[0]).0, root, a, keep, ops[1..]);
    }
  }
}
