/** Trees on which the mapper strays: the inputs of `RefinementLimits` occur, each in a new model or
    after one call. */
module RefinementExamples {
  import opened Text
  import opened TmpPath
  import opened FsState
  import opened FsTree
  import opened FsOps
  import opened FsWellFormed
  import opened FsEdits
  import opened FsScaffold
  import opened FsScript
  import opened MacTree
  import opened MacRuns
  import opened FsFresh
  import opened FsCycle
  import opened RefinementLimits

  /** A new model that folds case. */
  lemma FoldOccurs(root: seq<Bytes>, resolve: Resolver)
    requires NewRoot(root, true)
    ensures Closed(MacFresh(root, true)) && HostTemps(MacFresh(root, true), FreshSkeleton(root))
    ensures Strays(MacFresh(root, true), Slashed(root), FreshSkeleton(root), SLASH_UPPER, resolve, 1)
  {
    FreshMac(root, true);
    FoldStrays(MacFresh(root, true), Slashed(root), FreshSkeleton(root), resolve);
  }

  // ----- after one `symlink` -----

  /** A name that is free at the root of a new model. */
  predicate FreeName(root: seq<Bytes>, r: Bytes) {
    IsName(r) && |r| <= NAME_MAX && r !in {TMP, VAR, PRIVATE} && root != [] && r != root[0]
  }

  function Linking(r: Bytes, target: Bytes): Op {
    SymlinkOp(target, [SLASH] + r)
  }

  lemma LinkDecides(root: seq<Bytes>, r: Bytes, target: Bytes)
    requires NewRoot(root, false) && FreeName(root, r) && 0 < |target| < PATH_MAX && WellFormed(MacFresh(root, false))
    ensures Decide(MacFresh(root, false), Linking(r, target)) == Ok(Create(ROOT, r, Symlink(target), None), 0)
  {
    var s := MacFresh(root, false);
    FormedReady(s);
    assert s.nodes[ROOT] == MacNode(root, ROOT);
    TopParent(s, r);
    LinkedLive(s, ROOT);
  }

  /** It is still a macOS tree, with the link in it. */
  lemma LinkedTree(root: seq<Bytes>, r: Bytes, target: Bytes) returns (s: Fs)
    requires NewRoot(root, false) && FreeName(root, r) && 0 < |target| < PATH_MAX
    ensures WellFormed(MacFresh(root, false)) && s == Apply(MacFresh(root, false), Linking(r, target)).0
    ensures Mac(s, Slashed(root), FreshSkeleton(root)) && HostTemps(s, FreshSkeleton(root)) && LinkIs(s, ROOT, r, target)
  {
    var s0, a := MacFresh(root, false), FreshSkeleton(root);
    FreshMac(root, false);
    LinkDecides(root, r, target);
    var e := Create(ROOT, r, Symlink(target), None);
    CallApplies(s0, Linking(r, target), e);
    s := Do(s0, e);
    LinkMade(s0, r, target);
    MakeKeeps(s0, e, Slashed(root), a);
  }

  lemma LinkMade(s: Fs, r: Bytes, target: Bytes)
    requires IsDir(s, ROOT)
    ensures LinkIs(Do(s, Create(ROOT, r, Symlink(target), None)), ROOT, r, target)
  {
  }

  /** Creating leaves the skeleton in place. */
  lemma MakeKeeps(s: Fs, e: Edit, root: Bytes, a: Skeleton)
    requires Mac(s, root, a) && HostTemps(s, a) && e.Create? && Legal(s, e)
    ensures CanDo(s, e) && Mac(Do(s, e), root, a) && HostTemps(Do(s, e), a)
  {
    var keep := set n: nat | 0 <= n < |s.nodes| && Valid(s, n);
    EditKeeps(s, keep, e);
    StillMac(s, Do(s, e), root, a, keep);
  }

  lemma StillMac(s: Fs, s': Fs, root: Bytes, a: Skeleton, keep: set<nat>)
    requires Mac(s, root, a) && HostTemps(s, a) && Kept(s, s', keep) && forall n: nat :: n in keep <==> Valid(s, n)
    ensures Mac(s', root, a) && HostTemps(s', a)
  {
    KeepsAll(s, root, a, keep);
    KeptMac(s, s', keep, root, a);
    KeptTemps(s, s', keep, a);
  }

  /** A new model in which `/r` was made a link to `/`. */
  lemma RootLinkOccurs(root: seq<Bytes>, r: Bytes, resolve: Resolver) returns (s: Fs)
    requires NewRoot(root, false) && FreeName(root, r)
    ensures WellFormed(MacFresh(root, false)) && s == Apply(MacFresh(root, false), Linking(r, [SLASH])).0
    ensures WellFormed(s) && HostTemps(s, FreshSkeleton(root))
    ensures Strays(s, Slashed(root), FreshSkeleton(root), Slashed([r, TMP]), resolve, 2)
  {
    s := LinkedTree(root, r, [SLASH]);
    RootLinkStrays(s, Slashed(root), FreshSkeleton(root), r, resolve);
  }

  /** A new model in which `/r` was made a link to the private `tmp` by its physical name. */
  lemma PrivateLinkOccurs(root: seq<Bytes>, r: Bytes, resolve: Resolver) returns (s: Fs)
    requires NewRoot(root, false) && FreeName(root, r) && |Slashed(root)| + 4 < PATH_MAX
    ensures WellFormed(MacFresh(root, false)) && s == Apply(MacFresh(root, false), Linking(r, Slashed(root) + SLASH_TMP)).0
    ensures WellFormed(s) && MapWith(Slashed(root), UpFrom(r), PATH_MAX, resolve) == Run(Unchanged, [])
    ensures var a := FreshSkeleton(root);
            && a.priv != a.anchor
            && Resolve(s, Virtual, ROOT, UpFrom(r), true, 0) == Found(a.priv, 1)
            && Resolve(s, Physical, ROOT, UpFrom(r), true, 0) == Found(a.anchor, 1)
  {
    s := LinkedTree(root, r, Slashed(root) + SLASH_TMP);
    PrivateLinkStrays(s, Slashed(root), FreshSkeleton(root), r, resolve);
  }
}
