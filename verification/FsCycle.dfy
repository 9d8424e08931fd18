/** Why the guard is needed: a run that the model allows and after which `getcwd` never returns. */
module FsCycle {
  import opened Text
  import opened TmpPath
  import opened FsState
  import opened FsTree
  import opened FsPaths
  import opened FsReach
  import opened FsOps
  import opened FsWellFormed
  import opened FsEdits
  import opened FsIsolation
  import opened FsScaffold
  import opened FsScript
  import opened FsEnds
  import opened MacTree
  import opened MacRuns
  import opened FsFresh

  const PRIVATE_PATH: Bytes := [SLASH] + PRIVATE

  /** The text of `/tmp/name`. */
  function InTmp(name: Bytes): Bytes {
    [SLASH] + TMP + [SLASH] + name
  }

  // ----- the lookups of the run -----

  /** What the run needs of the tree. */
  ghost predicate Ring(s: Fs, priv: nat, tmp: nat) {
    && Scaffold(s) && s.profile.MacShim? && IsDir(s, priv) && IsDir(s, tmp)
    && EntryIs(s, ROOT, PRIVATE, priv) && LinkIs(s, ROOT, TMP, PRIVATE_TMP)
    && Listed(s, Virtual, priv, ROOT, PRIVATE) && Listed(s, Virtual, tmp, priv, TMP)
    && Linked(s, tmp) && Visible(s, tmp)
    && s.nodes[tmp].virtualParent == Some(priv) && s.nodes[priv].virtualParent.None?
  }

  lemma MacRing(s: Fs, root: Bytes, a: Skeleton)
    requires Mac(s, root, a)
    ensures Ring(s, a.priv, a.tmp)
  {
    MacListed(s, root, a);
    PlainUp(s, a.priv);
  }

  lemma TmpFound(s: Fs, priv: nat, tmp: nat)
    requires Ring(s, priv, tmp) && Ready(s)
    ensures Find(s, Cwd, [SLASH] + TMP, true) == Found(tmp, 1)
  {
    RailNames();
    RailKeys();
    CompsLeading(TMP);
    CompsSingle(TMP);
    AliasLeads(s, priv, TMP, tmp, 1);
    VisibleSelf(s, tmp);
    AliasOnce(s, tmp);
  }

  lemma AliasOnce(s: Fs, n: nat)
    requires Scaffold(s) && s.profile.MacShim? && LinkIs(s, ROOT, TMP, PRIVATE_TMP) && Key(s, TMP) == TMP
    requires Resolve(s, Virtual, ROOT, PRIVATE_TMP, true, 1) == Found(n, 1) && FsState.Enter(s, Virtual, n) == n
    ensures Walk(s, Virtual, ROOT, [TMP], true, false, 0) == Found(n, 1)
  {
    assert [TMP][1..] == [];
    assert NodeOk(s, ROOT);
    assert FollowLink(s, Virtual, ROOT, s.nodes[ROOT].children[TMP], 0) == Found(n, 1);
    assert Step(s, Virtual, ROOT, TMP, true, false, 0) == Found(n, 1);
  }

  // ----- the rename -----

  lemma Parents(s: Fs, priv: nat, tmp: nat, name: Bytes)
    requires Ring(s, priv, tmp) && IsName(name) && |name| <= NAME_MAX && Ready(s)
    ensures FindParent(s, Cwd, PRIVATE_PATH) == At(ROOT, PRIVATE, false) && FindParent(s, Cwd, InTmp(name)) == At(tmp, name, false)
    ensures !IsRootOperand(PRIVATE_PATH) && !IsRootOperand(InTmp(name))
  {
    RailNames();
    RailKeys();
    SplitLastOf([], PRIVATE);
    assert [] + [SLASH] + PRIVATE == PRIVATE_PATH;
    SplitLastOf([SLASH] + TMP, name);
    RootFound(s);
    TmpFound(s, priv, tmp);
    assert NodeOk(s, ROOT);
    assert [SLASH] + TMP != DOT by { assert |[SLASH] + TMP| == 4; }
  }

  /** Every check of `rename` lets the move of `/private` into the private `/tmp` through. */
  lemma RenameDecides(s: Fs, priv: nat, tmp: nat, name: Bytes)
    requires Ring(s, priv, tmp) && IsName(name) && |name| <= NAME_MAX
    requires priv !in Chain(s, FsTree.Owner, tmp) && Key(s, name) !in s.nodes[tmp].children
    ensures DoRename(s, PRIVATE_PATH, InTmp(name)) == Ok(Move(ROOT, PRIVATE, priv, tmp, Key(s, name)), 0)
  {
    FormedReady(s);
    assert Key(s, PRIVATE) == PRIVATE;
    Parents(s, priv, tmp, name);
    LinkedLive(s, tmp);
    RenameIs(s, At(ROOT, PRIVATE, false), At(tmp, name, false), priv, PRIVATE_PATH, InTmp(name));
  }

  // ----- the run -----

  /** The temp root does not lie in `/private`, and the name is free in the private `/tmp`. */
  ghost predicate CanCircle(s: Fs, root: Bytes, a: Skeleton, name: Bytes) {
    && Mac(s, root, a) && IsName(name) && |name| <= NAME_MAX && Valid(s, a.tmp)
    && a.priv !in Chain(s, FsTree.Owner, a.tmp)
    && Key(s, name) !in s.nodes[a.tmp].children
  }

  lemma ChdirDecides(s: Fs, priv: nat, tmp: nat)
    requires Ring(s, priv, tmp)
    ensures Decide(s, Chdir(PRIVATE_PATH)) == Ok(Edit.Enter(priv), 0)
  {
    FormedReady(s);
    RailNames();
    RailKeys();
    TopFound(s, PRIVATE, priv);
  }

  lemma ChdirApplies(s: Fs, priv: nat)
    requires WellFormed(s) && Decide(s, Chdir(PRIVATE_PATH)) == Ok(Edit.Enter(priv), 0)
    ensures Apply(s, Chdir(PRIVATE_PATH)) == (s.(cwd := priv), Returned(0, []))
  {
  }

  /** Changing the working directory leaves the tree alone. */
  lemma StillCanCircle(s: Fs, s': Fs, root: Bytes, a: Skeleton, name: Bytes)
    requires CanCircle(s, root, a, name) && s' == s.(cwd := a.priv) && WellFormed(s')
    ensures CanCircle(s', root, a, name)
  {
    var keep := set n: nat | 0 <= n < |s.nodes| && Valid(s, n);
    EnterKeeps(s, s', keep);
    KeepsAll(s, root, a, keep);
    KeptMac(s, s', keep, root, a);
    SameChain(s, s', keep, a.tmp);
  }

  lemma SameChain(s: Fs, s': Fs, keep: set<nat>, n: nat)
    requires Kept(s, s', keep) && Valid(s, n) && n in keep
    ensures Chain(s', FsTree.Owner, n) == Chain(s, FsTree.Owner, n)
  {
    SupportsSelf(s, keep, n);
    KeptChain(s, s', keep, n);
  }

  lemma KeepsAll(s: Fs, root: Bytes, a: Skeleton, keep: set<nat>)
    requires Mac(s, root, a) && forall n: nat :: n in keep <==> Valid(s, n)
    ensures KeepsMac(s, a, keep)
  {
  }

  lemma EnterKeeps(s: Fs, s': Fs, keep: set<nat>)
    requires WellFormed(s) && WellFormed(s') && s' == s.(cwd := s'.cwd)
    ensures Kept(s, s', keep)
  {
  }

  lemma PrivateAbove(s: Fs, priv: nat, tmp: nat)
    requires Ring(s, priv, tmp) && AllEnd(s)
    ensures priv in Chain(s, Reported(Virtual), tmp)
  {
    ChainUp(s, Reported(Virtual), tmp);
    assert Above(s, tmp) == Some(priv);
    assert Chain(s, Reported(Virtual), priv)[0] == priv;
  }

  lemma CwdHangs(s: Fs)
    requires WellFormed(s) && Linked(s, s.cwd) && !Ends(s, Reported(Virtual), s.cwd)
    ensures Apply(s, Getcwd).1 == Hangs
  {
    LinkedLive(s, s.cwd);
  }

  /** `/private` is reported in the private `tmp` and that in `/private`: `getcwd` goes round. */
  lemma CircleHangs(s: Fs, priv: nat, tmp: nat, e: Edit)
    requires Ring(s, priv, tmp) && s.cwd == priv && e.Move? && Legal(s, e) && e.id == priv && e.toParent == tmp
    ensures CanDo(s, e) && WellFormed(Do(s, e)) && !AllEnd(Do(s, e)) && Apply(Do(s, e), Getcwd).1 == Hangs
  {
    ScaffoldEnds(s);
    PrivateAbove(s, priv, tmp);
    MoveEnds(s, e);
    MovedLinked(s, e);
    CwdHangs(Do(s, e));
  }

  lemma MovedLinked(s: Fs, e: Edit)
    requires WellFormed(s) && e.Move? && Legal(s, e) && CanDo(s, e)
    ensures Linked(Do(s, e), e.id) && Do(s, e).cwd == s.cwd
  {
    MovedIs(s, e);
    assert NodeMoved(s, e, e.id, Do(s, e).nodes[e.id]) && NodeMoved(s, e, e.toParent, Do(s, e).nodes[e.toParent]);
    assert EntryAt(Do(s, e), e.toParent, e.toKey, e.id);
    assert HasEntry(Do(s, e), e.toParent, e.id);
  }

  function CircleRun(name: Bytes): seq<Op> {
    [Chdir(PRIVATE_PATH)] + ([Rename(PRIVATE_PATH, InTmp(name))] + [Getcwd])
  }

  lemma RenameHangs(s: Fs, priv: nat, tmp: nat, name: Bytes)
    requires Ring(s, priv, tmp) && IsName(name) && |name| <= NAME_MAX && s.cwd == priv
    requires priv !in Chain(s, FsTree.Owner, tmp) && Key(s, name) !in s.nodes[tmp].children
    ensures Outcomes(s, [Rename(PRIVATE_PATH, InTmp(name))] + [Getcwd]) == [Returned(0, []), Hangs]
  {
    var e := Move(ROOT, PRIVATE, priv, tmp, Key(s, name));
    RenameDecides(s, priv, tmp, name);
    CallApplies(s, Rename(PRIVATE_PATH, InTmp(name)), e);
    CircleHangs(s, priv, tmp, e);
    OutcomesOn(s, Rename(PRIVATE_PATH, InTmp(name)), [Getcwd], Do(s, e), Returned(0, []));
    OneOutcome(Do(s, e), Getcwd, Apply(Do(s, e), Getcwd).0, Hangs);
  }

  /** In every macOS tree whose temp root lies outside `/private`, the run chdir `/private`, rename
      `/private` to `/tmp/name`, getcwd goes through and its last call never returns. */
  lemma UnguardedCycle(s: Fs, root: Bytes, a: Skeleton, name: Bytes)
    requires CanCircle(s, root, a, name)
    ensures Outcomes(s, CircleRun(name)) == [Returned(0, []), Returned(0, []), Hangs]
  {
    MacRing(s, root, a);
    ChdirDecides(s, a.priv, a.tmp);
    ChdirApplies(s, a.priv);
    var s1 := Apply(s, Chdir(PRIVATE_PATH)).0;
    StillCanCircle(s, s1, root, a, name);
    MacRing(s1, root, a);
    RenameHangs(s1, a.priv, a.tmp, name);
    OutcomesOn(s, Chdir(PRIVATE_PATH), [Rename(PRIVATE_PATH, InTmp(name))] + [Getcwd], s1, Returned(0, []));
  }

  // ----- a new model is such a tree -----

  lemma {:induction false} AwayFromPrivate(root: seq<Bytes>, fold: bool, n: nat)
    requires NewRoot(root, fold) && WellFormed(MacFresh(root, fold)) && (n == ROOT || 7 <= n <= 7 + |root|)
    ensures 1 !in Chain(MacFresh(root, fold), FsTree.Owner, n)
  {
    var s := MacFresh(root, fold);
    ChainUp(s, FsTree.Owner, n);
    assert s.nodes[n] == MacNode(root, n);
    if n != ROOT {
      AwayFromPrivate(root, fold, s.nodes[n].parent.value);
    }
  }

  lemma FreshCircles(root: seq<Bytes>, fold: bool, name: Bytes)
    requires NewRoot(root, fold) && IsName(name) && |name| <= NAME_MAX
    ensures CanCircle(MacFresh(root, fold), Slashed(root), FreshSkeleton(root), name)
  {
    FreshMac(root, fold);
    AwayFromPrivate(root, fold, 7 + |root|);
    assert MacFresh(root, fold).nodes[7 + |root|] == MacNode(root, 7 + |root|);
  }
}
