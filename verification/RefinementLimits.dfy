/** Where the refinement ends: the inputs that its conditions leave out. */
module RefinementLimits {
  import opened Text
  import opened TmpPath
  import opened TmpPathInverse
  import opened FsState
  import opened FsTree
  import opened FsPaths
  import opened FsReach
  import opened FsTame
  import opened MacTree
  import opened MacNames
  import opened Refinement
  import opened RefinementLoop
  import opened RefinementUnchanged
  import opened RefinementMain

  const SLASH_TMP: Bytes := [SLASH] + TMP

  lemma TmpAlone()
    ensures Comps(SLASH_TMP) == [TMP] && !Trailing(SLASH_TMP) && Slashed([TMP]) == SLASH_TMP
  {
    RailNames();
    CompsLeading(TMP);
    CompsSingle(TMP);
    SlashedTwo(TMP, TMP);
  }

  /** Looked up without following it, `/tmp` is the alias in the virtual view. */
  lemma AliasItself(s: Fs)
    requires Scaffold(s) && s.profile.MacShim? && LinkIs(s, ROOT, TMP, PRIVATE_TMP)
    ensures Resolve(s, Virtual, ROOT, SLASH_TMP, false, 0) == Found(s.nodes[ROOT].children[TMP], 0)
  {
    TmpAlone();
    RailNames();
    RailKeys();
    var alias := s.nodes[ROOT].children[TMP];
    assert s.nodes[alias].mountedBy.Some? ==> MountpointOk(s, alias);
    assert Step(s, Virtual, ROOT, TMP, false, false, 0) == Found(alias, 0);
    assert [TMP][1..] == [];
    assert Walk(s, Virtual, alias, [], false, false, 0) == Found(alias, 0);
  }

  /** The physical name of an entry `tmp`. */
  lemma TmpBelow(s: Fs, p: nat, n: nat)
    requires WellFormed(s) && EntryIs(s, p, TMP, n) && Linked(s, p) && p != ROOT
    ensures Linked(s, n) && Ends(s, Reported(Physical), n) && Ends(s, Reported(Physical), p)
    ensures FullPath(s, Physical, n) == FullPath(s, Physical, p) + SLASH_TMP
  {
    EntryFacts(s, p, TMP, n);
    LinkedChain(s, n);
    LinkedChain(s, p);
    assert NodeOk(s, p) && EntryOk(s, p, TMP);
    assert NameAndParent(s, Physical, n) == Some((TMP, p));
    FullNamesUp(s, Physical, n);
    FullNamesUp(s, Physical, p);
    LinkedParent(s, p);
    TmpText(FullNames(s, Physical, p));
  }

  lemma TmpPhysical(s: Fs, root: Bytes, a: Skeleton)
    requires Mac(s, root, a) && |root| + 4 < PATH_MAX
    ensures Resolve(s, Physical, ROOT, root + SLASH_TMP, false, 0) == Found(a.tmp, 0)
  {
    TmpBelow(s, a.anchor, a.tmp);
    PhysicalSound(s, a.tmp);
    ResolveFullPath(s, Physical, ROOT, a.tmp, false);
  }

  lemma TmpText(names: seq<Bytes>)
    requires names != []
    ensures PathOf(names + [TMP]) == PathOf(names) + SLASH_TMP
  {
    SlashedAppend(names, [TMP]);
    TmpAlone();
  }

  /** But the mapper hands back the private directory: the exception is real. */
  lemma AliasDiffers(s: Fs, root: Bytes, a: Skeleton, resolve: Resolver)
    requires Mac(s, root, a) && |root| + 4 < PATH_MAX
    ensures Resolve(s, Virtual, ROOT, SLASH_TMP, false, 0) == Found(s.nodes[ROOT].children[TMP], 0)
    ensures MapWith(root, SLASH_TMP, PATH_MAX, resolve) == Run(Mapped(root + SLASH_TMP), [])
    ensures Resolve(s, Physical, ROOT, root + SLASH_TMP, false, 0) == Found(a.tmp, 0)
    ensures a.tmp != s.nodes[ROOT].children[TMP]
  {
    AliasItself(s);
    TmpPhysical(s, root, a);
    TmpAlone();
    MacListed(s, root, a);
    PlainSpells(TmpSub);
    MapsBelowRoot(root, TmpSub, [TMP], [], PATH_MAX, resolve);
    assert SLASH_TMP + Slashed([]) == SLASH_TMP;
    assert root + SubText(TmpSub) + Slashed([]) == root + SLASH_TMP;
  }

  // ----- the scanner does not see links and folded names -----

  /** Both lookups of `path` succeed, virtually in the private `tmp`, physically in the host's,
      although the mapper leaves the path unchanged. */
  ghost predicate Strays(s: Fs, root: Bytes, a: Skeleton, path: Bytes, resolve: Resolver, links: nat)
    requires Closed(s) && HostTemps(s, a)
  {
    && MapWith(root, path, PATH_MAX, resolve) == Run(Unchanged, [])
    && Resolve(s, Virtual, ROOT, path, true, 0) == Found(a.tmp, links)
    && Resolve(s, Physical, ROOT, path, true, 0) == Found(HostTemp(s, a, TmpSub), links)
    && HostTemp(s, a, TmpSub) != a.tmp
  }

  lemma HostTempIs(s: Fs, root: Bytes, a: Skeleton)
    requires Mac(s, root, a) && HostTemps(s, a)
    ensures EntryIs(s, a.priv, TMP, HostTemp(s, a, TmpSub)) && IsDir(s, HostTemp(s, a, TmpSub))
    ensures a.tmp != HostTemp(s, a, TmpSub) && s.nodes[a.priv].mountedBy.None? && s.nodes[a.tmp].mountedBy.None?
  {
    MacListed(s, root, a);
    VisibleSelf(s, a.tmp);
    VisibleSelf(s, a.priv);
    assert NodeClosed(s.nodes[a.priv], |s.nodes|);
    assert MountpointOk(s, HostTemp(s, a, TmpSub));
  }

  /** The alias, however it is spelled, leads to two places. */
  lemma AliasTwoWays(s: Fs, root: Bytes, a: Skeleton, name: Bytes, links: nat)
    requires Mac(s, root, a) && HostTemps(s, a) && links < MaxLinks(s) && |name| <= NAME_MAX && Key(s, name) == TMP && name != DOTDOT
    ensures Walk(s, Virtual, ROOT, [name], true, false, links) == Found(a.tmp, links + 1)
    ensures Walk(s, Physical, ROOT, [name], true, false, links) == Found(HostTemp(s, a, TmpSub), links + 1)
  {
    AliasEnds(s, root, a, links + 1);
    HostTempIs(s, root, a);
    AliasTo(s, Virtual, name, a.tmp, links);
    AliasTo(s, Physical, name, HostTemp(s, a, TmpSub), links);
  }

  lemma AliasEnds(s: Fs, root: Bytes, a: Skeleton, links: nat)
    requires Mac(s, root, a) && HostTemps(s, a) && links <= MaxLinks(s)
    ensures Resolve(s, Virtual, ROOT, PRIVATE_TMP, true, links) == Found(a.tmp, links)
    ensures Resolve(s, Physical, ROOT, PRIVATE_TMP, true, links) == Found(HostTemp(s, a, TmpSub), links)
  {
    HostTempIs(s, root, a);
    MacListed(s, root, a);
    AliasLeads(s, a.priv, TMP, a.tmp, links);
    AliasText(TMP);
    TwoDown(s, a.priv, TMP, HostTemp(s, a, TmpSub), links);
  }

  lemma AliasTo(s: Fs, view: View, name: Bytes, n: nat, links: nat)
    requires WellFormed(s) && LinkIs(s, ROOT, TMP, PRIVATE_TMP) && links < MaxLinks(s) && |name| <= NAME_MAX && Key(s, name) == TMP && name != DOTDOT
    requires Resolve(s, view, ROOT, PRIVATE_TMP, true, links + 1) == Found(n, links + 1) && FsState.Enter(s, view, n) == n
    ensures Walk(s, view, ROOT, [name], true, false, links) == Found(n, links + 1)
  {
    assert [name][1..] == [];
    assert FollowLink(s, view, ROOT, s.nodes[ROOT].children[TMP], links) == Found(n, links + 1);
    assert Step(s, view, ROOT, name, true, false, links) == Found(n, links + 1);
  }

  /** A path of other names is left unchanged without a question. */
  lemma OtherUnchanged(root: Bytes, first: Bytes, rest: seq<Bytes>, resolve: Resolver)
    requires IsName(first) && first !in {TMP, VAR, PRIVATE} && (forall k :: k in rest ==> IsName(k)) && |Slashed([first] + rest)| < PATH_MAX
    ensures MapWith(root, Slashed([first] + rest), PATH_MAX, resolve) == Run(Unchanged, [])
  {
    var names := [first] + rest;
    var path := Slashed(names);
    SlashedFirst(names);
    forall k | 0 <= k < |names| ensures SLASH !in names[k] { assert names[k] in names; }
    SplitSlashed(names);
    var cs := Split(path);
    assert cs[1] == first && cs[2..] == rest;
    NamesStayOther(cs, 2, InOther(AtRoot, 1));
    assert ScanMove(InBase(AtRoot), cs[1], 2, TMP in cs[2..]) == Go(InOther(AtRoot, 1));
    assert ScanFrom(cs, 0, InBase(AtRoot)) == ScanFrom(cs, 1, InBase(AtRoot));
  }

  lemma {:induction false} NamesStayOther(cs: seq<Bytes>, i: nat, st: Scan)
    requires i <= |cs| && st.InOther? && forall k :: k in cs[i..] ==> IsName(k)
    ensures ScanFrom(cs, i, st).Final? && ScanFrom(cs, i, st).state.InOther?
    decreases |cs| - i
  {
    if i < |cs| {
      assert cs[i..] == [cs[i]] + cs[i + 1..];
      assert cs[i] in cs[i..];
      NamesStayOther(cs, i + 1, ScanMove(st, cs[i], i + 1, TMP in cs[i + 1..]).state);
    }
  }

  /** A link to the root: `/r/tmp` is the private directory virtually and the host's physically. */
  lemma RootLinkStrays(s: Fs, root: Bytes, a: Skeleton, r: Bytes, resolve: Resolver)
    requires Mac(s, root, a) && HostTemps(s, a) && LinkIs(s, ROOT, r, [SLASH]) && r !in {TMP, VAR, PRIVATE}
    ensures Strays(s, root, a, Slashed([r, TMP]), resolve, 2)
  {
    var path := Slashed([r, TMP]);
    var link := s.nodes[ROOT].children[r];
    EntryFacts(s, ROOT, r, link);
    RailNames();
    RailKeys();
    SlashedTwo(r, TMP);
    assert [r] + [TMP] == [r, TMP];
    OtherUnchanged(root, r, [TMP], resolve);
    CompsSlashed([r, TMP]);
    SlashedFirst([r, TMP]);
    PathOfEnd([r, TMP]);
    HostTempIs(s, root, a);
    RootLink(s, Virtual, r);
    RootLink(s, Physical, r);
    WalkAppend(s, Virtual, ROOT, [r], [TMP], true, false, 0);
    WalkAppend(s, Physical, ROOT, [r], [TMP], true, false, 0);
    AliasTwoWays(s, root, a, TMP, 1);
  }

  lemma RootLink(s: Fs, view: View, r: Bytes)
    requires Scaffold(s) && s.profile.MacShim? && LinkIs(s, ROOT, r, [SLASH]) && |r| <= NAME_MAX && Key(s, r) == r && r != DOTDOT
    ensures Walk(s, view, ROOT, [r], true, true, 0) == Found(ROOT, 1)
  {
    CompsLeading([]);
    CompsEmpty();
    assert [SLASH] + [] == [SLASH] && [r][1..] == [];
    assert NodeOk(s, ROOT);
    assert Resolve(s, view, ROOT, [SLASH], true, 1) == Found(ROOT, 1);
    assert FollowLink(s, view, ROOT, s.nodes[ROOT].children[r], 0) == Found(ROOT, 1);
    assert Step(s, view, ROOT, r, true, true, 0) == Found(ROOT, 1);
  }

  /** `/TMP`, where names fold. */
  const UPPER: Bytes := [84, 77, 80]
  const SLASH_UPPER: Bytes := [SLASH] + UPPER

  /** On a tree that folds case, `/TMP` is the alias, but the scanner reads another name. */
  lemma FoldStrays(s: Fs, root: Bytes, a: Skeleton, resolve: Resolver)
    requires Mac(s, root, a) && HostTemps(s, a) && s.fold
    ensures Strays(s, root, a, SLASH_UPPER, resolve, 1)
  {
    UpperName(s);
    OtherUnchanged(root, UPPER, [], resolve);
    AliasTwoWays(s, root, a, UPPER, 0);
    HostTempIs(s, root, a);
  }

  lemma UpperName(s: Fs)
    requires s.fold
    ensures Key(s, UPPER) == TMP && IsName(UPPER) && UPPER !in {TMP, VAR, PRIVATE} && |UPPER| == 3
    ensures Slashed([UPPER] + []) == SLASH_UPPER && Comps(SLASH_UPPER) == [UPPER] && !Trailing(SLASH_UPPER)
  {
    assert UPPER[0] == 84 && TMP[0] == 116 && VAR[0] == 118 && PRIVATE[0] == 112;
    assert [UPPER][..0] == [] && [UPPER] + [] == [UPPER];
    CompsSlashed([UPPER]);
  }

  // ----- `..` off a private temp directory -----

  /** Either view finds the private `tmp` at its physical name. */
  lemma TmpByName(s: Fs, root: Bytes, a: Skeleton, links: nat)
    requires Mac(s, root, a) && |root| + 4 < PATH_MAX && links <= MaxLinks(s)
    ensures Resolve(s, Virtual, ROOT, root + SLASH_TMP, true, links) == Found(a.tmp, links)
    ensures Resolve(s, Physical, ROOT, root + SLASH_TMP, true, links) == Found(a.tmp, links)
  {
    MacListed(s, root, a);
    TmpBelow(s, a.anchor, a.tmp);
    PhysUp(s, a.anchor, TMP, a.tmp);
    NamedBothWays(s, a.anchor, a.tmp, root + SLASH_TMP, links);
  }

  lemma NamedBothWays(s: Fs, dir: nat, n: nat, text: Bytes, links: nat)
    requires Scaffold(s) && s.profile.MacShim? && links <= MaxLinks(s) && Plain(s, dir) && Linked(s, dir) && IsDir(s, dir)
    requires EntryIs(s, dir, TMP, n) && Listed(s, Virtual, n, dir, TMP) && IsDir(s, n) && Linked(s, n)
    requires PhysNames(s, n) == PhysNames(s, dir) + [TMP] && text == PathOf(PhysNames(s, n)) && |text| < PATH_MAX
    ensures Resolve(s, Virtual, ROOT, text, true, links) == Found(n, links)
    ensures Resolve(s, Physical, ROOT, text, true, links) == Found(n, links)
  {
    AllNames(s, n);
    CompsPathOf(PhysNames(s, n));
    PathOfEnd(PhysNames(s, n));
    PhysicalSound(s, n);
    WalkNames(s, Physical, n, true, false, links);
    PlainSound(s, dir);
    WalkNames(s, Virtual, dir, true, true, links);
    WalkAppend(s, Virtual, ROOT, PhysNames(s, dir), [TMP], true, false, links);
    WalkOne(s, Virtual, n, dir, TMP, true, false, links);
    ScaffoldRoot(s);
    VisibleSelf(s, ROOT);
  }

  /** The path `/r/..`. */
  function UpFrom(r: Bytes): Bytes {
    [SLASH] + r + [SLASH] + DOTDOT
  }

  lemma UpUnchanged(root: Bytes, r: Bytes, resolve: Resolver)
    requires IsName(r) && r !in {TMP, VAR, PRIVATE} && |r| <= NAME_MAX
    ensures MapWith(root, UpFrom(r), PATH_MAX, resolve) == Run(Unchanged, [])
    ensures Comps(UpFrom(r)) == [r, DOTDOT] && !Trailing(UpFrom(r)) && |UpFrom(r)| < PATH_MAX && UpFrom(r)[0] == SLASH
  {
    var path := UpFrom(r);
    SplitJoin([SLASH] + r, DOTDOT);
    SplitAt([SLASH] + r, [], r);
    assert [SLASH] + r == [] + [SLASH] + r;
    CompsSingle(r);
    CompsSingle(DOTDOT);
    var cs := Split(path);
    assert cs == [[], r, DOTDOT];
    assert |DOTDOT| == 2 && path[|path| - 1] == DOTDOT[1];
    RailNames();
    assert cs[3..] == [] && cs[2..] == [DOTDOT] && TMP != DOTDOT;
    assert ScanMove(InBase(AtRoot), cs[1], 2, false) == Go(InOther(AtRoot, 1));
    assert ScanMove(InOther(AtRoot, 1), cs[2], 3, false) == Go(InBase(AtRoot));
    assert ScanFrom(cs, 2, InOther(AtRoot, 1)) == Final(InBase(AtRoot));
    assert ScanFrom(cs, 1, InBase(AtRoot)) == Final(InBase(AtRoot));
    MapsAtOnce(root, path, PATH_MAX, resolve, InBase(AtRoot));
    CompsJoin([SLASH] + r, DOTDOT);
    CompsLeading(r);
    assert [r] + [DOTDOT] == [r, DOTDOT];
  }

  lemma UpWalk(s: Fs, view: View, r: Bytes, target: Bytes, n: nat)
    requires Scaffold(s) && s.profile.MacShim? && LinkIs(s, ROOT, r, target) && target != [] && r != DOTDOT && IsDir(s, n)
    requires Resolve(s, view, ROOT, target, true, 1) == Found(n, 1) && FsState.Enter(s, view, n) == n
    ensures Walk(s, view, ROOT, [r, DOTDOT], true, false, 0) == Found(FsState.Enter(s, view, ParentOf(s, view, n)), 1)
  {
    EntryFacts(s, ROOT, r, s.nodes[ROOT].children[r]);
    assert [r, DOTDOT][1..] == [DOTDOT] && [DOTDOT][1..] == [];
    assert FollowLink(s, view, ROOT, s.nodes[ROOT].children[r], 0) == Found(n, 1);
    assert Step(s, view, ROOT, r, true, true, 0) == Found(n, 1);
    assert NodeClosed(s.nodes[n], |s.nodes|);
    var up := FsState.Enter(s, view, ParentOf(s, view, n));
    assert Walk(s, view, up, [], true, false, 1) == Found(up, 1);
  }

  /** A link to the private `tmp` by its physical name: `/r/..` is left unchanged, and is `/private`
      virtually but the temp root physically. */
  lemma PrivateLinkStrays(s: Fs, root: Bytes, a: Skeleton, r: Bytes, resolve: Resolver)
    requires Mac(s, root, a) && HostTemps(s, a) && |root| + 4 < PATH_MAX && LinkIs(s, ROOT, r, root + SLASH_TMP) && r !in {TMP, VAR, PRIVATE}
    ensures MapWith(root, UpFrom(r), PATH_MAX, resolve) == Run(Unchanged, [])
    ensures Resolve(s, Virtual, ROOT, UpFrom(r), true, 0) == Found(a.priv, 1)
    ensures Resolve(s, Physical, ROOT, UpFrom(r), true, 0) == Found(a.anchor, 1)
    ensures a.anchor != a.priv
  {
    EntryFacts(s, ROOT, r, s.nodes[ROOT].children[r]);
    UpUnchanged(root, r, resolve);
    TmpByName(s, root, a, 1);
    UpBothWays(s, root, a, r);
    HostTempIs(s, root, a);
  }

  lemma UpBothWays(s: Fs, root: Bytes, a: Skeleton, r: Bytes)
    requires Mac(s, root, a) && LinkIs(s, ROOT, r, root + SLASH_TMP) && r != DOTDOT
    requires Resolve(s, Virtual, ROOT, root + SLASH_TMP, true, 1) == Found(a.tmp, 1)
    requires Resolve(s, Physical, ROOT, root + SLASH_TMP, true, 1) == Found(a.tmp, 1)
    ensures Walk(s, Virtual, ROOT, [r, DOTDOT], true, false, 0) == Found(a.priv, 1)
    ensures Walk(s, Physical, ROOT, [r, DOTDOT], true, false, 0) == Found(a.anchor, 1)
  {
    MacListed(s, root, a);
    VisibleSelf(s, a.tmp);
    VisibleSelf(s, a.priv);
    EntryFacts(s, a.anchor, TMP, a.tmp);
    UpWalk(s, Virtual, r, root + SLASH_TMP, a.tmp);
    UpWalk(s, Physical, r, root + SLASH_TMP, a.tmp);
  }
}
