/** The macOS skeleton: the aliases, the host temp directories and the private tree. */
module MacTree {
  import opened Text
  import opened TmpPath
  import opened FsState
  import opened FsTree
  import opened FsPaths
  import opened FsReach
  import opened FsTame

  /** The nodes of the skeleton: `/private`, `/private/var`, the workspace's temp root, its
      `var`, and the two private temp directories. */
  datatype Skeleton = Skeleton(priv: nat, vari: nat, anchor: nat, anchorVar: nat, tmp: nat, varTmp: nat)

  const PRIVATE_TMP: Bytes := PRIVATE + [SLASH] + TMP
  const PRIVATE_VAR: Bytes := PRIVATE + [SLASH] + VAR

  ghost predicate EntryIs(s: Fs, p: nat, k: Bytes, n: nat) {
    IsDir(s, p) && Valid(s, n) && k in s.nodes[p].children && s.nodes[p].children[k] == n
  }

  ghost predicate LinkIs(s: Fs, p: nat, k: Bytes, target: Bytes) {
    && IsDir(s, p) && k in s.nodes[p].children && Valid(s, s.nodes[p].children[k])
    && s.nodes[s.nodes[p].children[k]].kind == Symlink(target)
  }

  /** A MacShim tree whose temp root is canonical: the text of `root` is the physical name
      of the anchor directory. */
  ghost predicate Mac(s: Fs, root: Bytes, a: Skeleton) {
    && Scaffold(s) && s.profile == MacShim(root)
    && EntryIs(s, ROOT, PRIVATE, a.priv) && IsDir(s, a.priv)
    && EntryIs(s, a.priv, VAR, a.vari) && IsDir(s, a.vari)
    && Plain(s, a.vari)
    && LinkIs(s, ROOT, TMP, PRIVATE_TMP) && LinkIs(s, ROOT, VAR, PRIVATE_VAR)
    && EntryIs(s, a.anchor, VAR, a.anchorVar) && IsDir(s, a.anchorVar) && Plain(s, a.anchorVar)
    && EntryIs(s, a.anchor, TMP, a.tmp) && EntryIs(s, a.anchorVar, TMP, a.varTmp)
    && s.nodes[a.tmp].virtualParent == Some(a.priv) && s.nodes[a.tmp].mountName == Some(TMP)
    && s.nodes[a.varTmp].virtualParent == Some(a.vari) && s.nodes[a.varTmp].mountName == Some(TMP)
    && (forall n :: 0 <= n < |s.nodes| && s.nodes[n].virtualParent.Some? ==> n == a.tmp || n == a.varTmp)
    && Linked(s, a.anchor)
    && (LinkedChain(s, a.anchor); root == FullPath(s, Physical, a.anchor))
    && a.anchor != ROOT
  }

  ghost function Target(a: Skeleton, sub: Sub): nat {
    if sub.TmpSub? then a.tmp else a.varTmp
  }

  ghost function BaseNode(a: Skeleton, b: Base): nat {
    match b
    case AtRoot => ROOT
    case AtPrivate => a.priv
    case AtPrivVar => a.vari
  }

  ghost function SubBase(sub: Sub): Base {
    if sub.TmpSub? then AtPrivate else AtPrivVar
  }

  /** What the virtual view covers: the host's `tmp` in the base of `sub`. */
  ghost function HostTemp(s: Fs, a: Skeleton, sub: Sub): nat
    requires Valid(s, BaseNode(a, SubBase(sub))) && TMP in s.nodes[BaseNode(a, SubBase(sub))].children
  {
    s.nodes[BaseNode(a, SubBase(sub))].children[TMP]
  }

  /** The two host temp directories are the mountpoints, and there is no other. */
  ghost predicate HostTemps(s: Fs, a: Skeleton) {
    && Valid(s, a.priv) && Valid(s, a.vari) && TMP in s.nodes[a.priv].children && TMP in s.nodes[a.vari].children
    && (forall n :: 0 <= n < |s.nodes| ==>
          (s.nodes[n].mountedBy.Some? <==> n == HostTemp(s, a, TmpSub) || n == HostTemp(s, a, VarTmpSub)))
  }

  /** The rail names are keys, whether names fold or not. */
  lemma RailKeys()
    ensures forall s: Fs :: Key(s, TMP) == TMP && Key(s, VAR) == VAR && Key(s, PRIVATE) == PRIVATE
  {
  }

  /** What holds of an entry of a well-formed tree. */
  lemma EntryFacts(s: Fs, p: nat, k: Bytes, n: nat)
    requires WellFormed(s) && EntryIs(s, p, k, n)
    ensures s.nodes[n].parent == Some(p) && Linked(s, n) && IsName(k) && |k| <= NAME_MAX && Key(s, k) == k && n != ROOT
    ensures Listed(s, Physical, n, p, k)
  {
    assert NodeOk(s, p);
    assert EntryOk(s, p, k);
    assert HasEntry(s, p, n);
    assert NodeOk(s, n);
  }

  /** The skeleton seen through the virtual view. */
  lemma MacListed(s: Fs, root: Bytes, a: Skeleton)
    requires Mac(s, root, a)
    ensures Listed(s, Virtual, a.priv, ROOT, PRIVATE) && Listed(s, Virtual, a.vari, a.priv, VAR)
    ensures Listed(s, Virtual, a.tmp, a.priv, TMP) && Listed(s, Virtual, a.varTmp, a.vari, TMP)
    ensures Listed(s, Virtual, a.anchorVar, a.anchor, VAR)
    ensures Listed(s, Virtual, a.tmp, a.anchor, TMP) && Listed(s, Virtual, a.varTmp, a.anchorVar, TMP)
    ensures IsDir(s, a.tmp) && IsDir(s, a.varTmp)
    ensures Visible(s, a.tmp) && Visible(s, a.varTmp) && Plain(s, a.anchor)
    ensures Plain(s, a.priv) && Linked(s, a.priv) && Linked(s, a.vari) && Linked(s, a.anchorVar)
    ensures Linked(s, a.tmp) && Linked(s, a.varTmp)
  {
    assert TargetOk(s, a.tmp) && TargetOk(s, a.varTmp);
    EntryFacts(s, ROOT, PRIVATE, a.priv);
    EntryFacts(s, a.priv, VAR, a.vari);
    EntryFacts(s, a.anchor, VAR, a.anchorVar);
    EntryFacts(s, a.anchor, TMP, a.tmp);
    EntryFacts(s, a.anchorVar, TMP, a.varTmp);
    PlainUp(s, a.vari);
    PlainUp(s, a.anchorVar);
    VisibleSelf(s, a.priv);
    VisibleSelf(s, a.vari);
    VisibleSelf(s, a.anchorVar);
    VisibleSelf(s, a.tmp);
    VisibleSelf(s, a.varTmp);
  }

  /** `..` in the virtual view, from each node of the skeleton. */
  lemma MacParents(s: Fs, root: Bytes, a: Skeleton)
    requires Mac(s, root, a)
    ensures ParentOf(s, Virtual, ROOT) == ROOT && ParentOf(s, Virtual, a.priv) == ROOT
    ensures ParentOf(s, Virtual, a.vari) == a.priv
    ensures ParentOf(s, Virtual, a.tmp) == a.priv && ParentOf(s, Virtual, a.varTmp) == a.vari
    ensures Enter(s, Virtual, ROOT) == ROOT && Enter(s, Virtual, a.priv) == a.priv && Enter(s, Virtual, a.vari) == a.vari
  {
    MacListed(s, root, a);
    assert NodeOk(s, ROOT);
    EntryFacts(s, ROOT, PRIVATE, a.priv);
    EntryFacts(s, a.priv, VAR, a.vari);
    PlainUp(s, a.priv);
    PlainUp(s, a.vari);
    VisibleSelf(s, a.priv);
    VisibleSelf(s, a.vari);
  }

  lemma AliasText(k: Bytes)
    requires k == TMP || k == VAR
    ensures var t := PRIVATE + [SLASH] + k; 0 < |t| < 1024 && t[0] != SLASH && !Trailing(t) && Comps(t) == [PRIVATE, k]
  {
    var t := PRIVATE + [SLASH] + k;
    RailNames();
    RailKeys();
    CompsJoin(PRIVATE, k);
    CompsSingle(PRIVATE);
    CompsSingle(k);
    assert t[0] == PRIVATE[0] && t[|t| - 1] == k[|k| - 1];
  }

  /** Following the alias `k` at the root leads to `n` in `/private`, at the price of one link. */
  lemma AliasLeads(s: Fs, priv: nat, k: Bytes, n: nat, links: nat)
    requires Closed(s) && links <= MaxLinks(s) && FsState.Enter(s, Virtual, ROOT) == ROOT
    requires Listed(s, Virtual, priv, ROOT, PRIVATE) && Listed(s, Virtual, n, priv, k)
    requires IsDir(s, priv) && IsDir(s, n) && (k == TMP || k == VAR)
    ensures Resolve(s, Virtual, ROOT, PRIVATE + [SLASH] + k, true, links) == Found(n, links)
  {
    AliasText(k);
    WalkAppend(s, Virtual, ROOT, [PRIVATE], [k], true, false, links);
    WalkOne(s, Virtual, priv, ROOT, PRIVATE, true, true, links);
    WalkOne(s, Virtual, n, priv, k, true, false, links);
    assert [PRIVATE] + [k] == [PRIVATE, k];
  }

  /** One step from the root through an alias. */
  lemma StepAlias(s: Fs, priv: nat, k: Bytes, n: nat, follow: bool, wantDir: bool, links: nat)
    requires Scaffold(s) && links <= MaxLinks(s) && (wantDir ==> follow)
    requires Listed(s, Virtual, priv, ROOT, PRIVATE) && Listed(s, Virtual, n, priv, k)
    requires IsDir(s, priv) && IsDir(s, n) && Visible(s, n) && (k == TMP || k == VAR)
    requires LinkIs(s, ROOT, k, PRIVATE + [SLASH] + k)
    ensures var r := Step(s, Virtual, ROOT, k, follow, wantDir, links);
            r.Found? ==> r.node == (if follow then n else s.nodes[ROOT].children[k])
  {
    var child := s.nodes[ROOT].children[k];
    assert s.nodes[child].mountedBy.Some? ==> MountpointOk(s, child);
    AliasFollow(s, priv, k, n, links);
    VisibleSelf(s, n);
  }

  lemma AliasFollow(s: Fs, priv: nat, k: Bytes, n: nat, links: nat)
    requires Scaffold(s) && links <= MaxLinks(s)
    requires Listed(s, Virtual, priv, ROOT, PRIVATE) && Listed(s, Virtual, n, priv, k)
    requires IsDir(s, priv) && IsDir(s, n) && (k == TMP || k == VAR)
    requires LinkIs(s, ROOT, k, PRIVATE + [SLASH] + k)
    ensures var r := FollowLink(s, Virtual, ROOT, s.nodes[ROOT].children[k], links); r.Found? ==> r.node == n
  {
    if links + 1 <= MaxLinks(s) {
      AliasLeads(s, priv, k, n, links + 1);
    }
  }

  /** The component that takes the scanner from one base to another, or into a temp root,
      takes the virtual walk between the nodes they stand for. */
  lemma StepBase(s: Fs, root: Bytes, a: Skeleton, b: Base, comp: Bytes, follow: bool, wantDir: bool, links: nat)
    requires Mac(s, root, a) && links <= MaxLinks(s) && (wantDir ==> follow)
    requires comp == TMP || (comp == VAR && b != AtPrivVar) || (comp == PRIVATE && b == AtRoot)
    ensures var r := Step(s, Virtual, BaseNode(a, b), comp, follow, wantDir, links);
            r.Found? ==>
              || r.node == (if comp == PRIVATE then a.priv else if comp == VAR then a.vari
                            else Target(a, if b == AtPrivVar then VarTmpSub else TmpSub))
              || (!follow && b == AtRoot && r.node == s.nodes[ROOT].children[comp])
  {
    RailNames();
    RailKeys();
    MacListed(s, root, a);
    if b == AtRoot && comp != PRIVATE {
      StepAlias(s, a.priv, comp, if comp == TMP then a.tmp else a.vari, follow, wantDir, links);
    } else {
      var n := if comp == PRIVATE then a.priv else if comp == VAR then a.vari
               else Target(a, if b == AtPrivVar then VarTmpSub else TmpSub);
      StepListed(s, BaseNode(a, b), comp, n, follow, wantDir, links);
    }
  }

  lemma StepListed(s: Fs, p: nat, k: Bytes, n: nat, follow: bool, wantDir: bool, links: nat)
    requires Closed(s) && Listed(s, Virtual, n, p, k) && IsDir(s, n) && links <= MaxLinks(s)
    ensures Step(s, Virtual, p, k, follow, wantDir, links) == Found(n, links)
  {
    var e := s.nodes[p].children[k];
    assert follow ==> FollowLink(s, Virtual, p, e, links) == Found(e, links);
  }
}
