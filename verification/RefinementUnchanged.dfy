/** A path that the mapper leaves unchanged keeps clear of the host temp directories. */
module RefinementUnchanged {
  import opened Text
  import opened TmpPath
  import opened FsState
  import opened FsTree
  import opened FsPaths
  import opened FsReach
  import opened FsTame
  import opened MacTree
  import opened MacNames
  import opened Refinement
  import opened RefinementLoop

  // ----- what is asked of the links on the way -----

  predicate IsAlias(cur: nat, name: Bytes) {
    cur == ROOT && (name == TMP || name == VAR)
  }

  /** A link that the walk follows, the two aliases apart, leads tamely to a node that is no host
      temp directory, and to none above one if a `tmp` is still to come. `top` holds both kinds. */
  ghost predicate GroundStep(s: Fs, top: set<nat>, cur: nat, name: Bytes, ahead: bool, follow: bool, links: nat)
    requires Closed(s) && Valid(s, cur) && links <= MaxLinks(s)
  {
    follow && Key(s, name) in s.nodes[cur].children && links + 1 <= MaxLinks(s) && !IsAlias(cur, name) ==>
      var child := s.nodes[cur].children[Key(s, name)];
      s.nodes[child].kind.Symlink? ==> GroundLink(s, top, cur, s.nodes[child].kind.target, ahead, links + 1)
  }

  ghost predicate GroundLink(s: Fs, top: set<nat>, cur: nat, target: Bytes, ahead: bool, links: nat)
    requires Closed(s) && Valid(s, cur) && links <= MaxLinks(s)
  {
    && TameResolve(s, cur, target, true, links)
    && var r := Resolve(s, Physical, cur, target, true, links);
       r.Found? ==> s.nodes[r.node].mountedBy.None? && (ahead ==> r.node !in top)
  }

  /** The physical walk never steps `..` off a private temp directory, and each link it follows is
      as above. Nothing is asked of the names it goes through. */
  ghost predicate GroundWalk(s: Fs, top: set<nat>, cur: nat, comps: seq<Bytes>, follow: bool, slash: bool, links: nat)
    requires Closed(s) && Valid(s, cur) && links <= MaxLinks(s)
    decreases |comps|
  {
    if comps == [] then true
    else if comps[0] == DOTDOT then
      && s.nodes[cur].virtualParent.None?
      && GroundWalk(s, top, ParentOf(s, Physical, cur), comps[1..], follow, slash, links)
    else
      var last := |comps| == 1;
      var f, w := !last || follow || slash, !last || slash;
      var next := Step(s, Physical, cur, comps[0], f, w, links);
      && GroundStep(s, top, cur, comps[0], TMP in comps[1..], f, links)
      && (next.Found? ==> GroundWalk(s, top, next.node, comps[1..], follow, slash, next.links))
  }

  // ----- the tree below the walk -----

  /** The host temp directories and the directories above them. */
  ghost function Top(s: Fs, a: Skeleton): set<nat>
    requires HostTemps(s, a)
  {
    {ROOT, a.priv, a.vari, HostTemp(s, a, TmpSub), HostTemp(s, a, VarTmpSub)}
  }

  /** The skeleton as far as a physical walk relies on it. */
  ghost predicate Floor(s: Fs, a: Skeleton) {
    && Scaffold(s) && s.profile.MacShim? && !s.fold && HostTemps(s, a)
    && EntryIs(s, ROOT, PRIVATE, a.priv) && EntryIs(s, a.priv, VAR, a.vari)
    && EntryIs(s, a.priv, TMP, HostTemp(s, a, TmpSub)) && EntryIs(s, a.vari, TMP, HostTemp(s, a, VarTmpSub))
    && LinkIs(s, ROOT, TMP, PRIVATE_TMP) && LinkIs(s, ROOT, VAR, PRIVATE_VAR)
    && Visible(s, ROOT) && Visible(s, a.priv) && Visible(s, a.vari)
  }

  lemma MacFloor(s: Fs, root: Bytes, a: Skeleton)
    requires Mac(s, root, a) && HostTemps(s, a) && !s.fold
    ensures Floor(s, a)
  {
    MacBases(s, root, a);
    assert NodeClosed(s.nodes[a.priv], |s.nodes|) && NodeClosed(s.nodes[a.vari], |s.nodes|);
  }

  lemma MacBases(s: Fs, root: Bytes, a: Skeleton)
    requires Mac(s, root, a)
    ensures Visible(s, ROOT) && Visible(s, a.priv) && Visible(s, a.vari)
  {
    MacListed(s, root, a);
    ScaffoldRoot(s);
  }

  /** An entry of a well-formed tree stands in one place. */
  lemma OnePlace(s: Fs, p: nat, k: Bytes, q: nat, j: Bytes, n: nat)
    requires WellFormed(s) && EntryIs(s, p, k, n) && Valid(s, q) && j in s.nodes[q].children && s.nodes[q].children[j] == n
    ensures q == p && j == k
  {
    assert NodeOk(s, p) && EntryOk(s, p, k);
    assert NodeOk(s, q) && EntryOk(s, q, j);
  }

  ghost predicate OneOf(n: nat, priv: nat, vari: nat, tmp: nat, varTmp: nat) {
    n == ROOT || n == priv || n == vari || n == tmp || n == varTmp
  }

  /** The only names under which these nodes are listed. */
  lemma TopPlaces(s: Fs, priv: nat, vari: nat, tmp: nat, varTmp: nat, p: nat, k: Bytes)
    requires WellFormed(s) && EntryIs(s, ROOT, PRIVATE, priv) && EntryIs(s, priv, VAR, vari)
    requires EntryIs(s, priv, TMP, tmp) && EntryIs(s, vari, TMP, varTmp)
    requires Valid(s, p) && k in s.nodes[p].children && OneOf(s.nodes[p].children[k], priv, vari, tmp, varTmp)
    ensures (p == ROOT && k == PRIVATE) || (p == priv && k == VAR) || (p == priv && k == TMP) || (p == vari && k == TMP)
  {
    var n := s.nodes[p].children[k];
    NotRootEntry(s, p, k);
    if n == priv {
      OnePlace(s, ROOT, PRIVATE, p, k, n);
    } else if n == vari {
      OnePlace(s, priv, VAR, p, k, n);
    } else if n == tmp {
      OnePlace(s, priv, TMP, p, k, n);
    } else {
      OnePlace(s, vari, TMP, p, k, n);
    }
  }

  lemma NotRootEntry(s: Fs, p: nat, k: Bytes)
    requires WellFormed(s) && Valid(s, p) && k in s.nodes[p].children
    ensures s.nodes[p].children[k] != ROOT && Valid(s, s.nodes[p].children[k]) && s.nodes[s.nodes[p].children[k]].parent == Some(p)
  {
    assert NodeOk(s, p) && EntryOk(s, p, k);
    assert NodeOk(s, ROOT);
  }

  /** A name other than those of the rails leads outside `Top`. */
  lemma TopEntry(s: Fs, a: Skeleton, p: nat, k: Bytes)
    requires Floor(s, a) && Valid(s, p) && k in s.nodes[p].children && s.nodes[p].children[k] in Top(s, a)
    ensures (p == ROOT && k == PRIVATE) || (p == a.priv && k == VAR) || (p == a.priv && k == TMP) || (p == a.vari && k == TMP)
  {
    TopPlaces(s, a.priv, a.vari, HostTemp(s, a, TmpSub), HostTemp(s, a, VarTmpSub), p, k);
  }

  /** A child other than the host temp directories of a visible directory is visible. */
  lemma ChildVisible(s: Fs, a: Skeleton, p: nat, k: Bytes)
    requires Floor(s, a) && Visible(s, p) && k in s.nodes[p].children
    requires k != TMP || s.nodes[p].children[k] !in Top(s, a)
    ensures Valid(s, s.nodes[p].children[k]) && Visible(s, s.nodes[p].children[k]) && s.nodes[s.nodes[p].children[k]].mountedBy.None?
  {
    var n := s.nodes[p].children[k];
    NotRootEntry(s, p, k);
    RailNames();
    RailKeys();
    if n in Top(s, a) {
      TopEntry(s, a, p, k);
      assert n == a.priv || n == a.vari;
    }
    VisibleUp(s, n);
  }

  /** What a tame link leads to is visible. */
  lemma LinkVisible(s: Fs, cur: nat, target: Bytes, links: nat)
    requires Scaffold(s) && Visible(s, cur) && links <= MaxLinks(s) && TameResolve(s, cur, target, true, links)
    ensures var r := Resolve(s, Physical, cur, target, true, links); r.Found? && s.nodes[r.node].mountedBy.None? ==> Visible(s, r.node)
  {
    VisibleSelf(s, cur);
    ScaffoldMounts(s);
    ResolveAgrees(s, cur, target, true, links);
    ResolveVisible(s, cur, target, true, links);
  }

  // ----- one step -----

  /** The walk `r` is over, or goes on from a visible node, outside `Top` if a `tmp` is ahead. */
  ghost predicate Clear(s: Fs, top: set<nat>, r: Found, ahead: bool) {
    r.Found? ==> Visible(s, r.node) && (ahead ==> r.node !in top)
  }

  /** Following a link ends where its target leads, if anywhere. */
  lemma LinkStep(s: Fs, cur: nat, name: Bytes, wantDir: bool, links: nat)
    requires Closed(s) && Valid(s, cur) && links <= MaxLinks(s) && Key(s, name) in s.nodes[cur].children
    requires Valid(s, s.nodes[cur].children[Key(s, name)]) && s.nodes[s.nodes[cur].children[Key(s, name)]].kind.Symlink?
    ensures var r := Step(s, Physical, cur, name, true, wantDir, links);
            r.Found? ==> links + 1 <= MaxLinks(s)
                         && r == Resolve(s, Physical, cur, s.nodes[s.nodes[cur].children[Key(s, name)]].kind.target, true, links + 1)
  {
  }

  lemma FollowedClear(s: Fs, top: set<nat>, cur: nat, name: Bytes, ahead: bool, wantDir: bool, links: nat)
    requires Scaffold(s) && Visible(s, cur) && links <= MaxLinks(s) && Key(s, name) in s.nodes[cur].children
    requires Valid(s, s.nodes[cur].children[Key(s, name)])
    requires s.nodes[s.nodes[cur].children[Key(s, name)]].kind.Symlink? && !IsAlias(cur, name)
    requires GroundStep(s, top, cur, name, ahead, true, links)
    ensures TameStep(s, cur, name, true, links)
    ensures Clear(s, top, Step(s, Physical, cur, name, true, wantDir, links), ahead)
  {
    LinkStep(s, cur, name, wantDir, links);
    if links + 1 <= MaxLinks(s) {
      LinkVisible(s, cur, s.nodes[s.nodes[cur].children[Key(s, name)]].kind.target, links + 1);
    }
  }

  /** A step by name that is not on the way to a host temp directory. */
  lemma StepClear(s: Fs, a: Skeleton, cur: nat, name: Bytes, ahead: bool, follow: bool, wantDir: bool, links: nat)
    requires Floor(s, a) && Visible(s, cur) && links <= MaxLinks(s)
    requires GroundStep(s, Top(s, a), cur, name, ahead, follow, links)
    requires !IsAlias(cur, name)
    requires name in s.nodes[cur].children && (ahead || name == TMP) ==> s.nodes[cur].children[name] !in Top(s, a)
    ensures TameStep(s, cur, name, follow, links)
    ensures Clear(s, Top(s, a), Step(s, Physical, cur, name, follow, wantDir, links), ahead)
  {
    if name in s.nodes[cur].children {
      ChildVisible(s, a, cur, name);
      if follow && s.nodes[s.nodes[cur].children[name]].kind.Symlink? {
        FollowedClear(s, Top(s, a), cur, name, ahead, wantDir, links);
      }
    }
  }

  lemma PhysicalOne(s: Fs, p: nat, k: Bytes, n: nat, follow: bool, wantDir: bool, links: nat)
    requires WellFormed(s) && EntryIs(s, p, k, n) && IsDir(s, n) && links <= MaxLinks(s)
    ensures Step(s, Physical, p, k, follow, wantDir, links) == Found(n, links)
    ensures TameStep(s, p, k, follow, links)
  {
    EntryFacts(s, p, k, n);
    assert follow ==> FollowLink(s, Physical, p, n, links) == Found(n, links);
  }

  /** The target of an alias, walked physically from the root. */
  lemma AliasWalk(s: Fs, a: Skeleton, k: Bytes, n: nat, links: nat)
    requires Floor(s, a) && EntryIs(s, a.priv, k, n) && IsDir(s, n) && (k == TMP || k == VAR) && links <= MaxLinks(s)
    ensures TameResolve(s, ROOT, PRIVATE + [SLASH] + k, true, links)
    ensures Resolve(s, Physical, ROOT, PRIVATE + [SLASH] + k, true, links) == Found(n, links)
  {
    VisibleSelf(s, ROOT);
    VisibleSelf(s, a.priv);
    TwoDown(s, a.priv, k, n, links);
    AliasText(k);
  }

  /** Two directories down from the root, by name. */
  lemma TwoDown(s: Fs, p: nat, k: Bytes, n: nat, links: nat)
    requires WellFormed(s) && links <= MaxLinks(s) && s.nodes[ROOT].mountedBy.None?
    requires EntryIs(s, ROOT, PRIVATE, p) && IsDir(s, p) && s.nodes[p].mountedBy.None? && EntryIs(s, p, k, n) && IsDir(s, n)
    ensures TameWalk(s, ROOT, [PRIVATE, k], true, false, links)
    ensures Walk(s, Physical, ROOT, [PRIVATE, k], true, false, links) == Found(n, links)
  {
    RailNames();
    RailKeys();
    EntryFacts(s, p, k, n);
    PhysicalOne(s, ROOT, PRIVATE, p, true, true, links);
    PhysicalOne(s, p, k, n, true, false, links);
    assert [PRIVATE, k][1..] == [k] && [k][1..] == [];
    assert DOTDOT[0] == 46;
    assert TameWalk(s, n, [], true, false, links);
    assert TameWalk(s, p, [k], true, false, links);
    assert Walk(s, Physical, p, [k], true, false, links) == Found(n, links);
  }

  ghost function AliasNode(s: Fs, a: Skeleton, k: Bytes): nat
    requires HostTemps(s, a)
  {
    if k == TMP then HostTemp(s, a, TmpSub) else a.vari
  }

  lemma AliasStep(s: Fs, a: Skeleton, k: Bytes, follow: bool, wantDir: bool, links: nat)
    requires Floor(s, a) && (k == TMP || k == VAR) && links <= MaxLinks(s)
    ensures TameStep(s, ROOT, k, follow, links)
    ensures var r := Step(s, Physical, ROOT, k, follow, wantDir, links);
            r.Found? ==> r.node == if follow then AliasNode(s, a, k) else s.nodes[ROOT].children[k]
  {
    assert Key(s, k) == k;
    AliasAt(s, a, k);
    if links + 1 <= MaxLinks(s) {
      AliasWalk(s, a, k, AliasNode(s, a, k), links + 1);
    }
    AliasTo(s, k, AliasNode(s, a, k), follow, wantDir, links);
  }

  lemma AliasAt(s: Fs, a: Skeleton, k: Bytes)
    requires Floor(s, a) && (k == TMP || k == VAR)
    ensures LinkIs(s, ROOT, k, PRIVATE + [SLASH] + k)
    ensures EntryIs(s, a.priv, k, AliasNode(s, a, k)) && IsDir(s, AliasNode(s, a, k))
  {
    RailNames();
    RailKeys();
    MountsAreDirs(s, a);
  }

  lemma AliasTo(s: Fs, k: Bytes, n: nat, follow: bool, wantDir: bool, links: nat)
    requires WellFormed(s) && Key(s, k) == k && links <= MaxLinks(s) && LinkIs(s, ROOT, k, PRIVATE + [SLASH] + k)
    requires links + 1 <= MaxLinks(s) ==>
               && TameResolve(s, ROOT, PRIVATE + [SLASH] + k, true, links + 1)
               && Resolve(s, Physical, ROOT, PRIVATE + [SLASH] + k, true, links + 1) == Found(n, links + 1)
    ensures TameStep(s, ROOT, k, follow, links)
    ensures var r := Step(s, Physical, ROOT, k, follow, wantDir, links); r.Found? ==> r.node == if follow then n else s.nodes[ROOT].children[k]
  {
    LinkStep(s, ROOT, k, wantDir, links);
  }

  lemma MountsAreDirs(s: Fs, a: Skeleton)
    requires Floor(s, a)
    ensures IsDir(s, HostTemp(s, a, TmpSub)) && IsDir(s, HostTemp(s, a, VarTmpSub))
  {
    assert MountpointOk(s, HostTemp(s, a, TmpSub)) && MountpointOk(s, HostTemp(s, a, VarTmpSub));
  }

  /** Where a rail component leads physically. */
  ghost function RailEnd(s: Fs, a: Skeleton, b: Base, comp: Bytes): nat
    requires HostTemps(s, a)
  {
    if comp == PRIVATE then a.priv else if comp == VAR then a.vari
    else HostTemp(s, a, if b == AtPrivVar then VarTmpSub else TmpSub)
  }

  lemma RailTame(s: Fs, a: Skeleton, b: Base, comp: Bytes, follow: bool, wantDir: bool, links: nat)
    requires Floor(s, a) && OnRail(b, comp) && links <= MaxLinks(s)
    ensures Valid(s, BaseNode(a, b)) && s.nodes[BaseNode(a, b)].mountedBy.None?
    ensures TameStep(s, BaseNode(a, b), comp, follow, links)
    ensures var r := Step(s, Physical, BaseNode(a, b), comp, follow, wantDir, links);
            r.Found? ==> r.node == RailEnd(s, a, b, comp)
                         || (!follow && b == AtRoot && r.node == s.nodes[ROOT].children[comp] && s.nodes[r.node].kind.Symlink?)
  {
    RailNames();
    RailKeys();
    MountsAreDirs(s, a);
    VisibleSelf(s, BaseNode(a, b));
    if b == AtRoot && comp != PRIVATE {
      AliasStep(s, a, comp, follow, wantDir, links);
    } else {
      PhysicalOne(s, BaseNode(a, b), comp, RailEnd(s, a, b, comp), follow, wantDir, links);
    }
  }

  // ----- walks put together from steps -----

  /** A tame walk that does not end in a host temp directory. */
  ghost predicate TameEnd(s: Fs, cur: nat, comps: seq<Bytes>, follow: bool, slash: bool, links: nat)
    requires Closed(s) && Valid(s, cur) && links <= MaxLinks(s)
  {
    && TameWalk(s, cur, comps, follow, slash, links)
    && var r := Walk(s, Physical, cur, comps, follow, slash, links);
       r.Found? ==> s.nodes[r.node].mountedBy.None?
  }

  lemma UpEnd(s: Fs, cur: nat, rest: seq<Bytes>, follow: bool, slash: bool, links: nat)
    requires Closed(s) && Valid(s, cur) && links <= MaxLinks(s) && s.nodes[cur].virtualParent.None?
    requires Valid(s, ParentOf(s, Physical, cur)) && TameEnd(s, ParentOf(s, Physical, cur), rest, follow, slash, links)
    ensures TameEnd(s, cur, [DOTDOT] + rest, follow, slash, links)
  {
    assert ([DOTDOT] + rest)[1..] == rest;
  }

  lemma NameEnd(s: Fs, cur: nat, name: Bytes, rest: seq<Bytes>, follow: bool, slash: bool, links: nat)
    requires Closed(s) && Valid(s, cur) && links <= MaxLinks(s) && s.nodes[cur].mountedBy.None? && name != DOTDOT
    requires var f, w := rest != [] || follow || slash, rest != [] || slash;
             var next := Step(s, Physical, cur, name, f, w, links);
             && TameStep(s, cur, name, f, links)
             && (next.Found? ==> TameEnd(s, next.node, rest, follow, slash, next.links))
    ensures TameEnd(s, cur, [name] + rest, follow, slash, links)
  {
    assert ([name] + rest)[1..] == rest;
  }

  lemma GroundUp(s: Fs, top: set<nat>, cur: nat, rest: seq<Bytes>, follow: bool, slash: bool, links: nat)
    requires Closed(s) && Valid(s, cur) && links <= MaxLinks(s) && GroundWalk(s, top, cur, [DOTDOT] + rest, follow, slash, links)
    ensures s.nodes[cur].virtualParent.None? && Valid(s, ParentOf(s, Physical, cur))
    ensures GroundWalk(s, top, ParentOf(s, Physical, cur), rest, follow, slash, links)
  {
    assert NodeClosed(s.nodes[cur], |s.nodes|);
    assert ([DOTDOT] + rest)[1..] == rest;
  }

  lemma GroundOn(s: Fs, top: set<nat>, cur: nat, name: Bytes, rest: seq<Bytes>, follow: bool, slash: bool, links: nat)
    requires Closed(s) && Valid(s, cur) && links <= MaxLinks(s) && name != DOTDOT
    requires GroundWalk(s, top, cur, [name] + rest, follow, slash, links)
    ensures var f, w := rest != [] || follow || slash, rest != [] || slash;
            var next := Step(s, Physical, cur, name, f, w, links);
            && GroundStep(s, top, cur, name, TMP in rest, f, links)
            && (next.Found? ==> GroundWalk(s, top, next.node, rest, follow, slash, next.links))
  {
    assert ([name] + rest)[1..] == rest;
  }

  /** Without a `tmp` ahead, a walk from a visible node stays clear of the host temp directories. */
  lemma {:induction false} NoTmpTame(s: Fs, a: Skeleton, cur: nat, comps: seq<Bytes>, follow: bool, slash: bool, links: nat)
    requires Floor(s, a) && Visible(s, cur) && links <= MaxLinks(s) && TMP !in comps
    requires GroundWalk(s, Top(s, a), cur, comps, follow, slash, links)
    ensures TameEnd(s, cur, comps, follow, slash, links)
    decreases |comps|
  {
    VisibleSelf(s, cur);
    if comps != [] {
      var name, rest := comps[0], comps[1..];
      assert comps == [name] + rest;
      if name == DOTDOT {
        GroundUp(s, Top(s, a), cur, rest, follow, slash, links);
        VisibleUp(s, cur);
        NoTmpTame(s, a, ParentOf(s, Physical, cur), rest, follow, slash, links);
        UpEnd(s, cur, rest, follow, slash, links);
      } else {
        var f, w := rest != [] || follow || slash, rest != [] || slash;
        GroundOn(s, Top(s, a), cur, name, rest, follow, slash, links);
        NoTmpStep(s, a, cur, name, f, w, links);
        var next := Step(s, Physical, cur, name, f, w, links);
        if next.Found? {
          NoTmpTame(s, a, next.node, rest, follow, slash, next.links);
        }
        NameEnd(s, cur, name, rest, follow, slash, links);
      }
    }
  }

  lemma NoTmpStep(s: Fs, a: Skeleton, cur: nat, name: Bytes, follow: bool, wantDir: bool, links: nat)
    requires Floor(s, a) && Visible(s, cur) && links <= MaxLinks(s) && name != TMP
    requires GroundStep(s, Top(s, a), cur, name, false, follow, links)
    ensures TameStep(s, cur, name, follow, links)
    ensures Clear(s, Top(s, a), Step(s, Physical, cur, name, follow, wantDir, links), false)
  {
    if IsAlias(cur, name) {
      AliasStep(s, a, name, follow, wantDir, links);
      AliasVisible(s, a, name);
    } else {
      StepClear(s, a, cur, name, false, follow, wantDir, links);
    }
  }

  /** The alias itself is visible, and so is what `var` leads to. */
  lemma AliasVisible(s: Fs, a: Skeleton, k: Bytes)
    requires Floor(s, a) && (k == TMP || k == VAR)
    ensures Visible(s, s.nodes[ROOT].children[k]) && s.nodes[s.nodes[ROOT].children[k]].mountedBy.None?
  {
    AliasAt(s, a, k);
    MountsAreDirs(s, a);
    var n := s.nodes[ROOT].children[k];
    NotRootEntry(s, ROOT, k);
    VisibleUp(s, n);
  }

  // ----- the scan against the physical walk -----

  /** Where the physical walk stands when the scan is in state `st`. */
  ghost predicate Stood(s: Fs, a: Skeleton, cs: seq<Bytes>, i: nat, st: Scan, n: nat)
    requires HostTemps(s, a) && i <= |cs|
  {
    match st
    case InBase(b) => n == BaseNode(a, b) || (TMP !in cs[i..] && Visible(s, n))
    case InOther(_, _) => Visible(s, n) && (TMP in cs[i..] ==> n !in Top(s, a))
    case InTemp(sub, parent, _, depth, named) => !named && depth == 0 && parent == SubBase(sub) && n == HostTemp(s, a, sub)
  }

  /** An answer in a round that rewrites, or that comes to a temp root, is not Unchanged; a question
      about a temp root makes the next round one that rewrites. */
  lemma RoundChanges(root: Bytes, text: Bytes, rewritten: bool, cap: nat, resolve: Resolver, asked: nat)
    requires rewritten || TempOf(ScanFrom(Split(text), 0, InBase(AtRoot))).Some?
    ensures match OneRound(root, text, rewritten, cap, resolve, asked)
            case Over(run) => !run.result.Unchanged?
            case Again(_, _, temp) => rewritten || temp
  {
    ScanBounds(Split(text), 0, InBase(AtRoot));
    match ScanFrom(Split(text), 0, InBase(AtRoot))
    case Final(st) =>
    case Escaping(e) => AskedAt(root, text, e, cap, resolve, asked);
  }

  lemma {:induction false} RewrittenChanges(root: Bytes, text: Bytes, cap: nat, resolve: Resolver, asked: nat)
    ensures !MapLoop(root, text, true, cap, resolve, asked).result.Unchanged?
    decreases DotDots(text)
  {
    RoundChanges(root, text, true, cap, resolve, asked);
    var r := OneRound(root, text, true, cap, resolve, asked);
    if r.Again? {
      RewrittenChanges(root, r.next, cap, resolve, asked + 1);
    }
  }

  /** A scan that comes to a temp root never leaves the path unchanged. */
  lemma TempChanges(root: Bytes, text: Bytes, cap: nat, resolve: Resolver, asked: nat)
    requires TempOf(ScanFrom(Split(text), 0, InBase(AtRoot))).Some?
    ensures !MapLoop(root, text, false, cap, resolve, asked).result.Unchanged?
  {
    RoundChanges(root, text, false, cap, resolve, asked);
    var r := OneRound(root, text, false, cap, resolve, asked);
    if r.Again? {
      RewrittenChanges(root, r.next, cap, resolve, asked + 1);
    }
  }

  /** On top of a temp root, only a `..` leads away from it. */
  lemma {:induction false} TempStays(cs: seq<Bytes>, i: nat, st: Scan)
    requires i <= |cs| && st.InTemp? && st.depth == 0 && (Real(cs[i..]) == [] || Real(cs[i..])[0] != DOTDOT)
    ensures TempOf(ScanFrom(cs, i, st)).Some?
    decreases |cs| - i
  {
    if i < |cs| {
      RealCons(cs, i);
      var m := ScanMove(st, cs[i], i + 1, TMP in cs[i + 1..]);
      if IsReal(cs[i]) {
        NamedStays(cs, i + 1, m.state);
      } else {
        TempStays(cs, i + 1, st);
      }
    }
  }
}
