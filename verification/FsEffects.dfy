/** What calls do, seen through the lookups of later calls. */
module FsEffects {
  import opened Text
  import opened FsState
  import opened FsTree
  import opened FsPaths
  import opened FsReach
  import opened FsOps
  import opened FsWellFormed
  import opened FsEdits
  import opened FsIsolation

  // ----- more entries: what was found is still found -----

  ghost predicate KeptNode(s: Fs, s': Fs, n: nat)
    requires Valid(s, n) && Valid(s', n)
  {
    var a, b := s.nodes[n], s'.nodes[n];
    && b.kind == a.kind && b.parent == a.parent && b.mountedBy == a.mountedBy && b.virtualParent == a.virtualParent
    && (forall k :: k in a.children ==> k in b.children && b.children[k] == a.children[k])
  }

  /** `s'` is `s` with entries added. */
  ghost predicate Extends(s: Fs, s': Fs) {
    && Closed(s) && Closed(s') && s'.profile == s.profile && s'.fold == s.fold && |s.nodes| <= |s'.nodes|
    && (forall n: nat {:trigger KeptNode(s, s', n)} :: Valid(s, n) ==> KeptNode(s, s', n))
  }

  lemma {:induction false} ResolveExtends(s: Fs, s': Fs, view: View, start: nat, path: Bytes, follow: bool, links: nat)
    requires Extends(s, s') && Valid(s, start) && links <= MaxLinks(s) && Resolve(s, view, start, path, follow, links).Found?
    ensures Resolve(s', view, start, path, follow, links) == Resolve(s, view, start, path, follow, links)
    decreases MaxLinks(s) - links, 3, 0
  {
    var from := if path[0] == SLASH then ROOT else start;
    assert KeptNode(s, s', from);
    WalkExtends(s, s', view, FsState.Enter(s, view, from), Comps(path), follow, Trailing(path), links);
  }

  lemma {:induction false} WalkExtends(s: Fs, s': Fs, view: View, cur: nat, comps: seq<Bytes>, follow: bool, slash: bool, links: nat)
    requires Extends(s, s') && Valid(s, cur) && links <= MaxLinks(s) && Walk(s, view, cur, comps, follow, slash, links).Found?
    ensures Walk(s', view, cur, comps, follow, slash, links) == Walk(s, view, cur, comps, follow, slash, links)
    decreases MaxLinks(s) - links, 2, |comps|
  {
    if comps == [] {
    } else if comps[0] == DOTDOT {
      UpExtends(s, s', view, cur);
      WalkExtends(s, s', view, FsState.Enter(s, view, ParentOf(s, view, cur)), comps[1..], follow, slash, links);
    } else {
      var last := |comps| == 1;
      var f, w := !last || follow || slash, !last || slash;
      StepExtends(s, s', view, cur, comps[0], f, w, links);
      var next := Step(s, view, cur, comps[0], f, w, links);
      WalkExtends(s, s', view, next.node, comps[1..], follow, slash, next.links);
    }
  }

  lemma UpExtends(s: Fs, s': Fs, view: View, n: nat)
    requires Extends(s, s') && Valid(s, n)
    ensures ParentOf(s', view, n) == ParentOf(s, view, n) && Valid(s, ParentOf(s, view, n))
    ensures FsState.Enter(s', view, ParentOf(s, view, n)) == FsState.Enter(s, view, ParentOf(s, view, n))
  {
    assert KeptNode(s, s', n) && NodeClosed(s.nodes[n], |s.nodes|);
    assert KeptNode(s, s', ParentOf(s, view, n));
  }

  lemma {:induction false} FollowExtends(s: Fs, s': Fs, view: View, dir: nat, link: nat, links: nat)
    requires Extends(s, s') && Valid(s, dir) && Valid(s, link) && links <= MaxLinks(s) && FollowLink(s, view, dir, link, links).Found?
    ensures FollowLink(s', view, dir, link, links) == FollowLink(s, view, dir, link, links)
    decreases MaxLinks(s) - links, 0, 0
  {
    assert KeptNode(s, s', link);
    if s.nodes[link].kind.Symlink? {
      ResolveExtends(s, s', view, dir, s.nodes[link].kind.target, true, links + 1);
    }
  }

  lemma {:induction false} StepExtends(s: Fs, s': Fs, view: View, cur: nat, name: Bytes, follow: bool, wantDir: bool, links: nat)
    requires Extends(s, s') && Valid(s, cur) && links <= MaxLinks(s) && Step(s, view, cur, name, follow, wantDir, links).Found?
    ensures Step(s', view, cur, name, follow, wantDir, links) == Step(s, view, cur, name, follow, wantDir, links)
    decreases MaxLinks(s) - links, 1, 0
  {
    assert KeptNode(s, s', cur) && NodeClosed(s.nodes[cur], |s.nodes|);
    var child := s.nodes[cur].children[Key(s, name)];
    if follow {
      FollowExtends(s, s', view, cur, child, links);
    }
    var t := if follow then FollowLink(s, view, cur, child, links) else Found(child, links);
    assert KeptNode(s, s', t.node);
  }

  lemma CreateExtends(s: Fs, e: Edit)
    requires WellFormed(s) && e.Create? && Legal(s, e)
    ensures CanDo(s, e) && Extends(s, Do(s, e)) && |Do(s, e).nodes| == |s.nodes| + 1
    ensures var s' := Do(s, e);
            && e.key in s'.nodes[e.parent].children && s'.nodes[e.parent].children[e.key] == |s.nodes|
            && s'.nodes[|s.nodes|] == NewNode(e.kind, e.parent) && s'.cwd == s.cwd
  {
    CreateFormed(s, e);
    forall n: nat | Valid(s, n) ensures KeptNode(s, Do(s, e), n) {
    }
  }

  // ----- fewer entries: what is no longer found is missing -----

  /** `s'` is `s` without the entry `key` of directory `p`. */
  ghost predicate Lacks(s: Fs, s': Fs, p: nat, key: Bytes) {
    && Closed(s) && Closed(s') && s'.profile == s.profile && s'.fold == s.fold && |s.nodes| == |s'.nodes| && Valid(s, p)
    && key !in s'.nodes[p].children
    && (forall n: nat {:trigger LackNode(s, s', p, key, n)} :: Valid(s, n) ==> LackNode(s, s', p, key, n))
  }

  ghost predicate LackNode(s: Fs, s': Fs, p: nat, key: Bytes, n: nat)
    requires Valid(s, n) && Valid(s', n)
  {
    var a, b := s.nodes[n], s'.nodes[n];
    && b.kind == a.kind && b.parent == a.parent && b.mountedBy == a.mountedBy && b.virtualParent == a.virtualParent
    && b.children == if n == p then a.children - {key} else a.children
  }

  /** Found as before, or not there. */
  ghost predicate SameOrGone(before: Found, after: Found) {
    before.Found? ==> after == before || after == Missing(ENOENT)
  }

  lemma {:induction false} ResolveLacks(s: Fs, s': Fs, p: nat, key: Bytes, view: View, start: nat, path: Bytes, follow: bool, links: nat)
    requires Lacks(s, s', p, key) && Valid(s, start) && links <= MaxLinks(s)
    ensures SameOrGone(Resolve(s, view, start, path, follow, links), Resolve(s', view, start, path, follow, links))
    decreases MaxLinks(s) - links, 3, 0
  {
    if 0 < |path| < PathMax(s) {
      var from := if path[0] == SLASH then ROOT else start;
      assert LackNode(s, s', p, key, from);
      WalkLacks(s, s', p, key, view, FsState.Enter(s, view, from), Comps(path), follow, Trailing(path), links);
    }
  }

  lemma {:induction false} WalkLacks(s: Fs, s': Fs, p: nat, key: Bytes, view: View, cur: nat, comps: seq<Bytes>, follow: bool, slash: bool, links: nat)
    requires Lacks(s, s', p, key) && Valid(s, cur) && links <= MaxLinks(s)
    ensures SameOrGone(Walk(s, view, cur, comps, follow, slash, links), Walk(s', view, cur, comps, follow, slash, links))
    decreases MaxLinks(s) - links, 2, |comps|
  {
    if comps == [] {
    } else if comps[0] == DOTDOT {
      UpLacks(s, s', p, key, view, cur);
      WalkLacks(s, s', p, key, view, FsState.Enter(s, view, ParentOf(s, view, cur)), comps[1..], follow, slash, links);
    } else {
      var last := |comps| == 1;
      var f, w := !last || follow || slash, !last || slash;
      StepLacks(s, s', p, key, view, cur, comps[0], f, w, links);
      var next := Step(s, view, cur, comps[0], f, w, links);
      if next.Found? {
        WalkLacks(s, s', p, key, view, next.node, comps[1..], follow, slash, next.links);
      }
    }
  }

  lemma UpLacks(s: Fs, s': Fs, p: nat, key: Bytes, view: View, n: nat)
    requires Lacks(s, s', p, key) && Valid(s, n)
    ensures ParentOf(s', view, n) == ParentOf(s, view, n) && Valid(s, ParentOf(s, view, n))
    ensures FsState.Enter(s', view, ParentOf(s, view, n)) == FsState.Enter(s, view, ParentOf(s, view, n))
  {
    assert LackNode(s, s', p, key, n) && NodeClosed(s.nodes[n], |s.nodes|);
    assert LackNode(s, s', p, key, ParentOf(s, view, n));
  }

  lemma {:induction false} FollowLacks(s: Fs, s': Fs, p: nat, key: Bytes, view: View, dir: nat, link: nat, links: nat)
    requires Lacks(s, s', p, key) && Valid(s, dir) && Valid(s, link) && links <= MaxLinks(s)
    ensures SameOrGone(FollowLink(s, view, dir, link, links), FollowLink(s', view, dir, link, links))
    decreases MaxLinks(s) - links, 0, 0
  {
    assert LackNode(s, s', p, key, link);
    if s.nodes[link].kind.Symlink? && links + 1 <= MaxLinks(s) {
      ResolveLacks(s, s', p, key, view, dir, s.nodes[link].kind.target, true, links + 1);
    }
  }

  lemma {:induction false} StepLacks(s: Fs, s': Fs, p: nat, key: Bytes, view: View, cur: nat, name: Bytes, follow: bool, wantDir: bool, links: nat)
    requires Lacks(s, s', p, key) && Valid(s, cur) && links <= MaxLinks(s)
    ensures SameOrGone(Step(s, view, cur, name, follow, wantDir, links), Step(s', view, cur, name, follow, wantDir, links))
    decreases MaxLinks(s) - links, 1, 0
  {
    if Step(s, view, cur, name, follow, wantDir, links).Found? {
      assert LackNode(s, s', p, key, cur) && NodeClosed(s.nodes[cur], |s.nodes|);
      var child := s.nodes[cur].children[Key(s, name)];
      FollowLacks(s, s', p, key, view, cur, child, links);
      var t := if follow then FollowLink(s, view, cur, child, links) else Found(child, links);
      assert LackNode(s, s', p, key, t.node);
    }
  }

  lemma RemoveLacks(s: Fs, e: Edit)
    requires WellFormed(s) && e.Remove? && Legal(s, e)
    ensures CanDo(s, e) && Lacks(s, Do(s, e), e.parent, e.key) && Do(s, e).cwd == s.cwd
  {
    RemoveFormed(s, e);
    RemovedIs(s, e);
    forall n: nat | Valid(s, n) ensures LackNode(s, Do(s, e), e.parent, e.key, n) {
      assert NodeRemoved(s, e, n, Do(s, e).nodes[n]);
    }
    assert NodeRemoved(s, e, e.parent, Do(s, e).nodes[e.parent]);
  }

  // ----- the directory and the last name of a path -----

  lemma TrimmedComps(path: Bytes, end: nat)
    requires end <= |path| && forall i :: end <= i < |path| ==> path[i] == SLASH
    ensures Comps(path) == Comps(path[..end])
    decreases |path|
  {
    if end < |path| {
      var shorter := path[..|path| - 1];
      assert path == shorter + [SLASH];
      CompsTrailing(shorter);
      TrimmedComps(shorter, end);
      assert shorter[..end] == path[..end];
    } else {
      assert path[..end] == path;
    }
  }

  lemma CutComps(path: Bytes, i: nat, name: Bytes)
    requires i < |path| && path == path[..i] + [SLASH] + name && name != [] && name != DOT && SLASH !in name
    ensures Comps(path) == Comps(if i == 0 then [SLASH] else path[..i]) + [name]
  {
    CompsSingle(name);
    CompsJoin(path[..i], name);
    if i == 0 {
      CompsLeading([]);
      CompsEmpty();
      assert path[..0] == [] && [SLASH] + [] == [SLASH];
    }
  }

  lemma CutAt(path: Bytes, i: nat, end: nat)
    requires i < end <= |path| && path[i] == SLASH
    ensures path[..end][..i] == path[..i] && path[..end] == path[..i] + [SLASH] + path[i + 1..end]
  {
  }

  /** A path names its last name in its directory. */
  lemma SplitLastComps(path: Bytes)
    requires SplitLast(path).PathParts? && SplitLast(path).name != DOT
    ensures var parts := SplitLast(path);
            && path != [] && |parts.dir| <= |path| && Comps(path) == Comps(parts.dir) + [parts.name]
            && (Trailing(path) <==> parts.slash)
            && (parts.dir == DOT || (path[0] == SLASH <==> parts.dir[0] == SLASH))
            && (parts.dir == DOT ==> path[0] != SLASH)
  {
    var name := SplitLast(path).name;
    var end := TrimEnd(path);
    TrimmedComps(path, end);
    match SlashBefore(path, end)
    case None =>
      CompsSingle(DOT);
      CompsSingle(name);
      assert [] + [name] == [name];
    case Some(i) =>
      CutAt(path, i, end);
      CutComps(path[..end], i, name);
  }

  // ----- the lookup of a path through its directory -----

  /** Mountpoints are directories. */
  ghost predicate MountDirs(s: Fs) {
    forall n: nat :: Valid(s, n) && s.nodes[n].mountedBy.Some? ==> IsDir(s, n)
  }

  /** A walk that ends at a directory may as well insist on one. */
  lemma {:induction false} WalkInsists(s: Fs, cur: nat, comps: seq<Bytes>, slash: bool, links: nat)
    requires Closed(s) && MountDirs(s) && Valid(s, cur) && links <= MaxLinks(s)
    requires var r := Walk(s, Virtual, cur, comps, true, slash, links); r.Found? && IsDir(s, r.node)
    ensures Walk(s, Virtual, cur, comps, true, true, links) == Walk(s, Virtual, cur, comps, true, slash, links)
    decreases |comps|
  {
    if comps == [] {
    } else if comps[0] == DOTDOT {
      assert NodeClosed(s.nodes[cur], |s.nodes|);
      WalkInsists(s, FsState.Enter(s, Virtual, ParentOf(s, Virtual, cur)), comps[1..], slash, links);
    } else {
      var last := |comps| == 1;
      var next := Step(s, Virtual, cur, comps[0], true, !last || slash, links);
      if last {
        assert comps[1..] == [];
        StepInsists(s, cur, comps[0], slash, links);
      } else {
        WalkInsists(s, next.node, comps[1..], slash, next.links);
      }
    }
  }

  lemma StepInsists(s: Fs, cur: nat, name: Bytes, wantDir: bool, links: nat)
    requires Closed(s) && MountDirs(s) && Valid(s, cur) && links <= MaxLinks(s)
    requires var r := Step(s, Virtual, cur, name, true, wantDir, links); r.Found? && IsDir(s, r.node)
    ensures Step(s, Virtual, cur, name, true, true, links) == Step(s, Virtual, cur, name, true, wantDir, links)
  {
    var t := FollowLink(s, Virtual, cur, s.nodes[cur].children[Key(s, name)], links);
    assert s.nodes[t.node].mountedBy.Some? ==> IsDir(s, t.node);
  }

  /** Where a lookup from the working directory begins. */
  ghost function From(s: Fs, path: Bytes): nat
    requires Ready(s) && path != []
  {
    FsState.Enter(s, Virtual, if path[0] == SLASH then ROOT else s.cwd)
  }

  /** The directory of a path, reached by the components in front of its last name. */
  ghost predicate Fronts(s: Fs, path: Bytes, front: seq<Bytes>, at: Lookup, links: nat)
    requires Ready(s)
  {
    && at.At? && 0 < |path| < PathMax(s) && Comps(path) == front + [at.name] && Trailing(path) == at.slash
    && at.name != DOTDOT && links <= MaxLinks(s)
    && Walk(s, Virtual, From(s, path), front, true, true, 0) == Found(at.parent, links)
  }

  /** The working directory is no mountpoint, and mountpoints are directories. */
  ghost predicate Steady(s: Fs) {
    WellFormed(s) && Ready(s) && MountDirs(s) && s.nodes[s.cwd].mountedBy.None?
  }

  lemma ParentFronts(s: Fs, path: Bytes) returns (front: seq<Bytes>, links: nat)
    requires Steady(s) && FindParent(s, Cwd, path).At?
    ensures Fronts(s, path, front, FindParent(s, Cwd, path), links)
  {
    var parts := SplitLast(path);
    SplitLastComps(path);
    front := Comps(parts.dir);
    if parts.dir == DOT {
      CompsSingle(DOT);
      links := 0;
    } else {
      WalkInsists(s, From(s, path), front, Trailing(parts.dir), 0);
      links := Find(s, Cwd, parts.dir, true).links;
    }
  }

  /** A new entry is found under the path it was made for. */
  lemma LiteralSeen(s: Fs, path: Bytes, e: Edit, follow: bool)
    requires Steady(s) && e.Create? && Legal(s, e) && FindParent(s, Cwd, path).At?
    requires var at := FindParent(s, Cwd, path);
             && e.parent == at.parent && e.key == Key(s, at.name)
             && (at.slash ==> IsDirKind(e.kind)) && (follow ==> !e.kind.Symlink?)
    ensures CanDo(s, e) && Ready(Do(s, e)) && Do(s, e).cwd == s.cwd
    ensures var r := Find(Do(s, e), Cwd, path, follow); r.Found? && r.node == |s.nodes|
  {
    var at := FindParent(s, Cwd, path);
    var s' := Do(s, e);
    CreateFormed(s, e);
    FormedReady(s');
    CreateExtends(s, e);
    var front, links := ParentFronts(s, path);
    FromSame(s, s', path);
    WalkExtends(s, s', Virtual, From(s, path), front, true, true, 0);
    OneMore(s', From(s, path), front, at.parent, at.name, follow, at.slash, links);
    NewStep(s', at.parent, at.name, |s.nodes|, follow || at.slash, at.slash, links);
  }

  lemma FromSame(s: Fs, s': Fs, path: Bytes)
    requires Ready(s) && Ready(s') && Extends(s, s') && s'.cwd == s.cwd && path != []
    ensures From(s', path) == From(s, path)
  {
    assert KeptNode(s, s', ROOT) && KeptNode(s, s', s.cwd);
  }

  lemma NewStep(s: Fs, p: nat, name: Bytes, n: nat, follow: bool, wantDir: bool, links: nat)
    requires Closed(s) && IsDir(s, p) && Valid(s, n) && links <= MaxLinks(s) && |name| <= NAME_MAX
    requires Key(s, name) in s.nodes[p].children && s.nodes[p].children[Key(s, name)] == n
    requires s.nodes[n].mountedBy.None? && (follow ==> !s.nodes[n].kind.Symlink?) && (wantDir ==> IsDir(s, n))
    ensures Step(s, Virtual, p, name, follow, wantDir, links) == Found(n, links)
  {
  }

  /** A removed entry is no longer found under its path. */
  lemma LiteralGone(s: Fs, path: Bytes, e: Edit)
    requires Steady(s) && e.Remove? && Legal(s, e) && FindParent(s, Cwd, path).At?
    requires var at := FindParent(s, Cwd, path); e.parent == at.parent && e.key == Key(s, at.name)
    ensures CanDo(s, e) && Ready(Do(s, e))
    ensures Find(Do(s, e), Cwd, path, false) == Missing(ENOENT)
  {
    var at := FindParent(s, Cwd, path);
    var s' := Do(s, e);
    RemoveFormed(s, e);
    FormedReady(s');
    RemoveLacks(s, e);
    var front, links := ParentFronts(s, path);
    assert LackNode(s, s', e.parent, e.key, ROOT) && LackNode(s, s', e.parent, e.key, s.cwd) && LackNode(s, s', e.parent, e.key, e.parent);
    WalkLacks(s, s', e.parent, e.key, Virtual, From(s, path), front, true, true, 0);
    if Walk(s', Virtual, From(s, path), front, true, true, 0).Found? {
      OneMore(s', From(s, path), front, at.parent, at.name, false, at.slash, links);
    } else {
      WalkAppend(s', Virtual, From(s, path), front, [at.name], false, at.slash, 0);
    }
  }

  lemma OneMore(s: Fs, from: nat, front: seq<Bytes>, p: nat, name: Bytes, follow: bool, slash: bool, links: nat)
    requires Closed(s) && Valid(s, from) && links <= MaxLinks(s) && name != DOTDOT
    requires Walk(s, Virtual, from, front, true, true, 0) == Found(p, links)
    ensures Valid(s, p)
    ensures Walk(s, Virtual, from, front + [name], follow, slash, 0) == Step(s, Virtual, p, name, follow || slash, slash, links)
  {
    WalkAppend(s, Virtual, from, front, [name], follow, slash, 0);
    assert [name][1..] == [];
  }
}
