/** Physical lookups that hidden nodes cannot influence. */
module FsRoutes {
  import opened Text
  import opened FsState
  import opened FsTree
  import opened FsPaths
  import opened FsReach
  import opened FsOps
  import opened FsWellFormed
  import opened FsIsolation
  import opened FsTwins
  import opened FsNoninterference

  /** The physical walk looks names up in visible directories only, and so do the links it follows. */
  ghost predicate SeenResolve(s: Fs, start: nat, path: Bytes, follow: bool, links: nat)
    requires Closed(s) && Valid(s, start) && links <= MaxLinks(s)
    decreases MaxLinks(s) - links, 3, 0
  {
    0 < |path| < PathMax(s) ==>
      SeenWalk(s, if path[0] == SLASH then ROOT else start, Comps(path), follow, Trailing(path), links)
  }

  ghost predicate SeenWalk(s: Fs, cur: nat, comps: seq<Bytes>, follow: bool, slash: bool, links: nat)
    requires Closed(s) && Valid(s, cur) && links <= MaxLinks(s)
    decreases MaxLinks(s) - links, 2, |comps|
  {
    if comps == [] then true
    else if comps[0] == DOTDOT then SeenWalk(s, ParentOf(s, Physical, cur), comps[1..], follow, slash, links)
    else
      var last := |comps| == 1;
      var next := Step(s, Physical, cur, comps[0], !last || follow || slash, !last || slash, links);
      && Visible(s, cur)
      && SeenStep(s, cur, comps[0], !last || follow || slash, links)
      && (next.Found? ==> SeenWalk(s, next.node, comps[1..], follow, slash, next.links))
  }

  ghost predicate SeenStep(s: Fs, cur: nat, name: Bytes, follow: bool, links: nat)
    requires Closed(s) && Valid(s, cur) && links <= MaxLinks(s)
    decreases MaxLinks(s) - links, 1, 0
  {
    follow && Key(s, name) in s.nodes[cur].children && links + 1 <= MaxLinks(s) ==>
      var child := s.nodes[cur].children[Key(s, name)];
      s.nodes[child].kind.Symlink? ==> SeenResolve(s, cur, s.nodes[child].kind.target, true, links + 1)
  }

  /** The lookups that decide the mount of a node: those of the private temp directories. A
      caller can check this before a rename. */
  ghost predicate SeenRoutes(s: Fs)
    requires Closed(s)
  {
    IsMac(s) || (
      && SeenResolve(s, ROOT, s.profile.root + TMP_SUFFIX, true, 0)
      && SeenResolve(s, ROOT, s.profile.root + VAR_TMP_SUFFIX, true, 0))
  }

  // ----- twins find the same -----

  /** Not below a mountpoint, so that it shows the same face in both models. */
  ghost predicate Shows(s: Fs, t: Fs, n: nat)
    requires WellFormed(s)
  {
    Valid(s, n) && Valid(t, n) && !Hidden(s, n) && Face(s.nodes[n]) == Face(t.nodes[n])
  }

  lemma TwinShows(s: Fs, t: Fs, n: nat)
    requires Twins(s, t) && Valid(s, n) && !Hidden(s, n)
    ensures Shows(s, t, n) && s.nodes[n].kind == t.nodes[n].kind && ParentOf(t, Physical, n) == ParentOf(s, Physical, n)
    ensures Valid(s, ParentOf(s, Physical, n)) && !Hidden(s, ParentOf(s, Physical, n))
  {
    assert TwinNode(s, t, n);
    assert NodeClosed(s.nodes[n], |s.nodes|);
    if s.nodes[n].parent.Some? {
      VisibleUp(s, s.nodes[n].parent.value);
    }
  }

  /** Both models find the same, a node that shows. */
  ghost predicate SameSeen(s: Fs, t: Fs, r: Found, r': Found)
    requires WellFormed(s)
  {
    r' == r && (r.Found? ==> Shows(s, t, r.node))
  }

  lemma {:induction false} ResolveSeen(s: Fs, t: Fs, start: nat, path: Bytes, follow: bool, links: nat)
    requires Twins(s, t) && Shows(s, t, start) && links <= MaxLinks(s) && SeenResolve(s, start, path, follow, links)
    ensures SameSeen(s, t, Resolve(s, Physical, start, path, follow, links), Resolve(t, Physical, start, path, follow, links))
    decreases MaxLinks(s) - links, 3, 0
  {
    if 0 < |path| < PathMax(s) {
      RootShows(s, t);
      WalkSeen(s, t, if path[0] == SLASH then ROOT else start, Comps(path), follow, Trailing(path), links);
    }
  }

  lemma RootShows(s: Fs, t: Fs)
    requires Twins(s, t)
    ensures Shows(s, t, ROOT)
  {
    assert NodeOk(s, ROOT);
    TwinShows(s, t, ROOT);
  }

  lemma {:induction false} WalkSeen(s: Fs, t: Fs, cur: nat, comps: seq<Bytes>, follow: bool, slash: bool, links: nat)
    requires Twins(s, t) && Shows(s, t, cur) && links <= MaxLinks(s) && SeenWalk(s, cur, comps, follow, slash, links)
    ensures SameSeen(s, t, Walk(s, Physical, cur, comps, follow, slash, links), Walk(t, Physical, cur, comps, follow, slash, links))
    decreases MaxLinks(s) - links, 2, |comps|
  {
    TwinShows(s, t, cur);
    if comps == [] {
    } else if comps[0] == DOTDOT {
      TwinShows(s, t, ParentOf(s, Physical, cur));
      WalkSeen(s, t, ParentOf(s, Physical, cur), comps[1..], follow, slash, links);
    } else {
      var last := |comps| == 1;
      var f, w := !last || follow || slash, !last || slash;
      StepSeen(s, t, cur, comps[0], f, w, links);
      var next := Step(s, Physical, cur, comps[0], f, w, links);
      if next.Found? {
        WalkSeen(s, t, next.node, comps[1..], follow, slash, next.links);
      }
    }
  }

  lemma {:induction false} StepSeen(s: Fs, t: Fs, cur: nat, name: Bytes, follow: bool, wantDir: bool, links: nat)
    requires Twins(s, t) && Visible(s, cur) && links <= MaxLinks(s) && SeenStep(s, cur, name, follow, links)
    ensures Valid(t, cur)
    ensures SameSeen(s, t, Step(s, Physical, cur, name, follow, wantDir, links), Step(t, Physical, cur, name, follow, wantDir, links))
    decreases MaxLinks(s) - links, 1, 0
  {
    TwinVisible(s, t, cur);
    if Key(s, name) in s.nodes[cur].children {
      FollowSeen(s, t, cur, Key(s, name), follow, links);
    }
    StepAlike(s, t, cur, name, follow, wantDir, links);
  }

  lemma StepAlike(s: Fs, t: Fs, cur: nat, name: Bytes, follow: bool, wantDir: bool, links: nat)
    requires WellFormed(s) && Closed(t) && s.profile == t.profile && s.fold == t.fold && links <= MaxLinks(s)
    requires Valid(s, cur) && Valid(t, cur) && s.nodes[cur] == t.nodes[cur]
    requires Key(s, name) in s.nodes[cur].children ==>
               var child := s.nodes[cur].children[Key(s, name)];
               && Shows(s, t, child)
               && (follow ==> SameSeen(s, t, FollowLink(s, Physical, cur, child, links), FollowLink(t, Physical, cur, child, links)))
    ensures SameSeen(s, t, Step(s, Physical, cur, name, follow, wantDir, links), Step(t, Physical, cur, name, follow, wantDir, links))
  {
    assert Key(t, name) == Key(s, name);
    ShowsDirs(s, t);
  }

  lemma ShowsDirs(s: Fs, t: Fs)
    requires WellFormed(s)
    ensures forall n: nat {:trigger Shows(s, t, n)} :: Shows(s, t, n) ==> IsDir(s, n) == IsDir(t, n)
  {
  }

  lemma {:induction false} FollowSeen(s: Fs, t: Fs, cur: nat, key: Bytes, follow: bool, links: nat)
    requires Twins(s, t) && Visible(s, cur) && links <= MaxLinks(s) && key in s.nodes[cur].children
    requires follow && links + 1 <= MaxLinks(s) ==>
               var child := s.nodes[cur].children[key];
               s.nodes[child].kind.Symlink? ==> SeenResolve(s, cur, s.nodes[child].kind.target, true, links + 1)
    ensures var child := s.nodes[cur].children[key];
            && Shows(s, t, child) && Valid(t, cur) && s.nodes[cur] == t.nodes[cur]
            && (follow ==> SameSeen(s, t, FollowLink(s, Physical, cur, child, links), FollowLink(t, Physical, cur, child, links)))
    decreases MaxLinks(s) - links, 0, 0
  {
    TwinVisible(s, t, cur);
    TwinChild(s, t, cur, key);
    var child := s.nodes[cur].children[key];
    TwinShows(s, t, child);
    if follow && s.nodes[child].kind.Symlink? && links + 1 <= MaxLinks(s) {
      TwinShows(s, t, cur);
      ResolveSeen(s, t, cur, s.nodes[child].kind.target, true, links + 1);
    }
  }

  /** Routes that are seen are the same in every twin. */
  lemma SeenSame(s: Fs, t: Fs)
    requires Twins(s, t) && Peers(s, t) && SeenRoutes(s)
    ensures SameRoutes(s, t)
  {
    if !IsMac(s) {
      RootShows(s, t);
      ResolveSeen(s, t, ROOT, s.profile.root + TMP_SUFFIX, true, 0);
      ResolveSeen(s, t, ROOT, s.profile.root + VAR_TMP_SUFFIX, true, 0);
    }
  }

  // ----- routes by name through visible directories -----

  /** The physical name of a visible node is looked up in visible directories only. */
  lemma {:induction false} NamesSeen(s: Fs, n: nat, rest: seq<Bytes>, follow: bool, slash: bool, links: nat)
    requires WellFormed(s) && Linked(s, n) && Visible(s, n) && IsDir(s, n) && links <= MaxLinks(s)
    requires SeenWalk(s, n, rest, follow, slash, links)
    ensures Ends(s, Reported(Physical), n)
    ensures SeenWalk(s, ROOT, FullNames(s, Physical, n) + rest, follow, slash, links)
    decreases |Chain(s, FsTree.Owner, n)|
  {
    LinkedChain(s, n);
    FullNamesUp(s, Physical, n);
    ChainUp(s, FsTree.Owner, n);
    assert NodeOk(s, n);
    if n == ROOT {
      assert [] + rest == rest;
    } else {
      LinkedParent(s, n);
      VisibleUp(s, n);
      var p := s.nodes[n].parent.value;
      var k := EntryName(s, p, n);
      NameSeen(s, p, k, n, rest, follow, slash, links);
      NamesSeen(s, p, [k] + rest, follow, slash, links);
      LinkedChain(s, p);
      assert FullNames(s, Physical, p) + [k] + rest == FullNames(s, Physical, p) + ([k] + rest);
    }
  }

  lemma NameSeen(s: Fs, p: nat, k: Bytes, n: nat, rest: seq<Bytes>, follow: bool, slash: bool, links: nat)
    requires WellFormed(s) && Visible(s, p) && EntryAt(s, p, k, n) && IsDir(s, n) && links <= MaxLinks(s)
    requires SeenWalk(s, n, rest, follow, slash, links)
    ensures SeenWalk(s, p, [k] + rest, follow, slash, links)
  {
    assert NodeOk(s, p) && EntryOk(s, p, k);
    assert ([k] + rest)[1..] == rest;
    var f, w := rest != [] || follow || slash, rest != [] || slash;
    assert f ==> FollowLink(s, Physical, p, n, links) == Found(n, links);
    assert Step(s, Physical, p, k, f, w, links) == Found(n, links);
  }
}
