/** Kernel walks on which the physical and the virtual view agree. */
module FsTame {
  import opened Text
  import opened FsState
  import opened FsTree
  import opened FsPaths
  import opened FsReach

  /** The physical walk never steps `..` off a mount target, and whenever it lands on a
      mountpoint it leaves at once by `..`; the same for the links it follows. */
  ghost predicate TameResolve(s: Fs, start: nat, path: Bytes, follow: bool, links: nat)
    requires Closed(s) && Valid(s, start) && links <= MaxLinks(s)
    decreases MaxLinks(s) - links, 3, 0
  {
    0 < |path| < PathMax(s) ==>
      TameWalk(s, if path[0] == SLASH then ROOT else start, Comps(path), follow, Trailing(path), links)
  }

  ghost predicate TameWalk(s: Fs, cur: nat, comps: seq<Bytes>, follow: bool, slash: bool, links: nat)
    requires Closed(s) && Valid(s, cur) && links <= MaxLinks(s)
    decreases MaxLinks(s) - links, 2, |comps|
  {
    if comps == [] then true
    else if comps[0] == DOTDOT then
      && s.nodes[cur].virtualParent.None?
      && TameWalk(s, ParentOf(s, Physical, cur), comps[1..], follow, slash, links)
    else
      var last := |comps| == 1;
      var next := Step(s, Physical, cur, comps[0], !last || follow || slash, !last || slash, links);
      && s.nodes[cur].mountedBy.None?
      && TameStep(s, cur, comps[0], !last || follow || slash, links)
      && (next.Found? ==> TameWalk(s, next.node, comps[1..], follow, slash, next.links))
  }

  ghost predicate TameStep(s: Fs, cur: nat, name: Bytes, follow: bool, links: nat)
    requires Closed(s) && Valid(s, cur) && links <= MaxLinks(s)
    decreases MaxLinks(s) - links, 1, 0
  {
    follow && Key(s, name) in s.nodes[cur].children && links + 1 <= MaxLinks(s) ==>
      var child := s.nodes[cur].children[Key(s, name)];
      s.nodes[child].kind.Symlink? ==> TameResolve(s, cur, s.nodes[child].kind.target, true, links + 1)
  }

  /** A whole lookup from the root is tame and does not end in a host temp directory. */
  ghost predicate Tame(s: Fs, path: Bytes, follow: bool)
    requires Closed(s)
  {
    && TameResolve(s, ROOT, path, follow, 0)
    && var r := Resolve(s, Physical, ROOT, path, follow, 0);
       r.Found? ==> s.nodes[r.node].mountedBy.None?
  }

  ghost function Entered(s: Fs, r: Found): Found
    requires r.Found? ==> Valid(s, r.node)
  {
    if r.Found? then Found(Enter(s, Virtual, r.node), r.links) else r
  }

  lemma EnterTwice(s: Fs, n: nat)
    requires Scaffold(s) && Valid(s, n)
    ensures Valid(s, Enter(s, Virtual, n))
    ensures Enter(s, Virtual, Enter(s, Virtual, n)) == Enter(s, Virtual, n)
    ensures IsDir(s, Enter(s, Virtual, n)) == IsDir(s, n)
  {
    if s.nodes[n].mountedBy.Some? {
      assert MountpointOk(s, n);
      assert TargetOk(s, s.nodes[n].mountedBy.value);
      VisibleSelf(s, s.nodes[n].mountedBy.value);
    }
  }

  lemma {:induction false} ResolveAgrees(s: Fs, start: nat, path: Bytes, follow: bool, links: nat)
    requires Scaffold(s) && Valid(s, start) && links <= MaxLinks(s) && s.nodes[start].mountedBy.None?
    requires TameResolve(s, start, path, follow, links)
    ensures Resolve(s, Virtual, start, path, follow, links) == Entered(s, Resolve(s, Physical, start, path, follow, links))
    decreases MaxLinks(s) - links, 3, 0
  {
    if 0 < |path| < PathMax(s) {
      WalkAgrees(s, if path[0] == SLASH then ROOT else start, Comps(path), follow, Trailing(path), links);
    }
  }

  /** On a tame walk both views visit the same nodes, the virtual one having entered. */
  lemma {:induction false} WalkAgrees(s: Fs, cur: nat, comps: seq<Bytes>, follow: bool, slash: bool, links: nat)
    requires Scaffold(s) && Valid(s, cur) && links <= MaxLinks(s)
    requires TameWalk(s, cur, comps, follow, slash, links)
    ensures Valid(s, Enter(s, Virtual, cur))
    ensures Walk(s, Virtual, Enter(s, Virtual, cur), comps, follow, slash, links)
         == Entered(s, Walk(s, Physical, cur, comps, follow, slash, links))
    decreases MaxLinks(s) - links, 2, |comps|
  {
    EnterTwice(s, cur);
    if comps == [] {
    } else if comps[0] == DOTDOT {
      var p := ParentOf(s, Physical, cur);
      assert s.nodes[cur].mountedBy.Some? ==> MountpointOk(s, cur);
      assert ParentOf(s, Virtual, Enter(s, Virtual, cur)) == p;
      WalkAgrees(s, p, comps[1..], follow, slash, links);
    } else {
      var last := |comps| == 1;
      var f, w := !last || follow || slash, !last || slash;
      StepAgrees(s, cur, comps[0], f, w, links);
      var next := Step(s, Physical, cur, comps[0], f, w, links);
      if next.Found? {
        WalkAgrees(s, next.node, comps[1..], follow, slash, next.links);
      }
    }
  }

  /** Both views come to the same node, up to entering, and to a directory alike. */
  ghost predicate SameSpot(s: Fs, v: Found, p: Found) {
    && (v.Found? <==> p.Found?)
    && (v.Missing? ==> v == p)
    && (v.Found? ==> Valid(s, v.node) && Valid(s, p.node) && Entered(s, v) == Entered(s, p) && IsDir(s, v.node) == IsDir(s, p.node))
  }

  lemma EnteredSpot(s: Fs, p: Found)
    requires Scaffold(s) && (p.Found? ==> Valid(s, p.node))
    ensures SameSpot(s, Entered(s, p), p)
  {
    if p.Found? {
      EnterTwice(s, p.node);
    }
  }

  lemma {:induction false} FollowAgrees(s: Fs, cur: nat, child: nat, links: nat)
    requires Scaffold(s) && Valid(s, cur) && Valid(s, child) && links <= MaxLinks(s) && s.nodes[cur].mountedBy.None?
    requires s.nodes[child].kind.Symlink? && links + 1 <= MaxLinks(s) ==> TameResolve(s, cur, s.nodes[child].kind.target, true, links + 1)
    ensures SameSpot(s, FollowLink(s, Virtual, cur, child, links), FollowLink(s, Physical, cur, child, links))
    decreases MaxLinks(s) - links, 0, 0
  {
    if s.nodes[child].kind.Symlink? && links + 1 <= MaxLinks(s) {
      var target := s.nodes[child].kind.target;
      ResolveAgrees(s, cur, target, true, links + 1);
      EnteredSpot(s, Resolve(s, Physical, cur, target, true, links + 1));
    }
  }

  lemma {:induction false} StepAgrees(s: Fs, cur: nat, name: Bytes, follow: bool, wantDir: bool, links: nat)
    requires Scaffold(s) && Valid(s, cur) && links <= MaxLinks(s) && s.nodes[cur].mountedBy.None?
    requires TameStep(s, cur, name, follow, links)
    ensures Step(s, Virtual, cur, name, follow, wantDir, links) == Entered(s, Step(s, Physical, cur, name, follow, wantDir, links))
    decreases MaxLinks(s) - links, 1, 0
  {
    var k := Key(s, name);
    if IsDir(s, cur) && k in s.nodes[cur].children && follow {
      assert NodeClosed(s.nodes[cur], |s.nodes|);
      FollowAgrees(s, cur, s.nodes[cur].children[k], links);
    }
  }

  /** A tame lookup finds the same node in both views. */
  lemma TameAgrees(s: Fs, path: Bytes, follow: bool)
    requires Scaffold(s) && Tame(s, path, follow)
    ensures Resolve(s, Virtual, ROOT, path, follow, 0) == Resolve(s, Physical, ROOT, path, follow, 0)
  {
    ResolveAgrees(s, ROOT, path, follow, 0);
  }
}
