/** Which nodes a lookup can reach. */
module FsReach {
  import opened Text
  import opened FsState
  import opened FsTree
  import opened FsPaths

  /** Mounts lead from and to nodes that no mount hides. */
  ghost predicate MountsVisible(s: Fs) {
    && WellFormed(s)
    && Visible(s, ROOT)
    && (forall n :: 0 <= n < |s.nodes| && s.nodes[n].mountedBy.Some? ==> Visible(s, s.nodes[n].mountedBy.value))
    && (forall n :: 0 <= n < |s.nodes| && s.nodes[n].virtualParent.Some? ==> Visible(s, s.nodes[n].virtualParent.value))
  }

  /** Entering what lies next to a visible node stays visible. */
  lemma EnterChild(s: Fs, p: nat, k: Bytes)
    requires MountsVisible(s) && Visible(s, p) && k in s.nodes[p].children
    ensures Valid(s, s.nodes[p].children[k]) && Visible(s, Enter(s, Virtual, s.nodes[p].children[k]))
    ensures !s.nodes[s.nodes[p].children[k]].mountedBy.Some? ==> Visible(s, s.nodes[p].children[k])
  {
    assert NodeOk(s, p);
    assert EntryOk(s, p, k);
    VisibleUp(s, s.nodes[p].children[k]);
  }

  lemma EnterParent(s: Fs, n: nat)
    requires MountsVisible(s) && Visible(s, n)
    ensures Valid(s, ParentOf(s, Virtual, n)) && Visible(s, Enter(s, Virtual, ParentOf(s, Virtual, n)))
    ensures Visible(s, ParentOf(s, Virtual, n))
  {
    VisibleUp(s, n);
    VisibleSelf(s, ParentOf(s, Virtual, n));
  }

  lemma VisibleSelf(s: Fs, n: nat)
    requires Visible(s, n)
    ensures s.nodes[n].mountedBy.None? && Enter(s, Virtual, n) == n
  {
    assert Chain(s, Owner, n)[0] == n;
  }

  lemma {:induction false} ResolveVisible(s: Fs, start: nat, path: Bytes, follow: bool, links: nat)
    requires MountsVisible(s) && Visible(s, start) && links <= MaxLinks(s)
    ensures var r := Resolve(s, Virtual, start, path, follow, links); r.Found? ==> Visible(s, r.node)
    decreases MaxLinks(s) - links, 3, 0
  {
    if 0 < |path| < PathMax(s) {
      var from := if path[0] == SLASH then ROOT else start;
      VisibleSelf(s, from);
      WalkVisible(s, from, Comps(path), follow, Trailing(path), links);
    }
  }

  lemma {:induction false} WalkVisible(s: Fs, cur: nat, comps: seq<Bytes>, follow: bool, slash: bool, links: nat)
    requires MountsVisible(s) && Visible(s, cur) && links <= MaxLinks(s)
    ensures var r := Walk(s, Virtual, cur, comps, follow, slash, links); r.Found? ==> Visible(s, r.node)
    decreases MaxLinks(s) - links, 2, |comps|
  {
    if comps == [] {
    } else if comps[0] == DOTDOT {
      EnterParent(s, cur);
      WalkVisible(s, Enter(s, Virtual, ParentOf(s, Virtual, cur)), comps[1..], follow, slash, links);
    } else {
      var last := |comps| == 1;
      StepVisible(s, cur, comps[0], !last || follow || slash, !last || slash, links);
      var next := Step(s, Virtual, cur, comps[0], !last || follow || slash, !last || slash, links);
      if next.Found? {
        WalkVisible(s, next.node, comps[1..], follow, slash, next.links);
      }
    }
  }

  lemma {:induction false} StepVisible(s: Fs, cur: nat, name: Bytes, follow: bool, wantDir: bool, links: nat)
    requires MountsVisible(s) && Visible(s, cur) && links <= MaxLinks(s)
    ensures var r := Step(s, Virtual, cur, name, follow, wantDir, links); r.Found? ==> Visible(s, r.node)
    decreases MaxLinks(s) - links, 1, 0
  {
    var k := Key(s, name);
    if IsDir(s, cur) && k in s.nodes[cur].children {
      var child := s.nodes[cur].children[k];
      EnterChild(s, cur, k);
      if follow && s.nodes[child].kind.Symlink? {
        FollowVisible(s, cur, child, links);
        var t := FollowLink(s, Virtual, cur, child, links);
        if t.Found? {
          VisibleSelf(s, t.node);
        }
      }
    }
  }

  lemma {:induction false} FollowVisible(s: Fs, dir: nat, link: nat, links: nat)
    requires MountsVisible(s) && Visible(s, dir) && Valid(s, link) && s.nodes[link].kind.Symlink? && links <= MaxLinks(s)
    ensures var r := FollowLink(s, Virtual, dir, link, links); r.Found? ==> Visible(s, r.node)
    decreases MaxLinks(s) - links, 0, 0
  {
    if links + 1 <= MaxLinks(s) {
      ResolveVisible(s, dir, s.nodes[link].kind.target, true, links + 1);
    }
  }

  // ----- lookups from linked directories find linked nodes -----

  /** Mounts lead from and to linked nodes, in the view that has them. */
  ghost predicate MountsLinked(s: Fs, view: View) {
    && WellFormed(s)
    && (view.Virtual? ==>
          && (forall n :: 0 <= n < |s.nodes| && s.nodes[n].mountedBy.Some? ==> Linked(s, s.nodes[n].mountedBy.value))
          && (forall n :: 0 <= n < |s.nodes| && s.nodes[n].virtualParent.Some? ==> Linked(s, s.nodes[n].virtualParent.value)))
  }

  lemma LinkedChild(s: Fs, view: View, p: nat, k: Bytes)
    requires MountsLinked(s, view) && Valid(s, p) && k in s.nodes[p].children
    ensures Valid(s, s.nodes[p].children[k]) && Linked(s, s.nodes[p].children[k])
    ensures Linked(s, Enter(s, view, s.nodes[p].children[k]))
  {
    assert NodeOk(s, p);
    assert EntryOk(s, p, k);
    assert HasEntry(s, p, s.nodes[p].children[k]);
  }

  lemma LinkedUp(s: Fs, view: View, n: nat)
    requires MountsLinked(s, view) && Linked(s, n)
    ensures Valid(s, ParentOf(s, view, n)) && Linked(s, Enter(s, view, ParentOf(s, view, n)))
  {
    assert NodeOk(s, n);
    if n != ROOT {
      LinkedParent(s, n);
    }
  }

  lemma {:induction false} ResolveLinked(s: Fs, view: View, start: nat, path: Bytes, follow: bool, links: nat)
    requires MountsLinked(s, view) && Linked(s, start) && links <= MaxLinks(s)
    ensures var r := Resolve(s, view, start, path, follow, links); r.Found? ==> Linked(s, r.node)
    decreases MaxLinks(s) - links, 3, 0
  {
    if 0 < |path| < PathMax(s) {
      var from := if path[0] == SLASH then ROOT else start;
      WalkLinked(s, view, Enter(s, view, from), Comps(path), follow, Trailing(path), links);
    }
  }

  lemma {:induction false} WalkLinked(s: Fs, view: View, cur: nat, comps: seq<Bytes>, follow: bool, slash: bool, links: nat)
    requires MountsLinked(s, view) && Linked(s, cur) && links <= MaxLinks(s)
    ensures var r := Walk(s, view, cur, comps, follow, slash, links); r.Found? ==> Linked(s, r.node)
    decreases MaxLinks(s) - links, 2, |comps|
  {
    if comps == [] {
    } else if comps[0] == DOTDOT {
      LinkedUp(s, view, cur);
      WalkLinked(s, view, Enter(s, view, ParentOf(s, view, cur)), comps[1..], follow, slash, links);
    } else {
      var last := |comps| == 1;
      StepLinked(s, view, cur, comps[0], !last || follow || slash, !last || slash, links);
      var next := Step(s, view, cur, comps[0], !last || follow || slash, !last || slash, links);
      if next.Found? {
        WalkLinked(s, view, next.node, comps[1..], follow, slash, next.links);
      }
    }
  }

  lemma {:induction false} StepLinked(s: Fs, view: View, cur: nat, name: Bytes, follow: bool, wantDir: bool, links: nat)
    requires MountsLinked(s, view) && Linked(s, cur) && links <= MaxLinks(s)
    ensures var r := Step(s, view, cur, name, follow, wantDir, links); r.Found? ==> Linked(s, r.node)
    decreases MaxLinks(s) - links, 1, 0
  {
    var k := Key(s, name);
    if IsDir(s, cur) && k in s.nodes[cur].children {
      var child := s.nodes[cur].children[k];
      LinkedChild(s, view, cur, k);
      FollowLinked(s, view, cur, child, links);
      var t := if follow then FollowLink(s, view, cur, child, links) else Found(child, links);
      if t.Found? {
        EnterLinked(s, view, t.node);
      }
    }
  }

  lemma EnterLinked(s: Fs, view: View, n: nat)
    requires MountsLinked(s, view) && Linked(s, n)
    ensures Linked(s, Enter(s, view, n))
  {
  }

  lemma {:induction false} FollowLinked(s: Fs, view: View, dir: nat, link: nat, links: nat)
    requires MountsLinked(s, view) && Linked(s, dir) && Linked(s, link) && links <= MaxLinks(s)
    ensures var r := FollowLink(s, view, dir, link, links); r.Found? ==> Linked(s, r.node)
    decreases MaxLinks(s) - links, 0, 0
  {
    if s.nodes[link].kind.Symlink? && links + 1 <= MaxLinks(s) {
      ResolveLinked(s, view, dir, s.nodes[link].kind.target, true, links + 1);
    }
  }

  lemma ScaffoldMounts(s: Fs)
    requires Scaffold(s)
    ensures MountsVisible(s) && MountsLinked(s, Virtual) && MountsLinked(s, Physical)
  {
    ScaffoldRoot(s);
    forall n | 0 <= n < |s.nodes| && s.nodes[n].mountedBy.Some?
      ensures Visible(s, s.nodes[n].mountedBy.value) && Linked(s, s.nodes[n].mountedBy.value)
    {
      assert MountpointOk(s, n);
      assert TargetOk(s, s.nodes[n].mountedBy.value);
    }
    forall n | 0 <= n < |s.nodes| && s.nodes[n].virtualParent.Some?
      ensures Visible(s, s.nodes[n].virtualParent.value) && Linked(s, s.nodes[n].virtualParent.value)
    {
      assert TargetOk(s, n);
    }
  }
}
