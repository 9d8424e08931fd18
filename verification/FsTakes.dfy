/** Removing and renaming, seen through later calls. */
module FsTakes {
  import opened Text
  import opened FsState
  import opened FsTree
  import opened FsPaths
  import opened FsReach
  import opened FsOps
  import opened FsWellFormed
  import opened FsEdits
  import opened FsIsolation
  import opened FsTwins
  import opened FsEffects
  import opened FsCalls

  /** The call acts on the name itself: everywhere but on macOS where the path ends in a slash and
      its last name is a link. There it acts on the directory the link leads to. */
  ghost predicate Literal(s: Fs, path: Bytes)
    requires Ready(s)
  {
    var at := FindParent(s, Cwd, path);
    at.At? && at.slash && IsMac(s) && Key(s, at.name) in s.nodes[at.parent].children ==>
      !s.nodes[s.nodes[at.parent].children[Key(s, at.name)]].kind.Symlink?
  }

  ghost predicate LookupHits(s: Fs, at: Lookup, n: nat) {
    at.At? && EntryAt(s, at.parent, Key(s, at.name), n)
  }

  lemma TakesLiterally(s: Fs, path: Bytes)
    requires WellFormed(s) && Ready(s) && Literal(s, path) && FindParent(s, Cwd, path).At?
    ensures var at := FindParent(s, Cwd, path);
            var slot := TakeSlot(s, Cwd, at, path);
            slot.Slot? ==> slot.parent == at.parent && slot.key == Key(s, at.name) && LookupHits(s, at, slot.id)
  {
    var at := FindParent(s, Cwd, path);
    assert NodeClosed(s.nodes[at.parent], |s.nodes|);
  }

  lemma PutsLiterally(s: Fs, path: Bytes, fromIsDir: bool)
    requires WellFormed(s) && Ready(s) && Literal(s, path) && FindParent(s, Cwd, path).At?
    ensures var at := FindParent(s, Cwd, path);
            var dst := PutSlot(s, at, path, fromIsDir);
            && (dst.Dest? ==> dst.parent == at.parent && dst.key == Key(s, at.name))
            && (dst.Dest? && at.slash && IsMac(s) && !fromIsDir ==>
                  dst.key in s.nodes[dst.parent].children && IsDir(s, s.nodes[dst.parent].children[dst.key]))
  {
    var at := FindParent(s, Cwd, path);
    assert NodeClosed(s.nodes[at.parent], |s.nodes|);
  }

  // ----- unlink and rmdir -----

  /** After a successful `unlink` or `rmdir` that acts on the name itself, the name is gone. */
  lemma UnlinkedGone(s: Fs, path: Bytes, rmdir: bool)
    requires Steady(s) && DoUnlink(s, Cwd, path, rmdir).outcome.Returned? && Literal(s, path)
    ensures var e := DoUnlink(s, Cwd, path, rmdir).edit;
            CanDo(s, e) && WellFormed(Do(s, e)) && DoStat(Do(s, e), path, false) == Err(ENOENT)
  {
    UnlinkSensible(s, Cwd, path, rmdir);
    UnlinkEdit(s, path, rmdir);
    var e := DoUnlink(s, Cwd, path, rmdir).edit;
    RemoveFormed(s, e);
    LiteralGone(s, path, e);
  }

  lemma UnlinkEdit(s: Fs, path: Bytes, rmdir: bool)
    requires WellFormed(s) && Ready(s) && DoUnlink(s, Cwd, path, rmdir).outcome.Returned? && Literal(s, path)
    ensures var at, e := FindParent(s, Cwd, path), DoUnlink(s, Cwd, path, rmdir).edit;
            at.At? && e.Remove? && e.parent == at.parent && e.key == Key(s, at.name)
  {
    var at := FindParent(s, Cwd, path);
    if at.At? {
      TakesLiterally(s, path);
    }
  }

  // ----- rename -----

  /** Looking a path up without following is one step in its directory. */
  lemma LastIs(s: Fs, path: Bytes) returns (links: nat)
    requires Steady(s) && FindParent(s, Cwd, path).At?
    ensures links <= MaxLinks(s)
    ensures var at := FindParent(s, Cwd, path);
            Find(s, Cwd, path, false) == Step(s, Virtual, at.parent, at.name, at.slash, at.slash, links)
  {
    var at := FindParent(s, Cwd, path);
    var front, l := ParentFronts(s, path);
    links := l;
    OneMore(s, From(s, path), front, at.parent, at.name, false, at.slash, links);
  }

  /** The path names the node, or what is mounted over it. */
  ghost predicate Names(s: Fs, path: Bytes, n: nat)
    requires Ready(s) && Valid(s, n)
  {
    var r := Find(s, Cwd, path, false);
    r.Found? && r.node == FsState.Enter(s, Virtual, n)
  }

  lemma MoveSteady(s: Fs, e: Edit)
    requires Steady(s) && e.Move? && Legal(s, e)
    ensures CanDo(s, e) && Steady(Do(s, e)) && Valid(s, e.id)
    ensures var s' := Do(s, e);
            && s'.fold == s.fold && Valid(s', e.toParent) && Valid(s', e.fromParent)
            && e.toKey in s'.nodes[e.toParent].children && s'.nodes[e.toParent].children[e.toKey] == e.id
            && e.fromKey !in s'.nodes[e.fromParent].children
  {
    MoveFormed(s, e);
    MovedIs(s, e);
    var s' := Do(s, e);
    FormedReady(s');
    MoveMountDirs(s, e);
    assert NodeMoved(s, e, s.cwd, s'.nodes[s.cwd]);
    assert NodeMoved(s, e, e.toParent, s'.nodes[e.toParent]) && NodeMoved(s, e, e.fromParent, s'.nodes[e.fromParent]);
  }

  lemma EntryNamed(s: Fs, path: Bytes, n: nat)
    requires Steady(s) && Valid(s, n) && LookupHits(s, FindParent(s, Cwd, path), n)
    requires FindParent(s, Cwd, path).slash ==> IsDir(s, n)
    ensures Names(s, path, n)
  {
    var _ := LastIs(s, path);
  }

  lemma NoEntryNamed(s: Fs, path: Bytes)
    requires Steady(s) && FindParent(s, Cwd, path).At?
    requires var at := FindParent(s, Cwd, path); Key(s, at.name) !in s.nodes[at.parent].children
    ensures Find(s, Cwd, path, false) == Missing(ENOENT)
  {
    var _ := LastIs(s, path);
  }

  /** What the checks of a rename come to when both ends are taken literally. */
  lemma RenameEdit(s: Fs, from: Bytes, to: Bytes)
    requires WellFormed(s) && Ready(s) && DoRename(s, from, to).edit.Move? && Literal(s, from) && Literal(s, to)
    ensures var f, t, e := FindParent(s, Cwd, from), FindParent(s, Cwd, to), DoRename(s, from, to).edit;
            && f.At? && t.At? && LookupHits(s, f, e.id) && e.fromParent == f.parent && e.fromKey == Key(s, f.name)
            && e.toParent == t.parent && e.toKey == Key(s, t.name) && (f.slash || t.slash ==> IsDir(s, e.id))
  {
    var f, t := FindParent(s, Cwd, from), FindParent(s, Cwd, to);
    if f.At? && t.At? {
      TakesLiterally(s, from);
      var src := TakeSlot(s, Cwd, f, from);
      if src.Slot? {
        PutsLiterally(s, to, IsDir(s, src.id));
        var dst := PutSlot(s, t, to, IsDir(s, src.id));
        if dst.Dest? {
          RenameToEdit(s, src, dst, f.slash || t.slash);
        }
      }
    }
  }

  lemma RenameToEdit(s: Fs, src: Slot, dst: Dest, slashes: bool)
    requires WellFormed(s) && src.Slot? && dst.Dest? && IsDir(s, dst.parent) && Valid(s, src.parent) && Valid(s, src.id)
    ensures var e := RenameTo(s, src, dst, slashes).edit;
            e.Move? ==>
              && e == Move(src.parent, src.key, src.id, dst.parent, dst.key)
              && (slashes && !IsMac(s) ==> IsDir(s, src.id))
              && (!IsDir(s, src.id) && dst.key in s.nodes[dst.parent].children ==> !IsDir(s, s.nodes[dst.parent].children[dst.key]))
  {
  }

  // ----- lookups that a move does not touch -----

  /** The virtual walk looks up neither of the two names that the move changes, and does not step
      `..` off the node it moves; nor do the links it follows. A caller can check this before. */
  ghost predicate AvoidsResolve(s: Fs, e: Edit, start: nat, path: Bytes, follow: bool, links: nat)
    requires Closed(s) && e.Move? && Valid(s, start) && links <= MaxLinks(s)
    decreases MaxLinks(s) - links, 3, 0
  {
    0 < |path| < PathMax(s) ==>
      AvoidsWalk(s, e, FsState.Enter(s, Virtual, if path[0] == SLASH then ROOT else start), Comps(path), follow, Trailing(path), links)
  }

  ghost predicate AvoidsWalk(s: Fs, e: Edit, cur: nat, comps: seq<Bytes>, follow: bool, slash: bool, links: nat)
    requires Closed(s) && e.Move? && Valid(s, cur) && links <= MaxLinks(s)
    decreases MaxLinks(s) - links, 2, |comps|
  {
    if comps == [] then true
    else if comps[0] == DOTDOT then
      && (cur == e.id ==> s.nodes[cur].virtualParent.Some?)
      && AvoidsWalk(s, e, FsState.Enter(s, Virtual, ParentOf(s, Virtual, cur)), comps[1..], follow, slash, links)
    else
      var last := |comps| == 1;
      var next := Step(s, Virtual, cur, comps[0], !last || follow || slash, !last || slash, links);
      && AvoidsStep(s, e, cur, comps[0], !last || follow || slash, links)
      && (next.Found? ==> AvoidsWalk(s, e, next.node, comps[1..], follow, slash, next.links))
  }

  ghost predicate AvoidsStep(s: Fs, e: Edit, cur: nat, name: Bytes, follow: bool, links: nat)
    requires Closed(s) && e.Move? && Valid(s, cur) && links <= MaxLinks(s)
    decreases MaxLinks(s) - links, 1, 0
  {
    var k := Key(s, name);
    && !(cur == e.fromParent && k == e.fromKey) && !(cur == e.toParent && k == e.toKey)
    && (follow && k in s.nodes[cur].children && links + 1 <= MaxLinks(s) ==>
          var child := s.nodes[cur].children[k];
          s.nodes[child].kind.Symlink? ==> AvoidsResolve(s, e, cur, s.nodes[child].kind.target, true, links + 1))
  }

  /** From `s` to `s'` the entry was moved, and both are well formed. */
  ghost predicate MovedFrom(s: Fs, s': Fs, e: Edit) {
    && WellFormed(s) && WellFormed(s') && e.Move? && Legal(s, e) && IsMoved(s, s', e) && s'.profile == s.profile
  }

  lemma {:induction false} ResolveAvoids(s: Fs, s': Fs, e: Edit, start: nat, path: Bytes, follow: bool, links: nat)
    requires MovedFrom(s, s', e) && Valid(s, start) && links <= MaxLinks(s) && AvoidsResolve(s, e, start, path, follow, links)
    ensures Resolve(s', Virtual, start, path, follow, links) == Resolve(s, Virtual, start, path, follow, links)
    decreases MaxLinks(s) - links, 3, 0
  {
    if 0 < |path| < PathMax(s) {
      var from := if path[0] == SLASH then ROOT else start;
      assert NodeMoved(s, e, from, s'.nodes[from]);
      WalkAvoids(s, s', e, FsState.Enter(s, Virtual, from), Comps(path), follow, Trailing(path), links);
    }
  }

  lemma UpAvoids(s: Fs, s': Fs, e: Edit, n: nat)
    requires MovedFrom(s, s', e) && Valid(s, n) && (n == e.id ==> s.nodes[n].virtualParent.Some?)
    ensures Valid(s, ParentOf(s, Virtual, n)) && ParentOf(s', Virtual, n) == ParentOf(s, Virtual, n)
    ensures FsState.Enter(s', Virtual, ParentOf(s, Virtual, n)) == FsState.Enter(s, Virtual, ParentOf(s, Virtual, n))
  {
    assert NodeMoved(s, e, n, s'.nodes[n]) && NodeClosed(s.nodes[n], |s.nodes|);
    var p := ParentOf(s, Virtual, n);
    assert NodeMoved(s, e, p, s'.nodes[p]);
  }

  lemma {:induction false} WalkAvoids(s: Fs, s': Fs, e: Edit, cur: nat, comps: seq<Bytes>, follow: bool, slash: bool, links: nat)
    requires MovedFrom(s, s', e) && Valid(s, cur) && links <= MaxLinks(s) && AvoidsWalk(s, e, cur, comps, follow, slash, links)
    ensures Walk(s', Virtual, cur, comps, follow, slash, links) == Walk(s, Virtual, cur, comps, follow, slash, links)
    decreases MaxLinks(s) - links, 2, |comps|
  {
    if comps == [] {
    } else if comps[0] == DOTDOT {
      UpAvoids(s, s', e, cur);
      WalkAvoids(s, s', e, FsState.Enter(s, Virtual, ParentOf(s, Virtual, cur)), comps[1..], follow, slash, links);
    } else {
      var last := |comps| == 1;
      var f, w := !last || follow || slash, !last || slash;
      StepAvoids(s, s', e, cur, comps[0], f, w, links);
      var next := Step(s, Virtual, cur, comps[0], f, w, links);
      if next.Found? {
        WalkAvoids(s, s', e, next.node, comps[1..], follow, slash, next.links);
      }
    }
  }

  lemma {:induction false} StepAvoids(s: Fs, s': Fs, e: Edit, cur: nat, name: Bytes, follow: bool, wantDir: bool, links: nat)
    requires MovedFrom(s, s', e) && Valid(s, cur) && links <= MaxLinks(s) && AvoidsStep(s, e, cur, name, follow, links)
    ensures Step(s', Virtual, cur, name, follow, wantDir, links) == Step(s, Virtual, cur, name, follow, wantDir, links)
    decreases MaxLinks(s) - links, 1, 0
  {
    EntryStays(s, s', e, cur, Key(s, name));
    if Key(s, name) in s.nodes[cur].children {
      FollowAvoids(s, s', e, cur, Key(s, name), follow, links);
    }
    StepAlike(s, s', cur, name, follow, wantDir, links);
  }

  lemma MoveAlike(s: Fs, s': Fs, e: Edit, n: nat)
    requires MovedFrom(s, s', e) && Valid(s, n)
    ensures Alike(s, s', n)
  {
    assert NodeMoved(s, e, n, s'.nodes[n]);
  }

  lemma EntryStays(s: Fs, s': Fs, e: Edit, p: nat, k: Bytes)
    requires MovedFrom(s, s', e) && Valid(s, p) && !(p == e.fromParent && k == e.fromKey) && !(p == e.toParent && k == e.toKey)
    ensures Alike(s, s', p) && (k in s'.nodes[p].children <==> k in s.nodes[p].children)
    ensures k in s.nodes[p].children ==> s'.nodes[p].children[k] == s.nodes[p].children[k] && Valid(s, s.nodes[p].children[k])
  {
    assert NodeMoved(s, e, p, s'.nodes[p]) && NodeClosed(s.nodes[p], |s.nodes|);
  }

  lemma {:induction false} FollowAvoids(s: Fs, s': Fs, e: Edit, cur: nat, k: Bytes, follow: bool, links: nat)
    requires MovedFrom(s, s', e) && Valid(s, cur) && links <= MaxLinks(s) && k in s.nodes[cur].children && Valid(s, s.nodes[cur].children[k])
    requires follow && links + 1 <= MaxLinks(s) ==>
               var child := s.nodes[cur].children[k];
               s.nodes[child].kind.Symlink? ==> AvoidsResolve(s, e, cur, s.nodes[child].kind.target, true, links + 1)
    ensures var child := s.nodes[cur].children[k];
            && Alike(s, s', child)
            && (follow ==> var r := FollowLink(s, Virtual, cur, child, links);
                           FollowLink(s', Virtual, cur, child, links) == r && (r.Found? ==> Alike(s, s', r.node)))
    decreases MaxLinks(s) - links, 0, 0
  {
    var child := s.nodes[cur].children[k];
    MoveAlike(s, s', e, child);
    if follow {
      if s.nodes[child].kind.Symlink? && links + 1 <= MaxLinks(s) {
        ResolveAvoids(s, s', e, cur, s.nodes[child].kind.target, true, links + 1);
      }
      FollowSame(s, s', cur, child, links);
      var r := FollowLink(s, Virtual, cur, child, links);
      if r.Found? {
        MoveAlike(s, s', e, r.node);
      }
    }
  }

  lemma StepAlike(s: Fs, s': Fs, cur: nat, name: Bytes, follow: bool, wantDir: bool, links: nat)
    requires Closed(s) && Closed(s') && s'.profile == s.profile && s'.fold == s.fold && links <= MaxLinks(s) && Alike(s, s', cur)
    requires var k := Key(s, name);
             && (k in s'.nodes[cur].children <==> k in s.nodes[cur].children)
             && (k in s.nodes[cur].children ==>
                   var child := s.nodes[cur].children[k];
                   && s'.nodes[cur].children[k] == child && Alike(s, s', child)
                   && (follow ==> var r := FollowLink(s, Virtual, cur, child, links);
                                  FollowLink(s', Virtual, cur, child, links) == r && (r.Found? ==> Alike(s, s', r.node))))
    ensures Step(s', Virtual, cur, name, follow, wantDir, links) == Step(s, Virtual, cur, name, follow, wantDir, links)
  {
    assert Key(s', name) == Key(s, name);
  }

  /** The directory of a path is reached without what the move touches. */
  ghost predicate AvoidsDir(s: Fs, e: Edit, path: Bytes)
    requires Ready(s) && e.Move?
  {
    var parts := SplitLast(path);
    parts.PathParts? && parts.dir != DOT ==> AvoidsResolve(s, e, s.cwd, parts.dir, true, 0)
  }

  lemma SameDirectory(s: Fs, s': Fs, e: Edit, path: Bytes)
    requires MovedFrom(s, s', e) && Ready(s) && Ready(s') && AvoidsDir(s, e, path)
    ensures FindParent(s', Cwd, path) == FindParent(s, Cwd, path)
  {
    var parts := SplitLast(path);
    if parts.PathParts? && parts.dir != DOT {
      ResolveAvoids(s, s', e, s.cwd, parts.dir, true, 0);
    }
    var at := FindParentRaw(s, Cwd, path);
    if at.At? {
      assert NodeMoved(s, e, at.parent, s'.nodes[at.parent]);
    }
  }

  /** The first path of a rename named the node it moves; afterwards the second path does, and the
      first names nothing, provided their directories are not reached through what it moves. */
  lemma RenameSeen(s: Fs, from: Bytes, to: Bytes)
    requires Steady(s) && DoRename(s, from, to).edit.Move? && Literal(s, from) && Literal(s, to)
    ensures var e := DoRename(s, from, to).edit;
            && CanDo(s, e) && Steady(Do(s, e)) && Valid(s, e.id) && Valid(Do(s, e), e.id) && Names(s, from, e.id)
            && (AvoidsDir(s, e, to) ==> Names(Do(s, e), to, e.id))
            && (AvoidsDir(s, e, from) ==> Find(Do(s, e), Cwd, from, false) == Missing(ENOENT))
  {
    var e := DoRename(s, from, to).edit;
    RenameEdit(s, from, to);
    RenameSensible(s, from, to);
    MoveSteady(s, e);
    MoveIs(s, e);
    EntryNamed(s, from, e.id);
    if AvoidsDir(s, e, to) {
      SameDirectory(s, Do(s, e), e, to);
      EntryNamed(Do(s, e), to, e.id);
    }
    if AvoidsDir(s, e, from) {
      SameDirectory(s, Do(s, e), e, from);
      NoEntryNamed(Do(s, e), from);
    }
  }

  lemma MoveIs(s: Fs, e: Edit)
    requires WellFormed(s) && e.Move? && Legal(s, e) && CanDo(s, e) && WellFormed(Do(s, e))
    ensures MovedFrom(s, Do(s, e), e) && Valid(s, e.id) && (IsDir(s, e.id) ==> IsDir(Do(s, e), e.id))
  {
    MovedIs(s, e);
    assert NodeMoved(s, e, e.id, Do(s, e).nodes[e.id]);
  }
}
