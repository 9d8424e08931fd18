/** Calls relative to a descriptor: they decide as the plain calls do in that directory. */
module FsAt {
  import opened Text
  import opened FsState
  import opened FsTree
  import opened FsOps
  import opened FsWellFormed
  import opened FsEdits
  import opened FsScript

  /** The same tree under two models that may differ in working directory and descriptors. */
  ghost predicate SameNodes(s: Fs, t: Fs) {
    && WellFormed(s) && WellFormed(t) && Ready(s) && Ready(t)
    && s.nodes == t.nodes && s.profile == t.profile && s.fold == t.fold && s.nextFd == t.nextFd
  }

  lemma {:induction false} ResolveSame(s: Fs, t: Fs, view: View, start: nat, path: Bytes, follow: bool, links: nat)
    requires SameNodes(s, t) && Valid(s, start) && links <= MaxLinks(s)
    ensures Resolve(t, view, start, path, follow, links) == Resolve(s, view, start, path, follow, links)
    decreases MaxLinks(s) - links, 3, 0
  {
    if 0 < |path| < PathMax(s) {
      WalkSame(s, t, view, FsState.Enter(s, view, if path[0] == SLASH then ROOT else start), Comps(path), follow, Trailing(path), links);
    }
  }

  lemma {:induction false} WalkSame(s: Fs, t: Fs, view: View, cur: nat, comps: seq<Bytes>, follow: bool, slash: bool, links: nat)
    requires SameNodes(s, t) && Valid(s, cur) && links <= MaxLinks(s)
    ensures Walk(t, view, cur, comps, follow, slash, links) == Walk(s, view, cur, comps, follow, slash, links)
    decreases MaxLinks(s) - links, 2, |comps|
  {
    if comps == [] {
    } else if comps[0] == DOTDOT {
      assert NodeClosed(s.nodes[cur], |s.nodes|);
      WalkSame(s, t, view, FsState.Enter(s, view, ParentOf(s, view, cur)), comps[1..], follow, slash, links);
    } else {
      var last := |comps| == 1;
      var f, w := !last || follow || slash, !last || slash;
      StepSame(s, t, view, cur, comps[0], f, w, links);
      var next := Step(s, view, cur, comps[0], f, w, links);
      if next.Found? {
        WalkSame(s, t, view, next.node, comps[1..], follow, slash, next.links);
      }
    }
  }

  lemma {:induction false} StepSame(s: Fs, t: Fs, view: View, cur: nat, name: Bytes, follow: bool, wantDir: bool, links: nat)
    requires SameNodes(s, t) && Valid(s, cur) && links <= MaxLinks(s)
    ensures Step(t, view, cur, name, follow, wantDir, links) == Step(s, view, cur, name, follow, wantDir, links)
    decreases MaxLinks(s) - links, 1, 0
  {
    if Key(s, name) in s.nodes[cur].children {
      assert NodeClosed(s.nodes[cur], |s.nodes|);
      FollowSame(s, t, view, cur, s.nodes[cur].children[Key(s, name)], links);
    }
  }

  lemma {:induction false} FollowSame(s: Fs, t: Fs, view: View, dir: nat, link: nat, links: nat)
    requires SameNodes(s, t) && Valid(s, dir) && Valid(s, link) && links <= MaxLinks(s)
    ensures FollowLink(t, view, dir, link, links) == FollowLink(s, view, dir, link, links)
    decreases MaxLinks(s) - links, 0, 0
  {
    if s.nodes[link].kind.Symlink? && links + 1 <= MaxLinks(s) {
      ResolveSame(s, t, view, dir, s.nodes[link].kind.target, true, links + 1);
    }
  }

  lemma {:induction false} CreateSame(s: Fs, t: Fs, cur: nat, path: Bytes, links: nat)
    requires SameNodes(s, t) && Valid(s, cur) && links <= MaxLinks(s)
    ensures FindForCreate(t, cur, path, links) == FindForCreate(s, cur, path, links)
    decreases MaxLinks(s) - links, 1
  {
    if 0 < |path| < PathMax(s) && Comps(path) != [] {
      var comps := Comps(path);
      WalkSame(s, t, Virtual, FsState.Enter(s, Virtual, if path[0] == SLASH then ROOT else cur), comps[..|comps| - 1], true, true, links);
      var dir := CreateFront(s, cur, path, links);
      if dir.Found? {
        CompsOk(path, |comps| - 1);
        LastSame(s, t, dir.node, comps[|comps| - 1], dir.links);
      }
    }
  }

  lemma {:induction false} LastSame(s: Fs, t: Fs, dir: nat, last: Bytes, links: nat)
    requires SameNodes(s, t) && Valid(s, dir) && links <= MaxLinks(s) && SLASH !in last && IsReal(last)
    ensures FindLast(t, dir, last, links) == FindLast(s, dir, last, links)
    decreases MaxLinks(s) - links, 0
  {
    if Key(s, last) in s.nodes[dir].children {
      assert NodeClosed(s.nodes[dir], |s.nodes|);
      var child := s.nodes[dir].children[Key(s, last)];
      if s.nodes[child].kind.Symlink? && links + 1 <= MaxLinks(s) {
        CreateSame(s, t, dir, s.nodes[child].kind.target, links + 1);
      }
    }
  }

  lemma DetachedSame(s: Fs, t: Fs, n: nat)
    requires SameNodes(s, t) && Valid(s, n)
    ensures IsDetached(t, n) <==> IsDetached(s, n)
  {
    var c := Chain(s, FsTree.Owner, n);
    forall i | 0 <= i < |c| - 1 ensures Up(t, FsTree.Owner, c[i]) == Some(c[i + 1]) {
      assert Up(s, FsTree.Owner, c[i]) == Some(c[i + 1]);
    }
    assert IsChain(t, FsTree.Owner, c);
    ChainUnique(t, FsTree.Owner, c, Chain(t, FsTree.Owner, n));
  }

  lemma OwnerSame(s: Fs, t: Fs, n: nat)
    requires SameNodes(s, t) && Valid(s, n)
    ensures OwnerOf(t, n) == OwnerOf(s, n)
  {
    if s.nodes[n].parent.Some? {
      var p := s.nodes[n].parent.value;
      assert NodeClosed(s.nodes[n], |s.nodes|);
      assert HasEntry(t, p, n) <==> HasEntry(s, p, n);
      if HasEntry(s, p, n) {
        assert NodeOk(s, p) && EntryOk(s, p, EntryName(s, p, n));
      }
    }
  }

  // ----- a directory descriptor as a working directory -----

  /** `t` is `s` with the directory of descriptor `fd` as working directory. */
  ghost predicate InDirectory(s: Fs, t: Fs, fd: nat) {
    SameNodes(s, t) && fd in s.fds && s.fds[fd].DirFd? && t == s.(cwd := s.fds[fd].node)
  }

  lemma Changes(s: Fs, fd: nat) returns (t: Fs)
    requires WellFormed(s) && fd in s.fds && s.fds[fd].DirFd?
    ensures t == s.(cwd := s.fds[fd].node) && InDirectory(s, t, fd)
  {
    t := s.(cwd := s.fds[fd].node);
    assert FdOk(s, s.fds[fd]);
    var e := Edit.Enter(s.fds[fd].node);
    EditFormed(s, e);
    assert Do(s, e) == t;
    FormedReady(s);
    FormedReady(t);
  }

  lemma FindAt(s: Fs, t: Fs, fd: nat, whole: Bytes, path: Bytes, follow: bool)
    requires InDirectory(s, t, fd) && (whole != [] && whole[0] == SLASH ==> path != [] && path[0] == SLASH)
    ensures Find(t, Cwd, path, follow) == Find(s, AtStart(fd, whole), path, follow)
  {
    ResolveSame(s, t, Virtual, t.cwd, path, follow, 0);
    if whole != [] && whole[0] == SLASH {
      assert Resolve(s, Virtual, t.cwd, path, follow, 0) == Resolve(s, Virtual, ROOT, path, follow, 0);
    }
  }

  /** The directory text of an absolute path is absolute. */
  lemma DirAbsolute(path: Bytes)
    requires path != [] && path[0] == SLASH && SplitLast(path).PathParts?
    ensures SplitLast(path).dir != [] && SplitLast(path).dir[0] == SLASH && SplitLast(path).dir != DOT
  {
    assert DOT[0] == 46;
    assert SlashBefore(path, TrimEnd(path)).Some?;
  }

  lemma ParentAt(s: Fs, t: Fs, fd: nat, path: Bytes)
    requires InDirectory(s, t, fd)
    ensures FindParentRaw(t, Cwd, path) == FindParentRaw(s, AtStart(fd, path), path)
    ensures FindParent(t, Cwd, path) == FindParent(s, AtStart(fd, path), path)
  {
    var parts := SplitLast(path);
    if parts.PathParts? {
      if path[0] == SLASH {
        DirAbsolute(path);
      }
      FindAt(s, t, fd, path, parts.dir, true);
    }
  }

  lemma NewAt(s: Fs, t: Fs, fd: nat, path: Bytes)
    requires InDirectory(s, t, fd)
    ensures FindNew(t, Cwd, path) == FindNew(s, AtStart(fd, path), path)
  {
    CreateSame(s, t, t.cwd, path, 0);
    if path != [] && path[0] == SLASH {
      assert FindForCreate(s, t.cwd, path, 0) == FindForCreate(s, ROOT, path, 0);
    }
  }

  lemma TrailAt(s: Fs, t: Fs, fd: nat, parent: nat, key: Bytes, path: Bytes)
    requires InDirectory(s, t, fd) && Valid(s, parent)
    ensures TrailMac(t, Cwd, parent, key, path) == TrailMac(s, AtStart(fd, path), parent, key, path)
  {
    NewAt(s, t, fd, path);
    if key in s.nodes[parent].children {
      assert NodeClosed(s.nodes[parent], |s.nodes|);
      FollowSame(s, t, Virtual, parent, s.nodes[parent].children[key], 0);
    }
  }

  lemma CreateAtSame(s: Fs, t: Fs, parent: nat, name: Bytes, kind: Kind, open: Option<bool>, e: Errno)
    requires SameNodes(s, t) && Valid(s, parent)
    ensures CreateAt(t, parent, name, kind, open, e) == CreateAt(s, parent, name, kind, open, e)
  {
    DetachedSame(s, t, parent);
  }

  // ----- the calls -----

  lemma MkdirAtIs(s: Fs, t: Fs, fd: nat, path: Bytes)
    requires InDirectory(s, t, fd)
    ensures DoMkdir(t, Cwd, path) == DoMkdir(s, AtStart(fd, path), path)
  {
    ParentAt(s, t, fd, path);
    var at := FindParent(t, Cwd, path);
    if at.At? {
      var key := Key(s, at.name);
      TrailAt(s, t, fd, at.parent, key, path);
      CreateAtSame(s, t, at.parent, at.name, Dir, None, EEXIST);
      var tr := TrailMac(t, Cwd, at.parent, key, path);
      if tr.Dangling? {
        CreateAtSame(s, t, tr.parent, tr.name, Dir, None, EEXIST);
      }
    }
  }

  lemma SlashAt(s: Fs, t: Fs, fd: nat, path: Bytes, flags: OpenFlags)
    requires InDirectory(s, t, fd)
    ensures OpenSlash(t, Cwd, path, flags) == OpenSlash(s, AtStart(fd, path), path, flags)
  {
    ParentAt(s, t, fd, path);
    var at := FindParentRaw(t, Cwd, path);
    if at.At? {
      TrailAt(s, t, fd, at.parent, Key(s, at.name), path);
    }
  }

  lemma ExclusiveAt(s: Fs, t: Fs, fd: nat, path: Bytes, flags: OpenFlags)
    requires InDirectory(s, t, fd)
    ensures OpenExclusive(t, Cwd, path, flags) == OpenExclusive(s, AtStart(fd, path), path, flags)
  {
    ParentAt(s, t, fd, path);
    var at := FindParent(t, Cwd, path);
    if at.At? {
      CreateAtSame(s, t, at.parent, at.name, File([]), Some(flags.write), EEXIST);
    }
  }

  lemma LookupAt(s: Fs, t: Fs, fd: nat, path: Bytes, flags: OpenFlags)
    requires InDirectory(s, t, fd)
    ensures OpenLookup(t, Cwd, path, flags) == OpenLookup(s, AtStart(fd, path), path, flags)
  {
    FindAt(s, t, fd, path, path, !flags.nofollow);
    NewAt(s, t, fd, path);
    var at := FindNew(t, Cwd, path);
    if at.At? {
      CreateAtSame(s, t, at.parent, at.name, File([]), Some(flags.write), EEXIST);
    }
  }

  lemma OpenAtIs(s: Fs, t: Fs, fd: nat, path: Bytes, flags: OpenFlags)
    requires InDirectory(s, t, fd)
    ensures DoOpen(t, Cwd, path, flags) == DoOpen(s, AtStart(fd, path), path, flags)
  {
    SlashAt(s, t, fd, path, flags);
    ExclusiveAt(s, t, fd, path, flags);
    LookupAt(s, t, fd, path, flags);
  }

  lemma TakeAt(s: Fs, t: Fs, fd: nat, at: Lookup, path: Bytes)
    requires InDirectory(s, t, fd) && at.At? && Valid(s, at.parent)
    ensures TakeSlot(t, Cwd, at, path) == TakeSlot(s, AtStart(fd, path), at, path)
  {
    var key := Key(s, at.name);
    TrailAt(s, t, fd, at.parent, key, path);
    var tr := TrailMac(t, Cwd, at.parent, key, path);
    if tr.DirAt? {
      OwnerSame(s, t, tr.node);
    }
  }

  lemma UnlinkAtIs(s: Fs, t: Fs, fd: nat, path: Bytes, rmdir: bool)
    requires InDirectory(s, t, fd)
    ensures DoUnlink(t, Cwd, path, rmdir) == DoUnlink(s, AtStart(fd, path), path, rmdir)
  {
    ParentAt(s, t, fd, path);
    var at := FindParent(t, Cwd, path);
    if at.At? {
      TrailAt(s, t, fd, at.parent, Key(s, at.name), path);
      TakeAt(s, t, fd, at, path);
    }
  }

  /** The plain call with the same operands. */
  function Plain(op: Op): Op {
    match op
    case MkdirAt(_, path) => Mkdir(path, 0)
    case OpenAt(_, path, flags) => Open(path, flags)
    case UnlinkAt(_, path, rmdir) => if rmdir then Rmdir(path) else Unlink(path)
    case _ => op
  }

  /** `mkdirat`, `openat` and `unlinkat` decide exactly as the plain call does with the directory
      of the descriptor as working directory. */
  lemma AtIsChdir(s: Fs, op: Op)
    requires WellFormed(s) && (op.MkdirAt? || op.OpenAt? || op.UnlinkAt?) && op.dirfd in s.fds && s.fds[op.dirfd].DirFd?
    ensures var t := s.(cwd := s.fds[op.dirfd].node); WellFormed(t) && Decide(t, Plain(op)) == Decide(s, op)
  {
    var t := Changes(s, op.dirfd);
    DecidesAt(s, op);
    DecidesPlain(t, op);
    match op
    case MkdirAt(fd, path) => MkdirAtIs(s, t, fd, path);
    case OpenAt(fd, path, flags) => OpenAtIs(s, t, fd, path, flags);
    case UnlinkAt(fd, path, rmdir) => UnlinkAtIs(s, t, fd, path, rmdir);
  }

  /** What such a call decides, looked up from `start`. */
  ghost function DoAt(s: Fs, op: Op, start: Start): Verdict
    requires WellFormed(s) && (op.MkdirAt? || op.OpenAt? || op.UnlinkAt?)
  {
    match op
    case MkdirAt(_, path) => DoMkdir(s, start, path)
    case OpenAt(_, path, flags) => DoOpen(s, start, path, flags)
    case UnlinkAt(_, path, rmdir) => DoUnlink(s, start, path, rmdir)
  }

  lemma DecidesAt(s: Fs, op: Op)
    requires WellFormed(s) && (op.MkdirAt? || op.OpenAt? || op.UnlinkAt?)
    ensures Decide(s, op) == DoAt(s, op, AtStart(op.dirfd, op.path))
  {
  }

  lemma DecidesPlain(s: Fs, op: Op)
    requires WellFormed(s) && (op.MkdirAt? || op.OpenAt? || op.UnlinkAt?)
    ensures Decide(s, Plain(op)) == DoAt(s, op, Cwd)
  {
  }

  // ----- chdir, getcwd and realpath -----

  lemma NameSame(s: Fs, t: Fs, n: nat)
    requires SameNodes(s, t) && Valid(s, n)
    ensures NameAndParent(t, Virtual, n) == NameAndParent(s, Virtual, n)
  {
    if s.nodes[n].parent.Some? {
      var p := s.nodes[n].parent.value;
      assert NodeClosed(s.nodes[n], |s.nodes|);
      assert HasEntry(t, p, n) <==> HasEntry(s, p, n);
      if HasEntry(s, p, n) {
        assert NodeOk(s, p) && EntryOk(s, p, EntryName(s, p, n));
      }
    }
  }

  lemma {:induction false} NamesSame(s: Fs, t: Fs, c: seq<nat>)
    requires SameNodes(s, t) && IsChain(s, Reported(Virtual), c)
    ensures IsChain(t, Reported(Virtual), c) && NamesAlong(t, Virtual, c) == NamesAlong(s, Virtual, c)
    decreases |c|
  {
    NameSame(s, t, c[0]);
    ChainStart(s, Reported(Virtual), c);
    if |c| == 1 {
      assert c == [c[0]];
      ChainNil(t, Reported(Virtual), c[0]);
    } else {
      ChainTail(s, Reported(Virtual), c);
      NamesSame(s, t, c[1..]);
      assert c == [c[0]] + c[1..];
      ChainCons(t, Reported(Virtual), c[0], c[1..]);
    }
  }

  lemma EndsSame(s: Fs, t: Fs, n: nat)
    requires SameNodes(s, t) && Ends(s, Reported(Virtual), n)
    ensures Ends(t, Reported(Virtual), n) && FullPath(t, Virtual, n) == FullPath(s, Virtual, n)
  {
    var c := Chain(s, Reported(Virtual), n);
    NamesSame(s, t, c);
    ChainUnique(t, Reported(Virtual), c, Chain(t, Reported(Virtual), n));
  }

  lemma ReportSame(s: Fs, t: Fs, n: nat)
    requires SameNodes(s, t) && SameNodes(t, s)
    ensures ReportPath(t, n) == ReportPath(s, n)
  {
    if Ends(s, Reported(Virtual), n) {
      EndsSame(s, t, n);
    } else if Ends(t, Reported(Virtual), n) {
      EndsSame(t, s, n);
    }
  }

  lemma ChdirDecides(s: Fs, path: Bytes)
    requires WellFormed(s) && Ready(s) && DoChdir(s, path).outcome.Returned?
    ensures var r := Find(s, Cwd, path, true); r.Found? && IsDir(s, r.node) && DoChdir(s, path) == Ok(Edit.Enter(r.node), 0)
  {
  }

  lemma Entered(s: Fs, n: nat)
    requires WellFormed(s) && CanDo(s, Edit.Enter(n)) && WellFormed(Do(s, Edit.Enter(n)))
    ensures var t := Do(s, Edit.Enter(n)); t == s.(cwd := n) && SameNodes(s, t) && SameNodes(t, s)
  {
    FormedReady(s);
    FormedReady(Do(s, Edit.Enter(n)));
  }

  /** What the two calls return, the state being left alone. */
  lemma ReportsReturn(s: Fs, path: Bytes)
    requires WellFormed(s)
    ensures Apply(s, Getcwd).1 == DoGetcwd(s).outcome && Apply(s, Realpath(path)).1 == DoRealpath(s, path).outcome
  {
  }

  /** After a successful `chdir`, `getcwd` returns what `realpath` returned for the path, unless the
      directory had been removed: then it is ENOENT. */
  lemma ChdirThenGetcwd(s: Fs, path: Bytes)
    requires WellFormed(s) && Ready(s) && DoChdir(s, path).outcome.Returned? && (IsDetached(s, s.cwd) ==> path != [] && path[0] == SLASH)
    ensures Find(s, Cwd, path, true).Found?
    ensures var n := Find(s, Cwd, path, true).node;
            Apply(Apply(s, Chdir(path)).0, Getcwd).1 == if IsDetached(s, n) then Failed(ENOENT) else Apply(s, Realpath(path)).1
  {
    ChdirDecides(s, path);
    var n := Find(s, Cwd, path, true).node;
    CallApplies(s, Chdir(path), Edit.Enter(n));
    var t := Do(s, Edit.Enter(n));
    Entered(s, n);
    DetachedSame(s, t, n);
    ReportSame(s, t, n);
    ReportsReturn(t, path);
    ReportsReturn(s, path);
    GetcwdAfter(s, t, n, path);
  }

  lemma GetcwdAfter(s: Fs, t: Fs, n: nat, path: Bytes)
    requires WellFormed(s) && Ready(s) && WellFormed(t) && t.cwd == n && Valid(s, n) && (IsDetached(t, n) <==> IsDetached(s, n)) && ReportPath(t, n) == ReportPath(s, n)
    requires Find(s, Cwd, path, true).Found? && Find(s, Cwd, path, true).node == n && (IsDetached(s, s.cwd) ==> path != [] && path[0] == SLASH)
    ensures DoGetcwd(t).outcome == if IsDetached(s, n) then Failed(ENOENT) else DoRealpath(s, path).outcome
  {
  }
}
