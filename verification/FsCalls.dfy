/** Calls against later calls: what one makes, another sees. */
module FsCalls {
  import opened Text
  import opened FsState
  import opened FsTree
  import opened FsPaths
  import opened FsReach
  import opened FsOps
  import opened FsWellFormed
  import opened FsEdits
  import opened FsIsolation
  import opened FsEffects

  // ----- creating through dangling links -----

  /** No text on the way to the new name, the path or the target of a link, ends in a slash. */
  ghost predicate CleanEnd(s: Fs, cur: nat, path: Bytes, links: nat)
    requires Ready(s) && Valid(s, cur) && links <= MaxLinks(s) && FindForCreate(s, cur, path, links).At?
    decreases MaxLinks(s) - links, 1
  {
    var dir := CreateFront(s, cur, path, links);
    CompsOk(path, |Comps(path)| - 1);
    !Trailing(path) && CleanLast(s, dir.node, Comps(path)[|Comps(path)| - 1], dir.links)
  }

  ghost predicate CleanLast(s: Fs, dir: nat, last: Bytes, links: nat)
    requires Ready(s) && Valid(s, dir) && links <= MaxLinks(s) && SLASH !in last && IsReal(last) && FindLast(s, dir, last, links).At?
    decreases MaxLinks(s) - links, 0
  {
    Key(s, last) in s.nodes[dir].children ==>
      CleanEnd(s, dir, s.nodes[s.nodes[dir].children[Key(s, last)]].kind.target, links + 1)
  }

  /** The new node stands where the create found room for it. */
  ghost predicate Filled(s: Fs, s': Fs, at: Lookup, n: nat) {
    && Extends(s, s') && at.At? && Valid(s, at.parent) && Valid(s', n) && Key(s, at.name) in s'.nodes[at.parent].children
    && s'.nodes[at.parent].children[Key(s, at.name)] == n
    && s'.nodes[n].mountedBy.None? && !s'.nodes[n].kind.Symlink?
  }

  /** The node, or ENOTDIR when it should have been a directory. */
  ghost predicate SeenAs(s: Fs, r: Found, n: nat, clean: bool) {
    if IsDir(s, n) || clean then r.Found? && r.node == n else r == Missing(ENOTDIR)
  }

  /** Following the path from where the create looked it up leads to the new node, unless the
      node is no directory and some text on the way insists on one. */
  lemma {:induction false} NewNameSeen(s: Fs, s': Fs, cur: nat, path: Bytes, links: nat, n: nat)
    requires Ready(s) && Valid(s, cur) && links <= MaxLinks(s)
    requires FindForCreate(s, cur, path, links).At? && Filled(s, s', FindForCreate(s, cur, path, links), n)
    ensures SeenAs(s', Resolve(s', Virtual, cur, path, true, links), n, CleanEnd(s, cur, path, links))
    decreases MaxLinks(s) - links, 1
  {
    var comps := Comps(path);
    var front, last := comps[..|comps| - 1], comps[|comps| - 1];
    CompsOk(path, |comps| - 1);
    var dir := CreateFront(s, cur, path, links);
    LastSeen(s, s', dir.node, last, dir.links, n, Trailing(path));
    FrontSame(s, s', cur, path, links);
    assert comps == front + [last];
    LastStep(s', FsState.Enter(s', Virtual, if path[0] == SLASH then ROOT else cur), front, last, dir.node, dir.links, Trailing(path), links);
  }

  lemma FrontSame(s: Fs, s': Fs, cur: nat, path: Bytes, links: nat)
    requires Extends(s, s') && Valid(s, cur) && links <= MaxLinks(s) && path != [] && Comps(path) != []
    requires CreateFront(s, cur, path, links).Found?
    ensures CreateFront(s', cur, path, links) == CreateFront(s, cur, path, links)
  {
    var from := if path[0] == SLASH then ROOT else cur;
    assert KeptNode(s, s', from);
    WalkExtends(s, s', Virtual, FsState.Enter(s, Virtual, from), Comps(path)[..|Comps(path)| - 1], true, true, links);
  }

  lemma {:induction false} LastSeen(s: Fs, s': Fs, dir: nat, last: Bytes, links: nat, n: nat, wantDir: bool)
    requires Ready(s) && Valid(s, dir) && links <= MaxLinks(s) && SLASH !in last && IsReal(last)
    requires FindLast(s, dir, last, links).At? && Filled(s, s', FindLast(s, dir, last, links), n)
    ensures last != DOTDOT
    ensures SeenAs(s', Step(s', Virtual, dir, last, true, wantDir, links), n, !wantDir && CleanLast(s, dir, last, links))
    decreases MaxLinks(s) - links, 0
  {
    assert KeptNode(s, s', dir);
    var k := Key(s, last);
    if k in s.nodes[dir].children {
      var child := s.nodes[dir].children[k];
      assert NodeClosed(s.nodes[dir], |s.nodes|);
      assert KeptNode(s, s', child);
      NewNameSeen(s, s', dir, s.nodes[child].kind.target, links + 1, n);
    }
  }

  lemma LastStep(s: Fs, from: nat, front: seq<Bytes>, last: Bytes, d: nat, l: nat, slash: bool, links: nat)
    requires Closed(s) && Valid(s, from) && links <= MaxLinks(s) && l <= MaxLinks(s) && last != DOTDOT
    requires Walk(s, Virtual, from, front, true, true, links) == Found(d, l)
    ensures Valid(s, d)
    ensures Walk(s, Virtual, from, front + [last], true, slash, links) == Step(s, Virtual, d, last, true, slash, l)
  {
    WalkAppend(s, Virtual, from, front, [last], true, slash, links);
    assert [last][1..] == [];
  }

  // ----- calls -----

  lemma CreateEdit(s: Fs, parent: nat, name: Bytes, kind: Kind, open: Option<bool>, exists_: Errno)
    requires WellFormed(s) && IsDir(s, parent) && IsName(name) && |name| <= NAME_MAX && !kind.Opaque? && (open.Some? ==> kind.File?)
    requires CreateAt(s, parent, name, kind, open, exists_).outcome.Returned?
    ensures var e := CreateAt(s, parent, name, kind, open, exists_).edit;
            e == Create(parent, Key(s, name), kind, open) && Legal(s, e)
  {
    CreateSensible(s, parent, name, kind, open, exists_);
  }

  /** A node made where `FindNew` found room is seen by following the same path. */
  lemma NewSeen(s: Fs, path: Bytes, e: Edit)
    requires WellFormed(s) && Ready(s) && FindForCreate(s, s.cwd, path, 0).At? && e.Create? && Legal(s, e) && !e.kind.Symlink?
    requires var at := FindForCreate(s, s.cwd, path, 0); e.parent == at.parent && e.key == Key(s, at.name)
    ensures CanDo(s, e) && WellFormed(Do(s, e)) && Ready(Do(s, e))
    ensures SeenAs(Do(s, e), Find(Do(s, e), Cwd, path, true), |s.nodes|, CleanEnd(s, s.cwd, path, 0))
  {
    CreateFormed(s, e);
    FormedReady(Do(s, e));
    CreateExtends(s, e);
    NewNameSeen(s, Do(s, e), s.cwd, path, 0, |s.nodes|);
  }

  /** A node made under the last name of a path is seen at the path. */
  lemma NamedSeen(s: Fs, path: Bytes, e: Edit)
    requires Steady(s) && FindParent(s, Cwd, path).At? && e.Create? && Legal(s, e) && !e.kind.Symlink?
    requires var at := FindParent(s, Cwd, path); e.parent == at.parent && e.key == Key(s, at.name) && (at.slash ==> e.kind.Dir?)
    ensures CanDo(s, e) && WellFormed(Do(s, e)) && Ready(Do(s, e))
    ensures var r := Find(Do(s, e), Cwd, path, true); r.Found? && r.node == |s.nodes|
  {
    CreateFormed(s, e);
    LiteralSeen(s, path, e, true);
  }

  /** What `stat` says of a new node of kind `k`. */
  function StatOf(k: Kind, seen: bool): Verdict {
    if seen then Verdict(Nothing, Returned(0, [KindCode(k)])) else Err(ENOTDIR)
  }

  lemma MkdirFound(s: Fs, path: Bytes)
    requires Steady(s) && DoMkdir(s, Cwd, path).outcome.Returned?
    ensures var e := DoMkdir(s, Cwd, path).edit;
            && e.Create? && e.kind.Dir? && Legal(s, e) && CanDo(s, e) && WellFormed(Do(s, e)) && Ready(Do(s, e))
            && var r := Find(Do(s, e), Cwd, path, true); r.Found? && r.node == |s.nodes|
  {
    var at := FindParent(s, Cwd, path);
    var e := DoMkdir(s, Cwd, path).edit;
    if at.slash && IsMac(s) && TrailMac(s, Cwd, at.parent, Key(s, at.name), path).Dangling? {
      var new_ := FindNew(s, Cwd, path);
      CreateEdit(s, new_.parent, new_.name, Dir, None, EEXIST);
      NewSeen(s, path, e);
      CreateExtends(s, e);
    } else {
      CreateEdit(s, at.parent, at.name, Dir, None, EEXIST);
      NamedSeen(s, path, e);
    }
  }

  /** After a successful `mkdir`, also one through a dangling link, the path is an empty directory. */
  lemma MkdirSeen(s: Fs, path: Bytes)
    requires Steady(s) && DoMkdir(s, Cwd, path).outcome.Returned?
    ensures var e := DoMkdir(s, Cwd, path).edit;
            && CanDo(s, e) && WellFormed(Do(s, e)) && DoStat(Do(s, e), path, true) == StatOf(Dir, true)
            && DoList(Do(s, e), path) == Verdict(Nothing, Returned(0, []))
  {
    MkdirFound(s, path);
    var e := DoMkdir(s, Cwd, path).edit;
    CreateExtends(s, e);
    EmptyListing(Do(s, e), path, |s.nodes|);
  }

  lemma EmptyListing(s: Fs, path: Bytes, n: nat)
    requires WellFormed(s) && Ready(s) && IsDir(s, n) && s.nodes[n].kind.Dir? && s.nodes[n].children == map[]
    requires var r := Find(s, Cwd, path, true); r.Found? && r.node == n
    ensures DoStat(s, path, true) == StatOf(Dir, true) && DoList(s, path) == Verdict(Nothing, Returned(0, []))
  {
    assert s.nodes[n].children.Keys == {};
    assert Sorted({}) == [];
  }

  /** A text without slashes is its own last name. */
  lemma SplitAlone(name: Bytes)
    requires IsName(name)
    ensures SplitLast(name) == PathParts(DOT, name, false)
  {
    assert name[|name| - 1] in name;
    assert name[..|name|] == name;
  }

  /** After a successful `mkstemp` the name is a file in the working directory, open under the
      descriptor returned. */
  lemma MkstempSeen(s: Fs, name: Bytes)
    requires Steady(s) && DoMkstemp(s, name).outcome.Returned? && |name| < PathMax(s)
    ensures var v := DoMkstemp(s, name);
            var s' := (CreateAtFormed(s, name); Do(s, v.edit));
            && WellFormed(s') && DoStat(s', name, true) == StatOf(File([]), true)
            && v.outcome.ret == s.nextFd && s'.fds == s.fds[s.nextFd := FileFd(|s.nodes|, 0, true)]
  {
    var e := DoMkstemp(s, name).edit;
    CreateAtFormed(s, name);
    SplitAlone(name);
    NamedSeen(s, name, e);
    CreateExtends(s, e);
  }

  lemma CreateAtFormed(s: Fs, name: Bytes)
    requires WellFormed(s) && DoMkstemp(s, name).outcome.Returned?
    ensures IsName(name) && |name| <= NAME_MAX
    ensures var e := DoMkstemp(s, name).edit;
            e == Create(s.cwd, Key(s, name), File([]), Some(true)) && Legal(s, e) && CanDo(s, e) && WellFormed(Do(s, e))
  {
    CreateEdit(s, s.cwd, name, File([]), Some(true), EEXIST);
    CreateFormed(s, DoMkstemp(s, name).edit);
  }

  lemma SlashIs(s: Fs, path: Bytes)
    requires Ready(s)
    ensures FindParent(s, Cwd, path).At? ==> FindParent(s, Cwd, path).slash == Trailing(path)
  {
    if FindParent(s, Cwd, path).At? {
      SplitLastComps(path);
    }
  }

  /** A slash at the end keeps O_CREAT from creating. */
  lemma OpenNoSlash(s: Fs, path: Bytes, flags: OpenFlags)
    requires WellFormed(s) && Ready(s) && DoOpen(s, Cwd, path, flags).edit.Create? && FindParent(s, Cwd, path).At?
    ensures flags.create && !FindParent(s, Cwd, path).slash
  {
    SlashIs(s, path);
  }

  /** After an `open` that created a file, `stat` of the path sees it exactly when no link on the
      way ends in a slash. */
  lemma OpenSeen(s: Fs, path: Bytes, flags: OpenFlags)
    requires Steady(s) && DoOpen(s, Cwd, path, flags).edit.Create?
    ensures !flags.excl ==> FindForCreate(s, s.cwd, path, 0).At?
    ensures var e := DoOpen(s, Cwd, path, flags).edit;
            && CanDo(s, e) && WellFormed(Do(s, e))
            && DoStat(Do(s, e), path, true) == StatOf(File([]), flags.excl || CleanEnd(s, s.cwd, path, 0))
  {
    var e := DoOpen(s, Cwd, path, flags).edit;
    if flags.excl {
      var at := FindParent(s, Cwd, path);
      CreateEdit(s, at.parent, at.name, File([]), Some(flags.write), EEXIST);
      OpenNoSlash(s, path, flags);
      NamedSeen(s, path, e);
    } else {
      var at := FindNew(s, Cwd, path);
      CreateEdit(s, at.parent, at.name, File([]), Some(flags.write), EEXIST);
      NewSeen(s, path, e);
    }
    CreateExtends(s, e);
  }

  /** On macOS `bind` follows a link in the last place; elsewhere it makes the name itself. */
  ghost predicate BindsThroughLink(s: Fs, path: Bytes)
    requires Ready(s) && FindParent(s, Cwd, path).At?
  {
    var at := FindParent(s, Cwd, path);
    var k := Key(s, at.name);
    IsMac(s) && k in s.nodes[at.parent].children && s.nodes[s.nodes[at.parent].children[k]].kind.Symlink?
  }

  lemma BindEdit(s: Fs, path: Bytes)
    requires WellFormed(s) && Ready(s) && DoBind(s, path).outcome.Returned?
    ensures FindParent(s, Cwd, path).At? && !FindParent(s, Cwd, path).slash
    ensures var at := if BindsThroughLink(s, path) then FindForCreate(s, s.cwd, path, 0) else FindParent(s, Cwd, path);
            var e := DoBind(s, path).edit;
            at.At? && e == Create(at.parent, Key(s, at.name), Socket, None) && Legal(s, e)
  {
    var at := if BindsThroughLink(s, path) then FindNew(s, Cwd, path) else FindParent(s, Cwd, path);
    CreateEdit(s, at.parent, at.name, Socket, None, EADDRINUSE);
  }

  /** After a successful `bind`, `connect` to the same path succeeds exactly when no link on the
      way ends in a slash. */
  lemma BindConnects(s: Fs, path: Bytes)
    requires Steady(s) && DoBind(s, path).outcome.Returned?
    ensures FindParent(s, Cwd, path).At? && (BindsThroughLink(s, path) ==> FindForCreate(s, s.cwd, path, 0).At?)
    ensures var e := DoBind(s, path).edit;
            && CanDo(s, e) && WellFormed(Do(s, e))
            && DoConnect(Do(s, e), path) == if BindsThroughLink(s, path) && !CleanEnd(s, s.cwd, path, 0) then Err(ENOTDIR) else Ok(Nothing, 0)
  {
    var e := DoBind(s, path).edit;
    BindEdit(s, path);
    if BindsThroughLink(s, path) {
      NewSeen(s, path, e);
    } else {
      NamedSeen(s, path, e);
    }
    CreateExtends(s, e);
    DirStays(s, Do(s, e), path);
  }

  lemma DirStays(s: Fs, s': Fs, path: Bytes)
    requires Ready(s) && Ready(s') && Extends(s, s') && s'.cwd == s.cwd && FindParent(s, Cwd, path).At?
    ensures FindParent(s', Cwd, path) == FindParent(s, Cwd, path)
  {
    var parts := SplitLast(path);
    if parts.dir != DOT {
      ResolveExtends(s, s', Virtual, s.cwd, parts.dir, true, 0);
    }
    assert KeptNode(s, s', FindParent(s, Cwd, path).parent);
  }

  /** After a successful `symlink`, `readlink` of the same path returns the target. */
  lemma SymlinkReadsBack(s: Fs, target: Bytes, path: Bytes)
    requires Steady(s) && DoSymlink(s, target, path).outcome.Returned?
    ensures var e := DoSymlink(s, target, path).edit;
            CanDo(s, e) && WellFormed(Do(s, e)) && DoReadlink(Do(s, e), path) == Verdict(Nothing, Returned(|target|, target))
  {
    var e := DoSymlink(s, target, path).edit;
    SymlinkEdit(s, target, path);
    CreateFormed(s, e);
    LiteralSeen(s, path, e, false);
    ReadNew(s, e, path, target);
  }

  lemma SymlinkEdit(s: Fs, target: Bytes, path: Bytes)
    requires WellFormed(s) && Ready(s) && DoSymlink(s, target, path).outcome.Returned?
    ensures var at := FindParent(s, Cwd, path);
            var e := DoSymlink(s, target, path).edit;
            at.At? && !at.slash && e == Create(at.parent, Key(s, at.name), Symlink(target), None) && Legal(s, e)
  {
    var at := FindParent(s, Cwd, path);
    if at.At? && !at.slash {
      CreateEdit(s, at.parent, at.name, Symlink(target), None, EEXIST);
    }
  }

  lemma ReadNew(s: Fs, e: Edit, path: Bytes, target: Bytes)
    requires WellFormed(s) && e.Create? && Legal(s, e) && e.kind == Symlink(target) && CanDo(s, e) && WellFormed(Do(s, e)) && Ready(Do(s, e))
    requires var r := Find(Do(s, e), Cwd, path, false); r.Found? && r.node == |s.nodes|
    ensures DoReadlink(Do(s, e), path) == Verdict(Nothing, Returned(|target|, target))
  {
    CreateExtends(s, e);
  }

  // ----- reading and writing -----

  /** Writing puts the data at its position, zeros in front of it where the file was shorter,
      and leaves every other byte. */
  lemma PutAtIs(content: Bytes, pos: nat, data: Bytes)
    ensures var r := PutAt(content, pos, data);
            && |r| == (if pos + |data| > |content| then pos + |data| else |content|)
            && r[pos..pos + |data|] == data
            && (forall i :: 0 <= i < |content| && (i < pos || pos + |data| <= i) ==> r[i] == content[i])
            && (forall i :: |content| <= i < pos ==> r[i] == 0)
  {
  }

  /** What was written through one descriptor is read through another one at its position. */
  lemma WrittenIsRead(s: Fs, fd: nat, data: Bytes, other: nat)
    requires WellFormed(s) && Decide(s, Write(fd, data)).outcome.Returned?
    requires other != fd && other in s.fds && s.fds[other].FileFd? && s.fds[other].node == s.fds[fd].node && s.fds[other].pos == s.fds[fd].pos
    ensures Apply(Apply(s, Write(fd, data)).0, Read(other, |data|)).1 == Returned(|data|, data)
  {
    FdSensible(s, fd, data, 0);
    var n, pos := s.fds[fd].node, s.fds[fd].pos;
    var e := DoWrite(s, fd, data).edit;
    EditFormed(s, e);
    var s' := Do(s, e);
    PutAtIs(s.nodes[n].kind.content, pos, data);
    assert s'.fds[other] == s.fds[other];
  }

  // ----- runs -----

  lemma MoveMountDirs(s: Fs, e: Edit)
    requires WellFormed(s) && MountDirs(s) && e.Move? && Legal(s, e)
    ensures CanDo(s, e) && MountDirs(Do(s, e))
  {
    MovedIs(s, e);
    var s' := Do(s, e);
    forall n: nat | Valid(s', n) && s'.nodes[n].mountedBy.Some? ensures IsDir(s', n) {
      assert NodeMoved(s, e, n, s'.nodes[n]);
    }
  }

  lemma EditMountDirs(s: Fs, e: Edit)
    requires WellFormed(s) && MountDirs(s) && Legal(s, e)
    ensures CanDo(s, e) && MountDirs(Do(s, e))
  {
    EditFormed(s, e);
    if e.Move? {
      MoveMountDirs(s, e);
    } else {
      var s' := Do(s, e);
      forall n: nat | Valid(s', n) && s'.nodes[n].mountedBy.Some? ensures IsDir(s', n) {
        assert Valid(s, n) && s.nodes[n].mountedBy.Some?;
      }
    }
  }

  /** What the statements above assume holds in every state that any run reaches. */
  lemma {:induction false} RunSteady(s: Fs, ops: seq<Op>)
    requires Isolated(s) && MountDirs(s)
    ensures Steady(After(s, ops))
    decreases |ops|
  {
    if ops == [] {
      FormedReady(s);
      assert Chain(s, FsTree.Owner, s.cwd)[0] == s.cwd;
    } else {
      DecideSensible(s, ops[0]);
      EditMountDirs(s, Decide(s, ops[0]).edit);
      StepShield(s, ops[0]);
      RunSteady(Apply(s, ops[0]).0, ops[1..]);
    }
  }
}
