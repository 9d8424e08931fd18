/** Isolation over whole runs: what lies below a mountpoint is out of reach. */
module FsIsolation {
  import opened Text
  import opened FsState
  import opened FsTree
  import opened FsPaths
  import opened FsReach
  import opened FsOps
  import opened FsWellFormed
  import opened FsEdits

  /** Strictly below a mountpoint. */
  ghost predicate Hidden(s: Fs, n: nat)
    requires WellFormed(s)
  {
    Valid(s, n) && s.nodes[n].parent.Some? && !Visible(s, s.nodes[n].parent.value)
  }

  /** The mounts lead between visible nodes, and so do the working directory and every descriptor. */
  ghost predicate Isolated(s: Fs) {
    && MountsVisible(s)
    && Visible(s, s.cwd)
    && (forall f :: f in s.fds ==> Visible(s, s.fds[f].node))
  }

  // ----- calls act on visible nodes -----

  ghost predicate Within(s: Fs, e: Edit)
    requires WellFormed(s)
  {
    match e
    case Nothing => true
    case Create(p, _, _, _) => Visible(s, p)
    case OpenFile(n, _, _) => Visible(s, n)
    case OpenNode(n) => Visible(s, n)
    case PutData(_, n, _, _) => Visible(s, n)
    case Seek(_, n, _, _) => Visible(s, n)
    case Close(_) => true
    case Enter(n) => Visible(s, n)
    case Move(fp, _, _, tp, _) => Visible(s, fp) && Visible(s, tp)
    case Remove(p, _, _) => Visible(s, p)
  }

  lemma FindVisible(s: Fs, start: Start, path: Bytes, follow: bool)
    requires Isolated(s) && Ready(s)
    ensures var r := Find(s, start, path, follow); r.Found? ==> Visible(s, r.node)
  {
    var from := StartNode(s, start);
    if from.Found? {
      StartVisible(s, start);
      ResolveVisible(s, from.node, path, follow, 0);
    }
  }

  lemma StartVisible(s: Fs, start: Start)
    requires Isolated(s)
    ensures var from := StartNode(s, start); from.Found? ==> Visible(s, from.node)
  {
  }

  lemma ParentVisible(s: Fs, start: Start, path: Bytes)
    requires Isolated(s) && Ready(s)
    ensures var r := FindParentRaw(s, start, path); r.At? ==> Visible(s, r.parent)
  {
    var parts := SplitLast(path);
    if parts.PathParts? {
      StartVisible(s, start);
      FindVisible(s, start, parts.dir, true);
    }
  }

  lemma FrontVisible(s: Fs, cur: nat, path: Bytes, links: nat)
    requires MountsVisible(s) && Visible(s, cur) && links <= MaxLinks(s) && path != [] && Comps(path) != []
    ensures var dir := CreateFront(s, cur, path, links); dir.Found? ==> Visible(s, dir.node)
  {
    var from := if path[0] == SLASH then ROOT else cur;
    VisibleSelf(s, from);
    WalkVisible(s, from, Comps(path)[..|Comps(path)| - 1], true, true, links);
  }

  lemma {:induction false} CreateVisible(s: Fs, cur: nat, path: Bytes, links: nat)
    requires Isolated(s) && Ready(s) && Visible(s, cur) && links <= MaxLinks(s)
    ensures var r := FindForCreate(s, cur, path, links); r.At? ==> Visible(s, r.parent)
    decreases MaxLinks(s) - links, 1
  {
    if 0 < |path| < PathMax(s) && Comps(path) != [] {
      FrontVisible(s, cur, path, links);
      var dir := CreateFront(s, cur, path, links);
      if dir.Found? {
        CompsOk(path, |Comps(path)| - 1);
        LastVisible(s, dir.node, Comps(path)[|Comps(path)| - 1], dir.links);
      }
    }
  }

  lemma {:induction false} LastVisible(s: Fs, dir: nat, last: Bytes, links: nat)
    requires Isolated(s) && Ready(s) && Visible(s, dir) && links <= MaxLinks(s) && SLASH !in last && IsReal(last)
    ensures var r := FindLast(s, dir, last, links); r.At? ==> Visible(s, r.parent)
    decreases MaxLinks(s) - links, 0
  {
    var k := Key(s, last);
    if k in s.nodes[dir].children && links + 1 <= MaxLinks(s) {
      var child := s.nodes[dir].children[k];
      if s.nodes[child].kind.Symlink? {
        CreateVisible(s, dir, s.nodes[child].kind.target, links + 1);
      }
    }
  }

  lemma NewVisible(s: Fs, start: Start, path: Bytes)
    requires Isolated(s) && Ready(s)
    ensures var r := FindNew(s, start, path); r.At? ==> Visible(s, r.parent)
  {
    StartVisible(s, start);
    var from := StartNode(s, start);
    if from.Found? {
      CreateVisible(s, from.node, path, 0);
    }
  }

  lemma TrailVisible(s: Fs, start: Start, parent: nat, key: Bytes, path: Bytes)
    requires Isolated(s) && Ready(s) && Visible(s, parent)
    ensures match TrailMac(s, start, parent, key, path)
            case Dangling(p, _) => Visible(s, p)
            case DirAt(t) => t == s.nodes[parent].children[key] || Visible(s, t)
            case _ => true
  {
    NewVisible(s, start, path);
    if key in s.nodes[parent].children && s.nodes[s.nodes[parent].children[key]].kind.Symlink? {
      FollowVisible(s, parent, s.nodes[parent].children[key], 0);
    }
  }

  lemma OwnerVisible(s: Fs, t: nat)
    requires WellFormed(s) && Visible(s, t)
    ensures var o := OwnerOf(s, t); o.OwnedBy? ==> Visible(s, o.parent)
  {
    VisibleUp(s, t);
  }

  lemma TakeVisible(s: Fs, start: Start, at: Lookup, path: Bytes)
    requires Isolated(s) && at.At? && Visible(s, at.parent)
    ensures var r := TakeSlot(s, start, at, path); r.Slot? ==> Visible(s, r.parent)
  {
    FormedReady(s);
    var key := Key(s, at.name);
    TrailVisible(s, start, at.parent, key, path);
    var t := TrailMac(s, start, at.parent, key, path);
    if t.DirAt? && t.node != s.nodes[at.parent].children[key] {
      OwnerVisible(s, t.node);
    }
  }

  lemma PutVisible(s: Fs, at: Lookup, path: Bytes, fromIsDir: bool)
    requires Isolated(s) && at.At? && Visible(s, at.parent) && IsDir(s, at.parent) && IsName(at.name) && |at.name| <= NAME_MAX
    ensures var r := PutSlot(s, at, path, fromIsDir); r.Dest? ==> Visible(s, r.parent)
  {
    FormedReady(s);
    var key := Key(s, at.name);
    TrailVisible(s, Cwd, at.parent, key, path);
    var t := TrailMac(s, Cwd, at.parent, key, path);
    if t.DirAt? && t.node != s.nodes[at.parent].children[key] {
      OwnerVisible(s, t.node);
    }
  }

  ghost predicate SeenAt(s: Fs, r: Lookup) {
    r.At? ==> Visible(s, r.parent)
  }

  lemma RenameWithin(s: Fs, from: Bytes, to: Bytes)
    requires Isolated(s)
    ensures Within(s, DoRename(s, from, to).edit)
  {
    FormedReady(s);
    ParentVisible(s, Cwd, from);
    ParentVisible(s, Cwd, to);
    var f, t := FindParent(s, Cwd, from), FindParent(s, Cwd, to);
    if f.At? && t.At? {
      TakeVisible(s, Cwd, f, from);
      var src := TakeSlot(s, Cwd, f, from);
      if src.Slot? {
        assert NodeClosed(s.nodes[src.parent], |s.nodes|);
        PutVisible(s, t, to, IsDir(s, src.id));
      }
    }
    RenameEdits(s, from, to);
  }

  lemma RenameToEdits(s: Fs, src: Slot, dst: Dest, slashes: bool)
    requires WellFormed(s) && src.Slot? && dst.Dest? && IsDir(s, dst.parent)
    requires Valid(s, src.parent) && Valid(s, src.id) && Visible(s, src.parent) && Visible(s, dst.parent)
    ensures Within(s, RenameTo(s, src, dst, slashes).edit)
  {
  }

  /** The directories a rename edits are those of its two slots. */
  lemma RenameEdits(s: Fs, from: Bytes, to: Bytes)
    requires WellFormed(s) && Ready(s)
    requires var f := FindParent(s, Cwd, from);
             var t := FindParent(s, Cwd, to);
             f.At? && t.At? ==>
               var src := TakeSlot(s, Cwd, f, from);
               src.Slot? ==>
                 && Visible(s, src.parent)
                 && var dst := PutSlot(s, t, to, IsDir(s, src.id)); dst.Dest? ==> Visible(s, dst.parent)
    ensures Within(s, DoRename(s, from, to).edit)
  {
    var f, t := FindParent(s, Cwd, from), FindParent(s, Cwd, to);
    if !IsRootOperand(from) && !IsRootOperand(to) && f.At? && t.At? {
      var src := TakeSlot(s, Cwd, f, from);
      if src.Slot? {
        assert NodeClosed(s.nodes[src.parent], |s.nodes|);
        var dst := PutSlot(s, t, to, IsDir(s, src.id));
        if dst.Dest? {
          RenameToEdits(s, src, dst, f.slash || t.slash);
        }
      }
    }
  }

  lemma UnlinkWithin(s: Fs, start: Start, path: Bytes, rmdir: bool)
    requires Isolated(s)
    ensures Within(s, DoUnlink(s, start, path, rmdir).edit)
  {
    FormedReady(s);
    ParentVisible(s, start, path);
    var at := FindParent(s, start, path);
    if at.At? {
      TakeVisible(s, start, at, path);
    }
    UnlinkEdits(s, start, path, rmdir);
  }

  lemma UnlinkEdits(s: Fs, start: Start, path: Bytes, rmdir: bool)
    requires WellFormed(s) && Ready(s)
    requires var at := FindParent(s, start, path);
             at.At? ==> var r := TakeSlot(s, start, at, path); r.Slot? ==> Visible(s, r.parent)
    ensures Within(s, DoUnlink(s, start, path, rmdir).edit)
  {
  }

  lemma MkdirWithin(s: Fs, start: Start, path: Bytes)
    requires Isolated(s)
    ensures Within(s, DoMkdir(s, start, path).edit)
  {
    FormedReady(s);
    ParentVisible(s, start, path);
    var f := FindParent(s, start, path);
    if f.At? {
      TrailVisible(s, start, f.parent, Key(s, f.name), path);
    }
    MkdirEdits(s, start, path);
  }

  lemma MkdirEdits(s: Fs, start: Start, path: Bytes)
    requires WellFormed(s) && Ready(s)
    requires var f := FindParent(s, start, path);
             f.At? ==>
               && Visible(s, f.parent)
               && var t := TrailMac(s, start, f.parent, Key(s, f.name), path); t.Dangling? ==> Visible(s, t.parent)
    ensures Within(s, DoMkdir(s, start, path).edit)
  {
  }

  lemma OpenWithin(s: Fs, start: Start, path: Bytes, flags: OpenFlags)
    requires Isolated(s)
    ensures Within(s, DoOpen(s, start, path, flags).edit)
  {
    FormedReady(s);
    ParentVisible(s, start, path);
    NewVisible(s, start, path);
    FindVisible(s, start, path, !flags.nofollow);
    OpenEdits(s, start, path, flags);
  }

  lemma OpenEdits(s: Fs, start: Start, path: Bytes, flags: OpenFlags)
    requires WellFormed(s) && Ready(s)
    requires SeenAt(s, FindParent(s, start, path)) && SeenAt(s, FindNew(s, start, path))
    requires var r := Find(s, start, path, !flags.nofollow); r.Found? ==> Visible(s, r.node)
    ensures Within(s, DoOpen(s, start, path, flags).edit)
  {
    ExclusiveEdits(s, start, path, flags);
    LookupEdits(s, start, path, flags);
  }

  lemma ExclusiveEdits(s: Fs, start: Start, path: Bytes, flags: OpenFlags)
    requires WellFormed(s) && Ready(s) && SeenAt(s, FindParent(s, start, path))
    ensures Within(s, OpenExclusive(s, start, path, flags).edit)
  {
  }

  lemma LookupEdits(s: Fs, start: Start, path: Bytes, flags: OpenFlags)
    requires WellFormed(s) && Ready(s) && SeenAt(s, FindNew(s, start, path))
    requires var r := Find(s, start, path, !flags.nofollow); r.Found? ==> Visible(s, r.node)
    ensures Within(s, OpenLookup(s, start, path, flags).edit)
  {
  }

  lemma CwdWithin(s: Fs, target: Bytes, path: Bytes)
    requires Isolated(s)
    ensures Within(s, DoSymlink(s, target, path).edit)
    ensures Within(s, DoBind(s, path).edit)
    ensures Within(s, DoMkstemp(s, path).edit)
  {
    FormedReady(s);
    ParentVisible(s, Cwd, path);
    NewVisible(s, Cwd, path);
    SymlinkEdits(s, target, path);
    BindEdits(s, path);
    MkstempEdits(s, path);
  }

  lemma SymlinkEdits(s: Fs, target: Bytes, path: Bytes)
    requires WellFormed(s) && Ready(s) && SeenAt(s, FindParent(s, Cwd, path))
    ensures Within(s, DoSymlink(s, target, path).edit)
  {
  }

  lemma BindEdits(s: Fs, path: Bytes)
    requires WellFormed(s) && Ready(s) && SeenAt(s, FindParent(s, Cwd, path)) && SeenAt(s, FindNew(s, Cwd, path))
    ensures Within(s, DoBind(s, path).edit)
  {
  }

  lemma MkstempEdits(s: Fs, name: Bytes)
    requires WellFormed(s) && Visible(s, s.cwd)
    ensures Within(s, DoMkstemp(s, name).edit)
  {
  }

  lemma LookupWithin(s: Fs, path: Bytes)
    requires Isolated(s)
    ensures Within(s, DoOpendir(s, path).edit) && Within(s, DoChdir(s, path).edit)
  {
    FormedReady(s);
    FindVisible(s, Cwd, path, true);
  }

  lemma FdWithin(s: Fs, fd: nat, data: Bytes, len: nat)
    requires Isolated(s)
    ensures Within(s, DoWrite(s, fd, data).edit) && Within(s, DoRead(s, fd, len).edit) && Within(s, DoClose(s, fd).edit)
  {
  }

  lemma LookOpWithin(s: Fs, op: Op)
    requires Isolated(s) && Looks(op)
    ensures Within(s, DecideLook(s, op).edit)
  {
    match op
    case OpenDir(path) => LookupWithin(s, path);
    case Chdir(path) => LookupWithin(s, path);
    case Write(fd, data) => FdWithin(s, fd, data, 0);
    case Read(fd, len) => FdWithin(s, fd, [], len);
    case _ =>
  }

  lemma ChangeWithin(s: Fs, op: Op)
    requires Isolated(s) && !Looks(op)
    ensures Within(s, DecideChange(s, op).edit)
  {
    match op
    case Mkdir(path, _) => MkdirWithin(s, Cwd, path);
    case MkdirAt(fd, path) => MkdirWithin(s, AtStart(fd, path), path);
    case Open(path, flags) => OpenWithin(s, Cwd, path, flags);
    case OpenAt(fd, path, flags) => OpenWithin(s, AtStart(fd, path), path, flags);
    case SymlinkOp(target, path) => CwdWithin(s, target, path);
    case Bind(path) => CwdWithin(s, [], path);
    case MkstempAdopt(name) => CwdWithin(s, [], name);
    case Rename(from, to) => RenameWithin(s, from, to);
    case Unlink(path) => UnlinkWithin(s, Cwd, path, false);
    case Rmdir(path) => UnlinkWithin(s, Cwd, path, true);
    case UnlinkAt(fd, path, rmdir) => UnlinkWithin(s, AtStart(fd, path), path, rmdir);
  }

  /** Whatever a call edits is visible. */
  lemma DecideWithin(s: Fs, op: Op)
    requires Isolated(s)
    ensures Within(s, Decide(s, op).edit)
  {
    if Looks(op) {
      LookOpWithin(s, op);
    } else {
      ChangeWithin(s, op);
    }
  }

  // ----- edits within the visible tree -----

  /** From `s` to `s'`, visible nodes stay visible, hidden ones stay hidden and untouched,
      and the mounts are the same. */
  ghost predicate Shielded(s: Fs, s': Fs) {
    && WellFormed(s) && WellFormed(s') && |s.nodes| <= |s'.nodes|
    && (forall n: nat {:trigger ShieldedNode(s, s', n)} :: Valid(s, n) ==> ShieldedNode(s, s', n))
    && (forall n :: |s.nodes| <= n < |s'.nodes| ==> s'.nodes[n].mountedBy.None? && s'.nodes[n].virtualParent.None?)
  }

  ghost predicate ShieldedNode(s: Fs, s': Fs, n: nat)
    requires WellFormed(s) && WellFormed(s') && Valid(s, n) && Valid(s', n)
  {
    && (Visible(s', n) <==> Visible(s, n))
    && (Hidden(s', n) <==> Hidden(s, n))
    && (Hidden(s, n) ==> s'.nodes[n] == s.nodes[n])
    && SameMounts(s.nodes[n], s'.nodes[n])
  }

  ghost predicate SameMounts(a: Node, b: Node) {
    b.mountedBy == a.mountedBy && b.virtualParent == a.virtualParent && b.mountName == a.mountName
  }

  lemma ShieldedMounts(s: Fs, s': Fs)
    requires MountsVisible(s) && Shielded(s, s')
    ensures MountsVisible(s')
  {
    assert ShieldedNode(s, s', ROOT);
    forall n | 0 <= n < |s'.nodes| && s'.nodes[n].mountedBy.Some? ensures Visible(s', s'.nodes[n].mountedBy.value) {
      assert Valid(s, n) && ShieldedNode(s, s', n);
      assert ShieldedNode(s, s', s.nodes[n].mountedBy.value);
    }
    forall n | 0 <= n < |s'.nodes| && s'.nodes[n].virtualParent.Some? ensures Visible(s', s'.nodes[n].virtualParent.value) {
      assert Valid(s, n) && ShieldedNode(s, s', n);
      assert ShieldedNode(s, s', s.nodes[n].virtualParent.value);
    }
  }

  ghost predicate SameChain(s: Fs, s': Fs, n: nat)
    requires WellFormed(s) && WellFormed(s') && |s.nodes| <= |s'.nodes|
  {
    Valid(s, n) ==>
      && SameMounts(s.nodes[n], s'.nodes[n]) && s'.nodes[n].parent == s.nodes[n].parent
      && Chain(s', FsTree.Owner, n) == Chain(s, FsTree.Owner, n)
  }

  lemma SameChainVisible(s: Fs, s': Fs, n: nat)
    requires WellFormed(s) && WellFormed(s') && |s.nodes| <= |s'.nodes| && Valid(s, n)
    requires forall m: nat :: SameChain(s, s', m)
    ensures Visible(s', n) <==> Visible(s, n)
  {
    var c := Chain(s, FsTree.Owner, n);
    assert SameChain(s, s', n);
    assert forall i :: 0 <= i < |c| ==> SameChain(s, s', c[i]);
  }

  /** A shielded change that leaves cwd and descriptors where visible nodes are. */
  lemma ShieldedKeeps(s: Fs, s': Fs)
    requires Isolated(s) && Shielded(s, s') && Visible(s, s'.cwd)
    requires forall f :: f in s'.fds ==> Visible(s, s'.fds[f].node) || Visible(s', s'.fds[f].node)
    ensures Isolated(s')
  {
    ShieldedMounts(s, s');
    assert ShieldedNode(s, s', s'.cwd);
    forall f | f in s'.fds ensures Visible(s', s'.fds[f].node) {
      if Visible(s, s'.fds[f].node) {
        assert ShieldedNode(s, s', s'.fds[f].node);
      }
    }
  }

  /** Owner chains and mounts unchanged: the same nodes are visible. */
  lemma SameChainsShield(s: Fs, s': Fs)
    requires WellFormed(s) && WellFormed(s') && |s.nodes| <= |s'.nodes|
    requires forall n: nat :: SameChain(s, s', n)
    requires forall n: nat :: |s.nodes| <= n < |s'.nodes| ==> s'.nodes[n].mountedBy.None? && s'.nodes[n].virtualParent.None?
    requires forall n: nat :: Hidden(s, n) ==> s'.nodes[n] == s.nodes[n]
    ensures Shielded(s, s')
  {
    forall n: nat | Valid(s, n) ensures ShieldedNode(s, s', n) {
      SameChainVisible(s, s', n);
      assert NodeOk(s, n) && SameChain(s, s', n);
      if n != ROOT {
        SameChainVisible(s, s', s.nodes[n].parent.value);
      }
    }
  }

  lemma ParentNotHidden(s: Fs, n: nat)
    requires WellFormed(s) && Visible(s, n)
    ensures !Hidden(s, n)
  {
    VisibleUp(s, n);
  }

  lemma QuietChains(s: Fs, s': Fs)
    requires WellFormed(s) && WellFormed(s') && SameTree(s, s')
    ensures forall n: nat :: SameChain(s, s', n)
  {
    forall n: nat ensures SameChain(s, s', n) {
      if Valid(s, n) {
        var c := Chain(s, FsTree.Owner, n);
        assert SameNode(s.nodes[n], s'.nodes[n]);
        assert forall i :: 0 <= i < |c| ==> SameNode(s.nodes[c[i]], s'.nodes[c[i]]);
        ChainFrame(s, s', FsTree.Owner, n);
      }
    }
  }

  /** Where a quiet edit leaves the nodes, the working directory and the descriptors. */
  lemma QuietKeeps(s: Fs, e: Edit)
    requires Isolated(s) && Legal(s, e) && Within(s, e) && !e.Create? && !e.Move? && !e.Remove?
    ensures CanDo(s, e)
    ensures forall n: nat :: Hidden(s, n) ==> Do(s, e).nodes[n] == s.nodes[n]
    ensures Visible(s, Do(s, e).cwd) && forall f :: f in Do(s, e).fds ==> Visible(s, Do(s, e).fds[f].node)
  {
    if e.OpenFile? || e.PutData? {
      ParentNotHidden(s, e.node);
    }
  }

  lemma QuietShield(s: Fs, e: Edit)
    requires Isolated(s) && Legal(s, e) && Within(s, e) && !e.Create? && !e.Move? && !e.Remove?
    ensures CanDo(s, e) && Isolated(Do(s, e)) && Shielded(s, Do(s, e))
  {
    var s' := Do(s, e);
    QuietFormed(s, e);
    QuietKeeps(s, e);
    QuietChains(s, s');
    SameChainsShield(s, s');
    ShieldedKeeps(s, s');
  }

  lemma CreateChains(s: Fs, e: Edit)
    requires WellFormed(s) && Legal(s, e) && e.Create?
    ensures CanDo(s, e) && WellFormed(Do(s, e)) && |Do(s, e).nodes| == |s.nodes| + 1
    ensures forall n: nat :: SameChain(s, Do(s, e), n)
    ensures Do(s, e).nodes[|s.nodes|] == NewNode(e.kind, e.parent)
  {
    var s1 := Added(s, e.parent, e.key, e.kind);
    var s' := Do(s, e);
    CreateFormed(s, e);
    AddedChains(s, e.parent, e.key, e.kind);
    assert s'.nodes == s1.nodes;
    forall n: nat ensures SameChain(s, s', n) {
      if Valid(s, n) {
        ChainFrame(s1, s', FsTree.Owner, n);
      }
    }
  }

  /** What a create leaves alone, and where a new descriptor points. */
  lemma CreateLeaves(s: Fs, s': Fs, e: Edit)
    requires e.Create? && CanDo(s, e) && s' == Do(s, e)
    ensures |s'.nodes| == |s.nodes| + 1 && s'.cwd == s.cwd
    ensures forall n: nat :: n < |s.nodes| && n != e.parent ==> s'.nodes[n] == s.nodes[n]
    ensures forall f :: f in s'.fds ==> (f in s.fds && s'.fds[f] == s.fds[f]) || s'.fds[f].node == |s.nodes|
  {
  }

  lemma CreateShield(s: Fs, e: Edit)
    requires Isolated(s) && Legal(s, e) && Within(s, e) && e.Create?
    ensures CanDo(s, e) && Isolated(Do(s, e)) && Shielded(s, Do(s, e))
  {
    CreateChains(s, e);
    CreateLeaves(s, Do(s, e), e);
    CreatedShield(s, Do(s, e), e);
  }

  lemma CreatedShield(s: Fs, s': Fs, e: Edit)
    requires Isolated(s) && WellFormed(s') && e.Create? && Visible(s, e.parent)
    requires |s'.nodes| == |s.nodes| + 1 && s'.cwd == s.cwd && s'.nodes[|s.nodes|] == NewNode(e.kind, e.parent)
    requires forall n: nat :: SameChain(s, s', n)
    requires forall n: nat :: n < |s.nodes| && n != e.parent ==> s'.nodes[n] == s.nodes[n]
    requires forall f :: f in s'.fds ==> (f in s.fds && s'.fds[f] == s.fds[f]) || s'.fds[f].node == |s.nodes|
    ensures Isolated(s') && Shielded(s, s')
  {
    ParentNotHidden(s, e.parent);
    SameChainsShield(s, s');
    NewVisibleNode(s, s', e);
    ShieldedKeeps(s, s');
  }

  lemma NewVisibleNode(s: Fs, s': Fs, e: Edit)
    requires e.Create? && Shielded(s, s') && Visible(s, e.parent) && |s'.nodes| == |s.nodes| + 1
    requires s'.nodes[|s.nodes|] == NewNode(e.kind, e.parent)
    ensures Visible(s', |s.nodes|)
  {
    VisibleUp(s', |s.nodes|);
    assert ShieldedNode(s, s', e.parent);
  }

  lemma RemoveShield(s: Fs, e: Edit)
    requires Isolated(s) && Legal(s, e) && Within(s, e) && e.Remove?
    ensures CanDo(s, e) && Isolated(Do(s, e)) && Shielded(s, Do(s, e))
  {
    var s' := Do(s, e);
    RemoveFormed(s, e);
    RemovedIs(s, e);
    RemovedChains(s, s', e);
    ParentNotHidden(s, e.parent);
    assert NodeOk(s, e.parent) && EntryOk(s, e.parent, e.key);
    forall n: nat
      ensures SameChain(s, s', n)
      ensures Hidden(s, n) ==> s'.nodes[n] == s.nodes[n]
    {
      if Valid(s, n) {
        assert NodeRemoved(s, e, n, s'.nodes[n]);
      }
    }
    SameChainsShield(s, s');
    ShieldedKeeps(s, s');
  }

  ghost predicate NoMountIn(s: Fs, c: seq<nat>) {
    forall i :: 0 <= i < |c| ==> Valid(s, c[i]) && s.nodes[c[i]].mountedBy.None?
  }

  lemma VisibleIs(s: Fs, n: nat)
    requires WellFormed(s) && Valid(s, n)
    ensures Visible(s, n) <==> NoMountIn(s, Chain(s, FsTree.Owner, n))
  {
  }

  /** After a move between visible directories a node is visible exactly when it was. */
  lemma MovedVisible(s: Fs, s': Fs, e: Edit, n: nat)
    requires WellFormed(s) && WellFormed(s') && e.Move? && Legal(s, e) && IsMoved(s, s', e)
    requires Visible(s, e.fromParent) && Visible(s, e.toParent) && Valid(s, n)
    ensures Visible(s', n) <==> Visible(s, n)
  {
    MoveChain(s, s', e, n);
    VisibleIs(s, n);
    VisibleIs(s', n);
    VisibleIs(s, e.toParent);
    var c := Chain(s, FsTree.Owner, n);
    MovedMounts(s, s', e, Chain(s', FsTree.Owner, n));
    if e.id in c {
      var i := IndexIn(c, e.id);
      ClearAbove(s, e, c, i);
      SwapAbove(s, c, i, Chain(s, FsTree.Owner, e.toParent));
    }
  }

  lemma SwapAbove(s: Fs, c: seq<nat>, i: nat, up: seq<nat>)
    requires i < |c| && NoMountIn(s, c[i + 1..]) && NoMountIn(s, up)
    ensures NoMountIn(s, c[..i] + [c[i]] + up) <==> NoMountIn(s, c)
  {
    var front := c[..i] + [c[i]];
    assert c == front + c[i + 1..];
    NoMountAppend(s, front, c[i + 1..]);
    NoMountAppend(s, front, up);
  }

  lemma MovedMounts(s: Fs, s': Fs, e: Edit, c: seq<nat>)
    requires WellFormed(s) && e.Move? && Legal(s, e) && IsMoved(s, s', e)
    ensures NoMountIn(s', c) <==> NoMountIn(s, c)
  {
    forall i | 0 <= i < |s.nodes| ensures s'.nodes[i].mountedBy == s.nodes[i].mountedBy {
      assert NodeMoved(s, e, i, s'.nodes[i]);
    }
  }

  lemma NoMountAppend(s: Fs, a: seq<nat>, b: seq<nat>)
    ensures NoMountIn(s, a + b) <==> NoMountIn(s, a) && NoMountIn(s, b)
  {
    var c := a + b;
    assert forall i :: 0 <= i < |a| ==> c[i] == a[i];
    assert forall i :: 0 <= i < |b| ==> c[|a| + i] == b[i];
  }

  /** Above the moved node stands the chain of the directory it is taken from. */
  lemma AboveMoved(s: Fs, e: Edit, c: seq<nat>, i: nat)
    requires WellFormed(s) && e.Move? && Legal(s, e) && IsChain(s, FsTree.Owner, c) && i < |c| && c[i] == e.id
    ensures c[i + 1..] == Chain(s, FsTree.Owner, e.fromParent)
  {
    assert NodeOk(s, e.fromParent) && EntryOk(s, e.fromParent, e.fromKey);
    ChainDrop(s, FsTree.Owner, c, i);
    var d := c[i..];
    ChainStart(s, FsTree.Owner, d);
    ChainTail(s, FsTree.Owner, d);
    assert d[1..] == c[i + 1..];
    ChainUnique(s, FsTree.Owner, c[i + 1..], Chain(s, FsTree.Owner, e.fromParent));
  }

  lemma ClearAbove(s: Fs, e: Edit, c: seq<nat>, i: nat)
    requires WellFormed(s) && e.Move? && Legal(s, e) && Visible(s, e.fromParent)
    requires IsChain(s, FsTree.Owner, c) && i < |c| && c[i] == e.id
    ensures NoMountIn(s, c[i + 1..])
  {
    AboveMoved(s, e, c, i);
    VisibleIs(s, e.fromParent);
  }

  lemma MovedHidden(s: Fs, s': Fs, e: Edit, n: nat)
    requires WellFormed(s) && WellFormed(s') && e.Move? && Legal(s, e) && IsMoved(s, s', e)
    requires Visible(s, e.fromParent) && Visible(s, e.toParent) && Valid(s, n)
    ensures Hidden(s', n) <==> Hidden(s, n)
    ensures Hidden(s, n) ==> s'.nodes[n] == s.nodes[n]
  {
    assert NodeMoved(s, e, n, s'.nodes[n]);
    assert NodeOk(s, n) && NodeOk(s, e.fromParent) && EntryOk(s, e.fromParent, e.fromKey) && NodeOk(s, e.toParent);
    ParentNotHidden(s, e.fromParent);
    ParentNotHidden(s, e.toParent);
    MovedVisible(s, s', e, e.toParent);
    if n != ROOT {
      MovedVisible(s, s', e, s.nodes[n].parent.value);
    }
  }

  lemma MovedShield(s: Fs, s': Fs, e: Edit)
    requires Isolated(s) && WellFormed(s') && Legal(s, e) && Within(s, e) && e.Move? && IsMoved(s, s', e)
    ensures Shielded(s, s')
  {
    forall n: nat | Valid(s, n) ensures ShieldedNode(s, s', n) {
      MovedVisible(s, s', e, n);
      MovedHidden(s, s', e, n);
      assert NodeMoved(s, e, n, s'.nodes[n]);
    }
  }

  lemma MoveShield(s: Fs, e: Edit)
    requires Isolated(s) && Legal(s, e) && Within(s, e) && e.Move?
    ensures CanDo(s, e) && Isolated(Do(s, e)) && Shielded(s, Do(s, e))
  {
    MoveFormed(s, e);
    MovedIs(s, e);
    MovedShield(s, Do(s, e), e);
    ShieldedKeeps(s, Do(s, e));
  }

  lemma EditShield(s: Fs, e: Edit)
    requires Isolated(s) && Legal(s, e) && Within(s, e)
    ensures CanDo(s, e) && Isolated(Do(s, e)) && Shielded(s, Do(s, e))
  {
    match e
    case Create(_, _, _, _) => CreateShield(s, e);
    case Move(_, _, _, _, _) => MoveShield(s, e);
    case Remove(_, _, _) => RemoveShield(s, e);
    case _ => QuietShield(s, e);
  }

  lemma StepShield(s: Fs, op: Op)
    requires Isolated(s)
    ensures Isolated(Apply(s, op).0) && Shielded(s, Apply(s, op).0)
  {
    DecideSensible(s, op);
    DecideWithin(s, op);
    EditShield(s, Decide(s, op).edit);
  }

  /** Isolation over whole runs: no sequence of calls changes a node below a mountpoint, and
      none leaves the working directory or a descriptor there. */
  lemma {:induction false} RunIsolated(s: Fs, ops: seq<Op>)
    requires Isolated(s)
    ensures Isolated(After(s, ops)) && Shielded(s, After(s, ops))
    decreases |ops|
  {
    if ops == [] {
    } else {
      StepShield(s, ops[0]);
      var s1 := Apply(s, ops[0]).0;
      RunIsolated(s1, ops[1..]);
      ShieldTrans(s, s1, After(s1, ops[1..]));
    }
  }

  lemma ShieldTrans(s: Fs, s1: Fs, s2: Fs)
    requires Shielded(s, s1) && Shielded(s1, s2)
    ensures Shielded(s, s2)
  {
    forall n: nat | Valid(s, n) ensures ShieldedNode(s, s2, n) {
      assert ShieldedNode(s, s1, n) && ShieldedNode(s1, s2, n);
    }
    forall n | |s.nodes| <= n < |s2.nodes| ensures s2.nodes[n].mountedBy.None? && s2.nodes[n].virtualParent.None? {
      if n < |s1.nodes| {
        assert ShieldedNode(s1, s2, n);
      }
    }
  }
}
