/** On Linux no run that leaves the mounts in place moves a node to another mount. */
module LinuxMounts {
  import opened Text
  import opened FsState
  import opened FsTree
  import opened FsPaths
  import opened FsReach
  import opened FsOps
  import opened FsWellFormed
  import opened FsEdits
  import opened FsIsolation
  import opened FsScaffold

  /** `t` is the directory whose physical name is `text`, short enough to be looked up. */
  ghost predicate NamedDir(s: Fs, t: nat, text: Bytes)
    requires WellFormed(s)
  {
    && Linked(s, t) && IsDir(s, t) && |text| < PathMax(s)
    && (LinkedChain(s, t); FullPath(s, Physical, t) == text)
  }

  /** The private temp directories are where the profile's root says. */
  ghost predicate Anchored(s: Fs, tmp: nat, varTmp: nat) {
    && WellFormed(s) && s.profile.LinuxMount?
    && NamedDir(s, tmp, s.profile.root + TMP_SUFFIX)
    && NamedDir(s, varTmp, s.profile.root + VAR_TMP_SUFFIX)
  }

  lemma NamedFound(s: Fs, t: nat, text: Bytes)
    requires WellFormed(s) && NamedDir(s, t, text)
    ensures Resolve(s, Physical, ROOT, text, true, 0) == Found(t, 0)
  {
    PhysicalSound(s, t);
    ResolveFullPath(s, Physical, ROOT, t, true);
  }

  /** The mount number is decided by the first private temp directory on the way up. */
  ghost function MountIn(c: seq<nat>, tmp: nat, varTmp: nat): nat {
    MountAlong(c, Found(tmp, 0), Found(varTmp, 0))
  }

  lemma MountIs(s: Fs, tmp: nat, varTmp: nat, n: nat)
    requires Anchored(s, tmp, varTmp) && Valid(s, n)
    ensures MountOf(s, n) == MountIn(Chain(s, FsTree.Owner, n), tmp, varTmp)
  {
    NamedFound(s, tmp, s.profile.root + TMP_SUFFIX);
    NamedFound(s, varTmp, s.profile.root + VAR_TMP_SUFFIX);
  }

  lemma {:induction false} MountSkips(c: seq<nat>, d: seq<nat>, tmp: nat, varTmp: nat)
    requires tmp !in c && varTmp !in c
    ensures MountIn(c + d, tmp, varTmp) == MountIn(d, tmp, varTmp)
  {
    if c == [] {
      assert c + d == d;
    } else {
      assert (c + d)[1..] == c[1..] + d;
      MountSkips(c[1..], d, tmp, varTmp);
    }
  }

  /** Everything above a kept node on a chain supports it. */
  lemma AboveSupports(s: Fs, keep: set<nat>, c: seq<nat>, j: nat, i: nat)
    requires WellFormed(s) && IsChain(s, FsTree.Owner, c) && j <= i < |c|
    ensures c[j] in keep ==> Supports(s, keep, c[i])
  {
    ChainDrop(s, FsTree.Owner, c, j);
    ChainUnique(s, FsTree.Owner, c[j..], Chain(s, FsTree.Owner, c[j]));
    assert c[j..][i - j] == c[i];
  }

  lemma NotBelow(s: Fs, keep: set<nat>, c: seq<nat>, i: nat, t: nat)
    requires WellFormed(s) && IsChain(s, FsTree.Owner, c) && i < |c| && !Supports(s, keep, c[i]) && t in keep
    ensures t !in c[..i + 1]
  {
    forall j: nat | j <= i ensures c[j] in keep ==> Supports(s, keep, c[i]) {
      AboveSupports(s, keep, c, j, i);
    }
  }

  lemma MountMoves(s: Fs, keep: set<nat>, tmp: nat, varTmp: nat, e: Edit, c: seq<nat>)
    requires WellFormed(s) && e.Move? && Legal(s, e) && Guarded(s, keep, e) && tmp in keep && varTmp in keep
    requires IsChain(s, FsTree.Owner, c)
    requires MountIn(Chain(s, FsTree.Owner, e.fromParent), tmp, varTmp) == MountIn(Chain(s, FsTree.Owner, e.toParent), tmp, varTmp)
    ensures MountIn(MovedChain(c, e.id, Chain(s, FsTree.Owner, e.toParent)), tmp, varTmp) == MountIn(c, tmp, varTmp)
  {
    if e.id in c {
      var i := IndexIn(c, e.id);
      var front, up := c[..i + 1], Chain(s, FsTree.Owner, e.toParent);
      NotBelow(s, keep, c, i, tmp);
      NotBelow(s, keep, c, i, varTmp);
      AboveMoved(s, e, c, i);
      assert c[..i] + [e.id] == front;
      MountSwaps(c, front, c[i + 1..], up, tmp, varTmp);
    }
  }

  lemma MountSwaps(c: seq<nat>, front: seq<nat>, back: seq<nat>, up: seq<nat>, tmp: nat, varTmp: nat)
    requires c == front + back && tmp !in front && varTmp !in front && MountIn(back, tmp, varTmp) == MountIn(up, tmp, varTmp)
    ensures MountIn(front + up, tmp, varTmp) == MountIn(c, tmp, varTmp)
  {
    MountSkips(front, back, tmp, varTmp);
    MountSkips(front, up, tmp, varTmp);
  }

  // ----- what a call may move -----

  /** A rename that goes through stays on one mount. */
  lemma RenameOneMount(s: Fs, from: Bytes, to: Bytes)
    requires WellFormed(s)
    ensures var e := DoRename(s, from, to).edit;
            e.Move? ==> Valid(s, e.fromParent) && Valid(s, e.toParent) && MountOf(s, e.fromParent) == MountOf(s, e.toParent)
  {
    FormedReady(s);
    var f, t := FindParent(s, Cwd, from), FindParent(s, Cwd, to);
    if !IsRootOperand(from) && !IsRootOperand(to) && f.At? && t.At? {
      var src := TakeSlot(s, Cwd, f, from);
      if src.Slot? {
        assert NodeClosed(s.nodes[src.parent], |s.nodes|);
        var dst := PutSlot(s, t, to, IsDir(s, src.id));
        if dst.Dest? {
          RenameToOneMount(s, src, dst, f.slash || t.slash);
        }
      }
    }
  }

  lemma RenameToOneMount(s: Fs, src: Slot, dst: Dest, slashes: bool)
    requires WellFormed(s) && src.Slot? && dst.Dest? && IsDir(s, dst.parent) && Valid(s, src.parent) && Valid(s, src.id)
    ensures var e := RenameTo(s, src, dst, slashes).edit;
            e.Move? ==> e.fromParent == src.parent && e.toParent == dst.parent && MountOf(s, src.parent) == MountOf(s, dst.parent)
  {
  }

  lemma CreateStays(s: Fs, parent: nat, name: Bytes, kind: Kind, open: Option<bool>, e: Errno)
    requires WellFormed(s) && Valid(s, parent)
    ensures !CreateAt(s, parent, name, kind, open, e).edit.Move?
  {
  }

  lemma NewStays(s: Fs, start: Start, path: Bytes, flags: OpenFlags)
    requires WellFormed(s)
    ensures !OpenExclusive(s, start, path, flags).edit.Move?
  {
    FormedReady(s);
    var f := FindParent(s, start, path);
    if f.At? {
      CreateStays(s, f.parent, f.name, File([]), Some(flags.write), EEXIST);
    }
  }

  lemma OldStays(s: Fs, start: Start, path: Bytes, flags: OpenFlags)
    requires WellFormed(s)
    ensures !OpenLookup(s, start, path, flags).edit.Move?
  {
    FormedReady(s);
    var c := FindNew(s, start, path);
    if c.At? {
      CreateStays(s, c.parent, c.name, File([]), Some(flags.write), EEXIST);
    }
  }

  lemma OpenStays(s: Fs, start: Start, path: Bytes, flags: OpenFlags)
    requires WellFormed(s)
    ensures !DoOpen(s, start, path, flags).edit.Move?
  {
    NewStays(s, start, path, flags);
    OldStays(s, start, path, flags);
  }

  lemma MkdirStays(s: Fs, start: Start, path: Bytes)
    requires WellFormed(s)
    ensures !DoMkdir(s, start, path).edit.Move?
  {
  }

  lemma SymlinkStays(s: Fs, target: Bytes, path: Bytes)
    requires WellFormed(s)
    ensures !DoSymlink(s, target, path).edit.Move?
  {
  }

  lemma BindStays(s: Fs, path: Bytes)
    requires WellFormed(s)
    ensures !DoBind(s, path).edit.Move?
  {
  }

  lemma LookStays(s: Fs, path: Bytes, follow: bool)
    requires WellFormed(s)
    ensures !DoOpendir(s, path).edit.Move? && !DoReadlink(s, path).edit.Move? && !DoChdir(s, path).edit.Move?
    ensures !DoGetcwd(s).edit.Move? && !DoRealpath(s, path).edit.Move? && !DoStat(s, path, follow).edit.Move?
    ensures !DoConnect(s, path).edit.Move? && !DoList(s, path).edit.Move?
  {
  }

  lemma UnlinkStays(s: Fs, start: Start, path: Bytes, rmdir: bool)
    requires WellFormed(s)
    ensures !DoUnlink(s, start, path, rmdir).edit.Move?
  {
  }

  lemma DataStays(s: Fs, fd: nat, data: Bytes, len: nat)
    requires WellFormed(s)
    ensures !DoWrite(s, fd, data).edit.Move? && !DoRead(s, fd, len).edit.Move? && !DoClose(s, fd).edit.Move?
  {
  }

  lemma LookOpStays(s: Fs, op: Op)
    requires WellFormed(s) && Looks(op)
    ensures !DecideLook(s, op).edit.Move?
  {
    match op
    case OpenDir(path) => LookStays(s, path, true);
    case Write(fd, data) => DataStays(s, fd, data, 0);
    case Read(fd, len) => DataStays(s, fd, [], len);
    case Readlink(path) => LookStays(s, path, true);
    case Chdir(path) => LookStays(s, path, true);
    case Getcwd => LookStays(s, [], true);
    case Realpath(path) => LookStays(s, path, true);
    case Stat(path) => LookStays(s, path, true);
    case Lstat(path) => LookStays(s, path, false);
    case Connect(path) => LookStays(s, path, true);
    case List(path) => LookStays(s, path, true);
    case CloseFd(fd) => DataStays(s, fd, [], 0);
  }

  lemma ChangeStays(s: Fs, op: Op)
    requires WellFormed(s) && !Looks(op) && !op.Rename?
    ensures !DecideChange(s, op).edit.Move?
  {
    match op
    case Mkdir(path, _) => MkdirStays(s, Cwd, path);
    case MkdirAt(fd, path) => MkdirStays(s, AtStart(fd, path), path);
    case Open(path, flags) => OpenStays(s, Cwd, path, flags);
    case OpenAt(fd, path, flags) => OpenStays(s, AtStart(fd, path), path, flags);
    case SymlinkOp(target, path) => SymlinkStays(s, target, path);
    case Unlink(path) => UnlinkStays(s, Cwd, path, false);
    case Rmdir(path) => UnlinkStays(s, Cwd, path, true);
    case UnlinkAt(fd, path, rmdir) => UnlinkStays(s, AtStart(fd, path), path, rmdir);
    case Bind(path) => BindStays(s, path);
    case MkstempAdopt(name) =>
  }

  /** Only a rename moves. */
  lemma OnlyRename(s: Fs, op: Op)
    requires WellFormed(s) && !op.Rename?
    ensures !Decide(s, op).edit.Move?
  {
    if Looks(op) {
      LookOpStays(s, op);
    } else {
      ChangeStays(s, op);
    }
  }

  lemma DecideOneMount(s: Fs, op: Op)
    requires WellFormed(s)
    ensures var e := Decide(s, op).edit;
            e.Move? ==> Valid(s, e.fromParent) && Valid(s, e.toParent) && MountOf(s, e.fromParent) == MountOf(s, e.toParent)
  {
    if op.Rename? {
      RenameOneMount(s, op.from, op.to);
    } else {
      OnlyRename(s, op);
    }
  }

  // ----- edits -----

  lemma QuietSameChain(s: Fs, e: Edit, n: nat)
    requires WellFormed(s) && Legal(s, e) && !e.Move? && Valid(s, n)
    ensures CanDo(s, e) && WellFormed(Do(s, e)) && |s.nodes| <= |Do(s, e).nodes|
    ensures Chain(Do(s, e), FsTree.Owner, n) == Chain(s, FsTree.Owner, n)
  {
    EditFormed(s, e);
    if e.Create? {
      CreateChains(s, e);
      assert SameChain(s, Do(s, e), n);
    } else if e.Remove? {
      RemovedIs(s, e);
      RemovedChains(s, Do(s, e), e);
    } else {
      QuietFormed(s, e);
      QuietChains(s, Do(s, e));
      assert SameChain(s, Do(s, e), n);
    }
  }

  lemma AnchoredKept(s: Fs, s': Fs, keep: set<nat>, tmp: nat, varTmp: nat)
    requires Anchored(s, tmp, varTmp) && Kept(s, s', keep) && tmp in keep && varTmp in keep
    ensures Anchored(s', tmp, varTmp)
  {
    NamedKept(s, s', keep, tmp, s.profile.root + TMP_SUFFIX);
    NamedKept(s, s', keep, varTmp, s.profile.root + VAR_TMP_SUFFIX);
  }

  lemma NamedKept(s: Fs, s': Fs, keep: set<nat>, t: nat, text: Bytes)
    requires WellFormed(s) && NamedDir(s, t, text) && Kept(s, s', keep) && t in keep
    ensures NamedDir(s', t, text)
  {
    SupportsSelf(s, keep, t);
    KeptNames(s, s', keep, t);
    KeptLinked(s, s', keep, t);
  }

  lemma MountMoved(s: Fs, keep: set<nat>, tmp: nat, varTmp: nat, e: Edit, n: nat)
    requires Anchored(s, tmp, varTmp) && tmp in keep && varTmp in keep
    requires e.Move? && Legal(s, e) && Guarded(s, keep, e) && Valid(s, n)
    requires Valid(s, e.fromParent) && Valid(s, e.toParent) && MountOf(s, e.fromParent) == MountOf(s, e.toParent)
    ensures CanDo(s, e) && WellFormed(Do(s, e)) && Ends(Do(s, e), FsTree.Owner, n)
    ensures MountIn(Chain(Do(s, e), FsTree.Owner, n), tmp, varTmp) == MountIn(Chain(s, FsTree.Owner, n), tmp, varTmp)
  {
    MountIs(s, tmp, varTmp, e.fromParent);
    MountIs(s, tmp, varTmp, e.toParent);
    MoveFormed(s, e);
    MovedIs(s, e);
    MoveChain(s, Do(s, e), e, n);
    MountMoves(s, keep, tmp, varTmp, e, Chain(s, FsTree.Owner, n));
  }

  lemma MountStep(s: Fs, keep: set<nat>, tmp: nat, varTmp: nat, op: Op, n: nat)
    requires Anchored(s, tmp, varTmp) && tmp in keep && varTmp in keep && Guarded(s, keep, Decide(s, op).edit) && Valid(s, n)
    ensures Valid(Apply(s, op).0, n) && MountOf(Apply(s, op).0, n) == MountOf(s, n)
    ensures Anchored(Apply(s, op).0, tmp, varTmp)
  {
    var e := Decide(s, op).edit;
    DecideSensible(s, op);
    StepKeeps(s, keep, op);
    AnchoredKept(s, Apply(s, op).0, keep, tmp, varTmp);
    MountIs(s, tmp, varTmp, n);
    if e.Move? {
      DecideOneMount(s, op);
      MountMoved(s, keep, tmp, varTmp, e, n);
    } else {
      QuietSameChain(s, e, n);
    }
    MountIs(Apply(s, op).0, tmp, varTmp, n);
  }

  /** Over a whole safe run on Linux, no node changes its mount number. */
  lemma {:induction false} RunMounts(s: Fs, keep: set<nat>, tmp: nat, varTmp: nat, ops: seq<Op>, n: nat)
    requires Anchored(s, tmp, varTmp) && tmp in keep && varTmp in keep && SafeRun(s, keep, ops) && Valid(s, n)
    ensures Valid(After(s, ops), n) && MountOf(After(s, ops), n) == MountOf(s, n)
    ensures Anchored(After(s, ops), tmp, varTmp)
    decreases |ops|
  {
    if ops != [] {
      MountStep(s, keep, tmp, varTmp, ops[0], n);
      RunMounts(Apply(s, ops[0]).0, keep, tmp, varTmp, ops[1..], n);
    }
  }
}
