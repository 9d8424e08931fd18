/** Calls on two models that differ only below mountpoints return the same. */
module FsNoninterference {
  import opened Text
  import opened FsState
  import opened FsTree
  import opened FsPaths
  import opened FsReach
  import opened FsOps
  import opened FsWellFormed
  import opened FsEdits
  import opened FsIsolation
  import opened FsTwins

  /** What two models have in common as far as settings and descriptors go. */
  ghost predicate Peers(s: Fs, t: Fs) {
    && WellFormed(s) && WellFormed(t) && Ready(s) && Ready(t) && |s.nodes| == |t.nodes|
    && s.profile == t.profile && s.fold == t.fold && s.cwd == t.cwd && s.fds == t.fds && s.nextFd == t.nextFd
  }

  lemma TwinPeers(s: Fs, t: Fs)
    requires Twins(s, t)
    ensures Peers(s, t)
  {
    FormedReady(s);
    FormedReady(t);
  }

  // ----- creating -----

  lemma CreateAtTwin(s: Fs, t: Fs, parent: nat, name: Bytes, kind: Kind, open: Option<bool>, e: Errno)
    requires Twins(s, t) && Visible(s, parent)
    ensures Valid(t, parent) && CreateAt(t, parent, name, kind, open, e) == CreateAt(s, parent, name, kind, open, e)
  {
    TwinVisible(s, t, parent);
    DetachedTwin(s, t, parent);
  }

  /** Creating at this place comes to the same in both models, whatever is created. */
  ghost predicate SameCreate(s: Fs, t: Fs, parent: nat, name: Bytes)
    requires WellFormed(s) && WellFormed(t)
  {
    && Valid(s, parent) && Valid(t, parent)
    && forall kind, open, e :: CreateAt(t, parent, name, kind, open, e) == CreateAt(s, parent, name, kind, open, e)
  }

  lemma SameCreateTwin(s: Fs, t: Fs, parent: nat, name: Bytes)
    requires Twins(s, t) && Visible(s, parent)
    ensures SameCreate(s, t, parent, name)
  {
    TwinVisible(s, t, parent);
    forall kind, open, e ensures CreateAt(t, parent, name, kind, open, e) == CreateAt(s, parent, name, kind, open, e) {
      CreateAtTwin(s, t, parent, name, kind, open, e);
    }
  }

  /** The lookups of a create, done in both models. */
  ghost predicate SameTrail(s: Fs, t: Fs, start: Start, at: Lookup, path: Bytes)
    requires Peers(s, t)
  {
    at.At? ==>
      && SameCreate(s, t, at.parent, at.name)
      && s.nodes[at.parent] == t.nodes[at.parent]
      && var tr := TrailMac(s, start, at.parent, Key(s, at.name), path);
      && TrailMac(t, start, at.parent, Key(s, at.name), path) == tr
      && (tr.Dangling? ==> SameCreate(s, t, tr.parent, tr.name))
  }

  lemma TrailsTwin(s: Fs, t: Fs, start: Start, path: Bytes)
    requires Twins(s, t) && Peers(s, t)
    ensures FindParentRaw(t, start, path) == FindParentRaw(s, start, path)
    ensures FindParent(t, start, path) == FindParent(s, start, path)
    ensures SameTrail(s, t, start, FindParentRaw(s, start, path), path)
    ensures SameTrail(s, t, start, FindParent(s, start, path), path)
    ensures var r := FindParentRaw(s, start, path); r.At? ==> Visible(s, r.parent)
  {
    ParentTwin(s, t, start, path);
    ParentVisible(s, start, path);
    var r := FindParentRaw(s, start, path);
    if r.At? {
      TwinVisible(s, t, r.parent);
      SameCreateTwin(s, t, r.parent, r.name);
      TrailTwin(s, t, start, r.parent, Key(s, r.name), path);
      TrailVisible(s, start, r.parent, Key(s, r.name), path);
      var tr := TrailMac(s, start, r.parent, Key(s, r.name), path);
      if tr.Dangling? {
        SameCreateTwin(s, t, tr.parent, tr.name);
      }
    }
  }

  lemma MkdirSame(s: Fs, t: Fs, start: Start, path: Bytes)
    requires Peers(s, t) && FindParent(t, start, path) == FindParent(s, start, path)
    requires SameTrail(s, t, start, FindParent(s, start, path), path)
    ensures DoMkdir(t, start, path) == DoMkdir(s, start, path)
  {
  }

  lemma SlashSame(s: Fs, t: Fs, at: Lookup, path: Bytes, e: Errno)
    requires Peers(s, t) && at.At? && SameTrail(s, t, Cwd, at, path)
    ensures SlashErrno(t, at.parent, at.name, path, e) == SlashErrno(s, at.parent, at.name, path, e)
  {
  }

  lemma SymlinkSame(s: Fs, t: Fs, target: Bytes, path: Bytes)
    requires Peers(s, t) && FindParent(t, Cwd, path) == FindParent(s, Cwd, path)
    requires SameTrail(s, t, Cwd, FindParent(s, Cwd, path), path)
    ensures DoSymlink(t, target, path) == DoSymlink(s, target, path)
  {
    var at := FindParent(s, Cwd, path);
    if at.At? {
      SlashSame(s, t, at, path, EEXIST);
    }
  }

  ghost predicate SameNew(s: Fs, t: Fs, start: Start, path: Bytes)
    requires Peers(s, t)
  {
    var r := FindNew(s, start, path);
    FindNew(t, start, path) == r && (r.At? ==> SameCreate(s, t, r.parent, r.name))
  }

  lemma SameNewTwin(s: Fs, t: Fs, start: Start, path: Bytes)
    requires Twins(s, t) && Peers(s, t)
    ensures SameNew(s, t, start, path)
  {
    NewTwin(s, t, start, path);
    NewVisible(s, start, path);
    var r := FindNew(s, start, path);
    if r.At? {
      SameCreateTwin(s, t, r.parent, r.name);
    }
  }

  lemma BindSame(s: Fs, t: Fs, path: Bytes)
    requires Peers(s, t) && FindParent(t, Cwd, path) == FindParent(s, Cwd, path)
    requires SameTrail(s, t, Cwd, FindParent(s, Cwd, path), path) && SameNew(s, t, Cwd, path)
    requires var at := FindParent(s, Cwd, path);
             at.At? && Key(s, at.name) in s.nodes[at.parent].children ==> Alike(s, t, s.nodes[at.parent].children[Key(s, at.name)])
    ensures DoBind(t, path) == DoBind(s, path)
  {
    var at := FindParent(s, Cwd, path);
    if at.At? {
      SlashSame(s, t, at, path, EADDRINUSE);
    }
  }

  lemma BindTwin(s: Fs, t: Fs, path: Bytes)
    requires Twins(s, t) && Peers(s, t)
    ensures DoBind(t, path) == DoBind(s, path)
  {
    TrailsTwin(s, t, Cwd, path);
    SameNewTwin(s, t, Cwd, path);
    var at := FindParent(s, Cwd, path);
    if at.At? && Key(s, at.name) in s.nodes[at.parent].children {
      TwinChild(s, t, at.parent, Key(s, at.name));
    }
    BindSame(s, t, path);
  }

  ghost predicate SameFind(s: Fs, t: Fs, start: Start, path: Bytes, follow: bool)
    requires Peers(s, t)
  {
    var r := Find(s, start, path, follow);
    Find(t, start, path, follow) == r && (r.Found? ==> Valid(s, r.node) && Valid(t, r.node) && s.nodes[r.node] == t.nodes[r.node])
  }

  lemma SameFindTwin(s: Fs, t: Fs, start: Start, path: Bytes, follow: bool)
    requires Twins(s, t) && Peers(s, t)
    ensures SameFind(s, t, start, path, follow)
    ensures var r := Find(s, start, path, follow); r.Found? ==> Visible(s, r.node)
  {
    FindTwin(s, t, start, path, follow);
    FindVisible(s, start, path, follow);
    var r := Find(s, start, path, follow);
    if r.Found? {
      TwinVisible(s, t, r.node);
    }
  }

  lemma OpenSlashSame(s: Fs, t: Fs, start: Start, path: Bytes, flags: OpenFlags)
    requires Peers(s, t) && FindParentRaw(t, start, path) == FindParentRaw(s, start, path)
    requires SameTrail(s, t, start, FindParentRaw(s, start, path), path)
    ensures OpenSlash(t, start, path, flags) == OpenSlash(s, start, path, flags)
  {
  }

  lemma OpenExclusiveSame(s: Fs, t: Fs, start: Start, path: Bytes, flags: OpenFlags)
    requires Peers(s, t) && FindParent(t, start, path) == FindParent(s, start, path)
    requires SameTrail(s, t, start, FindParent(s, start, path), path)
    ensures OpenExclusive(t, start, path, flags) == OpenExclusive(s, start, path, flags)
  {
  }

  lemma OpenLookupSame(s: Fs, t: Fs, start: Start, path: Bytes, flags: OpenFlags)
    requires Peers(s, t) && SameNew(s, t, start, path) && SameFind(s, t, start, path, !flags.nofollow)
    ensures OpenLookup(t, start, path, flags) == OpenLookup(s, start, path, flags)
  {
  }

  lemma OpenParts(s: Fs, t: Fs, start: Start, path: Bytes, flags: OpenFlags)
    requires Peers(s, t)
    requires OpenSlash(t, start, path, flags) == OpenSlash(s, start, path, flags)
    requires OpenExclusive(t, start, path, flags) == OpenExclusive(s, start, path, flags)
    requires OpenLookup(t, start, path, flags) == OpenLookup(s, start, path, flags)
    ensures DoOpen(t, start, path, flags) == DoOpen(s, start, path, flags)
  {
  }

  lemma OpenTwin(s: Fs, t: Fs, start: Start, path: Bytes, flags: OpenFlags)
    requires Twins(s, t) && Peers(s, t)
    ensures DoOpen(t, start, path, flags) == DoOpen(s, start, path, flags)
  {
    TrailsTwin(s, t, start, path);
    SameNewTwin(s, t, start, path);
    SameFindTwin(s, t, start, path, !flags.nofollow);
    OpenSlashSame(s, t, start, path, flags);
    OpenExclusiveSame(s, t, start, path, flags);
    OpenLookupSame(s, t, start, path, flags);
    OpenParts(s, t, start, path, flags);
  }

  lemma MkstempSame(s: Fs, t: Fs, name: Bytes)
    requires Peers(s, t) && SameCreate(s, t, s.cwd, name) && Alike(s, t, s.cwd)
    ensures DoMkstemp(t, name) == DoMkstemp(s, name)
  {
  }

  lemma MkstempTwin(s: Fs, t: Fs, name: Bytes)
    requires Twins(s, t) && Peers(s, t)
    ensures DoMkstemp(t, name) == DoMkstemp(s, name)
  {
    SameCreateTwin(s, t, s.cwd, name);
    TwinVisible(s, t, s.cwd);
    MkstempSame(s, t, name);
  }

  // ----- looking -----

  lemma LookSame(s: Fs, t: Fs, path: Bytes, follow: bool)
    requires Peers(s, t) && SameFind(s, t, Cwd, path, follow)
    ensures DoStat(t, path, follow) == DoStat(s, path, follow)
    ensures !follow ==> DoReadlink(t, path) == DoReadlink(s, path)
    ensures follow ==> DoOpendir(t, path) == DoOpendir(s, path) && DoChdir(t, path) == DoChdir(s, path) && DoList(t, path) == DoList(s, path)
  {
  }

  lemma ConnectSame(s: Fs, t: Fs, path: Bytes)
    requires Peers(s, t) && SameFind(s, t, Cwd, path, true) && Alike(s, t, s.cwd)
    requires var parts := SplitLast(path); parts.PathParts? ==> SameFind(s, t, Cwd, parts.dir, true)
    ensures DoConnect(t, path) == DoConnect(s, path)
  {
  }

  lemma ConnectTwin(s: Fs, t: Fs, path: Bytes)
    requires Twins(s, t) && Peers(s, t)
    ensures DoConnect(t, path) == DoConnect(s, path)
  {
    SameFindTwin(s, t, Cwd, path, true);
    TwinVisible(s, t, s.cwd);
    var parts := SplitLast(path);
    if parts.PathParts? {
      SameFindTwin(s, t, Cwd, parts.dir, true);
    }
    ConnectSame(s, t, path);
  }

  lemma CwdPathTwin(s: Fs, t: Fs, path: Bytes)
    requires Twins(s, t) && Peers(s, t)
    ensures DoGetcwd(t) == DoGetcwd(s) && DoRealpath(t, path) == DoRealpath(s, path)
  {
    DetachedTwin(s, t, s.cwd);
    PathTwin(s, t, s.cwd);
    SameFindTwin(s, t, Cwd, path, true);
    var r := Find(s, Cwd, path, true);
    if r.Found? {
      PathTwin(s, t, r.node);
    }
  }

  lemma DataSame(s: Fs, t: Fs, fd: nat, data: Bytes, len: nat)
    requires Peers(s, t) && (fd in s.fds ==> Alike(s, t, s.fds[fd].node))
    ensures DoWrite(t, fd, data) == DoWrite(s, fd, data) && DoRead(t, fd, len) == DoRead(s, fd, len)
  {
  }

  lemma DataTwin(s: Fs, t: Fs, fd: nat, data: Bytes, len: nat)
    requires Twins(s, t) && Peers(s, t)
    ensures DoWrite(t, fd, data) == DoWrite(s, fd, data) && DoRead(t, fd, len) == DoRead(s, fd, len)
  {
    if fd in s.fds {
      TwinVisible(s, t, s.fds[fd].node);
    }
    DataSame(s, t, fd, data, len);
  }

  // ----- renaming and removing -----

  lemma TakeSame(s: Fs, t: Fs, start: Start, at: Lookup, path: Bytes)
    requires Peers(s, t) && at.At? && SameTrail(s, t, start, at, path)
    requires var tr := TrailMac(s, start, at.parent, Key(s, at.name), path);
             tr.DirAt? ==> tr.node == s.nodes[at.parent].children[Key(s, at.name)] || OwnerOf(t, tr.node) == OwnerOf(s, tr.node)
    ensures TakeSlot(t, start, at, path) == TakeSlot(s, start, at, path)
  {
  }

  lemma PutSame(s: Fs, t: Fs, at: Lookup, path: Bytes, fromIsDir: bool)
    requires Peers(s, t) && at.At? && SameTrail(s, t, Cwd, at, path)
    requires IsDir(s, at.parent) && IsDir(t, at.parent) && IsName(at.name) && |at.name| <= NAME_MAX
    requires var tr := TrailMac(s, Cwd, at.parent, Key(s, at.name), path);
             tr.DirAt? ==> tr.node == s.nodes[at.parent].children[Key(s, at.name)] || OwnerOf(t, tr.node) == OwnerOf(s, tr.node)
    ensures PutSlot(t, at, path, fromIsDir) == PutSlot(s, at, path, fromIsDir)
  {
  }

  lemma OwnerOfTrail(s: Fs, t: Fs, start: Start, at: Lookup, path: Bytes)
    requires Twins(s, t) && Peers(s, t) && at.At? && Visible(s, at.parent)
    ensures var tr := TrailMac(s, start, at.parent, Key(s, at.name), path);
            tr.DirAt? ==> Valid(t, tr.node) && (tr.node == s.nodes[at.parent].children[Key(s, at.name)] || OwnerOf(t, tr.node) == OwnerOf(s, tr.node))
  {
    TrailVisible(s, start, at.parent, Key(s, at.name), path);
    var tr := TrailMac(s, start, at.parent, Key(s, at.name), path);
    if tr.DirAt? && Visible(s, tr.node) {
      OwnerTwin(s, t, tr.node);
    }
  }

  /** What a call removes or replaces when it succeeds, if it would test it for emptiness. */
  ghost predicate UnlinkDiscreet(s: Fs, start: Start, path: Bytes)
    requires WellFormed(s) && Ready(s)
  {
    var at := FindParent(s, start, path);
    at.At? ==> var slot := TakeSlot(s, start, at, path);
      slot.Slot? ==> Valid(s, slot.id) && s.nodes[slot.id].mountedBy.None?
  }

  lemma UnlinkSame(s: Fs, t: Fs, start: Start, path: Bytes, rmdir: bool)
    requires Peers(s, t) && FindParent(t, start, path) == FindParent(s, start, path)
    requires var at := FindParent(s, start, path);
             at.At? ==>
               && SameTrail(s, t, start, at, path)
               && TakeSlot(t, start, at, path) == TakeSlot(s, start, at, path)
               && var slot := TakeSlot(s, start, at, path);
               slot.Slot? ==> Alike(s, t, slot.id) && (rmdir ==> s.nodes[slot.id].children == t.nodes[slot.id].children)
    ensures DoUnlink(t, start, path, rmdir) == DoUnlink(s, start, path, rmdir)
  {
  }

  /** The entry a call takes is the same, and so is its face. */
  lemma SlotTwin(s: Fs, t: Fs, start: Start, at: Lookup, path: Bytes)
    requires Twins(s, t) && Peers(s, t) && at.At? && Visible(s, at.parent) && SameTrail(s, t, start, at, path)
    ensures TakeSlot(t, start, at, path) == TakeSlot(s, start, at, path)
    ensures var slot := TakeSlot(s, start, at, path);
            slot.Slot? ==> Visible(s, slot.parent) && SameFace(s, t, slot.id) && s.nodes[slot.id].parent == Some(slot.parent)
  {
    OwnerOfTrail(s, t, start, at, path);
    TakeSame(s, t, start, at, path);
    TakeVisible(s, start, at, path);
    var slot := TakeSlot(s, start, at, path);
    if slot.Slot? {
      TwinChild(s, t, slot.parent, slot.key);
    }
  }

  ghost predicate SameFace(s: Fs, t: Fs, n: nat) {
    Valid(s, n) && Valid(t, n) && Face(s.nodes[n]) == Face(t.nodes[n])
  }

  lemma UnlinkTwin(s: Fs, t: Fs, start: Start, path: Bytes, rmdir: bool)
    requires Twins(s, t) && Peers(s, t) && (rmdir ==> UnlinkDiscreet(s, start, path))
    ensures DoUnlink(t, start, path, rmdir) == DoUnlink(s, start, path, rmdir)
  {
    TrailsTwin(s, t, start, path);
    var at := FindParent(s, start, path);
    if at.At? {
      SlotTwin(s, t, start, at, path);
      if rmdir {
        DiscreetSlot(s, t, start, path);
      }
    }
    UnlinkSame(s, t, start, path, rmdir);
  }

  /** The entry of a discreet removal has the same entries in both models. */
  lemma DiscreetSlot(s: Fs, t: Fs, start: Start, path: Bytes)
    requires WellFormed(s) && Ready(s) && UnlinkDiscreet(s, start, path) && FindParent(s, start, path).At?
    requires var slot := TakeSlot(s, start, FindParent(s, start, path), path); slot.Slot? ==> SameFace(s, t, slot.id)
    ensures var slot := TakeSlot(s, start, FindParent(s, start, path), path);
            slot.Slot? ==> s.nodes[slot.id].children == t.nodes[slot.id].children
  {
  }

  /** The private temp directories are found at the same place, where that matters. */
  ghost predicate SameRoutes(s: Fs, t: Fs)
    requires Peers(s, t)
  {
    IsMac(s) || (
      && Resolve(t, Physical, ROOT, s.profile.root + TMP_SUFFIX, true, 0) == Resolve(s, Physical, ROOT, s.profile.root + TMP_SUFFIX, true, 0)
      && Resolve(t, Physical, ROOT, s.profile.root + VAR_TMP_SUFFIX, true, 0) == Resolve(s, Physical, ROOT, s.profile.root + VAR_TMP_SUFFIX, true, 0))
  }

  lemma MountSame(s: Fs, t: Fs, n: nat)
    requires Peers(s, t) && SameRoutes(s, t) && Valid(s, n) && Chain(t, FsTree.Owner, n) == Chain(s, FsTree.Owner, n)
    ensures MountOf(t, n) == MountOf(s, n)
  {
  }

  lemma RenameToSame(s: Fs, t: Fs, src: Slot, dst: Dest, slashes: bool)
    requires Peers(s, t) && src.Slot? && dst.Dest? && IsDir(s, dst.parent) && s.nodes[dst.parent] == t.nodes[dst.parent]
    requires Valid(s, src.parent) && Alike(s, t, src.id)
    requires MountOf(t, src.parent) == MountOf(s, src.parent) && MountOf(t, dst.parent) == MountOf(s, dst.parent)
    requires IsDetached(t, dst.parent) <==> IsDetached(s, dst.parent)
    requires Chain(t, FsTree.Owner, dst.parent) == Chain(s, FsTree.Owner, dst.parent)
    requires Chain(t, FsTree.Owner, src.id) == Chain(s, FsTree.Owner, src.id)
    requires dst.key in s.nodes[dst.parent].children ==>
               var o := s.nodes[dst.parent].children[dst.key];
               Alike(s, t, o) && (o == src.id || s.nodes[o].children == t.nodes[o].children)
    ensures RenameTo(t, src, dst, slashes) == RenameTo(s, src, dst, slashes)
  {
  }

  /** A rename does not test a mountpoint for emptiness. */
  ghost predicate RenameDiscreet(s: Fs, from: Bytes, to: Bytes)
    requires WellFormed(s) && Ready(s)
  {
    var f, t := FindParent(s, Cwd, from), FindParent(s, Cwd, to);
    f.At? && t.At? ==>
      var src := TakeSlot(s, Cwd, f, from);
      src.Slot? ==>
        var dst := PutSlot(s, t, to, IsDir(s, src.id));
        dst.Dest? && dst.key in s.nodes[dst.parent].children ==>
          var o := s.nodes[dst.parent].children[dst.key];
          o == src.id || (Valid(s, o) && s.nodes[o].mountedBy.None?)
  }

  lemma {:induction false} FaceChain(s: Fs, t: Fs, n: nat)
    requires Twins(s, t) && SameFace(s, t, n) && s.nodes[n].parent.Some? && Visible(s, s.nodes[n].parent.value)
    ensures Chain(t, FsTree.Owner, n) == Chain(s, FsTree.Owner, n)
  {
    ChainUp(s, FsTree.Owner, n);
    ChainUp(t, FsTree.Owner, n);
    ChainTwin(s, t, s.nodes[n].parent.value);
  }

  lemma RenameToTwin(s: Fs, t: Fs, src: Slot, dst: Dest, slashes: bool)
    requires Twins(s, t) && Peers(s, t) && SameRoutes(s, t) && src.Slot? && dst.Dest?
    requires Visible(s, src.parent) && SameFace(s, t, src.id) && s.nodes[src.id].parent == Some(src.parent)
    requires Visible(s, dst.parent) && IsDir(s, dst.parent)
    requires dst.key in s.nodes[dst.parent].children ==>
               var o := s.nodes[dst.parent].children[dst.key];
               o == src.id || (Valid(s, o) && s.nodes[o].mountedBy.None?)
    ensures IsDir(t, dst.parent) && RenameTo(t, src, dst, slashes) == RenameTo(s, src, dst, slashes)
  {
    TwinVisible(s, t, dst.parent);
    ChainTwin(s, t, src.parent);
    ChainTwin(s, t, dst.parent);
    MountSame(s, t, src.parent);
    MountSame(s, t, dst.parent);
    DetachedTwin(s, t, dst.parent);
    FaceChain(s, t, src.id);
    if dst.key in s.nodes[dst.parent].children {
      TwinChild(s, t, dst.parent, dst.key);
    }
    RenameToSame(s, t, src, dst, slashes);
  }

  /** Both ends of a rename come to the same, and so do its last checks. */
  ghost predicate SameEnds(s: Fs, t: Fs, f: Lookup, from: Bytes, g: Lookup, to: Bytes)
    requires Peers(s, t) && f.At? && Valid(s, f.parent)
    requires g.At? ==> IsDir(s, g.parent) && IsDir(t, g.parent) && IsName(g.name) && |g.name| <= NAME_MAX
  {
    var src := TakeSlot(s, Cwd, f, from);
    && TakeSlot(t, Cwd, f, from) == src
    && (src.Slot? ==> Alike(s, t, src.id))
    && (src.Slot? && g.At? ==>
          var dst := PutSlot(s, g, to, IsDir(s, src.id));
          && PutSlot(t, g, to, IsDir(s, src.id)) == dst
          && (dst.Dest? ==> RenameTo(t, src, dst, f.slash || g.slash) == RenameTo(s, src, dst, f.slash || g.slash)))
  }

  lemma RenameSame(s: Fs, t: Fs, from: Bytes, to: Bytes)
    requires Peers(s, t)
    requires FindParent(t, Cwd, from) == FindParent(s, Cwd, from) && FindParent(t, Cwd, to) == FindParent(s, Cwd, to)
    requires var f, g := FindParent(s, Cwd, from), FindParent(s, Cwd, to);
             f.At? ==> (g.At? ==> IsDir(t, g.parent)) && SameEnds(s, t, f, from, g, to)
    ensures DoRename(t, from, to) == DoRename(s, from, to)
  {
  }

  lemma EndsTwin(s: Fs, t: Fs, f: Lookup, from: Bytes, g: Lookup, to: Bytes)
    requires Twins(s, t) && Peers(s, t) && SameRoutes(s, t)
    requires f.At? && Visible(s, f.parent) && SameTrail(s, t, Cwd, f, from)
    requires g.At? ==> IsDir(s, g.parent) && Visible(s, g.parent) && IsName(g.name) && |g.name| <= NAME_MAX && SameTrail(s, t, Cwd, g, to)
    requires g.At? ==>
               var src := TakeSlot(s, Cwd, f, from);
               src.Slot? ==>
                 var dst := PutSlot(s, g, to, IsDir(s, src.id));
                 dst.Dest? && dst.key in s.nodes[dst.parent].children ==>
                   var o := s.nodes[dst.parent].children[dst.key];
                   o == src.id || (Valid(s, o) && s.nodes[o].mountedBy.None?)
    ensures (g.At? ==> IsDir(t, g.parent)) && SameEnds(s, t, f, from, g, to)
  {
    SlotTwin(s, t, Cwd, f, from);
    if g.At? {
      TwinVisible(s, t, g.parent);
      var src := TakeSlot(s, Cwd, f, from);
      if src.Slot? {
        DestTwin(s, t, g, to, IsDir(s, src.id));
        var dst := PutSlot(s, g, to, IsDir(s, src.id));
        if dst.Dest? {
          RenameToTwin(s, t, src, dst, f.slash || g.slash);
        }
      }
    }
  }

  lemma RenameTwin(s: Fs, t: Fs, from: Bytes, to: Bytes)
    requires Twins(s, t) && Peers(s, t) && SameRoutes(s, t) && RenameDiscreet(s, from, to)
    ensures DoRename(t, from, to) == DoRename(s, from, to)
  {
    TrailsTwin(s, t, Cwd, from);
    TrailsTwin(s, t, Cwd, to);
    var f, g := FindParent(s, Cwd, from), FindParent(s, Cwd, to);
    if f.At? {
      EndsTwin(s, t, f, from, g, to);
    }
    RenameSame(s, t, from, to);
  }

  lemma DestTwin(s: Fs, t: Fs, at: Lookup, path: Bytes, fromIsDir: bool)
    requires Twins(s, t) && Peers(s, t) && at.At? && Visible(s, at.parent) && SameTrail(s, t, Cwd, at, path)
    requires IsDir(s, at.parent) && IsName(at.name) && |at.name| <= NAME_MAX
    ensures IsDir(t, at.parent) && PutSlot(t, at, path, fromIsDir) == PutSlot(s, at, path, fromIsDir)
    ensures var d := PutSlot(s, at, path, fromIsDir); d.Dest? ==> Visible(s, d.parent)
  {
    TwinVisible(s, t, at.parent);
    OwnerOfTrail(s, t, Cwd, at, path);
    PutVisible(s, at, path, fromIsDir);
    PutSame(s, t, at, path, fromIsDir);
  }

  // ----- every call -----

  /** The call does not test whether a mountpoint is empty. */
  ghost predicate Discreet(s: Fs, op: Op)
    requires WellFormed(s) && Ready(s)
  {
    match op
    case Rename(from, to) => RenameDiscreet(s, from, to)
    case Rmdir(path) => UnlinkDiscreet(s, Cwd, path)
    case UnlinkAt(fd, path, rmdir) => rmdir ==> UnlinkDiscreet(s, AtStart(fd, path), path)
    case _ => true
  }

  lemma MkdirTwin(s: Fs, t: Fs, start: Start, path: Bytes)
    requires Twins(s, t) && Peers(s, t)
    ensures DoMkdir(t, start, path) == DoMkdir(s, start, path)
  {
    TrailsTwin(s, t, start, path);
    MkdirSame(s, t, start, path);
  }

  lemma SymlinkTwin(s: Fs, t: Fs, target: Bytes, path: Bytes)
    requires Twins(s, t) && Peers(s, t)
    ensures DoSymlink(t, target, path) == DoSymlink(s, target, path)
  {
    TrailsTwin(s, t, Cwd, path);
    SymlinkSame(s, t, target, path);
  }

  lemma LookTwin(s: Fs, t: Fs, path: Bytes)
    requires Twins(s, t) && Peers(s, t)
    ensures DoStat(t, path, true) == DoStat(s, path, true) && DoStat(t, path, false) == DoStat(s, path, false)
    ensures DoReadlink(t, path) == DoReadlink(s, path) && DoOpendir(t, path) == DoOpendir(s, path)
    ensures DoChdir(t, path) == DoChdir(s, path) && DoList(t, path) == DoList(s, path)
  {
    SameFindTwin(s, t, Cwd, path, true);
    SameFindTwin(s, t, Cwd, path, false);
    LookSame(s, t, path, true);
    LookSame(s, t, path, false);
  }

  lemma LookOpTwin(s: Fs, t: Fs, op: Op)
    requires Twins(s, t) && Peers(s, t) && Looks(op)
    ensures DecideLook(t, op) == DecideLook(s, op)
  {
    match op
    case OpenDir(path) => LookTwin(s, t, path);
    case Write(fd, data) => DataTwin(s, t, fd, data, 0);
    case Read(fd, len) => DataTwin(s, t, fd, [], len);
    case Readlink(path) => LookTwin(s, t, path);
    case Chdir(path) => LookTwin(s, t, path);
    case Getcwd => CwdPathTwin(s, t, []);
    case Realpath(path) => CwdPathTwin(s, t, path);
    case Stat(path) => LookTwin(s, t, path);
    case Lstat(path) => LookTwin(s, t, path);
    case Connect(path) => ConnectTwin(s, t, path);
    case List(path) => LookTwin(s, t, path);
    case CloseFd(_) =>
  }

  lemma ChangeTwin(s: Fs, t: Fs, op: Op)
    requires Twins(s, t) && Peers(s, t) && (op.Rename? ==> SameRoutes(s, t)) && Discreet(s, op) && !Looks(op)
    ensures DecideChange(t, op) == DecideChange(s, op)
  {
    match op
    case Mkdir(path, _) => MkdirTwin(s, t, Cwd, path);
    case MkdirAt(fd, path) => MkdirTwin(s, t, AtStart(fd, path), path);
    case Open(path, flags) => OpenTwin(s, t, Cwd, path, flags);
    case OpenAt(fd, path, flags) => OpenTwin(s, t, AtStart(fd, path), path, flags);
    case SymlinkOp(target, path) => SymlinkTwin(s, t, target, path);
    case Rename(from, to) => RenameTwin(s, t, from, to);
    case Unlink(path) => UnlinkTwin(s, t, Cwd, path, false);
    case Rmdir(path) => UnlinkTwin(s, t, Cwd, path, true);
    case UnlinkAt(fd, path, rmdir) => UnlinkTwin(s, t, AtStart(fd, path), path, rmdir);
    case Bind(path) => BindTwin(s, t, path);
    case MkstempAdopt(name) => MkstempTwin(s, t, name);
  }

  /** Two models that differ only below mountpoints decide alike on every discreet call. */
  lemma DecideTwin(s: Fs, t: Fs, op: Op)
    requires Twins(s, t) && Peers(s, t) && (op.Rename? ==> SameRoutes(s, t)) && Discreet(s, op)
    ensures Decide(t, op) == Decide(s, op)
  {
    if Looks(op) {
      LookOpTwin(s, t, op);
    } else {
      ChangeTwin(s, t, op);
    }
  }

  // ----- the same edit on both -----

  lemma MoveFace(s: Fs, t: Fs, e: Edit, n: nat, a: Node, b: Node)
    requires e.Move? && Valid(s, n) && Valid(t, n) && Face(s.nodes[n]) == Face(t.nodes[n])
    requires Valid(s, e.toParent) && Valid(t, e.toParent) && Valid(s, e.fromParent) && Valid(t, e.fromParent)
    requires s.nodes[e.toParent] == t.nodes[e.toParent] && s.nodes[e.fromParent] == t.nodes[e.fromParent]
    requires s.nodes[e.toParent].mountedBy.None? && s.nodes[e.fromParent].mountedBy.None?
    requires NodeMoved(s, e, n, a) && NodeMoved(t, e, n, b)
    ensures Face(a) == Face(b)
  {
  }

  lemma RemoveFace(s: Fs, t: Fs, e: Edit, n: nat, a: Node, b: Node)
    requires e.Remove? && Valid(s, n) && Valid(t, n) && Face(s.nodes[n]) == Face(t.nodes[n])
    requires Valid(s, e.parent) && Valid(t, e.parent) && s.nodes[e.parent] == t.nodes[e.parent] && s.nodes[e.parent].mountedBy.None?
    requires NodeRemoved(s, e, n, a) && NodeRemoved(t, e, n, b)
    ensures Face(a) == Face(b)
  {
  }

  lemma CreateFace(s: Fs, t: Fs, e: Edit, n: nat)
    requires e.Create? && CanDo(s, e) && CanDo(t, e) && |s.nodes| == |t.nodes|
    requires Valid(s, n) && Valid(t, n) && Face(s.nodes[n]) == Face(t.nodes[n])
    requires s.nodes[e.parent] == t.nodes[e.parent] && s.nodes[e.parent].mountedBy.None?
    ensures Valid(Do(s, e), n) && Valid(Do(t, e), n) && Face(Do(s, e).nodes[n]) == Face(Do(t, e).nodes[n])
  {
  }

  lemma QuietFace(s: Fs, t: Fs, e: Edit, n: nat)
    requires !e.Create? && !e.Move? && !e.Remove? && CanDo(s, e) && CanDo(t, e)
    requires Valid(s, n) && Valid(t, n) && Face(s.nodes[n]) == Face(t.nodes[n])
    ensures Valid(Do(s, e), n) && Valid(Do(t, e), n) && Face(Do(s, e).nodes[n]) == Face(Do(t, e).nodes[n])
  {
  }

  /** An edit changes each node in a way that only its face decides. */
  lemma EditFace(s: Fs, t: Fs, e: Edit, n: nat)
    requires Twins(s, t) && Legal(s, e) && Legal(t, e) && Within(s, e)
    requires CanDo(s, e) && CanDo(t, e) && SameFace(s, t, n)
    ensures Valid(Do(s, e), n) && Valid(Do(t, e), n) && Face(Do(s, e).nodes[n]) == Face(Do(t, e).nodes[n])
  {
    match e
    case Create(p, _, _, _) =>
      TwinVisible(s, t, p);
      VisibleSelf(s, p);
      CreateFace(s, t, e, n);
    case Move(fp, _, _, tp, _) =>
      TwinVisible(s, t, fp);
      TwinVisible(s, t, tp);
      VisibleSelf(s, fp);
      VisibleSelf(s, tp);
      MovedIs(s, e);
      MovedIs(t, e);
      MoveFace(s, t, e, n, Do(s, e).nodes[n], Do(t, e).nodes[n]);
    case Remove(p, _, _) =>
      TwinVisible(s, t, p);
      VisibleSelf(s, p);
      RemovedIs(s, e);
      RemovedIs(t, e);
      RemoveFace(s, t, e, n, Do(s, e).nodes[n], Do(t, e).nodes[n]);
    case _ => QuietFace(s, t, e, n);
  }

  lemma TwinAfter(s: Fs, t: Fs, s': Fs, t': Fs, n: nat)
    requires WellFormed(s) && WellFormed(t) && Shielded(s, s') && Shielded(t, t') && Valid(s, n) && Valid(t, n)
    requires TwinNode(s, t, n) && ShieldedNode(s, s', n) && ShieldedNode(t, t', n)
    requires !Hidden(s, n) ==> Face(s'.nodes[n]) == Face(t'.nodes[n])
    ensures TwinNode(s', t', n)
  {
  }

  /** The settings and descriptors after an edit, and how many nodes there are. */
  lemma EditPeers(s: Fs, t: Fs, e: Edit)
    requires s.profile == t.profile && s.fold == t.fold && s.cwd == t.cwd && s.fds == t.fds && s.nextFd == t.nextFd
    requires |s.nodes| == |t.nodes| && CanDo(s, e) && CanDo(t, e)
    ensures var s', t' := Do(s, e), Do(t, e);
            && |s'.nodes| == |t'.nodes| && s'.profile == t'.profile && s'.fold == t'.fold
            && s'.cwd == t'.cwd && s'.fds == t'.fds && s'.nextFd == t'.nextFd
    ensures |Do(s, e).nodes| == |s.nodes| + (if e.Create? then 1 else 0)
  {
  }

  lemma EditTwins(s: Fs, t: Fs, e: Edit)
    requires Twins(s, t) && Legal(s, e) && Legal(t, e) && Within(s, e) && Within(t, e)
    ensures CanDo(s, e) && CanDo(t, e) && Twins(Do(s, e), Do(t, e))
  {
    EditShield(s, e);
    EditShield(t, e);
    EditPeers(s, t, e);
    EditFaces(s, t, Do(s, e), Do(t, e), e);
    EditNew(s, t, Do(s, e), Do(t, e), e);
    TwinsAfter(s, t, Do(s, e), Do(t, e));
  }

  lemma EditFaces(s: Fs, t: Fs, s': Fs, t': Fs, e: Edit)
    requires Twins(s, t) && Legal(s, e) && Legal(t, e) && Within(s, e) && CanDo(s, e) && CanDo(t, e)
    requires s' == Do(s, e) && t' == Do(t, e)
    ensures forall n: nat :: Valid(s, n) && !Hidden(s, n) ==> SameFace(s', t', n)
  {
    forall n: nat | Valid(s, n) && !Hidden(s, n) ensures SameFace(s', t', n) {
      assert TwinNode(s, t, n);
      EditFace(s, t, e, n);
    }
  }

  lemma EditNew(s: Fs, t: Fs, s': Fs, t': Fs, e: Edit)
    requires WellFormed(s) && WellFormed(t) && Legal(s, e) && Legal(t, e) && Within(s, e) && Within(t, e)
    requires CanDo(s, e) && CanDo(t, e) && s' == Do(s, e) && t' == Do(t, e) && Shielded(s, s') && Shielded(t, t')
    requires |s.nodes| == |t.nodes| && |s'.nodes| == |t'.nodes| == |s.nodes| + (if e.Create? then 1 else 0)
    ensures NewNodes(s', t', |s.nodes|)
  {
    if e.Create? {
      NewNodeEdit(s, s', e);
      NewNodeEdit(t, t', e);
      NewNodeTwins(s', t', |s.nodes|, e.kind, e.parent);
    }
  }

  lemma NewNodeTwins(s: Fs, t: Fs, count: nat, kind: Kind, p: nat)
    requires |s.nodes| == |t.nodes| == count + 1 && Visible(s, p) && Visible(t, p)
    requires s.nodes[count] == NewNode(kind, p) && t.nodes[count] == NewNode(kind, p)
    ensures NewNodes(s, t, count)
  {
  }

  /** Nodes made after the first `count` ones are new and lie in visible directories. */
  ghost predicate NewNodes(s: Fs, t: Fs, count: nat) {
    && |t.nodes| == |s.nodes|
    && forall n: nat :: count <= n < |s.nodes| ==>
         s.nodes[n] == t.nodes[n] && IdOk(s.nodes[n].parent, |s.nodes|)
         && s.nodes[n].parent.Some? && Visible(s, s.nodes[n].parent.value) && Visible(t, s.nodes[n].parent.value)
  }

  lemma TwinsAfter(s: Fs, t: Fs, s': Fs, t': Fs)
    requires Twins(s, t) && Shielded(s, s') && Shielded(t, t') && Isolated(s') && Isolated(t') && NewNodes(s', t', |s.nodes|)
    requires s'.profile == t'.profile && s'.fold == t'.fold && s'.cwd == t'.cwd && s'.fds == t'.fds && s'.nextFd == t'.nextFd
    requires forall n: nat :: Valid(s, n) && !Hidden(s, n) ==> SameFace(s', t', n)
    ensures Twins(s', t')
  {
    forall n: nat | Valid(s', n) ensures TwinNode(s', t', n) {
      if Valid(s, n) {
        assert TwinNode(s, t, n) && ShieldedNode(s, s', n) && ShieldedNode(t, t', n);
        TwinAfter(s, t, s', t', n);
      }
    }
  }

  lemma NewNodeEdit(s: Fs, s': Fs, e: Edit)
    requires WellFormed(s) && Legal(s, e) && Within(s, e) && e.Create? && CanDo(s, e) && s' == Do(s, e) && Shielded(s, s')
    ensures |s'.nodes| == |s.nodes| + 1 && s'.nodes[|s.nodes|] == NewNode(e.kind, e.parent) && Visible(s', e.parent)
  {
    CreateChains(s, e);
    assert ShieldedNode(s, s', e.parent);
  }

  // ----- one call -----

  lemma StepTwins(s: Fs, t: Fs, op: Op)
    requires Twins(s, t) && Peers(s, t) && (op.Rename? ==> SameRoutes(s, t)) && Discreet(s, op)
    ensures Twins(Apply(s, op).0, Apply(t, op).0) && Apply(s, op).1 == Apply(t, op).1
  {
    DecideTwin(s, t, op);
    DecideSensible(s, op);
    DecideSensible(t, op);
    DecideWithin(s, op);
    DecideWithin(t, op);
    EditTwins(s, t, Decide(s, op).edit);
  }
}
