/** Every step of every run keeps the node tree well formed. */
module FsWellFormed {
  import opened Text
  import opened FsState
  import opened FsTree
  import opened FsOps

  ghost predicate KeyOk(s: Fs, key: Bytes) {
    IsName(key) && |key| <= NAME_MAX && Key(s, key) == key
  }

  ghost predicate EntryAt(s: Fs, p: nat, key: Bytes, n: nat) {
    Valid(s, p) && Valid(s, n) && key in s.nodes[p].children && s.nodes[p].children[key] == n
  }

  /** What the checks of a call establish before it edits. */
  ghost predicate Legal(s: Fs, e: Edit)
    requires WellFormed(s)
  {
    match e
    case Nothing => true
    case Create(p, key, kind, open) =>
      && IsDir(s, p) && !s.nodes[p].detached && KeyOk(s, key) && key !in s.nodes[p].children
      && !kind.Opaque? && (open.Some? ==> kind.File?)
    case OpenFile(n, _, _) => Valid(s, n) && s.nodes[n].kind.File?
    case OpenNode(n) => IsDir(s, n)
    case PutData(fd, n, _, _) => Valid(s, n) && s.nodes[n].kind.File? && fd in s.fds && s.fds[fd].node == n
    case Seek(fd, n, _, _) => Valid(s, n) && s.nodes[n].kind.File? && fd in s.fds && s.fds[fd].node == n
    case Close(_) => true
    case Enter(n) => IsDir(s, n)
    case Move(fp, fk, id, tp, tk) =>
      && EntryAt(s, fp, fk, id)
      && IsDir(s, tp) && !s.nodes[tp].detached && KeyOk(s, tk)
      && id !in Chain(s, FsTree.Owner, tp)
      && (tk in s.nodes[tp].children ==> Replaceable(s, id, tp, tk))
    case Remove(p, key, id) => EntryAt(s, p, key, id) && s.nodes[id].children == map[]
  }

  /** The entry a rename replaces: another node, alike in kind, and empty. */
  ghost predicate Replaceable(s: Fs, id: nat, tp: nat, tk: Bytes)
    requires Valid(s, tp) && tk in s.nodes[tp].children
  {
    var old_ := s.nodes[tp].children[tk];
    Valid(s, old_) && old_ != id && s.nodes[old_].children == map[] && (IsDir(s, old_) <==> IsDir(s, id))
  }

  // ----- calls decide on legal edits -----

  lemma KeyIsName(s: Fs, name: Bytes)
    requires IsName(name) && |name| <= NAME_MAX
    ensures KeyOk(s, Key(s, name))
  {
    var k := Key(s, name);
    assert Key(s, k) == k;
    assert forall i :: 0 <= i < |name| ==> (name[i] == 46 <==> k[i] == 46) && (name[i] == SLASH <==> k[i] == SLASH);
  }

  lemma LiveSelf(s: Fs, n: nat)
    requires Closed(s) && Ends(s, FsTree.Owner, n) && !IsDetached(s, n)
    ensures Valid(s, n) && !s.nodes[n].detached
  {
    assert Chain(s, FsTree.Owner, n)[0] == n;
  }

  ghost predicate Sensible(s: Fs, v: Verdict)
    requires WellFormed(s)
  {
    && Legal(s, v.edit)
    && (v.outcome.Failed? ==> v.edit == Nothing)
  }

  lemma CreateSensible(s: Fs, parent: nat, name: Bytes, kind: Kind, open: Option<bool>, e: Errno)
    requires WellFormed(s) && IsDir(s, parent) && IsName(name) && |name| <= NAME_MAX
    requires !kind.Opaque? && (open.Some? ==> kind.File?)
    ensures Sensible(s, CreateAt(s, parent, name, kind, open, e))
  {
    KeyIsName(s, name);
    if !IsDetached(s, parent) {
      LiveSelf(s, parent);
    }
  }

  lemma MkdirSensible(s: Fs, start: Start, path: Bytes)
    requires WellFormed(s)
    ensures Sensible(s, DoMkdir(s, start, path))
  {
    FormedReady(s);
    var f := FindParent(s, start, path);
    if f.At? {
      CreateSensible(s, f.parent, f.name, Dir, None, EEXIST);
      var t := TrailMac(s, start, f.parent, Key(s, f.name), path);
      if t.Dangling? {
        CreateSensible(s, t.parent, t.name, Dir, None, EEXIST);
      }
    }
  }

  lemma OpenSensible(s: Fs, start: Start, path: Bytes, flags: OpenFlags)
    requires WellFormed(s)
    ensures Sensible(s, DoOpen(s, start, path, flags))
  {
    ExclusiveSensible(s, start, path, flags);
    LookupSensible(s, start, path, flags);
  }

  lemma ExclusiveSensible(s: Fs, start: Start, path: Bytes, flags: OpenFlags)
    requires WellFormed(s)
    ensures Sensible(s, OpenExclusive(s, start, path, flags))
  {
    FormedReady(s);
    var f := FindParent(s, start, path);
    if f.At? {
      CreateSensible(s, f.parent, f.name, File([]), Some(flags.write), EEXIST);
    }
  }

  lemma LookupSensible(s: Fs, start: Start, path: Bytes, flags: OpenFlags)
    requires WellFormed(s)
    ensures Sensible(s, OpenLookup(s, start, path, flags))
  {
    FormedReady(s);
    var c := FindNew(s, start, path);
    if c.At? {
      CreateSensible(s, c.parent, c.name, File([]), Some(flags.write), EEXIST);
    }
  }

  lemma SymlinkSensible(s: Fs, target: Bytes, path: Bytes)
    requires WellFormed(s)
    ensures Sensible(s, DoSymlink(s, target, path))
  {
    FormedReady(s);
    var f := FindParent(s, Cwd, path);
    if f.At? {
      CreateSensible(s, f.parent, f.name, Symlink(target), None, EEXIST);
    }
  }

  lemma BindSensible(s: Fs, path: Bytes)
    requires WellFormed(s)
    ensures Sensible(s, DoBind(s, path))
  {
    FormedReady(s);
    var f := FindParent(s, Cwd, path);
    if f.At? {
      CreateSensible(s, f.parent, f.name, Socket, None, EADDRINUSE);
      var c := FindNew(s, Cwd, path);
      if c.At? {
        CreateSensible(s, c.parent, c.name, Socket, None, EADDRINUSE);
      }
    }
  }

  lemma MkstempSensible(s: Fs, name: Bytes)
    requires WellFormed(s)
    ensures Sensible(s, DoMkstemp(s, name))
  {
    if IsName(name) && |name| <= NAME_MAX {
      CreateSensible(s, s.cwd, name, File([]), Some(true), EEXIST);
    }
  }

  lemma UnlinkSensible(s: Fs, start: Start, path: Bytes, rmdir: bool)
    requires WellFormed(s)
    ensures Sensible(s, DoUnlink(s, start, path, rmdir))
  {
    FormedReady(s);
    var v := DoUnlink(s, start, path, rmdir);
    if v.edit.Remove? {
      assert NodeOk(s, v.edit.parent);
      assert EntryOk(s, v.edit.parent, v.edit.key);
      assert NodeOk(s, v.edit.id);
    }
  }

  lemma PutSlotKey(s: Fs, at: Lookup, path: Bytes, fromIsDir: bool)
    requires WellFormed(s) && at.At? && IsDir(s, at.parent) && IsName(at.name) && |at.name| <= NAME_MAX
    ensures var d := PutSlot(s, at, path, fromIsDir); d.Dest? ==> KeyOk(s, d.key)
  {
    FormedReady(s);
    KeyIsName(s, at.name);
    var t := TrailMac(s, Cwd, at.parent, Key(s, at.name), path);
    if t.Dangling? {
      KeyIsName(s, t.name);
    }
    var d := PutSlot(s, at, path, fromIsDir);
    if d.Dest? && t.DirAt? && OwnerOf(s, t.node).OwnedBy? {
      var o := OwnerOf(s, t.node);
      assert NodeOk(s, o.parent);
      assert EntryOk(s, o.parent, o.key);
    }
  }

  lemma RenameToSensible(s: Fs, src: Slot, dst: Dest, slashes: bool)
    requires WellFormed(s) && src.Slot? && dst.Dest? && IsDir(s, dst.parent) && KeyOk(s, dst.key)
    requires EntryAt(s, src.parent, src.key, src.id)
    ensures Sensible(s, RenameTo(s, src, dst, slashes))
  {
    if !IsDetached(s, dst.parent) {
      LiveSelf(s, dst.parent);
    }
    if dst.key in s.nodes[dst.parent].children {
      assert NodeOk(s, dst.parent);
      assert EntryOk(s, dst.parent, dst.key);
      assert NodeOk(s, s.nodes[dst.parent].children[dst.key]);
    }
  }

  lemma RenameSensible(s: Fs, from: Bytes, to: Bytes)
    requires WellFormed(s)
    ensures Sensible(s, DoRename(s, from, to))
  {
    FormedReady(s);
    var f, t := FindParent(s, Cwd, from), FindParent(s, Cwd, to);
    if f.At? && t.At? {
      var src := TakeSlot(s, Cwd, f, from);
      if src.Slot? {
        assert NodeClosed(s.nodes[src.parent], |s.nodes|);
        PutSlotKey(s, t, to, IsDir(s, src.id));
        var dst := PutSlot(s, t, to, IsDir(s, src.id));
        if dst.Dest? {
          RenameToSensible(s, src, dst, f.slash || t.slash);
        }
      }
    }
  }

  lemma FdSensible(s: Fs, fd: nat, data: Bytes, len: nat)
    requires WellFormed(s)
    ensures Sensible(s, DoWrite(s, fd, data)) && Sensible(s, DoRead(s, fd, len))
  {
    FormedReady(s);
    assert fd in s.fds ==> FdOk(s, s.fds[fd]);
  }

  lemma LookSensible(s: Fs, op: Op)
    requires WellFormed(s) && Looks(op)
    ensures Sensible(s, DecideLook(s, op))
  {
    match op
    case Write(fd, data) => FdSensible(s, fd, data, 0);
    case Read(fd, len) => FdSensible(s, fd, [], len);
    case _ =>
  }

  lemma ChangeSensible(s: Fs, op: Op)
    requires WellFormed(s) && !Looks(op)
    ensures Sensible(s, DecideChange(s, op))
  {
    match op
    case Mkdir(path, _) => MkdirSensible(s, Cwd, path);
    case MkdirAt(fd, path) => MkdirSensible(s, AtStart(fd, path), path);
    case Open(path, flags) => OpenSensible(s, Cwd, path, flags);
    case OpenAt(fd, path, flags) => OpenSensible(s, AtStart(fd, path), path, flags);
    case SymlinkOp(target, path) => SymlinkSensible(s, target, path);
    case Rename(from, to) => RenameSensible(s, from, to);
    case Unlink(path) => UnlinkSensible(s, Cwd, path, false);
    case Rmdir(path) => UnlinkSensible(s, Cwd, path, true);
    case UnlinkAt(fd, path, rmdir) => UnlinkSensible(s, AtStart(fd, path), path, rmdir);
    case Bind(path) => BindSensible(s, path);
    case MkstempAdopt(name) => MkstempSensible(s, name);
  }

  /** Every call decides on a legal edit, and on none when it fails. */
  lemma DecideSensible(s: Fs, op: Op)
    requires WellFormed(s)
    ensures Sensible(s, Decide(s, op))
  {
    if Looks(op) {
      LookSensible(s, op);
    } else {
      ChangeSensible(s, op);
    }
  }

  // ----- edits that leave the tree as it is -----

  /** The same tree, up to file contents. */
  ghost predicate SameTree(s: Fs, s': Fs) {
    && |s'.nodes| == |s.nodes| && s'.fold == s.fold && s'.profile == s.profile
    && (forall n :: 0 <= n < |s.nodes| ==> SameNode(s.nodes[n], s'.nodes[n]))
  }

  ghost predicate SameNode(a: Node, b: Node) {
    a == b || (a.kind.File? && b.kind.File? && b == a.(kind := b.kind))
  }

  lemma SameTreeFormed(s: Fs, s': Fs)
    requires WellFormed(s) && SameTree(s, s')
    requires IsDir(s', s'.cwd) && (forall f :: f in s'.fds ==> FdOk(s', s'.fds[f]))
    ensures WellFormed(s')
  {
    forall n | 0 <= n < |s'.nodes| ensures NodeClosed(s'.nodes[n], |s'.nodes|) {
      assert NodeClosed(s.nodes[n], |s.nodes|);
    }
    forall n | 0 <= n < |s'.nodes| ensures NodeOk(s', n) {
      assert NodeOk(s, n);
      assert forall k :: k in s.nodes[n].children ==> EntryOk(s, n, k);
      SameEntries(s, s');
    }
    forall n | 0 <= n < |s'.nodes| ensures Ends(s', FsTree.Owner, n) {
      ChainFrame(s, s', FsTree.Owner, n);
    }
  }

  lemma SameEntries(s: Fs, s': Fs)
    requires SameTree(s, s')
    ensures forall p, n :: HasEntry(s', p, n) <==> HasEntry(s, p, n)
    ensures forall k :: Key(s', k) == Key(s, k)
    ensures forall n :: IsDir(s', n) <==> IsDir(s, n)
  {
  }

  lemma FdsStay(s: Fs, s': Fs)
    requires WellFormed(s) && SameTree(s, s')
    ensures forall f :: f in s.fds ==> FdOk(s', s.fds[f])
  {
    forall f | f in s.fds ensures FdOk(s', s.fds[f]) {
      assert FdOk(s, s.fds[f]);
    }
  }

  /** Edits of contents, descriptors and the working directory. */
  lemma QuietFormed(s: Fs, e: Edit)
    requires WellFormed(s) && Legal(s, e) && !e.Create? && !e.Move? && !e.Remove?
    ensures CanDo(s, e) && SameTree(s, Do(s, e)) && WellFormed(Do(s, e))
  {
    var s' := Do(s, e);
    assert SameTree(s, s');
    FdsStay(s, s');
    SameTreeFormed(s, s');
  }
}
