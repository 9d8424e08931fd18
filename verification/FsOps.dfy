/** The operations of the model: what each call decides to do, and the edits it does. */
module FsOps {
  import opened Text
  import opened FsState
  import opened FsTree

  /** Where a lookup begins. */
  datatype Start = Cwd | Fd(fd: nat) | Top

  datatype OpenFlags = OpenFlags(create: bool, excl: bool, trunc: bool, write: bool, directory: bool, nofollow: bool)

  datatype Op =
    | Mkdir(path: Bytes, mode: nat)
    | Open(path: Bytes, flags: OpenFlags)
    | Write(fd: nat, data: Bytes)
    | Read(fd: nat, len: nat)
    | SymlinkOp(target: Bytes, path: Bytes)
    | Readlink(path: Bytes)
    | Rename(from: Bytes, to: Bytes)
    | Unlink(path: Bytes)
    | Rmdir(path: Bytes)
    | Chdir(path: Bytes)
    | Getcwd
    | Realpath(path: Bytes)
    | Stat(path: Bytes)
    | Lstat(path: Bytes)
    | OpenDir(path: Bytes)
    | OpenAt(dirfd: nat, path: Bytes, flags: OpenFlags)
    | MkdirAt(dirfd: nat, path: Bytes)
    | UnlinkAt(dirfd: nat, path: Bytes, rmdir: bool)
    | Bind(path: Bytes)
    | Connect(path: Bytes)
    | MkstempAdopt(name: Bytes)
    | List(path: Bytes)
    | CloseFd(fd: nat)

  /** What a call returns: a value with bytes, or an errno. `Hangs` stands for a path loop
      that never ends because the reported parents go round in a circle. */
  datatype Outcome = Returned(ret: int, data: Bytes) | Failed(errno: Errno) | Hangs

  // ----- edits -----

  /** A change to the model, as the call does it after all its checks. */
  datatype Edit =
    | Nothing
    | Create(parent: nat, key: Bytes, kind: Kind, open: Option<bool>)
    | OpenFile(node: nat, trunc: bool, write: bool)
    | OpenNode(node: nat)
    | PutData(fd: nat, node: nat, content: Bytes, pos: nat)
    | Seek(fd: nat, node: nat, pos: nat, write: bool)
    | Close(fd: nat)
    | Enter(node: nat)
    | Move(fromParent: nat, fromKey: Bytes, id: nat, toParent: nat, toKey: Bytes)
    | Remove(parent: nat, key: Bytes, id: nat)

  function WithFd(s: Fs, e: FdEntry): Fs {
    s.(fds := s.fds[s.nextFd := e], nextFd := s.nextFd + 1)
  }

  function NewNode(kind: Kind, parent: nat): Node {
    Node(kind, Some(parent), map[], None, None, None, false)
  }

  function SetNode(s: Fs, n: nat, nd: Node): Fs
    requires Valid(s, n)
  {
    s.(nodes := s.nodes[n := nd])
  }

  /** Push a node and list it. */
  function Added(s: Fs, parent: nat, key: Bytes, kind: Kind): Fs
    requires Valid(s, parent)
  {
    var p := s.nodes[parent];
    s.(nodes := s.nodes[parent := p.(children := p.children[key := |s.nodes|])] + [NewNode(kind, parent)])
  }

  function Unlisted(s: Fs, parent: nat, key: Bytes): Fs
    requires Valid(s, parent)
  {
    SetNode(s, parent, s.nodes[parent].(children := s.nodes[parent].children - {key}))
  }

  function Detach(s: Fs, n: nat): Fs
    requires Valid(s, n)
  {
    if IsDir(s, n) then SetNode(s, n, s.nodes[n].(detached := true)) else s
  }

  /** Take the source out of its directory, detach a replaced directory, list the source in
      its new directory and give it its new parent. */
  function Moved(s: Fs, fp: nat, fk: Bytes, id: nat, tp: nat, tk: Bytes): Fs
    requires Valid(s, fp) && Valid(s, id) && Valid(s, tp)
    requires tk in s.nodes[tp].children ==> Valid(s, s.nodes[tp].children[tk])
  {
    var s1 := Unlisted(s, fp, fk);
    var s2 := if tk in s.nodes[tp].children then Detach(s1, s.nodes[tp].children[tk]) else s1;
    var s3 := SetNode(s2, tp, s2.nodes[tp].(children := s2.nodes[tp].children[tk := id]));
    SetNode(s3, id, s3.nodes[id].(parent := Some(tp)))
  }

  ghost predicate CanDo(s: Fs, e: Edit) {
    match e
    case Create(p, _, _, _) => Valid(s, p)
    case OpenFile(n, _, _) => Valid(s, n)
    case PutData(_, n, _, _) => Valid(s, n)
    case Move(fp, _, id, tp, tk) =>
      Valid(s, fp) && Valid(s, id) && Valid(s, tp)
      && (tk in s.nodes[tp].children ==> Valid(s, s.nodes[tp].children[tk]))
    case Remove(p, _, id) => Valid(s, p) && Valid(s, id)
    case _ => true
  }

  ghost function Do(s: Fs, e: Edit): Fs
    requires CanDo(s, e)
  {
    match e
    case Nothing => s
    case Create(p, key, kind, open) =>
      var s' := Added(s, p, key, kind);
      if open.Some? then WithFd(s', FileFd(|s.nodes|, 0, open.value)) else s'
    case OpenFile(n, trunc, write) =>
      var s' := if trunc then SetNode(s, n, s.nodes[n].(kind := File([]))) else s;
      WithFd(s', FileFd(n, 0, write))
    case OpenNode(n) => WithFd(s, DirFd(n))
    case PutData(fd, n, content, pos) =>
      SetNode(s, n, s.nodes[n].(kind := File(content))).(fds := s.fds[fd := FileFd(n, pos, true)])
    case Seek(fd, n, pos, write) => s.(fds := s.fds[fd := FileFd(n, pos, write)])
    case Close(fd) => s.(fds := s.fds - {fd})
    case Enter(n) => s.(cwd := n)
    case Move(fp, fk, id, tp, tk) => Moved(s, fp, fk, id, tp, tk)
    case Remove(p, key, id) => Detach(Unlisted(s, p, key), id)
  }

  /** What a call comes to: the edit and the value returned. */
  datatype Verdict = Verdict(edit: Edit, outcome: Outcome)

  function Err(e: Errno): Verdict {
    Verdict(Nothing, Failed(e))
  }

  function Ok(e: Edit, ret: int): Verdict {
    Verdict(e, Returned(ret, []))
  }

  // ----- shared lookups -----

  datatype Lookup = At(parent: nat, name: Bytes, slash: bool) | Bad(errno: Errno)

  predicate IsMac(s: Fs) {
    s.profile.MacShim?
  }

  predicate IsRootOperand(p: Bytes) {
    p != [] && forall i :: 0 <= i < |p| ==> p[i] == SLASH
  }

  function RootErrno(s: Fs, linux: Errno): Errno {
    if IsMac(s) then EISDIR else linux
  }

  /** Where the trailing slashes of a path begin. */
  function TrimEnd(path: Bytes): (n: nat)
    ensures n <= |path| && (n > 0 ==> path[n - 1] != SLASH)
    ensures forall i :: n <= i < |path| ==> path[i] == SLASH
  {
    if path == [] || path[|path| - 1] != SLASH then |path|
    else TrimEnd(path[..|path| - 1])
  }

  /** The last slash before offset `n`. */
  function SlashBefore(path: Bytes, n: nat): (r: Option<nat>)
    requires n <= |path|
    ensures r.Some? ==> r.value < n && path[r.value] == SLASH
    ensures forall i :: (if r.Some? then r.value + 1 else 0) <= i < n ==> path[i] != SLASH
  {
    if n == 0 then None else if path[n - 1] == SLASH then Some(n - 1) else SlashBefore(path, n - 1)
  }

  datatype ParentAndName = PathParts(dir: Bytes, name: Bytes, slash: bool) | NoName(errno: Errno)

  /** Split a path into its directory text and its final name. */
  function SplitLast(path: Bytes): (r: ParentAndName)
    ensures r.PathParts? ==> r.name != [] && SLASH !in r.name && r.dir != []
  {
    if path == [] then NoName(ENOENT)
    else
      var end := TrimEnd(path);
      if end == 0 then NoName(EINVAL)
      else
        var slash := end < |path|;
        match SlashBefore(path, end)
        case None => PathParts(DOT, path[..end], slash)
        case Some(i) => if i == 0 then PathParts([SLASH], path[1..end], slash) else PathParts(path[..i], path[i + 1..end], slash)
  }

  ghost function FdDir(s: Fs, fd: nat): Found {
    if fd !in s.fds then Missing(EBADF)
    else match s.fds[fd]
      case DirFd(n) => Found(n, 0)
      case FileFd(_, _, _) => Missing(ENOTDIR)
  }

  ghost function StartNode(s: Fs, start: Start): Found {
    match start
    case Cwd => Found(s.cwd, 0)
    case Fd(fd) => FdDir(s, fd)
    case Top => Found(ROOT, 0)
  }

  function AtStart(dirfd: nat, path: Bytes): Start {
    if path != [] && path[0] == SLASH then Top else Fd(dirfd)
  }

  /** Ids that lookups start from name nodes. */
  ghost predicate Ready(s: Fs) {
    && Closed(s) && Valid(s, s.cwd)
    && (forall f :: f in s.fds ==> Valid(s, s.fds[f].node))
  }

  ghost function Find(s: Fs, start: Start, path: Bytes, follow: bool): (r: Found)
    requires Ready(s)
    ensures r.Found? ==> Valid(s, r.node)
  {
    var from := StartNode(s, start);
    if from.Missing? then from else Resolve(s, Virtual, from.node, path, follow, 0)
  }

  /** The directory and final name, without the checks on their kind and length. */
  ghost function FindParentRaw(s: Fs, start: Start, path: Bytes): (r: Lookup)
    requires Ready(s)
    ensures r.At? ==> Valid(s, r.parent) && IsName(r.name)
  {
    if |path| >= PathMax(s) then Bad(ENAMETOOLONG)
    else match SplitLast(path)
      case NoName(e) => Bad(e)
      case PathParts(dir, name, slash) =>
        if name == DOT || name == DOTDOT then Bad(EINVAL)
        else
          var p := if dir == DOT then StartNode(s, start) else Find(s, start, dir, true);
          if p.Missing? then Bad(p.errno) else At(p.node, name, slash)
  }

  ghost function FindParent(s: Fs, start: Start, path: Bytes): (r: Lookup)
    requires Ready(s)
    ensures r.At? ==> IsDir(s, r.parent) && IsName(r.name) && |r.name| <= NAME_MAX
  {
    var r := FindParentRaw(s, start, path);
    if r.Bad? then r
    else if !IsDir(s, r.parent) then Bad(ENOTDIR)
    else if |r.name| > NAME_MAX then Bad(ENAMETOOLONG)
    else r
  }

  /** The directory in which a create looks its last name up. */
  ghost function CreateFront(s: Fs, cur: nat, path: Bytes, links: nat): (r: Found)
    requires Closed(s) && Valid(s, cur) && links <= MaxLinks(s) && path != [] && Comps(path) != []
    ensures LookupOk(s, links, r)
  {
    var comps := Comps(path);
    Walk(s, Virtual, FsState.Enter(s, Virtual, if path[0] == SLASH then ROOT else cur), comps[..|comps| - 1], true, true, links)
  }

  ghost predicate Free(s: Fs, r: Lookup) {
    r.At? ==> IsDir(s, r.parent) && IsName(r.name) && |r.name| <= NAME_MAX && Key(s, r.name) !in s.nodes[r.parent].children
  }

  /** Follow the path for a create: a dangling link at the end leads to where its target
      would be. */
  ghost function FindForCreate(s: Fs, cur: nat, path: Bytes, links: nat): (r: Lookup)
    requires Ready(s) && Valid(s, cur) && links <= MaxLinks(s)
    ensures Free(s, r)
    decreases MaxLinks(s) - links, 1
  {
    if |path| >= PathMax(s) then Bad(ENAMETOOLONG)
    else if path == [] then Bad(ENOENT)
    else if Comps(path) == [] then Bad(EEXIST)
    else
      var dir := CreateFront(s, cur, path, links);
      if dir.Missing? then Bad(dir.errno)
      else
        CompsOk(path, |Comps(path)| - 1);
        FindLast(s, dir.node, Comps(path)[|Comps(path)| - 1], dir.links)
  }

  /** The last name of a create, in directory `dir`. */
  ghost function FindLast(s: Fs, dir: nat, last: Bytes, links: nat): (r: Lookup)
    requires Ready(s) && Valid(s, dir) && links <= MaxLinks(s) && SLASH !in last && IsReal(last)
    ensures Free(s, r)
    decreases MaxLinks(s) - links, 0
  {
    if last == DOTDOT then Bad(EINVAL)
    else if |last| > NAME_MAX then Bad(ENAMETOOLONG)
    else if !IsDir(s, dir) then Bad(ENOTDIR)
    else if Key(s, last) !in s.nodes[dir].children then At(dir, last, false)
    else
      var child := s.nodes[dir].children[Key(s, last)];
      if !s.nodes[child].kind.Symlink? then Bad(EEXIST)
      else if links + 1 > MaxLinks(s) then Bad(ELOOP)
      else if s.nodes[child].kind.target == [] then Bad(ENOENT)
      else FindForCreate(s, dir, s.nodes[child].kind.target, links + 1)
  }

  ghost function FindNew(s: Fs, start: Start, path: Bytes): (r: Lookup)
    requires Ready(s)
    ensures r.At? ==> IsDir(s, r.parent) && IsName(r.name) && |r.name| <= NAME_MAX && Key(s, r.name) !in s.nodes[r.parent].children
  {
    var from := StartNode(s, start);
    if from.Missing? then Bad(from.errno) else FindForCreate(s, from.node, path, 0)
  }

  /** What a trailing-slash name comes to on macOS, where it is looked up through links. */
  datatype Trail = Absent | Dangling(parent: nat, name: Bytes) | NonDir | DirAt(node: nat) | Broken(errno: Errno)

  ghost function TrailMac(s: Fs, start: Start, parent: nat, key: Bytes, path: Bytes): (r: Trail)
    requires Ready(s) && Valid(s, parent)
    ensures r.Dangling? ==> IsDir(s, r.parent) && IsName(r.name) && |r.name| <= NAME_MAX && Key(s, r.name) !in s.nodes[r.parent].children
    ensures r.DirAt? ==> IsDir(s, r.node) && key in s.nodes[parent].children
    ensures r.NonDir? ==> key in s.nodes[parent].children
  {
    if key !in s.nodes[parent].children then Absent
    else
      var t := FollowLink(s, Virtual, parent, s.nodes[parent].children[key], 0);
      if t.Missing? then
        if t.errno == ENOENT then
          var c := FindNew(s, start, path);
          if c.Bad? then Broken(c.errno) else Dangling(c.parent, c.name)
        else Broken(t.errno)
      else if IsDir(s, t.node) then DirAt(t.node)
      else NonDir
  }

  datatype Owner = OwnedBy(parent: nat, key: Bytes) | Unowned

  /** The directory and key that list directory `t`; none for a mount or an orphan. */
  ghost function OwnerOf(s: Fs, t: nat): (r: Owner)
    requires Closed(s) && Valid(s, t)
    ensures r.OwnedBy? ==> Valid(s, r.parent) && r.key in s.nodes[r.parent].children && s.nodes[r.parent].children[r.key] == t
                           && s.nodes[t].mountedBy.None? && s.nodes[t].virtualParent.None?
  {
    if s.nodes[t].virtualParent.Some? || s.nodes[t].mountedBy.Some? then Unowned
    else if s.nodes[t].parent.None? || s.nodes[t].parent.value == t then Unowned
    else if !HasEntry(s, s.nodes[t].parent.value, t) then Unowned
    else OwnedBy(s.nodes[t].parent.value, EntryName(s, s.nodes[t].parent.value, t))
  }

  /** True when the node or an ancestor was removed from the tree. */
  ghost predicate IsDetached(s: Fs, n: nat)
    requires Closed(s) && Ends(s, FsTree.Owner, n)
  {
    exists i :: 0 <= i < |Chain(s, FsTree.Owner, n)| && s.nodes[Chain(s, FsTree.Owner, n)[i]].detached
  }

  ghost predicate IsDescendant(s: Fs, ancestor: nat, n: nat)
    requires Closed(s) && Ends(s, FsTree.Owner, n)
  {
    ancestor in Chain(s, FsTree.Owner, n)
  }

  /** Linux only: which of the private mounts a node lies on; 0 is the host filesystem. */
  ghost function MountAlong(c: seq<nat>, tmp: Found, varTmp: Found): nat {
    if c == [] then 0
    else if tmp.Found? && c[0] == tmp.node then 1
    else if varTmp.Found? && c[0] == varTmp.node then 2
    else MountAlong(c[1..], tmp, varTmp)
  }

  const TMP_SUFFIX: Bytes := [SLASH, 116, 109, 112]
  const VAR_TMP_SUFFIX: Bytes := [SLASH, 118, 97, 114, SLASH, 116, 109, 112]

  ghost function MountOf(s: Fs, n: nat): nat
    requires WellFormed(s) && Valid(s, n)
  {
    if IsMac(s) then 0
    else MountAlong(Chain(s, FsTree.Owner, n),
                    Resolve(s, Physical, ROOT, s.profile.root + TMP_SUFFIX, true, 0),
                    Resolve(s, Physical, ROOT, s.profile.root + VAR_TMP_SUFFIX, true, 0))
  }

  lemma FormedReady(s: Fs)
    requires WellFormed(s)
    ensures Ready(s)
  {
    assert forall f :: f in s.fds ==> FdOk(s, s.fds[f]);
  }

  // ----- the operations -----

  /** The last step of every create: the name is free and the directory is live. */
  ghost function CreateAt(s: Fs, parent: nat, name: Bytes, kind: Kind, open: Option<bool>, exists_: Errno): Verdict
    requires WellFormed(s) && Valid(s, parent)
  {
    if Key(s, name) in s.nodes[parent].children then Err(exists_)
    else if IsDetached(s, parent) then Err(ENOENT)
    else Ok(Create(parent, Key(s, name), kind, open), if open.Some? then s.nextFd else 0)
  }

  ghost function DoMkdir(s: Fs, start: Start, path: Bytes): Verdict
    requires WellFormed(s)
  {
    FormedReady(s);
    if IsRootOperand(path) then Err(RootErrno(s, EEXIST))
    else match FindParent(s, start, path)
      case Bad(e) => Err(e)
      case At(parent, name, slash) =>
        if slash && IsMac(s) then
          match TrailMac(s, start, parent, Key(s, name), path)
          case Broken(e) => Err(e)
          case Absent => CreateAt(s, parent, name, Dir, None, EEXIST)
          case Dangling(p, n) => CreateAt(s, p, n, Dir, None, EEXIST)
          case DirAt(_) => Err(EEXIST)
          case NonDir => Err(ENOTDIR)
        else CreateAt(s, parent, name, Dir, None, EEXIST)
  }

  /** Opening with O_CREAT a name that ends in a slash never creates. */
  ghost function OpenSlash(s: Fs, start: Start, path: Bytes, flags: OpenFlags): Option<Errno>
    requires WellFormed(s)
  {
    FormedReady(s);
    match FindParentRaw(s, start, path)
    case Bad(e) => if e == EINVAL then None else Some(e)
    case At(parent, name, _) =>
      if !IsDir(s, parent) then Some(ENOTDIR)
      else if !IsMac(s) then Some(EISDIR)
      else if |name| > NAME_MAX then Some(ENAMETOOLONG)
      else match TrailMac(s, start, parent, Key(s, name), path)
        case Broken(e) => Some(e)
        case Absent => Some(ENOENT)
        case Dangling(_, _) => Some(ENOENT)
        case NonDir => Some(ENOTDIR)
        case DirAt(_) => Some(if flags.excl then EEXIST else EISDIR)
  }

  /** Opening a node that the lookup found. */
  ghost function OpenFound(s: Fs, n: nat, flags: OpenFlags): Verdict
    requires Valid(s, n)
  {
    match s.nodes[n].kind
    case Dir => if flags.write || flags.trunc then Err(EISDIR) else Ok(OpenNode(n), s.nextFd)
    case Opaque => if flags.write || flags.trunc then Err(EISDIR) else Ok(OpenNode(n), s.nextFd)
    case Symlink(_) => Err(if flags.directory then ENOTDIR else ELOOP)
    case Socket => Err(if IsMac(s) then EOPNOTSUPP else ENXIO)
    case File(_) => if flags.directory then Err(ENOTDIR) else Ok(OpenFile(n, flags.trunc, flags.write), s.nextFd)
  }

  /** With O_EXCL the literal final name decides; no link is followed. */
  ghost function OpenExclusive(s: Fs, start: Start, path: Bytes, flags: OpenFlags): Verdict
    requires WellFormed(s)
  {
    FormedReady(s);
    match FindParent(s, start, path)
    case Bad(e) => Err(e)
    case At(parent, name, _) => CreateAt(s, parent, name, File([]), Some(flags.write), EEXIST)
  }

  /** Look the path up; with O_CREAT a missing name, or the target of a dangling link, is created. */
  ghost function OpenLookup(s: Fs, start: Start, path: Bytes, flags: OpenFlags): Verdict
    requires WellFormed(s)
  {
    FormedReady(s);
    match Find(s, start, path, !flags.nofollow)
    case Found(n, _) => OpenFound(s, n, flags)
    case Missing(e) =>
      if e == ENOENT && flags.create then
        match FindNew(s, start, path)
        case Bad(e') => Err(e')
        case At(parent, name, _) => CreateAt(s, parent, name, File([]), Some(flags.write), EEXIST)
      else Err(e)
  }

  ghost function DoOpen(s: Fs, start: Start, path: Bytes, flags: OpenFlags): Verdict
    requires WellFormed(s)
  {
    FormedReady(s);
    if flags.create && flags.directory then Err(EINVAL)
    else if flags.create && IsRootOperand(path) then Err(RootErrno(s, if flags.excl then EEXIST else EISDIR))
    else if flags.create && Trailing(path) && OpenSlash(s, start, path, flags).Some? then
      Err(OpenSlash(s, start, path, flags).value)
    else if flags.create && flags.excl then OpenExclusive(s, start, path, flags)
    else OpenLookup(s, start, path, flags)
  }

  ghost function DoOpendir(s: Fs, path: Bytes): Verdict
    requires WellFormed(s)
  {
    FormedReady(s);
    match Find(s, Cwd, path, true)
    case Missing(e) => Err(e)
    case Found(n, _) => if IsDir(s, n) then Ok(OpenNode(n), s.nextFd) else Err(ENOTDIR)
  }

  function Zeros(n: nat): Bytes {
    seq(n, i => 0)
  }

  /** `content` with `data` written at `pos`, zero-filled up to there. */
  function PutAt(content: Bytes, pos: nat, data: Bytes): Bytes {
    var padded := if |content| < pos then content + Zeros(pos - |content|) else content;
    padded[..pos] + data + (if pos + |data| < |padded| then padded[pos + |data|..] else [])
  }

  ghost function DoWrite(s: Fs, fd: nat, data: Bytes): Verdict
    requires WellFormed(s)
  {
    FormedReady(s);
    if fd !in s.fds || !s.fds[fd].FileFd? || !s.fds[fd].write then Err(EBADF)
    else
      var n, pos := s.fds[fd].node, s.fds[fd].pos;
      if !s.nodes[n].kind.File? then Err(EBADF)
      else Ok(PutData(fd, n, PutAt(s.nodes[n].kind.content, pos, data), pos + |data|), |data|)
  }

  function Min(a: nat, b: nat): nat {
    if a <= b then a else b
  }

  ghost function DoRead(s: Fs, fd: nat, len: nat): Verdict
    requires WellFormed(s)
  {
    FormedReady(s);
    if fd !in s.fds then Err(EBADF)
    else if s.fds[fd].DirFd? then Err(EISDIR)
    else
      var FileFd(n, pos, write) := s.fds[fd];
      if !s.nodes[n].kind.File? then Err(EBADF)
      else
        var content := s.nodes[n].kind.content;
        var from := Min(pos, |content|);
        var end := Min(from + len, |content|);
        Verdict(Seek(fd, n, pos + end - from, write), Returned(end - from, content[from..end]))
  }

  ghost function DoClose(s: Fs, fd: nat): Verdict {
    if fd in s.fds then Ok(Close(fd), 0) else Err(EBADF)
  }

  /** The errno of a trailing-slash `symlink` or `bind`. */
  ghost function SlashErrno(s: Fs, parent: nat, name: Bytes, path: Bytes, exists_: Errno): Errno
    requires WellFormed(s) && Valid(s, parent)
  {
    FormedReady(s);
    if !IsMac(s) then (if Key(s, name) in s.nodes[parent].children then exists_ else ENOENT)
    else match TrailMac(s, Cwd, parent, Key(s, name), path)
      case Broken(e) => e
      case Absent => ENOENT
      case Dangling(_, _) => ENOENT
      case NonDir => ENOTDIR
      case DirAt(_) => exists_
  }

  ghost function DoSymlink(s: Fs, target: Bytes, path: Bytes): Verdict
    requires WellFormed(s)
  {
    FormedReady(s);
    if |target| >= PathMax(s) then Err(ENAMETOOLONG)
    else if target == [] && !IsMac(s) then Err(ENOENT)
    else if IsRootOperand(path) then Err(RootErrno(s, EEXIST))
    else match FindParent(s, Cwd, path)
      case Bad(e) => Err(e)
      case At(parent, name, slash) =>
        if slash then Err(SlashErrno(s, parent, name, path, EEXIST))
        else CreateAt(s, parent, name, Symlink(target), None, EEXIST)
  }

  ghost function DoReadlink(s: Fs, path: Bytes): Verdict
    requires WellFormed(s)
  {
    FormedReady(s);
    match Find(s, Cwd, path, false)
    case Missing(e) => Err(e)
    case Found(n, _) =>
      if s.nodes[n].kind.Symlink? then Verdict(Nothing, Returned(|s.nodes[n].kind.target|, s.nodes[n].kind.target))
      else Err(EINVAL)
  }

  /** An existing entry that a call acts on. */
  datatype Slot = Slot(parent: nat, key: Bytes, id: nat) | NoSlot(errno: Errno)

  /** The entry a rename or an unlink takes: on macOS a name with a trailing slash is looked
      up through links, and stands for the directory it leads to. */
  ghost function TakeSlot(s: Fs, start: Start, at: Lookup, path: Bytes): (r: Slot)
    requires WellFormed(s) && at.At? && Valid(s, at.parent)
    ensures r.Slot? ==> Valid(s, r.parent) && r.key in s.nodes[r.parent].children && s.nodes[r.parent].children[r.key] == r.id
    ensures r.Slot? && at.slash && IsMac(s) ==> IsDir(s, r.id)
  {
    FormedReady(s);
    var key := Key(s, at.name);
    if key !in s.nodes[at.parent].children then NoSlot(ENOENT)
    else
      var child := s.nodes[at.parent].children[key];
      if at.slash && IsMac(s) then
        match TrailMac(s, start, at.parent, key, path)
        case Broken(e) => NoSlot(e)
        case Absent => NoSlot(ENOENT)
        case Dangling(_, _) => NoSlot(ENOENT)
        case NonDir => NoSlot(ENOTDIR)
        case DirAt(t) =>
          if t == child then Slot(at.parent, key, child)
          else match OwnerOf(s, t)
            case Unowned => NoSlot(EBUSY)
            case OwnedBy(p, k) => Slot(p, k, t)
      else Slot(at.parent, key, child)
  }

  datatype Dest = Dest(parent: nat, key: Bytes) | NoDest(errno: Errno)

  /** Where a rename puts its source. */
  ghost function PutSlot(s: Fs, at: Lookup, path: Bytes, fromIsDir: bool): (r: Dest)
    requires WellFormed(s) && at.At? && IsDir(s, at.parent) && IsName(at.name) && |at.name| <= NAME_MAX
    ensures r.Dest? ==> IsDir(s, r.parent)
  {
    FormedReady(s);
    var key := Key(s, at.name);
    if at.slash && IsMac(s) then
      match TrailMac(s, Cwd, at.parent, key, path)
      case Broken(e) => NoDest(e)
      case Absent => if fromIsDir then Dest(at.parent, key) else NoDest(ENOENT)
      case Dangling(p, n) => if fromIsDir then Dest(p, Key(s, n)) else NoDest(ENOENT)
      case NonDir => NoDest(ENOTDIR)
      case DirAt(t) =>
        if s.nodes[at.parent].children[key] == t then Dest(at.parent, key)
        else match OwnerOf(s, t)
          case Unowned => NoDest(EBUSY)
          case OwnedBy(p, k) => assert NodeOk(s, p); Dest(p, k)
    else Dest(at.parent, key)
  }

  /** The checks of a rename once both ends are known. */
  ghost function RenameTo(s: Fs, src: Slot, dst: Dest, slashes: bool): Verdict
    requires WellFormed(s) && src.Slot? && dst.Dest? && IsDir(s, dst.parent)
    requires Valid(s, src.parent) && Valid(s, src.id)
  {
    var fromIsDir := IsDir(s, src.id);
    var there := dst.key in s.nodes[dst.parent].children;
    if MountOf(s, src.parent) != MountOf(s, dst.parent) then Err(EXDEV)
    else if IsDetached(s, dst.parent) then Err(ENOENT)
    else if !IsMac(s) && slashes && !fromIsDir then Err(ENOTDIR)
    else if dst.parent == src.id || IsDescendant(s, src.id, dst.parent) then Err(EINVAL)
    else if !there then Ok(Move(src.parent, src.key, src.id, dst.parent, dst.key), 0)
    else
      assert NodeOk(s, dst.parent);
      assert EntryOk(s, dst.parent, dst.key);
      var old_ := s.nodes[dst.parent].children[dst.key];
      if old_ == src.id then Ok(Nothing, 0)
      else if !IsMac(s) && IsDescendant(s, old_, src.id) then Err(ENOTEMPTY)
      else if fromIsDir && !IsDir(s, old_) then Err(ENOTDIR)
      else if !fromIsDir && IsDir(s, old_) then Err(EISDIR)
      else if fromIsDir && s.nodes[old_].children != map[] then Err(ENOTEMPTY)
      else Ok(Move(src.parent, src.key, src.id, dst.parent, dst.key), 0)
  }

  ghost function DoRename(s: Fs, from: Bytes, to: Bytes): Verdict
    requires WellFormed(s)
  {
    FormedReady(s);
    if IsRootOperand(from) || IsRootOperand(to) then
      if !IsMac(s) && !IsRootOperand(from) && FindParent(s, Cwd, from).Bad? then Err(FindParent(s, Cwd, from).errno)
      else if !IsMac(s) && !IsRootOperand(to) && FindParent(s, Cwd, to).Bad? then Err(FindParent(s, Cwd, to).errno)
      else Err(RootErrno(s, EBUSY))
    else
      var f := FindParent(s, Cwd, from);
      if f.Bad? then Err(f.errno)
      else
        var src := TakeSlot(s, Cwd, f, from);
        if src.NoSlot? then Err(src.errno)
        else
          var t := FindParent(s, Cwd, to);
          if t.Bad? then Err(t.errno)
          else
            assert NodeClosed(s.nodes[src.parent], |s.nodes|);
            var dst := PutSlot(s, t, to, IsDir(s, src.id));
            if dst.NoDest? then Err(dst.errno)
            else RenameTo(s, src, dst, f.slash || t.slash)
  }

  /** The checks of a removal once the entry is known. */
  ghost function RemoveSlot(s: Fs, slot: Slot, rmdir: bool, slash: bool): Verdict
    requires slot.Slot? && Valid(s, slot.id)
  {
    if rmdir && !IsDir(s, slot.id) then Err(ENOTDIR)
    else if rmdir && s.nodes[slot.id].children != map[] then Err(ENOTEMPTY)
    else if !rmdir && IsDir(s, slot.id) then Err(EISDIR)
    else if !rmdir && slash then Err(ENOTDIR)
    else Ok(Remove(slot.parent, slot.key, slot.id), 0)
  }

  ghost function DoUnlink(s: Fs, start: Start, path: Bytes, rmdir: bool): Verdict
    requires WellFormed(s)
  {
    FormedReady(s);
    if IsRootOperand(path) then Err(RootErrno(s, if rmdir then EBUSY else EISDIR))
    else
      var at := FindParent(s, start, path);
      if at.Bad? then Err(at.errno)
      else if !rmdir && at.slash && IsMac(s) && TrailMac(s, start, at.parent, Key(s, at.name), path).DirAt? then Err(EPERM)
      else
        var slot := TakeSlot(s, start, at, path);
        if slot.NoSlot? then Err(slot.errno)
        else
          assert NodeClosed(s.nodes[slot.parent], |s.nodes|);
          RemoveSlot(s, slot, rmdir, at.slash)
  }

  ghost function DoChdir(s: Fs, path: Bytes): Verdict
    requires WellFormed(s)
  {
    FormedReady(s);
    match Find(s, Cwd, path, true)
    case Missing(e) => Err(e)
    case Found(n, _) => if IsDir(s, n) then Ok(Edit.Enter(n), 0) else Err(ENOTDIR)
  }

  /** The path of a node as `getcwd` and `realpath` report it. */
  ghost function ReportPath(s: Fs, n: nat): Verdict
    requires Closed(s)
  {
    if Ends(s, Reported(Virtual), n) then
      Verdict(Nothing, Returned(|FullPath(s, Virtual, n)|, FullPath(s, Virtual, n)))
    else Verdict(Nothing, Hangs)
  }

  ghost function DoGetcwd(s: Fs): Verdict
    requires WellFormed(s)
  {
    if IsDetached(s, s.cwd) then Err(ENOENT) else ReportPath(s, s.cwd)
  }

  ghost function DoRealpath(s: Fs, path: Bytes): Verdict
    requires WellFormed(s)
  {
    FormedReady(s);
    if (path == [] || path[0] != SLASH) && IsDetached(s, s.cwd) then Err(ENOENT)
    else match Find(s, Cwd, path, true)
      case Missing(e) => Err(e)
      case Found(n, _) => ReportPath(s, n)
  }

  function KindCode(k: Kind): byte {
    match k
    case Dir => 0
    case File(_) => 1
    case Symlink(_) => 2
    case Socket => 3
    case Opaque => 4
  }

  ghost function DoStat(s: Fs, path: Bytes, follow: bool): Verdict
    requires WellFormed(s)
  {
    FormedReady(s);
    match Find(s, Cwd, path, follow)
    case Missing(e) => Err(e)
    case Found(n, _) => Verdict(Nothing, Returned(0, [KindCode(s.nodes[n].kind)]))
  }

  function SunPathCap(s: Fs): nat {
    if IsMac(s) then 104 else 108
  }

  ghost function DoBind(s: Fs, path: Bytes): Verdict
    requires WellFormed(s)
  {
    FormedReady(s);
    if IsRootOperand(path) then Err(if IsMac(s) then EISDIR else EADDRINUSE)
    else match FindParent(s, Cwd, path)
      case Bad(e) => Err(e)
      case At(parent, name, slash) =>
        var key := Key(s, name);
        if slash then Err(SlashErrno(s, parent, name, path, EADDRINUSE))
        else if |name| >= SunPathCap(s) then Err(ENAMETOOLONG)
        else if IsMac(s) && key in s.nodes[parent].children && s.nodes[s.nodes[parent].children[key]].kind.Symlink? then
          match FindNew(s, Cwd, path)
          case Bad(e) => Err(if e == EEXIST then EADDRINUSE else e)
          case At(p, n, _) => CreateAt(s, p, n, Socket, None, EADDRINUSE)
        else CreateAt(s, parent, name, Socket, None, EADDRINUSE)
  }

  ghost function DoConnect(s: Fs, path: Bytes): Verdict
    requires WellFormed(s)
  {
    FormedReady(s);
    if |path| >= PathMax(s) then Err(ENAMETOOLONG)
    else if IsRootOperand(path) then Err(if IsMac(s) then ENOTSOCK else EACCES)
    else match SplitLast(path)
      case NoName(e) => Err(e)
      case PathParts(dir, name, slash) =>
        var p := if dir == DOT then Found(s.cwd, 0) else Find(s, Cwd, dir, true);
        if p.Missing? then Err(p.errno)
        else if !IsDir(s, p.node) then Err(ENOTDIR)
        else if |name| + (if slash then 1 else 0) >= SunPathCap(s) then Err(ENAMETOOLONG)
        else match Find(s, Cwd, path, true)
          case Missing(e) => Err(e)
          case Found(n, _) =>
            if s.nodes[n].kind.Socket? then Ok(Nothing, 0)
            else Err(if IsMac(s) then ENOTSOCK else ECONNREFUSED)
  }

  ghost function DoMkstemp(s: Fs, name: Bytes): Verdict
    requires WellFormed(s)
  {
    if name == [] || SLASH in name then Err(EINVAL)
    else if |name| > NAME_MAX then Err(ENAMETOOLONG)
    else if !IsDir(s, s.cwd) then Err(ENOTDIR)
    else if name == DOT || name == DOTDOT then Err(EEXIST)
    else CreateAt(s, s.cwd, name, File([]), Some(true), EEXIST)
  }

  // ----- listing -----

  predicate Before(a: Bytes, b: Bytes) {
    b != [] && (a == [] || a[0] < b[0] || (a[0] == b[0] && Before(a[1..], b[1..])))
  }

  ghost predicate IsFirst(ks: set<Bytes>, k: Bytes) {
    k in ks && forall j :: j in ks && j != k ==> Before(k, j)
  }

  /** The names in the order a BTreeMap yields them. */
  ghost function Sorted(ks: set<Bytes>): seq<Bytes> {
    if exists k :: IsFirst(ks, k) then
      var k :| IsFirst(ks, k);
      [k] + Sorted(ks - {k})
    else []
  }

  const NEWLINE: byte := 10

  ghost function Lines(names: seq<Bytes>): Bytes {
    if names == [] then [] else if |names| == 1 then names[0] else names[0] + [NEWLINE] + Lines(names[1..])
  }

  ghost function DoList(s: Fs, path: Bytes): Verdict
    requires WellFormed(s)
  {
    FormedReady(s);
    match Find(s, Cwd, path, true)
    case Missing(e) => Err(e)
    case Found(n, _) =>
      if IsDir(s, n) then
        Verdict(Nothing, Returned(|s.nodes[n].children|, Lines(Sorted(s.nodes[n].children.Keys))))
      else Err(ENOTDIR)
  }

  /** Calls that change neither names nor kinds of nodes. */
  predicate Looks(op: Op) {
    || op.OpenDir? || op.Write? || op.Read? || op.Readlink? || op.Chdir? || op.Getcwd? || op.Realpath?
    || op.Stat? || op.Lstat? || op.Connect? || op.List? || op.CloseFd?
  }

  ghost function DecideLook(s: Fs, op: Op): Verdict
    requires WellFormed(s) && Looks(op)
  {
    match op
    case OpenDir(path) => DoOpendir(s, path)
    case Write(fd, data) => DoWrite(s, fd, data)
    case Read(fd, len) => DoRead(s, fd, len)
    case Readlink(path) => DoReadlink(s, path)
    case Chdir(path) => DoChdir(s, path)
    case Getcwd => DoGetcwd(s)
    case Realpath(path) => DoRealpath(s, path)
    case Stat(path) => DoStat(s, path, true)
    case Lstat(path) => DoStat(s, path, false)
    case Connect(path) => DoConnect(s, path)
    case List(path) => DoList(s, path)
    case CloseFd(fd) => DoClose(s, fd)
  }

  ghost function DecideChange(s: Fs, op: Op): Verdict
    requires WellFormed(s) && !Looks(op)
  {
    match op
    case Mkdir(path, _) => DoMkdir(s, Cwd, path)
    case MkdirAt(fd, path) => DoMkdir(s, AtStart(fd, path), path)
    case Open(path, flags) => DoOpen(s, Cwd, path, flags)
    case OpenAt(fd, path, flags) => DoOpen(s, AtStart(fd, path), path, flags)
    case SymlinkOp(target, path) => DoSymlink(s, target, path)
    case Rename(from, to) => DoRename(s, from, to)
    case Unlink(path) => DoUnlink(s, Cwd, path, false)
    case Rmdir(path) => DoUnlink(s, Cwd, path, true)
    case UnlinkAt(fd, path, rmdir) => DoUnlink(s, AtStart(fd, path), path, rmdir)
    case Bind(path) => DoBind(s, path)
    case MkstempAdopt(name) => DoMkstemp(s, name)
  }

  ghost function Decide(s: Fs, op: Op): Verdict
    requires WellFormed(s)
  {
    if Looks(op) then DecideLook(s, op) else DecideChange(s, op)
  }
}
