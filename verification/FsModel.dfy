/** The filesystem model as an object: lookups that loop over components, and calls that
    update the arena, the working directory and the descriptor table in place. */
module FsModel {
  import opened Text
  import opened FsState
  import opened FsTree
  import opened FsOps
  import opened FsWellFormed
  import opened FsEdits

  class Model {
    const profile: Profile
    const fold: bool
    var nodes: seq<Node>
    var cwd: nat
    var fds: map<nat, FdEntry>
    var nextFd: nat

    /** The whole state as a value. */
    function State(): Fs
      reads this
    {
      Fs(nodes, profile, fold, cwd, fds, nextFd)
    }

    constructor (s: Fs)
      ensures State() == s
    {
      profile, fold, nodes, cwd, fds, nextFd := s.profile, s.fold, s.nodes, s.cwd, s.fds, s.nextFd;
    }

    // ----- lookup -----

    method ResolveInner(view: View, start: nat, path: Bytes, follow: bool, links: nat) returns (r: Found)
      requires Closed(State()) && Valid(State(), start) && links <= MaxLinks(State())
      ensures r == Resolve(State(), view, start, path, follow, links)
      decreases MaxLinks(State()) - links, 3
    {
      var s := State();
      if |path| >= PathMax(s) {
        return Missing(ENAMETOOLONG);
      }
      if path == [] {
        return Missing(ENOENT);
      }
      r := WalkFrom(view, FsState.Enter(s, view, if path[0] == SLASH then ROOT else start), Comps(path), follow, Trailing(path), links);
    }

    method WalkFrom(view: View, start: nat, comps: seq<Bytes>, follow: bool, slash: bool, links: nat) returns (r: Found)
      requires Closed(State()) && Valid(State(), start) && links <= MaxLinks(State())
      ensures r == Walk(State(), view, start, comps, follow, slash, links)
      decreases MaxLinks(State()) - links, 2
    {
      var s := State();
      var cur, count, i := start, links, 0;
      assert comps[0..] == comps;
      while i < |comps|
        invariant i <= |comps| && Valid(s, cur) && links <= count <= MaxLinks(s) && State() == s
        invariant Walk(s, view, cur, comps[i..], follow, slash, count) == Walk(s, view, start, comps, follow, slash, links)
      {
        assert comps[i..][1..] == comps[i + 1..];
        if comps[i] == DOTDOT {
          cur := FsState.Enter(s, view, ParentOf(s, view, cur));
        } else {
          var last := i + 1 == |comps|;
          var next := StepInto(view, cur, comps[i], !last || follow || slash, !last || slash, count);
          if next.Missing? {
            return next;
          }
          cur, count := next.node, next.links;
        }
        i := i + 1;
      }
      return Found(cur, count);
    }

    method StepInto(view: View, cur: nat, name: Bytes, follow: bool, wantDir: bool, links: nat) returns (r: Found)
      requires Closed(State()) && Valid(State(), cur) && links <= MaxLinks(State())
      ensures r == Step(State(), view, cur, name, follow, wantDir, links)
      decreases MaxLinks(State()) - links, 1
    {
      var s := State();
      if |name| > NAME_MAX {
        return Missing(ENAMETOOLONG);
      }
      if !IsDir(s, cur) {
        return Missing(ENOTDIR);
      }
      if Key(s, name) !in nodes[cur].children {
        return Missing(ENOENT);
      }
      assert NodeClosed(s.nodes[cur], |s.nodes|);
      var child := nodes[cur].children[Key(s, name)];
      r := Found(child, links);
      if follow {
        r := FollowSymlink(view, cur, child, links);
        if r.Missing? {
          return;
        }
      }
      if wantDir && !IsDir(s, r.node) {
        return Missing(ENOTDIR);
      }
      r := Found(FsState.Enter(s, view, r.node), r.links);
    }

    method FollowSymlink(view: View, dir: nat, link: nat, links: nat) returns (r: Found)
      requires Closed(State()) && Valid(State(), dir) && Valid(State(), link) && links <= MaxLinks(State())
      ensures r == FollowLink(State(), view, dir, link, links)
      decreases MaxLinks(State()) - links, 0
    {
      var s := State();
      if !nodes[link].kind.Symlink? {
        return Found(link, links);
      }
      if links + 1 > MaxLinks(s) {
        return Missing(ELOOP);
      }
      if nodes[link].kind.target == [] {
        return Missing(ENOENT);
      }
      r := ResolveInner(view, dir, nodes[link].kind.target, true, links + 1);
    }

    // ----- climbing -----

    method Detached(node: nat) returns (r: bool)
      requires WellFormed(State()) && Valid(State(), node)
      ensures r <==> IsDetached(State(), node)
    {
      ghost var s := State();
      ghost var c := Chain(s, FsTree.Owner, node);
      ghost var i := 0;
      var n := node;
      while true
        invariant i < |c| && c[i] == n && State() == s && forall j :: 0 <= j < i ==> !s.nodes[c[j]].detached
        decreases |c| - i
      {
        if nodes[n].detached {
          return true;
        }
        OwnerStep(s, c, i);
        if nodes[n].parent.None? {
          return false;
        }
        n := nodes[n].parent.value;
        i := i + 1;
      }
    }

    method Descends(ancestor: nat, node: nat) returns (r: bool)
      requires WellFormed(State()) && Valid(State(), node)
      ensures r <==> IsDescendant(State(), ancestor, node)
    {
      ghost var s := State();
      ghost var c := Chain(s, FsTree.Owner, node);
      ghost var i := 0;
      var cur := node;
      while true
        invariant i < |c| && c[i] == cur && State() == s && ancestor !in c[..i]
        decreases |c| - i
      {
        if cur == ancestor {
          return true;
        }
        OwnerStep(s, c, i);
        assert c[..i + 1] == c[..i] + [cur];
        if nodes[cur].parent.None? {
          assert c[..i + 1] == c;
          return false;
        }
        cur := nodes[cur].parent.value;
        i := i + 1;
      }
    }

    method MountNumber(node: nat) returns (r: nat)
      requires WellFormed(State()) && Valid(State(), node)
      ensures r == MountOf(State(), node)
    {
      if profile.MacShim? {
        return 0;
      }
      var tmp := ResolveInner(Physical, ROOT, profile.root + TMP_SUFFIX, true, 0);
      var varTmp := ResolveInner(Physical, ROOT, profile.root + VAR_TMP_SUFFIX, true, 0);
      ghost var s := State();
      ghost var c := Chain(s, FsTree.Owner, node);
      ghost var i := 0;
      var cur := node;
      assert c[0..] == c;
      while true
        invariant i < |c| && c[i] == cur && State() == s
        invariant MountAlong(c[i..], tmp, varTmp) == MountAlong(c, tmp, varTmp)
        decreases |c| - i
      {
        assert c[i..][0] == cur && c[i..][1..] == c[i + 1..];
        if tmp.Found? && tmp.node == cur {
          return 1;
        }
        if varTmp.Found? && varTmp.node == cur {
          return 2;
        }
        OwnerStep(s, c, i);
        if nodes[cur].parent.None? {
          return 0;
        }
        cur := nodes[cur].parent.value;
        i := i + 1;
      }
    }

    /** The name and directory a node is reported under. */
    method NameIn(view: View, node: nat) returns (r: Option<(Bytes, nat)>)
      requires WellFormed(State()) && Valid(State(), node)
      ensures r == NameAndParent(State(), view, node)
    {
      var nd := nodes[node];
      assert NodeClosed(nd, |nodes|);
      if view.Virtual? && nd.virtualParent.Some? {
        return Some((match nd.mountName case Some(m) => m case None => [], nd.virtualParent.value));
      }
      if nd.parent.None? {
        return None;
      }
      var p := nd.parent.value;
      var kids := nodes[p].children;
      if k :| k in kids && kids[k] == node {
        assert HasEntry(State(), p, node);
        assert NodeOk(State(), p) && EntryOk(State(), p, k);
        return Some((k, p));
      }
      return None;
    }

    /** The path of a node as a view reports it. */
    method PathText(view: View, node: nat) returns (r: Bytes)
      requires WellFormed(State()) && Valid(State(), node) && Ends(State(), Reported(view), node)
      ensures r == FullPath(State(), view, node)
    {
      ghost var s := State();
      var parts: seq<Bytes> := [];
      var cur := node;
      var more := true;
      assert FullNames(s, view, node) + [] == FullNames(s, view, node);
      while more
        invariant Valid(s, cur) && Ends(s, Reported(view), cur) && State() == s
        invariant FullNames(s, view, cur) + parts == FullNames(s, view, node)
        invariant !more ==> FullNames(s, view, cur) == []
        decreases more, |Chain(s, Reported(view), cur)|
      {
        var up := NameIn(view, cur);
        FullNamesUp(s, view, cur);
        ChainUp(s, Reported(view), cur);
        if up.None? {
          more := false;
        } else {
          Regroup(FullNames(s, view, up.value.1), up.value.0, parts);
          parts := [up.value.0] + parts;
          cur := up.value.1;
        }
      }
      assert [] + parts == parts;
      r := Rendered(parts);
    }

    // ----- operands -----

    method StartOf(start: Start) returns (r: Found)
      ensures r == StartNode(State(), start)
    {
      match start
      case Cwd => return Found(cwd, 0);
      case Top => return Found(ROOT, 0);
      case Fd(fd) =>
        if fd !in fds {
          return Missing(EBADF);
        }
        match fds[fd]
        case DirFd(n) => return Found(n, 0);
        case FileFd(_, _, _) => return Missing(ENOTDIR);
    }

    method Lookup(start: Start, path: Bytes, follow: bool) returns (r: Found)
      requires Ready(State())
      ensures r == Find(State(), start, path, follow)
    {
      r := StartOf(start);
      if r.Found? {
        r := ResolveInner(Virtual, r.node, path, follow, 0);
      }
    }

    method ResolveParentUnchecked(start: Start, path: Bytes) returns (r: FsOps.Lookup)
      requires Ready(State())
      ensures r == FindParentRaw(State(), start, path)
    {
      if |path| >= PathMax(State()) {
        return Bad(ENAMETOOLONG);
      }
      var parts := SplitLast(path);
      if parts.NoName? {
        return Bad(parts.errno);
      }
      if parts.name == DOT || parts.name == DOTDOT {
        return Bad(EINVAL);
      }
      var p: Found;
      if parts.dir == DOT {
        p := StartOf(start);
      } else {
        p := Lookup(start, parts.dir, true);
      }
      return if p.Missing? then Bad(p.errno) else At(p.node, parts.name, parts.slash);
    }

    method ResolveParent(start: Start, path: Bytes) returns (r: FsOps.Lookup)
      requires Ready(State())
      ensures r == FindParent(State(), start, path)
    {
      r := ResolveParentUnchecked(start, path);
      if r.At? && !IsDir(State(), r.parent) {
        return Bad(ENOTDIR);
      }
      if r.At? && |r.name| > NAME_MAX {
        return Bad(ENAMETOOLONG);
      }
    }

    method ForCreate(start: nat, path: Bytes, links: nat) returns (r: FsOps.Lookup)
      requires Ready(State()) && Valid(State(), start) && links <= MaxLinks(State())
      ensures r == FindForCreate(State(), start, path, links)
      decreases MaxLinks(State()) - links
    {
      var s := State();
      if |path| >= PathMax(s) {
        return Bad(ENAMETOOLONG);
      }
      if path == [] {
        return Bad(ENOENT);
      }
      var comps := Comps(path);
      if comps == [] {
        return Bad(EEXIST);
      }
      var last := comps[|comps| - 1];
      var from := FsState.Enter(s, Virtual, if path[0] == SLASH then ROOT else start);
      var dir := WalkFrom(Virtual, from, comps[..|comps| - 1], true, true, links);
      if dir.Missing? {
        return Bad(dir.errno);
      }
      CompsOk(path, |comps| - 1);
      if last == DOTDOT {
        return Bad(EINVAL);
      }
      if |last| > NAME_MAX {
        return Bad(ENAMETOOLONG);
      }
      if !IsDir(s, dir.node) {
        return Bad(ENOTDIR);
      }
      if Key(s, last) !in nodes[dir.node].children {
        return At(dir.node, last, false);
      }
      assert NodeClosed(s.nodes[dir.node], |s.nodes|);
      var child := nodes[dir.node].children[Key(s, last)];
      if !nodes[child].kind.Symlink? {
        return Bad(EEXIST);
      }
      if dir.links + 1 > MaxLinks(s) {
        return Bad(ELOOP);
      }
      if nodes[child].kind.target == [] {
        return Bad(ENOENT);
      }
      r := ForCreate(dir.node, nodes[child].kind.target, dir.links + 1);
    }

    method ResolveForCreate(start: Start, path: Bytes) returns (r: FsOps.Lookup)
      requires Ready(State())
      ensures r == FindNew(State(), start, path)
    {
      var from := StartOf(start);
      if from.Missing? {
        return Bad(from.errno);
      }
      r := ForCreate(from.node, path, 0);
    }

    method TrailOf(start: Start, parent: nat, key: Bytes, path: Bytes) returns (r: Trail)
      requires Ready(State()) && Valid(State(), parent)
      ensures r == TrailMac(State(), start, parent, key, path)
    {
      if key !in nodes[parent].children {
        return Absent;
      }
      assert NodeClosed(nodes[parent], |nodes|);
      var t := FollowSymlink(Virtual, parent, nodes[parent].children[key], 0);
      if t.Found? {
        return if IsDir(State(), t.node) then DirAt(t.node) else NonDir;
      }
      if t.errno != ENOENT {
        return Broken(t.errno);
      }
      var c := ResolveForCreate(start, path);
      return if c.Bad? then Broken(c.errno) else Dangling(c.parent, c.name);
    }

    method OwnerDir(t: nat) returns (r: FsOps.Owner)
      requires WellFormed(State()) && Valid(State(), t)
      ensures r == OwnerOf(State(), t)
    {
      if nodes[t].virtualParent.Some? || nodes[t].mountedBy.Some? {
        return Unowned;
      }
      if nodes[t].parent.None? || nodes[t].parent.value == t {
        return Unowned;
      }
      var up := NameIn(Physical, t);
      return if up.None? then Unowned else OwnedBy(up.value.1, up.value.0);
    }

    // ----- changing the arena -----

    method PushChild(parent: nat, key: Bytes, kind: Kind) returns (id: nat)
      requires Valid(State(), parent)
      modifies this`nodes
      ensures id == old(|nodes|) && State() == Added(old(State()), parent, key, kind)
    {
      id := |nodes|;
      nodes := nodes + [NewNode(kind, parent)];
      nodes := nodes[parent := nodes[parent].(children := nodes[parent].children[key := id])];
    }

    method AllocFd(entry: FdEntry) returns (fd: nat)
      modifies this`fds, this`nextFd
      ensures fd == old(nextFd) && State() == WithFd(old(State()), entry)
    {
      fd := nextFd;
      nextFd := nextFd + 1;
      fds := fds[fd := entry];
    }

    method DropEntry(parent: nat, key: Bytes)
      requires Valid(State(), parent)
      modifies this`nodes
      ensures State() == Unlisted(old(State()), parent, key)
    {
      nodes := nodes[parent := nodes[parent].(children := nodes[parent].children - {key})];
    }

    method MarkDetached(n: nat)
      requires Valid(State(), n)
      modifies this`nodes
      ensures State() == Detach(old(State()), n)
    {
      if IsDir(State(), n) {
        nodes := nodes[n := nodes[n].(detached := true)];
      }
    }

    method SetKind(n: nat, kind: Kind)
      requires Valid(State(), n)
      modifies this`nodes
      ensures State() == SetNode(old(State()), n, old(nodes[n]).(kind := kind))
    {
      nodes := nodes[n := nodes[n].(kind := kind)];
    }

    method MoveEntry(fromParent: nat, fromKey: Bytes, id: nat, toParent: nat, toKey: Bytes)
      requires CanDo(State(), Move(fromParent, fromKey, id, toParent, toKey))
      modifies this`nodes
      ensures State() == Moved(old(State()), fromParent, fromKey, id, toParent, toKey)
    {
      var replaced := if toKey in nodes[toParent].children then Some(nodes[toParent].children[toKey]) else None;
      DropEntry(fromParent, fromKey);
      if replaced.Some? {
        MarkDetached(replaced.value);
      }
      nodes := nodes[toParent := nodes[toParent].(children := nodes[toParent].children[toKey := id])];
      nodes := nodes[id := nodes[id].(parent := Some(toParent))];
    }

    // ----- creating -----

    /** The last step of every create. */
    method CreateIn(parent: nat, name: Bytes, kind: Kind, open: Option<bool>, exists_: Errno) returns (r: Outcome)
      requires WellFormed(State()) && Valid(State(), parent)
      modifies this
      ensures Carried(old(State()), CreateAt(old(State()), parent, name, kind, open, exists_), State(), r)
    {
      var key := Key(State(), name);
      if key in nodes[parent].children {
        return Failed(exists_);
      }
      var dead := Detached(parent);
      if dead {
        return Failed(ENOENT);
      }
      var id := PushChild(parent, key, kind);
      if open.Some? {
        var fd := AllocFd(FileFd(id, 0, open.value));
        return Returned(fd, []);
      }
      return Returned(0, []);
    }

    method MakeDirectory(start: Start, path: Bytes) returns (r: Outcome)
      requires WellFormed(State())
      modifies this
      ensures Carried(old(State()), DoMkdir(old(State()), start, path), State(), r)
    {
      FormedReady(State());
      if IsRootOperand(path) {
        return Failed(RootErrno(State(), EEXIST));
      }
      var f := ResolveParent(start, path);
      if f.Bad? {
        return Failed(f.errno);
      }
      if f.slash && IsMac(State()) {
        var t := TrailOf(start, f.parent, Key(State(), f.name), path);
        match t
        case Broken(e) => return Failed(e);
        case Absent => r := CreateIn(f.parent, f.name, Dir, None, EEXIST);
        case Dangling(p, n) => r := CreateIn(p, n, Dir, None, EEXIST);
        case DirAt(_) => return Failed(EEXIST);
        case NonDir => return Failed(ENOTDIR);
      } else {
        r := CreateIn(f.parent, f.name, Dir, None, EEXIST);
      }
    }

    /** The errno of a trailing-slash `symlink` or `bind`. */
    method SlashRefusal(parent: nat, name: Bytes, path: Bytes, exists_: Errno) returns (e: Errno)
      requires WellFormed(State()) && Valid(State(), parent)
      ensures e == SlashErrno(State(), parent, name, path, exists_)
    {
      FormedReady(State());
      var key := Key(State(), name);
      if !IsMac(State()) {
        return if key in nodes[parent].children then exists_ else ENOENT;
      }
      var t := TrailOf(Cwd, parent, key, path);
      match t
      case Broken(e') => return e';
      case Absent => return ENOENT;
      case Dangling(_, _) => return ENOENT;
      case NonDir => return ENOTDIR;
      case DirAt(_) => return exists_;
    }

    method MakeSymlink(target: Bytes, path: Bytes) returns (r: Outcome)
      requires WellFormed(State())
      modifies this
      ensures Carried(old(State()), DoSymlink(old(State()), target, path), State(), r)
    {
      FormedReady(State());
      if |target| >= PathMax(State()) {
        return Failed(ENAMETOOLONG);
      }
      if target == [] && !IsMac(State()) {
        return Failed(ENOENT);
      }
      if IsRootOperand(path) {
        return Failed(RootErrno(State(), EEXIST));
      }
      var f := ResolveParent(Cwd, path);
      if f.Bad? {
        return Failed(f.errno);
      }
      if f.slash {
        var e := SlashRefusal(f.parent, f.name, path, EEXIST);
        return Failed(e);
      }
      r := CreateIn(f.parent, f.name, Symlink(target), None, EEXIST);
    }

    method BindSocket(path: Bytes) returns (r: Outcome)
      requires WellFormed(State())
      modifies this
      ensures Carried(old(State()), DoBind(old(State()), path), State(), r)
    {
      FormedReady(State());
      if IsRootOperand(path) {
        return Failed(if IsMac(State()) then EISDIR else EADDRINUSE);
      }
      var f := ResolveParent(Cwd, path);
      if f.Bad? {
        return Failed(f.errno);
      }
      if f.slash {
        var e := SlashRefusal(f.parent, f.name, path, EADDRINUSE);
        return Failed(e);
      }
      if |f.name| >= SunPathCap(State()) {
        return Failed(ENAMETOOLONG);
      }
      var key := Key(State(), f.name);
      assert NodeClosed(nodes[f.parent], |nodes|);
      if IsMac(State()) && key in nodes[f.parent].children && nodes[nodes[f.parent].children[key]].kind.Symlink? {
        var c := ResolveForCreate(Cwd, path);
        if c.Bad? {
          return Failed(if c.errno == EEXIST then EADDRINUSE else c.errno);
        }
        r := CreateIn(c.parent, c.name, Socket, None, EADDRINUSE);
      } else {
        r := CreateIn(f.parent, f.name, Socket, None, EADDRINUSE);
      }
    }

    method AdoptTemp(name: Bytes) returns (r: Outcome)
      requires WellFormed(State())
      modifies this
      ensures Carried(old(State()), DoMkstemp(old(State()), name), State(), r)
    {
      if name == [] || SLASH in name {
        return Failed(EINVAL);
      }
      if |name| > NAME_MAX {
        return Failed(ENAMETOOLONG);
      }
      if !IsDir(State(), cwd) {
        return Failed(ENOTDIR);
      }
      if name == DOT || name == DOTDOT {
        return Failed(EEXIST);
      }
      r := CreateIn(cwd, name, File([]), Some(true), EEXIST);
    }

    // ----- opening, reading and writing -----

    /** Whether opening with O_CREAT a name that ends in a slash is refused. */
    method OpenSlashRefusal(start: Start, path: Bytes, flags: OpenFlags) returns (e: Option<Errno>)
      requires WellFormed(State())
      ensures e == OpenSlash(State(), start, path, flags)
    {
      FormedReady(State());
      var f := ResolveParentUnchecked(start, path);
      if f.Bad? {
        return if f.errno == EINVAL then None else Some(f.errno);
      }
      if !IsDir(State(), f.parent) {
        return Some(ENOTDIR);
      }
      if !IsMac(State()) {
        return Some(EISDIR);
      }
      if |f.name| > NAME_MAX {
        return Some(ENAMETOOLONG);
      }
      var t := TrailOf(start, f.parent, Key(State(), f.name), path);
      match t
      case Broken(e') => return Some(e');
      case Absent => return Some(ENOENT);
      case Dangling(_, _) => return Some(ENOENT);
      case NonDir => return Some(ENOTDIR);
      case DirAt(_) => return Some(if flags.excl then EEXIST else EISDIR);
    }

    method OpenNodeAt(n: nat, flags: OpenFlags) returns (r: Outcome)
      requires Valid(State(), n)
      modifies this
      ensures Carried(old(State()), OpenFound(old(State()), n, flags), State(), r)
    {
      var kind := nodes[n].kind;
      if IsDirKind(kind) {
        if flags.write || flags.trunc {
          return Failed(EISDIR);
        }
        var fd := AllocFd(DirFd(n));
        return Returned(fd, []);
      }
      if kind.Symlink? {
        return Failed(if flags.directory then ENOTDIR else ELOOP);
      }
      if kind.Socket? {
        return Failed(if IsMac(State()) then EOPNOTSUPP else ENXIO);
      }
      if flags.directory {
        return Failed(ENOTDIR);
      }
      if flags.trunc {
        SetKind(n, File([]));
      }
      var fd := AllocFd(FileFd(n, 0, flags.write));
      return Returned(fd, []);
    }

    method OpenExisting(start: Start, path: Bytes, flags: OpenFlags) returns (r: Outcome)
      requires WellFormed(State())
      modifies this
      ensures Carried(old(State()), OpenLookup(old(State()), start, path, flags), State(), r)
    {
      FormedReady(State());
      var n := Lookup(start, path, !flags.nofollow);
      if n.Found? {
        r := OpenNodeAt(n.node, flags);
        return;
      }
      if !(n.errno == ENOENT && flags.create) {
        return Failed(n.errno);
      }
      var c := ResolveForCreate(start, path);
      if c.Bad? {
        return Failed(c.errno);
      }
      r := CreateIn(c.parent, c.name, File([]), Some(flags.write), EEXIST);
    }

    method OpenNew(start: Start, path: Bytes, flags: OpenFlags) returns (r: Outcome)
      requires WellFormed(State())
      modifies this
      ensures Carried(old(State()), OpenExclusive(old(State()), start, path, flags), State(), r)
    {
      FormedReady(State());
      var f := ResolveParent(start, path);
      if f.Bad? {
        return Failed(f.errno);
      }
      r := CreateIn(f.parent, f.name, File([]), Some(flags.write), EEXIST);
    }

    method OpenPath(start: Start, path: Bytes, flags: OpenFlags) returns (r: Outcome)
      requires WellFormed(State())
      modifies this
      ensures Carried(old(State()), DoOpen(old(State()), start, path, flags), State(), r)
    {
      if flags.create && flags.directory {
        return Failed(EINVAL);
      }
      if flags.create && IsRootOperand(path) {
        return Failed(RootErrno(State(), if flags.excl then EEXIST else EISDIR));
      }
      if flags.create && Trailing(path) {
        var e := OpenSlashRefusal(start, path, flags);
        if e.Some? {
          return Failed(e.value);
        }
      }
      if flags.create && flags.excl {
        r := OpenNew(start, path, flags);
      } else {
        r := OpenExisting(start, path, flags);
      }
    }

    method OpenDirectory(path: Bytes) returns (r: Outcome)
      requires WellFormed(State())
      modifies this
      ensures Carried(old(State()), DoOpendir(old(State()), path), State(), r)
    {
      FormedReady(State());
      var n := Lookup(Cwd, path, true);
      if n.Missing? {
        return Failed(n.errno);
      }
      if !IsDir(State(), n.node) {
        return Failed(ENOTDIR);
      }
      var fd := AllocFd(DirFd(n.node));
      return Returned(fd, []);
    }

    method WriteTo(fd: nat, data: Bytes) returns (r: Outcome)
      requires WellFormed(State())
      modifies this
      ensures Carried(old(State()), DoWrite(old(State()), fd, data), State(), r)
    {
      FormedReady(State());
      if fd !in fds || !fds[fd].FileFd? || !fds[fd].write {
        return Failed(EBADF);
      }
      var n, pos := fds[fd].node, fds[fd].pos;
      if !nodes[n].kind.File? {
        return Failed(EBADF);
      }
      SetKind(n, File(PutAt(nodes[n].kind.content, pos, data)));
      fds := fds[fd := FileFd(n, pos + |data|, true)];
      return Returned(|data|, []);
    }

    method ReadFrom(fd: nat, len: nat) returns (r: Outcome)
      requires WellFormed(State())
      modifies this
      ensures Carried(old(State()), DoRead(old(State()), fd, len), State(), r)
    {
      FormedReady(State());
      if fd !in fds {
        return Failed(EBADF);
      }
      if fds[fd].DirFd? {
        return Failed(EISDIR);
      }
      var FileFd(n, pos, write) := fds[fd];
      if !nodes[n].kind.File? {
        return Failed(EBADF);
      }
      var content := nodes[n].kind.content;
      var from := Min(pos, |content|);
      var end := Min(from + len, |content|);
      fds := fds[fd := FileFd(n, pos + end - from, write)];
      return Returned(end - from, content[from..end]);
    }

    method CloseDescriptor(fd: nat) returns (r: Outcome)
      modifies this
      ensures Carried(old(State()), DoClose(old(State()), fd), State(), r)
    {
      if fd !in fds {
        return Failed(EBADF);
      }
      fds := fds - {fd};
      return Returned(0, []);
    }

    // ----- renaming and removing -----

    method Take(start: Start, at: FsOps.Lookup, path: Bytes) returns (r: Slot)
      requires WellFormed(State()) && at.At? && Valid(State(), at.parent)
      ensures r == TakeSlot(State(), start, at, path)
    {
      FormedReady(State());
      var key := Key(State(), at.name);
      if key !in nodes[at.parent].children {
        return NoSlot(ENOENT);
      }
      var child := nodes[at.parent].children[key];
      if !(at.slash && IsMac(State())) {
        return Slot(at.parent, key, child);
      }
      var t := TrailOf(start, at.parent, key, path);
      match t
      case Broken(e) => return NoSlot(e);
      case Absent => return NoSlot(ENOENT);
      case Dangling(_, _) => return NoSlot(ENOENT);
      case NonDir => return NoSlot(ENOTDIR);
      case DirAt(n) =>
        if n == child {
          return Slot(at.parent, key, child);
        }
        var o := OwnerDir(n);
        return if o.Unowned? then NoSlot(EBUSY) else Slot(o.parent, o.key, n);
    }

    method Put(at: FsOps.Lookup, path: Bytes, fromIsDir: bool) returns (r: Dest)
      requires WellFormed(State()) && at.At? && IsDir(State(), at.parent) && IsName(at.name) && |at.name| <= NAME_MAX
      ensures r == PutSlot(State(), at, path, fromIsDir)
    {
      FormedReady(State());
      var key := Key(State(), at.name);
      if !(at.slash && IsMac(State())) {
        return Dest(at.parent, key);
      }
      var t := TrailOf(Cwd, at.parent, key, path);
      match t
      case Broken(e) => return NoDest(e);
      case Absent => return if fromIsDir then Dest(at.parent, key) else NoDest(ENOENT);
      case Dangling(p, n) => return if fromIsDir then Dest(p, Key(State(), n)) else NoDest(ENOENT);
      case NonDir => return NoDest(ENOTDIR);
      case DirAt(n) =>
        if nodes[at.parent].children[key] == n {
          return Dest(at.parent, key);
        }
        var o := OwnerDir(n);
        return if o.Unowned? then NoDest(EBUSY) else Dest(o.parent, o.key);
    }

    /** The checks of a rename once both ends are known, and the move itself. */
    method MoveChecked(src: Slot, dst: Dest, slashes: bool) returns (r: Outcome)
      requires WellFormed(State()) && src.Slot? && dst.Dest? && IsDir(State(), dst.parent)
      requires Valid(State(), src.parent) && Valid(State(), src.id)
      modifies this
      ensures Carried(old(State()), RenameTo(old(State()), src, dst, slashes), State(), r)
    {
      var fromIsDir := IsDir(State(), src.id);
      var m1 := MountNumber(src.parent);
      var m2 := MountNumber(dst.parent);
      if m1 != m2 {
        return Failed(EXDEV);
      }
      var dead := Detached(dst.parent);
      if dead {
        return Failed(ENOENT);
      }
      if !IsMac(State()) && slashes && !fromIsDir {
        return Failed(ENOTDIR);
      }
      var below := Descends(src.id, dst.parent);
      if dst.parent == src.id || below {
        return Failed(EINVAL);
      }
      if dst.key in nodes[dst.parent].children {
        assert NodeOk(State(), dst.parent) && EntryOk(State(), dst.parent, dst.key);
        var replaced := nodes[dst.parent].children[dst.key];
        if replaced == src.id {
          return Returned(0, []);
        }
        var above := Descends(replaced, src.id);
        if !IsMac(State()) && above {
          return Failed(ENOTEMPTY);
        }
        if fromIsDir && !IsDir(State(), replaced) {
          return Failed(ENOTDIR);
        }
        if !fromIsDir && IsDir(State(), replaced) {
          return Failed(EISDIR);
        }
        if fromIsDir && nodes[replaced].children != map[] {
          return Failed(ENOTEMPTY);
        }
      }
      MoveEntry(src.parent, src.key, src.id, dst.parent, dst.key);
      return Returned(0, []);
    }

    method RenamePath(from: Bytes, to: Bytes) returns (r: Outcome)
      requires WellFormed(State())
      modifies this
      ensures Carried(old(State()), DoRename(old(State()), from, to), State(), r)
    {
      FormedReady(State());
      if IsRootOperand(from) || IsRootOperand(to) {
        if !IsMac(State()) && !IsRootOperand(from) {
          var f := ResolveParent(Cwd, from);
          if f.Bad? {
            return Failed(f.errno);
          }
        }
        if !IsMac(State()) && !IsRootOperand(to) {
          var t := ResolveParent(Cwd, to);
          if t.Bad? {
            return Failed(t.errno);
          }
        }
        return Failed(RootErrno(State(), EBUSY));
      }
      var f := ResolveParent(Cwd, from);
      if f.Bad? {
        return Failed(f.errno);
      }
      var src := Take(Cwd, f, from);
      if src.NoSlot? {
        return Failed(src.errno);
      }
      var t := ResolveParent(Cwd, to);
      if t.Bad? {
        return Failed(t.errno);
      }
      assert NodeClosed(nodes[src.parent], |nodes|);
      var dst := Put(t, to, IsDir(State(), src.id));
      if dst.NoDest? {
        return Failed(dst.errno);
      }
      r := MoveChecked(src, dst, f.slash || t.slash);
    }

    /** The checks of a removal once the entry is known, and the removal itself. */
    method RemoveChecked(slot: Slot, rmdir: bool, slash: bool) returns (r: Outcome)
      requires slot.Slot? && Valid(State(), slot.parent) && Valid(State(), slot.id)
      modifies this
      ensures Carried(old(State()), RemoveSlot(old(State()), slot, rmdir, slash), State(), r)
    {
      if rmdir && !IsDir(State(), slot.id) {
        return Failed(ENOTDIR);
      }
      if rmdir && nodes[slot.id].children != map[] {
        return Failed(ENOTEMPTY);
      }
      if !rmdir && IsDir(State(), slot.id) {
        return Failed(EISDIR);
      }
      if !rmdir && slash {
        return Failed(ENOTDIR);
      }
      DropEntry(slot.parent, slot.key);
      MarkDetached(slot.id);
      return Returned(0, []);
    }

    method UnlinkPath(start: Start, path: Bytes, rmdir: bool) returns (r: Outcome)
      requires WellFormed(State())
      modifies this
      ensures Carried(old(State()), DoUnlink(old(State()), start, path, rmdir), State(), r)
    {
      FormedReady(State());
      if IsRootOperand(path) {
        return Failed(RootErrno(State(), if rmdir then EBUSY else EISDIR));
      }
      var at := ResolveParent(start, path);
      if at.Bad? {
        return Failed(at.errno);
      }
      if !rmdir && at.slash && IsMac(State()) {
        var t := TrailOf(start, at.parent, Key(State(), at.name), path);
        if t.DirAt? {
          return Failed(EPERM);
        }
      }
      var slot := Take(start, at, path);
      if slot.NoSlot? {
        return Failed(slot.errno);
      }
      assert NodeClosed(nodes[slot.parent], |nodes|);
      r := RemoveChecked(slot, rmdir, at.slash);
    }

    // ----- looking -----

    method ChangeDirectory(path: Bytes) returns (r: Outcome)
      requires WellFormed(State())
      modifies this
      ensures Carried(old(State()), DoChdir(old(State()), path), State(), r)
    {
      FormedReady(State());
      var n := Lookup(Cwd, path, true);
      if n.Missing? {
        return Failed(n.errno);
      }
      if !IsDir(State(), n.node) {
        return Failed(ENOTDIR);
      }
      cwd := n.node;
      return Returned(0, []);
    }

    method ReportedPath(n: nat) returns (r: Outcome)
      requires WellFormed(State()) && Valid(State(), n) && !ReportPath(State(), n).outcome.Hangs?
      ensures r == ReportPath(State(), n).outcome
    {
      var text := PathText(Virtual, n);
      return Returned(|text|, text);
    }

    /** Called where the reported parents do not go round in a circle. */
    method WorkingDirectory() returns (r: Outcome)
      requires WellFormed(State()) && !DoGetcwd(State()).outcome.Hangs?
      ensures Carried(State(), DoGetcwd(State()), State(), r)
    {
      var dead := Detached(cwd);
      if dead {
        return Failed(ENOENT);
      }
      r := ReportedPath(cwd);
    }

    method RealPath(path: Bytes) returns (r: Outcome)
      requires WellFormed(State()) && !DoRealpath(State(), path).outcome.Hangs?
      ensures Carried(State(), DoRealpath(State(), path), State(), r)
    {
      FormedReady(State());
      if path == [] || path[0] != SLASH {
        var dead := Detached(cwd);
        if dead {
          return Failed(ENOENT);
        }
      }
      var n := Lookup(Cwd, path, true);
      if n.Missing? {
        return Failed(n.errno);
      }
      r := ReportedPath(n.node);
    }

    method StatPath(path: Bytes, follow: bool) returns (r: Outcome)
      requires WellFormed(State())
      ensures Carried(State(), DoStat(State(), path, follow), State(), r)
    {
      FormedReady(State());
      var n := Lookup(Cwd, path, follow);
      return if n.Missing? then Failed(n.errno) else Returned(0, [KindCode(nodes[n.node].kind)]);
    }

    method ReadLink(path: Bytes) returns (r: Outcome)
      requires WellFormed(State())
      ensures Carried(State(), DoReadlink(State(), path), State(), r)
    {
      FormedReady(State());
      var n := Lookup(Cwd, path, false);
      if n.Missing? {
        return Failed(n.errno);
      }
      if !nodes[n.node].kind.Symlink? {
        return Failed(EINVAL);
      }
      var target := nodes[n.node].kind.target;
      return Returned(|target|, target);
    }

    method ConnectSocket(path: Bytes) returns (r: Outcome)
      requires WellFormed(State())
      ensures Carried(State(), DoConnect(State(), path), State(), r)
    {
      FormedReady(State());
      if |path| >= PathMax(State()) {
        return Failed(ENAMETOOLONG);
      }
      if IsRootOperand(path) {
        return Failed(if IsMac(State()) then ENOTSOCK else EACCES);
      }
      var parts := SplitLast(path);
      if parts.NoName? {
        return Failed(parts.errno);
      }
      var p := Found(cwd, 0);
      if parts.dir != DOT {
        p := Lookup(Cwd, parts.dir, true);
      }
      if p.Missing? {
        return Failed(p.errno);
      }
      if !IsDir(State(), p.node) {
        return Failed(ENOTDIR);
      }
      if |parts.name| + (if parts.slash then 1 else 0) >= SunPathCap(State()) {
        return Failed(ENAMETOOLONG);
      }
      var n := Lookup(Cwd, path, true);
      if n.Missing? {
        return Failed(n.errno);
      }
      if !nodes[n.node].kind.Socket? {
        return Failed(if IsMac(State()) then ENOTSOCK else ECONNREFUSED);
      }
      return Returned(0, []);
    }

    method ListDirectory(path: Bytes) returns (r: Outcome)
      requires WellFormed(State())
      ensures Carried(State(), DoList(State(), path), State(), r)
    {
      FormedReady(State());
      var n := Lookup(Cwd, path, true);
      if n.Missing? {
        return Failed(n.errno);
      }
      if !IsDir(State(), n.node) {
        return Failed(ENOTDIR);
      }
      var names := InOrder(nodes[n.node].children.Keys);
      var data := JoinLines(names);
      return Returned(|nodes[n.node].children|, data);
    }

    // ----- every call -----

    method ApplyLook(op: Op) returns (r: Outcome)
      requires WellFormed(State()) && Looks(op) && !DecideLook(State(), op).outcome.Hangs?
      modifies this
      ensures Carried(old(State()), DecideLook(old(State()), op), State(), r)
    {
      match op {
        case OpenDir(path) => r := OpenDirectory(path);
        case Write(fd, data) => r := WriteTo(fd, data);
        case Read(fd, len) => r := ReadFrom(fd, len);
        case Readlink(path) => r := ReadLink(path);
        case Chdir(path) => r := ChangeDirectory(path);
        case Getcwd => r := WorkingDirectory();
        case Realpath(path) => r := RealPath(path);
        case Stat(path) => r := StatPath(path, true);
        case Lstat(path) => r := StatPath(path, false);
        case Connect(path) => r := ConnectSocket(path);
        case List(path) => r := ListDirectory(path);
        case CloseFd(fd) => r := CloseDescriptor(fd);
      }
    }

    method ApplyChange(op: Op) returns (r: Outcome)
      requires WellFormed(State()) && !Looks(op)
      modifies this
      ensures Carried(old(State()), DecideChange(old(State()), op), State(), r)
    {
      match op {
        case Mkdir(path, _) => r := MakeDirectory(Cwd, path);
        case MkdirAt(fd, path) => r := MakeDirectory(AtStart(fd, path), path);
        case Open(path, flags) => r := OpenPath(Cwd, path, flags);
        case OpenAt(fd, path, flags) => r := OpenPath(AtStart(fd, path), path, flags);
        case SymlinkOp(target, path) => r := MakeSymlink(target, path);
        case Rename(from, to) => r := RenamePath(from, to);
        case Unlink(path) => r := UnlinkPath(Cwd, path, false);
        case Rmdir(path) => r := UnlinkPath(Cwd, path, true);
        case UnlinkAt(fd, path, rmdir) => r := UnlinkPath(AtStart(fd, path), path, rmdir);
        case Bind(path) => r := BindSocket(path);
        case MkstempAdopt(name) => r := AdoptTemp(name);
      }
    }

    /** One call: the state afterwards and the outcome are those the model specifies. */
    method Apply(op: Op) returns (r: Outcome)
      requires WellFormed(State()) && !Decide(State(), op).outcome.Hangs?
      modifies this
      ensures WellFormed(State())
      ensures (State(), r) == FsEdits.Apply(old(State()), op)
    {
      ghost var s := State();
      if Looks(op) {
        r := ApplyLook(op);
      } else {
        r := ApplyChange(op);
      }
      CarriedOut(s, op, State(), r);
    }
  }

  /** The call did what it decided on and returned what it decided on. */
  ghost predicate Carried(s: Fs, v: Verdict, s': Fs, o: Outcome) {
    CanDo(s, v.edit) && s' == Do(s, v.edit) && o == v.outcome
  }

  lemma CarriedOut(s: Fs, op: Op, s': Fs, o: Outcome)
    requires WellFormed(s) && Carried(s, Decide(s, op), s', o)
    ensures (s', o) == FsEdits.Apply(s, op) && WellFormed(s')
  {
  }

  /** The next node up an owner chain. */
  lemma OwnerStep(s: Fs, c: seq<nat>, i: nat)
    requires Closed(s) && IsChain(s, FsTree.Owner, c) && i < |c|
    ensures s.nodes[c[i]].parent == if i + 1 < |c| then Some(c[i + 1]) else None
  {
    if i + 1 < |c| {
      assert Up(s, FsTree.Owner, c[i]) == Some(c[i + 1]);
    } else {
      assert Up(s, FsTree.Owner, c[|c| - 1]) == None;
    }
  }

  /** Write out a list of names. */
  method Rendered(parts: seq<Bytes>) returns (out: Bytes)
    ensures out == PathOf(parts)
  {
    out := [];
    var i := 0;
    while i < |parts|
      invariant i <= |parts| && out == Slashed(parts[..i])
    {
      assert parts[..i + 1][..i] == parts[..i];
      out := out + [SLASH] + parts[i];
      i := i + 1;
    }
    assert parts[..i] == parts;
    if out == [] {
      assert parts != [] ==> Slashed(parts) != [];
      out := [SLASH];
    }
  }

  // ----- listing -----

  lemma {:induction false} BeforeTotal(a: Bytes, b: Bytes)
    ensures a == b || Before(a, b) || Before(b, a)
    decreases |a|
  {
    if a != [] && b != [] && a[0] == b[0] {
      BeforeTotal(a[1..], b[1..]);
      assert a == [a[0]] + a[1..] && b == [b[0]] + b[1..];
    }
  }

  lemma {:induction false} BeforeTrans(a: Bytes, b: Bytes, c: Bytes)
    requires Before(a, b) && Before(b, c)
    ensures Before(a, c)
    decreases |a|
  {
    if a != [] && a[0] == b[0] == c[0] {
      BeforeTrans(a[1..], b[1..], c[1..]);
    }
  }

  lemma {:induction false} BeforeStrict(a: Bytes, b: Bytes)
    requires Before(a, b)
    ensures !Before(b, a)
    decreases |a|
  {
    if a != [] && a[0] == b[0] {
      BeforeStrict(a[1..], b[1..]);
    }
  }

  lemma Regroup(front: seq<Bytes>, name: Bytes, back: seq<Bytes>)
    ensures front + [name] + back == front + ([name] + back)
  {
  }

  /** A set of names has a first one. */
  lemma FirstExists(ks: set<Bytes>)
    requires ks != {}
    ensures exists k :: IsFirst(ks, k)
    decreases |ks|
  {
    var x :| x in ks;
    var rest := ks - {x};
    if rest == {} {
      assert ks == {x};
      assert IsFirst(ks, x);
    } else {
      FirstExists(rest);
      var m :| IsFirst(rest, m);
      BeforeTotal(x, m);
      if Before(x, m) {
        forall j | j in ks && j != x ensures Before(x, j) {
          if j != m {
            BeforeTrans(x, m, j);
          }
        }
        assert IsFirst(ks, x);
      } else {
        assert IsFirst(ks, m);
      }
    }
  }

  lemma FirstUnique(ks: set<Bytes>, a: Bytes, b: Bytes)
    requires IsFirst(ks, a) && IsFirst(ks, b)
    ensures a == b
  {
    if a != b {
      BeforeStrict(a, b);
    }
  }

  /** The names of a set in order, smallest first. */
  method InOrder(ks: set<Bytes>) returns (names: seq<Bytes>)
    ensures names == Sorted(ks)
  {
    names := [];
    var rest := ks;
    assert [] + Sorted(ks) == Sorted(ks);
    while rest != {}
      invariant names + Sorted(rest) == Sorted(ks)
      decreases |rest|
    {
      FirstExists(rest);
      var k :| k in rest && forall j :: j in rest && j != k ==> Before(k, j);
      assert IsFirst(rest, k);
      SortedIs(rest, k);
      assert names + ([k] + Sorted(rest - {k})) == (names + [k]) + Sorted(rest - {k});
      names := names + [k];
      rest := rest - {k};
    }
    assert Sorted({}) == [];
    assert names + [] == names;
  }

  lemma SortedIs(ks: set<Bytes>, k: Bytes)
    requires IsFirst(ks, k)
    ensures Sorted(ks) == [k] + Sorted(ks - {k})
  {
    var first :| IsFirst(ks, first) && Sorted(ks) == [first] + Sorted(ks - {first});
    FirstUnique(ks, first, k);
  }

  /** The listing holds every name once, in ascending byte order. */
  lemma {:induction false} SortedListsAll(ks: set<Bytes>)
    ensures forall k :: k in Sorted(ks) <==> k in ks
    ensures forall i, j :: 0 <= i < j < |Sorted(ks)| ==> Before(Sorted(ks)[i], Sorted(ks)[j])
    ensures |Sorted(ks)| == |ks|
  {
    if ks != {} {
      FirstExists(ks);
      var k :| IsFirst(ks, k);
      SortedIs(ks, k);
      SortedListsAll(ks - {k});
    }
  }

  method JoinLines(names: seq<Bytes>) returns (data: Bytes)
    ensures data == Lines(names)
  {
    data := [];
    var i := |names|;
    while i > 0
      invariant 0 <= i <= |names| && data == Lines(names[i..])
    {
      assert names[i - 1..] == [names[i - 1]] + names[i..];
      data := if i == |names| then names[i - 1] else names[i - 1] + [NEWLINE] + data;
      i := i - 1;
    }
    assert names[0..] == names;
  }
}
