/** What a call answers, told by what `stat` and `lstat` of the same path say. */
module FsOutcomes {
  import opened Text
  import opened FsState
  import opened FsTree
  import opened FsOps
  import opened FsWellFormed
  import opened FsEdits
  import opened FsEffects
  import opened FsCalls
  import opened FsTakes
  import opened FsRenames
  import FsModel

  /** What a call answers. */
  ghost function Says(s: Fs, op: Op): Outcome
    requires WellFormed(s)
  {
    Decide(s, op).outcome
  }

  // ----- names to be made -----

  /** `lstat` of a path without a slash at the end tells whether the name is taken. */
  lemma LstatTells(s: Fs, path: Bytes)
    requires Steady(s) && FindParent(s, Cwd, path).At? && !FindParent(s, Cwd, path).slash
    ensures var at := FindParent(s, Cwd, path);
            if Key(s, at.name) in s.nodes[at.parent].children
            then Find(s, Cwd, path, false).Found? else Find(s, Cwd, path, false) == Missing(ENOENT)
  {
    hide Find, FindParent, WellFormed, MountDirs;
    var _ := LastIs(s, path);
  }

  /** The answer to making a name: it may not be there yet, and its directory must not be removed. */
  ghost predicate MakesName(s: Fs, path: Bytes, o: Outcome, ok: int, taken: Errno)
    requires Steady(s) && FindParent(s, Cwd, path).At?
  {
    if Find(s, Cwd, path, false).Found? then o == Failed(taken)
    else if IsDetached(s, FindParent(s, Cwd, path).parent) then o == Failed(ENOENT)
    else o == Returned(ok, [])
  }

  lemma CreateMakes(s: Fs, path: Bytes, kind: Kind, open: Option<bool>, taken: Errno)
    requires Steady(s) && FindParent(s, Cwd, path).At? && !FindParent(s, Cwd, path).slash
    ensures var at := FindParent(s, Cwd, path);
            MakesName(s, path, CreateAt(s, at.parent, at.name, kind, open, taken).outcome, if open.Some? then s.nextFd else 0, taken)
  {
    hide Find, FindParent, WellFormed, MountDirs, IsDetached;
    LstatTells(s, path);
  }

  /** `mkdir`, `symlink`, `open` with O_CREAT and O_EXCL, and `bind` make exactly the names that `lstat`
      does not see, in directories that were not removed. */
  lemma MakesNames(s: Fs, path: Bytes, target: Bytes, mode: nat, flags: OpenFlags)
    requires Steady(s) && FindParent(s, Cwd, path).At? && !FindParent(s, Cwd, path).slash
    ensures MakesName(s, path, Says(s, Mkdir(path, mode)), 0, EEXIST)
    ensures 0 < |target| < PathMax(s) ==> MakesName(s, path, Says(s, SymlinkOp(target, path)), 0, EEXIST)
    ensures flags.create && flags.excl && !flags.directory ==> MakesName(s, path, Says(s, Open(path, flags)), s.nextFd, EEXIST)
    ensures |FindParent(s, Cwd, path).name| < (if IsMac(s) then 104 else 108) && !LinkOnMac(s, path) ==>
              MakesName(s, path, Says(s, Bind(path)), 0, EADDRINUSE)
  {
    hide Find, FindParent, WellFormed, MountDirs, IsDetached, MakesName, CreateAt;
    RootNoParent(s, path);
    CreateMakes(s, path, Dir, None, EEXIST);
    CreateMakes(s, path, Symlink(target), None, EEXIST);
    CreateMakes(s, path, File([]), Some(flags.write), EEXIST);
    CreateMakes(s, path, Socket, None, EADDRINUSE);
    NotTrailing(s, path);
  }

  /** And so does `mkstemp` in the working directory. */
  lemma MkstempMakes(s: Fs, name: Bytes)
    requires Steady(s) && IsName(name) && |name| <= 255
    ensures FindParent(s, Cwd, name).At? && MakesName(s, name, Says(s, MkstempAdopt(name)), s.nextFd, EEXIST)
  {
    hide Find, MountDirs, IsDetached, MakesName, CreateAt;
    SplitAlone(name);
    CreateMakes(s, name, File([]), Some(true), EEXIST);
  }

  ghost predicate LinkOnMac(s: Fs, path: Bytes)
    requires Steady(s) && FindParent(s, Cwd, path).At?
  {
    var at := FindParent(s, Cwd, path);
    var k := Key(s, at.name);
    IsMac(s) && k in s.nodes[at.parent].children && Valid(s, s.nodes[at.parent].children[k]) && s.nodes[s.nodes[at.parent].children[k]].kind.Symlink?
  }

  lemma NotTrailing(s: Fs, path: Bytes)
    requires Ready(s) && FindParent(s, Cwd, path).At? && !FindParent(s, Cwd, path).slash
    ensures !Trailing(path)
  {
    hide Find;
    SplitLastComps(path);
  }

  /** A path without a directory to its name is refused alike by every call that changes the tree. */
  lemma NoDirectory(s: Fs, path: Bytes, other: Bytes, target: Bytes, mode: nat, e: Errno)
    requires Steady(s) && FindParent(s, Cwd, path) == Bad(e) && !IsRootOperand(path) && 0 < |target| < PathMax(s)
    ensures Says(s, Mkdir(path, mode)) == Says(s, SymlinkOp(target, path)) == Says(s, Bind(path)) == Failed(e)
    ensures Says(s, Unlink(path)) == Says(s, Rmdir(path)) == Failed(e)
    ensures !IsRootOperand(other) ==> Says(s, Rename(path, other)) == Failed(e)
  {
    hide Find, FindParent, WellFormed, MountDirs, IsDetached;
  }

  /** What the two platforms say to changing `/`. */
  lemma RootRefused(s: Fs, path: Bytes, target: Bytes, mode: nat, flags: OpenFlags)
    requires Steady(s) && IsRootOperand(path) && 0 < |target| < PathMax(s) && |path| < PathMax(s)
    ensures Says(s, Mkdir(path, mode)) == Says(s, SymlinkOp(target, path)) == Failed(if IsMac(s) then EISDIR else EEXIST)
    ensures Says(s, Unlink(path)) == Failed(EISDIR) && Says(s, Rmdir(path)) == Failed(if IsMac(s) then EISDIR else EBUSY)
    ensures Says(s, Rename(path, path)) == Failed(if IsMac(s) then EISDIR else EBUSY)
    ensures Says(s, Bind(path)) == Failed(if IsMac(s) then EISDIR else EADDRINUSE)
    ensures Says(s, Connect(path)) == Failed(if IsMac(s) then ENOTSOCK else EACCES)
    ensures flags.create && !flags.directory ==>
              Says(s, Open(path, flags)) == Failed(if IsMac(s) || !flags.excl then EISDIR else EEXIST)
  {
    hide Find, FindParent, FindNew, TrailMac, TakeSlot, PutSlot, CreateAt, SlashErrno, OpenSlash, OpenLookup, OpenExclusive;
    hide WellFormed, MountDirs, IsDetached, SplitLast;
  }

  // ----- names to be removed -----

  /** The node that a literal path names takes exactly the removal made for its kind; a directory must
      be empty, and a path with a slash does not name a file. */
  lemma Removes(s: Fs, path: Bytes, n: nat)
    requires Steady(s) && Literal(s, path) && LookupHits(s, FindParent(s, Cwd, path), n)
    ensures var slash := FindParent(s, Cwd, path).slash;
            && (IsDir(s, n) ==>
                  && Says(s, Unlink(path)) == Failed(if slash && IsMac(s) then EPERM else EISDIR)
                  && Says(s, Rmdir(path)) == if s.nodes[n].children == map[] then Returned(0, []) else Failed(ENOTEMPTY))
            && (!IsDir(s, n) ==>
                  && Says(s, Unlink(path)) == (if slash then Failed(ENOTDIR) else Returned(0, []))
                  && Says(s, Rmdir(path)) == Failed(ENOTDIR))
  {
    hide Find, FindParent, FindNew, MountDirs, WellFormed, IsDetached;
    RootNoParent(s, path);
    var at := FindParent(s, Cwd, path);
    assert NodeClosed(s.nodes[at.parent], |s.nodes|);
  }

  /** What `lstat` does not see cannot be removed. */
  lemma RemovesNothing(s: Fs, path: Bytes)
    requires Steady(s) && FindParent(s, Cwd, path).At? && !FindParent(s, Cwd, path).slash && !Find(s, Cwd, path, false).Found?
    ensures Says(s, Unlink(path)) == Says(s, Rmdir(path)) == Failed(ENOENT)
  {
    hide Find, FindParent, WellFormed, MountDirs, IsDetached;
    RootNoParent(s, path);
    LstatTells(s, path);
  }

  // ----- paths that are followed -----

  /** Where `stat` fails, so do the calls that follow the path, with its errno. */
  lemma FollowersFail(s: Fs, path: Bytes, flags: OpenFlags, e: Errno)
    requires Steady(s) && Says(s, Stat(path)) == Failed(e)
    ensures Says(s, Chdir(path)) == Says(s, OpenDir(path)) == Says(s, List(path)) == Failed(e)
    ensures !flags.create && !flags.nofollow ==> Says(s, Open(path, flags)) == Failed(e)
    ensures !IsDetached(s, s.cwd) ==> Says(s, Realpath(path)) == Failed(e)
  {
    hide Find, FindParent, WellFormed, MountDirs, IsDetached;
  }

  /** Where `stat` sees a directory, and only there, it is entered, opened and listed. */
  lemma Directories(s: Fs, path: Bytes)
    requires Steady(s) && Find(s, Cwd, path, true).Found?
    ensures var n := Find(s, Cwd, path, true).node;
            if s.nodes[n].kind.Dir? || s.nodes[n].kind.Opaque? then
              && Apply(s, Chdir(path)).1 == Returned(0, []) && Apply(s, Chdir(path)).0 == s.(cwd := n)
              && Apply(s, OpenDir(path)).1 == Returned(s.nextFd, [])
              && Apply(s, OpenDir(path)).0 == s.(fds := s.fds[s.nextFd := DirFd(n)], nextFd := s.nextFd + 1)
              && Apply(s, List(path)).0 == s && Apply(s, List(path)).1.Returned? && Apply(s, List(path)).1.ret == |s.nodes[n].children|
            else Apply(s, Chdir(path)) == Apply(s, OpenDir(path)) == Apply(s, List(path)) == (s, Failed(ENOTDIR))
  {
    hide Find, FindParent, WellFormed, MountDirs, IsDetached, Sorted, Lines;
  }

  /** The codes that `stat` and `lstat` give, and what only a link and only a socket answer. */
  lemma Kinds(s: Fs, path: Bytes, follow: bool)
    requires Steady(s) && Find(s, Cwd, path, follow).Found?
    ensures var k := s.nodes[Find(s, Cwd, path, follow).node].kind;
            && Says(s, if follow then Stat(path) else Lstat(path))
               == Returned(0, [if k.Dir? then 0 else if k.File? then 1 else if k.Symlink? then 2 else if k.Socket? then 3 else 4])
            && (!follow ==> Says(s, Readlink(path)) == if k.Symlink? then Returned(|k.target|, k.target) else Failed(EINVAL))
  {
    hide Find, FindParent, WellFormed, MountDirs, IsDetached;
  }

  /** Connecting to what `stat` sees. */
  lemma Connects(s: Fs, path: Bytes)
    requires Steady(s) && FindParent(s, Cwd, path).At? && Find(s, Cwd, path, true).Found?
    requires var at := FindParent(s, Cwd, path); |at.name| + (if at.slash then 1 else 0) < (if IsMac(s) then 104 else 108)
    ensures var n := Find(s, Cwd, path, true).node;
            Apply(s, Connect(path)) == (s, if s.nodes[n].kind.Socket? then Returned(0, [])
                                           else Failed(if IsMac(s) then ENOTSOCK else ECONNREFUSED))
  {
    hide Find, WellFormed, MountDirs, IsDetached;
    RootNoParent(s, path);
  }

  /** The path of what `stat` sees, and of the working directory, where they have one. */
  lemma Reports(s: Fs, path: Bytes)
    requires Steady(s)
    ensures Ends(s, Reported(Virtual), s.cwd) && !IsDetached(s, s.cwd) ==>
              Says(s, Getcwd) == Returned(|FullPath(s, Virtual, s.cwd)|, FullPath(s, Virtual, s.cwd))
    ensures Find(s, Cwd, path, true).Found? && ((path != [] && path[0] == SLASH) || !IsDetached(s, s.cwd)) ==>
              var n := Find(s, Cwd, path, true).node;
              Ends(s, Reported(Virtual), n) ==> Says(s, Realpath(path)) == Returned(|FullPath(s, Virtual, n)|, FullPath(s, Virtual, n))
  {
    hide Find, FullPath, Ends, WellFormed, MountDirs, IsDetached;
  }

  // ----- listings as text -----

  /** Names in a listing are told apart by line feeds: a listing with one more name behind it. */
  lemma {:induction false} OneMoreLine(names: seq<Bytes>, last: Bytes)
    ensures Lines([]) == [] && Lines([last]) == last
    ensures names != [] ==> Lines(names + [last]) == Lines(names) + ['\n' as int as byte] + last
    decreases |names|
  {
    if |names| > 0 {
      var more := names + [last];
      assert more[1..] == names[1..] + [last];
      OneMoreLine(names[1..], last);
      if |names| == 1 {
        assert more[1..] == [last];
      }
    }
  }

  /** What `list` returns: the names of the directory in byte order, and how many there are. */
  lemma Lists(s: Fs, path: Bytes)
    requires Steady(s) && Find(s, Cwd, path, true).Found? && IsDir(s, Find(s, Cwd, path, true).node)
    ensures var names := Sorted(s.nodes[Find(s, Cwd, path, true).node].children.Keys);
            && Says(s, List(path)) == Returned(|names|, Lines(names))
            && (forall k :: k in names <==> k in s.nodes[Find(s, Cwd, path, true).node].children)
            && (forall i, j :: 0 <= i < j < |names| ==> Before(names[i], names[j]))
  {
    hide Find, FindParent, WellFormed, MountDirs, IsDetached, Sorted, Lines, Before;
    FsModel.SortedListsAll(s.nodes[Find(s, Cwd, path, true).node].children.Keys);
  }

  // ----- opening -----

  /** What cannot be opened: a directory for writing, a link that is not followed, a socket, and a file
      as a directory. A directory opened for reading gets a descriptor that no bytes come from. */
  lemma OpensOther(s: Fs, path: Bytes, flags: OpenFlags, len: nat)
    requires Steady(s) && !flags.create && Find(s, Cwd, path, !flags.nofollow).Found?
    ensures var k := s.nodes[Find(s, Cwd, path, !flags.nofollow).node].kind;
            var (s', o) := Apply(s, Open(path, flags));
            && (k.Symlink? ==> o == Failed(if flags.directory then ENOTDIR else ELOOP))
            && (k.Socket? ==> o == Failed(if IsMac(s) then EOPNOTSUPP else ENXIO))
            && (k.File? && flags.directory ==> o == Failed(ENOTDIR))
            && (k.Dir? || k.Opaque? ==>
                  if flags.write || flags.trunc then o == Failed(EISDIR)
                  else o == Returned(s.nextFd, []) && Apply(s', Read(s.nextFd, len)).1 == Failed(EISDIR))
  {
    hide Find, FindParent, FindNew, OpenSlash, OpenExclusive, WellFormed, MountDirs, IsDetached, PutAt;
    assert Decide(s, Open(path, flags)) == OpenFound(s, Find(s, Cwd, path, !flags.nofollow).node, flags);
  }

  /** O_CREAT on a path without a slash at the end: a path that is found opens as without it, one that
      is missing for another reason than its last name stays missing, and else a file is made where
      the links lead, unless that directory was removed. */
  lemma OpenCreates(s: Fs, path: Bytes, flags: OpenFlags)
    requires Steady(s) && flags.create && !flags.excl && !flags.directory && !Trailing(path) && !IsRootOperand(path)
    ensures var r := Find(s, Cwd, path, !flags.nofollow);
            var o := Says(s, Open(path, flags));
            && (r.Found? ==> o == Says(s, Open(path, flags.(create := false))))
            && (r.Missing? && r.errno != ENOENT ==> o == Failed(r.errno))
            && (r == Missing(ENOENT) ==>
                  var at := FindForCreate(s, s.cwd, path, 0);
                  o == if at.Bad? then Failed(at.errno) else if IsDetached(s, at.parent) then Failed(ENOENT) else Returned(s.nextFd, []))
  {
    hide Find, FindForCreate, FindParent, OpenSlash, OpenExclusive, WellFormed, MountDirs, IsDetached;
  }

  /** The flags that do not go together. */
  lemma CreateNoDirectory(s: Fs, path: Bytes, flags: OpenFlags)
    requires Steady(s) && flags.create && flags.directory
    ensures Apply(s, Open(path, flags)) == (s, Failed(EINVAL))
  {
    hide Find, FindParent, WellFormed, MountDirs;
  }

  // ----- names that end in a slash -----

  /** On Linux a slash behind a new name changes nothing for `mkdir`, and keeps the other calls from
      making it. */
  lemma SlashOnLinux(s: Fs, path: Bytes, target: Bytes, mode: nat, flags: OpenFlags)
    requires Steady(s) && !IsMac(s) && FindParent(s, Cwd, path).At? && FindParent(s, Cwd, path).slash && 0 < |target| < PathMax(s)
    ensures var at := FindParent(s, Cwd, path);
            var taken := Key(s, at.name) in s.nodes[at.parent].children;
            && Says(s, Mkdir(path, mode)) == (if taken then Failed(EEXIST) else if IsDetached(s, at.parent) then Failed(ENOENT) else Returned(0, []))
            && Says(s, SymlinkOp(target, path)) == Failed(if taken then EEXIST else ENOENT)
            && Says(s, Bind(path)) == Failed(if taken then EADDRINUSE else ENOENT)
            && (flags.create && !flags.directory ==> Says(s, Open(path, flags)) == Failed(EISDIR))
  {
    hide Find, WellFormed, MountDirs, IsDetached, TrailMac, FindNew, OpenLookup;
    RootNoParent(s, path);
    SlashTrails(s, path);
  }

  lemma SlashTrails(s: Fs, path: Bytes)
    requires Ready(s) && FindParent(s, Cwd, path).At?
    ensures Trailing(path) == FindParent(s, Cwd, path).slash
  {
    hide Find;
    SplitLastComps(path);
  }

  /** On macOS a slash behind a name that is free lets `mkdir` alone make it. */
  lemma SlashOnMac(s: Fs, path: Bytes, target: Bytes, mode: nat, flags: OpenFlags)
    requires Steady(s) && IsMac(s) && FindParent(s, Cwd, path).At? && FindParent(s, Cwd, path).slash && |target| < PathMax(s)
    requires var at := FindParent(s, Cwd, path); Key(s, at.name) !in s.nodes[at.parent].children
    ensures Says(s, Mkdir(path, mode)) == if IsDetached(s, FindParent(s, Cwd, path).parent) then Failed(ENOENT) else Returned(0, [])
    ensures Says(s, SymlinkOp(target, path)) == Says(s, Bind(path)) == Failed(ENOENT)
    ensures flags.create && !flags.directory ==> Says(s, Open(path, flags)) == Failed(ENOENT)
  {
    hide Find, WellFormed, MountDirs, IsDetached, FindNew, OpenLookup, FollowLink;
    RootNoParent(s, path);
    SlashTrails(s, path);
  }

  /** Behind a name that is taken it means what the name leads to: a directory there is in the way of
      every call, and so is anything else but with another errno. */
  lemma SlashTakenOnMac(s: Fs, path: Bytes, target: Bytes, mode: nat, flags: OpenFlags, n: nat)
    requires Steady(s) && IsMac(s) && Acts(s, path, n) && FindParent(s, Cwd, path).slash && |target| < PathMax(s)
    ensures var there := IsDir(s, n);
            && Says(s, Mkdir(path, mode)) == Says(s, SymlinkOp(target, path)) == Failed(if there then EEXIST else ENOTDIR)
            && Says(s, Bind(path)) == Failed(if there then EADDRINUSE else ENOTDIR)
            && (flags.create && !flags.directory ==>
                  Says(s, Open(path, flags)) == Failed(if !there then ENOTDIR else if flags.excl then EEXIST else EISDIR))
  {
    hide Find, FindParentRaw, MountDirs, IsDetached, FindNew, OpenLookup, OpenSlash, TrailMac, FollowLink, SplitLast;
    RootNoParent(s, path);
    SlashTrails(s, path);
    TrailActs(s, path, n);
    OpenActs(s, path, flags, n);
  }

  lemma TrailActs(s: Fs, path: Bytes, n: nat)
    requires Steady(s) && IsMac(s) && FindParent(s, Cwd, path).At? && FindParent(s, Cwd, path).slash && Acts(s, path, n)
    ensures var at := FindParent(s, Cwd, path);
            TrailMac(s, Cwd, at.parent, Key(s, at.name), path) == if IsDir(s, n) then DirAt(n) else NonDir
  {
    hide Find, FindParent, FindNew, MountDirs, FollowLink, WellFormed;
  }

  lemma OpenActs(s: Fs, path: Bytes, flags: OpenFlags, n: nat)
    requires Steady(s) && IsMac(s) && FindParent(s, Cwd, path).At? && FindParent(s, Cwd, path).slash && Acts(s, path, n)
    ensures OpenSlash(s, Cwd, path, flags) == Some(if !IsDir(s, n) then ENOTDIR else if flags.excl then EEXIST else EISDIR)
  {
    hide Find, FindNew, MountDirs, FollowLink, WellFormed, TrailMac, Acts, SplitLast;
    TrailActs(s, path, n);
  }

  // ----- a working directory that is gone -----

  /** A removed working directory has no path any more and takes no new name. */
  ghost predicate IsGone(s: Fs)
    requires WellFormed(s)
  {
    && Says(s, Getcwd) == Failed(ENOENT)
    && (forall name, mode :: IsName(name) && |name| <= 255 ==> Says(s, Mkdir(name, mode)) == Failed(ENOENT))
    && (forall name :: IsName(name) && |name| <= 255 ==> Says(s, MkstempAdopt(name)) == Failed(ENOENT))
  }

  lemma GoneIs(s: Fs)
    requires WellFormed(s) && IsDir(s, s.cwd) && s.nodes[s.cwd].detached && s.nodes[s.cwd].children == map[]
    ensures IsGone(s)
  {
    hide WellFormed, Ends, Says, IsDetached;
    CwdDetached(s);
    GetcwdGone(s);
    forall name, mode | IsName(name) && |name| <= 255 ensures Says(s, Mkdir(name, mode)) == Failed(ENOENT) {
      MkdirGone(s, name, mode);
    }
    forall name | IsName(name) && |name| <= 255 ensures Says(s, MkstempAdopt(name)) == Failed(ENOENT) {
      MkstempGone(s, name);
    }
  }

  lemma GetcwdGone(s: Fs)
    requires WellFormed(s) && Valid(s, s.cwd) && IsDetached(s, s.cwd)
    ensures Says(s, Getcwd) == Failed(ENOENT)
  {
    hide WellFormed, IsDetached;
  }

  lemma MkstempGone(s: Fs, name: Bytes)
    requires WellFormed(s) && IsDir(s, s.cwd) && IsDetached(s, s.cwd) && s.nodes[s.cwd].children == map[] && IsName(name) && |name| <= 255
    ensures Says(s, MkstempAdopt(name)) == Failed(ENOENT)
  {
    hide WellFormed, IsDetached;
  }

  lemma CwdDetached(s: Fs)
    requires WellFormed(s) && Valid(s, s.cwd) && s.nodes[s.cwd].detached
    ensures IsDetached(s, s.cwd)
  {
    assert Chain(s, FsTree.Owner, s.cwd)[0] == s.cwd;
  }

  lemma MkdirGone(s: Fs, name: Bytes, mode: nat)
    requires WellFormed(s) && IsDir(s, s.cwd) && IsDetached(s, s.cwd) && s.nodes[s.cwd].children == map[] && IsName(name) && |name| <= 255
    ensures Says(s, Mkdir(name, mode)) == Failed(ENOENT)
  {
    hide WellFormed, IsDetached, TrailMac, Find;
    FormedReady(s);
    SplitAlone(name);
    assert name[0] in name;
  }

  /** `rmdir` of the working directory, and a rename that replaces it, leave the caller in one that is
      gone. */
  lemma RemovedGone(s: Fs, path: Bytes)
    requires Steady(s) && Literal(s, path) && LookupHits(s, FindParent(s, Cwd, path), s.cwd) && Says(s, Rmdir(path)).Returned?
    ensures IsGone(Apply(s, Rmdir(path)).0)
  {
    hide FindParent, Find, Literal, MountDirs, IsGone, Says;
    RmdirIs(s, path);
    var v := DoUnlink(s, Cwd, path, true);
    UnlinkSensible(s, Cwd, path, true);
    EditFormed(s, v.edit);
    RemovedIs(s, v.edit);
    assert NodeRemoved(s, v.edit, s.cwd, Do(s, v.edit).nodes[s.cwd]);
    GoneIs(Do(s, v.edit));
  }

  lemma RmdirIs(s: Fs, path: Bytes)
    requires Steady(s) && Literal(s, path) && LookupHits(s, FindParent(s, Cwd, path), s.cwd) && Says(s, Rmdir(path)).Returned?
    ensures var v := DoUnlink(s, Cwd, path, true);
            v.edit.Remove? && v.edit.id == s.cwd && IsDir(s, s.cwd) && s.nodes[s.cwd].children == map[]
  {
    hide FindParent, Find, FindNew, MountDirs, WellFormed;
    UnlinkEdit(s, path, true);
    Removes(s, path, s.cwd);
    TakesEntry(s, path, s.cwd);
  }

  lemma ReplacedGone(s: Fs, from: Bytes, to: Bytes)
    requires Steady(s) && DoRename(s, from, to).edit.Move?
    requires var e := DoRename(s, from, to).edit; EntryAt(s, e.toParent, e.toKey, s.cwd)
    ensures IsGone(Apply(s, Rename(from, to)).0)
  {
    hide FindParent, Find, DoRename, MountDirs, IsGone;
    RenameSensible(s, from, to);
    var e := DoRename(s, from, to).edit;
    MovedIs(s, e);
    EditFormed(s, e);
    assert NodeMoved(s, e, s.cwd, Do(s, e).nodes[s.cwd]);
    GoneIs(Do(s, e));
  }

  // ----- names -----

  /** The same letter, at most in another case. */
  predicate SameLetter(a: byte, b: byte) {
    || a == b
    || ('A' as int <= a as int <= 'Z' as int && b as int == a as int + 32)
    || ('A' as int <= b as int <= 'Z' as int && a as int == b as int + 32)
  }

  /** On a folding tree two names are one exactly when they agree up to ASCII case, else when they are
      equal. */
  lemma FoldsCase(s: Fs, a: Bytes, b: Bytes)
    ensures Key(s, a) == Key(s, b) <==>
            if s.fold then |a| == |b| && forall i :: 0 <= i < |a| ==> SameLetter(a[i], b[i]) else a == b
  {
    if s.fold && Key(s, a) == Key(s, b) {
      forall i | 0 <= i < |a| ensures SameLetter(a[i], b[i]) {
        assert Key(s, a)[i] == Key(s, b)[i];
      }
    }
  }

  // ----- limits -----

  /** A path of 1024 bytes on macOS or 4096 on Linux is too long to be looked up. */
  lemma LongPaths(s: Fs, path: Bytes, flags: OpenFlags)
    requires Steady(s) && |path| >= (if IsMac(s) then 1024 else 4096) && !IsRootOperand(path)
    ensures Says(s, Stat(path)) == Says(s, Lstat(path)) == Says(s, Readlink(path)) == Failed(ENAMETOOLONG)
    ensures Says(s, Chdir(path)) == Says(s, OpenDir(path)) == Says(s, List(path)) == Says(s, Connect(path)) == Failed(ENAMETOOLONG)
    ensures !(flags.create && flags.directory) ==> Says(s, Open(path, flags)) == Failed(ENAMETOOLONG)
  {
    hide WellFormed, MountDirs, IsDetached, Find, FindParent, FindParentRaw, FindNew, TrailMac, SplitLast, DoOpen, Closed, IsRootOperand;
    LongLookups(s, path);
    if !(flags.create && flags.directory) {
      OpenLong(s, path, flags);
    }
  }

  /** It is too long for a new name and for a name that is to go, and such a text for a link target. */
  lemma LongNewPaths(s: Fs, path: Bytes, other: Bytes, mode: nat)
    requires Steady(s) && |path| >= (if IsMac(s) then 1024 else 4096) && !IsRootOperand(path) && !IsRootOperand(other)
    ensures Says(s, Mkdir(path, mode)) == Says(s, Unlink(path)) == Says(s, Rmdir(path)) == Says(s, Bind(path)) == Failed(ENAMETOOLONG)
    ensures Says(s, SymlinkOp(path, other)) == Says(s, Rename(path, other)) == Failed(ENAMETOOLONG)
  {
    hide WellFormed, MountDirs, IsDetached, Find, FindParent, FindParentRaw, FindNew, TrailMac, SplitLast, Closed, IsRootOperand;
    hide TakeSlot, PutSlot, CreateAt, SlashErrno;
    LongLookups(s, path);
  }

  lemma LongLookups(s: Fs, path: Bytes)
    requires Ready(s) && |path| >= (if IsMac(s) then 1024 else 4096)
    ensures Find(s, Cwd, path, true) == Find(s, Cwd, path, false) == Missing(ENAMETOOLONG)
    ensures FindParentRaw(s, Cwd, path) == FindParent(s, Cwd, path) == Bad(ENAMETOOLONG)
  {
    hide Closed, Walk, Comps, SplitLast;
  }

  lemma OpenLong(s: Fs, path: Bytes, flags: OpenFlags)
    requires Steady(s) && |path| >= (if IsMac(s) then 1024 else 4096) && !IsRootOperand(path) && !(flags.create && flags.directory)
    ensures DoOpen(s, Cwd, path, flags) == Err(ENAMETOOLONG)
  {
    hide WellFormed, MountDirs, IsDetached, Find, FindParent, FindParentRaw, FindNew, TrailMac, SplitLast, Closed;
    LongLookups(s, path);
  }

  /** A name of 256 bytes is too long, whatever directory it is looked up in. */
  lemma LongNames(s: Fs, view: View, cur: nat, name: Bytes, links: nat)
    requires Closed(s) && Valid(s, cur) && links <= MaxLinks(s)
    ensures |name| >= 256 ==> Step(s, view, cur, name, true, false, links) == Missing(ENAMETOOLONG)
    ensures |name| <= 255 ==> Step(s, view, cur, name, false, false, links) != Missing(ENAMETOOLONG)
  {
  }

  /** After 32 links on macOS or 40 on Linux the next one is not followed. */
  lemma ManyLinks(s: Fs, view: View, dir: nat, link: nat, links: nat)
    requires Closed(s) && Valid(s, dir) && Valid(s, link) && links <= MaxLinks(s) && s.nodes[link].kind.Symlink? && s.nodes[link].kind.target != []
    ensures var most := if IsMac(s) then 32 else 40;
            FollowLink(s, view, dir, link, links)
            == if links == most then Missing(ELOOP) else Resolve(s, view, dir, s.nodes[link].kind.target, true, links + 1)
  {
  }
}
