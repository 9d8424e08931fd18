/** Descriptors over several calls: reads and writes go on where the last one ended, an opened file
    is the one the path names, and a number stands for one open file only. */
module FsDescriptors {
  import opened Text
  import opened FsState
  import opened FsTree
  import opened FsOps
  import opened FsWellFormed
  import opened FsEdits
  import opened FsEffects

  // ----- consecutive pieces -----

  /** The descriptor is one of a file. */
  ghost predicate OnFile(s: Fs, fd: nat) {
    fd in s.fds && s.fds[fd].FileFd? && Valid(s, s.fds[fd].node) && s.nodes[s.fds[fd].node].kind.File?
  }

  /** What the file under the descriptor holds from its position on. */
  ghost function Ahead(s: Fs, fd: nat): Bytes
    requires OnFile(s, fd)
  {
    var content := s.nodes[s.fds[fd].node].kind.content;
    if s.fds[fd].pos <= |content| then content[s.fds[fd].pos..] else []
  }

  /** A read hands out the next bytes and leaves those behind them to the next read. */
  lemma ReadsNext(s: Fs, fd: nat, len: nat)
    requires WellFormed(s) && OnFile(s, fd)
    ensures var (s', o) := Apply(s, Read(fd, len));
            && o.Returned? && o.ret == |o.data| == (if len <= |Ahead(s, fd)| then len else |Ahead(s, fd)|)
            && OnFile(s', fd) && Ahead(s, fd) == o.data + Ahead(s', fd)
            && s' == s.(fds := s.fds[fd := FileFd(s.fds[fd].node, s.fds[fd].pos + o.ret, s.fds[fd].write)])
  {
    hide WellFormed;
    FormedReady(s);
    ReadEdit(s, fd, len);
  }

  lemma ReadEdit(s: Fs, fd: nat, len: nat)
    requires WellFormed(s) && OnFile(s, fd)
    ensures var r := DoRead(s, fd, len);
            && r.outcome.Returned? && r.outcome.data <= Ahead(s, fd) && |r.outcome.data| == r.outcome.ret
            && r.outcome.ret == (if len <= |Ahead(s, fd)| then len else |Ahead(s, fd)|)
            && r.edit == Seek(fd, s.fds[fd].node, s.fds[fd].pos + r.outcome.ret, s.fds[fd].write)
  {
    hide WellFormed;
  }

  /** Two reads in a row return what one read of both lengths does. */
  lemma ReadsInARow(s: Fs, fd: nat, a: nat, b: nat)
    requires WellFormed(s) && OnFile(s, fd)
    ensures var (s1, first) := Apply(s, Read(fd, a));
            var (s2, second) := Apply(s1, Read(fd, b));
            var (s', both) := Apply(s, Read(fd, a + b));
            first.Returned? && second.Returned? && both == Returned(first.ret + second.ret, first.data + second.data) && s2 == s'
  {
    hide Apply, WellFormed, OnFile, Ahead;
    ReadsNext(s, fd, a);
    var (s1, first) := Apply(s, Read(fd, a));
    ReadsNext(s1, fd, b);
    ReadsNext(s, fd, a + b);
    var (s2, second) := Apply(s1, Read(fd, b));
    var (s', both) := Apply(s, Read(fd, a + b));
    SamePrefix(first.data, second.data, Ahead(s2, fd), both.data, Ahead(s', fd));
  }

  lemma SamePrefix(a: Bytes, b: Bytes, rest: Bytes, both: Bytes, behind: Bytes)
    requires a + (b + rest) == both + behind && |both| == |a| + |b|
    ensures both == a + b
  {
    assert a + b == (a + (b + rest))[..|a| + |b|];
    assert both == (both + behind)[..|both|];
  }

  /** Two writes in a row leave what one write of both texts does. */
  lemma WritesInARow(s: Fs, fd: nat, a: Bytes, b: Bytes)
    requires WellFormed(s) && OnFile(s, fd) && s.fds[fd].write
    ensures var (s1, first) := Apply(s, Write(fd, a));
            var (s2, second) := Apply(s1, Write(fd, b));
            var (s', both) := Apply(s, Write(fd, a + b));
            first == Returned(|a|, []) && second == Returned(|b|, []) && both == Returned(|a + b|, []) && s2 == s'
  {
    hide Apply, WellFormed, PutAt;
    WritesNext(s, fd, a);
    var s1 := Apply(s, Write(fd, a)).0;
    WritesNext(s1, fd, b);
    WritesNext(s, fd, a + b);
    PutTwice(s.nodes[s.fds[fd].node].kind.content, s.fds[fd].pos, a, b);
  }

  /** A write puts the data at the position, which moves behind it. */
  lemma WritesNext(s: Fs, fd: nat, data: Bytes)
    requires WellFormed(s) && OnFile(s, fd) && s.fds[fd].write
    ensures var (s', o) := Apply(s, Write(fd, data));
            var n, pos := s.fds[fd].node, s.fds[fd].pos;
            && o == Returned(|data|, []) && OnFile(s', fd)
            && s' == s.(nodes := s.nodes[n := s.nodes[n].(kind := File(PutAt(s.nodes[n].kind.content, pos, data)))],
                        fds := s.fds[fd := FileFd(n, pos + |data|, true)])
  {
    hide WellFormed, PutAt;
    WriteEdit(s, fd, data);
  }

  lemma WriteEdit(s: Fs, fd: nat, data: Bytes)
    requires WellFormed(s) && OnFile(s, fd) && s.fds[fd].write
    ensures var n, pos := s.fds[fd].node, s.fds[fd].pos;
            DoWrite(s, fd, data) == Ok(PutData(fd, n, PutAt(s.nodes[n].kind.content, pos, data), pos + |data|), |data|)
  {
    hide WellFormed, PutAt;
  }

  lemma PutTwice(content: Bytes, pos: nat, a: Bytes, b: Bytes)
    ensures PutAt(PutAt(content, pos, a), pos + |a|, b) == PutAt(content, pos, a + b)
  {
    var once := PutAt(content, pos, a);
    var padded := if |content| < pos then content + Zeros(pos - |content|) else content;
    assert once[..pos + |a|] == padded[..pos] + a;
  }

  // ----- an opened file -----

  /** A path opened is the file that `stat` sees: reading gives its content from the start, or nothing
      when it was truncated, and the descriptor takes writes only when asked for. */
  lemma OpenedFile(s: Fs, path: Bytes, flags: OpenFlags, len: nat, data: Bytes)
    requires WellFormed(s) && Ready(s) && !flags.create && !flags.directory
    requires var r := Find(s, Cwd, path, !flags.nofollow); r.Found? && s.nodes[r.node].kind.File?
    ensures var content := s.nodes[Find(s, Cwd, path, !flags.nofollow).node].kind.content;
            var left := if flags.trunc then [] else content;
            var (s', o) := Apply(s, Open(path, flags));
            && o == Returned(s.nextFd, []) && OnFile(s', o.ret) && Ahead(s', o.ret) == left
            && Apply(s', Read(o.ret, len)).1 == (if len <= |left| then Returned(len, left[..len]) else Returned(|left|, left))
            && (if flags.write then Apply(s', Write(o.ret, data)).1 == Returned(|data|, []) else Apply(s', Write(o.ret, data)) == (s', Failed(EBADF)))
  {
    hide Find, WellFormed, Apply;
    OpensFile(s, path, flags);
    var (s', o) := Apply(s, Open(path, flags));
    ReadsNext(s', o.ret, len);
    if flags.write {
      WritesNext(s', o.ret, data);
    } else {
      NotForWriting(s', o.ret, data);
    }
  }

  /** And a file that an `open` made is empty, and takes writes only when asked for. */
  lemma CreatedFile(s: Fs, path: Bytes, flags: OpenFlags, len: nat, data: Bytes)
    requires WellFormed(s) && DoOpen(s, Cwd, path, flags).edit.Create?
    ensures var (s', o) := Apply(s, Open(path, flags));
            && o == Returned(s.nextFd, []) && OnFile(s', o.ret) && Ahead(s', o.ret) == []
            && Apply(s', Read(o.ret, len)).1 == Returned(0, [])
            && (if flags.write then Apply(s', Write(o.ret, data)).1 == Returned(|data|, []) else Apply(s', Write(o.ret, data)) == (s', Failed(EBADF)))
  {
    hide Find, WellFormed, Apply, DoOpen;
    MakesFile(s, path, flags);
    var (s', o) := Apply(s, Open(path, flags));
    ReadsNext(s', o.ret, len);
    if flags.write {
      WritesNext(s', o.ret, data);
    } else {
      NotForWriting(s', o.ret, data);
    }
  }

  lemma MakesFile(s: Fs, path: Bytes, flags: OpenFlags)
    requires WellFormed(s) && DoOpen(s, Cwd, path, flags).edit.Create?
    ensures var (s', o) := Apply(s, Open(path, flags));
            && o == Returned(s.nextFd, []) && OnFile(s', o.ret) && Ahead(s', o.ret) == [] && s'.fds[o.ret].write == flags.write
  {
    hide Find, FindParent, FindNew, OpenSlash, WellFormed, IsDetached, IsRootOperand;
    DecideSensible(s, Open(path, flags));
  }

  lemma OpensFile(s: Fs, path: Bytes, flags: OpenFlags)
    requires WellFormed(s) && Ready(s) && !flags.create && !flags.directory
    requires var r := Find(s, Cwd, path, !flags.nofollow); r.Found? && s.nodes[r.node].kind.File?
    ensures var n := Find(s, Cwd, path, !flags.nofollow).node;
            var s' := if flags.trunc then s.(nodes := s.nodes[n := s.nodes[n].(kind := File([]))]) else s;
            Apply(s, Open(path, flags))
            == (s'.(fds := s.fds[s.nextFd := FileFd(n, 0, flags.write)], nextFd := s.nextFd + 1), Returned(s.nextFd, []))
  {
    hide Find, WellFormed, FindNew, OpenExclusive, OpenSlash;
  }

  lemma NotForWriting(s: Fs, fd: nat, data: Bytes)
    requires WellFormed(s) && fd in s.fds && !(s.fds[fd].FileFd? && s.fds[fd].write)
    ensures Apply(s, Write(fd, data)) == (s, Failed(EBADF))
  {
    hide WellFormed, PutAt;
  }

  // ----- closed descriptors, and new numbers -----

  /** A closed descriptor, like one that never was, takes no call; the others stay as they are. */
  lemma Closed(s: Fs, fd: nat, len: nat, data: Bytes)
    requires WellFormed(s)
    ensures var (s', o) := Apply(s, CloseFd(fd));
            && s' == s.(fds := s.fds - {fd}) && o == (if fd in s.fds then Returned(0, []) else Failed(EBADF))
            && Apply(s', Read(fd, len)).1 == Apply(s', Write(fd, data)).1 == Apply(s', CloseFd(fd)).1 == Failed(EBADF)
  {
    hide WellFormed, PutAt;
    assert fd !in s.fds ==> s.fds - {fd} == s.fds;
  }

  /** Every number in use was given out before. */
  ghost predicate Numbered(s: Fs) {
    forall fd :: fd in s.fds ==> fd < s.nextFd
  }

  /** The edit opens a file or directory. */
  predicate Opens(e: Edit) {
    e.OpenFile? || e.OpenNode? || (e.Create? && e.open.Some?)
  }

  lemma EditNumbers(s: Fs, e: Edit)
    requires WellFormed(s) && Numbered(s) && Legal(s, e) && CanDo(s, e)
    ensures var s' := Do(s, e);
            && Numbered(s') && s'.nextFd == s.nextFd + (if Opens(e) then 1 else 0)
            && (forall fd :: fd in s'.fds && fd != s.nextFd ==> fd in s.fds && s'.fds[fd].node == s.fds[fd].node)
            && (s.nextFd in s'.fds ==> Opens(e))
  {
    hide WellFormed, IsDetached;
    if e.Move? {
      MovedFds(s, e);
    }
  }

  lemma MovedFds(s: Fs, e: Edit)
    requires e.Move? && CanDo(s, e)
    ensures Do(s, e).fds == s.fds && Do(s, e).nextFd == s.nextFd
  {
  }

  lemma OpenNumber(s: Fs, start: Start, path: Bytes, flags: OpenFlags)
    requires WellFormed(s)
    ensures var v := DoOpen(s, start, path, flags); Opens(v.edit) ==> v.outcome == Returned(s.nextFd, [])
  {
    hide WellFormed, Find, FindParent, FindNew, OpenSlash, IsDetached, IsRootOperand, Key;
  }

  lemma NotOpened(s: Fs, start: Start, path: Bytes, other: Bytes, rmdir: bool)
    requires WellFormed(s)
    ensures !Opens(DoMkdir(s, start, path).edit) && !Opens(DoSymlink(s, other, path).edit) && !Opens(DoBind(s, path).edit)
    ensures !Opens(DoUnlink(s, start, path, rmdir).edit)
  {
    hide WellFormed, Find, FindParent, FindNew, TrailMac, TakeSlot, SlashErrno, IsDetached, IsRootOperand, Key;
  }

  lemma NotRenamed(s: Fs, from: Bytes, to: Bytes)
    requires WellFormed(s)
    ensures !Opens(DoRename(s, from, to).edit)
  {
    hide WellFormed, FindParent, TakeSlot, PutSlot, IsDetached, IsDescendant, MountOf, IsRootOperand;
  }

  lemma ChangeNumber(s: Fs, op: Op)
    requires WellFormed(s) && !Looks(op)
    ensures var v := DecideChange(s, op); Opens(v.edit) ==> v.outcome == Returned(s.nextFd, [])
  {
    hide WellFormed, DoOpen, DoMkdir, DoSymlink, DoBind, DoUnlink, DoRename, IsDetached, Key;
    match op
    case Open(path, flags) => OpenNumber(s, Cwd, path, flags);
    case OpenAt(fd, path, flags) => OpenNumber(s, AtStart(fd, path), path, flags);
    case Mkdir(path, _) => NotOpened(s, Cwd, path, [], false);
    case MkdirAt(fd, path) => NotOpened(s, AtStart(fd, path), path, [], false);
    case SymlinkOp(target, path) => NotOpened(s, Cwd, path, target, false);
    case Rename(from, to) => NotRenamed(s, from, to);
    case Unlink(path) => NotOpened(s, Cwd, path, [], false);
    case Rmdir(path) => NotOpened(s, Cwd, path, [], true);
    case UnlinkAt(fd, path, rmdir) => NotOpened(s, AtStart(fd, path), path, [], rmdir);
    case Bind(path) => NotOpened(s, Cwd, path, [], false);
    case MkstempAdopt(name) =>
  }

  lemma LookNumber(s: Fs, op: Op)
    requires WellFormed(s) && Looks(op)
    ensures var v := DecideLook(s, op); Opens(v.edit) ==> v.outcome == Returned(s.nextFd, [])
  {
    hide WellFormed, Find, IsDetached, SplitLast, IsRootOperand, FullPath, Lines, PutAt;
  }

  /** A descriptor that a call gives out was never in use before, and a descriptor stays with its node. */
  lemma StepNumbers(s: Fs, op: Op)
    requires WellFormed(s) && Numbered(s)
    ensures var s' := Apply(s, op).0;
            && Numbered(s') && s.nextFd <= s'.nextFd
            && (forall fd :: fd in s'.fds && fd in s.fds ==> s'.fds[fd].node == s.fds[fd].node)
            && (forall fd :: fd in s'.fds && fd !in s.fds ==> fd == s.nextFd && Apply(s, op).1 == Returned(fd, []))
  {
    hide WellFormed, Legal, CanDo, Do, DecideLook, DecideChange, Opens;
    var v := Decide(s, op);
    DecideSensible(s, op);
    EditFormed(s, v.edit);
    EditNumbers(s, v.edit);
    if Looks(op) {
      LookNumber(s, op);
    } else {
      ChangeNumber(s, op);
    }
  }

  /** Over every run: a number that was given out once does not stand for another node later. */
  lemma {:induction false} RunNumbers(s: Fs, ops: seq<Op>)
    requires WellFormed(s) && Numbered(s)
    ensures var s' := After(s, ops);
            && Numbered(s') && s.nextFd <= s'.nextFd
            && (forall fd :: fd in s'.fds && fd < s.nextFd ==> fd in s.fds && s'.fds[fd].node == s.fds[fd].node)
    decreases |ops|
  {
    hide WellFormed, Apply;
    if ops != [] {
      StepNumbers(s, ops[0]);
      RunNumbers(Apply(s, ops[0]).0, ops[1..]);
    }
  }
}
