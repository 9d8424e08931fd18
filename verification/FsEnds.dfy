/** When `getcwd` and `realpath` come to an end: exactly which renames make reported parents go
    round in a circle. */
module FsEnds {
  import opened Text
  import opened FsState
  import opened FsTree
  import opened FsPaths
  import opened FsOps
  import opened FsWellFormed
  import opened FsEdits
  import opened FsIsolation
  import opened FsScaffold

  /** Every reported path has an end. */
  ghost predicate AllEnd(s: Fs) {
    Closed(s) && forall n: nat :: Valid(s, n) ==> Ends(s, Reported(Virtual), n)
  }

  ghost function Above(s: Fs, n: nat): Option<nat>
    requires Closed(s) && Valid(s, n)
  {
    Up(s, Reported(Virtual), n)
  }

  // ----- what a call does to the reported parents -----

  lemma PinnedAbove(s: Fs, s': Fs, n: nat)
    requires Closed(s) && Closed(s') && Pinned(s, s', n)
    ensures Above(s', n) == Above(s, n)
  {
    if s.nodes[n].parent.Some? {
      var p := s.nodes[n].parent.value;
      assert NodeClosed(s.nodes[n], |s.nodes|) && NodeClosed(s'.nodes[n], |s'.nodes|);
      if HasEntry(s, p, n) {
        assert EntryAt(s, p, EntryName(s, p, n), n);
        assert EntryAt(s', p, EntryName(s, p, n), n);
      }
      if HasEntry(s', p, n) {
        assert EntryAt(s', p, EntryName(s', p, n), n);
      }
    }
  }

  /** A node that is no longer listed, and no mount target, is reported in nothing. */
  lemma UnlistedAbove(s: Fs, n: nat)
    requires Closed(s) && Valid(s, n) && s.nodes[n].virtualParent.None?
    requires s.nodes[n].parent.Some? ==> !HasEntry(s, s.nodes[n].parent.value, n)
    ensures Above(s, n) == None
  {
  }

  lemma TargetAbove(s: Fs, s': Fs, n: nat)
    requires Closed(s) && Closed(s') && Valid(s, n) && Valid(s', n) && s'.nodes[n].virtualParent == s.nodes[n].virtualParent && s.nodes[n].virtualParent.Some?
    ensures Above(s', n) == Above(s, n)
  {
  }

  /** The moved node is reported in its new directory, the replaced one in nothing, mount targets
      apart; nothing else changes. */
  lemma MovedAbove(s: Fs, s': Fs, e: Edit, n: nat)
    requires WellFormed(s) && WellFormed(s') && e.Move? && Legal(s, e) && IsMoved(s, s', e) && Valid(s, n)
    ensures s.nodes[n].virtualParent.Some? || (n != e.id && !Replaced(s, e, n)) ==> Above(s', n) == Above(s, n)
    ensures n == e.id && s.nodes[n].virtualParent.None? ==> Above(s', n) == Some(e.toParent)
    ensures n != e.id && Replaced(s, e, n) && s.nodes[n].virtualParent.None? ==> Above(s', n) == None && Above(s, n) == Some(e.toParent)
  {
    assert NodeMoved(s, e, n, s'.nodes[n]) && NodeMoved(s, e, e.toParent, s'.nodes[e.toParent]);
    if s.nodes[n].virtualParent.Some? {
      TargetAbove(s, s', n);
    } else if n == e.id {
      assert EntryAt(s', e.toParent, e.toKey, n);
      assert HasEntry(s', e.toParent, n);
    } else if Replaced(s, e, n) {
      ReplacedAbove(s, s', e, n);
    } else {
      PinnedMove(s, s', e, n);
      PinnedAbove(s, s', n);
    }
  }

  lemma ReplacedAbove(s: Fs, s': Fs, e: Edit, n: nat)
    requires WellFormed(s) && WellFormed(s') && e.Move? && Legal(s, e) && IsMoved(s, s', e) && Valid(s, n)
    requires n != e.id && Replaced(s, e, n) && s.nodes[n].virtualParent.None?
    ensures Above(s', n) == None && Above(s, n) == Some(e.toParent)
  {
    assert NodeMoved(s, e, n, s'.nodes[n]) && NodeMoved(s, e, e.toParent, s'.nodes[e.toParent]);
    assert NodeOk(s, e.toParent) && EntryOk(s, e.toParent, e.toKey);
    assert HasEntry(s, e.toParent, n);
    UnlistedAbove(s', n);
  }

  // ----- enough: no way up from the new directory through the moved node -----

  /** The rename puts nothing below itself, as paths are reported. */
  ghost predicate StaysClear(s: Fs, e: Edit)
    requires AllEnd(s) && e.Move? && Valid(s, e.id) && Valid(s, e.toParent)
  {
    s.nodes[e.id].virtualParent.Some? || e.id !in Chain(s, Reported(Virtual), e.toParent)
  }

  lemma {:induction false} EndsWithout(s: Fs, s': Fs, e: Edit, n: nat)
    requires WellFormed(s) && WellFormed(s') && AllEnd(s) && e.Move? && Legal(s, e) && IsMoved(s, s', e) && Valid(s, n)
    requires s.nodes[e.id].virtualParent.Some? || e.id !in Chain(s, Reported(Virtual), n)
    ensures Ends(s', Reported(Virtual), n)
    decreases |Chain(s, Reported(Virtual), n)|
  {
    ChainUp(s, Reported(Virtual), n);
    assert Chain(s, Reported(Virtual), n)[0] == n;
    MovedAbove(s, s', e, n);
    EndsAbove(s', n);
    match Above(s', n)
    case None =>
    case Some(p) =>
      EndsWithout(s, s', e, p);
  }

  /** A node ends where the node it is reported in does. */
  lemma EndsAbove(s: Fs, n: nat)
    requires Closed(s) && Valid(s, n)
    ensures match Above(s, n)
            case None => Ends(s, Reported(Virtual), n)
            case Some(p) => Ends(s, Reported(Virtual), p) ==> Ends(s, Reported(Virtual), n)
  {
    match Above(s, n)
    case None => ChainNil(s, Reported(Virtual), n);
    case Some(p) =>
      if Ends(s, Reported(Virtual), p) {
        ChainCons(s, Reported(Virtual), n, Chain(s, Reported(Virtual), p));
      }
  }

  lemma {:induction false} EndsThrough(s: Fs, s': Fs, e: Edit, n: nat)
    requires WellFormed(s) && WellFormed(s') && AllEnd(s) && e.Move? && Legal(s, e) && IsMoved(s, s', e) && Valid(s, n)
    requires StaysClear(s, e)
    ensures Ends(s', Reported(Virtual), n)
    decreases |Chain(s, Reported(Virtual), n)|
  {
    MovedAbove(s, s', e, n);
    EndsAbove(s', n);
    if n == e.id && s.nodes[n].virtualParent.None? {
      EndsWithout(s, s', e, e.toParent);
    } else if Above(s', n).Some? {
      ChainUp(s, Reported(Virtual), n);
      EndsThrough(s, s', e, Above(s', n).value);
    }
  }

  lemma AllThrough(s: Fs, s': Fs, e: Edit)
    requires WellFormed(s) && WellFormed(s') && AllEnd(s) && e.Move? && Legal(s, e) && IsMoved(s, s', e) && StaysClear(s, e)
    ensures AllEnd(s')
  {
    forall n: nat | Valid(s', n) ensures Ends(s', Reported(Virtual), n) {
      EndsThrough(s, s', e, n);
    }
  }

  // ----- necessary: otherwise the moved node never ends -----

  lemma {:induction false} LeadsToMoved(s: Fs, s': Fs, e: Edit, n: nat)
    requires WellFormed(s) && WellFormed(s') && AllEnd(s) && e.Move? && Legal(s, e) && IsMoved(s, s', e) && Valid(s, n)
    requires s.nodes[e.id].virtualParent.None? && e.id in Chain(s, Reported(Virtual), n)
    requires |Chain(s, Reported(Virtual), n)| <= |Chain(s, Reported(Virtual), e.toParent)|
    requires Ends(s', Reported(Virtual), n)
    ensures Ends(s', Reported(Virtual), e.id) && |Chain(s', Reported(Virtual), e.id)| <= |Chain(s', Reported(Virtual), n)|
    decreases |Chain(s, Reported(Virtual), n)|
  {
    if n != e.id {
      var p := StillAbove(s, s', e, n);
      LeadsToMoved(s, s', e, p);
    }
  }

  /** Between the new directory and the moved node everything is reported where it was. */
  lemma StillAbove(s: Fs, s': Fs, e: Edit, n: nat) returns (p: nat)
    requires WellFormed(s) && WellFormed(s') && AllEnd(s) && e.Move? && Legal(s, e) && IsMoved(s, s', e) && Valid(s, n) && n != e.id
    requires e.id in Chain(s, Reported(Virtual), n) && Ends(s', Reported(Virtual), n)
    requires |Chain(s, Reported(Virtual), n)| <= |Chain(s, Reported(Virtual), e.toParent)|
    ensures Valid(s, p) && Ends(s', Reported(Virtual), p) && |Chain(s', Reported(Virtual), n)| == 1 + |Chain(s', Reported(Virtual), p)|
    ensures |Chain(s, Reported(Virtual), n)| == 1 + |Chain(s, Reported(Virtual), p)| && e.id in Chain(s, Reported(Virtual), p)
  {
    MovedAbove(s, s', e, n);
    ChainUp(s, Reported(Virtual), n);
    ChainUp(s', Reported(Virtual), n);
    assert Above(s, n).Some?;
    p := Above(s, n).value;
    assert Chain(s, Reported(Virtual), n) == [n] + Chain(s, Reported(Virtual), p);
  }

  lemma NeverEnds(s: Fs, s': Fs, e: Edit)
    requires WellFormed(s) && WellFormed(s') && AllEnd(s) && e.Move? && Legal(s, e) && IsMoved(s, s', e) && !StaysClear(s, e)
    ensures !Ends(s', Reported(Virtual), e.id)
  {
    if Ends(s', Reported(Virtual), e.id) {
      MovedAbove(s, s', e, e.id);
      ChainUp(s', Reported(Virtual), e.id);
      LeadsToMoved(s, s', e, e.toParent);
    }
  }

  /** After a legal move every reported path still has an end exactly when the new directory is not
      reported below the moved node, or the moved node is a mount target. */
  lemma MoveEnds(s: Fs, e: Edit)
    requires WellFormed(s) && AllEnd(s) && e.Move? && Legal(s, e)
    ensures CanDo(s, e) && WellFormed(Do(s, e)) && (AllEnd(Do(s, e)) <==> StaysClear(s, e))
    ensures !StaysClear(s, e) ==> !Ends(Do(s, e), Reported(Virtual), e.id)
  {
    MoveFormed(s, e);
    MovedIs(s, e);
    if StaysClear(s, e) {
      AllThrough(s, Do(s, e), e);
    } else {
      NeverEnds(s, Do(s, e), e);
    }
  }

  /** The same of the call. */
  lemma RenameEnds(s: Fs, from: Bytes, to: Bytes)
    requires WellFormed(s) && AllEnd(s) && Decide(s, Rename(from, to)).edit.Move?
    ensures var e := Decide(s, Rename(from, to)).edit;
            && Valid(s, e.id) && Valid(s, e.toParent)
            && (AllEnd(Apply(s, Rename(from, to)).0) <==> StaysClear(s, e))
  {
    DecideSensible(s, Rename(from, to));
    MoveEnds(s, Decide(s, Rename(from, to)).edit);
  }

  // ----- every other call, and runs -----

  /** From `s` to `s'` a node is reported where it was or in nothing, a new one in an old one. */
  ghost predicate NoNewCircle(s: Fs, s': Fs) {
    && Closed(s) && Closed(s') && |s.nodes| <= |s'.nodes|
    && (forall n: nat {:trigger Above(s', n)} :: Valid(s', n) ==>
          if Valid(s, n) then Above(s', n) == None || Above(s', n) == Above(s, n)
          else Above(s', n).Some? ==> Valid(s, Above(s', n).value))
  }

  lemma {:induction false} OldEnds(s: Fs, s': Fs, n: nat)
    requires NoNewCircle(s, s') && AllEnd(s) && Valid(s, n)
    ensures Ends(s', Reported(Virtual), n)
    decreases |Chain(s, Reported(Virtual), n)|
  {
    EndsAbove(s', n);
    ChainUp(s, Reported(Virtual), n);
    if Above(s', n).Some? {
      OldEnds(s, s', Above(s', n).value);
    }
  }

  lemma NoCircleEnds(s: Fs, s': Fs)
    requires NoNewCircle(s, s') && AllEnd(s)
    ensures AllEnd(s')
  {
    forall n: nat | Valid(s', n) ensures Ends(s', Reported(Virtual), n) {
      if Valid(s, n) {
        OldEnds(s, s', n);
      } else {
        EndsAbove(s', n);
        if Above(s', n).Some? {
          OldEnds(s, s', Above(s', n).value);
        }
      }
    }
  }

  lemma CreateAbove(s: Fs, e: Edit, n: nat)
    requires WellFormed(s) && e.Create? && Legal(s, e) && CanDo(s, e) && Closed(Do(s, e)) && Valid(Do(s, e), n)
    ensures if Valid(s, n) then Above(Do(s, e), n) == Above(s, n) else Above(Do(s, e), n).Some? ==> Valid(s, Above(Do(s, e), n).value)
  {
    if Valid(s, n) {
      PinnedCreate(s, e, n);
      PinnedAbove(s, Do(s, e), n);
    }
  }

  lemma RemoveAbove(s: Fs, e: Edit, n: nat)
    requires WellFormed(s) && e.Remove? && Legal(s, e) && CanDo(s, e) && WellFormed(Do(s, e)) && Valid(s, n)
    ensures Valid(Do(s, e), n) && (Above(Do(s, e), n) == None || Above(Do(s, e), n) == Above(s, n))
  {
    RemovedIs(s, e);
    assert NodeRemoved(s, e, n, Do(s, e).nodes[n]) && NodeRemoved(s, e, e.parent, Do(s, e).nodes[e.parent]);
    if n != e.id {
      PinnedRemove(s, Do(s, e), e, n);
      PinnedAbove(s, Do(s, e), n);
    } else if s.nodes[n].virtualParent.Some? {
      TargetAbove(s, Do(s, e), n);
    } else {
      assert NodeOk(s, e.parent) && EntryOk(s, e.parent, e.key);
      UnlistedAbove(Do(s, e), n);
    }
  }

  lemma EditCircle(s: Fs, e: Edit)
    requires WellFormed(s) && Legal(s, e) && !e.Move?
    ensures CanDo(s, e) && NoNewCircle(s, Do(s, e))
  {
    EditFormed(s, e);
    SettingsStay(s, e);
    forall n: nat | Valid(Do(s, e), n)
      ensures if Valid(s, n) then Above(Do(s, e), n) == None || Above(Do(s, e), n) == Above(s, n)
              else Above(Do(s, e), n).Some? ==> Valid(s, Above(Do(s, e), n).value)
    {
      if e.Create? {
        CreateAbove(s, e, n);
      } else if e.Remove? {
        RemoveAbove(s, e, n);
      } else {
        QuietFormed(s, e);
        PinnedQuiet(s, Do(s, e), n);
        PinnedAbove(s, Do(s, e), n);
      }
    }
  }

  /** No rename of the run moves a directory to where it is itself reported above. */
  ghost predicate ClearRun(s: Fs, ops: seq<Op>)
    requires WellFormed(s)
    decreases |ops|
  {
    ops == [] || (
      && (var e := Decide(s, ops[0]).edit; e.Move? ==> AllEnd(s) && Valid(s, e.id) && Valid(s, e.toParent) && StaysClear(s, e))
      && ClearRun(Apply(s, ops[0]).0, ops[1..]))
  }

  lemma StepEnds(s: Fs, op: Op)
    requires WellFormed(s) && AllEnd(s)
    requires var e := Decide(s, op).edit; e.Move? ==> Valid(s, e.id) && Valid(s, e.toParent) && StaysClear(s, e)
    ensures AllEnd(Apply(s, op).0)
  {
    DecideSensible(s, op);
    var e := Decide(s, op).edit;
    if e.Move? {
      MoveEnds(s, e);
    } else {
      EditCircle(s, e);
      NoCircleEnds(s, Do(s, e));
    }
  }

  lemma MkdirReturns(s: Fs, start: Start, path: Bytes)
    requires WellFormed(s)
    ensures DoMkdir(s, start, path).outcome != Hangs
  {
  }

  lemma MakesReturn(s: Fs, path: Bytes, target: Bytes)
    requires WellFormed(s)
    ensures DoSymlink(s, target, path).outcome != Hangs && DoMkstemp(s, path).outcome != Hangs
  {
  }

  lemma BindReturns(s: Fs, path: Bytes)
    requires WellFormed(s)
    ensures DoBind(s, path).outcome != Hangs
  {
  }

  lemma OpenReturns(s: Fs, start: Start, path: Bytes, flags: OpenFlags)
    requires WellFormed(s)
    ensures DoOpen(s, start, path, flags).outcome != Hangs
  {
  }

  lemma RenameReturns(s: Fs, from: Bytes, to: Bytes)
    requires WellFormed(s)
    ensures DoRename(s, from, to).outcome != Hangs
  {
    forall src: Slot, dst: Dest, slashes: bool | src.Slot? && dst.Dest? && IsDir(s, dst.parent) && Valid(s, src.parent) && Valid(s, src.id)
      ensures RenameTo(s, src, dst, slashes).outcome != Hangs
    {
      RenameToReturns(s, src, dst, slashes);
    }
  }

  lemma RenameToReturns(s: Fs, src: Slot, dst: Dest, slashes: bool)
    requires WellFormed(s) && src.Slot? && dst.Dest? && IsDir(s, dst.parent) && Valid(s, src.parent) && Valid(s, src.id)
    ensures RenameTo(s, src, dst, slashes).outcome != Hangs
  {
  }

  lemma UnlinkReturns(s: Fs, start: Start, path: Bytes, rmdir: bool)
    requires WellFormed(s)
    ensures DoUnlink(s, start, path, rmdir).outcome != Hangs
  {
  }

  lemma PathReturns(s: Fs, path: Bytes)
    requires WellFormed(s) && AllEnd(s)
    ensures DoGetcwd(s).outcome != Hangs && DoRealpath(s, path).outcome != Hangs
  {
    FormedReady(s);
    var r := Find(s, Cwd, path, true);
    assert r.Found? ==> Valid(s, r.node);
  }

  lemma LookReturns(s: Fs, op: Op)
    requires WellFormed(s) && Looks(op) && !op.Getcwd? && !op.Realpath?
    ensures DecideLook(s, op).outcome != Hangs
  {
  }

  lemma NoHang(s: Fs, op: Op)
    requires WellFormed(s) && AllEnd(s)
    ensures Decide(s, op).outcome != Hangs
  {
    match op
    case Getcwd => PathReturns(s, []);
    case Realpath(path) => PathReturns(s, path);
    case Mkdir(path, _) => MkdirReturns(s, Cwd, path);
    case MkdirAt(fd, path) => MkdirReturns(s, AtStart(fd, path), path);
    case Open(path, flags) => OpenReturns(s, Cwd, path, flags);
    case OpenAt(fd, path, flags) => OpenReturns(s, AtStart(fd, path), path, flags);
    case SymlinkOp(target, path) => MakesReturn(s, path, target);
    case Rename(from, to) => RenameReturns(s, from, to);
    case Unlink(path) => UnlinkReturns(s, Cwd, path, false);
    case Rmdir(path) => UnlinkReturns(s, Cwd, path, true);
    case UnlinkAt(fd, path, rmdir) => UnlinkReturns(s, AtStart(fd, path), path, rmdir);
    case Bind(path) => BindReturns(s, path);
    case MkstempAdopt(name) => MakesReturn(s, name, []);
    case _ => LookReturns(s, op);
  }

  /** Over such runs every reported path keeps its end, and no call ever hangs. */
  lemma {:induction false} RunEnds(s: Fs, ops: seq<Op>)
    requires WellFormed(s) && AllEnd(s) && ClearRun(s, ops)
    ensures AllEnd(After(s, ops)) && Hangs !in Outcomes(s, ops)
    decreases |ops|
  {
    if ops != [] {
      StepEnds(s, ops[0]);
      NoHang(s, ops[0]);
      RunEnds(Apply(s, ops[0]).0, ops[1..]);
    }
  }

  /** With the mounts in place every reported path has an end. */
  lemma ScaffoldEnds(s: Fs)
    requires Scaffold(s)
    ensures AllEnd(s)
  {
    forall n: nat | Valid(s, n) ensures Ends(s, Reported(Virtual), n) {
      ScaffoldEndsAt(s, n);
    }
  }

  lemma {:induction false} ScaffoldEndsAt(s: Fs, n: nat)
    requires Scaffold(s) && Valid(s, n)
    ensures Ends(s, Reported(Virtual), n)
    decreases |Chain(s, FsTree.Owner, n)|
  {
    EndsAbove(s, n);
    ChainUp(s, FsTree.Owner, n);
    if s.nodes[n].virtualParent.Some? {
      assert TargetOk(s, n);
      PlainSound(s, s.nodes[n].virtualParent.value);
    } else if Above(s, n).Some? {
      ScaffoldEndsAt(s, Above(s, n).value);
    }
  }
}
