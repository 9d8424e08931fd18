/** Runs that leave the mounts in place: what the driver's guard ensures, and what follows. */
module FsScaffold {
  import opened Text
  import opened FsState
  import opened FsTree
  import opened FsPaths
  import opened FsReach
  import opened FsOps
  import opened FsWellFormed
  import opened FsEdits
  import opened FsIsolation

  // ----- the guard -----

  /** `n` is one of the kept nodes or a directory above one. */
  ghost predicate Supports(s: Fs, keep: set<nat>, n: nat)
    requires WellFormed(s)
  {
    exists k: nat :: k in keep && Valid(s, k) && n in Chain(s, FsTree.Owner, k)
  }

  /** The edit removes, replaces and renames no kept node and no directory above one. */
  ghost predicate Guarded(s: Fs, keep: set<nat>, e: Edit)
    requires WellFormed(s)
  {
    match e
    case Move(_, _, id, tp, tk) =>
      && !Supports(s, keep, id)
      && (Valid(s, tp) && tk in s.nodes[tp].children ==> !Supports(s, keep, s.nodes[tp].children[tk]))
    case Remove(_, _, id) => !Supports(s, keep, id)
    case _ => true
  }

  lemma SupportsSelf(s: Fs, keep: set<nat>, n: nat)
    requires WellFormed(s) && Valid(s, n) && n in keep
    ensures Supports(s, keep, n)
  {
    assert Chain(s, FsTree.Owner, n)[0] == n;
  }

  lemma SupportsUp(s: Fs, keep: set<nat>, n: nat)
    requires WellFormed(s) && Valid(s, n) && Supports(s, keep, n) && s.nodes[n].parent.Some?
    ensures Supports(s, keep, s.nodes[n].parent.value)
  {
    var k: nat :| k in keep && Valid(s, k) && n in Chain(s, FsTree.Owner, k);
    var c := Chain(s, FsTree.Owner, k);
    var i := IndexIn(c, n);
    ChainDrop(s, FsTree.Owner, c, i);
    ChainStart(s, FsTree.Owner, c[i..]);
    assert c[i..][1] == c[i + 1];
  }

  // ----- kept nodes stay where they are -----

  ghost predicate SameShape(a: Kind, b: Kind) {
    a == b || (a.File? && b.File?)
  }

  /** The node keeps its place, its mounts and its kind. */
  ghost predicate Pinned(s: Fs, s': Fs, n: nat) {
    && Valid(s, n) && Valid(s', n)
    && s'.nodes[n].parent == s.nodes[n].parent && SameMounts(s.nodes[n], s'.nodes[n])
    && SameShape(s.nodes[n].kind, s'.nodes[n].kind)
    && (s.nodes[n].parent.Some? ==>
          forall k: Bytes :: EntryAt(s', s.nodes[n].parent.value, k, n) <==> EntryAt(s, s.nodes[n].parent.value, k, n))
  }

  lemma PinnedQuiet(s: Fs, s': Fs, n: nat)
    requires WellFormed(s) && SameTree(s, s') && Valid(s, n)
    ensures Pinned(s, s', n)
  {
    assert SameNode(s.nodes[n], s'.nodes[n]);
    assert NodeClosed(s.nodes[n], |s.nodes|);
    if s.nodes[n].parent.Some? {
      var p := s.nodes[n].parent.value;
      assert SameNode(s.nodes[p], s'.nodes[p]);
    }
  }

  lemma PinnedCreate(s: Fs, e: Edit, n: nat)
    requires WellFormed(s) && e.Create? && Legal(s, e) && CanDo(s, e) && Valid(s, n)
    ensures Pinned(s, Do(s, e), n)
  {
    assert NodeClosed(s.nodes[n], |s.nodes|);
  }

  lemma PinnedRemove(s: Fs, s': Fs, e: Edit, n: nat)
    requires WellFormed(s) && e.Remove? && Legal(s, e) && IsRemoved(s, s', e) && Valid(s, n) && n != e.id
    ensures Pinned(s, s', n)
  {
    assert NodeRemoved(s, e, n, s'.nodes[n]);
    assert NodeClosed(s.nodes[n], |s.nodes|);
    if s.nodes[n].parent.Some? {
      assert NodeRemoved(s, e, s.nodes[n].parent.value, s'.nodes[s.nodes[n].parent.value]);
    }
  }

  lemma PinnedMove(s: Fs, s': Fs, e: Edit, n: nat)
    requires WellFormed(s) && e.Move? && Legal(s, e) && IsMoved(s, s', e) && Valid(s, n) && n != e.id && !Replaced(s, e, n)
    ensures Pinned(s, s', n)
  {
    assert NodeMoved(s, e, n, s'.nodes[n]);
    assert NodeClosed(s.nodes[n], |s.nodes|);
    if s.nodes[n].parent.Some? {
      assert NodeMoved(s, e, s.nodes[n].parent.value, s'.nodes[s.nodes[n].parent.value]);
    }
  }

  lemma PinnedEdit(s: Fs, keep: set<nat>, e: Edit, n: nat)
    requires WellFormed(s) && Legal(s, e) && Guarded(s, keep, e) && CanDo(s, e) && Valid(s, n) && Supports(s, keep, n)
    ensures Pinned(s, Do(s, e), n)
  {
    match e
    case Create(_, _, _, _) => PinnedCreate(s, e, n);
    case Move(_, _, _, _, _) => MovedIs(s, e); PinnedMove(s, Do(s, e), e, n);
    case Remove(_, _, _) => RemovedIs(s, e); PinnedRemove(s, Do(s, e), e, n);
    case _ => QuietFormed(s, e); PinnedQuiet(s, Do(s, e), n);
  }

  /** From `s` to `s'` every kept node and the directories above it stay in place, and no
      mount appears or disappears. */
  ghost predicate Kept(s: Fs, s': Fs, keep: set<nat>) {
    && WellFormed(s) && WellFormed(s') && |s.nodes| <= |s'.nodes|
    && s'.profile == s.profile && s'.fold == s.fold
    && (forall n: nat {:trigger Pinned(s, s', n)} :: Valid(s, n) && Supports(s, keep, n) ==> Pinned(s, s', n))
    && (forall n: nat :: n < |s'.nodes| ==> MountStays(s, s', n))
  }

  ghost predicate MountStays(s: Fs, s': Fs, n: nat)
    requires Valid(s', n)
  {
    if Valid(s, n) then SameMounts(s.nodes[n], s'.nodes[n])
    else s'.nodes[n].mountedBy.None? && s'.nodes[n].virtualParent.None?
  }

  lemma MountsStayAt(s: Fs, e: Edit, n: nat)
    requires WellFormed(s) && Legal(s, e) && CanDo(s, e) && Valid(Do(s, e), n)
    ensures MountStays(s, Do(s, e), n)
  {
    if e.Move? {
      MovedIs(s, e);
      assert NodeMoved(s, e, n, Do(s, e).nodes[n]);
    } else if e.Remove? {
      RemovedIs(s, e);
      assert NodeRemoved(s, e, n, Do(s, e).nodes[n]);
    }
  }

  lemma SettingsStay(s: Fs, e: Edit)
    requires CanDo(s, e)
    ensures |s.nodes| <= |Do(s, e).nodes| && Do(s, e).profile == s.profile && Do(s, e).fold == s.fold
  {
  }

  lemma EditKeeps(s: Fs, keep: set<nat>, e: Edit)
    requires WellFormed(s) && Legal(s, e) && Guarded(s, keep, e)
    ensures CanDo(s, e) && Kept(s, Do(s, e), keep)
  {
    EditFormed(s, e);
    SettingsStay(s, e);
    forall n: nat | n < |Do(s, e).nodes| ensures MountStays(s, Do(s, e), n) {
      MountsStayAt(s, e, n);
    }
    forall n: nat | Valid(s, n) && Supports(s, keep, n) ensures Pinned(s, Do(s, e), n) {
      PinnedEdit(s, keep, e, n);
    }
  }

  // ----- what that preserves -----

  lemma {:induction false} KeptChain(s: Fs, s': Fs, keep: set<nat>, n: nat)
    requires Kept(s, s', keep) && Valid(s, n) && Supports(s, keep, n)
    ensures Ends(s', FsTree.Owner, n) && Chain(s', FsTree.Owner, n) == Chain(s, FsTree.Owner, n)
    decreases |Chain(s, FsTree.Owner, n)|
  {
    assert Pinned(s, s', n);
    ChainUp(s, FsTree.Owner, n);
    ChainUp(s', FsTree.Owner, n);
    if s.nodes[n].parent.Some? {
      SupportsUp(s, keep, n);
      KeptChain(s, s', keep, s.nodes[n].parent.value);
    }
  }

  lemma KeptVisible(s: Fs, s': Fs, keep: set<nat>, n: nat)
    requires Kept(s, s', keep) && Valid(s, n) && Supports(s, keep, n)
    ensures Visible(s', n) <==> Visible(s, n)
    ensures Plain(s', n) <==> Plain(s, n)
  {
    KeptChain(s, s', keep, n);
    var c := Chain(s, FsTree.Owner, n);
    assert forall i :: 0 <= i < |c| ==> MountStays(s, s', c[i]);
  }

  lemma KeptEntry(s: Fs, s': Fs, keep: set<nat>, p: nat, k: Bytes, n: nat)
    requires Kept(s, s', keep) && Valid(s, n) && Supports(s, keep, n) && EntryAt(s, p, k, n)
    ensures EntryAt(s', p, k, n)
  {
    assert Pinned(s, s', n);
    assert NodeOk(s, p) && EntryOk(s, p, k);
  }

  lemma KeptLinked(s: Fs, s': Fs, keep: set<nat>, n: nat)
    requires Kept(s, s', keep) && Linked(s, n) && Supports(s, keep, n)
    ensures Linked(s', n) && (IsDir(s, n) ==> IsDir(s', n))
  {
    assert Pinned(s, s', n);
    if n != ROOT {
      var p := s.nodes[n].parent.value;
      var k := EntryName(s, p, n);
      assert NodeClosed(s.nodes[n], |s.nodes|);
      assert EntryAt(s, p, k, n);
      KeptEntry(s, s', keep, p, k, n);
    }
  }

  /** Every mountpoint and every mount target is among the kept nodes. */
  ghost predicate Covers(s: Fs, keep: set<nat>) {
    forall n: nat :: Valid(s, n) && (s.nodes[n].mountedBy.Some? || s.nodes[n].virtualParent.Some?) ==> n in keep
  }

  lemma KeptCovers(s: Fs, s': Fs, keep: set<nat>)
    requires Kept(s, s', keep) && Covers(s, keep)
    ensures Covers(s', keep)
  {
    forall n: nat | Valid(s', n) && (s'.nodes[n].mountedBy.Some? || s'.nodes[n].virtualParent.Some?) ensures n in keep {
      assert MountStays(s, s', n);
    }
  }

  /** The directory a mount target is reported in lies above a kept node. */
  lemma TargetParent(s: Fs, keep: set<nat>, t: nat)
    requires WellFormed(s) && Covers(s, keep) && Valid(s, t) && s.nodes[t].virtualParent.Some? && TargetOk(s, t)
    ensures var vp := s.nodes[t].virtualParent.value;
            var e := s.nodes[vp].children[s.nodes[t].mountName.value];
            && Supports(s, keep, t) && Supports(s, keep, vp) && Supports(s, keep, e)
            && EntryAt(s, vp, s.nodes[t].mountName.value, e)
  {
    var vp := s.nodes[t].virtualParent.value;
    var k := s.nodes[t].mountName.value;
    var e := s.nodes[vp].children[k];
    assert NodeOk(s, vp) && EntryOk(s, vp, k);
    SupportsSelf(s, keep, t);
    SupportsSelf(s, keep, e);
    SupportsUp(s, keep, e);
  }

  /** Alike to a lookup: the same mount on it, and still a directory if it was one. */
  ghost predicate StillThere(s: Fs, s': Fs, n: nat) {
    Valid(s, n) && Valid(s', n) && s'.nodes[n].mountedBy == s.nodes[n].mountedBy && (IsDir(s, n) ==> IsDir(s', n))
  }

  lemma ListedStays(s: Fs, s': Fs, t: nat, vp: nat, k: Bytes)
    requires Listed(s, Virtual, t, vp, k) && s'.fold == s.fold
    requires var e := s.nodes[vp].children[k]; EntryAt(s', vp, k, e) && StillThere(s, s', e)
    requires StillThere(s, s', t) && StillThere(s, s', vp)
    ensures Listed(s', Virtual, t, vp, k)
  {
  }

  lemma KeptStill(s: Fs, s': Fs, keep: set<nat>, n: nat)
    requires Kept(s, s', keep) && Valid(s, n) && Supports(s, keep, n)
    ensures StillThere(s, s', n)
  {
    assert Pinned(s, s', n);
  }

  lemma KeptListed(s: Fs, s': Fs, keep: set<nat>, t: nat, vp: nat, k: Bytes)
    requires Kept(s, s', keep) && Supports(s, keep, t) && Supports(s, keep, vp) && Listed(s, Virtual, t, vp, k)
    requires var e := s.nodes[vp].children[k]; Supports(s, keep, e) && EntryAt(s, vp, k, e)
    ensures Listed(s', Virtual, t, vp, k)
  {
    var e := s.nodes[vp].children[k];
    KeptEntry(s, s', keep, vp, k, e);
    KeptStill(s, s', keep, t);
    KeptStill(s, s', keep, e);
    KeptStill(s, s', keep, vp);
    ListedStays(s, s', t, vp, k);
  }

  lemma KeptTarget(s: Fs, s': Fs, keep: set<nat>, t: nat)
    requires Kept(s, s', keep) && Covers(s, keep) && Valid(s, t) && s.nodes[t].virtualParent.Some? && TargetOk(s, t)
    ensures s'.nodes[t].virtualParent.Some? && TargetOk(s', t)
  {
    TargetParent(s, keep, t);
    var vp := s.nodes[t].virtualParent.value;
    KeptPlace(s, s', keep, t);
    KeptPlace(s, s', keep, vp);
    KeptListed(s, s', keep, t, vp, s.nodes[t].mountName.value);
    assert MountStays(s, s', t);
  }

  lemma KeptPlace(s: Fs, s': Fs, keep: set<nat>, n: nat)
    requires Kept(s, s', keep) && Supports(s, keep, n) && Linked(s, n)
    ensures Linked(s', n) && (IsDir(s, n) ==> IsDir(s', n))
    ensures (Visible(s, n) ==> Visible(s', n)) && (Plain(s, n) ==> Plain(s', n))
  {
    KeptLinked(s, s', keep, n);
    KeptVisible(s, s', keep, n);
  }

  lemma KeptMountpoint(s: Fs, s': Fs, keep: set<nat>, m: nat)
    requires Kept(s, s', keep) && Covers(s, keep) && Valid(s, m) && s.nodes[m].mountedBy.Some? && MountpointOk(s, m)
    ensures s'.nodes[m].mountedBy.Some? && MountpointOk(s', m)
  {
    assert NodeClosed(s.nodes[m], |s.nodes|);
    var t := s.nodes[m].mountedBy.value;
    SupportsSelf(s, keep, m);
    SupportsSelf(s, keep, t);
    assert Pinned(s, s', m) && Pinned(s, s', t);
  }

  /** A change that keeps every mount node in place keeps the scaffold. */
  lemma KeptScaffold(s: Fs, s': Fs, keep: set<nat>)
    requires Scaffold(s) && Covers(s, keep) && Kept(s, s', keep)
    ensures Scaffold(s')
  {
    assert MountStays(s, s', ROOT);
    forall n | 0 <= n < |s'.nodes| && s'.nodes[n].virtualParent.Some? ensures TargetOk(s', n) {
      assert MountStays(s, s', n);
      KeptTarget(s, s', keep, n);
    }
    forall n | 0 <= n < |s'.nodes| && s'.nodes[n].mountedBy.Some? ensures MountpointOk(s', n) {
      assert MountStays(s, s', n);
      KeptMountpoint(s, s', keep, n);
    }
  }

  // ----- reported names of kept nodes -----

  /** Kept nodes keep their physical names. */
  lemma {:induction false} KeptNames(s: Fs, s': Fs, keep: set<nat>, n: nat)
    requires Kept(s, s', keep) && Linked(s, n) && Supports(s, keep, n)
    ensures Linked(s', n) && Ends(s, Reported(Physical), n) && Ends(s', Reported(Physical), n)
    ensures FullNames(s', Physical, n) == FullNames(s, Physical, n)
    decreases |Chain(s, FsTree.Owner, n)|
  {
    KeptLinked(s, s', keep, n);
    LinkedChain(s, n);
    LinkedChain(s', n);
    FullNamesUp(s, Physical, n);
    FullNamesUp(s', Physical, n);
    assert Pinned(s, s', n) && NodeOk(s, n);
    if n != ROOT {
      var p := s.nodes[n].parent.value;
      LinkedParent(s, n);
      SupportsUp(s, keep, n);
      ChainUp(s, FsTree.Owner, n);
      KeptNames(s, s', keep, p);
      var k, k' := EntryName(s, p, n), EntryName(s', p, n);
      assert EntryAt(s', p, k', n);
      assert NodeOk(s, p) && EntryOk(s, p, k);
    }
  }

  // ----- runs -----

  /** No step of the run touches a kept node or a directory above one. */
  ghost predicate SafeRun(s: Fs, keep: set<nat>, ops: seq<Op>)
    requires WellFormed(s)
    decreases |ops|
  {
    ops == [] || (Guarded(s, keep, Decide(s, ops[0]).edit) && SafeRun(Apply(s, ops[0]).0, keep, ops[1..]))
  }

  lemma StepKeeps(s: Fs, keep: set<nat>, op: Op)
    requires WellFormed(s) && Guarded(s, keep, Decide(s, op).edit)
    ensures Kept(s, Apply(s, op).0, keep)
  {
    DecideSensible(s, op);
    EditKeeps(s, keep, Decide(s, op).edit);
  }

  /** Over a whole safe run the mounts stay in place. */
  lemma {:induction false} RunScaffold(s: Fs, keep: set<nat>, ops: seq<Op>)
    requires Scaffold(s) && Covers(s, keep) && SafeRun(s, keep, ops)
    ensures Scaffold(After(s, ops)) && Covers(After(s, ops), keep)
    decreases |ops|
  {
    if ops != [] {
      var s1 := Apply(s, ops[0]).0;
      StepKeeps(s, keep, ops[0]);
      KeptScaffold(s, s1, keep);
      KeptCovers(s, s1, keep);
      RunScaffold(s1, keep, ops[1..]);
    }
  }
}
