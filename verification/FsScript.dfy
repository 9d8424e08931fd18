/** Steps for following a given run call by call. */
module FsScript {
  import opened Text
  import opened FsState
  import opened FsTree
  import opened FsPaths
  import opened FsOps
  import opened FsWellFormed
  import opened FsEdits

  // ----- lookups -----

  lemma SplitLastOf(dir: Bytes, name: Bytes)
    requires IsName(name)
    ensures SplitLast(dir + [SLASH] + name) == PathParts(if dir == [] then [SLASH] else dir, name, false)
    ensures !IsRootOperand(dir + [SLASH] + name)
  {
    var path := dir + [SLASH] + name;
    assert path[|dir|] == SLASH;
    forall j | |dir| < j < |path| ensures path[j] != SLASH {
      assert path[j] == name[j - |dir| - 1];
    }
    assert path[|path| - 1] != SLASH;
    var last := SlashBefore(path, |path|);
    assert last == Some(|dir|);
    assert path[..|dir|] == dir && path[|dir| + 1..|path|] == name;
  }

  lemma RootFound(s: Fs)
    requires Ready(s) && s.nodes[ROOT].mountedBy.None?
    ensures Find(s, Cwd, [SLASH], true) == Found(ROOT, 0)
  {
    CompsLeading([]);
    CompsEmpty();
    assert [SLASH] + [] == [SLASH];
    assert FsState.Enter(s, Virtual, ROOT) == ROOT;
    assert Walk(s, Virtual, ROOT, [], true, false, 0) == Found(ROOT, 0);
    assert Resolve(s, Virtual, s.cwd, [SLASH], true, 0) == Found(ROOT, 0);
  }

  /** A directory listed at the top, looked up by its path. */
  lemma TopFound(s: Fs, k: Bytes, n: nat)
    requires Ready(s) && s.nodes[ROOT].mountedBy.None? && Listed(s, Virtual, n, ROOT, k) && IsDir(s, n)
    ensures Find(s, Cwd, [SLASH] + k, true) == Found(n, 0)
  {
    CompsLeading(k);
    CompsSingle(k);
    assert ([SLASH] + k)[|k|] == k[|k| - 1];
    WalkOne(s, Virtual, n, ROOT, k, true, false, 0);
  }

  /** A name at the top. */
  lemma TopParent(s: Fs, k: Bytes)
    requires Ready(s) && s.nodes[ROOT].mountedBy.None? && IsDir(s, ROOT) && IsName(k) && |k| <= NAME_MAX
    ensures FindParent(s, Cwd, [SLASH] + k) == At(ROOT, k, false) && !IsRootOperand([SLASH] + k)
  {
    SplitLastOf([], k);
    assert [] + [SLASH] + k == [SLASH] + k;
    RootFound(s);
  }

  /** A name one directory down. */
  lemma DownParent(s: Fs, d: Bytes, p: nat, k: Bytes)
    requires Ready(s) && s.nodes[ROOT].mountedBy.None? && Listed(s, Virtual, p, ROOT, d) && IsDir(s, p) && IsName(k) && |k| <= NAME_MAX
    ensures FindParent(s, Cwd, [SLASH] + d + [SLASH] + k) == At(p, k, false) && !IsRootOperand([SLASH] + d + [SLASH] + k)
  {
    SplitLastOf([SLASH] + d, k);
    TopFound(s, d, p);
    assert ([SLASH] + d)[0] != DOT[0];
  }

  lemma {:induction false} LinkedLive(s: Fs, n: nat)
    requires WellFormed(s) && Linked(s, n) && IsDir(s, n)
    ensures !IsDetached(s, n)
    decreases |Chain(s, FsTree.Owner, n)|
  {
    ChainUp(s, FsTree.Owner, n);
    assert NodeOk(s, n);
    if n != ROOT {
      LinkedParent(s, n);
      var p := s.nodes[n].parent.value;
      LinkedLive(s, p);
      var c, d := Chain(s, FsTree.Owner, n), Chain(s, FsTree.Owner, p);
      assert c[0] == n && forall i :: 0 < i < |c| ==> c[i] == d[i - 1];
    }
  }

  // ----- renames -----

  lemma RenameIs(s: Fs, f: Lookup, t: Lookup, id: nat, from: Bytes, to: Bytes)
    requires WellFormed(s) && Ready(s) && f.At? && t.At? && !f.slash && !t.slash
    requires FindParent(s, Cwd, from) == f && FindParent(s, Cwd, to) == t && !IsRootOperand(from) && !IsRootOperand(to)
    requires Valid(s, f.parent) && Valid(s, t.parent) && MountOf(s, f.parent) == MountOf(s, t.parent)
    requires EntryAt(s, f.parent, Key(s, f.name), id) && Key(s, t.name) !in s.nodes[t.parent].children
    requires !IsDetached(s, t.parent) && id !in Chain(s, FsTree.Owner, t.parent)
    ensures DoRename(s, from, to) == Ok(Move(f.parent, Key(s, f.name), id, t.parent, Key(s, t.name)), 0)
  {
    assert Chain(s, FsTree.Owner, t.parent)[0] == t.parent;
  }

  /** A rename between directories on different mounts fails. */
  lemma RenameCrosses(s: Fs, f: Lookup, t: Lookup, id: nat, from: Bytes, to: Bytes)
    requires WellFormed(s) && Ready(s) && f.At? && t.At? && !f.slash && !t.slash
    requires FindParent(s, Cwd, from) == f && FindParent(s, Cwd, to) == t && !IsRootOperand(from) && !IsRootOperand(to)
    requires Valid(s, f.parent) && Valid(s, t.parent) && EntryAt(s, f.parent, Key(s, f.name), id)
    requires MountOf(s, f.parent) != MountOf(s, t.parent)
    ensures DoRename(s, from, to) == Err(EXDEV)
  {
  }

  // ----- outcomes -----

  lemma CallApplies(s: Fs, op: Op, e: Edit)
    requires WellFormed(s) && Decide(s, op) == Ok(e, 0)
    ensures Legal(s, e) && CanDo(s, e) && Apply(s, op) == (Do(s, e), Returned(0, []))
  {
    DecideSensible(s, op);
    EditFormed(s, e);
  }

  lemma OutcomesOn(s: Fs, op: Op, rest: seq<Op>, next: Fs, o: Outcome)
    requires WellFormed(s) && Apply(s, op) == (next, o)
    ensures WellFormed(next) && Outcomes(s, [op] + rest) == [o] + Outcomes(next, rest)
  {
    assert ([op] + rest)[1..] == rest;
  }

  lemma OneOutcome(s: Fs, op: Op, next: Fs, o: Outcome)
    requires WellFormed(s) && Apply(s, op) == (next, o)
    ensures Outcomes(s, [op]) == [o]
  {
    assert [op] + [] == [op];
    OutcomesOn(s, op, [], next, o);
    NoOutcomes(next);
  }

  lemma NoOutcomes(s: Fs)
    requires WellFormed(s)
    ensures Outcomes(s, []) == []
  {
  }
}
