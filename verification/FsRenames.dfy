/** When a rename succeeds, when it does nothing, and what it leaves, told by lookups. */
module FsRenames {
  import opened Text
  import opened FsState
  import opened FsTree
  import opened FsOps
  import opened FsWellFormed
  import opened FsEdits
  import opened FsEffects
  import opened FsTakes

  /** The node that a rename of the path is about: on macOS a trailing slash means the directory
      that a link leads to. */
  ghost predicate Acts(s: Fs, path: Bytes, n: nat)
    requires Ready(s)
  {
    var at := FindParent(s, Cwd, path);
    && at.At? && Key(s, at.name) in s.nodes[at.parent].children
    && ActsAt(s, at, s.nodes[at.parent].children[Key(s, at.name)], n)
  }

  ghost predicate ActsAt(s: Fs, at: Lookup, child: nat, n: nat)
    requires Ready(s) && at.At? && Valid(s, at.parent)
  {
    Valid(s, child) &&
    if at.slash && IsMac(s) then
      var r := FollowLink(s, Virtual, at.parent, child, 0);
      r.Found? && r.node == n
    else child == n
  }

  // ----- a rename that changes nothing -----

  lemma MoveChanges(s: Fs, e: Edit)
    requires WellFormed(s) && e.Move? && Legal(s, e)
    ensures CanDo(s, e) && Do(s, e) != s
  {
    MovedIs(s, e);
    assert NodeMoved(s, e, e.toParent, Do(s, e).nodes[e.toParent]);
  }

  lemma SourceActs(s: Fs, path: Bytes)
    requires WellFormed(s) && Ready(s) && FindParent(s, Cwd, path).At? && TakeSlot(s, Cwd, FindParent(s, Cwd, path), path).Slot?
    ensures Acts(s, path, TakeSlot(s, Cwd, FindParent(s, Cwd, path), path).id)
  {
    hide Find, FindParent, FindNew, IsDetached, WellFormed;
    var at := FindParent(s, Cwd, path);
    assert NodeClosed(s.nodes[at.parent], |s.nodes|);
  }

  lemma DestActs(s: Fs, path: Bytes, fromIsDir: bool, n: nat)
    requires WellFormed(s) && Ready(s) && FindParent(s, Cwd, path).At?
    requires var dst := PutSlot(s, FindParent(s, Cwd, path), path, fromIsDir);
             dst.Dest? && dst.key in s.nodes[dst.parent].children && s.nodes[dst.parent].children[dst.key] == n
    ensures Acts(s, path, n)
  {
    hide Find, FindParent, FindNew, IsDetached, WellFormed;
    var at := FindParent(s, Cwd, path);
    assert NodeClosed(s.nodes[at.parent], |s.nodes|);
  }

  lemma RenameApplies(s: Fs, from: Bytes, to: Bytes)
    requires WellFormed(s)
    ensures var v := DoRename(s, from, to);
            && Legal(s, v.edit) && CanDo(s, v.edit) && Apply(s, Rename(from, to)) == (Do(s, v.edit), v.outcome)
            && (v.outcome.Failed? ==> v.edit == Nothing)
  {
    hide DoRename, Do, Legal, CanDo, WellFormed;
    RenameSensible(s, from, to);
    EditFormed(s, DoRename(s, from, to).edit);
  }

  /** A rename that succeeds and leaves the state as it was is about the same node at both ends. */
  lemma RenameNothing(s: Fs, from: Bytes, to: Bytes) returns (n: nat)
    requires Steady(s) && Apply(s, Rename(from, to)).1.Returned? && Apply(s, Rename(from, to)).0 == s
    ensures Acts(s, from, n) && Acts(s, to, n)
    ensures Literal(s, from) && Literal(s, to) ==> Valid(s, n) && Names(s, from, n) && Names(s, to, n)
  {
    hide Acts, TakeSlot, PutSlot, Names, Literal, FindParent, Find, MountOf, WellFormed, Apply, Do, Legal, CanDo, IsDetached, IsDescendant, MountDirs;
    RenameApplies(s, from, to);
    var v := DoRename(s, from, to);
    if v.edit.Move? {
      MoveChanges(s, v.edit);
    }
    var f, t := FindParent(s, Cwd, from), FindParent(s, Cwd, to);
    var src := TakeSlot(s, Cwd, f, from);
    n := src.id;
    assert NodeClosed(s.nodes[src.parent], |s.nodes|);
    SourceActs(s, from);
    DestActs(s, to, IsDir(s, src.id), src.id);
    if Literal(s, from) && Literal(s, to) {
      PutsLiterally(s, to, IsDir(s, n));
      ToItself(s, src, PutSlot(s, t, to, IsDir(s, n)), f.slash || t.slash);
      EndNamed(s, from, n);
      EndNamed(s, to, n);
    }
  }

  lemma ToItself(s: Fs, src: Slot, dst: Dest, slashes: bool)
    requires WellFormed(s) && src.Slot? && dst.Dest? && IsDir(s, dst.parent) && Valid(s, src.parent) && Valid(s, src.id)
    requires RenameTo(s, src, dst, slashes) == Ok(Nothing, 0)
    ensures dst.key in s.nodes[dst.parent].children && s.nodes[dst.parent].children[dst.key] == src.id
    ensures slashes && !IsMac(s) ==> IsDir(s, src.id)
  {
    hide MountOf, IsDetached, IsDescendant, WellFormed;
  }

  lemma EndNamed(s: Fs, path: Bytes, n: nat)
    requires Steady(s) && Literal(s, path) && Acts(s, path, n) && (FindParent(s, Cwd, path).slash ==> IsDir(s, n))
    ensures Valid(s, n) && Names(s, path, n)
  {
    hide Names, FindParent, Find;
    EntryNamed(s, path, n);
  }

  // ----- when a rename succeeds -----

  /** Nothing but the second name itself may stand against renaming `a`: its directory is live, on
      the same filesystem and not below `a`, and only directories go by a name with a slash. */
  ghost predicate MayGo(s: Fs, f: Lookup, t: Lookup, a: nat)
    requires WellFormed(s)
  {
    && f.At? && t.At? && LookupHits(s, f, a) && IsDir(s, t.parent)
    && MountOf(s, f.parent) == MountOf(s, t.parent) && !IsDetached(s, t.parent) && !IsDescendant(s, a, t.parent)
    && (f.slash || t.slash ==> IsDir(s, a))
  }

  /** The name is free, or names `a` already, or a node that `a` may replace: alike in kind, empty, and
      on Linux not above `a`. */
  ghost predicate MayTake(s: Fs, t: Lookup, a: nat)
    requires WellFormed(s) && t.At? && IsDir(s, t.parent) && Valid(s, a)
  {
    Key(s, t.name) in s.nodes[t.parent].children ==>
      var b := s.nodes[t.parent].children[Key(s, t.name)];
      b == a || (Valid(s, b) && (IsMac(s) || !IsDescendant(s, b, a)) && (IsDir(s, b) <==> IsDir(s, a)) && s.nodes[b].children == map[])
  }

  lemma TakesEntry(s: Fs, path: Bytes, a: nat)
    requires WellFormed(s) && Ready(s) && Literal(s, path) && LookupHits(s, FindParent(s, Cwd, path), a)
    ensures var at := FindParent(s, Cwd, path);
            TakeSlot(s, Cwd, at, path) == if at.slash && IsMac(s) && !IsDir(s, a) then NoSlot(ENOTDIR) else Slot(at.parent, Key(s, at.name), a)
  {
    hide Find, FindParent, FindNew, IsDetached, WellFormed;
  }

  lemma PutsEntry(s: Fs, path: Bytes, fromIsDir: bool)
    requires WellFormed(s) && Ready(s) && Literal(s, path) && FindParent(s, Cwd, path).At?
    ensures var at := FindParent(s, Cwd, path);
            var k := Key(s, at.name);
            PutSlot(s, at, path, fromIsDir)
            == if !at.slash || !IsMac(s) then Dest(at.parent, k)
               else if k !in s.nodes[at.parent].children then (if fromIsDir then Dest(at.parent, k) else NoDest(ENOENT))
               else if IsDir(s, s.nodes[at.parent].children[k]) then Dest(at.parent, k)
               else NoDest(ENOTDIR)
  {
    hide Find, FindParent, FindNew, IsDetached, WellFormed;
    var at := FindParent(s, Cwd, path);
    assert NodeClosed(s.nodes[at.parent], |s.nodes|);
  }

  /** The rename once both ends are known to be literal. */
  lemma RenameComes(s: Fs, from: Bytes, to: Bytes, a: nat)
    requires Steady(s) && Literal(s, from) && Literal(s, to)
    requires LookupHits(s, FindParent(s, Cwd, from), a) && FindParent(s, Cwd, to).At?
    ensures var f, t := FindParent(s, Cwd, from), FindParent(s, Cwd, to);
            var v := DoRename(s, from, to);
            if IsMac(s) && (f.slash || t.slash) && !IsDir(s, a) then v.outcome.Failed?
            else v == RenameTo(s, Slot(f.parent, Key(s, f.name), a), Dest(t.parent, Key(s, t.name)), f.slash || t.slash)
                 || (v.outcome.Failed? && IsMac(s) && t.slash && OnFile(s, t))
  {
    hide Find, FindParent, TakeSlot, PutSlot, RenameTo, Literal, MountDirs, WellFormed;
    var f, t := FindParent(s, Cwd, from), FindParent(s, Cwd, to);
    TakesEntry(s, from, a);
    PutsEntry(s, to, IsDir(s, a));
    RootNoParent(s, from);
    RootNoParent(s, to);
    if IsMac(s) && t.slash && !f.slash && !IsDir(s, a) && PutSlot(s, t, to, IsDir(s, a)).Dest? {
      OntoDir(s, Slot(f.parent, Key(s, f.name), a), Dest(t.parent, Key(s, t.name)), t.slash);
    }
  }

  ghost predicate OnFile(s: Fs, t: Lookup)
    requires t.At? && Valid(s, t.parent)
  {
    var k := Key(s, t.name);
    k in s.nodes[t.parent].children && !IsDir(s, s.nodes[t.parent].children[k])
  }

  lemma OntoDir(s: Fs, src: Slot, dst: Dest, slashes: bool)
    requires WellFormed(s) && src.Slot? && dst.Dest? && IsDir(s, dst.parent) && Valid(s, src.parent) && Valid(s, src.id)
    requires !IsDir(s, src.id) && dst.key in s.nodes[dst.parent].children && IsDir(s, s.nodes[dst.parent].children[dst.key])
    ensures RenameTo(s, src, dst, slashes).outcome.Failed?
  {
    hide MountOf, IsDetached, IsDescendant, WellFormed;
  }

  lemma RootNoParent(s: Fs, path: Bytes)
    requires Ready(s)
    ensures IsRootOperand(path) ==> FindParent(s, Cwd, path).Bad?
  {
    hide Find;
    if IsRootOperand(path) {
      assert TrimEnd(path) == 0;
    }
  }

  /** The checks of a rename come to the two conditions. */
  lemma ChecksAre(s: Fs, f: Lookup, t: Lookup, a: nat)
    requires WellFormed(s) && f.At? && t.At? && LookupHits(s, f, a) && IsDir(s, t.parent)
    ensures var v := RenameTo(s, Slot(f.parent, Key(s, f.name), a), Dest(t.parent, Key(s, t.name)), f.slash || t.slash);
            var slashed := IsMac(s) && (f.slash || t.slash) && !IsDir(s, a);
            && (v.outcome == Returned(0, []) || v.outcome.Failed?)
            && (!slashed ==> (v.outcome == Returned(0, []) <==> MayGo(s, f, t, a) && MayTake(s, t, a)))
            && (slashed ==> !MayGo(s, f, t, a))
            && (v.outcome == Returned(0, []) ==>
                  v.edit == if LookupHits(s, t, a) then Nothing else Move(f.parent, Key(s, f.name), a, t.parent, Key(s, t.name)))
  {
    hide MountOf, IsDetached;
    assert NodeOk(s, t.parent);
    assert Chain(s, FsTree.Owner, t.parent)[0] == t.parent;
    var k := Key(s, t.name);
    if k in s.nodes[t.parent].children {
      assert EntryOk(s, t.parent, k);
      assert NodeOk(s, s.nodes[t.parent].children[k]);
    }
  }

  /** For literal paths a rename succeeds exactly when nothing stands against it. */
  lemma RenameIff(s: Fs, from: Bytes, to: Bytes, a: nat)
    requires Steady(s) && Literal(s, from) && Literal(s, to)
    requires LookupHits(s, FindParent(s, Cwd, from), a) && FindParent(s, Cwd, to).At?
    ensures var f, t := FindParent(s, Cwd, from), FindParent(s, Cwd, to);
            var v := DoRename(s, from, to);
            && (v.outcome == Returned(0, []) || v.outcome.Failed?)
            && (v.outcome == Returned(0, []) <==> MayGo(s, f, t, a) && MayTake(s, t, a))
            && (v.outcome == Returned(0, []) ==>
                  v.edit == if LookupHits(s, t, a) then Nothing else Move(f.parent, Key(s, f.name), a, t.parent, Key(s, t.name)))
  {
    hide Find, FindParent, DoRename, RenameTo, Literal, MountDirs, WellFormed, IsDetached, IsDescendant, MountOf;
    var f, t := FindParent(s, Cwd, from), FindParent(s, Cwd, to);
    RenameComes(s, from, to, a);
    ChecksAre(s, f, t, a);
    FileTarget(s, f, t, a);
  }

  lemma FileTarget(s: Fs, f: Lookup, t: Lookup, a: nat)
    requires WellFormed(s) && f.At? && t.At? && LookupHits(s, f, a) && IsDir(s, t.parent)
    ensures t.slash && OnFile(s, t) ==> !(MayGo(s, f, t, a) && MayTake(s, t, a))
  {
    hide MountOf, IsDetached, IsDescendant, WellFormed;
  }

  // ----- what a rename leaves -----

  /** No directory lists the node. */
  ghost predicate Unlisted(s: Fs, n: nat) {
    forall p: nat :: Valid(s, p) ==> !HasEntry(s, p, n)
  }

  /** A node that is replaced was listed there only, and is listed nowhere afterwards. */
  lemma ReplacedGone(s: Fs, e: Edit, b: nat)
    requires WellFormed(s) && e.Move? && Legal(s, e) && EntryAt(s, e.toParent, e.toKey, b) && b != e.id
    ensures CanDo(s, e) && Unlisted(Do(s, e), b)
  {
    MovedIs(s, e);
    var s' := Do(s, e);
    forall p: nat | Valid(s', p) ensures !HasEntry(s', p, b) {
      assert NodeMoved(s, e, p, s'.nodes[p]);
      forall k | k in s'.nodes[p].children ensures s'.nodes[p].children[k] != b {
        if !(p == e.toParent && k == e.toKey) {
          OnlyThere(s, e.toParent, e.toKey, b, p, k);
        }
      }
    }
  }

  lemma OnlyThere(s: Fs, p: nat, k: Bytes, n: nat, q: nat, j: Bytes)
    requires WellFormed(s) && EntryAt(s, p, k, n) && Valid(s, q) && j in s.nodes[q].children
    ensures s.nodes[q].children[j] == n ==> p == q && k == j
  {
    assert NodeOk(s, p) && NodeOk(s, q);
    assert EntryOk(s, p, k) && EntryOk(s, q, j);
  }

  /** What a successful rename of `a` leaves: the second path names `a` and the first nothing, unless
      both did already, and what the second named is listed nowhere. Each path must not reach its
      directory through what is moved. */
  ghost predicate Renamed(s: Fs, s': Fs, from: Bytes, to: Bytes, a: nat)
    requires Steady(s) && Steady(s') && Valid(s, a) && Valid(s', a)
    requires LookupHits(s, FindParent(s, Cwd, from), a) && FindParent(s, Cwd, to).At?
  {
    var f, t := FindParent(s, Cwd, from), FindParent(s, Cwd, to);
    var e := Move(f.parent, Key(s, f.name), a, t.parent, Key(s, t.name));
    && Names(s, from, a)
    && (if LookupHits(s, t, a) then s' == s && Names(s', to, a)
        else
          && (AvoidsDir(s, e, to) ==> Names(s', to, a))
          && (AvoidsDir(s, e, from) ==> Find(s', Cwd, from, false) == Missing(ENOENT))
          && (forall b :: LookupHits(s, t, b) ==> Unlisted(s', b)))
  }

  lemma SameStays(s: Fs, from: Bytes, to: Bytes, a: nat)
    requires Steady(s) && Literal(s, from) && Literal(s, to) && LookupHits(s, FindParent(s, Cwd, from), a)
    requires MayGo(s, FindParent(s, Cwd, from), FindParent(s, Cwd, to), a) && LookupHits(s, FindParent(s, Cwd, to), a)
    ensures Valid(s, a) && Renamed(s, s, from, to, a)
  {
    hide Find, FindParent, Names, Literal, MountDirs, WellFormed, IsDetached, IsDescendant, MountOf;
    EntryNamed(s, from, a);
    EntryNamed(s, to, a);
  }

  lemma MoveStays(s: Fs, from: Bytes, to: Bytes, a: nat)
    requires Steady(s) && Literal(s, from) && Literal(s, to)
    requires LookupHits(s, FindParent(s, Cwd, from), a) && FindParent(s, Cwd, to).At? && !LookupHits(s, FindParent(s, Cwd, to), a)
    requires var f, t := FindParent(s, Cwd, from), FindParent(s, Cwd, to);
             DoRename(s, from, to).edit == Move(f.parent, Key(s, f.name), a, t.parent, Key(s, t.name))
    ensures var e := DoRename(s, from, to).edit;
            CanDo(s, e) && Steady(Do(s, e)) && Valid(s, a) && Valid(Do(s, e), a) && Renamed(s, Do(s, e), from, to, a)
  {
    hide Find, FindParent, DoRename, Names, Literal, MountDirs, WellFormed, AvoidsDir, Do, Unlisted;
    var t, e := FindParent(s, Cwd, to), DoRename(s, from, to).edit;
    RenameSensible(s, from, to);
    RenameSeen(s, from, to);
    forall b | LookupHits(s, t, b) ensures Unlisted(Do(s, e), b) {
      ReplacedGone(s, e, b);
    }
  }

  /** For literal paths: a rename succeeds exactly when nothing stands against it and else changes
      nothing; when it succeeds, the second path names what the first did. */
  lemma RenameWorks(s: Fs, from: Bytes, to: Bytes, a: nat)
    requires Steady(s) && Literal(s, from) && Literal(s, to)
    requires LookupHits(s, FindParent(s, Cwd, from), a) && FindParent(s, Cwd, to).At?
    ensures var f, t := FindParent(s, Cwd, from), FindParent(s, Cwd, to);
            var (s', outcome) := Apply(s, Rename(from, to));
            if MayGo(s, f, t, a) && MayTake(s, t, a)
            then outcome == Returned(0, []) && Steady(s') && Valid(s', a) && Renamed(s, s', from, to, a)
            else outcome.Failed? && s' == s
  {
    hide Find, FindParent, DoRename, Names, Literal, WellFormed, Apply, Renamed, MayGo, MayTake, LookupHits, Legal;
    RenameApplies(s, from, to);
    RenameIff(s, from, to, a);
    if DoRename(s, from, to).outcome.Returned? {
      if LookupHits(s, FindParent(s, Cwd, to), a) {
        SameStays(s, from, to, a);
      } else {
        MoveStays(s, from, to, a);
      }
    }
  }

  /** With `a` at the first path and `b` at the second, neither text ending in a slash, and the second
      directory live: why the rename is refused. */
  lemma RenameRefused(s: Fs, from: Bytes, to: Bytes, a: nat, b: nat)
    requires Steady(s) && LookupHits(s, FindParent(s, Cwd, from), a) && LookupHits(s, FindParent(s, Cwd, to), b)
    requires !FindParent(s, Cwd, from).slash && !FindParent(s, Cwd, to).slash && b != a
    ensures var f, t := FindParent(s, Cwd, from), FindParent(s, Cwd, to);
            var outcome := Apply(s, Rename(from, to)).1;
            if MountOf(s, f.parent) != MountOf(s, t.parent) then outcome == Failed(EXDEV)
            else if IsDetached(s, t.parent) then outcome == Failed(ENOENT)
            else if IsDescendant(s, a, t.parent) then outcome == Failed(EINVAL)
            else
              && (IsDescendant(s, b, a) && !IsMac(s) ==> outcome == Failed(ENOTEMPTY))
              && (!IsDescendant(s, b, a) || IsMac(s) ==>
                    && (IsDir(s, a) && !IsDir(s, b) ==> outcome == Failed(ENOTDIR))
                    && (!IsDir(s, a) && IsDir(s, b) ==> outcome == Failed(EISDIR))
                    && (IsDir(s, a) && IsDir(s, b) && s.nodes[b].children != map[] ==> outcome == Failed(ENOTEMPTY)))
  {
    hide Find, FindParent, MountDirs, Do, Apply, Legal, IsDetached, MountOf;
    RenameApplies(s, from, to);
    RootNoParent(s, from);
    RootNoParent(s, to);
    var t := FindParent(s, Cwd, to);
    assert Chain(s, FsTree.Owner, t.parent)[0] == t.parent;
  }

  /** Without a source there is no rename. */
  lemma RenameMissing(s: Fs, from: Bytes, to: Bytes)
    requires Steady(s) && FindParent(s, Cwd, from).At? && !IsRootOperand(to) && Find(s, Cwd, from, false) == Missing(ENOENT)
    requires !FindParent(s, Cwd, from).slash
    ensures Apply(s, Rename(from, to)) == (s, Failed(ENOENT))
  {
    hide Find, FindParent, WellFormed, MountDirs, Do, Apply, Legal, IsDetached, MountOf;
    RenameApplies(s, from, to);
    RootNoParent(s, from);
    var _ := LastIs(s, from);
  }
}
