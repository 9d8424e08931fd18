/** A successful rename relocates a whole subtree and nothing else. */
module FsRename {
  import opened Text
  import opened FsState
  import opened FsTree
  import opened FsPaths
  import opened FsReach
  import opened FsOps
  import opened FsWellFormed
  import opened FsEdits
  import opened FsIsolation
  import opened FsScaffold

  // ----- the names of single nodes -----

  /** A node in which another is reported has entries. */
  lemma UpHasEntries(s: Fs, view: View, n: nat)
    requires WellFormed(s) && Valid(s, n) && (view.Virtual? ==> Scaffold(s)) && NameAndParent(s, view, n).Some?
    ensures s.nodes[NameAndParent(s, view, n).value.1].children != map[]
  {
    if view.Virtual? && s.nodes[n].virtualParent.Some? {
      assert TargetOk(s, n);
    }
  }

  /** A node that is neither moved nor replaced is reported as before. */
  lemma NameStays(s: Fs, s': Fs, view: View, n: nat)
    requires WellFormed(s) && WellFormed(s') && Pinned(s, s', n)
    ensures NameAndParent(s', view, n) == NameAndParent(s, view, n)
  {
    if s.nodes[n].parent.Some? {
      var p := s.nodes[n].parent.value;
      assert NodeClosed(s.nodes[n], |s.nodes|);
      assert NodeClosed(s'.nodes[n], |s'.nodes|);
      if HasEntry(s, p, n) {
        var k := EntryName(s, p, n);
        assert EntryAt(s, p, k, n) && EntryAt(s', p, k, n);
        assert NodeOk(s', p) && EntryOk(s', p, k);
      }
      if HasEntry(s', p, n) {
        var k := EntryName(s', p, n);
        assert EntryAt(s', p, k, n) && EntryAt(s, p, k, n);
      }
    }
  }

  lemma NameMoved(s: Fs, s': Fs, e: Edit, view: View)
    requires WellFormed(s) && WellFormed(s') && e.Move? && Legal(s, e) && IsMoved(s, s', e)
    requires view.Virtual? ==> s.nodes[e.id].virtualParent.None?
    ensures NameAndParent(s', view, e.id) == Some((e.toKey, e.toParent))
  {
    assert NodeMoved(s, e, e.id, s'.nodes[e.id]) && NodeMoved(s, e, e.toParent, s'.nodes[e.toParent]);
    assert e.toKey in s'.nodes[e.toParent].children && s'.nodes[e.toParent].children[e.toKey] == e.id;
    assert HasEntry(s', e.toParent, e.id);
    assert NodeOk(s', e.toParent) && EntryOk(s', e.toParent, e.toKey);
  }

  // ----- the names of all nodes -----

  /** What the lemmas below assume of a move from `s` to `s'` in a view. */
  ghost predicate Moves(s: Fs, s': Fs, e: Edit, view: View) {
    && WellFormed(s) && WellFormed(s') && e.Move? && Legal(s, e) && IsMoved(s, s', e)
    && (view.Virtual? ==> Scaffold(s) && s.nodes[e.id].virtualParent.None?)
  }

  lemma UpNotReplaced(s: Fs, s': Fs, e: Edit, view: View, n: nat)
    requires Moves(s, s', e, view) && Valid(s, n) && NameAndParent(s, view, n).Some?
    ensures !Replaced(s, e, NameAndParent(s, view, n).value.1)
  {
    UpHasEntries(s, view, n);
  }

  /** Outside the moved subtree the names stay. */
  lemma {:induction false} OutsideStays(s: Fs, s': Fs, e: Edit, view: View, n: nat)
    requires Moves(s, s', e, view) && Valid(s, n) && Ends(s, Reported(view), n)
    requires e.id !in Chain(s, Reported(view), n) && !Replaced(s, e, n)
    ensures Ends(s', Reported(view), n) && FullNames(s', view, n) == FullNames(s, view, n)
    decreases |Chain(s, Reported(view), n)|
  {
    ChainUp(s, Reported(view), n);
    FullNamesUp(s, view, n);
    assert Chain(s, Reported(view), n)[0] == n;
    PinnedMove(s, s', e, n);
    NameStays(s, s', view, n);
    var np := NameAndParent(s, view, n);
    if np.Some? {
      UpNotReplaced(s, s', e, view, n);
      OutsideStays(s, s', e, view, np.value.1);
      ChainCons(s', Reported(view), n, Chain(s', Reported(view), np.value.1));
    } else {
      ChainNil(s', Reported(view), n);
    }
    FullNamesUp(s', view, n);
  }

  /** `names` with the leading part `from` replaced by `to`. */
  ghost function Relocated(names: seq<Bytes>, from: seq<Bytes>, to: seq<Bytes>): seq<Bytes>
    requires from <= names
  {
    to + names[|from|..]
  }

  lemma RelocatedSnoc(names: seq<Bytes>, k: Bytes, from: seq<Bytes>, to: seq<Bytes>)
    requires from <= names
    ensures from <= names + [k] && Relocated(names + [k], from, to) == Relocated(names, from, to) + [k]
  {
    assert (names + [k])[|from|..] == names[|from|..] + [k];
  }

  /** In the moved subtree the old name of the source is replaced by the new one. */
  lemma {:induction false} InsideMoves(s: Fs, s': Fs, e: Edit, view: View, n: nat)
    requires Moves(s, s', e, view) && Valid(s, n) && Ends(s, Reported(view), n)
    requires e.id in Chain(s, Reported(view), n) && !Replaced(s, e, n)
    requires Ends(s, Reported(view), e.toParent) && e.id !in Chain(s, Reported(view), e.toParent)
    requires !Replaced(s, e, e.toParent)
    ensures Ends(s', Reported(view), n) && Ends(s, Reported(view), e.id)
    ensures FullNames(s, view, e.id) <= FullNames(s, view, n)
    ensures FullNames(s', view, n)
            == Relocated(FullNames(s, view, n), FullNames(s, view, e.id), FullNames(s, view, e.toParent) + [e.toKey])
    decreases |Chain(s, Reported(view), n)|
  {
    if n == e.id {
      SourceMoves(s, s', e, view);
    } else {
      ChainUp(s, Reported(view), n);
      FullNamesUp(s, view, n);
      PinnedMove(s, s', e, n);
      NameStays(s, s', view, n);
      var r := NameAndParent(s, view, n).value;
      UpNotReplaced(s, s', e, view, n);
      InsideMoves(s, s', e, view, r.1);
      ChainCons(s', Reported(view), n, Chain(s', Reported(view), r.1));
      FullNamesUp(s', view, n);
      RelocatedSnoc(FullNames(s, view, r.1), r.0, FullNames(s, view, e.id), FullNames(s, view, e.toParent) + [e.toKey]);
    }
  }

  lemma SourceMoves(s: Fs, s': Fs, e: Edit, view: View)
    requires Moves(s, s', e, view) && Ends(s, Reported(view), e.toParent) && e.id !in Chain(s, Reported(view), e.toParent)
    requires !Replaced(s, e, e.toParent)
    ensures Ends(s', Reported(view), e.id) && FullNames(s', view, e.id) == FullNames(s, view, e.toParent) + [e.toKey]
  {
    OutsideStays(s, s', e, view, e.toParent);
    NameMoved(s, s', e, view);
    ChainCons(s', Reported(view), e.id, Chain(s', Reported(view), e.toParent));
    FullNamesUp(s', view, e.id);
  }

  // ----- entries -----

  /** The one node that loses its entry is the one replaced, and it has no entries of its own. */
  lemma MoveLinks(s: Fs, s': Fs, e: Edit, n: nat)
    requires WellFormed(s) && WellFormed(s') && e.Move? && Legal(s, e) && IsMoved(s, s', e) && Valid(s, n)
    ensures Linked(s', n) <==> Linked(s, n) && !Replaced(s, e, n)
    ensures Replaced(s, e, n) ==> s.nodes[n].children == map[] && (IsDir(s, n) ==> s'.nodes[n].detached)
  {
    assert NodeMoved(s, e, n, s'.nodes[n]);
    assert NodeOk(s, n) && NodeOk(s, e.fromParent) && EntryOk(s, e.fromParent, e.fromKey) && NodeOk(s, e.toParent);
    assert Replaced(s, e, n) ==> EntryOk(s, e.toParent, e.toKey);
    if n != ROOT {
      assert HasEntry(s, e.fromParent, e.id);
      MovedHas(s, s', e, s'.nodes[n].parent.value, n);
    }
  }

  lemma ParentStands(s: Fs, e: Edit)
    requires WellFormed(s) && e.Move? && Legal(s, e)
    ensures Linked(s, e.toParent) && !Replaced(s, e, e.toParent)
  {
    assert NodeOk(s, e.toParent);
  }

  // ----- the theorem, physically -----

  /** What a rename does to the physical names: below the source the old name of the source
      is replaced by the new one, every other listed node keeps its name, and the only node
      that is no longer listed is the replaced one. */
  lemma RenameRelocates(s: Fs, from: Bytes, to: Bytes, n: nat)
    requires WellFormed(s) && Decide(s, Rename(from, to)).edit.Move? && Valid(s, n)
    ensures var e := Decide(s, Rename(from, to)).edit;
            var s' := Apply(s, Rename(from, to)).0;
            && Valid(s, e.toParent) && Valid(s', n) && Linked(s, e.id) && Linked(s, e.toParent)
            && Ends(s, Reported(Physical), e.id) && Ends(s, Reported(Physical), e.toParent)
            && (Linked(s', n) <==> Linked(s, n) && !Replaced(s, e, n))
            && (Replaced(s, e, n) ==> s.nodes[n].children == map[])
            && (Linked(s', n) ==>
                  && Ends(s, Reported(Physical), n) && Ends(s', Reported(Physical), n)
                  && if IsDescendant(s, e.id, n) then
                       && FullNames(s, Physical, e.id) <= FullNames(s, Physical, n)
                       && FullNames(s', Physical, n)
                          == Relocated(FullNames(s, Physical, n), FullNames(s, Physical, e.id),
                                       FullNames(s, Physical, e.toParent) + [e.toKey])
                     else FullNames(s', Physical, n) == FullNames(s, Physical, n))
  {
    var e := Decide(s, Rename(from, to)).edit;
    DecideSensible(s, Rename(from, to));
    MoveFormed(s, e);
    MovedIs(s, e);
    MoveRelocates(s, Do(s, e), e, n);
  }

  lemma MoveRelocates(s: Fs, s': Fs, e: Edit, n: nat)
    requires WellFormed(s) && WellFormed(s') && e.Move? && Legal(s, e) && IsMoved(s, s', e) && Valid(s, n)
    ensures Linked(s, e.id) && Linked(s, e.toParent) && Ends(s, Reported(Physical), e.id) && Ends(s, Reported(Physical), e.toParent)
    ensures Linked(s', n) <==> Linked(s, n) && !Replaced(s, e, n)
    ensures Replaced(s, e, n) ==> s.nodes[n].children == map[]
    ensures Linked(s', n) ==>
              && Ends(s, Reported(Physical), n) && Ends(s', Reported(Physical), n)
              && if IsDescendant(s, e.id, n) then
                   && FullNames(s, Physical, e.id) <= FullNames(s, Physical, n)
                   && FullNames(s', Physical, n)
                      == Relocated(FullNames(s, Physical, n), FullNames(s, Physical, e.id),
                                   FullNames(s, Physical, e.toParent) + [e.toKey])
                 else FullNames(s', Physical, n) == FullNames(s, Physical, n)
  {
    MoveLinks(s, s', e, n);
    ParentStands(s, e);
    LinkedChain(s, e.toParent);
    assert NodeOk(s, e.fromParent) && EntryOk(s, e.fromParent, e.fromKey);
    assert HasEntry(s, e.fromParent, e.id);
    LinkedChain(s, e.id);
    if Linked(s', n) {
      LinkedChain(s, n);
      if IsDescendant(s, e.id, n) {
        InsideMoves(s, s', e, Physical, n);
      } else {
        OutsideStays(s, s', e, Physical, n);
      }
    }
  }

  // ----- the theorem, as the workspace sees it -----

  lemma SupportsAbove(s: Fs, keep: set<nat>, n: nat, x: nat)
    requires WellFormed(s) && Valid(s, n) && Supports(s, keep, n) && x in Chain(s, FsTree.Owner, n)
    ensures Supports(s, keep, x)
  {
    var k: nat :| k in keep && Valid(s, k) && n in Chain(s, FsTree.Owner, k);
    var c := Chain(s, FsTree.Owner, k);
    var i := IndexIn(c, n);
    ChainDrop(s, FsTree.Owner, c, i);
    ChainUnique(s, FsTree.Owner, c[i..], Chain(s, FsTree.Owner, n));
    assert x in c;
  }

  lemma NotAbove(s: Fs, keep: set<nat>, n: nat, x: nat)
    requires WellFormed(s) && Valid(s, n) && Supports(s, keep, n) && !Supports(s, keep, x)
    ensures x !in Chain(s, FsTree.Owner, n)
  {
    if x in Chain(s, FsTree.Owner, n) {
      SupportsAbove(s, keep, n, x);
    }
  }

  lemma NotKept(s: Fs, keep: set<nat>, n: nat)
    requires WellFormed(s) && Valid(s, n) && !Supports(s, keep, n)
    ensures n !in keep
  {
    if n in keep {
      SupportsSelf(s, keep, n);
    }
  }

  /** A node that supports no mount stands above `n` in the reported names exactly when it
      does along the owners. */
  lemma {:induction false} ReportedBelow(s: Fs, keep: set<nat>, id: nat, n: nat)
    requires Scaffold(s) && Covers(s, keep) && Visible(s, n) && Linked(s, n) && Ends(s, Reported(Virtual), n)
    requires !Supports(s, keep, id)
    ensures id in Chain(s, Reported(Virtual), n) <==> id in Chain(s, FsTree.Owner, n)
    decreases |Chain(s, Reported(Virtual), n)|
  {
    assert NodeOk(s, n);
    ChainUp(s, Reported(Virtual), n);
    ChainUp(s, FsTree.Owner, n);
    VisibleUp(s, n);
    if s.nodes[n].virtualParent.Some? {
      var vp := s.nodes[n].virtualParent.value;
      TargetApart(s, keep, id, n);
      ReportedBelow(s, keep, id, vp);
    } else if n != ROOT {
      LinkedParent(s, n);
      ReportedBelow(s, keep, id, s.nodes[n].parent.value);
    }
  }

  /** What supports no mount stands neither above a mount target nor above where it is reported. */
  lemma TargetApart(s: Fs, keep: set<nat>, id: nat, t: nat)
    requires Scaffold(s) && Covers(s, keep) && Valid(s, t) && s.nodes[t].virtualParent.Some? && !Supports(s, keep, id)
    ensures var vp := s.nodes[t].virtualParent.value;
            && Visible(s, vp) && Linked(s, vp)
            && id !in Chain(s, FsTree.Owner, vp) && id !in Chain(s, FsTree.Owner, t) && id != t
  {
    assert TargetOk(s, t);
    TargetParent(s, keep, t);
    NotAbove(s, keep, s.nodes[t].virtualParent.value, id);
    NotAbove(s, keep, t, id);
  }

  lemma SourceVisible(s: Fs, keep: set<nat>, e: Edit)
    requires Scaffold(s) && Covers(s, keep) && e.Move? && Legal(s, e) && Within(s, e) && Guarded(s, keep, e)
    ensures Visible(s, e.id) && Linked(s, e.id) && s.nodes[e.id].virtualParent.None?
    ensures Ends(s, Reported(Virtual), e.id) && Ends(s, Reported(Virtual), e.toParent)
  {
    assert NodeOk(s, e.fromParent) && EntryOk(s, e.fromParent, e.fromKey);
    assert HasEntry(s, e.fromParent, e.id);
    NotKept(s, keep, e.id);
    VisibleUp(s, e.id);
    VirtualSound(s, e.id);
    ParentStands(s, e);
    VirtualSound(s, e.toParent);
  }

  lemma MoveRelocatesVirtual(s: Fs, s': Fs, keep: set<nat>, e: Edit, n: nat)
    requires Moves(s, s', e, Virtual) && Covers(s, keep) && Within(s, e) && Guarded(s, keep, e)
    requires Visible(s, n) && Linked(s, n) && !Replaced(s, e, n)
    ensures Ends(s, Reported(Virtual), e.id) && Ends(s, Reported(Virtual), e.toParent)
    ensures Ends(s, Reported(Virtual), n) && Ends(s', Reported(Virtual), n)
    ensures if IsDescendant(s, e.id, n) then
              && FullNames(s, Virtual, e.id) <= FullNames(s, Virtual, n)
              && FullNames(s', Virtual, n)
                 == Relocated(FullNames(s, Virtual, n), FullNames(s, Virtual, e.id),
                              FullNames(s, Virtual, e.toParent) + [e.toKey])
            else FullNames(s', Virtual, n) == FullNames(s, Virtual, n)
  {
    SourceVisible(s, keep, e);
    ParentStands(s, e);
    VirtualSound(s, n);
    ReportedBelow(s, keep, e.id, n);
    ReportedBelow(s, keep, e.id, e.toParent);
    if IsDescendant(s, e.id, n) {
      InsideMoves(s, s', e, Virtual, n);
    } else {
      OutsideStays(s, s', e, Virtual, n);
    }
  }

  /** The same of the names that `getcwd` and `realpath` report, with the mounts in place. */
  lemma RenameRelocatesVirtual(s: Fs, keep: set<nat>, from: Bytes, to: Bytes, n: nat)
    requires Scaffold(s) && Isolated(s) && Covers(s, keep)
    requires Decide(s, Rename(from, to)).edit.Move? && Guarded(s, keep, Decide(s, Rename(from, to)).edit)
    requires Visible(s, n) && Linked(s, n) && Valid(s, Decide(s, Rename(from, to)).edit.toParent)
    requires !Replaced(s, Decide(s, Rename(from, to)).edit, n)
    ensures var e := Decide(s, Rename(from, to)).edit;
            var s' := Apply(s, Rename(from, to)).0;
            && Ends(s, Reported(Virtual), e.id) && Ends(s, Reported(Virtual), e.toParent)
            && Ends(s, Reported(Virtual), n) && Ends(s', Reported(Virtual), n)
            && if IsDescendant(s, e.id, n) then
                 && FullNames(s, Virtual, e.id) <= FullNames(s, Virtual, n)
                 && FullNames(s', Virtual, n)
                    == Relocated(FullNames(s, Virtual, n), FullNames(s, Virtual, e.id),
                                 FullNames(s, Virtual, e.toParent) + [e.toKey])
               else FullNames(s', Virtual, n) == FullNames(s, Virtual, n)
  {
    var e := Decide(s, Rename(from, to)).edit;
    DecideSensible(s, Rename(from, to));
    DecideWithin(s, Rename(from, to));
    MoveFormed(s, e);
    MovedIs(s, e);
    SourceVisible(s, keep, e);
    MoveRelocatesVirtual(s, Do(s, e), keep, e, n);
  }
}
