/** The trees a new model starts from satisfy what the theorems assume. */
module FsFresh {
  import opened Text
  import opened TmpPath
  import opened FsState
  import opened FsTree
  import opened FsPaths
  import opened FsReach
  import opened FsOps
  import opened FsIsolation
  import opened FsSprout
  import opened MacTree

  /** Node `i` of a new macOS model whose temp root has the names `root`: the skeleton of the
      host, the directories down to the anchor, and the private temp directories. */
  function MacNode(root: seq<Bytes>, i: nat): Node
    requires root != [] && i < 10 + |root|
  {
    var n := |root|;
    if i == 0 then Plainly(Dir, None, map[PRIVATE := 1, TMP := 5, VAR := 6, root[0] := 7])
    else if i == 1 then Plainly(Dir, Some(0), map[VAR := 2, TMP := 3])
    else if i == 2 then Plainly(Dir, Some(1), map[TMP := 4])
    else if i == 3 then Plainly(Opaque, Some(1), map[]).(mountedBy := Some(7 + n))
    else if i == 4 then Plainly(Opaque, Some(2), map[]).(mountedBy := Some(9 + n))
    else if i == 5 then Plainly(Symlink(PRIVATE_TMP), Some(0), map[])
    else if i == 6 then Plainly(Symlink(PRIVATE_VAR), Some(0), map[])
    else if i < 7 + n then
      Plainly(Dir, Some(if i == 7 then 0 else i - 1),
              if i == 6 + n then map[TMP := 7 + n, VAR := 8 + n] else map[root[i - 6] := i + 1])
    else if i == 7 + n then Plainly(Dir, Some(6 + n), map[]).(virtualParent := Some(1), mountName := Some(TMP))
    else if i == 8 + n then Plainly(Dir, Some(6 + n), map[TMP := 9 + n])
    else Plainly(Dir, Some(8 + n), map[]).(virtualParent := Some(2), mountName := Some(TMP))
  }

  /** `fold`: names are looked up without regard to case. */
  function MacFresh(root: seq<Bytes>, fold: bool): Fs
    requires root != []
  {
    Fs(seq(10 + |root|, i requires 0 <= i < 10 + |root| => MacNode(root, i)), MacShim(Slashed(root)), fold, ROOT, map[], 3)
  }

  /** No letter in it is folded. */
  predicate Folded(name: Bytes) {
    forall i :: 0 <= i < |name| ==> Lower(name[i]) == name[i]
  }

  /** Names a directory may have, the first of them new at the root. */
  predicate NewRoot(root: seq<Bytes>, fold: bool) {
    && root != [] && root[0] !in {PRIVATE, TMP, VAR}
    && forall i :: 0 <= i < |root| ==> IsName(root[i]) && |root[i]| <= NAME_MAX && (fold ==> Folded(root[i]))
  }

  lemma FoldedKey(s: Fs, name: Bytes)
    requires s.fold ==> Folded(name)
    ensures Key(s, name) == name
  {
  }

  lemma FreshEntries(root: seq<Bytes>, fold: bool, n: nat)
    requires NewRoot(root, fold) && n < 10 + |root|
    ensures var s := MacFresh(root, fold); forall k :: k in s.nodes[n].children ==> EntryOk(s, n, k)
  {
    RailNames();
    RailKeys();
    var s := MacFresh(root, fold);
    forall i | 0 <= i < |root| ensures Key(s, root[i]) == root[i] {
      FoldedKey(s, root[i]);
    }
    forall k | k in s.nodes[n].children ensures EntryOk(s, n, k) {
      assert k in MacNode(root, n).children;
    }
  }

  /** The directory and name under which a node is listed. */
  lemma FreshListed(root: seq<Bytes>, fold: bool, n: nat)
    requires NewRoot(root, fold) && 0 < n < 10 + |root|
    ensures var s := MacFresh(root, fold);
            s.nodes[n].parent.Some? && s.nodes[n].parent.value < n && HasEntry(s, s.nodes[n].parent.value, n)
  {
    RailNames();
    RailKeys();
    var s := MacFresh(root, fold);
    var r := |root|;
    var k := if n == 1 then PRIVATE else if n == 2 || n == 6 || n == 8 + r then VAR
             else if 7 <= n < 7 + r then root[n - 7] else TMP;
    var p := s.nodes[n].parent.value;
    assert k in s.nodes[p].children && s.nodes[p].children[k] == n;
  }

  lemma FreshSprout(root: seq<Bytes>, fold: bool)
    requires NewRoot(root, fold)
    ensures Sprout(MacFresh(root, fold))
  {
    var s := MacFresh(root, fold);
    forall n: nat | Valid(s, n) ensures SproutNode(s, n) {
      FreshEntries(root, fold, n);
      if n > 0 {
        FreshListed(root, fold, n);
      }
    }
  }

  lemma FreshFormed(root: seq<Bytes>, fold: bool)
    requires NewRoot(root, fold)
    ensures WellFormed(MacFresh(root, fold))
  {
    FreshSprout(root, fold);
    SproutFormed(MacFresh(root, fold));
  }

  /** Everything but the two mountpoints is visible, and everything outside the private temp
      directories is plain. */
  lemma {:induction false} FreshVisible(root: seq<Bytes>, fold: bool, n: nat)
    requires NewRoot(root, fold) && WellFormed(MacFresh(root, fold)) && n < 10 + |root| && n != 3 && n != 4
    ensures Visible(MacFresh(root, fold), n)
    ensures n != 7 + |root| && n != 9 + |root| ==> Plain(MacFresh(root, fold), n)
  {
    FreshSprout(root, fold);
    SproutVisible(MacFresh(root, fold), n);
    assert MacFresh(root, fold).nodes[n] == MacNode(root, n);
    if n > 0 {
      FreshVisible(root, fold, MacFresh(root, fold).nodes[n].parent.value);
    }
  }

  lemma FreshLinked(root: seq<Bytes>, fold: bool, n: nat)
    requires NewRoot(root, fold) && n < 10 + |root|
    ensures Linked(MacFresh(root, fold), n)
  {
    if n > 0 {
      FreshListed(root, fold, n);
    }
  }

  lemma FreshTarget(root: seq<Bytes>, fold: bool, t: nat)
    requires NewRoot(root, fold) && WellFormed(MacFresh(root, fold)) && (t == 7 + |root| || t == 9 + |root|)
    ensures var s := MacFresh(root, fold); s.nodes[t].virtualParent.Some? && TargetOk(s, t)
  {
    RailNames();
    RailKeys();
    FreshVisible(root, fold, t);
    FreshLinked(root, fold, t);
    var vp := MacFresh(root, fold).nodes[t].virtualParent.value;
    FreshVisible(root, fold, vp);
    FreshLinked(root, fold, vp);
  }

  lemma FreshScaffold(root: seq<Bytes>, fold: bool)
    requires NewRoot(root, fold)
    ensures Scaffold(MacFresh(root, fold))
  {
    FreshFormed(root, fold);
    var s := MacFresh(root, fold);
    forall n | 0 <= n < |s.nodes| && s.nodes[n].virtualParent.Some? ensures TargetOk(s, n) {
      FreshTarget(root, fold, n);
    }
    forall n | 0 <= n < |s.nodes| && s.nodes[n].mountedBy.Some? ensures MountpointOk(s, n) {
    }
  }

  ghost function Down(root: seq<Bytes>, k: nat): nat {
    if k == 0 then ROOT else 6 + k
  }

  lemma FreshName(root: seq<Bytes>, fold: bool, k: nat)
    requires NewRoot(root, fold) && WellFormed(MacFresh(root, fold)) && 0 < k <= |root|
    ensures NameAndParent(MacFresh(root, fold), Physical, Down(root, k)) == Some((root[k - 1], Down(root, k - 1)))
  {
    var s := MacFresh(root, fold);
    var n, p := Down(root, k), Down(root, k - 1);
    assert s.nodes[n] == MacNode(root, n) && s.nodes[p] == MacNode(root, p);
    assert s.nodes[n].parent == Some(p);
    assert root[k - 1] in s.nodes[p].children && s.nodes[p].children[root[k - 1]] == n;
    assert HasEntry(s, p, n);
    assert NodeOk(s, p) && EntryOk(s, p, root[k - 1]);
  }

  /** The physical names of the directories down to the anchor. */
  lemma {:induction false} FreshNames(root: seq<Bytes>, fold: bool, k: nat)
    requires NewRoot(root, fold) && WellFormed(MacFresh(root, fold)) && k <= |root|
    ensures Ends(MacFresh(root, fold), Reported(Physical), Down(root, k))
    ensures FullNames(MacFresh(root, fold), Physical, Down(root, k)) == root[..k]
  {
    FreshLinked(root, fold, Down(root, k));
    LinkedChain(MacFresh(root, fold), Down(root, k));
    if k > 0 {
      FreshNames(root, fold, k - 1);
      FreshName(root, fold, k);
      NamesMore(MacFresh(root, fold), root, Down(root, k), Down(root, k - 1), k);
    } else {
      FreshTop(root, fold);
      FullNamesUp(MacFresh(root, fold), Physical, ROOT);
    }
  }

  lemma NamesMore(s: Fs, root: seq<Bytes>, n: nat, p: nat, k: nat)
    requires WellFormed(s) && Valid(s, n) && 0 < k <= |root| && Ends(s, Reported(Physical), n) && Ends(s, Reported(Physical), p)
    requires NameAndParent(s, Physical, n) == Some((root[k - 1], p)) && FullNames(s, Physical, p) == root[..k - 1]
    ensures FullNames(s, Physical, n) == root[..k]
  {
    FullNamesUp(s, Physical, n);
    assert root[..k] == root[..k - 1] + [root[k - 1]];
  }

  lemma FreshTop(root: seq<Bytes>, fold: bool)
    requires NewRoot(root, fold) && WellFormed(MacFresh(root, fold))
    ensures NameAndParent(MacFresh(root, fold), Physical, ROOT) == None
  {
    assert NodeOk(MacFresh(root, fold), ROOT);
  }

  function FreshSkeleton(root: seq<Bytes>): Skeleton {
    Skeleton(1, 2, 6 + |root|, 8 + |root|, 7 + |root|, 9 + |root|)
  }

  lemma FreshSpots(root: seq<Bytes>, fold: bool)
    requires NewRoot(root, fold)
    ensures var s, r := MacFresh(root, fold), |root|;
            && EntryIs(s, ROOT, PRIVATE, 1) && EntryIs(s, 1, VAR, 2)
            && LinkIs(s, ROOT, TMP, PRIVATE_TMP) && LinkIs(s, ROOT, VAR, PRIVATE_VAR)
            && IsDir(s, 1) && IsDir(s, 2) && IsDir(s, 8 + r)
  {
    RailNames();
    RailKeys();
  }

  lemma FreshPrivate(root: seq<Bytes>, fold: bool)
    requires NewRoot(root, fold)
    ensures var s, r := MacFresh(root, fold), |root|;
            && EntryIs(s, 6 + r, VAR, 8 + r) && EntryIs(s, 6 + r, TMP, 7 + r) && EntryIs(s, 8 + r, TMP, 9 + r)
            && s.nodes[7 + r].virtualParent == Some(1) && s.nodes[7 + r].mountName == Some(TMP)
            && s.nodes[9 + r].virtualParent == Some(2) && s.nodes[9 + r].mountName == Some(TMP)
            && (forall n :: 0 <= n < |s.nodes| && s.nodes[n].virtualParent.Some? ==> n == 7 + r || n == 9 + r)
  {
    RailNames();
    RailKeys();
    assert MacFresh(root, fold).nodes[6 + |root|] == MacNode(root, 6 + |root|);
  }

  lemma FreshPlaces(root: seq<Bytes>, fold: bool)
    requires NewRoot(root, fold)
    ensures var s, r := MacFresh(root, fold), |root|;
            && Scaffold(s) && Plain(s, 2) && Plain(s, 8 + r) && Linked(s, 6 + r)
            && (LinkedChain(s, 6 + r); Slashed(root) == FullPath(s, Physical, 6 + r))
  {
    FreshScaffold(root, fold);
    FreshVisible(root, fold, 2);
    FreshVisible(root, fold, 8 + |root|);
    FreshLinked(root, fold, 6 + |root|);
    FreshNames(root, fold, |root|);
    assert root[..|root|] == root;
  }

  lemma FreshTemps(root: seq<Bytes>, fold: bool)
    requires NewRoot(root, fold)
    ensures HostTemps(MacFresh(root, fold), FreshSkeleton(root))
  {
    RailNames();
    RailKeys();
    var s := MacFresh(root, fold);
    assert s.nodes[1] == MacNode(root, 1) && s.nodes[2] == MacNode(root, 2);
  }

  /** A new macOS model is a macOS tree, and nothing refers to what its mounts hide. */
  lemma FreshMac(root: seq<Bytes>, fold: bool)
    requires NewRoot(root, fold)
    ensures Mac(MacFresh(root, fold), Slashed(root), FreshSkeleton(root)) && Isolated(MacFresh(root, fold))
    ensures HostTemps(MacFresh(root, fold), FreshSkeleton(root)) && MacFresh(root, fold).fold == fold
  {
    FreshTemps(root, fold);
    FreshPlaces(root, fold);
    FreshSpots(root, fold);
    FreshPrivate(root, fold);
    ScaffoldMounts(MacFresh(root, fold));
  }
}
