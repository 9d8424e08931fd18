/** A new Linux model satisfies what the theorems assume. */
module FsFreshLinux {
  import opened Text
  import opened TmpPath
  import opened FsState
  import opened FsTree
  import opened FsPaths
  import opened FsReach
  import opened FsOps
  import opened FsIsolation
  import opened FsSprout
  import opened LinuxMounts
  import opened MacTree
  import opened MacNames

  /** Node `i` of a new Linux model whose temp root has the names `root`. */
  function LinuxNode(root: seq<Bytes>, i: nat): Node
    requires root != [] && i < 7 + |root|
  {
    var n := |root|;
    if i == 0 then Plainly(Dir, None, map[TMP := 1, VAR := 2, root[0] := 4])
    else if i == 1 then Plainly(Dir, Some(0), map[]).(mountedBy := Some(4 + n))
    else if i == 2 then Plainly(Dir, Some(0), map[TMP := 3])
    else if i == 3 then Plainly(Dir, Some(2), map[]).(mountedBy := Some(6 + n))
    else if i < 4 + n then
      Plainly(Dir, Some(if i == 4 then 0 else i - 1),
              if i == 3 + n then map[TMP := 4 + n, VAR := 5 + n] else map[root[i - 3] := i + 1])
    else if i == 4 + n then Plainly(Dir, Some(3 + n), map[]).(virtualParent := Some(0), mountName := Some(TMP))
    else if i == 5 + n then Plainly(Dir, Some(3 + n), map[TMP := 6 + n])
    else Plainly(Dir, Some(5 + n), map[]).(virtualParent := Some(2), mountName := Some(TMP))
  }

  function LinuxFresh(root: seq<Bytes>): Fs
    requires root != []
  {
    Fs(seq(7 + |root|, i requires 0 <= i < 7 + |root| => LinuxNode(root, i)), LinuxMount(Slashed(root)), false, ROOT, map[], 3)
  }

  /** Names a directory may have, the first of them new at the root, short enough to look up. */
  predicate NewLinuxRoot(root: seq<Bytes>) {
    && root != [] && root[0] !in {TMP, VAR} && |Slashed(root)| + 8 < 4096
    && forall i :: 0 <= i < |root| ==> IsName(root[i]) && |root[i]| <= NAME_MAX
  }

  lemma LinuxEntries(root: seq<Bytes>, n: nat)
    requires NewLinuxRoot(root) && n < 7 + |root|
    ensures var s := LinuxFresh(root); forall k :: k in s.nodes[n].children ==> EntryOk(s, n, k)
  {
    RailNames();
    RailKeys();
    var s := LinuxFresh(root);
    forall k | k in s.nodes[n].children ensures EntryOk(s, n, k) {
      assert k in LinuxNode(root, n).children;
    }
  }

  lemma LinuxListed(root: seq<Bytes>, n: nat)
    requires NewLinuxRoot(root) && 0 < n < 7 + |root|
    ensures var s := LinuxFresh(root);
            s.nodes[n].parent.Some? && s.nodes[n].parent.value < n && HasEntry(s, s.nodes[n].parent.value, n)
  {
    RailNames();
    RailKeys();
    var s := LinuxFresh(root);
    var r := |root|;
    var k := if n == 2 || n == 5 + r then VAR else if 4 <= n < 4 + r then root[n - 4] else TMP;
    var p := s.nodes[n].parent.value;
    assert k in s.nodes[p].children && s.nodes[p].children[k] == n;
  }

  lemma LinuxSprout(root: seq<Bytes>)
    requires NewLinuxRoot(root)
    ensures Sprout(LinuxFresh(root))
  {
    var s := LinuxFresh(root);
    forall n: nat | Valid(s, n) ensures SproutNode(s, n) {
      LinuxEntries(root, n);
      if n > 0 {
        LinuxListed(root, n);
      }
    }
  }

  lemma LinuxFormed(root: seq<Bytes>)
    requires NewLinuxRoot(root)
    ensures WellFormed(LinuxFresh(root))
  {
    LinuxSprout(root);
    SproutFormed(LinuxFresh(root));
  }

  lemma LinuxLinked(root: seq<Bytes>, n: nat)
    requires NewLinuxRoot(root) && n < 7 + |root|
    ensures Linked(LinuxFresh(root), n)
  {
    if n > 0 {
      LinuxListed(root, n);
    }
  }

  lemma {:induction false} LinuxVisible(root: seq<Bytes>, n: nat)
    requires NewLinuxRoot(root) && WellFormed(LinuxFresh(root)) && n < 7 + |root| && n != 1 && n != 3
    ensures Visible(LinuxFresh(root), n)
    ensures n != 4 + |root| && n != 6 + |root| ==> Plain(LinuxFresh(root), n)
  {
    LinuxSprout(root);
    SproutVisible(LinuxFresh(root), n);
    assert LinuxFresh(root).nodes[n] == LinuxNode(root, n);
    if n > 0 {
      LinuxVisible(root, LinuxFresh(root).nodes[n].parent.value);
    }
  }

  lemma LinuxTarget(root: seq<Bytes>, t: nat)
    requires NewLinuxRoot(root) && WellFormed(LinuxFresh(root)) && (t == 4 + |root| || t == 6 + |root|)
    ensures var s := LinuxFresh(root); s.nodes[t].virtualParent.Some? && TargetOk(s, t)
  {
    RailNames();
    RailKeys();
    LinuxVisible(root, t);
    LinuxLinked(root, t);
    var vp := LinuxFresh(root).nodes[t].virtualParent.value;
    LinuxVisible(root, vp);
    LinuxLinked(root, vp);
  }

  lemma LinuxScaffold(root: seq<Bytes>)
    requires NewLinuxRoot(root)
    ensures Scaffold(LinuxFresh(root))
  {
    LinuxFormed(root);
    var s := LinuxFresh(root);
    forall n | 0 <= n < |s.nodes| && s.nodes[n].virtualParent.Some? ensures TargetOk(s, n) {
      LinuxTarget(root, n);
    }
    forall n | 0 <= n < |s.nodes| && s.nodes[n].mountedBy.Some? ensures MountpointOk(s, n) {
    }
  }

  function LinuxDown(k: nat): nat {
    if k == 0 then ROOT else 3 + k
  }

  /** The physical names down to the anchor. */
  lemma {:induction false} LinuxNames(root: seq<Bytes>, k: nat)
    requires NewLinuxRoot(root) && WellFormed(LinuxFresh(root)) && k <= |root|
    ensures Linked(LinuxFresh(root), LinuxDown(k)) && PhysNames(LinuxFresh(root), LinuxDown(k)) == root[..k]
  {
    var s := LinuxFresh(root);
    if k == 0 {
      PhysRoot(s);
    } else {
      LinuxNames(root, k - 1);
      var n, p := LinuxDown(k), LinuxDown(k - 1);
      assert s.nodes[n] == LinuxNode(root, n) && s.nodes[p] == LinuxNode(root, p);
      PhysUp(s, p, root[k - 1], n);
      assert root[..k] == root[..k - 1] + [root[k - 1]];
    }
  }

  lemma LinuxTemps(root: seq<Bytes>)
    requires NewLinuxRoot(root) && WellFormed(LinuxFresh(root))
    ensures var s, n := LinuxFresh(root), |root|;
            && Linked(s, 4 + n) && PhysNames(s, 4 + n) == root + [TMP]
            && Linked(s, 6 + n) && PhysNames(s, 6 + n) == root + [VAR, TMP]
  {
    var s, n := LinuxFresh(root), |root|;
    LinuxNames(root, n);
    assert root[..n] == root;
    assert s.nodes[3 + n] == LinuxNode(root, 3 + n) && s.nodes[5 + n] == LinuxNode(root, 5 + n);
    RailNames();
    RailKeys();
    PhysUp(s, 3 + n, TMP, 4 + n);
    PhysTwo(s, 3 + n, VAR, 5 + n, TMP, 6 + n);
  }

  lemma LinuxTexts(root: seq<Bytes>)
    ensures Slashed(root + [TMP]) == Slashed(root) + TMP_SUFFIX
    ensures Slashed(root + [VAR, TMP]) == Slashed(root) + VAR_TMP_SUFFIX
  {
    SlashedAppend(root, [TMP]);
    SlashedAppend(root, [VAR, TMP]);
    SubTextIs(TmpSub);
    SubTextIs(VarTmpSub);
  }

  /** A new Linux model: well formed, mounts in place, nothing hidden is referred to, and the
      private temp directories are where the profile's root says. */
  lemma FreshLinux(root: seq<Bytes>)
    requires NewLinuxRoot(root)
    ensures var s, n := LinuxFresh(root), |root|;
            && Scaffold(s) && Isolated(s) && Anchored(s, 4 + n, 6 + n) && Visible(s, 4 + n) && Visible(s, 6 + n)
  {
    var s, n := LinuxFresh(root), |root|;
    LinuxScaffold(root);
    ScaffoldMounts(s);
    LinuxVisible(root, 4 + n);
    LinuxVisible(root, 6 + n);
    LinuxVisible(root, ROOT);
    LinuxAnchored(root);
  }

  lemma LinuxAnchored(root: seq<Bytes>)
    requires NewLinuxRoot(root) && WellFormed(LinuxFresh(root))
    ensures Anchored(LinuxFresh(root), 4 + |root|, 6 + |root|)
  {
    var s, n := LinuxFresh(root), |root|;
    LinuxTemps(root);
    LinuxTexts(root);
    LinuxNamed(s, 4 + n, root + [TMP], Slashed(root) + TMP_SUFFIX);
    LinuxNamed(s, 6 + n, root + [VAR, TMP], Slashed(root) + VAR_TMP_SUFFIX);
  }

  lemma LinuxNamed(s: Fs, n: nat, names: seq<Bytes>, text: Bytes)
    requires WellFormed(s) && Linked(s, n) && IsDir(s, n) && PhysNames(s, n) == names && names != [] && Slashed(names) == text && |text| < PathMax(s)
    ensures NamedDir(s, n, text)
  {
    LinkedChain(s, n);
  }
}
