/** The host name the mapper reports for a physical path is the virtual path of the node. */
module MacNames {
  import opened Text
  import opened TmpPath
  import TmpPathInverse
  import opened FsState
  import opened FsTree
  import opened FsPaths
  import opened FsReach
  import opened MacTree

  ghost function PhysNames(s: Fs, n: nat): seq<Bytes>
    requires WellFormed(s) && Linked(s, n)
  {
    LinkedChain(s, n);
    FullNames(s, Physical, n)
  }

  ghost function VirtNames(s: Fs, n: nat): seq<Bytes>
    requires Scaffold(s) && Linked(s, n) && Visible(s, n)
  {
    VirtualSound(s, n);
    FullNames(s, Virtual, n)
  }

  lemma PhysUp(s: Fs, p: nat, k: Bytes, n: nat)
    requires WellFormed(s) && EntryIs(s, p, k, n) && Linked(s, p)
    ensures Linked(s, n) && PhysNames(s, n) == PhysNames(s, p) + [k]
  {
    EntryFacts(s, p, k, n);
    LinkedChain(s, n);
    FullNamesUp(s, Physical, n);
    assert NodeOk(s, p);
    assert EntryOk(s, p, k);
  }

  lemma VirtUp(s: Fs, n: nat)
    requires Scaffold(s) && Linked(s, n) && Visible(s, n) && n != ROOT && s.nodes[n].virtualParent.None?
    ensures s.nodes[n].parent.Some?
    ensures var p := s.nodes[n].parent.value;
            && Linked(s, p) && Visible(s, p) && HasEntry(s, p, n)
            && VirtNames(s, n) == VirtNames(s, p) + [EntryName(s, p, n)]
            && PhysNames(s, n) == PhysNames(s, p) + [EntryName(s, p, n)]
  {
    LinkedParent(s, n);
    VisibleUp(s, n);
    VirtualSound(s, n);
    FullNamesUp(s, Virtual, n);
    LinkedChain(s, n);
    FullNamesUp(s, Physical, n);
  }

  lemma PhysRoot(s: Fs)
    requires WellFormed(s)
    ensures Linked(s, ROOT) && PhysNames(s, ROOT) == []
  {
    assert NodeOk(s, ROOT);
    LinkedChain(s, ROOT);
    FullNamesUp(s, Physical, ROOT);
  }

  /** Two linked nodes with the same physical names are one node. */
  lemma PhysInjective(s: Fs, x: nat, y: nat)
    requires WellFormed(s) && Linked(s, x) && Linked(s, y) && PhysNames(s, x) == PhysNames(s, y)
    ensures x == y
  {
    PhysicalSound(s, x);
    PhysicalSound(s, y);
    WalkNames(s, Physical, x, false, false, 0);
    WalkNames(s, Physical, y, false, false, 0);
  }

  /** Each prefix of a node's physical names belongs to one of its ancestors. */
  lemma {:induction false} AncestorAt(s: Fs, n: nat, k: nat) returns (x: nat)
    requires WellFormed(s) && Linked(s, n) && k <= |PhysNames(s, n)|
    ensures Linked(s, x) && PhysNames(s, x) == PhysNames(s, n)[..k] && x in Chain(s, Owner, n)
    decreases |Chain(s, Owner, n)|
  {
    assert Chain(s, Owner, n)[0] == n;
    if k == |PhysNames(s, n)| {
      x := n;
      assert PhysNames(s, n)[..k] == PhysNames(s, n);
    } else {
      PhysRoot(s);
      LinkedParent(s, n);
      ChainUp(s, Owner, n);
      var p := s.nodes[n].parent.value;
      PhysUp(s, p, EntryName(s, p, n), n);
      x := AncestorAt(s, p, k);
      assert PhysNames(s, n)[..k] == PhysNames(s, p)[..k];
    }
  }

  lemma SubTextIs(sub: Sub)
    ensures SubText(sub) == Slashed(SubNames(sub))
    ensures CanonicalText(sub) == Slashed([PRIVATE] + SubNames(sub))
  {
    assert Slashed([TMP]) == [SLASH] + TMP by { SlashedCons(TMP, []); }
    assert Slashed([VAR, TMP]) == [SLASH] + VAR + Slashed([TMP]) by {
      SlashedCons(VAR, [TMP]);
      assert [VAR] + [TMP] == [VAR, TMP];
    }
    SlashedCons(PRIVATE, SubNames(sub));
  }

  /** The names of the private temp directories in both views. */
  lemma TargetNames(s: Fs, root: Bytes, a: Skeleton, sub: Sub)
    requires Mac(s, root, a)
    ensures Linked(s, Target(a, sub)) && Visible(s, Target(a, sub)) && Linked(s, a.anchor)
    ensures PhysNames(s, Target(a, sub)) == PhysNames(s, a.anchor) + SubNames(sub)
    ensures VirtNames(s, Target(a, sub)) == [PRIVATE] + SubNames(sub)
    ensures root == Slashed(PhysNames(s, a.anchor))
  {
    MacListed(s, root, a);
    TargetPhys(s, root, a, sub);
    TargetVirt(s, root, a, sub);
    AnchorNamed(s, root, a);
  }

  /** The physical names two steps down. */
  lemma PhysTwo(s: Fs, p: nat, j: Bytes, m: nat, k: Bytes, n: nat)
    requires WellFormed(s) && Linked(s, p) && EntryIs(s, p, j, m) && EntryIs(s, m, k, n)
    ensures Linked(s, m) && Linked(s, n) && PhysNames(s, m) == PhysNames(s, p) + [j] && PhysNames(s, n) == PhysNames(s, p) + [j, k]
  {
    PhysUp(s, p, j, m);
    PhysUp(s, m, k, n);
    assert PhysNames(s, p) + [j] + [k] == PhysNames(s, p) + [j, k];
  }

  lemma TargetPhys(s: Fs, root: Bytes, a: Skeleton, sub: Sub)
    requires Mac(s, root, a)
    ensures Linked(s, Target(a, sub)) && PhysNames(s, Target(a, sub)) == PhysNames(s, a.anchor) + SubNames(sub)
  {
    if sub.TmpSub? {
      PhysUp(s, a.anchor, TMP, a.tmp);
    } else {
      PhysTwo(s, a.anchor, VAR, a.anchorVar, TMP, a.varTmp);
    }
  }

  lemma TargetVirt(s: Fs, root: Bytes, a: Skeleton, sub: Sub)
    requires Mac(s, root, a) && Linked(s, Target(a, sub)) && Visible(s, Target(a, sub))
    ensures VirtNames(s, Target(a, sub)) == [PRIVATE] + SubNames(sub)
  {
    BaseNames(s, root, a);
    SubFront(sub);
    if sub.TmpSub? {
      VirtMountNames(s, a.tmp, a.priv, [PRIVATE], [TMP]);
    } else {
      VirtMountNames(s, a.varTmp, a.vari, [PRIVATE, VAR], [VAR, TMP]);
    }
  }

  lemma SubFront(sub: Sub)
    ensures sub.TmpSub? ==> [PRIVATE] + [TMP] == [PRIVATE] + SubNames(sub)
    ensures sub.VarTmpSub? ==> [PRIVATE, VAR] + [TMP] == [PRIVATE] + SubNames(sub)
  {
  }

  lemma VirtMountNames(s: Fs, t: nat, vp: nat, front: seq<Bytes>, names: seq<Bytes>)
    requires Scaffold(s) && Linked(s, t) && Visible(s, t) && Linked(s, vp) && Visible(s, vp)
    requires s.nodes[t].virtualParent == Some(vp) && s.nodes[t].mountName == Some(TMP)
    requires VirtNames(s, vp) == front && front + [TMP] == [PRIVATE] + names
    ensures VirtNames(s, t) == [PRIVATE] + names
  {
    VirtMount(s, t, vp, TMP);
  }

  lemma VirtMount(s: Fs, t: nat, vp: nat, name: Bytes)
    requires Scaffold(s) && Linked(s, t) && Visible(s, t) && Linked(s, vp) && Visible(s, vp)
    requires s.nodes[t].virtualParent == Some(vp) && s.nodes[t].mountName == Some(name)
    ensures VirtNames(s, t) == VirtNames(s, vp) + [name]
  {
    VirtualSound(s, t);
    FullNamesUp(s, Virtual, t);
  }

  lemma AnchorNamed(s: Fs, root: Bytes, a: Skeleton)
    requires Mac(s, root, a)
    ensures root == Slashed(PhysNames(s, a.anchor))
  {
    LinkedParent(s, a.anchor);
    var p := s.nodes[a.anchor].parent.value;
    PhysUp(s, p, EntryName(s, p, a.anchor), a.anchor);
  }

  lemma BaseNames(s: Fs, root: Bytes, a: Skeleton)
    requires Mac(s, root, a)
    ensures Linked(s, a.priv) && Visible(s, a.priv) && VirtNames(s, a.priv) == [PRIVATE]
    ensures Linked(s, a.vari) && Visible(s, a.vari) && VirtNames(s, a.vari) == [PRIVATE, VAR]
  {
    MacListed(s, root, a);
    PlainNames(s, a.priv, a.vari);
  }

  lemma PlainNames(s: Fs, priv: nat, vari: nat)
    requires WellFormed(s) && EntryIs(s, ROOT, PRIVATE, priv) && EntryIs(s, priv, VAR, vari)
    requires Plain(s, priv) && Plain(s, vari) && Linked(s, priv) && Linked(s, vari)
    ensures Ends(s, Reported(Virtual), priv) && FullNames(s, Virtual, priv) == [PRIVATE]
    ensures Ends(s, Reported(Virtual), vari) && FullNames(s, Virtual, vari) == [PRIVATE, VAR]
  {
    PhysRoot(s);
    PhysTwo(s, ROOT, PRIVATE, priv, VAR, vari);
    PlainSound(s, priv);
    PlainSound(s, vari);
    assert [] + [PRIVATE] == [PRIVATE] && [] + [PRIVATE, VAR] == [PRIVATE, VAR];
  }

  /** Where a node stands with respect to the private tree, read off its names. */
  datatype Place = Outside | Inside(sub: Sub, rest: seq<Bytes>)

  ghost predicate PlaceOk(s: Fs, a: Skeleton, n: nat, p: Place)
    requires Scaffold(s) && Linked(s, n) && Visible(s, n)
    requires forall sub :: Linked(s, Target(a, sub)) && Visible(s, Target(a, sub))
  {
    match p
    case Outside =>
      && VirtNames(s, n) == PhysNames(s, n)
      && a.tmp !in Chain(s, Owner, n) && a.varTmp !in Chain(s, Owner, n)
    case Inside(sub, rest) =>
      && PhysNames(s, n) == PhysNames(s, Target(a, sub)) + rest
      && VirtNames(s, n) == VirtNames(s, Target(a, sub)) + rest
  }

  lemma RootNames(s: Fs)
    requires Scaffold(s)
    ensures Linked(s, ROOT) && Visible(s, ROOT) && VirtNames(s, ROOT) == [] && PhysNames(s, ROOT) == []
    ensures s.nodes[ROOT].parent.None?
  {
    PhysRoot(s);
    ScaffoldRoot(s);
    PlainSound(s, ROOT);
    assert NodeOk(s, ROOT);
  }

  /** The two private temp directories are the only mount targets. */
  ghost predicate Mounts(s: Fs, a: Skeleton) {
    && Scaffold(s)
    && (forall n :: 0 <= n < |s.nodes| && s.nodes[n].virtualParent.Some? ==> n == a.tmp || n == a.varTmp)
    && (forall sub :: Linked(s, Target(a, sub)) && Visible(s, Target(a, sub)))
  }

  lemma MacMounts(s: Fs, root: Bytes, a: Skeleton)
    requires Mac(s, root, a)
    ensures Mounts(s, a)
  {
    MacListed(s, root, a);
  }

  lemma {:induction false} FindPlace(s: Fs, a: Skeleton, n: nat) returns (p: Place)
    requires Mounts(s, a) && Linked(s, n) && Visible(s, n)
    ensures PlaceOk(s, a, n, p)
    decreases |Chain(s, Owner, n)|
  {
    ChainUp(s, Owner, n);
    if n == Target(a, TmpSub) {
      p := Inside(TmpSub, []);
    } else if n == Target(a, VarTmpSub) {
      p := Inside(VarTmpSub, []);
    } else if n == ROOT {
      p := Outside;
      RootNames(s);
    } else {
      LinkedParent(s, n);
      VisibleUp(s, n);
      var up := FindPlace(s, a, s.nodes[n].parent.value);
      p := PlaceBelow(s, a, n, up);
    }
  }

  lemma PlaceBelow(s: Fs, a: Skeleton, n: nat, up: Place) returns (p: Place)
    requires Scaffold(s) && Linked(s, n) && Visible(s, n) && n != ROOT
    requires forall sub :: Linked(s, Target(a, sub)) && Visible(s, Target(a, sub))
    requires s.nodes[n].virtualParent.None? && n != a.tmp && n != a.varTmp
    requires s.nodes[n].parent.Some? && Linked(s, s.nodes[n].parent.value) && Visible(s, s.nodes[n].parent.value)
    requires PlaceOk(s, a, s.nodes[n].parent.value, up)
    ensures PlaceOk(s, a, n, p)
  {
    VirtUp(s, n);
    ChainUp(s, Owner, n);
    match up
    case Outside => p := Outside;
    case Inside(sub, rest) =>
      var k := EntryName(s, s.nodes[n].parent.value, n);
      var ps, vs := PhysNames(s, Target(a, sub)), VirtNames(s, Target(a, sub));
      assert ps + rest + [k] == ps + (rest + [k]);
      assert vs + rest + [k] == vs + (rest + [k]);
      p := Inside(sub, rest + [k]);
  }

  lemma {:induction false} AllNames(s: Fs, n: nat)
    requires WellFormed(s) && Linked(s, n)
    ensures forall k :: k in PhysNames(s, n) ==> IsName(k)
  {
    PhysicalSound(s, n);
    SoundNames(s, Physical, n);
  }

  lemma UnmapSome(root: Bytes, text: Bytes) returns (sub: Sub, r: Bytes)
    requires Unmap(root, text).Some?
    ensures text == root + SubText(sub) + r && (r == [] || r[0] == SLASH)
  {
    var below := ComponentRest(text, root).value;
    sub := if ComponentRest(below, SubText(VarTmpSub)).Some? then VarTmpSub else TmpSub;
    r := ComponentRest(below, SubText(sub)).value;
    assert r != [] ==> r[0] == below[|SubText(sub)|];
    assert text == root + SubText(sub) + r;
  }

  /** Outside the private tree nothing is unmapped. */
  lemma UnmapOutside(s: Fs, root: Bytes, a: Skeleton, n: nat)
    requires Mac(s, root, a) && Linked(s, n) && Visible(s, n)
    requires a.tmp !in Chain(s, Owner, n) && a.varTmp !in Chain(s, Owner, n)
    ensures Unmap(root, PathOf(PhysNames(s, n))).None?
  {
    var text := PathOf(PhysNames(s, n));
    if Unmap(root, text).Some? {
      var sub, r := UnmapSome(root, text);
      TargetNames(s, root, a, sub);
      var base := PhysNames(s, Target(a, sub));
      SubTextIs(sub);
      SlashedAppend(PhysNames(s, a.anchor), SubNames(sub));
      assert root + SubText(sub) == Slashed(base);
      AllNames(s, n);
      AllNames(s, Target(a, sub));
      CompsPathOf(PhysNames(s, n));
      CompsExtend(base, r);
      assert PhysNames(s, n)[..|base|] == base;
      var x := AncestorAt(s, n, |base|);
      PhysInjective(s, x, Target(a, sub));
      assert false;
    }
  }

  lemma CompsExtend(base: seq<Bytes>, r: Bytes)
    requires forall k :: k in base ==> IsName(k)
    requires r == [] || r[0] == SLASH
    ensures Comps(Slashed(base) + r) == base + Comps(r)
  {
    CompsSlashed(base);
    if r == [] {
      CompsEmpty();
      assert Slashed(base) + r == Slashed(base);
    } else {
      assert r == [SLASH] + r[1..];
      assert Slashed(base) + r == Slashed(base) + [SLASH] + r[1..];
      CompsJoin(Slashed(base), r[1..]);
      CompsLeading(r[1..]);
    }
  }

  /** The host name of a node's physical path is its virtual path. */
  lemma HostNameIsVirtual(s: Fs, root: Bytes, a: Skeleton, n: nat)
    requires Mac(s, root, a) && Linked(s, n) && Visible(s, n)
    ensures HostName(root, PathOf(PhysNames(s, n))) == PathOf(VirtNames(s, n))
  {
    MacMounts(s, root, a);
    var p := FindPlace(s, a, n);
    match p
    case Outside => UnmapOutside(s, root, a, n);
    case Inside(sub, rest) =>
      TargetNames(s, root, a, sub);
      SubTextIs(sub);
      SlashedAppend(PhysNames(s, a.anchor), SubNames(sub));
      SlashedAppend(PhysNames(s, Target(a, sub)), rest);
      SlashedAppend([PRIVATE] + SubNames(sub), rest);
      TmpPathInverse.UnmapsToCanonical(root, sub, rest);
  }
}
