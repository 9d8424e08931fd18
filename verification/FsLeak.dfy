/** Why renames on Linux must not look below a mountpoint: two models that differ only there, and a
    run whose last rename fails in one and succeeds in the other. */
module FsLeak {
  import opened Text
  import opened TmpPath
  import opened FsState
  import opened FsTree
  import opened FsPaths
  import opened FsReach
  import opened FsOps
  import opened FsWellFormed
  import opened FsEdits
  import opened FsIsolation
  import opened FsSprout
  import opened FsScript
  import opened FsTwins
  import opened LinuxMounts
  import opened FsFreshLinux
  import opened MacTree

  const A: Bytes := [97]
  const B: Bytes := [98]
  const R: Bytes := [114]
  const S: Bytes := [115]
  const V: Bytes := [118]
  const W: Bytes := [119]
  const X: Bytes := [120]

  const SLASH_A: Bytes := [SLASH] + A
  const SLASH_TMP: Bytes := [SLASH] + TMP

  /** Node `i` of a Linux model with the temp root `/r/w` and the directories `/a/x` and `/b`. The
      host's `/tmp` hides a directory `h` with a link `tmp` to `/a` in it. */
  function LeakNode(h: Bytes, i: nat): Node
    requires i < 14
  {
    match i
    case 0 => Plainly(Dir, None, map[TMP := 1, VAR := 2, R := 4, A := 9, B := 11])
    case 1 => Plainly(Dir, Some(0), map[h := 12]).(mountedBy := Some(6))
    case 2 => Plainly(Dir, Some(0), map[TMP := 3])
    case 3 => Plainly(Dir, Some(2), map[]).(mountedBy := Some(8))
    case 4 => Plainly(Dir, Some(0), map[W := 5])
    case 5 => Plainly(Dir, Some(4), map[TMP := 6, VAR := 7])
    case 6 => Plainly(Dir, Some(5), map[]).(virtualParent := Some(0), mountName := Some(TMP))
    case 7 => Plainly(Dir, Some(5), map[TMP := 8])
    case 8 => Plainly(Dir, Some(7), map[]).(virtualParent := Some(2), mountName := Some(TMP))
    case 9 => Plainly(Dir, Some(0), map[X := 10])
    case 10 => Plainly(Dir, Some(9), map[])
    case 11 => Plainly(Dir, Some(0), map[])
    case 12 => Plainly(Dir, Some(1), map[TMP := 13])
    case 13 => Plainly(Symlink(SLASH_A), Some(12), map[])
  }

  function Leaky(h: Bytes): Fs {
    Fs(seq(14, i requires 0 <= i < 14 => LeakNode(h, i)), LinuxMount(Slashed([R, W])), false, ROOT, map[], 3)
  }

  lemma NamesDiffer()
    ensures IsName(A) && IsName(B) && IsName(R) && IsName(S) && IsName(V) && IsName(W) && IsName(X)
    ensures |TMP| == 3 && |VAR| == 3
    ensures A != B && A != R && A != S && B != R && B != S && R != S && V != W && W != X
  {
    assert A[0] == 97 && B[0] == 98 && R[0] == 114 && S[0] == 115 && V[0] == 118 && W[0] == 119 && X[0] == 120;
  }

  lemma LeakEntries(h: Bytes, n: nat)
    requires (h == V || h == W) && n < 14
    ensures var s := Leaky(h); forall k :: k in s.nodes[n].children ==> EntryOk(s, n, k)
  {
    NamesDiffer();
    RailNames();
    RailKeys();
    var s := Leaky(h);
    forall k | k in s.nodes[n].children ensures EntryOk(s, n, k) {
      assert k in LeakNode(h, n).children;
    }
  }

  /** The name of each node. */
  function NameOf(h: Bytes, n: nat): Bytes {
    if n == 2 || n == 7 then VAR else if n == 4 then R else if n == 5 then W else if n == 9 then A
    else if n == 10 then X else if n == 11 then B else if n == 12 then h else TMP
  }

  lemma LeakListed(h: Bytes, n: nat)
    requires (h == V || h == W) && 0 < n < 14
    ensures var s := Leaky(h);
            s.nodes[n].parent.Some? && s.nodes[n].parent.value < n && IsDir(s, s.nodes[n].parent.value) && HasEntry(s, s.nodes[n].parent.value, n)
  {
    NamesDiffer();
    RailNames();
    RailKeys();
    var s := Leaky(h);
    var p := s.nodes[n].parent.value;
    assert s.nodes[n] == LeakNode(h, n) && s.nodes[p] == LeakNode(h, p);
    assert NameOf(h, n) in s.nodes[p].children && s.nodes[p].children[NameOf(h, n)] == n;
  }

  lemma LeakFormed(h: Bytes)
    requires h == V || h == W
    ensures WellFormed(Leaky(h))
  {
    var s := Leaky(h);
    forall n: nat | Valid(s, n) ensures SproutNode(s, n) {
      LeakEntries(h, n);
      if n > 0 {
        LeakListed(h, n);
      }
    }
    SproutFormed(s);
  }

  /** The directory of each node. */
  function Above(n: nat): nat {
    if n == 3 then 2 else if n == 5 then 4 else if n == 6 || n == 7 then 5 else if n == 8 then 7
    else if n == 10 then 9 else if n == 12 then 1 else if n == 13 then 12 else 0
  }

  /** What the mounts cover, themselves included. */
  predicate Covered(n: nat) {
    n == 1 || n == 3 || n == 12 || n == 13
  }

  lemma LeakTable(h: Bytes, n: nat)
    requires n < 14
    ensures var nd := Leaky(h).nodes[n];
            && nd == LeakNode(h, n) && nd.parent == (if n == 0 then None else Some(Above(n)))
            && nd.mountedBy == (if n == 1 then Some(6) else if n == 3 then Some(8) else None)
            && nd.virtualParent == (if n == 6 then Some(0) else if n == 8 then Some(2) else None)
  {
  }

  lemma {:induction false} LeakVisible(h: Bytes, n: nat)
    requires (h == V || h == W) && n < 14 && WellFormed(Leaky(h))
    ensures Visible(Leaky(h), n) <==> !Covered(n)
  {
    VisibleUp(Leaky(h), n);
    LeakTable(h, n);
    if n > 0 {
      LeakVisible(h, Above(n));
    }
  }

  lemma LeakHidden(h: Bytes, n: nat)
    requires (h == V || h == W) && n < 14 && WellFormed(Leaky(h))
    ensures Hidden(Leaky(h), n) <==> n == 12 || n == 13
  {
    LeakTable(h, n);
    if n > 0 {
      LeakVisible(h, Above(n));
    }
  }

  lemma LeakMounts(h: Bytes, n: nat)
    requires (h == V || h == W) && n < 14 && WellFormed(Leaky(h))
    ensures var nd := Leaky(h).nodes[n];
            && (nd.mountedBy.Some? ==> Visible(Leaky(h), nd.mountedBy.value))
            && (nd.virtualParent.Some? ==> Visible(Leaky(h), nd.virtualParent.value))
  {
    LeakTable(h, n);
    LeakVisible(h, 6);
    LeakVisible(h, 8);
    LeakVisible(h, 0);
    LeakVisible(h, 2);
  }

  lemma LeakIsolated(h: Bytes)
    requires h == V || h == W
    ensures WellFormed(Leaky(h)) && Isolated(Leaky(h))
  {
    LeakFormed(h);
    var s := Leaky(h);
    LeakVisible(h, ROOT);
    forall n | 0 <= n < |s.nodes| && s.nodes[n].mountedBy.Some? ensures Visible(s, s.nodes[n].mountedBy.value) {
      LeakMounts(h, n);
    }
    forall n | 0 <= n < |s.nodes| && s.nodes[n].virtualParent.Some? ensures Visible(s, s.nodes[n].virtualParent.value) {
      LeakMounts(h, n);
    }
  }

  /** The two models differ only below the host's `/tmp`. */
  lemma LeakTwins()
    ensures Twins(Leaky(W), Leaky(V))
  {
    LeakIsolated(W);
    LeakIsolated(V);
    forall n: nat | Valid(Leaky(W), n) ensures TwinNode(Leaky(W), Leaky(V), n) {
      LeakHidden(W, n);
      LeakHidden(V, n);
      LeakTable(W, n);
      LeakTable(V, n);
    }
  }

  // ----- the first two calls -----

  const FIRST: Edit := Move(ROOT, R, 4, ROOT, S)
  const SECOND: Edit := Create(ROOT, R, Symlink(SLASH_TMP), None)

  lemma LeakTop(h: Bytes)
    ensures var s := Leaky(h); EntryAt(s, 0, R, 4) && S !in s.nodes[0].children && IsDir(s, 0) && s.nodes[0].mountedBy.None?
  {
    NamesDiffer();
    RailNames();
    LeakTable(h, 0);
  }

  lemma FirstDecides(s: Fs)
    requires WellFormed(s) && !s.fold && EntryAt(s, 0, R, 4) && S !in s.nodes[0].children && s.nodes[0].mountedBy.None?
    ensures DoRename(s, [SLASH] + R, [SLASH] + S) == Ok(FIRST, 0)
  {
    NamesDiffer();
    FormedReady(s);
    assert NodeOk(s, ROOT) && EntryOk(s, ROOT, R);
    TopParent(s, R);
    TopParent(s, S);
    assert Linked(s, ROOT);
    LinkedLive(s, ROOT);
    ChainNil(s, FsTree.Owner, ROOT);
    RenameIs(s, At(ROOT, R, false), At(ROOT, S, false), 4, [SLASH] + R, [SLASH] + S);
  }

  /** After the first call. */
  function Renamed(h: Bytes): Fs {
    var s := Leaky(h);
    s.(nodes := s.nodes[0 := LeakNode(h, 0).(children := map[TMP := 1, VAR := 2, S := 4, A := 9, B := 11])])
  }

  lemma FirstIs(h: Bytes)
    requires h == V || h == W
    ensures CanDo(Leaky(h), FIRST) && Do(Leaky(h), FIRST) == Renamed(h)
  {
    var s := Leaky(h);
    LeakTable(h, 0);
    LeakTable(h, 4);
    TopAfter();
    var s1 := Unlisted(s, ROOT, R);
    assert s1.nodes[0].children == map[TMP := 1, VAR := 2, A := 9, B := 11];
    assert Do(s, FIRST).nodes[4] == s.nodes[4];
    assert Do(s, FIRST).nodes == Renamed(h).nodes;
  }

  lemma TopAfter()
    ensures map[TMP := 1, VAR := 2, R := 4, A := 9, B := 11] - {R} == map[TMP := 1, VAR := 2, A := 9, B := 11]
    ensures S !in map[TMP := 1, VAR := 2, R := 4, A := 9, B := 11]
    ensures map[TMP := 1, VAR := 2, A := 9, B := 11][S := 4] == map[TMP := 1, VAR := 2, S := 4, A := 9, B := 11]
  {
    NamesDiffer();
    RailNames();
  }

  lemma SecondDecides(h: Bytes)
    requires (h == V || h == W) && WellFormed(Renamed(h))
    ensures DoSymlink(Renamed(h), SLASH_TMP, [SLASH] + R) == Ok(SECOND, 0)
  {
    var s := Renamed(h);
    NamesDiffer();
    FormedReady(s);
    TopParent(s, R);
    assert Linked(s, ROOT);
    LinkedLive(s, ROOT);
    RailNames();
    RailKeys();
    assert |SLASH_TMP| == 4;
  }

  /** After the second call. */
  function Relinked(h: Bytes): Fs {
    var s := Leaky(h);
    s.(nodes := s.nodes[0 := LeakNode(h, 0).(children := map[TMP := 1, VAR := 2, S := 4, A := 9, B := 11, R := 14])]
                + [Plainly(Symlink(SLASH_TMP), Some(0), map[])])
  }

  lemma SecondIs(h: Bytes)
    requires h == V || h == W
    ensures CanDo(Renamed(h), SECOND) && Do(Renamed(h), SECOND) == Relinked(h)
  {
    assert Do(Renamed(h), SECOND).nodes == Relinked(h).nodes;
  }

  // ----- physical lookups afterwards -----

  lemma StepTo(s: Fs, p: nat, k: Bytes, n: nat, wantDir: bool, links: nat)
    requires WellFormed(s) && !s.fold && IsDir(s, p) && EntryAt(s, p, k, n) && IsDir(s, n) && links <= MaxLinks(s)
    ensures Step(s, Physical, p, k, true, wantDir, links) == Found(n, links)
  {
    assert NodeOk(s, p) && EntryOk(s, p, k);
    assert FollowLink(s, Physical, p, n, links) == Found(n, links);
  }

  lemma TopRoute(s: Fs, start: nat, k: Bytes, n: nat, links: nat)
    requires WellFormed(s) && !s.fold && EntryAt(s, ROOT, k, n) && IsDir(s, n) && links <= MaxLinks(s) && Valid(s, start)
    ensures Resolve(s, Physical, start, [SLASH] + k, true, links) == Found(n, links)
  {
    assert NodeOk(s, ROOT) && EntryOk(s, ROOT, k);
    CompsLeading(k);
    CompsSingle(k);
    assert ([SLASH] + k)[|k|] == k[|k| - 1] && k[|k| - 1] in k;
    StepTo(s, ROOT, k, n, false, links);
    assert [k][1..] == [];
    assert Walk(s, Physical, n, [], true, false, links) == Found(n, links);
    assert Walk(s, Physical, ROOT, [k], true, false, links) == Found(n, links);
  }

  lemma StepLink(s: Fs, p: nat, k: Bytes, link: nat, to: Bytes, n: nat, wantDir: bool, links: nat)
    requires WellFormed(s) && !s.fold && IsDir(s, p) && EntryAt(s, p, k, link) && s.nodes[link].kind == Symlink([SLASH] + to)
    requires EntryAt(s, ROOT, to, n) && IsDir(s, n) && links < MaxLinks(s)
    ensures Step(s, Physical, p, k, true, wantDir, links) == Found(n, links + 1)
  {
    assert NodeOk(s, p) && EntryOk(s, p, k);
    TopRoute(s, p, to, n, links + 1);
    assert FollowLink(s, Physical, p, link, links) == Found(n, links + 1);
  }

  /** The nodes that the last call comes across. */
  ghost predicate After2(s: Fs, h: Bytes) {
    && WellFormed(s) && !s.fold && s.profile == LinuxMount(Slashed([R, W])) && |s.nodes| == 15 && s.nodes[0].mountedBy.None?
    && EntryAt(s, 0, TMP, 1) && EntryAt(s, 0, R, 14) && EntryAt(s, 0, A, 9) && EntryAt(s, 0, B, 11)
    && IsDir(s, 0) && IsDir(s, 1) && IsDir(s, 9) && IsDir(s, 11) && IsDir(s, 12)
    && s.nodes[14].kind == Symlink(SLASH_TMP) && s.nodes[13].kind == Symlink(SLASH_A)
    && s.nodes[1].children == map[h := 12] && s.nodes[12].children == map[TMP := 13]
    && EntryAt(s, 9, X, 10) && s.nodes[11].children == map[] && s.nodes[9].mountedBy.None? && s.nodes[11].mountedBy.None?
  }

  lemma RelinkedIs(h: Bytes)
    requires (h == V || h == W) && WellFormed(Relinked(h))
    ensures After2(Relinked(h), h)
  {
    NamesDiffer();
    RailNames();
    RailKeys();
    LeakTable(h, 1);
    LeakTable(h, 9);
    LeakTable(h, 11);
    LeakTable(h, 12);
    LeakTable(h, 13);
  }

  /** Where the lookup of `/r/w` and one more name comes to. */
  lemma RouteTo(s: Fs, h: Bytes, k: Bytes, rest: seq<Bytes>)
    requires After2(s, h) && (h == V || h == W)
    ensures Walk(s, Physical, ROOT, [R, W, k] + rest, true, false, 0)
         == if h == V then Missing(ENOENT) else Walk(s, Physical, 12, [k] + rest, true, false, 1)
  {
    NamesDiffer();
    var comps := [R, W, k] + rest;
    assert comps[1..] == [W, k] + rest && ([W, k] + rest)[1..] == [k] + rest;
    StepLink(s, ROOT, R, 14, TMP, 1, true, 0);
    assert Walk(s, Physical, ROOT, comps, true, false, 0) == Walk(s, Physical, 1, [W, k] + rest, true, false, 1);
    if h == W {
      StepTo(s, 1, W, 12, true, 1);
    } else {
      assert W !in s.nodes[1].children;
      assert Step(s, Physical, 1, W, true, true, 1) == Missing(ENOENT);
    }
  }

  lemma Routes(s: Fs, h: Bytes)
    requires After2(s, h) && (h == V || h == W)
    ensures Resolve(s, Physical, ROOT, s.profile.root + TMP_SUFFIX, true, 0) == if h == V then Missing(ENOENT) else Found(9, 2)
    ensures Resolve(s, Physical, ROOT, s.profile.root + VAR_TMP_SUFFIX, true, 0) == Missing(ENOENT)
  {
    RouteTexts();
    RouteTo(s, h, TMP, []);
    RouteTo(s, h, VAR, [TMP]);
    RailNames();
    RailKeys();
    assert [R, W, TMP] + [] == [R, W, TMP] && [R, W, VAR] + [TMP] == [R, W, VAR, TMP];
    assert [TMP] + [] == [TMP] && [TMP][1..] == [] && [VAR] + [TMP] == [VAR, TMP];
    if h == W {
      assert TMP in s.nodes[12].children && VAR !in s.nodes[12].children;
      StepLink(s, 12, TMP, 13, A, 9, false, 1);
    }
  }

  lemma RouteTexts()
    ensures var t := Slashed([R, W]) + TMP_SUFFIX; 0 < |t| < 4096 && t[0] == SLASH && Comps(t) == [R, W, TMP] && !Trailing(t)
    ensures var t := Slashed([R, W]) + VAR_TMP_SUFFIX; 0 < |t| < 4096 && t[0] == SLASH && Comps(t) == [R, W, VAR, TMP] && !Trailing(t)
  {
    NamesDiffer();
    RailNames();
    RailKeys();
    LinuxTexts([R, W]);
    assert [R, W] + [TMP] == [R, W, TMP] && [R, W] + [VAR, TMP] == [R, W, VAR, TMP];
    CompsSlashed([R, W, TMP]);
    CompsSlashed([R, W, VAR, TMP]);
    SlashedCons(R, [W]);
    SlashedCons(W, []);
    assert [R] + [W] == [R, W] && [W] + [] == [W];
    assert Slashed([R, W]) == [SLASH, 114, SLASH, 119];
  }

  lemma MountIsA(s: Fs, h: Bytes)
    requires After2(s, h) && (h == V || h == W)
    ensures MountOf(s, 9) == (if h == V then 0 else 1) && MountOf(s, 11) == 0
  {
    Routes(s, h);
    TwoChain(s, A, 9);
    TwoChain(s, B, 11);
    assert [9, 0][1..] == [0] && [11, 0][1..] == [0] && [0][1..] == [];
  }

  lemma TwoChain(s: Fs, k: Bytes, n: nat)
    requires WellFormed(s) && EntryAt(s, ROOT, k, n)
    ensures Chain(s, FsTree.Owner, n) == [n, 0] && n != 0
  {
    assert NodeOk(s, ROOT) && EntryOk(s, ROOT, k);
    ChainNil(s, FsTree.Owner, ROOT);
    ChainCons(s, FsTree.Owner, n, [ROOT]);
  }

  // ----- the last call -----

  const FROM: Bytes := [SLASH] + A + [SLASH] + X
  const TO: Bytes := [SLASH] + B + [SLASH] + X

  lemma LastParents(s: Fs, h: Bytes)
    requires After2(s, h) && (h == V || h == W)
    ensures Ready(s) && FindParent(s, Cwd, FROM) == At(9, X, false) && FindParent(s, Cwd, TO) == At(11, X, false)
    ensures !IsRootOperand(FROM) && !IsRootOperand(TO)
  {
    FormedReady(s);
    NamesDiffer();
    DownParent(s, A, 9, X);
    DownParent(s, B, 11, X);
  }

  lemma LastDecides(s: Fs, h: Bytes)
    requires After2(s, h) && (h == V || h == W)
    ensures DoRename(s, FROM, TO) == if h == W then Err(EXDEV) else Ok(Move(9, X, 10, 11, X), 0)
  {
    LastParents(s, h);
    MountIsA(s, h);
    if h == W {
      NamesDiffer();
      RenameCrosses(s, At(9, X, false), At(11, X, false), 10, FROM, TO);
    } else {
      TwoChain(s, B, 11);
      assert HasEntry(s, ROOT, 11);
      assert NodeOk(s, ROOT) && EntryOk(s, ROOT, B);
      LinkedLive(s, 11);
      RenameIs(s, At(9, X, false), At(11, X, false), 10, FROM, TO);
    }
  }

  function LeakRun(): seq<Op> {
    [Rename([SLASH] + R, [SLASH] + S)] + ([SymlinkOp(SLASH_TMP, [SLASH] + R)] + [Rename(FROM, TO)])
  }

  lemma LeakOutcomes(h: Bytes)
    requires h == V || h == W
    ensures WellFormed(Leaky(h))
    ensures Outcomes(Leaky(h), LeakRun()) == [Returned(0, []), Returned(0, []), if h == W then Failed(EXDEV) else Returned(0, [])]
  {
    FirstApplies(h);
    SecondOutcomes(h);
    OutcomesOn(Leaky(h), Rename([SLASH] + R, [SLASH] + S), [SymlinkOp(SLASH_TMP, [SLASH] + R)] + [Rename(FROM, TO)], Renamed(h), Returned(0, []));
  }

  lemma FirstApplies(h: Bytes)
    requires h == V || h == W
    ensures WellFormed(Leaky(h)) && WellFormed(Renamed(h))
    ensures Apply(Leaky(h), Rename([SLASH] + R, [SLASH] + S)) == (Renamed(h), Returned(0, []))
  {
    LeakFormed(h);
    LeakTop(h);
    FirstDecides(Leaky(h));
    CallApplies(Leaky(h), Rename([SLASH] + R, [SLASH] + S), FIRST);
    FirstIs(h);
  }

  lemma SecondOutcomes(h: Bytes)
    requires (h == V || h == W) && WellFormed(Renamed(h))
    ensures Outcomes(Renamed(h), [SymlinkOp(SLASH_TMP, [SLASH] + R)] + [Rename(FROM, TO)])
         == [Returned(0, []), if h == W then Failed(EXDEV) else Returned(0, [])]
  {
    SecondApplies(h);
    LastOutcomes(h);
    OutcomesOn(Renamed(h), SymlinkOp(SLASH_TMP, [SLASH] + R), [Rename(FROM, TO)], Relinked(h), Returned(0, []));
  }

  lemma SecondApplies(h: Bytes)
    requires (h == V || h == W) && WellFormed(Renamed(h))
    ensures Apply(Renamed(h), SymlinkOp(SLASH_TMP, [SLASH] + R)) == (Relinked(h), Returned(0, [])) && WellFormed(Relinked(h))
  {
    SecondDecides(h);
    CallApplies(Renamed(h), SymlinkOp(SLASH_TMP, [SLASH] + R), SECOND);
    SecondIs(h);
  }

  lemma LastOutcomes(h: Bytes)
    requires (h == V || h == W) && WellFormed(Relinked(h))
    ensures Outcomes(Relinked(h), [Rename(FROM, TO)]) == [if h == W then Failed(EXDEV) else Returned(0, [])]
  {
    RelinkedIs(h);
    LastDecides(Relinked(h), h);
    LastOutcome(Relinked(h), h);
  }

  lemma LastOutcome(s: Fs, h: Bytes)
    requires WellFormed(s) && DoRename(s, FROM, TO) == if h == W then Err(EXDEV) else Ok(Move(9, X, 10, 11, X), 0)
    ensures Outcomes(s, [Rename(FROM, TO)]) == [if h == W then Failed(EXDEV) else Returned(0, [])]
  {
    OneOutcome(s, Rename(FROM, TO), Apply(s, Rename(FROM, TO)).0, if h == W then Failed(EXDEV) else Returned(0, []));
  }

  /** Two models that differ only below a mountpoint: rename `/r` to `/s`, put a link to `/tmp` in its
      place, and the mount of `/a` is decided by what the host's `/tmp` hides. */
  lemma HiddenNodesShow()
    ensures Twins(Leaky(W), Leaky(V))
    ensures Outcomes(Leaky(W), LeakRun()) == [Returned(0, []), Returned(0, []), Failed(EXDEV)]
    ensures Outcomes(Leaky(V), LeakRun()) == [Returned(0, []), Returned(0, []), Returned(0, [])]
  {
    LeakTwins();
    NamesDiffer();
    LeakOutcomes(W);
    LeakOutcomes(V);
  }
}
