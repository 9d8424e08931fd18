/** The text the mapper hands back leads physically where the original leads virtually. */
module Refinement {
  import opened Text
  import opened TmpPath
  import opened FsState
  import opened FsTree
  import opened FsPaths
  import opened FsReach
  import opened FsTame
  import opened MacTree
  import opened MacNames

  // ----- the scanner against the virtual walk -----

  /** The node a scan state without pushed names stands for. */
  ghost function StateNode(a: Skeleton, st: Scan): nat
    requires !st.InOther?
  {
    match st
    case InBase(b) => BaseNode(a, b)
    case InTemp(sub, _, _, _, _) => Target(a, sub)
  }

  /** The scan stands in a base, or right on top of a temp root with nothing but `.` and
      empty components since. */
  ghost predicate OnSkeleton(cs: seq<Bytes>, i: nat, st: Scan) {
    && i <= |cs|
    && (st.InBase?
        || (st.InTemp? && !st.named && st.depth == 0 && st.parent == SubBase(st.sub)
            && 0 < st.start <= i && Real(cs[st.start..]) == Real(cs[i..])))
  }

  /** What the walk `walk` found is also found by walking the remainder from the temp root
      that the scan `r` came to. */
  ghost predicate Continues(s: Fs, a: Skeleton, cs: seq<Bytes>, r: ScanEnd, walk: Found, follow: bool, slash: bool)
    requires Rails(s, a)
  {
    TempOf(r).Some? ==>
      var (sub, start) := TempOf(r).value;
      start <= |cs| && NoWorse(walk, Walk(s, Virtual, Target(a, sub), Real(cs[start..]), follow, slash, 0))
  }

  predicate OnRail(b: Base, comp: Bytes) {
    comp == TMP || (comp == VAR && b != AtPrivVar) || (comp == PRIVATE && b == AtRoot)
  }

  /** Where a rail component leads. */
  ghost function RailNode(a: Skeleton, b: Base, comp: Bytes): nat {
    if comp == PRIVATE then a.priv else if comp == VAR then a.vari
    else Target(a, if b == AtPrivVar then VarTmpSub else TmpSub)
  }

  /** A rail component takes the virtual walk where it takes the scan, unless it is an
      alias at the root that is not followed. */
  ghost predicate RailStep(s: Fs, a: Skeleton, b: Base, comp: Bytes, follow: bool, wantDir: bool, links: nat)
    requires Closed(s) && Valid(s, BaseNode(a, b)) && comp in s.nodes[ROOT].children && links <= MaxLinks(s)
  {
    var r := Step(s, Virtual, BaseNode(a, b), comp, follow, wantDir, links);
    r.Found? ==>
      || r.node == RailNode(a, b, comp)
      || (!follow && b == AtRoot && r.node == s.nodes[ROOT].children[comp])
  }

  ghost function Up1(s: Fs, n: nat): nat
    requires Closed(s) && Valid(s, n)
  {
    assert NodeClosed(s.nodes[n], |s.nodes|);
    FsState.Enter(s, Virtual, ParentOf(s, Virtual, n))
  }

  ghost predicate RailBase(s: Fs, a: Skeleton, b: Base)
    requires Closed(s)
  {
    && Valid(s, BaseNode(a, b)) && Up1(s, BaseNode(a, b)) == BaseNode(a, BaseParent(b))
  }

  ghost predicate RailTarget(s: Fs, a: Skeleton, sub: Sub)
    requires Closed(s)
  {
    && Valid(s, Target(a, sub)) && Up1(s, Target(a, sub)) == BaseNode(a, SubBase(sub))
  }

  /** The skeleton as far as a scan relies on it. */
  ghost predicate Rails(s: Fs, a: Skeleton) {
    && Closed(s)
    && Valid(s, a.priv) && Valid(s, a.vari) && Valid(s, a.tmp) && Valid(s, a.varTmp)
    && TMP in s.nodes[ROOT].children && VAR in s.nodes[ROOT].children && PRIVATE in s.nodes[ROOT].children
    && (forall sub :: RailTarget(s, a, sub))
    && (forall b :: RailBase(s, a, b))
    && (forall b, comp, follow, wantDir, links: nat ::
          OnRail(b, comp) && (wantDir ==> follow) && links <= MaxLinks(s) ==> RailStep(s, a, b, comp, follow, wantDir, links))
  }

  lemma MacRails(s: Fs, root: Bytes, a: Skeleton)
    requires Mac(s, root, a)
    ensures Rails(s, a)
  {
    forall sub ensures RailTarget(s, a, sub) { RailTargets(s, root, a, sub); }
    forall b ensures RailBase(s, a, b) { RailBases(s, root, a, b); }
    forall b, comp, follow, wantDir, links: nat | OnRail(b, comp) && (wantDir ==> follow) && links <= MaxLinks(s)
      ensures RailStep(s, a, b, comp, follow, wantDir, links)
    {
      StepBase(s, root, a, b, comp, follow, wantDir, links);
    }
  }

  lemma RailTargets(s: Fs, root: Bytes, a: Skeleton, sub: Sub)
    requires Mac(s, root, a)
    ensures RailTarget(s, a, sub)
  {
    MacParents(s, root, a);
  }

  lemma RailBases(s: Fs, root: Bytes, a: Skeleton, b: Base)
    requires Mac(s, root, a)
    ensures RailBase(s, a, b)
  {
    MacParents(s, root, a);
  }

  /** The state a base or temp component leads to. */
  lemma MoveOnRails(b: Base, comp: Bytes, i: nat, tmpFollows: bool)
    requires OnRail(b, comp)
    ensures ScanMove(InBase(b), comp, i, tmpFollows)
         == Go(if comp == PRIVATE then InBase(AtPrivate) else if comp == VAR then InBase(AtPrivVar)
               else EnterTemp(b, i))
  {
    RailNames();
    RailKeys();
    assert DOTDOT[0] == 46;
  }

  /** The last component the scan acts on is `tmp`, read at the root: the name of the alias. */
  predicate EndsOnTmp(cs: seq<Bytes>, i: nat, st: Scan)
    requires i <= |cs|
    decreases |cs| - i
  {
    && i < |cs|
    && ((st == InBase(AtRoot) && cs[i] == TMP && Real(cs[i + 1..]) == [])
        || var m := ScanMove(st, cs[i], i + 1, TMP in cs[i + 1..]); m.Go? && EndsOnTmp(cs, i + 1, m.state))
  }

  /** Wherever the scan comes to a temp root, the virtual walk has come there too, unless both
      end on the alias. */
  lemma {:induction false} ScanWalk(s: Fs, a: Skeleton, cs: seq<Bytes>, i: nat, st: Scan, follow: bool, slash: bool, links: nat)
    requires Rails(s, a) && OnSkeleton(cs, i, st) && links <= MaxLinks(s)
    requires var walk := Walk(s, Virtual, StateNode(a, st), Real(cs[i..]), follow, slash, links);
             walk.Found? && (follow || slash || !EndsOnTmp(cs, i, st))
    ensures Continues(s, a, cs, ScanFrom(cs, i, st), Walk(s, Virtual, StateNode(a, st), Real(cs[i..]), follow, slash, links), follow, slash)
    decreases |cs| - i
  {
    var n := StateNode(a, st);
    var walk := Walk(s, Virtual, n, Real(cs[i..]), follow, slash, links);
    if st.InTemp? {
      WalkFewer(s, Virtual, n, Real(cs[i..]), follow, slash, links, 0);
    }
    if i < |cs| {
      RealCons(cs, i);
      var comp := cs[i];
      var rest := Real(cs[i + 1..]);
      var follows := TMP in cs[i + 1..];
      if !IsReal(comp) {
        ScanWalk(s, a, cs, i + 1, st, follow, slash, links);
      } else {
        assert Real(cs[i..]) == [comp] + rest;
        assert Real(cs[i..])[1..] == rest;
        if comp == DOTDOT {
          assert st.InBase? ==> RailBase(s, a, st.base);
          assert st.InTemp? ==> RailTarget(s, a, st.sub);
          assert Up1(s, n) == FsState.Enter(s, Virtual, ParentOf(s, Virtual, n));
          var st' := InBase(if st.InBase? then BaseParent(st.base) else st.parent);
          assert ScanMove(st, comp, i + 1, follows) == Go(st');
          ScanWalk(s, a, cs, i + 1, st', follow, slash, links);
        } else if st.InTemp? {
          NamedStays(cs, i + 1, ScanMove(st, comp, i + 1, follows).state);
        } else if OnRail(st.base, comp) {
          MoveOnRails(st.base, comp, i + 1, follows);
          ScanRail(s, a, cs, i, st, follow, slash, links);
        } else {
          NoTemp(cs, i + 1, InOther(st.base, 1));
        }
      }
    }
  }

  lemma {:induction false} ScanRail(s: Fs, a: Skeleton, cs: seq<Bytes>, i: nat, st: Scan, follow: bool, slash: bool, links: nat)
    requires Rails(s, a) && links <= MaxLinks(s)
    requires i < |cs| && st.InBase?
    requires OnRail(st.base, cs[i])
    requires var walk := Walk(s, Virtual, StateNode(a, st), Real(cs[i..]), follow, slash, links);
             walk.Found? && (follow || slash || !EndsOnTmp(cs, i, st))
    ensures Continues(s, a, cs, ScanFrom(cs, i, st), Walk(s, Virtual, StateNode(a, st), Real(cs[i..]), follow, slash, links), follow, slash)
    decreases |cs| - i, 0
  {
    var comp := cs[i];
    var n := StateNode(a, st);
    RealCons(cs, i);
    RailNames();
    RailKeys();
    var rest := Real(cs[i + 1..]);
    assert Real(cs[i..]) == [comp] + rest && Real(cs[i..])[1..] == rest;
    MoveOnRails(st.base, comp, i + 1, TMP in cs[i + 1..]);
    var st' := ScanMove(st, comp, i + 1, TMP in cs[i + 1..]).state;
    var last := rest == [];
    var f, w := !last || follow || slash, !last || slash;
    assert comp != DOTDOT by { assert DOTDOT[0] == 46; }
    assert RailStep(s, a, st.base, comp, f, w, links);
    var next := Step(s, Virtual, n, comp, f, w, links);
    assert next.Found?;
    if next.node == StateNode(a, st') {
      ScanWalk(s, a, cs, i + 1, st', follow, slash, next.links);
    } else {
      assert Walk(s, Virtual, next.node, rest, follow, slash, next.links) == next;
      RealMember(cs[i + 1..], TMP);
      NoTemp(cs, i + 1, st');
    }
  }

  // ----- one restart -----

  ghost predicate SlashFree(cs: seq<Bytes>) {
    forall k :: 0 <= k < |cs| ==> SLASH !in cs[k]
  }

  lemma SplitIsSlashFree(cur: Bytes)
    ensures SlashFree(Split(cur))
  {
    forall k | 0 <= k < |Split(cur)| ensures SLASH !in Split(cur)[k] {
      SplitSlashFree(cur, k);
    }
  }

  /** Only the last component decides whether a text with names in it ends in a slash. */
  lemma RealOne(c: Bytes)
    ensures Real([c]) == if IsReal(c) then [c] else []
  {
    assert [c][1..] == [];
  }

  lemma {:induction false} TrailingJoin(front: Bytes, l: seq<Bytes>)
    requires SlashFree(l) && Real(l) != []
    ensures Trailing(front + [SLASH] + Join(l)) <==> l[|l| - 1] == []
  {
    SlashedJoin(l);
    var last := l[|l| - 1];
    var t := front + [SLASH] + Join(l);
    assert t == front + Slashed(l);
    var init := Slashed(l[..|l| - 1]);
    assert t == front + (init + [SLASH] + last);
    if last == [] {
      RealOne(last);
      assert |l| == 1 ==> l == [last];
      SlashedFirst(l[..|l| - 1]);
    } else {
      assert t[|t| - 1] == last[|last| - 1];
    }
  }

  /** The host name of every physical path is the virtual path of its node. */
  ghost predicate Honest(s: Fs, root: Bytes) {
    && Scaffold(s) && s.profile.MacShim?
    && (forall n {:trigger HonestAt(s, root, n)} :: Linked(s, n) && Visible(s, n) ==> HonestAt(s, root, n))
  }

  ghost predicate HonestAt(s: Fs, root: Bytes, n: nat)
    requires Scaffold(s) && Linked(s, n) && Visible(s, n)
  {
    HostName(root, PathOf(PhysNames(s, n))) == PathOf(VirtNames(s, n))
  }

  lemma MacHonest(s: Fs, root: Bytes, a: Skeleton)
    requires Mac(s, root, a)
    ensures Honest(s, root)
  {
    forall n | Linked(s, n) && Visible(s, n)
      ensures HonestAt(s, root, n)
    {
      HostNameIsVirtual(s, root, a, n);
    }
  }

  /** The text that replaces `cur`, when the resolver named directory `d`: the virtual path of
      the virtual parent of `d`, followed by what stood behind the `..`. */
  lemma RejoinText(s: Fs, root: Bytes, d: nat, cs: seq<Bytes>, e: Escape)
    requires Scaffold(s) && Linked(s, d) && Visible(s, d) && HonestAt(s, root, d) && e.at < |cs|
    ensures Valid(s, ParentOf(s, Virtual, d))
    ensures var par := ParentOf(s, Virtual, d);
            && Linked(s, par) && Visible(s, par)
            && Rejoin(root, cs, e, PathOf(PhysNames(s, d))) == Slashed(VirtNames(s, par)) + [SLASH] + Join(cs[e.at + 1..])
  {
    ParentText(s, d);
    RejoinIs(root, cs, e, PathOf(PhysNames(s, d)), VirtNames(s, ParentOf(s, Virtual, d)));
  }

  lemma {:induction false} RejoinIs(root: Bytes, cs: seq<Bytes>, e: Escape, answer: Bytes, names: seq<Bytes>)
    requires e.at < |cs| && TextualParent(HostName(root, answer)) == PathOf(names)
    requires PathOf(names) == [SLASH] ==> names == []
    ensures Rejoin(root, cs, e, answer) == Slashed(names) + [SLASH] + Join(cs[e.at + 1..])
  {
    if names == [] {
      assert Slashed(names) + [SLASH] == [SLASH];
    }
  }

  lemma ParentText(s: Fs, d: nat)
    requires Scaffold(s) && Linked(s, d) && Visible(s, d)
    ensures Valid(s, ParentOf(s, Virtual, d))
    ensures var par := ParentOf(s, Virtual, d);
            && FsState.Enter(s, Virtual, par) == par
            && Linked(s, par) && Visible(s, par) && (IsDir(s, d) ==> IsDir(s, par))
            && TextualParent(PathOf(VirtNames(s, d))) == PathOf(VirtNames(s, par))
            && (PathOf(VirtNames(s, par)) == [SLASH] ==> VirtNames(s, par) == [])
  {
    ScaffoldMounts(s);
    EnterParent(s, d);
    LinkedUp(s, Virtual, d);
    var par := ParentOf(s, Virtual, d);
    VisibleSelf(s, par);
    VirtualSound(s, d);
    VirtualSound(s, par);
    SoundUp(s, Virtual, d);
    FullNamesUp(s, Virtual, d);
    SoundNames(s, Virtual, par);
    var names := VirtNames(s, par);
    SlashAlone(names);
    if NameAndParent(s, Virtual, d).None? {
      assert NodeOk(s, ROOT);
      assert LastSlash([SLASH]) == Some(0);
    } else {
      assert NameAndParent(s, Virtual, d).value.1 == par;
      var k := NameAndParent(s, Virtual, d).value.0;
      assert VirtNames(s, d) == names + [k];
      TextualParentOf(names, k);
    }
  }

  lemma {:induction false} SlashAlone(names: seq<Bytes>)
    requires forall k :: k in names ==> IsName(k)
    ensures PathOf(names) == [SLASH] ==> names == []
  {
    if names != [] {
      var last := names[|names| - 1];
      assert last in names && last != [];
      assert |Slashed(names)| >= 1 + |last|;
    }
  }

  ghost function VLook(s: Fs, text: Bytes, follow: bool): Found
    requires Closed(s)
  {
    Resolve(s, Virtual, ROOT, text, follow, 0)
  }

  /** The components of a virtual path with a remainder behind it. */
  lemma {:induction false} CompsOver(names: seq<Bytes>, l: seq<Bytes>)
    requires SlashFree(l) && forall k :: k in names ==> IsName(k)
    ensures var next := Slashed(names) + [SLASH] + Join(l); next[0] == SLASH && Comps(next) == names + Real(l)
  {
    CompsSlashed(names);
    SplitOfJoin(l);
    CompsJoin(Slashed(names), Join(l));
    if names != [] {
      SlashedFirst(names);
    }
  }

  /** Looking up a virtual path with a remainder behind it continues from its node. */
  lemma {:induction false} LookBehind(s: Fs, par: nat, l: seq<Bytes>, follow: bool, slash: bool, links: nat)
    requires Scaffold(s) && s.profile.MacShim? && Linked(s, par) && Visible(s, par) && IsDir(s, par)
    requires SlashFree(l) && links <= MaxLinks(s)
    requires Real(l) != [] ==> (slash <==> l[|l| - 1] == [])
    requires var next := Slashed(VirtNames(s, par)) + [SLASH] + Join(l); |next| < PATH_MAX
    ensures var next := Slashed(VirtNames(s, par)) + [SLASH] + Join(l);
            NoWorse(Walk(s, Virtual, par, Real(l), follow, slash, links), VLook(s, next, follow))
  {
    var names := VirtNames(s, par);
    var next := Slashed(names) + [SLASH] + Join(l);
    VirtualSound(s, par);
    SoundNames(s, Virtual, par);
    CompsOver(names, l);
    ScaffoldRoot(s);
    VisibleSelf(s, ROOT);
    if Real(l) != [] {
      TrailingJoin(Slashed(names), l);
    }
    WalkBehind(s, par, Real(l), follow, slash, Trailing(next), links);
  }

  lemma {:induction false} WalkBehind(s: Fs, par: nat, rest: seq<Bytes>, follow: bool, slash: bool, trailing: bool, links: nat)
    requires Scaffold(s) && Sound(s, Virtual, par) && IsDir(s, par) && links <= MaxLinks(s)
    requires rest != [] ==> trailing == slash
    ensures NoWorse(Walk(s, Virtual, par, rest, follow, slash, links),
                    Walk(s, Virtual, ROOT, FullNames(s, Virtual, par) + rest, follow, trailing, 0))
  {
    var names := FullNames(s, Virtual, par);
    if rest == [] {
      assert names + rest == names;
      WalkNames(s, Virtual, par, follow, trailing, 0);
    } else {
      WalkAppend(s, Virtual, ROOT, names, rest, follow, slash, 0);
      WalkNames(s, Virtual, par, true, true, 0);
      WalkFewer(s, Virtual, par, rest, follow, slash, links, 0);
    }
  }

  /** The answer is the physical name of the node that the query leads to, or a refusal. */
  ghost predicate KernelAnswer(s: Fs, q: Bytes, answer: Answer)
    requires Closed(s)
  {
    answer.Resolved? ==>
      var r := Resolve(s, Physical, ROOT, q, true, 0);
      r.Found? && Ends(s, Reported(Physical), r.node) && answer.text == FullPath(s, Physical, r.node)
  }

  /** The resolver answers as the kernel does. */
  ghost predicate KernelLike(s: Fs, resolve: Resolver)
    requires Closed(s)
  {
    forall k: nat, q: Bytes {:trigger KernelAnswer(s, q, resolve(k, q))} :: KernelAnswer(s, q, resolve(k, q))
  }

  /** A tame query whose directory the virtual walk reaches is answered with the physical
      name of that very directory. */
  lemma QueryAnswer(s: Fs, resolve: Resolver, k: nat, q: Bytes, d: nat)
    requires Scaffold(s) && KernelLike(s, resolve) && Tame(s, q, true)
    requires VLook(s, q, true).Found? && VLook(s, q, true).node == d
    requires resolve(k, q).Resolved?
    ensures Linked(s, d) && Visible(s, d) && resolve(k, q).text == PathOf(PhysNames(s, d))
  {
    assert KernelAnswer(s, q, resolve(k, q));
    TameAgrees(s, q, true);
    ScaffoldMounts(s);
    ScaffoldRoot(s);
    ResolveLinked(s, Virtual, ROOT, q, true, 0);
    ResolveVisible(s, ROOT, q, true, 0);
  }

  /** What is found behind a `..` off the queried directory is found by the rewritten text. */
  lemma RestartFrom(s: Fs, root: Bytes, resolve: Resolver, k: nat, q: Bytes, d: nat, links: nat,
                    cs: seq<Bytes>, e: Escape, follow: bool, slash: bool)
    requires Honest(s, root) && KernelLike(s, resolve) && Tame(s, q, true) && resolve(k, q).Resolved?
    requires VLook(s, q, true).Found? && VLook(s, q, true).node == d && IsDir(s, d) && links <= MaxLinks(s)
    requires SlashFree(cs) && e.at < |cs|
    requires Real(cs[e.at + 1..]) != [] ==> (slash <==> cs[|cs| - 1] == [])
    requires |Rejoin(root, cs, e, resolve(k, q).text)| < PATH_MAX
    ensures NoWorse(Walk(s, Virtual, d, [DOTDOT] + Real(cs[e.at + 1..]), follow, slash, links),
                    VLook(s, Rejoin(root, cs, e, resolve(k, q).text), follow))
  {
    QueryAnswer(s, resolve, k, q, d);
    assert HonestAt(s, root, d);
    RestartAt(s, root, d, links, resolve(k, q).text, cs, e, follow, slash);
  }

  lemma RestartAt(s: Fs, root: Bytes, d: nat, links: nat, answer: Bytes, cs: seq<Bytes>, e: Escape, follow: bool, slash: bool)
    requires Scaffold(s) && s.profile.MacShim? && Linked(s, d) && Visible(s, d) && IsDir(s, d) && links <= MaxLinks(s)
    requires HonestAt(s, root, d) && answer == PathOf(PhysNames(s, d))
    requires SlashFree(cs) && e.at < |cs| && (Real(cs[e.at + 1..]) != [] ==> (slash <==> cs[|cs| - 1] == []))
    requires |Rejoin(root, cs, e, answer)| < PATH_MAX
    ensures NoWorse(Walk(s, Virtual, d, [DOTDOT] + Real(cs[e.at + 1..]), follow, slash, links), VLook(s, Rejoin(root, cs, e, answer), follow))
  {
    RejoinText(s, root, d, cs, e);
    TailOf(cs, e.at + 1);
    Behind(s, d, cs[e.at + 1..], Rejoin(root, cs, e, answer), follow, slash, links);
  }

  lemma TailOf(cs: seq<Bytes>, i: nat)
    requires SlashFree(cs) && i <= |cs|
    ensures SlashFree(cs[i..]) && (Real(cs[i..]) != [] ==> i < |cs| && cs[i..][|cs[i..]| - 1] == cs[|cs| - 1])
  {
  }

  lemma Behind(s: Fs, d: nat, l: seq<Bytes>, next: Bytes, follow: bool, slash: bool, links: nat)
    requires Scaffold(s) && s.profile.MacShim? && Linked(s, d) && Visible(s, d) && IsDir(s, d) && links <= MaxLinks(s)
    requires SlashFree(l) && (Real(l) != [] ==> (slash <==> l[|l| - 1] == []))
    requires Valid(s, ParentOf(s, Virtual, d)) && Linked(s, ParentOf(s, Virtual, d)) && Visible(s, ParentOf(s, Virtual, d))
    requires next == Slashed(VirtNames(s, ParentOf(s, Virtual, d))) + [SLASH] + Join(l) && |next| < PATH_MAX
    ensures NoWorse(Walk(s, Virtual, d, [DOTDOT] + Real(l), follow, slash, links), VLook(s, next, follow))
  {
    ParentText(s, d);
    LookBehind(s, ParentOf(s, Virtual, d), l, follow, slash, links);
    assert ([DOTDOT] + Real(l))[1..] == Real(l);
  }

}
