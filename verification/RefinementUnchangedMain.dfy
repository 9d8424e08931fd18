/** An Unchanged answer of the mapping loop is a tame walk. */
module RefinementUnchangedMain {
  import opened Text
  import opened TmpPath
  import opened FsState
  import opened FsTree
  import opened FsPaths
  import opened FsReach
  import opened FsTame
  import opened MacTree
  import opened MacNames
  import opened Refinement
  import opened RefinementLoop
  import opened RefinementUnchanged

  // ----- the scan over the name of a directory -----

  lemma ScanOver(cs: seq<Bytes>, i: nat, st: Scan, st': Scan)
    requires i < |cs| && cs[i] != DOTDOT && ScanMove(st, cs[i], i + 1, TMP in cs[i + 1..]) == Go(st')
    ensures ScanFrom(cs, i, st) == ScanFrom(cs, i + 1, st')
  {
  }

  /** The state of a scan that has read the physical name of directory `n`. */
  ghost predicate NamedState(s: Fs, a: Skeleton, st: Scan, n: nat)
    requires HostTemps(s, a)
  {
    (st.InBase? && n == BaseNode(a, st.base)) || (st.InOther? && n !in Top(s, a))
  }

  /** One name further down. */
  lemma DownMove(s: Fs, a: Skeleton, st: Scan, p: nat, k: Bytes, n: nat, end: nat, ahead: bool) returns (st': Scan)
    requires Floor(s, a) && NamedState(s, a, st, p) && EntryIs(s, p, k, n) && IsName(k) && Visible(s, n) && IsDir(s, n)
    ensures ScanMove(st, k, end, ahead) == Go(st') && NamedState(s, a, st', n)
  {
    st' := ScanMove(st, k, end, ahead).state;
    if st.InBase? && OnRail(st.base, k) {
      MoveOnRails(st.base, k, end, ahead);
      RailDir(s, a, st.base, k, n);
    } else if n in Top(s, a) {
      TopEntry(s, a, p, k);
      BasesDiffer(s, a);
    }
  }

  /** A directory listed under a rail name, no mountpoint, is the next base. */
  lemma RailDir(s: Fs, a: Skeleton, b: Base, k: Bytes, n: nat)
    requires Floor(s, a) && OnRail(b, k) && EntryIs(s, BaseNode(a, b), k, n) && Visible(s, n) && IsDir(s, n)
    ensures (k == PRIVATE && n == a.priv) || (k == VAR && n == a.vari)
  {
    VisibleSelf(s, n);
  }

  lemma BasesDiffer(s: Fs, a: Skeleton)
    requires Floor(s, a)
    ensures a.priv != ROOT && a.vari != ROOT && a.vari != a.priv
  {
    NotRootEntry(s, ROOT, PRIVATE);
    NotRootEntry(s, a.priv, VAR);
  }

  lemma LastName(cs: seq<Bytes>, names: seq<Bytes>, k: Bytes)
    requires |cs| > |names| + 1 && cs[1..2 + |names|] == names + [k]
    ensures cs[1..1 + |names|] == names && cs[1 + |names|] == k
  {
    var i := |names|;
    var front := cs[1..2 + i];
    assert front[..i] == names && front[i] == k;
    assert cs[1..1 + i] == front[..i] && cs[1 + i] == front[i];
  }

  /** The directory above, and the name in it. */
  lemma NamedUp(s: Fs, n: nat) returns (p: nat, k: Bytes)
    requires WellFormed(s) && Linked(s, n) && Visible(s, n) && n != ROOT
    ensures Linked(s, p) && Visible(s, p) && IsDir(s, p) && EntryIs(s, p, k, n) && IsName(k)
    ensures PhysNames(s, n) == PhysNames(s, p) + [k] && |Chain(s, Owner, p)| < |Chain(s, Owner, n)|
  {
    LinkedParent(s, n);
    VisibleUp(s, n);
    ChainUp(s, Owner, n);
    p := s.nodes[n].parent.value;
    k := EntryName(s, p, n);
    PhysUp(s, p, k, n);
    EntryFacts(s, p, k, n);
  }

  /** `cs` begins, behind the leading slash, with `names`. */
  predicate BeginsWith(cs: seq<Bytes>, names: seq<Bytes>) {
    |cs| > |names| && cs[0] == [] && cs[1..1 + |names|] == names
  }

  lemma BeginsUp(cs: seq<Bytes>, names: seq<Bytes>, k: Bytes)
    requires BeginsWith(cs, names + [k])
    ensures BeginsWith(cs, names) && |cs| > 1 + |names| && cs[1 + |names|] == k
  {
    LastName(cs, names, k);
  }

  lemma DownOne(s: Fs, a: Skeleton, p: nat, k: Bytes, n: nat, cs: seq<Bytes>, i: nat, up: Scan) returns (st: Scan)
    requires Floor(s, a) && NamedState(s, a, up, p) && EntryIs(s, p, k, n) && IsName(k) && Visible(s, n) && IsDir(s, n)
    requires i < |cs| && cs[i] == k
    ensures ScanFrom(cs, i, up) == ScanFrom(cs, i + 1, st) && NamedState(s, a, st, n)
  {
    st := DownMove(s, a, up, p, k, n, i + 1, TMP in cs[i + 1..]);
    ScanOver(cs, i, up, st);
  }

  lemma {:induction false} ScanDown(s: Fs, a: Skeleton, n: nat, cs: seq<Bytes>) returns (st: Scan)
    requires Floor(s, a) && Linked(s, n) && Visible(s, n) && IsDir(s, n) && BeginsWith(cs, PhysNames(s, n))
    ensures ScanFrom(cs, 0, InBase(AtRoot)) == ScanFrom(cs, 1 + |PhysNames(s, n)|, st) && NamedState(s, a, st, n)
    decreases |Chain(s, Owner, n)|
  {
    if n == ROOT {
      PhysRoot(s);
      st := InBase(AtRoot);
      ScanOver(cs, 0, InBase(AtRoot), st);
    } else {
      var p, k := NamedUp(s, n);
      BeginsUp(cs, PhysNames(s, p), k);
      var up := ScanDown(s, a, p, cs);
      st := DownOne(s, a, p, k, n, cs, 1 + |PhysNames(s, p)|, up);
    }
  }

  /** The scan over the canonical name of a private temp directory. */
  lemma ScanCanonical(cs: seq<Bytes>, sub: Sub)
    requires |cs| > 1 + |SubNames(sub)| && cs[0] == [] && cs[1..2 + |SubNames(sub)|] == [PRIVATE] + SubNames(sub)
    ensures var start := 2 + |SubNames(sub)|;
            ScanFrom(cs, 0, InBase(AtRoot)) == ScanFrom(cs, start, InTemp(sub, SubBase(sub), start, 0, false))
  {
    RailNames();
    RailKeys();
    var names := [PRIVATE] + SubNames(sub);
    assert cs[1] == cs[1..2 + |SubNames(sub)|][0] == names[0];
    assert cs[2] == cs[1..2 + |SubNames(sub)|][1] == names[1];
    ScanOver(cs, 0, InBase(AtRoot), InBase(AtRoot));
    MoveOnRails(AtRoot, PRIVATE, 2, TMP in cs[2..]);
    ScanOver(cs, 1, InBase(AtRoot), InBase(AtPrivate));
    MoveOnRails(AtPrivate, names[1], 3, TMP in cs[3..]);
    if sub.TmpSub? {
      ScanOver(cs, 2, InBase(AtPrivate), InTemp(TmpSub, AtPrivate, 3, 0, false));
    } else {
      assert cs[3] == cs[1..4][2] == names[2];
      ScanOver(cs, 2, InBase(AtPrivate), InBase(AtPrivVar));
      MoveOnRails(AtPrivVar, TMP, 4, TMP in cs[4..]);
      ScanOver(cs, 3, InBase(AtPrivVar), InTemp(VarTmpSub, AtPrivVar, 4, 0, false));
    }
  }

  /** The names of a place in the private tree; only its top has none behind the canonical ones. */
  lemma InsideNames(s: Fs, root: Bytes, a: Skeleton, n: nat, p: Place)
    requires Mac(s, root, a) && Mounts(s, a) && Linked(s, n) && Visible(s, n) && PlaceOk(s, a, n, p) && p.Inside?
    ensures VirtNames(s, n) == [PRIVATE] + SubNames(p.sub) + p.rest
    ensures forall k :: k in p.rest ==> IsName(k)
    ensures p.rest == [] ==> s.nodes[n].virtualParent.Some?
  {
    TargetNames(s, root, a, p.sub);
    RestNames(s, n, p.rest);
    if p.rest == [] {
      assert PhysNames(s, Target(a, p.sub)) + [] == PhysNames(s, Target(a, p.sub));
      PhysInjective(s, n, Target(a, p.sub));
    }
  }

  lemma CutHead(cs: seq<Bytes>, names: seq<Bytes>, rest: seq<Bytes>, tail: seq<Bytes>)
    requires cs == [[]] + (names + rest) + tail
    ensures |cs| > |names| && cs[0] == [] && cs[1..1 + |names|] == names && cs[1 + |names|..] == rest + tail
  {
  }

  lemma CanonicalStays(sub: Sub, rest: seq<Bytes>, tail: seq<Bytes>, cs: seq<Bytes>)
    requires cs == [[]] + ([PRIVATE] + SubNames(sub) + rest) + tail && forall k :: k in rest ==> IsName(k)
    requires rest == [] && Real(tail) != [] ==> Real(tail)[0] != DOTDOT
    ensures TempOf(ScanFrom(cs, 0, InBase(AtRoot))).Some?
  {
    var start := 2 + |SubNames(sub)|;
    CutHead(cs, [PRIVATE] + SubNames(sub), rest, tail);
    ScanCanonical(cs, sub);
    RealAppend(rest, tail);
    if rest != [] {
      assert rest[0] in rest;
      assert Real(rest)[0] == rest[0];
    }
    TempStays(cs, start, InTemp(sub, SubBase(sub), start, 0, false));
  }

  lemma RestNames(s: Fs, n: nat, rest: seq<Bytes>)
    requires Scaffold(s) && Linked(s, n) && Visible(s, n) && |rest| <= |VirtNames(s, n)|
    requires VirtNames(s, n)[|VirtNames(s, n)| - |rest|..] == rest
    ensures forall k :: k in rest ==> IsName(k)
  {
    VirtualSound(s, n);
    SoundNames(s, Virtual, n);
    forall k | k in rest ensures IsName(k) {
      assert k in VirtNames(s, n)[|VirtNames(s, n)| - |rest|..];
    }
  }

  // ----- the loop -----

  /** The scan of `text` has come to component `i` in state `st` and the physical walk to `n`, having
      followed at most `links` links. */
  ghost predicate Track(s: Fs, a: Skeleton, text: Bytes, i: nat, st: Scan, n: nat, links: nat)
    requires Closed(s) && HostTemps(s, a)
  {
    var cs := Split(text);
    && i <= |cs| && Valid(s, n) && links <= MaxLinks(s)
    && ScanFrom(cs, 0, InBase(AtRoot)) == ScanFrom(cs, i, st) && Stood(s, a, cs, i, st, n)
    && NoWorse(Found(n, links), Walk(s, Physical, ROOT, Real(cs[..i]), true, true, 0))
  }

  lemma RealUpTo(cs: seq<Bytes>, i: nat)
    requires i < |cs|
    ensures Real(cs[..i + 1]) == if IsReal(cs[i]) then Real(cs[..i]) + [cs[i]] else Real(cs[..i])
  {
    assert cs[..i + 1] == cs[..i] + [cs[i]];
    RealAppend(cs[..i], [cs[i]]);
    RealOne(cs[i]);
  }

  /** The walk of the components so far, one component further. */
  lemma FrontOn(s: Fs, cs: seq<Bytes>, i: nat, n: nat, links: nat)
    requires WellFormed(s) && i < |cs| && Valid(s, n) && links <= MaxLinks(s) && IsReal(cs[i])
    requires NoWorse(Found(n, links), Walk(s, Physical, ROOT, Real(cs[..i]), true, true, 0))
    ensures cs[i] == DOTDOT ==> Valid(s, ParentOf(s, Physical, n))
                                && NoWorse(Found(ParentOf(s, Physical, n), links), Walk(s, Physical, ROOT, Real(cs[..i + 1]), true, true, 0))
    ensures cs[i] != DOTDOT ==>
              NoWorse(Step(s, Physical, n, cs[i], true, true, links), Walk(s, Physical, ROOT, Real(cs[..i + 1]), true, true, 0))
  {
    RealUpTo(cs, i);
    var front := Walk(s, Physical, ROOT, Real(cs[..i]), true, true, 0);
    WalkAppendDirs(s, Physical, ROOT, Real(cs[..i]), [cs[i]], 0);
    assert [cs[i]][1..] == [];
    assert NodeClosed(s.nodes[n], |s.nodes|);
    if cs[i] != DOTDOT {
      StepFewer(s, Physical, n, cs[i], true, true, links, front.links);
    }
  }

  /** All that the induction needs to know about the tree and the resolver. */
  ghost predicate Setting(s: Fs, root: Bytes, a: Skeleton, cap: nat, resolve: Resolver) {
    && Mac(s, root, a) && Floor(s, a) && Honest(s, root) && KernelLike(s, resolve) && cap <= PATH_MAX
  }

  ghost predicate Absolute(text: Bytes) {
    0 < |text| < PATH_MAX && text[0] == SLASH
  }

  /** The text is left as it is. */
  ghost predicate Leaves(root: Bytes, text: Bytes, cap: nat, resolve: Resolver, asked: nat) {
    MapLoop(root, text, false, cap, resolve, asked).result.Unchanged?
  }

  ghost predicate GroundFrom(s: Fs, a: Skeleton, text: Bytes, i: nat, n: nat, follow: bool, slash: bool, links: nat)
    requires Closed(s) && HostTemps(s, a)
  {
    && i <= |Split(text)| && Valid(s, n) && links <= MaxLinks(s)
    && GroundWalk(s, Top(s, a), n, Real(Split(text)[i..]), follow, slash, links)
  }

  ghost predicate TameFromAt(s: Fs, text: Bytes, i: nat, n: nat, follow: bool, slash: bool, links: nat)
    requires Closed(s)
  {
    && i <= |Split(text)| && Valid(s, n) && links <= MaxLinks(s)
    && TameEnd(s, n, Real(Split(text)[i..]), follow, slash, links)
  }

  lemma NotTemp(root: Bytes, text: Bytes, cap: nat, resolve: Resolver, asked: nat)
    requires Leaves(root, text, cap, resolve, asked)
    ensures TempOf(ScanFrom(Split(text), 0, InBase(AtRoot))).None?
  {
    if TempOf(ScanFrom(Split(text), 0, InBase(AtRoot))).Some? {
      TempChanges(root, text, cap, resolve, asked);
    }
  }

  lemma TempLeaves(cs: seq<Bytes>, i: nat, st: Scan)
    requires i <= |cs| && st.InTemp? && st.depth == 0 && TempOf(ScanFrom(cs, i, st)).None?
    ensures Real(cs[i..]) != [] && i < |cs| && (IsReal(cs[i]) ==> cs[i] == DOTDOT)
  {
    if Real(cs[i..]) == [] || Real(cs[i..])[0] != DOTDOT {
      TempStays(cs, i, st);
    }
    if i < |cs| {
      RealCons(cs, i);
    }
  }

  lemma NoTmpHere(s: Fs, a: Skeleton, text: Bytes, i: nat, st: Scan, n: nat, follow: bool, slash: bool, links: nat)
    requires Floor(s, a) && Track(s, a, text, i, st, n, links) && GroundFrom(s, a, text, i, n, follow, slash, links)
    requires !st.InTemp? && TMP !in Split(text)[i..]
    ensures TameFromAt(s, text, i, n, follow, slash, links)
  {
    RealMember(Split(text)[i..], TMP);
    StoodVisible(s, a, Split(text), i, st, n);
    NoTmpTame(s, a, n, Real(Split(text)[i..]), follow, slash, links);
  }

  lemma StoodVisible(s: Fs, a: Skeleton, cs: seq<Bytes>, i: nat, st: Scan, n: nat)
    requires Floor(s, a) && i <= |cs| && Stood(s, a, cs, i, st, n) && !st.InTemp?
    ensures Visible(s, n)
  {
  }

  lemma AheadOn(cs: seq<Bytes>, i: nat)
    requires i < |cs|
    ensures TMP in cs[i..] <==> cs[i] == TMP || TMP in cs[i + 1..]
  {
    assert cs[i..] == [cs[i]] + cs[i + 1..];
  }

  lemma SkipTrack(s: Fs, a: Skeleton, text: Bytes, i: nat, st: Scan, n: nat, links: nat)
    requires Closed(s) && HostTemps(s, a) && Track(s, a, text, i, st, n, links) && i < |Split(text)| && !IsReal(Split(text)[i])
    ensures Track(s, a, text, i + 1, st, n, links) && Real(Split(text)[i..]) == Real(Split(text)[i + 1..])
  {
    var cs := Split(text);
    RealUpTo(cs, i);
    RealCons(cs, i);
    AheadOn(cs, i);
    assert |DOTDOT| == 2;
    ScanOver(cs, i, st, st);
  }

  // ----- a name -----

  lemma RailStood(s: Fs, a: Skeleton, cs: seq<Bytes>, i: nat, b: Base, follow: bool, wantDir: bool, links: nat)
    requires Floor(s, a) && i < |cs| && OnRail(b, cs[i]) && links <= MaxLinks(s)
    ensures var n, m := BaseNode(a, b), ScanMove(InBase(b), cs[i], i + 1, TMP in cs[i + 1..]);
            && Valid(s, n) && s.nodes[n].mountedBy.None? && TameStep(s, n, cs[i], follow, links) && m.Go?
            && var next := Step(s, Physical, n, cs[i], follow, wantDir, links);
            next.Found? ==> (follow ==> Stood(s, a, cs, i + 1, m.state, next.node))
                            && (!m.state.InTemp? ==> s.nodes[next.node].mountedBy.None?)
  {
    RailTame(s, a, b, cs[i], follow, wantDir, links);
    MoveOnRails(b, cs[i], i + 1, TMP in cs[i + 1..]);
    VisibleSelf(s, a.priv);
    VisibleSelf(s, a.vari);
    RailNames();
    RailKeys();
    if b == AtRoot && cs[i] != PRIVATE {
      AliasVisible(s, a, cs[i]);
    }
  }

  /** Off the rails, or beyond them, a name leads outside `Top`. */
  lemma OffRail(s: Fs, a: Skeleton, st: Scan, n: nat, name: Bytes)
    requires Floor(s, a) && NamedState(s, a, st, n) && Valid(s, n) && name != DOTDOT && IsReal(name) && (st.InBase? ==> !OnRail(st.base, name))
    ensures !IsAlias(n, name) && (name in s.nodes[n].children ==> s.nodes[n].children[name] !in Top(s, a))
    ensures forall end, ahead :: var m := ScanMove(st, name, end, ahead); m.Go? && m.state.InOther?
  {
    BasesDiffer(s, a);
    if name in s.nodes[n].children && s.nodes[n].children[name] in Top(s, a) {
      TopEntry(s, a, n, name);
    }
  }

  lemma NameStood(s: Fs, a: Skeleton, cs: seq<Bytes>, i: nat, st: Scan, n: nat, follow: bool, wantDir: bool, links: nat)
    requires Floor(s, a) && i < |cs| && IsReal(cs[i]) && cs[i] != DOTDOT && Valid(s, n) && links <= MaxLinks(s)
    requires !st.InTemp? && Stood(s, a, cs, i, st, n) && TMP in cs[i..]
    requires GroundStep(s, Top(s, a), n, cs[i], TMP in cs[i + 1..], follow, links)
    ensures var m := ScanMove(st, cs[i], i + 1, TMP in cs[i + 1..]);
            && s.nodes[n].mountedBy.None? && TameStep(s, n, cs[i], follow, links) && m.Go?
            && var next := Step(s, Physical, n, cs[i], follow, wantDir, links);
            next.Found? ==> (follow ==> Stood(s, a, cs, i + 1, m.state, next.node))
                            && (!m.state.InTemp? ==> s.nodes[next.node].mountedBy.None?)
  {
    if st.InBase? && OnRail(st.base, cs[i]) {
      RailStood(s, a, cs, i, st.base, follow, wantDir, links);
    } else {
      VisibleSelf(s, n);
      OffRail(s, a, st, n, cs[i]);
      StepClear(s, a, n, cs[i], TMP in cs[i + 1..], follow, wantDir, links);
      var next := Step(s, Physical, n, cs[i], follow, wantDir, links);
      if next.Found? {
        VisibleSelf(s, next.node);
      }
    }
  }

  lemma NameTrack(s: Fs, a: Skeleton, text: Bytes, i: nat, st: Scan, n: nat, follow: bool, slash: bool, links: nat)
    requires Floor(s, a) && Track(s, a, text, i, st, n, links) && GroundFrom(s, a, text, i, n, follow, slash, links)
    requires i < |Split(text)| && IsReal(Split(text)[i]) && Split(text)[i] != DOTDOT
    requires !st.InTemp? && TMP in Split(text)[i..] && TempOf(ScanFrom(Split(text), 0, InBase(AtRoot))).None?
    ensures var cs := Split(text);
            var rest := Real(cs[i + 1..]);
            var f, w := rest != [] || follow || slash, rest != [] || slash;
            var m, next := ScanMove(st, cs[i], i + 1, TMP in cs[i + 1..]), Step(s, Physical, n, cs[i], f, w, links);
            && s.nodes[n].mountedBy.None? && TameStep(s, n, cs[i], f, links) && m.Go?
            && (next.Found? ==> if rest == [] then s.nodes[next.node].mountedBy.None?
                                else Track(s, a, text, i + 1, m.state, next.node, next.links)
                                     && GroundFrom(s, a, text, i + 1, next.node, follow, slash, next.links))
  {
    var cs := Split(text);
    var rest := Real(cs[i + 1..]);
    var f, w := rest != [] || follow || slash, rest != [] || slash;
    RealCons(cs, i);
    RealMember(cs[i + 1..], TMP);
    RailNames();
    RailKeys();
    GroundOn(s, Top(s, a), n, cs[i], rest, follow, slash, links);
    NameStood(s, a, cs, i, st, n, f, w, links);
    var m := ScanMove(st, cs[i], i + 1, TMP in cs[i + 1..]);
    ScanOver(cs, i, st, m.state);
    if rest == [] {
      if m.state.InTemp? {
        TempLeaves(cs, i + 1, m.state);
      }
    } else {
      FrontOn(s, cs, i, n, links);
    }
  }

  lemma NameTame(s: Fs, text: Bytes, i: nat, n: nat, follow: bool, slash: bool, links: nat)
    requires Closed(s) && Valid(s, n) && links <= MaxLinks(s) && s.nodes[n].mountedBy.None?
    requires i < |Split(text)| && IsReal(Split(text)[i]) && Split(text)[i] != DOTDOT
    requires var cs := Split(text);
             var rest := Real(cs[i + 1..]);
             var f, w := rest != [] || follow || slash, rest != [] || slash;
             var next := Step(s, Physical, n, cs[i], f, w, links);
             && TameStep(s, n, cs[i], f, links)
             && (next.Found? ==> if rest == [] then s.nodes[next.node].mountedBy.None?
                                 else TameFromAt(s, text, i + 1, next.node, follow, slash, next.links))
    ensures TameFromAt(s, text, i, n, follow, slash, links)
  {
    var cs := Split(text);
    RealCons(cs, i);
    NameEnd(s, n, cs[i], Real(cs[i + 1..]), follow, slash, links);
  }

  // ----- a `..` -----

  lemma UpTame(s: Fs, text: Bytes, i: nat, n: nat, text': Bytes, i': nat, follow: bool, slash: bool, links: nat)
    requires WellFormed(s) && Valid(s, n) && links <= MaxLinks(s) && s.nodes[n].virtualParent.None?
    requires i < |Split(text)| && Split(text)[i] == DOTDOT && i' <= |Split(text')| && Real(Split(text')[i'..]) == Real(Split(text)[i + 1..])
    requires Valid(s, ParentOf(s, Physical, n)) && TameFromAt(s, text', i', ParentOf(s, Physical, n), follow, slash, links)
    ensures TameFromAt(s, text, i, n, follow, slash, links)
  {
    RealCons(Split(text), i);
    assert |DOTDOT| == 2;
    UpEnd(s, n, Real(Split(text)[i + 1..]), follow, slash, links);
  }

  /** A `..` in a base, or at once off a temp root. */
  lemma BackTrack(s: Fs, a: Skeleton, text: Bytes, i: nat, st: Scan, n: nat, follow: bool, slash: bool, links: nat) returns (st': Scan)
    requires Floor(s, a) && Track(s, a, text, i, st, n, links) && GroundFrom(s, a, text, i, n, follow, slash, links)
    requires i < |Split(text)| && Split(text)[i] == DOTDOT && !st.InOther? && (st.InTemp? || TMP in Split(text)[i..])
    ensures s.nodes[n].virtualParent.None? && Valid(s, ParentOf(s, Physical, n))
    ensures Track(s, a, text, i + 1, st', ParentOf(s, Physical, n), links)
    ensures GroundFrom(s, a, text, i + 1, ParentOf(s, Physical, n), follow, slash, links)
  {
    var cs := Split(text);
    assert |DOTDOT| == 2;
    RealCons(cs, i);
    GroundUp(s, Top(s, a), n, Real(cs[i + 1..]), follow, slash, links);
    FrontOn(s, cs, i, n, links);
    st' := InBase(if st.InBase? then BaseParent(st.base) else st.parent);
    BaseUp(s, a, st, n);
    assert ScanFrom(cs, i, st) == ScanFrom(cs, i + 1, st');
  }

  lemma BaseUp(s: Fs, a: Skeleton, st: Scan, n: nat)
    requires Floor(s, a) && Valid(s, n)
    requires (st.InBase? && n == BaseNode(a, st.base)) || (st.InTemp? && st.parent == SubBase(st.sub) && n == HostTemp(s, a, st.sub))
    ensures ParentOf(s, Physical, n) == BaseNode(a, if st.InBase? then BaseParent(st.base) else st.parent)
  {
    NotRootEntry(s, ROOT, PRIVATE);
    NotRootEntry(s, a.priv, VAR);
    NotRootEntry(s, a.priv, TMP);
    NotRootEntry(s, a.vari, TMP);
    assert NodeOk(s, ROOT);
  }

  // ----- a question -----

  lemma EscapesAt(cs: seq<Bytes>, i: nat, st: Scan)
    requires i < |cs| && cs[i] == DOTDOT && st.InOther? && TMP in cs[i..] && ScanFrom(cs, 0, InBase(AtRoot)) == ScanFrom(cs, i, st)
    ensures ScanFrom(cs, 0, InBase(AtRoot)) == Escaping(Escape(0, None, i)) && EscapeOk(cs, 0, Escape(0, None, i))
  {
    assert |DOTDOT| == 2;
    AheadOn(cs, i);
    RailNames();
    RailKeys();
    ScanBounds(cs, 0, InBase(AtRoot));
  }

  /** The round asks about the directory in front of the `..`, and the loop goes on with the
      parent of the answer. */
  lemma AsksAt(root: Bytes, text: Bytes, e: Escape, cap: nat, resolve: Resolver, asked: nat)
    requires Leaves(root, text, cap, resolve, asked)
    requires ScanFrom(Split(text), 0, InBase(AtRoot)) == Escaping(e) && EscapeOk(Split(text), 0, e) && e.sub.None?
    ensures var q := Query(root, Split(text), e);
            && |q| < cap && resolve(asked, q).Resolved?
            && var next := Rejoin(root, Split(text), e, resolve(asked, q).text);
               |next| < PATH_MAX && DotDots(next) < DotDots(text) && Leaves(root, next, cap, resolve, asked + 1)
  {
    AskedAt(root, text, e, cap, resolve, asked);
    var r := OneRound(root, text, false, cap, resolve, asked);
    assert r == AskAt(root, text, e, cap, resolve, asked);
  }

  /** The answer is the name of the node that the walk has come to. */
  lemma AnswerIs(s: Fs, root: Bytes, text: Bytes, i: nat, n: nat, links: nat, resolve: Resolver, asked: nat)
    requires Scaffold(s) && s.profile.MacShim? && KernelLike(s, resolve) && Absolute(text) && i < |Split(text)| && EscapeOk(Split(text), 0, Escape(0, None, i))
    requires NoWorse(Found(n, links), Walk(s, Physical, ROOT, Real(Split(text)[..i]), true, true, 0))
    requires var q := Query(root, Split(text), Escape(0, None, i)); |q| < PATH_MAX && resolve(asked, q).Resolved?
    ensures Linked(s, n) && resolve(asked, Query(root, Split(text), Escape(0, None, i))).text == PathOf(PhysNames(s, n))
  {
    var cs, e := Split(text), Escape(0, None, i);
    var q := Query(root, cs, e);
    SplitIsSlashFree(text);
    AbsoluteHead(text);
    OtherQuery(root, cs, e);
    assert KernelAnswer(s, q, resolve(asked, q));
    ScaffoldMounts(s);
    ScaffoldRoot(s);
    ResolveLinked(s, Physical, ROOT, q, true, 0);
  }

  /** The components of the text that the loop goes on with. */
  lemma SplitNext(names: seq<Bytes>, l: seq<Bytes>)
    requires SlashFree(l) && forall k :: k in names ==> IsName(k)
    ensures var next := Slashed(names) + [SLASH] + Join(l);
            Split(next) == [[]] + names + (if l == [] then [[]] else l) && next[0] == SLASH
  {
    forall k | 0 <= k < |names| ensures SLASH !in names[k] {
      assert names[k] in names;
    }
    SplitSlashed(names);
    SplitJoin(Slashed(names), Join(l));
    SplitOfJoin(l);
    if names != [] {
      SlashedFirst(names);
    }
  }

  ghost predicate SameRest(text: Bytes, i: nat, text': Bytes, i': nat) {
    i < |Split(text)| && i' <= |Split(text')| && Real(Split(text')[i'..]) == Real(Split(text)[i + 1..])
  }

  lemma RestOf(text: Bytes, i: nat, next: Bytes, names: seq<Bytes>)
    requires i < |Split(text)| && (forall k :: k in names ==> IsName(k)) && next == Slashed(names) + [SLASH] + Join(Split(text)[i + 1..])
    ensures var l := Split(text)[i + 1..]; Split(next) == [[]] + names + (if l == [] then [[]] else l) && next[0] == SLASH
    ensures SameRest(text, i, next, 1 + |names|) && BeginsWith(Split(next), names)
  {
    var l := Split(text)[i + 1..];
    SplitIsSlashFree(text);
    assert SlashFree(l);
    SplitNext(names, l);
    var tail := if l == [] then [[]] else l;
    assert Split(next)[1 + |names|..] == tail;
    RealOne([]);
    assert Split(next)[1..1 + |names|] == names;
  }

  /** Outside the private tree the loop goes on from the parent, whose name the new scan reads. */
  lemma OutsideTrack(s: Fs, a: Skeleton, text: Bytes, i: nat, next: Bytes, par: nat, links: nat) returns (st: Scan)
    requires Floor(s, a) && Linked(s, par) && Visible(s, par) && IsDir(s, par) && links <= MaxLinks(s) && i < |Split(text)|
    requires next == Slashed(PhysNames(s, par)) + [SLASH] + Join(Split(text)[i + 1..])
    ensures next[0] == SLASH && SameRest(text, i, next, 1 + |PhysNames(s, par)|)
    ensures Track(s, a, next, 1 + |PhysNames(s, par)|, st, par, links)
  {
    var names := PhysNames(s, par);
    AllNames(s, par);
    RestOf(text, i, next, names);
    var cs := Split(next);
    st := ScanDown(s, a, par, cs);
    PhysicalSound(s, par);
    WalkNames(s, Physical, par, true, true, 0);
    FrontNames(cs, names);
  }

  lemma FrontNames(cs: seq<Bytes>, names: seq<Bytes>)
    requires BeginsWith(cs, names) && forall k :: k in names ==> IsName(k)
    ensures Real(cs[..1 + |names|]) == names
  {
    assert cs[..1 + |names|] == [[]] + names;
    RealAppend([[]], names);
    RealOne([]);
    RealNames(names);
  }

  /** The parent of the node in front of the `..`, and its text. */
  lemma ParentNext(s: Fs, root: Bytes, n: nat, cs: seq<Bytes>, i: nat, answer: Bytes)
    requires Honest(s, root) && Linked(s, n) && Visible(s, n) && n != ROOT && s.nodes[n].virtualParent.None? && i < |cs|
    requires answer == PathOf(PhysNames(s, n))
    ensures var par := ParentOf(s, Physical, n);
            && Valid(s, par) && Linked(s, par) && Visible(s, par) && IsDir(s, par)
            && Rejoin(root, cs, Escape(0, None, i), answer) == Slashed(VirtNames(s, par)) + [SLASH] + Join(cs[i + 1..])
  {
    assert HonestAt(s, root, n);
    RejoinText(s, root, n, cs, Escape(0, None, i));
    LinkedParent(s, n);
  }

  lemma InsideStays(text: Bytes, i: nat, next: Bytes, sub: Sub, below: seq<Bytes>)
    requires i < |Split(text)| && forall k :: k in [PRIVATE] + SubNames(sub) + below ==> IsName(k)
    requires next == Slashed([PRIVATE] + SubNames(sub) + below) + [SLASH] + Join(Split(text)[i + 1..])
    requires var rest := Real(Split(text)[i + 1..]); below == [] && rest != [] ==> rest[0] != DOTDOT
    ensures TempOf(ScanFrom(Split(next), 0, InBase(AtRoot))).Some?
  {
    var names := [PRIVATE] + SubNames(sub) + below;
    RestOf(text, i, next, names);
    var l := Split(text)[i + 1..];
    RealOne([]);
    forall k | k in below ensures IsName(k) { assert k in names; }
    CanonicalStays(sub, below, if l == [] then [[]] else l, Split(next));
  }

  /** The loop does not go on inside the private tree: it would not leave the text as it is. */
  lemma NotInside(s: Fs, root: Bytes, a: Skeleton, text: Bytes, i: nat, next: Bytes, par: nat, p: Place)
    requires Mac(s, root, a) && Mounts(s, a) && Linked(s, par) && Visible(s, par) && PlaceOk(s, a, par, p) && i < |Split(text)|
    requires next == Slashed(VirtNames(s, par)) + [SLASH] + Join(Split(text)[i + 1..])
    requires TempOf(ScanFrom(Split(next), 0, InBase(AtRoot))).None?
    requires var rest := Real(Split(text)[i + 1..]); rest != [] && rest[0] == DOTDOT ==> s.nodes[par].virtualParent.None?
    ensures p.Outside?
  {
    if p.Inside? {
      InsideNames(s, root, a, par, p);
      VirtualSound(s, par);
      SoundNames(s, Virtual, par);
      InsideStays(text, i, next, p.sub, p.rest);
    }
  }

  /** The text that the loop goes on with, and the parent it begins with. */
  ghost predicate GoesOn(s: Fs, text: Bytes, i: nat, next: Bytes, par: nat) {
    && Scaffold(s) && Linked(s, par) && Visible(s, par) && IsDir(s, par) && i < |Split(text)|
    && next == Slashed(VirtNames(s, par)) + [SLASH] + Join(Split(text)[i + 1..])
  }

  lemma EscapeNext(s: Fs, root: Bytes, a: Skeleton, text: Bytes, i: nat, st: Scan, n: nat, links: nat,
                   cap: nat, resolve: Resolver, asked: nat) returns (next: Bytes)
    requires Floor(s, a) && Honest(s, root) && KernelLike(s, resolve) && cap <= PATH_MAX
    requires Absolute(text) && Leaves(root, text, cap, resolve, asked) && Track(s, a, text, i, st, n, links) && s.nodes[n].virtualParent.None?
    requires i < |Split(text)| && Split(text)[i] == DOTDOT && st.InOther? && TMP in Split(text)[i..]
    ensures |next| < PATH_MAX && DotDots(next) < DotDots(text) && Leaves(root, next, cap, resolve, asked + 1)
    ensures GoesOn(s, text, i, next, ParentOf(s, Physical, n))
  {
    var cs, e := Split(text), Escape(0, None, i);
    EscapesAt(cs, i, st);
    AsksAt(root, text, e, cap, resolve, asked);
    var answer := resolve(asked, Query(root, cs, e)).text;
    next := Rejoin(root, cs, e, answer);
    AnswerIs(s, root, text, i, n, links, resolve, asked);
    ParentNext(s, root, n, cs, i, answer);
  }

  lemma EscapeOutside(s: Fs, root: Bytes, a: Skeleton, text: Bytes, i: nat, next: Bytes, par: nat)
    requires Mac(s, root, a) && GoesOn(s, text, i, next, par) && TempOf(ScanFrom(Split(next), 0, InBase(AtRoot))).None?
    requires var rest := Real(Split(text)[i + 1..]); rest != [] && rest[0] == DOTDOT ==> s.nodes[par].virtualParent.None?
    ensures VirtNames(s, par) == PhysNames(s, par)
  {
    MacMounts(s, root, a);
    var p := FindPlace(s, a, par);
    NotInside(s, root, a, text, i, next, par, p);
  }

  lemma EscapeGo(s: Fs, root: Bytes, a: Skeleton, text: Bytes, i: nat, next: Bytes, par: nat, links: nat) returns (at: nat, st: Scan)
    requires Mac(s, root, a) && Floor(s, a) && GoesOn(s, text, i, next, par) && links <= MaxLinks(s)
    requires TempOf(ScanFrom(Split(next), 0, InBase(AtRoot))).None?
    requires var rest := Real(Split(text)[i + 1..]); rest != [] && rest[0] == DOTDOT ==> s.nodes[par].virtualParent.None?
    ensures next[0] == SLASH && SameRest(text, i, next, at) && Track(s, a, next, at, st, par, links)
  {
    EscapeOutside(s, root, a, text, i, next, par);
    at := 1 + |PhysNames(s, par)|;
    st := OutsideTrack(s, a, text, i, next, par, links);
  }

  lemma GroundRest(s: Fs, a: Skeleton, text: Bytes, i: nat, n: nat, follow: bool, slash: bool, links: nat)
    requires WellFormed(s) && HostTemps(s, a) && GroundFrom(s, a, text, i, n, follow, slash, links) && i < |Split(text)| && Split(text)[i] == DOTDOT
    ensures s.nodes[n].virtualParent.None? && Valid(s, ParentOf(s, Physical, n))
    ensures var rest := Real(Split(text)[i + 1..]);
            && GroundWalk(s, Top(s, a), ParentOf(s, Physical, n), rest, follow, slash, links)
            && (rest != [] && rest[0] == DOTDOT ==> s.nodes[ParentOf(s, Physical, n)].virtualParent.None?)
  {
    RealCons(Split(text), i);
    assert |DOTDOT| == 2;
    GroundUp(s, Top(s, a), n, Real(Split(text)[i + 1..]), follow, slash, links);
  }

  lemma Escaped(s: Fs, root: Bytes, a: Skeleton, text: Bytes, i: nat, st: Scan, n: nat, follow: bool, slash: bool, links: nat,
                cap: nat, resolve: Resolver, asked: nat) returns (next: Bytes, at: nat, st': Scan)
    requires Setting(s, root, a, cap, resolve) && Absolute(text) && Leaves(root, text, cap, resolve, asked)
    requires Track(s, a, text, i, st, n, links) && GroundFrom(s, a, text, i, n, follow, slash, links)
    requires i < |Split(text)| && Split(text)[i] == DOTDOT && st.InOther? && TMP in Split(text)[i..]
    ensures Absolute(next) && DotDots(next) < DotDots(text) && Leaves(root, next, cap, resolve, asked + 1) && SameRest(text, i, next, at)
    ensures var par := ParentOf(s, Physical, n);
            && s.nodes[n].virtualParent.None? && Valid(s, par) && Track(s, a, next, at, st', par, links) && GroundFrom(s, a, next, at, par, follow, slash, links)
  {
    GroundRest(s, a, text, i, n, follow, slash, links);
    var par := ParentOf(s, Physical, n);
    next := EscapeNext(s, root, a, text, i, st, n, links, cap, resolve, asked);
    NotTemp(root, next, cap, resolve, asked + 1);
    at, st' := EscapeGo(s, root, a, text, i, next, par, links);
  }

  /** An Unchanged answer is a tame walk. */
  lemma {:induction false} LoopTame(s: Fs, root: Bytes, a: Skeleton, text: Bytes, i: nat, st: Scan, n: nat, follow: bool, slash: bool, links: nat,
                                    cap: nat, resolve: Resolver, asked: nat)
    requires Setting(s, root, a, cap, resolve) && Absolute(text) && Leaves(root, text, cap, resolve, asked)
    requires Track(s, a, text, i, st, n, links) && GroundFrom(s, a, text, i, n, follow, slash, links)
    ensures TameFromAt(s, text, i, n, follow, slash, links)
    decreases DotDots(text), |Split(text)| - i, 1
  {
    var cs := Split(text);
    NotTemp(root, text, cap, resolve, asked);
    if st.InTemp? {
      TempLeaves(cs, i, st);
    }
    if !st.InTemp? && TMP !in cs[i..] {
      NoTmpHere(s, a, text, i, st, n, follow, slash, links);
    } else if !IsReal(cs[i]) {
      SkipTrack(s, a, text, i, st, n, links);
      LoopTame(s, root, a, text, i + 1, st, n, follow, slash, links, cap, resolve, asked);
    } else if cs[i] == DOTDOT && st.InOther? {
      EscapeTame(s, root, a, text, i, st, n, follow, slash, links, cap, resolve, asked);
    } else if cs[i] == DOTDOT {
      BackTame(s, root, a, text, i, st, n, follow, slash, links, cap, resolve, asked);
    } else {
      OnTame(s, root, a, text, i, st, n, follow, slash, links, cap, resolve, asked);
    }
  }

  lemma {:induction false} EscapeTame(s: Fs, root: Bytes, a: Skeleton, text: Bytes, i: nat, st: Scan, n: nat, follow: bool, slash: bool, links: nat,
                                    cap: nat, resolve: Resolver, asked: nat)
    requires Setting(s, root, a, cap, resolve) && Absolute(text) && Leaves(root, text, cap, resolve, asked)
    requires Track(s, a, text, i, st, n, links) && GroundFrom(s, a, text, i, n, follow, slash, links)
    requires i < |Split(text)| && Split(text)[i] == DOTDOT && st.InOther? && TMP in Split(text)[i..]
    ensures TameFromAt(s, text, i, n, follow, slash, links)
    decreases DotDots(text), |Split(text)| - i, 0
  {
    var next, at, st' := Escaped(s, root, a, text, i, st, n, follow, slash, links, cap, resolve, asked);
    LoopTame(s, root, a, next, at, st', ParentOf(s, Physical, n), follow, slash, links, cap, resolve, asked + 1);
    UpTame(s, text, i, n, next, at, follow, slash, links);
  }

  lemma {:induction false} BackTame(s: Fs, root: Bytes, a: Skeleton, text: Bytes, i: nat, st: Scan, n: nat, follow: bool, slash: bool, links: nat,
                                    cap: nat, resolve: Resolver, asked: nat)
    requires Setting(s, root, a, cap, resolve) && Absolute(text) && Leaves(root, text, cap, resolve, asked)
    requires Track(s, a, text, i, st, n, links) && GroundFrom(s, a, text, i, n, follow, slash, links)
    requires i < |Split(text)| && Split(text)[i] == DOTDOT && !st.InOther? && (st.InTemp? || TMP in Split(text)[i..])
    ensures TameFromAt(s, text, i, n, follow, slash, links)
    decreases DotDots(text), |Split(text)| - i, 0
  {
    var st' := BackTrack(s, a, text, i, st, n, follow, slash, links);
    LoopTame(s, root, a, text, i + 1, st', ParentOf(s, Physical, n), follow, slash, links, cap, resolve, asked);
    UpTame(s, text, i, n, text, i + 1, follow, slash, links);
  }

  lemma {:induction false} OnTame(s: Fs, root: Bytes, a: Skeleton, text: Bytes, i: nat, st: Scan, n: nat, follow: bool, slash: bool, links: nat,
                                    cap: nat, resolve: Resolver, asked: nat)
    requires Setting(s, root, a, cap, resolve) && Absolute(text) && Leaves(root, text, cap, resolve, asked)
    requires Track(s, a, text, i, st, n, links) && GroundFrom(s, a, text, i, n, follow, slash, links)
    requires i < |Split(text)| && IsReal(Split(text)[i]) && Split(text)[i] != DOTDOT && !st.InTemp? && TMP in Split(text)[i..]
    requires TempOf(ScanFrom(Split(text), 0, InBase(AtRoot))).None?
    ensures TameFromAt(s, text, i, n, follow, slash, links)
    decreases DotDots(text), |Split(text)| - i, 0
  {
    var cs := Split(text);
    NameTrack(s, a, text, i, st, n, follow, slash, links);
    var f, w := Real(cs[i + 1..]) != [] || follow || slash, Real(cs[i + 1..]) != [] || slash;
    var next := Step(s, Physical, n, cs[i], f, w, links);
    if next.Found? && Real(cs[i + 1..]) != [] {
      LoopTame(s, root, a, text, i + 1, ScanMove(st, cs[i], i + 1, TMP in cs[i + 1..]).state, next.node, follow, slash, next.links, cap, resolve, asked);
    }
    NameTame(s, text, i, n, follow, slash, links);
  }
}
