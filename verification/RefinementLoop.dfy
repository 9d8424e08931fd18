/** What the virtual view finds at a path, the loop of the mapper keeps. */
module RefinementLoop {
  import opened Text
  import opened TmpPath
  import opened FsState
  import opened FsTree
  import opened FsPaths
  import opened FsReach
  import opened FsTame
  import opened MacTree
  import opened MacNames
  import opened Refinement
  import opened RefinementAlias

  /** `base` is the physical spelling of the private temp directory, and it leads there in
      the virtual view as well. */
  ghost predicate TargetBy(s: Fs, root: Bytes, a: Skeleton, sub: Sub, base: seq<Bytes>)
    requires Closed(s)
  {
    && root + SubText(sub) == Slashed(base) && base != []
    && (forall k :: k in base ==> IsName(k))
    && IsDir(s, Target(a, sub))
    && (forall follow, slash :: Walk(s, Virtual, ROOT, base, follow, slash, 0) == Found(Target(a, sub), 0))
  }

  ghost predicate HasTarget(s: Fs, root: Bytes, a: Skeleton, sub: Sub)
    requires Closed(s)
  {
    exists base :: TargetBy(s, root, a, sub, base)
  }

  /** All that the loop of the mapper needs to know about the tree. */
  ghost predicate Ready(s: Fs, root: Bytes, a: Skeleton) {
    && Honest(s, root) && Rails(s, a)
    && (forall sub :: HasTarget(s, root, a, sub))
  }

  lemma MacReady(s: Fs, root: Bytes, a: Skeleton)
    requires Mac(s, root, a)
    ensures Ready(s, root, a)
  {
    MacHonest(s, root, a);
    MacRails(s, root, a);
    forall sub ensures HasTarget(s, root, a, sub) {
      MacTarget(s, root, a, sub);
    }
  }

  lemma MacTarget(s: Fs, root: Bytes, a: Skeleton, sub: Sub)
    requires Mac(s, root, a)
    ensures HasTarget(s, root, a, sub)
  {
    TargetNames(s, root, a, sub);
    MacListed(s, root, a);
    var t := Target(a, sub);
    var base := PhysNames(s, t);
    SubTextIs(sub);
    SlashedAppend(PhysNames(s, a.anchor), SubNames(sub));
    AllNames(s, t);
    var dir := if sub.TmpSub? then a.anchor else a.anchorVar;
    PhysUp(s, dir, TMP, t);
    forall follow, slash ensures Walk(s, Virtual, ROOT, base, follow, slash, 0) == Found(t, 0) {
      WalkPlainChild(s, dir, t, follow, slash);
    }
    assert TargetBy(s, root, a, sub, base);
  }

  /** Under a plain directory the physical names lead to a listed child virtually, too. */
  lemma WalkPlainChild(s: Fs, dir: nat, t: nat, follow: bool, slash: bool)
    requires Scaffold(s) && Plain(s, dir) && Linked(s, dir) && IsDir(s, dir) && IsDir(s, t)
    requires Listed(s, Virtual, t, dir, TMP)
    ensures Walk(s, Virtual, ROOT, PhysNames(s, dir) + [TMP], follow, slash, 0) == Found(t, 0)
  {
    PlainSound(s, dir);
    WalkNames(s, Virtual, dir, true, true, 0);
    WalkAppend(s, Virtual, ROOT, PhysNames(s, dir), [TMP], follow, slash, 0);
    WalkOne(s, Virtual, t, dir, TMP, follow, slash, 0);
  }

  // ----- texts as walks -----

  lemma LookIsWalk(s: Fs, text: Bytes, follow: bool)
    requires Scaffold(s) && s.profile.MacShim? && 0 < |text| < PATH_MAX && text[0] == SLASH
    ensures VLook(s, text, follow) == Walk(s, Virtual, ROOT, Comps(text), follow, Trailing(text), 0)
  {
  }

  /** A directory walk ends at a directory. */
  lemma {:induction false} WalkIsDir(s: Fs, cur: nat, comps: seq<Bytes>, links: nat)
    requires Scaffold(s) && IsDir(s, cur) && links <= MaxLinks(s)
    ensures var r := Walk(s, Virtual, cur, comps, true, true, links); r.Found? ==> IsDir(s, r.node)
    decreases |comps|
  {
    if comps == [] {
    } else if comps[0] == DOTDOT {
      var p := ParentOf(s, Virtual, cur);
      assert NodeOk(s, cur);
      assert s.nodes[cur].virtualParent.Some? ==> TargetOk(s, cur);
      EnterTwice(s, p);
      WalkIsDir(s, FsState.Enter(s, Virtual, p), comps[1..], links);
    } else {
      var next := Step(s, Virtual, cur, comps[0], true, true, links);
      if next.Found? {
        StepIsDir(s, cur, comps[0], links);
        WalkIsDir(s, next.node, comps[1..], next.links);
      }
    }
  }

  lemma StepIsDir(s: Fs, cur: nat, name: Bytes, links: nat)
    requires Scaffold(s) && Valid(s, cur) && links <= MaxLinks(s)
    ensures var r := Step(s, Virtual, cur, name, true, true, links); r.Found? ==> IsDir(s, r.node)
  {
    var k := Key(s, name);
    if k in s.nodes[cur].children {
      var t := FollowLink(s, Virtual, cur, s.nodes[cur].children[k], links);
      if t.Found? {
        EnterTwice(s, t.node);
      }
    }
  }

  /** The text of a query, and of the mapped path: a directory followed by raw components. */
  lemma {:induction false} CompsBelow(base: seq<Bytes>, l: seq<Bytes>)
    requires (forall k :: k in base ==> IsName(k)) && SlashFree(l)
    ensures Comps(Slashed(base) + Slashed(l)) == base + Real(l)
  {
    var t := Slashed(base) + Slashed(l);
    CompsSlashed(base);
    if l == [] {
      assert t == Slashed(base);
      assert base + Real(l) == base;
    } else {
      SlashedJoin(l);
      SplitOfJoin(l);
      CompsBehind(Slashed(base), Join(l));
    }
  }

  lemma CompsBehind(front: Bytes, back: Bytes)
    ensures Comps(front + ([SLASH] + back)) == Comps(front) + Comps(back)
  {
    CompsJoin(front, back);
    assert front + ([SLASH] + back) == front + [SLASH] + back;
  }

  lemma CompsTwoSlashes(t: Bytes)
    ensures Comps(t + [SLASH, SLASH]) == Comps(t)
    ensures Trailing(t + [SLASH, SLASH])
  {
    CompsTrailing(t);
    CompsTrailing(t + [SLASH]);
    assert t + [SLASH, SLASH] == t + [SLASH] + [SLASH];
  }

  lemma {:induction false} RealCut(cs: seq<Bytes>, i: nat)
    requires i < |cs| && cs[i] == DOTDOT
    ensures Real(cs) == Real(cs[..i]) + ([DOTDOT] + Real(cs[i + 1..]))
  {
    assert cs == cs[..i] + cs[i..];
    RealAppend(cs[..i], cs[i..]);
    RealCons(cs, i);
    assert DOTDOT != DOT by { assert |DOTDOT| == 2; }
  }

  /** A text ends in a slash exactly when its last component is empty, names given. */
  lemma {:induction false} TrailingOf(cur: Bytes, i: nat)
    requires 0 < i < |Split(cur)| && Real(Split(cur)[i..]) != []
    ensures Trailing(cur) <==> Split(cur)[|Split(cur)| - 1] == []
  {
    SplitIsSlashFree(cur);
    JoinSplit(cur);
    TrailingCut(cur, Split(cur), i);
  }

  lemma {:induction false} TrailingCut(cur: Bytes, cs: seq<Bytes>, i: nat)
    requires SlashFree(cs) && cur == Join(cs) && 0 < i < |cs| && Real(cs[i..]) != []
    ensures Trailing(cur) <==> cs[|cs| - 1] == []
  {
    JoinCut(cs, i);
    var l := cs[i..];
    assert l[|l| - 1] == cs[|cs| - 1];
    TrailingJoin(Join(cs[..i]), l);
  }

  lemma TrailingBehind(cur: Bytes, at: nat)
    requires at < |Split(cur)|
    ensures Real(Split(cur)[at + 1..]) != [] ==> (Trailing(cur) <==> Split(cur)[|Split(cur)| - 1] == [])
  {
    if Real(Split(cur)[at + 1..]) != [] {
      TrailingOf(cur, at + 1);
    }
  }

  // ----- the two kinds of escape -----

  lemma {:induction false} AbsoluteHead(cur: Bytes)
    requires cur != [] && cur[0] == SLASH
    ensures Split(cur)[0] == []
  {
    NextSlashIs(cur, 0, 0);
  }

  /** The query of an escape off an ordinary directory. */
  lemma {:induction false} OtherQuery(root: Bytes, cs: seq<Bytes>, e: Escape)
    requires SlashFree(cs) && EscapeOk(cs, 0, e) && e.sub.None? && cs[0] == []
    ensures var q := Query(root, cs, e);
            q[0] == SLASH && Trailing(q) && Comps(q) == Real(cs[..e.at])
  {
    var front := cs[..e.at];
    SplitOfJoin(front);
    CompsTwoSlashes(Join(front));
    assert [] + (Join(front) + [SLASH]) + [SLASH] == Join(front) + [SLASH, SLASH];
    assert front[1..] == cs[1..e.at];
    if e.at > 1 {
      SlashedFirst(front[1..]);
    }
  }

  lemma {:induction false} OtherRestart(s: Fs, root: Bytes, resolve: Resolver, k: nat, cur: Bytes, e: Escape, follow: bool)
    requires Honest(s, root) && KernelLike(s, resolve)
    requires 0 < |cur| < PATH_MAX && cur[0] == SLASH && VLook(s, cur, follow).Found?
    requires EscapeOk(Split(cur), 0, e) && e.sub.None?
    requires var q := Query(root, Split(cur), e);
             |q| < PATH_MAX && Tame(s, q, true) && resolve(k, q).Resolved?
             && |Rejoin(root, Split(cur), e, resolve(k, q).text)| < PATH_MAX
    ensures NoWorse(VLook(s, cur, follow), VLook(s, Rejoin(root, Split(cur), e, resolve(k, Query(root, Split(cur), e)).text), follow))
  {
    var cs := Split(cur);
    var q := Query(root, cs, e);
    SplitIsSlashFree(cur);
    AbsoluteHead(cur);
    OtherQuery(root, cs, e);
    LookIsWalk(s, cur, follow);
    LookIsWalk(s, q, true);
    RealCut(cs, e.at);
    var rest := [DOTDOT] + Real(cs[e.at + 1..]);
    WalkAppend(s, Virtual, ROOT, Real(cs[..e.at]), rest, follow, Trailing(cur), 0);
    var front := VLook(s, q, true);
    assert NodeOk(s, ROOT);
    WalkIsDir(s, ROOT, Real(cs[..e.at]), 0);
    TrailingBehind(cur, e.at);
    RestartFrom(s, root, resolve, k, q, front.node, front.links, cs, e, follow, Trailing(cur));
  }

  /** The query of an escape off a private temp directory walks from there. */
  lemma {:induction false} TempQuery(s: Fs, root: Bytes, a: Skeleton, sub: Sub, l: seq<Bytes>)
    requires Scaffold(s) && s.profile.MacShim? && HasTarget(s, root, a, sub) && SlashFree(l)
    requires |root + SubText(sub) + (Slashed(l) + [SLASH]) + [SLASH]| < PATH_MAX
    ensures IsDir(s, Target(a, sub))
    ensures VLook(s, root + SubText(sub) + (Slashed(l) + [SLASH]) + [SLASH], true)
         == Walk(s, Virtual, Target(a, sub), Real(l), true, true, 0)
  {
    var base :| TargetBy(s, root, a, sub, base);
    var text := Slashed(base) + Slashed(l);
    CompsBelow(base, l);
    CompsTwoSlashes(text);
    SlashedFirst(base);
    assert root + SubText(sub) + (Slashed(l) + [SLASH]) + [SLASH] == text + [SLASH, SLASH];
    LookIsWalk(s, text + [SLASH, SLASH], true);
    WalkAppendDirs(s, Virtual, ROOT, base, Real(l), 0);
  }

  lemma {:induction false} TempRestart(s: Fs, root: Bytes, t: nat, resolve: Resolver, k: nat, q: Bytes, cs: seq<Bytes>, e: Escape, follow: bool, slash: bool)
    requires Honest(s, root) && KernelLike(s, resolve) && IsDir(s, t) && SlashFree(cs) && EscapeOk(cs, 0, e)
    requires Real(cs[e.at + 1..]) != [] ==> (slash <==> cs[|cs| - 1] == [])
    requires VLook(s, q, true) == Walk(s, Virtual, t, Real(cs[e.start..e.at]), true, true, 0)
    requires Tame(s, q, true) && resolve(k, q).Resolved? && |Rejoin(root, cs, e, resolve(k, q).text)| < PATH_MAX
    requires Walk(s, Virtual, t, Real(cs[e.start..]), follow, slash, 0).Found?
    ensures NoWorse(Walk(s, Virtual, t, Real(cs[e.start..]), follow, slash, 0),
                    VLook(s, Rejoin(root, cs, e, resolve(k, q).text), follow))
  {
    var a, b := Real(cs[e.start..e.at]), Real(cs[e.at + 1..]);
    RealAround(cs, e);
    TempFront(s, t, a, b, follow, slash);
    var front := VLook(s, q, true);
    QueryAnswer(s, resolve, k, q, front.node);
    assert HonestAt(s, root, front.node);
    RestartAt(s, root, front.node, front.links, resolve(k, q).text, cs, e, follow, slash);
  }

  /** The components a lookup acts on, around the escaping `..`. */
  lemma {:induction false} RealAround(cs: seq<Bytes>, e: Escape)
    requires EscapeOk(cs, 0, e)
    ensures Real(cs[e.start..]) == Real(cs[e.start..e.at]) + ([DOTDOT] + Real(cs[e.at + 1..]))
  {
    var l, i := cs[e.start..], e.at - e.start;
    assert l[..i] == cs[e.start..e.at] && l[i + 1..] == cs[e.at + 1..] && l[i] == DOTDOT;
    RealCut(l, i);
  }

  /** A walk with a `..` in it goes on from a directory in front of the `..`. */
  lemma {:induction false} TempFront(s: Fs, t: nat, a: seq<Bytes>, b: seq<Bytes>, follow: bool, slash: bool)
    requires Scaffold(s) && IsDir(s, t)
    ensures var front := Walk(s, Virtual, t, a, true, true, 0);
            && (front.Found? ==> IsDir(s, front.node))
            && Walk(s, Virtual, t, a + ([DOTDOT] + b), follow, slash, 0)
            == if front.Missing? then front
               else Walk(s, Virtual, front.node, [DOTDOT] + b, follow, slash, front.links)
  {
    WalkAppend(s, Virtual, t, a, [DOTDOT] + b, follow, slash, 0);
    WalkIsDir(s, t, a, 0);
  }

  /** A scan that ends in a temp root: the mapped text finds what the remainder finds there. */
  lemma {:induction false} MappedLook(s: Fs, root: Bytes, a: Skeleton, cur: Bytes, sub: Sub, start: nat, follow: bool)
    requires Ready(s, root, a) && 0 < start <= |Split(cur)|
    requires |root + SubText(sub) + Slashed(Split(cur)[start..])| < PATH_MAX
    ensures (root + SubText(sub))[0] == SLASH
    ensures VLook(s, root + SubText(sub) + Slashed(Split(cur)[start..]), follow)
         == Walk(s, Virtual, Target(a, sub), Real(Split(cur)[start..]), follow, Trailing(cur), 0)
  {
    var l := Split(cur)[start..];
    assert HasTarget(s, root, a, sub);
    var base :| TargetBy(s, root, a, sub, base);
    SplitIsSlashFree(cur);
    if Real(l) != [] {
      TrailingOf(cur, start);
    }
    assert l != [] ==> l[|l| - 1] == Split(cur)[|Split(cur)| - 1];
    assert root + SubText(sub) == Slashed(base);
    SlashedFirst(base);
    BelowLook(s, Target(a, sub), base, l, follow, Trailing(cur));
  }

  /** Looking up a directory's text with raw components behind it. */
  lemma {:induction false} BelowLook(s: Fs, t: nat, base: seq<Bytes>, l: seq<Bytes>, follow: bool, slash: bool)
    requires Scaffold(s) && s.profile.MacShim? && Valid(s, t) && base != [] && (forall k :: k in base ==> IsName(k)) && SlashFree(l)
    requires forall f, sl :: Walk(s, Virtual, ROOT, base, f, sl, 0) == Found(t, 0)
    requires |Slashed(base) + Slashed(l)| < PATH_MAX
    requires Real(l) != [] ==> (slash <==> l[|l| - 1] == [])
    ensures VLook(s, Slashed(base) + Slashed(l), follow) == Walk(s, Virtual, t, Real(l), follow, slash, 0)
  {
    var text := Slashed(base) + Slashed(l);
    CompsBelow(base, l);
    SlashedFirst(base);
    LookIsWalk(s, text, follow);
    if Real(l) == [] {
      assert base + Real(l) == base;
    } else {
      SlashedJoin(l);
      assert text == Slashed(base) + [SLASH] + Join(l);
      TrailingJoin(Slashed(base), l);
      WalkAppend(s, Virtual, ROOT, base, Real(l), follow, slash, 0);
    }
  }

  // ----- the loop -----

  lemma {:induction false} KernelAbsolute(s: Fs, resolve: Resolver, k: nat, q: Bytes)
    requires Closed(s) && KernelLike(s, resolve) && resolve(k, q).Resolved?
    ensures var t := resolve(k, q).text; t != [] && t[0] == SLASH
  {
    assert KernelAnswer(s, q, resolve(k, q));
    var names := FullNames(s, Physical, Resolve(s, Physical, ROOT, q, true, 0).node);
    if names != [] {
      SlashedFirst(names);
    }
  }

  lemma {:induction false} RejoinAbsolute(root: Bytes, cs: seq<Bytes>, e: Escape, answer: Bytes)
    requires e.at < |cs| && answer != [] && answer[0] == SLASH
    ensures var next := Rejoin(root, cs, e, answer); next != [] && next[0] == SLASH
  {
    var host := HostName(root, answer);
    assert host != [] && host[0] == SLASH;
    assert LastSlash(host).Some?;
  }

  /** The path names the alias itself, and a lookup would not follow it. */
  ghost predicate AliasEnd(text: Bytes, follow: bool) {
    !follow && !Trailing(text) && EndsOnTmp(Split(text), 0, InBase(AtRoot))
  }

  lemma EscapeNotAlias(text: Bytes, follow: bool)
    requires ScanFrom(Split(text), 0, InBase(AtRoot)).Escaping?
    ensures !AliasEnd(text, follow)
  {
    if EndsOnTmp(Split(text), 0, InBase(AtRoot)) {
      TmpFinal(Split(text), 0, InBase(AtRoot));
    }
  }

  ghost predicate AllTame(s: Fs, queries: seq<Bytes>)
    requires Closed(s)
  {
    forall i :: 0 <= i < |queries| ==> Tame(s, queries[i], true)
  }

  lemma ScanCur(s: Fs, a: Skeleton, cur: Bytes, follow: bool)
    requires Rails(s, a) && Scaffold(s) && s.profile.MacShim?
    requires 0 < |cur| < PATH_MAX && cur[0] == SLASH && VLook(s, cur, follow).Found? && !AliasEnd(cur, follow)
    ensures Continues(s, a, Split(cur), ScanFrom(Split(cur), 0, InBase(AtRoot)), VLook(s, cur, follow), follow, Trailing(cur))
  {
    var cs := Split(cur);
    LookIsWalk(s, cur, follow);
    assert cs[0..] == cs;
    ScanWalk(s, a, cs, 0, InBase(AtRoot), follow, Trailing(cur), 0);
  }

  lemma {:induction false} TempKeeps(s: Fs, root: Bytes, a: Skeleton, resolve: Resolver, k: nat, q: Bytes, cur: Bytes, e: Escape, follow: bool)
    requires Honest(s, root) && KernelLike(s, resolve)
    requires EscapeOk(Split(cur), 0, e) && e.sub.Some? && HasTarget(s, root, a, e.sub.value) && Valid(s, Target(a, e.sub.value))
    requires q == root + SubText(e.sub.value) + (Slashed(Split(cur)[e.start..e.at]) + [SLASH]) + [SLASH]
    requires |q| < PATH_MAX && Tame(s, q, true) && resolve(k, q).Resolved?
             && |Rejoin(root, Split(cur), e, resolve(k, q).text)| < PATH_MAX
    ensures NoWorse(Walk(s, Virtual, Target(a, e.sub.value), Real(Split(cur)[e.start..]), follow, Trailing(cur), 0),
                    VLook(s, Rejoin(root, Split(cur), e, resolve(k, q).text), follow))
  {
    TempAsked(s, root, a, q, cur, e);
    TempAnswered(s, root, Target(a, e.sub.value), resolve, k, q, Split(cur), e, follow, Trailing(cur));
  }

  /** The question walks from the temp root; only what stands behind it decides on the slash. */
  lemma TempAsked(s: Fs, root: Bytes, a: Skeleton, q: Bytes, cur: Bytes, e: Escape)
    requires Scaffold(s) && s.profile.MacShim? && EscapeOk(Split(cur), 0, e) && e.sub.Some? && HasTarget(s, root, a, e.sub.value)
    requires q == root + SubText(e.sub.value) + (Slashed(Split(cur)[e.start..e.at]) + [SLASH]) + [SLASH] && |q| < PATH_MAX
    ensures SlashFree(Split(cur)) && IsDir(s, Target(a, e.sub.value))
    ensures VLook(s, q, true) == Walk(s, Virtual, Target(a, e.sub.value), Real(Split(cur)[e.start..e.at]), true, true, 0)
    ensures Real(Split(cur)[e.at + 1..]) != [] ==> (Trailing(cur) <==> Split(cur)[|Split(cur)| - 1] == [])
  {
    SplitIsSlashFree(cur);
    TempQuery(s, root, a, e.sub.value, Split(cur)[e.start..e.at]);
    TrailingBehind(cur, e.at);
  }

  lemma {:induction false} TempAnswered(s: Fs, root: Bytes, t: nat, resolve: Resolver, k: nat, q: Bytes, cs: seq<Bytes>, e: Escape, follow: bool, slash: bool)
    requires Honest(s, root) && KernelLike(s, resolve) && IsDir(s, t) && SlashFree(cs) && EscapeOk(cs, 0, e)
    requires Real(cs[e.at + 1..]) != [] ==> (slash <==> cs[|cs| - 1] == [])
    requires VLook(s, q, true) == Walk(s, Virtual, t, Real(cs[e.start..e.at]), true, true, 0)
    requires Tame(s, q, true) && resolve(k, q).Resolved? && |Rejoin(root, cs, e, resolve(k, q).text)| < PATH_MAX
    ensures NoWorse(Walk(s, Virtual, t, Real(cs[e.start..]), follow, slash, 0),
                    VLook(s, Rejoin(root, cs, e, resolve(k, q).text), follow))
  {
    if Walk(s, Virtual, t, Real(cs[e.start..]), follow, slash, 0).Found? {
      TempRestart(s, root, t, resolve, k, q, cs, e, follow, slash);
    }
  }

  /** A restart loses nothing that the virtual view found. */
  lemma RestartKeeps(s: Fs, root: Bytes, a: Skeleton, resolve: Resolver, k: nat, cur: Bytes, e: Escape, follow: bool)
    requires Ready(s, root, a) && KernelLike(s, resolve)
    requires 0 < |cur| < PATH_MAX && cur[0] == SLASH && VLook(s, cur, follow).Found?
    requires ScanFrom(Split(cur), 0, InBase(AtRoot)) == Escaping(e) && EscapeOk(Split(cur), 0, e)
    requires var q := Query(root, Split(cur), e);
             |q| < PATH_MAX && Tame(s, q, true) && resolve(k, q).Resolved?
             && |Rejoin(root, Split(cur), e, resolve(k, q).text)| < PATH_MAX
    ensures var next := Rejoin(root, Split(cur), e, resolve(k, Query(root, Split(cur), e)).text);
            next != [] && next[0] == SLASH && NoWorse(VLook(s, cur, follow), VLook(s, next, follow))
  {
    EscapeNotAlias(cur, follow);
    ScanCur(s, a, cur, follow);
    KernelAbsolute(s, resolve, k, Query(root, Split(cur), e));
    RejoinAbsolute(root, Split(cur), e, resolve(k, Query(root, Split(cur), e)).text);
    if e.sub.Some? {
      assert HasTarget(s, root, a, e.sub.value);
      TempKeeps(s, root, a, resolve, k, Query(root, Split(cur), e), cur, e, follow);
    } else {
      OtherRestart(s, root, resolve, k, cur, e, follow);
    }
  }

  /** An absolute text at which the virtual view finds what it finds at `cur`. */
  ghost predicate Serves(s: Fs, cur: Bytes, text: Bytes, follow: bool)
    requires Closed(s)
  {
    text != [] && text[0] == SLASH && NoWorse(VLook(s, cur, follow), VLook(s, text, follow))
  }

  lemma FinalServes(s: Fs, root: Bytes, a: Skeleton, cur: Bytes, rewritten: bool, cap: nat, st: Scan, follow: bool)
    requires Ready(s, root, a) && cap <= PATH_MAX
    requires 0 < |cur| < PATH_MAX && cur[0] == SLASH && VLook(s, cur, follow).Found? && !AliasEnd(cur, follow)
    requires ScanFrom(Split(cur), 0, InBase(AtRoot)) == Final(st) && ScanOk(st, |Split(cur)|)
    ensures var r := Answered(root, cur, st, rewritten, cap); r.Mapped? ==> Serves(s, cur, r.text, follow)
  {
    if st.InTemp? && |root + SubText(st.sub) + Slashed(Split(cur)[st.start..])| < cap {
      ScanCur(s, a, cur, follow);
      MappedLook(s, root, a, cur, st.sub, st.start, follow);
    }
  }

  /** A question loses nothing that the virtual view found. */
  lemma AskServes(s: Fs, root: Bytes, a: Skeleton, cur: Bytes, rewritten: bool, cap: nat, resolve: Resolver, asked: nat, follow: bool)
    requires Ready(s, root, a) && KernelLike(s, resolve) && cap <= PATH_MAX
    requires 0 < |cur| < PATH_MAX && cur[0] == SLASH && VLook(s, cur, follow).Found?
    ensures var r := OneRound(root, cur, rewritten, cap, resolve, asked);
            r.Again? && Tame(s, r.query, true) ==> Serves(s, cur, r.next, follow)
  {
    var cs := Split(cur);
    ScanBounds(cs, 0, InBase(AtRoot));
    if ScanFrom(cs, 0, InBase(AtRoot)).Escaping? {
      var e := ScanFrom(cs, 0, InBase(AtRoot)).esc;
      AskedAt(root, cur, e, cap, resolve, asked);
      if AskAt(root, cur, e, cap, resolve, asked).Again? && Tame(s, Query(root, cs, e), true) {
        RestartKeeps(s, root, a, resolve, asked, cur, e, follow);
      }
    }
  }

  lemma TameCons(s: Fs, q: Bytes, rest: seq<Bytes>)
    requires Closed(s) && AllTame(s, [q] + rest)
    ensures Tame(s, q, true) && AllTame(s, rest)
  {
    assert ([q] + rest)[0] == q;
    assert forall i :: 0 <= i < |rest| ==> ([q] + rest)[i + 1] == rest[i];
  }

  lemma ServesOn(s: Fs, cur: Bytes, next: Bytes, text: Bytes, follow: bool)
    requires Closed(s) && Serves(s, cur, next, follow) && Serves(s, next, text, follow)
    ensures Serves(s, cur, text, follow)
  {
  }

  /** The round in which the loop answers: its text, and what came before. */
  datatype LastRound = LastRound(text: Bytes, rewritten: bool, asked: nat)

  function Last(root: Bytes, cur: Bytes, rewritten: bool, cap: nat, resolve: Resolver, asked: nat): (r: LastRound)
    ensures OneRound(root, r.text, r.rewritten, cap, resolve, r.asked).Over?
    ensures OneRound(root, r.text, r.rewritten, cap, resolve, r.asked).run.result == MapLoop(root, cur, rewritten, cap, resolve, asked).result
    decreases DotDots(cur)
  {
    match OneRound(root, cur, rewritten, cap, resolve, asked)
    case Over(_) => LastRound(cur, rewritten, asked)
    case Again(_, next, temp) => Last(root, next, rewritten || temp, cap, resolve, asked + 1)
  }

  /** What the virtual view finds at the path, it finds at the text of the last round. */
  lemma {:induction false} LoopServes(s: Fs, root: Bytes, a: Skeleton, cur: Bytes, rewritten: bool, cap: nat, resolve: Resolver, asked: nat, follow: bool)
    requires Ready(s, root, a) && KernelLike(s, resolve) && cap <= PATH_MAX
    requires 0 < |cur| < PATH_MAX && cur[0] == SLASH && VLook(s, cur, follow).Found?
    requires AllTame(s, MapLoop(root, cur, rewritten, cap, resolve, asked).queries)
    ensures var last := Last(root, cur, rewritten, cap, resolve, asked).text; |last| < PATH_MAX && Serves(s, cur, last, follow)
    decreases DotDots(cur)
  {
    AskServes(s, root, a, cur, rewritten, cap, resolve, asked, follow);
    var r := OneRound(root, cur, rewritten, cap, resolve, asked);
    if r.Again? {
      var rest := MapLoop(root, r.next, rewritten || r.temp, cap, resolve, asked + 1);
      TameCons(s, r.query, rest.queries);
      LoopServes(s, root, a, r.next, rewritten || r.temp, cap, resolve, asked + 1, follow);
      ServesOn(s, cur, r.next, Last(root, r.next, rewritten || r.temp, cap, resolve, asked + 1).text, follow);
    }
  }

  /** The last round answers with a text that serves, unless it stands on the alias. */
  lemma LastServes(s: Fs, root: Bytes, a: Skeleton, last: LastRound, cap: nat, resolve: Resolver, follow: bool)
    requires Ready(s, root, a) && cap <= PATH_MAX && OneRound(root, last.text, last.rewritten, cap, resolve, last.asked).Over?
    requires 0 < |last.text| < PATH_MAX && last.text[0] == SLASH && VLook(s, last.text, follow).Found? && !AliasEnd(last.text, follow)
    ensures var r := OneRound(root, last.text, last.rewritten, cap, resolve, last.asked).run.result;
            r.Mapped? ==> Serves(s, last.text, r.text, follow)
  {
    var cs := Split(last.text);
    ScanBounds(cs, 0, InBase(AtRoot));
    match ScanFrom(cs, 0, InBase(AtRoot))
    case Final(st) => FinalServes(s, root, a, last.text, last.rewritten, cap, st, follow);
    case Escaping(e) => AskedAt(root, last.text, e, cap, resolve, last.asked);
  }

  /** Whatever text the loop hands back, the virtual view finds there what it finds at `cur`. */
  lemma LoopKeeps(s: Fs, root: Bytes, a: Skeleton, cur: Bytes, cap: nat, resolve: Resolver, follow: bool)
    requires Ready(s, root, a) && KernelLike(s, resolve) && cap <= PATH_MAX
    requires 0 < |cur| < PATH_MAX && cur[0] == SLASH && VLook(s, cur, follow).Found?
    requires AllTame(s, MapLoop(root, cur, false, cap, resolve, 0).queries) && !AliasEnd(Last(root, cur, false, cap, resolve, 0).text, follow)
    ensures var r := MapLoop(root, cur, false, cap, resolve, 0).result; r.Mapped? ==> Serves(s, cur, r.text, follow)
  {
    LoopServes(s, root, a, cur, false, cap, resolve, 0, follow);
    var last := Last(root, cur, false, cap, resolve, 0);
    LastServes(s, root, a, last, cap, resolve, follow);
    var r := MapLoop(root, cur, false, cap, resolve, 0).result;
    if r.Mapped? {
      ServesOn(s, cur, last.text, r.text, follow);
    }
  }

  /** On the alias the loop does not leave the text unchanged. */
  lemma AliasChanges(root: Bytes, last: LastRound, cap: nat, resolve: Resolver)
    requires AliasEnd(last.text, false)
    ensures var r := OneRound(root, last.text, last.rewritten, cap, resolve, last.asked); r.Over? && !r.run.result.Unchanged?
  {
    TmpFinal(Split(last.text), 0, InBase(AtRoot));
    ScanBounds(Split(last.text), 0, InBase(AtRoot));
  }

  /** On the alias the loop hands back the private directory instead. */
  lemma LastOnAlias(s: Fs, root: Bytes, a: Skeleton, last: LastRound, cap: nat, resolve: Resolver)
    requires Ready(s, root, a) && cap <= PATH_MAX && LinkIs(s, ROOT, TMP, PRIVATE_TMP)
    requires 0 < |last.text| < PATH_MAX && last.text[0] == SLASH && AliasEnd(last.text, false)
    ensures var v := VLook(s, last.text, false); v.Found? ==> v.node == s.nodes[ROOT].children[TMP]
    ensures var r := OneRound(root, last.text, last.rewritten, cap, resolve, last.asked);
            && r.Over? && !r.run.result.Unchanged?
            && (r.run.result.Mapped? ==> var t := r.run.result.text; t != [] && t[0] == SLASH && VLook(s, t, false) == Found(a.tmp, 0))
  {
    var cs := Split(last.text);
    LookIsWalk(s, last.text, false);
    assert cs[0..] == cs;
    AliasWalked(s, a, cs, 0, InBase(AtRoot), 0);
    TmpFinal(cs, 0, InBase(AtRoot));
    ScanBounds(cs, 0, InBase(AtRoot));
    var st := ScanFrom(cs, 0, InBase(AtRoot)).state;
    if |root + SubText(st.sub) + Slashed(cs[st.start..])| < cap {
      MappedLook(s, root, a, last.text, st.sub, st.start, false);
    }
  }

  lemma LoopOnAlias(s: Fs, root: Bytes, a: Skeleton, cur: Bytes, cap: nat, resolve: Resolver)
    requires Ready(s, root, a) && KernelLike(s, resolve) && cap <= PATH_MAX && LinkIs(s, ROOT, TMP, PRIVATE_TMP)
    requires 0 < |cur| < PATH_MAX && cur[0] == SLASH && VLook(s, cur, false).Found?
    requires AllTame(s, MapLoop(root, cur, false, cap, resolve, 0).queries) && AliasEnd(Last(root, cur, false, cap, resolve, 0).text, false)
    ensures VLook(s, cur, false).node == s.nodes[ROOT].children[TMP]
    ensures var r := MapLoop(root, cur, false, cap, resolve, 0).result;
            !r.Unchanged? && (r.Mapped? ==> r.text != [] && r.text[0] == SLASH && VLook(s, r.text, false) == Found(a.tmp, 0))
  {
    LoopServes(s, root, a, cur, false, cap, resolve, 0, false);
    LastOnAlias(s, root, a, Last(root, cur, false, cap, resolve, 0), cap, resolve);
  }
}
