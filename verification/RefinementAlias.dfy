/** Paths that end on the `/tmp` alias itself. */
module RefinementAlias {
  import opened Text
  import opened TmpPath
  import opened FsState
  import opened FsTree
  import opened FsPaths
  import opened FsReach
  import opened MacTree
  import opened Refinement

  /** The alias is read at the root; once a name was read elsewhere, the scan does not come back. */
  lemma {:induction false} AwayNotTmp(cs: seq<Bytes>, i: nat, st: Scan)
    requires i <= |cs| && (st.InOther? || (st.InTemp? && st.named))
    ensures !EndsOnTmp(cs, i, st)
    decreases |cs| - i
  {
    if i < |cs| {
      var m := ScanMove(st, cs[i], i + 1, TMP in cs[i + 1..]);
      if m.Go? && EndsOnTmp(cs, i + 1, m.state) {
        TmpAhead(cs, i + 1, m.state);
        AwayNotTmp(cs, i + 1, m.state);
      }
    }
  }

  lemma {:induction false} TmpAhead(cs: seq<Bytes>, i: nat, st: Scan)
    requires i <= |cs| && EndsOnTmp(cs, i, st)
    ensures TMP in cs[i..]
    decreases |cs| - i
  {
    assert cs[i..] == [cs[i]] + cs[i + 1..];
    var m := ScanMove(st, cs[i], i + 1, TMP in cs[i + 1..]);
    if m.Go? && EndsOnTmp(cs, i + 1, m.state) {
      TmpAhead(cs, i + 1, m.state);
    }
  }

  lemma {:induction false} NoMoreScan(cs: seq<Bytes>, i: nat, st: Scan)
    requires i <= |cs| && Real(cs[i..]) == []
    ensures ScanFrom(cs, i, st) == Final(st)
    decreases |cs| - i
  {
    if i < |cs| {
      RealCons(cs, i);
      NoMoreScan(cs, i + 1, st);
    }
  }

  /** The scan ends on top of the temp root it took the alias for. */
  ghost predicate FinalTmp(cs: seq<Bytes>, r: ScanEnd) {
    && r.Final? && r.state.InTemp? && r.state.sub == TmpSub && r.state.start <= |cs|
    && Real(cs[r.state.start..]) == []
  }

  lemma ScanAt(cs: seq<Bytes>, i: nat, st: Scan)
    requires i < |cs| && ScanMove(st, cs[i], i + 1, TMP in cs[i + 1..]).Go?
    ensures ScanFrom(cs, i, st) == ScanFrom(cs, i + 1, ScanMove(st, cs[i], i + 1, TMP in cs[i + 1..]).state)
  {
  }

  lemma {:induction false} TmpFinal(cs: seq<Bytes>, i: nat, st: Scan)
    requires i <= |cs| && EndsOnTmp(cs, i, st)
    ensures FinalTmp(cs, ScanFrom(cs, i, st))
    decreases |cs| - i
  {
    RailNames();
    RailKeys();
    var m := ScanMove(st, cs[i], i + 1, TMP in cs[i + 1..]);
    if st == InBase(AtRoot) && cs[i] == TMP && Real(cs[i + 1..]) == [] {
      MoveOnRails(AtRoot, TMP, i + 1, TMP in cs[i + 1..]);
      NoMoreScan(cs, i + 1, m.state);
    } else {
      TmpFinal(cs, i + 1, m.state);
    }
    ScanAt(cs, i, st);
  }

  // ----- the virtual walk ends on the alias -----

  /** The walk of `cs` from component `i` ends on the alias, if anywhere. */
  ghost predicate ToAlias(s: Fs, a: Skeleton, cs: seq<Bytes>, i: nat, st: Scan, links: nat)
    requires Rails(s, a) && i <= |cs| && !st.InOther? && links <= MaxLinks(s)
  {
    var r := Walk(s, Virtual, StateNode(a, st), Real(cs[i..]), false, false, links);
    r.Found? ==> r.node == s.nodes[ROOT].children[TMP]
  }

  lemma LastAlias(s: Fs, cs: seq<Bytes>, i: nat, links: nat)
    requires Scaffold(s) && LinkIs(s, ROOT, TMP, PRIVATE_TMP) && i < |cs| && cs[i] == TMP && Real(cs[i + 1..]) == [] && links <= MaxLinks(s)
    ensures var r := Walk(s, Virtual, ROOT, Real(cs[i..]), false, false, links); r.Found? ==> r.node == s.nodes[ROOT].children[TMP]
  {
    RailNames();
    RailKeys();
    RealCons(cs, i);
    assert [TMP][1..] == [];
    var alias := s.nodes[ROOT].children[TMP];
    assert s.nodes[alias].mountedBy.Some? ==> MountpointOk(s, alias);
    assert Real(cs[i..]) == [TMP];
    assert DOTDOT[0] == 46;
  }

  lemma {:induction false} AliasWalked(s: Fs, a: Skeleton, cs: seq<Bytes>, i: nat, st: Scan, links: nat)
    requires Rails(s, a) && Scaffold(s) && LinkIs(s, ROOT, TMP, PRIVATE_TMP)
    requires OnSkeleton(cs, i, st) && EndsOnTmp(cs, i, st) && links <= MaxLinks(s)
    ensures ToAlias(s, a, cs, i, st, links)
    decreases |cs| - i
  {
    var comp, rest := cs[i], Real(cs[i + 1..]);
    var ahead := TMP in cs[i + 1..];
    var m := ScanMove(st, comp, i + 1, ahead);
    RealCons(cs, i);
    if st == InBase(AtRoot) && comp == TMP && rest == [] {
      LastAlias(s, cs, i, links);
    } else if !IsReal(comp) {
      AliasWalked(s, a, cs, i + 1, st, links);
    } else if comp == DOTDOT {
      assert st.InBase? ==> RailBase(s, a, st.base);
      assert st.InTemp? ==> RailTarget(s, a, st.sub);
      assert Real(cs[i..])[1..] == rest;
      AliasWalked(s, a, cs, i + 1, m.state, links);
    } else if st.InTemp? || !OnRail(st.base, comp) {
      AwayNotTmp(cs, i + 1, m.state);
    } else {
      TmpAhead(cs, i + 1, m.state);
      RailToAlias(s, a, cs, i, st.base, links);
    }
  }

  lemma {:induction false} RailToAlias(s: Fs, a: Skeleton, cs: seq<Bytes>, i: nat, b: Base, links: nat)
    requires Rails(s, a) && Scaffold(s) && LinkIs(s, ROOT, TMP, PRIVATE_TMP) && links <= MaxLinks(s)
    requires i < |cs| && OnRail(b, cs[i]) && TMP in cs[i + 1..]
    requires EndsOnTmp(cs, i + 1, ScanMove(InBase(b), cs[i], i + 1, true).state)
    ensures ToAlias(s, a, cs, i, InBase(b), links)
    decreases |cs| - i, 0
  {
    RailNames();
    RailKeys();
    RealCons(cs, i);
    RealMember(cs[i + 1..], TMP);
    MoveOnRails(b, cs[i], i + 1, true);
    var st' := ScanMove(InBase(b), cs[i], i + 1, true).state;
    assert Real(cs[i..])[1..] == Real(cs[i + 1..]);
    assert cs[i] != DOTDOT by { assert DOTDOT[0] == 46; }
    assert RailStep(s, a, b, cs[i], true, true, links);
    var next := Step(s, Virtual, BaseNode(a, b), cs[i], true, true, links);
    if next.Found? {
      AliasWalked(s, a, cs, i + 1, st', next.links);
    }
  }
}
