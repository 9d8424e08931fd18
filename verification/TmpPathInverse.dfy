/** Mapping and unmapping undo each other. */
module TmpPathInverse {
  import opened Text
  import opened TmpPath
  import opened TmpPathResolver

  /** Components as they stand behind a temp root: no slash in them and no `..`. */
  predicate Descends(tail: seq<Bytes>) {
    forall k :: 0 <= k < |tail| ==> SLASH !in tail[k] && tail[k] != DOTDOT
  }

  /** A host spelling of a temp root: with or without `/private`, and with any number of empty and
      `.` components anywhere in it. The last component is the one that enters the temp root. */
  predicate Spells(head: seq<Bytes>, sub: Sub) {
    && Descends(head) && head != [] && head[|head| - 1] == TMP
    && (Real(head) == SubNames(sub) || Real(head) == [PRIVATE] + SubNames(sub))
  }

  /** Every text that is empty or begins with a slash, and has no `..`, is such a tail. */
  lemma TailOf(rest: Bytes) returns (tail: seq<Bytes>)
    requires (rest == [] || rest[0] == SLASH) && DOTDOT !in Split(rest)
    ensures Descends(tail) && rest == Slashed(tail)
  {
    if rest == [] {
      tail := [];
    } else {
      var u := rest[1..];
      tail := Split(u);
      assert rest == [] + [SLASH] + u;
      SplitJoin([], u);
      forall k | 0 <= k < |tail| ensures SLASH !in tail[k] && tail[k] != DOTDOT {
        SplitSlashFree(u, k);
        assert tail[k] in Split([]) + tail;
      }
      JoinSplit(u);
      SlashedJoin(tail);
    }
  }

  // ----- scanning without `..` -----

  lemma {:induction false} ScanDown(cs: seq<Bytes>, i: nat, st: Scan)
    requires i <= |cs| && !st.InBase? && Descends(cs)
    ensures var r := ScanFrom(cs, i, st);
            && r.Final?
            && (st.InOther? ==> r.state.InOther?)
            && (st.InTemp? ==> r.state.InTemp? && r.state.sub == st.sub && r.state.start == st.start)
    decreases |cs| - i
  {
    if i < |cs| {
      ScanDown(cs, i + 1, ScanMove(st, cs[i], i + 1, TMP in cs[i + 1..]).state);
    }
  }

  /** Two scans in a row. */
  lemma ScanStep(cs: seq<Bytes>, i: nat, st: Scan, next: Scan)
    requires i < |cs| && ScanMove(st, cs[i], i + 1, TMP in cs[i + 1..]) == Go(next)
    ensures ScanFrom(cs, i, st) == ScanFrom(cs, i + 1, next)
  {
  }

  /** Names that lead from base `b` into the temp root `sub`. */
  predicate RailsTo(b: Base, names: seq<Bytes>, sub: Sub)
    decreases |names|
  {
    && names != []
    && (if names[0] == TMP then |names| == 1 && sub == (if b == AtPrivVar then VarTmpSub else TmpSub)
        else if names[0] == PRIVATE then b == AtRoot && RailsTo(AtPrivate, names[1..], sub)
        else names[0] == VAR && b != AtPrivVar && RailsTo(AtPrivVar, names[1..], sub))
  }

  lemma SpellingRails(sub: Sub)
    ensures RailsTo(AtRoot, SubNames(sub), sub) && RailsTo(AtRoot, [PRIVATE] + SubNames(sub), sub)
  {
    RailNames();
    assert [TMP] == SubNames(TmpSub) && [VAR, TMP][1..] == [TMP];
    assert ([PRIVATE] + SubNames(sub))[1..] == SubNames(sub);
    assert RailsTo(AtPrivVar, [TMP], VarTmpSub);
    assert RailsTo(AtPrivate, SubNames(sub), sub);
  }

  /** The components up to `end` that count are rail names, the last of them `tmp`. */
  predicate RailsUpTo(cs: seq<Bytes>, i: nat, end: nat, b: Base, sub: Sub) {
    i < end <= |cs| && cs[end - 1] == TMP && RailsTo(b, Real(cs[i..end]), sub)
  }

  lemma {:induction false} ScanRails(cs: seq<Bytes>, i: nat, end: nat, b: Base, sub: Sub)
    requires RailsUpTo(cs, i, end, b, sub)
    ensures ScanFrom(cs, i, InBase(b)) == ScanFrom(cs, end, EnterTemp(if sub == VarTmpSub then AtPrivVar else AtPrivate, end))
    decreases end - i
  {
    RailNames();
    var names := Real(cs[i..end]);
    assert cs[i..end][1..] == cs[i + 1..end] && cs[i..end][0] == cs[i];
    if !IsReal(cs[i]) {
      ScanStep(cs, i, InBase(b), InBase(b));
      ScanRails(cs, i + 1, end, b, sub);
    } else {
      var rest := Real(cs[i + 1..end]);
      assert names == [cs[i]] + rest && names[1..] == rest;
      if cs[i] == TMP {
        NoMoreNames(cs, i + 1, end);
        ScanStep(cs, i, InBase(b), EnterTemp(b, i + 1));
      } else {
        var b' := if cs[i] == PRIVATE then AtPrivate else AtPrivVar;
        ScanStep(cs, i, InBase(b), InBase(b'));
        ScanRails(cs, i + 1, end, b', sub);
      }
    }
  }

  lemma NoMoreNames(cs: seq<Bytes>, i: nat, end: nat)
    requires i <= end <= |cs| && Real(cs[i..end]) == [] && end > 0 && cs[end - 1] == TMP
    ensures i == end
  {
    RailNames();
    if i < end {
      assert cs[i..end][end - 1 - i] == TMP;
      RealMember(cs[i..end], TMP);
    }
  }

  /** Scanning any spelling of a temp root enters it. */
  lemma ScanSpelling(sub: Sub, head: seq<Bytes>, cs: seq<Bytes>)
    requires Spells(head, sub) && [[]] + head <= cs && Descends(cs)
    ensures var r := ScanFrom(cs, 0, InBase(AtRoot));
            r.Final? && r.state.InTemp? && r.state.sub == sub && r.state.start == 1 + |head|
  {
    var end := 1 + |head|;
    assert cs[..end] == [[]] + head;
    assert cs[1..end] == head && cs[0] == [] && cs[end - 1] == head[|head| - 1];
    SpellingRails(sub);
    ScanStep(cs, 0, InBase(AtRoot), InBase(AtRoot));
    ScanRails(cs, 1, end, AtRoot, sub);
    ScanDown(cs, end, EnterTemp(if sub == VarTmpSub then AtPrivVar else AtPrivate, end));
  }

  lemma SplitPath(head: seq<Bytes>, tail: seq<Bytes>)
    requires head != [] && Descends(head) && Descends(tail)
    ensures var text := Slashed(head) + Slashed(tail);
            text != [] && text[0] == SLASH && Split(text) == [[]] + (head + tail) && Descends(Split(text))
  {
    SlashedAppend(head, tail);
    SlashedFirst(head);
    var cs := head + tail;
    assert Descends(cs);
    SplitSlashed(cs);
    assert forall k :: 0 < k < |[[]] + cs| ==> ([[]] + cs)[k] == cs[k - 1];
  }

  lemma NamesDescend(names: seq<Bytes>)
    requires forall n :: n in names ==> IsName(n)
    ensures Descends(names)
  {
    assert forall k :: 0 <= k < |names| ==> names[k] in names;
  }

  /** The plain spellings. */
  lemma PlainSpells(sub: Sub)
    ensures Spells(SubNames(sub), sub) && Spells([PRIVATE] + SubNames(sub), sub)
  {
    RailNames();
    NamesDescend(SubNames(sub));
    NamesDescend([PRIVATE] + SubNames(sub));
    RealNames(SubNames(sub));
    RealNames([PRIVATE] + SubNames(sub));
  }

  // ----- mapping -----

  /** What the mapper does with an absolute text whose first scan reaches the end. */
  lemma MapsAtOnce(root: Bytes, text: Bytes, cap: nat, resolve: Resolver, st: Scan)
    requires text != [] && text[0] == SLASH && |text| < PATH_MAX
    requires ScanFrom(Split(text), 0, InBase(AtRoot)) == Final(st) && ScanOk(st, |Split(text)|)
    ensures MapWith(root, text, cap, resolve) == Run(Answered(root, text, st, false, cap), [])
  {
  }

  /** What a scan makes of a host temp path. */
  lemma ScanSpelled(sub: Sub, head: seq<Bytes>, tail: seq<Bytes>) returns (path: Bytes, st: Scan)
    requires Spells(head, sub) && Descends(tail)
    ensures path == Slashed(head) + Slashed(tail) && path != [] && path[0] == SLASH
    ensures ScanFrom(Split(path), 0, InBase(AtRoot)) == Final(st) && ScanOk(st, |Split(path)|)
    ensures st.InTemp? && st.sub == sub && Split(path)[st.start..] == tail
  {
    SplitPath(head, tail);
    path := Slashed(head) + Slashed(tail);
    SpellingTail(Split(path), head, tail);
    ScanSpelling(sub, head, Split(path));
    st := ScanFrom(Split(path), 0, InBase(AtRoot)).state;
  }

  /** A host temp path, in any spelling without `..`, maps to its place below the root, the
      remainder unchanged and no question asked. */
  lemma MapsBelowRoot(root: Bytes, sub: Sub, head: seq<Bytes>, tail: seq<Bytes>, cap: nat, resolve: Resolver)
    requires Spells(head, sub) && Descends(tail)
    ensures var path := Slashed(head) + Slashed(tail);
            var there := root + SubText(sub) + Slashed(tail);
            MapWith(root, path, cap, resolve)
            == Run(if |path| >= PATH_MAX then Unchanged
                   else if |there| >= cap then Fails(NameTooLong)
                   else Mapped(there), [])
  {
    var path, st := ScanSpelled(sub, head, tail);
    if |path| < PATH_MAX {
      MapsAtOnce(root, path, cap, resolve, st);
    }
  }

  lemma SpellingTail(cs: seq<Bytes>, names: seq<Bytes>, tail: seq<Bytes>)
    requires cs == [[]] + (names + tail)
    ensures [[]] + names <= cs && cs[1 + |names|..] == tail
  {
  }

  /** Unmapping a mapped path gives its canonical name, the remainder unchanged. */
  lemma UnmapsToCanonical(root: Bytes, sub: Sub, rest: seq<Bytes>)
    ensures Unmap(root, root + SubText(sub) + Slashed(rest)) == Some(CanonicalText(sub) + Slashed(rest))
  {
    var r := Slashed(rest);
    if rest != [] {
      SlashedFirst(rest);
    }
    var below := SubText(sub) + r;
    assert below[0] == SLASH;
    var text := root + SubText(sub) + r;
    assert text == root + below;
    assert text[|root|..] == below;
    assert ComponentRest(text, root) == Some(below);
    assert below[|SubText(sub)|..] == r;
    assert ComponentRest(below, SubText(sub)) == Some(r);
    if sub.TmpSub? {
      assert below[1] == 116 && SubText(VarTmpSub)[1] == 118;
      assert ComponentRest(below, SubText(VarTmpSub)).None?;
    }
  }

  /** The round trip: map, unmap, map again. */
  lemma MapUnmapMap(root: Bytes, sub: Sub, head: seq<Bytes>, tail: seq<Bytes>, cap: nat, resolve: Resolver)
    requires Spells(head, sub) && Descends(tail) && MapWith(root, Slashed(head) + Slashed(tail), cap, resolve).result.Mapped?
    ensures var there := MapWith(root, Slashed(head) + Slashed(tail), cap, resolve).result.text;
            var host := CanonicalText(sub) + Slashed(tail);
            && Unmap(root, there) == Some(host)
            && (|host| < PATH_MAX ==> MapWith(root, host, cap, resolve) == Run(Mapped(there), []))
            && (8 <= |root| ==> |host| <= |there|)
  {
    MapsBelowRoot(root, sub, head, tail, cap, resolve);
    PlainSpells(sub);
    MapsBelowRoot(root, sub, [PRIVATE] + SubNames(sub), tail, cap, resolve);
    UnmapsToCanonical(root, sub, tail);
    CanonicalNames(sub);
  }

  // ----- physical names -----

  lemma RootNames(root: Bytes) returns (names: seq<Bytes>)
    requires ValidRoot(root)
    ensures names != [] && root == Slashed(names) && forall n :: n in names ==> IsName(n)
  {
    var u := root[1..];
    names := Split(u);
    JoinSplit(u);
    SlashedJoin(names);
    assert root == [SLASH] + u;
  }

  /** The one root below which the mapper takes a physical name for a host temp path. */
  const PRIVATE_VAR_ROOT: Bytes := [SLASH] + PRIVATE + [SLASH] + VAR

  lemma SlashedTwo(a: Bytes, b: Bytes)
    ensures Slashed([a, b]) == [SLASH] + a + [SLASH] + b && Slashed([a]) == [SLASH] + a
  {
    SlashedCons(a, [b]);
    SlashedCons(b, []);
    SlashedCons(a, []);
    assert [a] + [b] == [a, b] && [b] + [] == [b] && [a] + [] == [a];
    assert ([SLASH] + a) + ([SLASH] + b) == [SLASH] + a + [SLASH] + b;
  }

  /** How a scan of the names of a root ends up: outside the bases, unless the root is one
      of the two directories above the host temp roots. */
  lemma RootScan(root: Bytes, names: seq<Bytes>, cs: seq<Bytes>)
    requires ValidRoot(root) && names != [] && root == Slashed(names) && (forall n :: n in names ==> IsName(n))
    requires [[]] + names <= cs && Descends(cs)
    ensures var r := ScanFrom(cs, 0, InBase(AtRoot));
            if names == [PRIVATE] then r == ScanFrom(cs, 2, InBase(AtPrivate))
            else if names == [PRIVATE, VAR] then r == ScanFrom(cs, 3, InBase(AtPrivVar))
            else r.Final? && r.state.InOther?
  {
    RailNames();
    var head := [[]] + names;
    assert forall k :: 0 <= k < |head| ==> cs[k] == head[k];
    assert names[0] in names;
    assert cs[0] == [] && cs[1] == names[0];
    ScanStep(cs, 0, InBase(AtRoot), InBase(AtRoot));
    RootNotTemp(root, names);
    if names[0] == PRIVATE {
      ScanStep(cs, 1, InBase(AtRoot), InBase(AtPrivate));
      if |names| > 1 {
        assert names[1] in names && cs[2] == names[1];
        if names[1] == VAR {
          ScanStep(cs, 2, InBase(AtPrivate), InBase(AtPrivVar));
          RootTail(names, cs, 2, AtPrivVar);
          if |names| == 2 {
            assert names == [PRIVATE, VAR];
          }
        } else {
          ScanStep(cs, 2, InBase(AtPrivate), InOther(AtPrivate, 1));
          ScanDown(cs, 3, InOther(AtPrivate, 1));
        }
      } else {
        assert names == [PRIVATE];
      }
    } else if names[0] == VAR {
      ScanStep(cs, 1, InBase(AtRoot), InBase(AtPrivVar));
      RootTail(names, cs, 1, AtPrivVar);
    } else {
      ScanStep(cs, 1, InBase(AtRoot), InOther(AtRoot, 1));
      ScanDown(cs, 2, InOther(AtRoot, 1));
    }
  }

  /** From `/private/var`, a name other than `tmp` leads outside. */
  lemma RootTail(names: seq<Bytes>, cs: seq<Bytes>, i: nat, b: Base)
    requires 0 < i <= |names| && [[]] + names <= cs && (forall n :: n in names ==> IsName(n))
    requires b == AtPrivVar && (i < |names| ==> names[i] != TMP) && Descends(cs)
    ensures i < |names| ==> ScanFrom(cs, i + 1, InBase(b)).Final? && ScanFrom(cs, i + 1, InBase(b)).state.InOther?
  {
    if i < |names| {
      assert cs[i + 1] == ([[]] + names)[i + 1] == names[i];
      assert names[i] in names;
      ScanStep(cs, i + 1, InBase(b), InOther(b, 1));
      ScanDown(cs, i + 2, InOther(b, 1));
    }
  }

  lemma NotUnder(names: seq<Bytes>, head: seq<Bytes>)
    requires head != [] && ComponentRest(Slashed(names), Slashed(head)).None?
    ensures !(head <= names)
  {
    if head <= names {
      UnderHead(names, head);
    }
  }

  /** A valid root lies outside the host temp roots and is not `/var` or `/tmp`. */
  lemma RootNotTemp(root: Bytes, names: seq<Bytes>)
    requires ValidRoot(root) && names != [] && root == Slashed(names)
    ensures !([TMP] <= names) && !([PRIVATE, TMP] <= names) && !([VAR, TMP] <= names) && !([PRIVATE, VAR, TMP] <= names)
    ensures names != [VAR]
  {
    CanonicalNames(TmpSub);
    CanonicalNames(VarTmpSub);
    assert [PRIVATE] + [TMP] == [PRIVATE, TMP] && [PRIVATE] + [VAR, TMP] == [PRIVATE, VAR, TMP];
    NotUnder(names, [TMP]);
    NotUnder(names, [VAR, TMP]);
    NotUnder(names, [PRIVATE, TMP]);
    NotUnder(names, [PRIVATE, VAR, TMP]);
    SlashedTwo(VAR, VAR);
  }

  lemma UnderHead(names: seq<Bytes>, head: seq<Bytes>)
    requires head != [] && head <= names
    ensures ComponentRest(Slashed(names), Slashed(head)).Some?
  {
    var tail := names[|head|..];
    assert names == head + tail;
    SlashedAppend(head, tail);
    if tail != [] {
      SlashedFirst(tail);
    }
  }

  /** The physical name of a location below the root. */
  function There(root: Bytes, sub: Sub, tail: seq<Bytes>): Bytes {
    root + SubText(sub) + Slashed(tail)
  }

  lemma ThereSplits(root: Bytes, names: seq<Bytes>, sub: Sub, tail: seq<Bytes>)
    requires names != [] && root == Slashed(names) && (forall n :: n in names ==> IsName(n)) && Descends(tail)
    ensures var text := There(root, sub, tail);
            text != [] && text[0] == SLASH && Split(text) == [[]] + (names + (SubNames(sub) + tail)) && Descends(Split(text))
  {
    SubIsNames(sub);
    var subs := SubNames(sub);
    SlashedAppend(names, subs);
    NamesDescend(names + subs);
    SplitPath(names + subs, tail);
    assert names + subs + tail == names + (subs + tail);
  }

  lemma SubIsNames(sub: Sub)
    ensures SubText(sub) == Slashed(SubNames(sub)) && forall n :: n in SubNames(sub) ==> IsName(n)
  {
    CanonicalNames(sub);
    assert forall n :: n in SubNames(sub) ==> n in [PRIVATE] + SubNames(sub);
  }

  lemma PhysicalOutside(root: Bytes, names: seq<Bytes>, sub: Sub, tail: seq<Bytes>, cap: nat, resolve: Resolver)
    requires ValidRoot(root) && names != [] && root == Slashed(names) && (forall n :: n in names ==> IsName(n)) && Descends(tail)
    requires |There(root, sub, tail)| < PATH_MAX && names != [PRIVATE] && names != [PRIVATE, VAR]
    ensures MapWith(root, There(root, sub, tail), cap, resolve) == Run(Unchanged, [])
  {
    ThereSplits(root, names, sub, tail);
    var cs := Split(There(root, sub, tail));
    assert [[]] + names <= cs;
    RootScan(root, names, cs);
    MapsAtOnce(root, There(root, sub, tail), cap, resolve, ScanFrom(cs, 0, InBase(AtRoot)).state);
  }

  lemma PhysicalPrivate(root: Bytes, sub: Sub, tail: seq<Bytes>, cap: nat, resolve: Resolver)
    requires root == Slashed([PRIVATE]) && Descends(tail) && |There(root, sub, tail)| < PATH_MAX && |There(root, sub, tail)| < cap
    ensures MapWith(root, There(root, sub, tail), cap, resolve) == Run(Mapped(There(root, sub, tail)), [])
  {
    CanonicalNames(sub);
    SlashedAppend([PRIVATE], SubNames(sub));
    PlainSpells(sub);
    MapsBelowRoot(root, sub, [PRIVATE] + SubNames(sub), tail, cap, resolve);
  }

  lemma PhysicalBelowVar(root: Bytes, sub: Sub, tail: seq<Bytes>, cap: nat, resolve: Resolver)
    requires root == Slashed([PRIVATE, VAR]) && Descends(tail) && |There(root, sub, tail)| < PATH_MAX
    ensures var run := MapWith(root, There(root, sub, tail), cap, resolve);
            && run.queries == []
            && if sub == VarTmpSub then run.result == Unchanged
               else if |There(root, VarTmpSub, tail)| >= cap then run.result == Fails(NameTooLong)
               else run.result == Mapped(There(root, VarTmpSub, tail))
  {
    RailNames();
    var names := [PRIVATE, VAR];
    var text := There(root, sub, tail);
    ThereSplits(root, names, sub, tail);
    var end := ScanBelowVar(Split(text), sub, tail);
    MapsAtOnce(root, text, cap, resolve, end);
  }

  /** What a scan makes of a physical name below `/private/var`. */
  lemma ScanBelowVar(cs: seq<Bytes>, sub: Sub, tail: seq<Bytes>) returns (end: Scan)
    requires cs == [[]] + ([PRIVATE, VAR] + (SubNames(sub) + tail)) && Descends(cs)
    ensures ScanFrom(cs, 0, InBase(AtRoot)) == Final(end) && ScanOk(end, |cs|)
    ensures if sub == TmpSub then end.InTemp? && end.sub == VarTmpSub && cs[end.start..] == tail else end.InOther?
  {
    RailNames();
    assert cs[0] == [] && cs[1] == PRIVATE && cs[2] == VAR && cs[3] == SubNames(sub)[0];
    ScanStep(cs, 0, InBase(AtRoot), InBase(AtRoot));
    ScanStep(cs, 1, InBase(AtRoot), InBase(AtPrivate));
    ScanStep(cs, 2, InBase(AtPrivate), InBase(AtPrivVar));
    var st := if sub == TmpSub then EnterTemp(AtPrivVar, 4) else InOther(AtPrivVar, 1);
    ScanStep(cs, 3, InBase(AtPrivVar), st);
    ScanDown(cs, 4, st);
    end := ScanFrom(cs, 0, InBase(AtRoot)).state;
    assert sub == TmpSub ==> cs[4..] == tail;
  }

  /** Mapping a physical name is a no-op, except below the root `/private/var`, where the
      physical `tmp` directory bears the name of a host temp root. */
  lemma PhysicalStays(root: Bytes, sub: Sub, tail: seq<Bytes>, cap: nat, resolve: Resolver)
    requires ValidRoot(root) && Descends(tail)
    requires |There(root, sub, tail)| < PATH_MAX && |There(root, sub, tail)| < cap
    ensures var there := There(root, sub, tail);
            var run := MapWith(root, there, cap, resolve);
            && run.queries == []
            && ((run.result == Unchanged || run.result == Mapped(there)) <==> !(root == PRIVATE_VAR_ROOT && sub == TmpSub))
  {
    var names := RootNames(root);
    SlashedTwo(PRIVATE, VAR);
    if names == [PRIVATE] {
      PhysicalPrivate(root, sub, tail, cap, resolve);
    } else if names == [PRIVATE, VAR] {
      PhysicalBelowVar(root, sub, tail, cap, resolve);
    } else {
      if root == PRIVATE_VAR_ROOT {
        RailNames();
        SlashedInjective(names, [PRIVATE, VAR]);
      }
      PhysicalOutside(root, names, sub, tail, cap, resolve);
    }
  }

  /** The exception is real: `/private/var` passes as a root, and its physical `/private/var/tmp`
      is mapped a second time. */
  lemma PhysicalMovesOnce(resolve: Resolver)
    ensures ValidRoot(PRIVATE_VAR_ROOT)
    ensures MapWith(PRIVATE_VAR_ROOT, There(PRIVATE_VAR_ROOT, TmpSub, []), PATH_MAX, resolve).result
            == Mapped(PRIVATE_VAR_ROOT + SubText(VarTmpSub))
  {
    var root := PRIVATE_VAR_ROOT;
    var u := PRIVATE + [SLASH] + VAR;
    RailNames();
    SlashedTwo(PRIVATE, VAR);
    assert root[1..] == u;
    SplitJoin(PRIVATE, VAR);
    CompsSingle(PRIVATE);
    CompsSingle(VAR);
    assert root[1] == 112 && SubText(TmpSub)[1] == 116 && SubText(VarTmpSub)[1] == 118;
    assert root[9] == 118 && CanonicalText(TmpSub)[9] == 116 && |CanonicalText(VarTmpSub)| > |root|;
    PhysicalBelowVar(root, TmpSub, [], PATH_MAX, resolve);
    assert There(root, VarTmpSub, []) == root + SubText(VarTmpSub);
  }
}
