/** When the mapper needs to ask: below a temp root, exactly where a `..` leads out of it again. */
module TmpPathContained {
  import opened Text
  import opened TmpPath
  import opened TmpPathResolver
  import opened TmpPathInverse
  import opened TmpPathAnswers

  /** How deep the components lead, counting names up and `..` down; None when they lead out. */
  function Depth(cs: seq<Bytes>): Option<nat> {
    if cs == [] then Some(0)
    else
      var d, c := Depth(cs[..|cs| - 1]), cs[|cs| - 1];
      if d.None? || !IsReal(c) then d
      else if c != DOTDOT then Some(d.value + 1)
      else if d.value == 0 then None
      else Some(d.value - 1)
  }

  predicate SlashFree(cs: seq<Bytes>) {
    forall k :: 0 <= k < |cs| ==> SLASH !in cs[k]
  }

  /** Some component is a name. */
  predicate Named(cs: seq<Bytes>) {
    exists k :: 0 <= k < |cs| && IsName(cs[k])
  }

  /** The scan below a temp root as far as the components stay in it. */
  lemma {:induction false} ScanIn(cs: seq<Bytes>, start: nat, i: nat, sub: Sub, parent: Base)
    requires start <= i <= |cs| && Depth(cs[start..i]).Some? && SlashFree(cs)
    ensures ScanFrom(cs, start, InTemp(sub, parent, start, 0, false))
            == ScanFrom(cs, i, InTemp(sub, parent, start, Depth(cs[start..i]).value, Named(cs[start..i])))
    decreases i
  {
    if i == start {
      assert cs[start..i] == [];
    } else {
      var f, g := cs[start..i - 1], cs[start..i];
      assert g == f + [cs[i - 1]] && g[..|g| - 1] == f;
      ScanIn(cs, start, i - 1, sub, parent);
      NamedMore(f, cs[i - 1]);
      var st := InTemp(sub, parent, start, Depth(f).value, Named(f));
      var next := InTemp(sub, parent, start, Depth(g).value, Named(g));
      ScanStep(cs, i - 1, st, next);
    }
  }

  lemma NamedMore(f: seq<Bytes>, c: Bytes)
    ensures Named(f + [c]) <==> Named(f) || IsName(c)
  {
    var g := f + [c];
    if Named(f) {
      var k :| 0 <= k < |f| && IsName(f[k]);
      assert IsName(g[k]);
    }
    if IsName(c) {
      assert IsName(g[|f|]);
    }
    if Named(g) {
      var k :| 0 <= k < |g| && IsName(g[k]);
      assert k < |f| ==> IsName(f[k]);
    }
  }

  /** A spelling of a temp root brings the scan to it, whatever stands behind. */
  lemma ScanEnters(sub: Sub, head: seq<Bytes>, cs: seq<Bytes>)
    requires Spells(head, sub) && [[]] + head <= cs
    ensures var end := 1 + |head|;
            ScanFrom(cs, 0, InBase(AtRoot)) == ScanFrom(cs, end, EnterTemp(if sub == VarTmpSub then AtPrivVar else AtPrivate, end))
  {
    var end := 1 + |head|;
    assert cs[..end] == [[]] + head;
    assert cs[1..end] == head && cs[0] == [] && cs[end - 1] == head[|head| - 1];
    SpellingRails(sub);
    ScanStep(cs, 0, InBase(AtRoot), InBase(AtRoot));
    ScanRails(cs, 1, end, AtRoot, sub);
  }

  lemma SplitBoth(head: seq<Bytes>, tail: seq<Bytes>)
    requires head != [] && Descends(head) && SlashFree(tail)
    ensures var text := Slashed(head) + Slashed(tail);
            text != [] && text[0] == SLASH && Split(text) == [[]] + (head + tail) && SlashFree(Split(text))
  {
    SlashedAppend(head, tail);
    SlashedFirst(head);
    SplitSlashed(head + tail);
    assert forall k :: 0 < k < |[[]] + (head + tail)| ==> ([[]] + (head + tail))[k] == (head + tail)[k - 1];
  }

  /** A path below a temp root that never leads out of it is mapped with its `..` as they are, and
      nothing is asked. */
  lemma StaysInside(root: Bytes, sub: Sub, head: seq<Bytes>, tail: seq<Bytes>, cap: nat, resolve: Resolver)
    requires Spells(head, sub) && SlashFree(tail) && Depth(tail).Some?
    ensures var path := Slashed(head) + Slashed(tail);
            var there := root + SubText(sub) + Slashed(tail);
            MapWith(root, path, cap, resolve)
            == Run(if |path| >= 1024 then Unchanged
                   else if |there| >= cap then Fails(NameTooLong)
                   else Mapped(there), [])
  {
    hide ScanFrom, Split, MapWith, Slashed, Spells, Depth;
    var path := Slashed(head) + Slashed(tail);
    var parent := if sub == VarTmpSub then AtPrivVar else AtPrivate;
    HeadThere(head, sub);
    SplitBoth(head, tail);
    var cs, end := Split(path), 1 + |head|;
    ScanEnters(sub, head, cs);
    assert cs[end..|cs|] == tail && cs[end..] == tail;
    ScanIn(cs, end, |cs|, sub, parent);
    var st := InTemp(sub, parent, end, Depth(tail).value, Named(tail));
    ScanDone(cs, st);
    if |path| < 1024 {
      MapsAtOnce(root, path, cap, resolve, st);
    } else {
      LongLeft(root, path, cap, resolve);
    }
  }

  lemma HeadThere(head: seq<Bytes>, sub: Sub)
    requires Spells(head, sub)
    ensures head != [] && Descends(head)
  {
  }

  lemma ScanDone(cs: seq<Bytes>, st: Scan)
    ensures ScanFrom(cs, |cs|, st) == Final(st)
  {
  }

  lemma LongLeft(root: Bytes, path: Bytes, cap: nat, resolve: Resolver)
    requires |path| >= 1024
    ensures MapWith(root, path, cap, resolve) == Run(Unchanged, [])
  {
  }

  /** Where a `..` leads out of it, behind a name, the first question is about the directory in front of
      that `..`. */
  lemma AsksOutside(root: Bytes, sub: Sub, head: seq<Bytes>, front: seq<Bytes>, rest: seq<Bytes>, cap: nat, resolve: Resolver)
    requires Spells(head, sub) && SlashFree(front) && SlashFree(rest) && Depth(front) == Some(0) && Named(front)
    requires |Slashed(head) + Slashed(front + [DOTDOT] + rest)| < 1024
    ensures var q := root + SubText(sub) + Slashed(front) + [SLASH, SLASH];
            var run := MapWith(root, Slashed(head) + Slashed(front + [DOTDOT] + rest), cap, resolve);
            if |q| >= cap then run == Run(Fails(NameTooLong), [])
            else run.queries != [] && run.queries[0] == q
  {
    hide ScanFrom, Split, MapLoop, Slashed, Spells, Depth, Named, Join;
    var tail := front + [DOTDOT] + rest;
    var path := Slashed(head) + Slashed(tail);
    var parent := if sub == VarTmpSub then AtPrivVar else AtPrivate;
    HeadThere(head, sub);
    assert forall k :: 0 <= k < |tail| ==> tail[k] == (if k < |front| then front[k] else if k == |front| then DOTDOT else rest[k - |front| - 1]);
    SplitBoth(head, tail);
    var cs, end := Split(path), 1 + |head|;
    var at := end + |front|;
    ScanEnters(sub, head, cs);
    assert cs[end..at] == front && cs[at] == DOTDOT;
    ScanIn(cs, end, at, sub, parent);
    ScanStuck(cs, at, InTemp(sub, parent, end, 0, true));
    FirstQuestion(root, path, Escape(end, Some(sub), at), cap, resolve);
    assert root + SubText(sub) + (Slashed(front) + [SLASH]) + [SLASH] == root + SubText(sub) + Slashed(front) + [SLASH, SLASH];
  }

  lemma ScanStuck(cs: seq<Bytes>, at: nat, st: Scan)
    requires at < |cs| && cs[at] == DOTDOT && st.InTemp? && st.depth == 0 && st.named
    ensures ScanFrom(cs, at, st) == Escaping(Escape(st.start, Some(st.sub), at))
  {
  }

  lemma FirstQuestion(root: Bytes, path: Bytes, e: Escape, cap: nat, resolve: Resolver)
    requires 0 < |path| < 1024 && path[0] == SLASH && e.start <= e.at < |Split(path)| && e.sub.Some?
    requires ScanFrom(Split(path), 0, InBase(AtRoot)) == Escaping(e)
    ensures var q := root + SubText(e.sub.value) + (Slashed(Split(path)[e.start..e.at]) + [SLASH]) + [SLASH];
            var run := MapWith(root, path, cap, resolve);
            if |q| >= cap then run == Run(Fails(NameTooLong), [])
            else run.queries != [] && run.queries[0] == q
  {
    hide ScanFrom, Split, Slashed, Join, Rest, DotDots;
    RoundIs(root, path, false, cap, resolve, 0);
  }
}
