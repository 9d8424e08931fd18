/** The mapping loop against any resolver, even a hostile one. */
module TmpPathResolver {
  import opened Text
  import opened TmpPath

  // ----- counting `..` components -----

  lemma DotDotsJoin(a: Bytes, b: Bytes)
    ensures DotDots(a + [SLASH] + b) == DotDots(a) + DotDots(b)
  {
    SplitJoin(a, b);
    CountAppend(Split(a), Split(b), DOTDOT);
  }

  lemma DotDotsEmpty()
    ensures DotDots([]) == 0 && DotDots([SLASH]) == 0
  {
    assert Split([]) == [[]];
    SplitJoin([], []);
    assert [] + [SLASH] + [] == [SLASH];
  }

  /** `rest` is empty or begins with a slash: it counts on its own. */
  lemma DotDotsRest(a: Bytes, rest: Bytes)
    requires rest == [] || rest[0] == SLASH
    ensures DotDots(a + rest) == DotDots(a) + DotDots(rest)
  {
    DotDotsEmpty();
    if rest == [] {
      assert a + rest == a;
    } else {
      var u := rest[1..];
      assert rest == [] + [SLASH] + u;
      assert a + rest == a + [SLASH] + u;
      DotDotsJoin(a, u);
      DotDotsJoin([], u);
    }
  }

  lemma {:induction false} CountNone(cs: seq<Bytes>, c: Bytes)
    requires forall k :: 0 <= k < |cs| ==> cs[k] != c
    ensures CountOf(cs, c) == 0
  {
    if cs != [] {
      CountNone(cs[1..], c);
    }
  }

  lemma CanonicalNames(sub: Sub)
    ensures CanonicalText(sub) == Slashed([PRIVATE] + SubNames(sub)) && SubText(sub) == Slashed(SubNames(sub))
    ensures forall n :: n in [PRIVATE] + SubNames(sub) ==> IsName(n)
    ensures DotDots(CanonicalText(sub)) == 0
  {
    assert TMP[0] == 116 && VAR[0] == 118 && PRIVATE[0] == 112;
    SlashedCons(PRIVATE, SubNames(sub));
    SlashedCons(TMP, []);
    SlashedCons(VAR, [TMP]);
    assert [VAR] + [TMP] == [VAR, TMP] && [TMP] + [] == [TMP];
    var names := [PRIVATE] + SubNames(sub);
    SplitSlashed(names);
    CountAppend([[]], names, DOTDOT);
    CountNone(names, DOTDOT);
  }

  /** Reporting a host name brings no `..` in. */
  lemma DotDotsHost(root: Bytes, text: Bytes)
    ensures DotDots(HostName(root, text)) <= DotDots(text)
  {
    var rest := ComponentRest(text, root);
    if rest.Some? {
      forall sub | ComponentRest(rest.value, SubText(sub)).Some?
        ensures DotDots(CanonicalText(sub) + ComponentRest(rest.value, SubText(sub)).value) <= DotDots(text)
      {
        var tail := ComponentRest(rest.value, SubText(sub)).value;
        assert text == (root + SubText(sub)) + tail;
        DotDotsRest(root + SubText(sub), tail);
        DotDotsRest(CanonicalText(sub), tail);
        CanonicalNames(sub);
      }
    }
  }

  lemma DotDotsParent(text: Bytes)
    ensures DotDots(TextualParent(text)) <= DotDots(text)
  {
    DotDotsEmpty();
    match LastSlash(text)
    case None =>
    case Some(i) =>
      if i == 0 {
        assert text[..1] == [SLASH];
      } else {
        var tail := text[i + 1..];
        assert text == text[..i] + [SLASH] + tail;
        DotDotsJoin(text[..i], tail);
      }
  }

  /** The text after the escaping `..` has fewer of them. */
  lemma DotDotsRemainder(cur: Bytes, at: nat)
    requires at < |Split(cur)| && Split(cur)[at] == DOTDOT
    ensures DotDots(Join(Split(cur)[at + 1..])) < DotDots(cur)
  {
    var cs := Split(cur);
    var tail := cs[at + 1..];
    assert cs == cs[..at] + ([DOTDOT] + tail);
    CountAppend(cs[..at], [DOTDOT] + tail, DOTDOT);
    CountAppend([DOTDOT], tail, DOTDOT);
    assert CountOf([DOTDOT], DOTDOT) == 1 by { assert [DOTDOT][1..] == []; }
    forall k | 0 <= k < |tail| ensures SLASH !in tail[k] {
      SplitSlashFree(cur, at + 1 + k);
    }
    SplitOfJoin(tail);
    assert CountOf([[]], DOTDOT) == 0 by { CountNone([[]], DOTDOT); }
  }

  /** The rewritten text has no more `..` than the answer and the remainder together. */
  lemma DotDotsBehind(root: Bytes, answer: Bytes, remainder: Bytes)
    ensures DotDots(Rest(root, answer, remainder)) <= DotDots(answer) + DotDots(remainder)
  {
    var parent := TextualParent(HostName(root, answer));
    DotDotsHost(root, answer);
    DotDotsParent(HostName(root, answer));
    DotDotsEmpty();
    if parent == [SLASH] {
      assert [SLASH] + remainder == [] + [SLASH] + remainder;
      DotDotsJoin([], remainder);
    } else {
      DotDotsJoin(parent, remainder);
    }
  }

  // ----- the loop -----

  lemma EscapeCounts(cur: Bytes, e: Escape)
    requires EscapeOk(Split(cur), 0, e)
    ensures DotDots(cur) > 0
  {
    DotDotsRemainder(cur, e.at);
  }

  /** No answer that was given contains a `..`. */
  ghost predicate CleanAnswers(resolve: Resolver, queries: seq<Bytes>, asked: nat) {
    forall i :: 0 <= i < |queries| ==> CleanAnswer(resolve(asked + i, queries[i]))
  }

  predicate CleanAnswer(a: Answer) {
    a.Resolved? ==> DotDots(a.text) == 0
  }

  lemma {:induction false} LoopBounds(root: Bytes, cur: Bytes, rewritten: bool, cap: nat, resolve: Resolver, asked: nat)
    ensures var run := MapLoop(root, cur, rewritten, cap, resolve, asked);
            && |run.queries| <= DotDots(cur)
            && (CleanAnswers(resolve, run.queries, asked) ==> run.result != Fails(Loop))
    decreases DotDots(cur)
  {
    var cs := Split(cur);
    ScanBounds(cs, 0, InBase(AtRoot));
    var end := ScanFrom(cs, 0, InBase(AtRoot));
    if end.Escaping? {
      EscapeCounts(cur, end.esc);
      AskAtBounds(root, cur, end.esc, cap, resolve, asked);
      var r := OneRound(root, cur, rewritten, cap, resolve, asked);
      if r.Again? {
        LoopBounds(root, r.next, rewritten || r.temp, cap, resolve, asked + 1);
        var rest := MapLoop(root, r.next, rewritten || r.temp, cap, resolve, asked + 1);
        CleanTail(resolve, r.query, rest.queries, asked);
      }
    }
  }

  lemma CleanTail(resolve: Resolver, q: Bytes, queries: seq<Bytes>, asked: nat)
    ensures CleanAnswers(resolve, [q] + queries, asked) ==> CleanAnswers(resolve, queries, asked + 1)
  {
    if CleanAnswers(resolve, [q] + queries, asked) {
      forall i | 0 <= i < |queries| ensures CleanAnswer(resolve(asked + 1 + i, queries[i])) {
        assert ([q] + queries)[i + 1] == queries[i];
        assert CleanAnswer(resolve(asked + (i + 1), ([q] + queries)[i + 1]));
      }
    }
  }

  /** A question, whatever the answer: one at most is put, and the loop check only fires on an
      answer that brings too many `..` in. */
  lemma AskBounds(root: Bytes, sub: Option<Sub>, front: Bytes, remainder: Bytes, dots: nat, cap: nat, resolve: Resolver, asked: nat)
    requires DotDots(remainder) < dots
    ensures var r := Ask(root, sub, front, remainder, dots, cap, resolve, asked);
            r.Over? ==>
              && |r.run.queries| <= 1
              && (CleanAnswers(resolve, r.run.queries, asked) ==> r.run.result != Fails(Loop))
  {
    var r := Ask(root, sub, front, remainder, dots, cap, resolve, asked);
    var q := Head(root, sub) + front + [SLASH];
    var a := resolve(asked, q);
    if a.Resolved? {
      DotDotsBehind(root, a.text, remainder);
    }
    if r.Over? && r.run.queries == [q] && CleanAnswers(resolve, [q], asked) {
      assert CleanAnswer(resolve(asked + 0, [q][0]));
    }
  }

  lemma AskAtBounds(root: Bytes, cur: Bytes, e: Escape, cap: nat, resolve: Resolver, asked: nat)
    requires EscapeOk(Split(cur), 0, e)
    ensures var r := AskAt(root, cur, e, cap, resolve, asked);
            r.Over? ==>
              && |r.run.queries| <= 1
              && (CleanAnswers(resolve, r.run.queries, asked) ==> r.run.result != Fails(Loop))
  {
    DotDotsRemainder(cur, e.at);
    AskBounds(root, e.sub, Front(Split(cur), e), Join(Split(cur)[e.at + 1..]), DotDots(cur), cap, resolve, asked);
  }

  /** Whatever the resolver answers, the mapper asks at most once for each `..` of its input,
      and its own loop check only fires on an answer that contains a `..`. */
  lemma AnyResolver(root: Bytes, path: Bytes, cap: nat, resolve: Resolver)
    ensures var run := MapWith(root, path, cap, resolve);
            && |run.queries| <= DotDots(path)
            && (CleanAnswers(resolve, run.queries, 0) ==> run.result != Fails(Loop))
  {
    LoopBounds(root, path, false, cap, resolve, 0);
  }

  // ----- symlink targets -----

  const UNRESOLVED: int := -1

  function NeverAsked(k: nat, q: Bytes): Answer {
    Refused(UNRESOLVED)
  }

  /** A symlink target is mapped without asking anyone; where the mapper would have to ask,
      the target is stored as it is. */
  function MapTarget(root: Bytes, target: Bytes, cap: nat): MapResult {
    var r := MapWith(root, target, cap, NeverAsked).result;
    if r == Fails(Kernel(UNRESOLVED)) then Unchanged else r
  }

  /** So a target is mapped as any resolver would have it mapped, when none is needed, and is
      left alone otherwise. */
  lemma TargetIsLexical(root: Bytes, target: Bytes, cap: nat, resolve: Resolver)
    ensures var run := MapWith(root, target, cap, resolve);
            MapTarget(root, target, cap) == if run.queries == [] then run.result else Unchanged
  {
    var cs := Split(target);
    ScanBounds(cs, 0, InBase(AtRoot));
    var end := ScanFrom(cs, 0, InBase(AtRoot));
    if end.Escaping? {
      var e := end.esc;
      AskTwice(root, e.sub, Front(cs, e), Join(cs[e.at + 1..]), DotDots(target), cap, resolve);
    }
  }

  lemma AskTwice(root: Bytes, sub: Option<Sub>, front: Bytes, remainder: Bytes, dots: nat, cap: nat, resolve: Resolver)
    ensures var q := Head(root, sub) + front + [SLASH];
            var r := Ask(root, sub, front, remainder, dots, cap, resolve, 0);
            var none := Ask(root, sub, front, remainder, dots, cap, NeverAsked, 0);
            if |q| >= cap then r == none == Over(Run(Fails(NameTooLong), []))
            else none == Over(Run(Fails(Kernel(UNRESOLVED)), [q])) && (r.Over? ==> r.run.queries == [q])
  {
  }
}
