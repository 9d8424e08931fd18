/** With the normaliser as resolver, mapping agrees with "normalise, then relocate". */
module TmpLexicalMain {
  import opened Text
  import opened TmpPath
  import opened TmpPathResolver
  import opened TmpPathInverse
  import opened TmpLexical

  // ----- the text after a restart -----

  /** The text that stands for names `p` followed by the components `tail`. */
  function Behind(p: seq<Bytes>, tail: seq<Bytes>): Bytes {
    (if PathOf(p) == [SLASH] then PathOf(p) else PathOf(p) + [SLASH]) + Join(tail)
  }

  lemma SplitOf(tail: seq<Bytes>)
    requires forall k :: 0 <= k < |tail| ==> SLASH !in tail[k]
    ensures Split(Join(tail)) == if tail == [] then [[]] else tail
  {
    SplitOfJoin(tail);
  }

  lemma PathOfRoot(p: seq<Bytes>)
    requires forall n :: n in p ==> IsName(n)
    ensures PathOf(p) == [SLASH] <==> p == []
  {
    if p != [] {
      SplitNames(p);
      SplitPathOf([]);
      assert p[0] in p;
      assert ([[]] + p)[1] == p[0];
    }
  }

  lemma SplitUnder(front: Bytes, fs: seq<Bytes>, u: Bytes)
    requires Split(front) == [[]] + fs
    ensures Split(front + [SLASH] + u) == [[]] + (fs + Split(u))
  {
    SplitJoin(front, u);
    var none, us: seq<Bytes> := [[]], Split(u);
    assert none + fs + us == none + (fs + us);
  }

  lemma SplitBehindRoot(p: seq<Bytes>, tail: seq<Bytes>)
    requires (forall n :: n in p ==> IsName(n)) && forall k :: 0 <= k < |tail| ==> SLASH !in tail[k]
    ensures Split(Behind(p, tail)) == [[]] + (p + (if tail == [] then [[]] else tail))
  {
    var u := Join(tail);
    SplitOf(tail);
    PathOfRoot(p);
    SplitNames(p);
    SplitUnder(Slashed(p), p, u);
    if p == [] {
      assert [SLASH] + u == [] + [SLASH] + u;
    }
  }

  lemma NormalTail(stack: seq<Bytes>, tail: seq<Bytes>)
    ensures Normal(stack, if tail == [] then [[]] else tail) == Normal(stack, tail)
  {
    NormalNothing(stack);
  }

  /** Such a text normalises from the names on, and avoids what the remainder avoids. */
  lemma BehindNormal(root: seq<Bytes>, p: seq<Bytes>, tail: seq<Bytes>)
    requires Canonical(p) && (forall k :: 0 <= k < |tail| ==> SLASH !in tail[k]) && Avoids(root, p, tail)
    ensures HostNames(Behind(p, tail)) == Normal(p, tail) && Avoids(root, [], Split(Behind(p, tail)))
    ensures Behind(p, tail) != [] && Behind(p, tail)[0] == SLASH
  {
    var rest: seq<Bytes> := if tail == [] then [[]] else tail;
    SplitBehindRoot(p, tail);
    NormalPath(p, rest);
    NormalTail(p, tail);
    assert !InPrivateTree(root, p);
    AvoidsNames(root, [], p) by { assert [] + p == p; }
    AvoidsTail(root, p, tail);
    NormalNothing([]);
    NormalNames([], p);
    assert [] + p == p;
    AvoidsAppend(root, [], [[]], p + rest);
    AvoidsAppend(root, [], p, rest);
    AvoidsNothing(root, p);
    CompsPathOf(p);
  }

  lemma AvoidsTail(root: seq<Bytes>, p: seq<Bytes>, tail: seq<Bytes>)
    requires Avoids(root, p, tail)
    ensures Avoids(root, p, if tail == [] then [[]] else tail)
  {
    var none: Bytes := [];
    assert [none][1..] == [];
  }

  lemma AvoidsNothing(root: seq<Bytes>, p: seq<Bytes>)
    requires !InPrivateTree(root, p)
    ensures Avoids(root, [], [[]])
  {
    var none: Bytes := [];
    assert [none][1..] == [];
    assert !InPrivateTree(root, []);
  }

  // ----- one escape -----

  /** What the loop relies on. */
  ghost predicate Setting(root: Bytes, names: seq<Bytes>, cur: Bytes) {
    && names != [] && Canonical(names) && root == Slashed(names)
    && cur != [] && cur[0] == SLASH && Avoids(names, [], Split(cur))
  }

  lemma SlashFreeSplit(cur: Bytes)
    ensures forall k :: 0 <= k < |Split(cur)| ==> SLASH !in Split(cur)[k]
  {
    forall k | 0 <= k < |Split(cur)| ensures SLASH !in Split(cur)[k] {
      SplitSlashFree(cur, k);
    }
  }

  /** In front of the escaping `..`. */
  lemma StackAt(names: seq<Bytes>, cs: seq<Bytes>, at: nat)
    requires at < |cs| && cs[at] == DOTDOT && (forall k :: 0 <= k < |cs| ==> SLASH !in cs[k]) && Avoids(names, [], cs)
    ensures var stack := Normal([], cs[..at]);
            && Canonical(stack) && !InPrivateTree(names, stack)
            && Avoids(names, Push(stack, DOTDOT), cs[at + 1..])
            && Normal([], cs) == Normal(Push(stack, DOTDOT), cs[at + 1..])
  {
    assert cs == cs[..at] + cs[at..];
    assert cs[at..][0] == DOTDOT && cs[at..][1..] == cs[at + 1..];
    AvoidsAppend(names, [], cs[..at], cs[at..]);
    NormalAppend([], cs[..at], cs[at..]);
    NormalCanonical([], cs[..at]);
  }

  /** What the resolver answers to a question about an ordinary directory. */
  lemma AnswerOther(cur: Bytes, e: Escape)
    requires cur != [] && cur[0] == SLASH && EscapeOk(Split(cur), 0, e) && e.sub.None?
    ensures HostNames(Query([], Split(cur), e)) == Normal([], Split(cur)[..e.at])
  {
    var cs := Split(cur);
    var front := cs[..e.at];
    SlashFreeSplit(cur);
    NextSlashIs(cur, 0, 0);
    assert cs[0] == [];
    assert e.at > 0;
    SplitOfJoin(front);
    var t := Join(front);
    assert Query([], cs, e) == t + [SLASH] + [SLASH];
    HostTrailing(t + [SLASH]);
    HostTrailing(t);
  }

  /** What it answers to a question about a directory below a private temp directory. */
  lemma AnswerTemp(root: Bytes, names: seq<Bytes>, cur: Bytes, e: Escape)
    requires names != [] && Canonical(names) && root == Slashed(names) && EscapeOk(Split(cur), 0, e) && e.sub.Some?
    requires Normal(names + SubNames(e.sub.value), Split(cur)[e.start..e.at]) == names + SubNames(e.sub.value)
    ensures HostNames(Query(root, Split(cur), e)) == names + SubNames(e.sub.value)
  {
    var cs, sub := Split(cur), e.sub.value;
    SlashFreeSplit(cur);
    FrontSlashFree(cs, e.start, e.at);
    TempText(root, names, sub, cs[e.start..e.at]);
  }

  lemma FrontSlashFree(cs: seq<Bytes>, i: nat, j: nat)
    requires i <= j <= |cs| && forall k :: 0 <= k < |cs| ==> SLASH !in cs[k]
    ensures var l := cs[i..j]; forall k :: 0 <= k < |l| ==> SLASH !in l[k]
  {
  }

  /** The names of a question about a directory below a private temp directory. */
  lemma TempText(root: Bytes, names: seq<Bytes>, sub: Sub, tail: seq<Bytes>)
    requires names != [] && Canonical(names) && root == Slashed(names) && forall k :: 0 <= k < |tail| ==> SLASH !in tail[k]
    ensures HostNames(root + SubText(sub) + (Slashed(tail) + [SLASH]) + [SLASH]) == Normal(names + SubNames(sub), tail)
  {
    SubIsNames(sub);
    var all := names + SubNames(sub);
    SlashedAppend(names, SubNames(sub));
    var t := Slashed(all) + Slashed(tail);
    assert root + SubText(sub) + (Slashed(tail) + [SLASH]) + [SLASH] == t + [SLASH] + [SLASH];
    HostBehind(all, tail);
    HostTrailing(t + [SLASH]);
    HostTrailing(t);
  }

  lemma ParentOfStack(stack: seq<Bytes>)
    requires stack != [] && forall n :: n in stack ==> IsName(n)
    ensures TextualParent(PathOf(stack)) == PathOf(Push(stack, DOTDOT))
  {
    var p, k := stack[..|stack| - 1], stack[|stack| - 1];
    assert stack == p + [k] && k in stack;
    assert forall n :: n in p ==> n in stack;
    TextualParentOf(p, k);
  }

  /** The name of the directory that the `..` leads to. */
  lemma EscapeParent(root: Bytes, names: seq<Bytes>, cur: Bytes, e: Escape, answer: Bytes)
    requires Setting(root, names, cur) && EscapeOk(Split(cur), 0, e) && EndAgrees(names, Split(cur), Escaping(e))
    requires answer == PathOf(HostNames(Query(root, Split(cur), e)))
    ensures TextualParent(HostName(root, answer)) == PathOf(Push(Normal([], Split(cur)[..e.at]), DOTDOT))
  {
    var cs := Split(cur);
    var stack := Normal([], cs[..e.at]);
    SlashFreeSplit(cur);
    StackAt(names, cs, e.at);
    ParentOfStack(stack);
    if e.sub.None? {
      assert Query(root, cs, e) == Query([], cs, e);
      AnswerOther(cur, e);
      HostNameStays(root, names, stack);
    } else {
      var sub := e.sub.value;
      AnswerTemp(root, names, cur, e);
      UnmapsToCanonical(root, sub, []);
      CanonicalNames(sub);
      SlashedAppend(names, SubNames(sub));
      assert root + SubText(sub) + [] == root + SubText(sub);
      assert CanonicalText(sub) + [] == CanonicalText(sub);
    }
  }

  lemma TailSlashFree(cs: seq<Bytes>, i: nat)
    requires i <= |cs| && forall k :: 0 <= k < |cs| ==> SLASH !in cs[k]
    ensures var tail := cs[i..]; forall k :: 0 <= k < |tail| ==> SLASH !in tail[k]
  {
  }

  lemma BehindSetting(root: Bytes, names: seq<Bytes>, p: seq<Bytes>, tail: seq<Bytes>)
    requires names != [] && Canonical(names) && root == Slashed(names)
    requires Canonical(p) && (forall k :: 0 <= k < |tail| ==> SLASH !in tail[k]) && Avoids(names, p, tail)
    ensures Setting(root, names, Behind(p, tail)) && HostNames(Behind(p, tail)) == Normal(p, tail)
  {
    BehindNormal(names, p, tail);
  }

  /** A restart changes neither what the path comes to nor what it avoids. */
  lemma EscapeKeeps(root: Bytes, names: seq<Bytes>, cur: Bytes, e: Escape, answer: Bytes)
    requires Setting(root, names, cur) && EscapeOk(Split(cur), 0, e) && EndAgrees(names, Split(cur), Escaping(e))
    requires answer == PathOf(HostNames(Query(root, Split(cur), e)))
    ensures Keeps(root, names, cur, Rejoin(root, Split(cur), e, answer))
  {
    var cs := Split(cur);
    var p := Push(Normal([], cs[..e.at]), DOTDOT);
    SlashFreeSplit(cur);
    StackAt(names, cs, e.at);
    EscapeParent(root, names, cur, e, answer);
    TailSlashFree(cs, e.at + 1);
    PushCanonical(Normal([], cs[..e.at]), DOTDOT);
    BehindSetting(root, names, p, cs[e.at + 1..]);
    RejoinBehind(root, cs, e, answer, p);
  }

  lemma RejoinBehind(root: Bytes, cs: seq<Bytes>, e: Escape, answer: Bytes, p: seq<Bytes>)
    requires e.at < |cs| && TextualParent(HostName(root, answer)) == PathOf(p)
    ensures Rejoin(root, cs, e, answer) == Behind(p, cs[e.at + 1..])
  {
    RestBehind(root, answer, cs[e.at + 1..], p);
  }

  lemma RestBehind(root: Bytes, answer: Bytes, tail: seq<Bytes>, p: seq<Bytes>)
    requires TextualParent(HostName(root, answer)) == PathOf(p)
    ensures Rest(root, answer, Join(tail)) == Behind(p, tail)
  {
  }

  /** The restarted text stands for the same names. */
  ghost predicate Keeps(root: Bytes, names: seq<Bytes>, cur: Bytes, next: Bytes) {
    Setting(root, names, next) && HostNames(next) == HostNames(cur)
  }

  // ----- the end of a scan -----

  /** The names of a path outside the temp roots. */
  predicate Outside(st: Scan, stack: seq<Bytes>) {
    match st
    case InBase(b) => stack == BaseNames(b)
    case InOther(b, _) => |stack| > |BaseNames(b)| && BaseNames(b) <= stack && !Rail(b, stack[|BaseNames(b)|])
    case InTemp(_, _, _, _, _) => false
  }

  lemma OutsideStays(names: seq<Bytes>, st: Scan, stack: seq<Bytes>)
    requires Outside(st, stack)
    ensures Relocate(names, stack) == stack
  {
    RailNames();
    var long, short := [PRIVATE, VAR, TMP], [PRIVATE, TMP];
    assert long <= stack ==> stack[0] == long[0] && stack[1] == long[1] && stack[2] == long[2];
    assert short <= stack ==> stack[0] == short[0] && stack[1] == short[1];
    match st
    case InBase(b) =>
    case InOther(b, _) =>
      match b
      case AtRoot =>
      case AtPrivate => assert stack[0] == [PRIVATE][0];
      case AtPrivVar => assert stack[0] == [PRIVATE, VAR][0] && stack[1] == [PRIVATE, VAR][1];
  }

  lemma FinalOutside(names: seq<Bytes>, cs: seq<Bytes>, st: Scan)
    requires !st.InTemp? && Agrees(names, cs, |cs|, st, Normal([], cs))
    ensures Relocate(names, Normal([], cs)) == Normal([], cs)
  {
    OutsideStays(names, st, Normal([], cs));
  }

  lemma FinalTemp(root: Bytes, names: seq<Bytes>, cs: seq<Bytes>, st: Scan)
    requires names != [] && Canonical(names) && root == Slashed(names) && (forall k :: 0 <= k < |cs| ==> SLASH !in cs[k])
    requires st.InTemp? && Agrees(names, cs, |cs|, st, Normal([], cs))
    ensures HostNames(root + SubText(st.sub) + Slashed(cs[st.start..])) == Relocate(names, Normal([], cs))
  {
    var sub, tail := st.sub, cs[st.start..];
    var stack := Normal([], cs);
    RailNames();
    CanonicalNames(sub);
    SlashedAppend(names, SubNames(sub));
    assert forall n :: n in SubNames(sub) ==> n in [PRIVATE] + SubNames(sub);
    assert forall k :: 0 <= k < |tail| ==> tail[k] == cs[st.start + k];
    HostBehind(names + SubNames(sub), tail);
    assert cs[st.start..|cs|] == tail;
    RelocateTemp(names, sub, stack);
  }

  lemma RelocateTemp(names: seq<Bytes>, sub: Sub, stack: seq<Bytes>)
    requires TempNames(sub) <= stack
    ensures Relocate(names, stack) == names + SubNames(sub) + stack[|TempNames(sub)|..]
  {
    RailNames();
    assert TempNames(VarTmpSub) == [PRIVATE, VAR, TMP] && TempNames(TmpSub) == [PRIVATE, TMP];
    assert stack[1] == TempNames(sub)[1];
  }

  // ----- the loop -----

  /** The text used in the end comes to the relocated names. */
  ghost predicate Relocates(names: seq<Bytes>, cur: Bytes, r: MapResult) {
    && (r.Mapped? ==> HostNames(r.text) == Relocate(names, HostNames(cur)))
    && (r.Unchanged? ==> HostNames(cur) == Relocate(names, HostNames(cur)))
  }

  lemma ScanStart(names: seq<Bytes>, cur: Bytes)
    requires cur != [] && cur[0] == SLASH
    ensures EndAgrees(names, Split(cur), ScanFrom(Split(cur), 0, InBase(AtRoot)))
  {
    var cs := Split(cur);
    SlashFreeSplit(cur);
    assert cs[..0] == [];
    ScanAgrees(names, cs, 0, InBase(AtRoot));
  }

  lemma FinalRelocates(root: Bytes, names: seq<Bytes>, cur: Bytes, rewritten: bool, cap: nat, st: Scan)
    requires Setting(root, names, cur) && ScanOk(st, |Split(cur)|) && EndAgrees(names, Split(cur), Final(st))
    ensures Relocates(names, cur, Answered(root, cur, st, rewritten, cap))
  {
    SlashFreeSplit(cur);
    if st.InTemp? {
      FinalTemp(root, names, Split(cur), st);
    } else {
      FinalOutside(names, Split(cur), st);
    }
  }

  lemma LexicalAnswer(resolve: Resolver, asked: nat, q: Bytes)
    requires Lexical(resolve)
    ensures resolve(asked, q) == Resolved(PathOf(HostNames(q)))
  {
  }

  lemma RoundKeeps(root: Bytes, names: seq<Bytes>, cur: Bytes, e: Escape, cap: nat, resolve: Resolver, asked: nat)
    requires Setting(root, names, cur) && Lexical(resolve) && EscapeOk(Split(cur), 0, e) && EndAgrees(names, Split(cur), Escaping(e))
    ensures var r := AskAt(root, cur, e, cap, resolve, asked);
            if r.Again? then Keeps(root, names, cur, r.next) else r.run.result.Fails?
  {
    var q := Query(root, Split(cur), e);
    LexicalAnswer(resolve, asked, q);
    AskedAt(root, cur, e, cap, resolve, asked);
    EscapeKeeps(root, names, cur, e, resolve(asked, q).text);
  }

  /** One round, without its continuation. */
  lemma RoundRelocates(root: Bytes, names: seq<Bytes>, cur: Bytes, rewritten: bool, cap: nat, resolve: Resolver, asked: nat)
    requires Setting(root, names, cur) && Lexical(resolve)
    ensures match OneRound(root, cur, rewritten, cap, resolve, asked)
            case Over(run) => Relocates(names, cur, run.result)
            case Again(_, next, _) => Keeps(root, names, cur, next)
  {
    var cs := Split(cur);
    ScanBounds(cs, 0, InBase(AtRoot));
    ScanStart(names, cur);
    match ScanFrom(cs, 0, InBase(AtRoot))
    case Final(st) => FinalRelocates(root, names, cur, rewritten, cap, st);
    case Escaping(e) => RoundKeeps(root, names, cur, e, cap, resolve, asked);
  }

  lemma {:induction false} LoopRelocates(root: Bytes, names: seq<Bytes>, cur: Bytes, rewritten: bool, cap: nat, resolve: Resolver, asked: nat)
    requires Setting(root, names, cur) && Lexical(resolve)
    ensures Relocates(names, cur, MapLoop(root, cur, rewritten, cap, resolve, asked).result)
    decreases DotDots(cur)
  {
    RoundRelocates(root, names, cur, rewritten, cap, resolve, asked);
    var r := OneRound(root, cur, rewritten, cap, resolve, asked);
    if r.Again? {
      LoopRelocates(root, names, r.next, rewritten || r.temp, cap, resolve, asked + 1);
    }
  }

  /** Lexical correctness. For every absolute path below the length limit that never names
      the private tree physically, with the normaliser as resolver: whenever the mapper
      answers, the text to use normalises to "normalise, then relocate below the root". */
  lemma MapIsLexical(root: Bytes, names: seq<Bytes>, path: Bytes, cap: nat, resolve: Resolver)
    requires names != [] && Canonical(names) && root == Slashed(names) && Lexical(resolve)
    requires path != [] && path[0] == SLASH && |path| < PATH_MAX && Avoids(names, [], Split(path))
    ensures var r := MapWith(root, path, cap, resolve).result;
            !r.Fails? ==> HostNames(if r.Mapped? then r.text else path) == Relocate(names, HostNames(path))
  {
    LoopRelocates(root, names, path, false, cap, resolve, 0);
  }
}
