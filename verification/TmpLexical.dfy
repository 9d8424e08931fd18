/** The mapper against "normalise, then relocate below the root". */
module TmpLexical {
  import opened Text
  import opened TmpPath
  import opened TmpPathResolver
  import opened TmpPathInverse

  // ----- the oracle -----

  /** One component of the normaliser: `/tmp` and `/var` stand for their `/private` forms. */
  function Push(stack: seq<Bytes>, c: Bytes): seq<Bytes> {
    if !IsReal(c) then stack
    else if c == DOTDOT then (if stack == [] then [] else stack[..|stack| - 1])
    else if stack == [] && (c == TMP || c == VAR) then [PRIVATE, c]
    else stack + [c]
  }

  function Normal(stack: seq<Bytes>, cs: seq<Bytes>): seq<Bytes>
    decreases |cs|
  {
    if cs == [] then stack else Normal(Push(stack, cs[0]), cs[1..])
  }

  /** The names a path comes to when no link but the two aliases is in play. */
  function HostNames(path: Bytes): seq<Bytes> {
    Normal([], Split(path))
  }

  /** Relocation: what lies below a host temp root is found below the workspace root. */
  function Relocate(root: seq<Bytes>, names: seq<Bytes>): seq<Bytes> {
    if [PRIVATE, VAR, TMP] <= names then root + [VAR, TMP] + names[3..]
    else if [PRIVATE, TMP] <= names then root + [TMP] + names[2..]
    else names
  }

  /** The normaliser as a resolver. */
  ghost predicate Lexical(resolve: Resolver) {
    forall k: nat, q: Bytes :: resolve(k, q) == Resolved(PathOf(HostNames(q)))
  }

  // ----- the normaliser -----

  lemma {:induction false} NormalAppend(stack: seq<Bytes>, a: seq<Bytes>, b: seq<Bytes>)
    ensures Normal(stack, a + b) == Normal(Normal(stack, a), b)
    decreases |a|
  {
    if a == [] {
      assert a + b == b;
    } else {
      assert (a + b)[1..] == a[1..] + b;
      NormalAppend(Push(stack, a[0]), a[1..], b);
    }
  }

  /** Names, the first of which is no alias at the root. */
  predicate Canonical(names: seq<Bytes>) {
    && (forall n :: n in names ==> IsName(n))
    && (names != [] ==> names[0] != TMP && names[0] != VAR)
  }

  lemma PushCanonical(stack: seq<Bytes>, c: Bytes)
    requires Canonical(stack) && SLASH !in c
    ensures Canonical(Push(stack, c))
  {
    RailNames();
  }

  lemma {:induction false} NormalCanonical(stack: seq<Bytes>, cs: seq<Bytes>)
    requires Canonical(stack) && forall k :: 0 <= k < |cs| ==> SLASH !in cs[k]
    ensures Canonical(Normal(stack, cs))
    decreases |cs|
  {
    if cs != [] {
      PushCanonical(stack, cs[0]);
      NormalCanonical(Push(stack, cs[0]), cs[1..]);
    }
  }

  /** Names below a non-empty stack are pushed as they are. */
  lemma {:induction false} NormalNames(stack: seq<Bytes>, names: seq<Bytes>)
    requires (forall n :: n in names ==> IsName(n)) && (stack != [] || Canonical(names))
    ensures Normal(stack, names) == stack + names
    decreases |names|
  {
    if names != [] {
      assert names[0] in names;
      var rest := names[1..];
      assert forall n :: n in rest ==> n in names;
      NormalNames(stack + [names[0]], rest);
      assert stack + [names[0]] + rest == stack + names;
    }
  }

  lemma NormalNothing(stack: seq<Bytes>)
    ensures Normal(stack, [[]]) == stack
  {
    var none: Bytes := [];
    assert [none][1..] == [];
  }

  /** Canonical names normalise to themselves, with any remainder behind them. */
  lemma NormalPath(names: seq<Bytes>, cs: seq<Bytes>)
    requires Canonical(names)
    ensures Normal([], [[]] + (names + cs)) == Normal(names, cs)
  {
    NormalAppend([], [[]], names + cs);
    NormalNothing([]);
    NormalAppend([], names, cs);
    NormalNames([], names);
    assert [] + names == names;
  }

  /** Trailing slashes do not count. */
  lemma HostTrailing(a: Bytes)
    ensures HostNames(a + [SLASH]) == HostNames(a)
  {
    SplitJoin(a, []);
    assert a + [SLASH] + [] == a + [SLASH];
    assert Split([]) == [[]];
    NormalAppend([], Split(a), [[]]);
    NormalNothing(HostNames(a));
  }

  // ----- scan states and stacks -----

  function BaseNames(b: Base): seq<Bytes> {
    match b
    case AtRoot => []
    case AtPrivate => [PRIVATE]
    case AtPrivVar => [PRIVATE, VAR]
  }

  /** Leads from base `b` to another base or into a temp root. */
  predicate Rail(b: Base, c: Bytes) {
    c == TMP || (c == VAR && b != AtPrivVar) || (c == PRIVATE && b == AtRoot)
  }

  function TempNames(sub: Sub): seq<Bytes> {
    [PRIVATE] + SubNames(sub)
  }

  /** What a scan state says about the stack that the normaliser has at the same point. */
  ghost predicate Agrees(root: seq<Bytes>, cs: seq<Bytes>, i: nat, st: Scan, stack: seq<Bytes>) {
    match st
    case InBase(b) => stack == BaseNames(b)
    case InOther(b, depth) =>
      |stack| == |BaseNames(b)| + depth && depth > 0 && BaseNames(b) <= stack && !Rail(b, stack[|BaseNames(b)|])
    case InTemp(sub, parent, start, depth, named) =>
      && start <= i <= |cs| && parent == (if sub == TmpSub then AtPrivate else AtPrivVar)
      && |stack| == |TempNames(sub)| + depth && TempNames(sub) <= stack
      && Normal(TempNames(sub), cs[start..i]) == stack
      && Normal(root + SubNames(sub), cs[start..i]) == root + SubNames(sub) + stack[|TempNames(sub)|..]
      && (!named ==> depth == 0)
  }

  lemma NormalSnoc(stack: seq<Bytes>, cs: seq<Bytes>, start: nat, i: nat)
    requires start <= i < |cs|
    ensures Normal(stack, cs[start..i + 1]) == Push(Normal(stack, cs[start..i]), cs[i])
  {
    assert cs[start..i + 1] == cs[start..i] + [cs[i]];
    NormalAppend(stack, cs[start..i], [cs[i]]);
    assert [cs[i]][1..] == [];
  }

  /** One component keeps scanner and normaliser together, from a base. */
  lemma BaseAgrees(root: seq<Bytes>, cs: seq<Bytes>, i: nat, b: Base, follows: bool)
    requires i < |cs| && SLASH !in cs[i]
    ensures var m := ScanMove(InBase(b), cs[i], i + 1, follows);
            m.Go? && Agrees(root, cs, i + 1, m.state, Push(BaseNames(b), cs[i]))
  {
    RailNames();
    var m := ScanMove(InBase(b), cs[i], i + 1, follows);
    if m.state.InTemp? {
      assert cs[i + 1..i + 1] == [];
      assert root + SubNames(m.state.sub) + [] == root + SubNames(m.state.sub);
    }
  }

  lemma OtherAgrees(root: seq<Bytes>, cs: seq<Bytes>, i: nat, st: Scan, stack: seq<Bytes>, follows: bool)
    requires i < |cs| && SLASH !in cs[i] && st.InOther? && Agrees(root, cs, i, st, stack)
    requires ScanMove(st, cs[i], i + 1, follows).Go?
    ensures Agrees(root, cs, i + 1, ScanMove(st, cs[i], i + 1, follows).state, Push(stack, cs[i]))
  {
    if cs[i] == DOTDOT && st.depth == 1 {
      assert stack[..|stack| - 1] == BaseNames(st.base);
    }
  }

  lemma TempAgrees(root: seq<Bytes>, cs: seq<Bytes>, i: nat, st: Scan, stack: seq<Bytes>, follows: bool)
    requires i < |cs| && SLASH !in cs[i] && st.InTemp? && Agrees(root, cs, i, st, stack)
    requires ScanMove(st, cs[i], i + 1, follows).Go?
    ensures Agrees(root, cs, i + 1, ScanMove(st, cs[i], i + 1, follows).state, Push(stack, cs[i]))
  {
    var sub := st.sub;
    NormalSnoc(TempNames(sub), cs, st.start, i);
    NormalSnoc(root + SubNames(sub), cs, st.start, i);
    if cs[i] == DOTDOT && st.depth == 0 {
      assert stack == TempNames(sub);
      assert stack[..|stack| - 1] == BaseNames(st.parent);
    } else {
      TempPush(root + SubNames(sub), TempNames(sub), stack, cs[i]);
    }
  }

  /** Above a base that stays, the same component does the same to both stacks. */
  lemma TempPush(there: seq<Bytes>, here: seq<Bytes>, stack: seq<Bytes>, c: Bytes)
    requires there != [] && here != [] && here <= stack && (c == DOTDOT ==> |stack| > |here|)
    ensures here <= Push(stack, c) && Push(there + stack[|here|..], c) == there + Push(stack, c)[|here|..]
    ensures |Push(stack, c)| == if !IsReal(c) then |stack| else if c == DOTDOT then |stack| - 1 else |stack| + 1
  {
    var below := stack[|here|..];
    if IsReal(c) && c == DOTDOT {
      assert (there + below)[..|there + below| - 1] == there + below[..|below| - 1];
      assert stack[..|stack| - 1][|here|..] == below[..|below| - 1];
    } else if IsReal(c) {
      assert (stack + [c])[|here|..] == below + [c];
      assert there + below + [c] == there + (below + [c]);
    }
  }

  lemma MoveAgrees(root: seq<Bytes>, cs: seq<Bytes>, i: nat, st: Scan, stack: seq<Bytes>, follows: bool)
    requires i < |cs| && SLASH !in cs[i] && Agrees(root, cs, i, st, stack)
    requires ScanMove(st, cs[i], i + 1, follows).Go?
    ensures Agrees(root, cs, i + 1, ScanMove(st, cs[i], i + 1, follows).state, Push(stack, cs[i]))
  {
    match st
    case InBase(b) => BaseAgrees(root, cs, i, b, follows);
    case InOther(_, _) => OtherAgrees(root, cs, i, st, stack, follows);
    case InTemp(_, _, _, _, _) => TempAgrees(root, cs, i, st, stack, follows);
  }

  /** Where the scan stops, the stack is known. */
  ghost predicate EndAgrees(root: seq<Bytes>, cs: seq<Bytes>, r: ScanEnd) {
    match r
    case Final(st) => Agrees(root, cs, |cs|, st, Normal([], cs))
    case Escaping(e) =>
      && e.at < |cs| && cs[e.at] == DOTDOT
      && var stack := Normal([], cs[..e.at]);
         match e.sub
         case None => e.start == 0 && stack != []
         case Some(sub) =>
           e.start <= e.at && stack == TempNames(sub) && Normal(root + SubNames(sub), cs[e.start..e.at]) == root + SubNames(sub)
  }

  lemma {:induction false} ScanAgrees(root: seq<Bytes>, cs: seq<Bytes>, i: nat, st: Scan)
    requires i <= |cs| && Agrees(root, cs, i, st, Normal([], cs[..i])) && forall k :: 0 <= k < |cs| ==> SLASH !in cs[k]
    ensures EndAgrees(root, cs, ScanFrom(cs, i, st))
    decreases |cs| - i
  {
    if i == |cs| {
      assert cs[..i] == cs;
    } else {
      var follows := TMP in cs[i + 1..];
      var m := ScanMove(st, cs[i], i + 1, follows);
      var stack := Normal([], cs[..i]);
      if m.Go? {
        MoveAgrees(root, cs, i, st, stack, follows);
        NormalSnoc([], cs, 0, i);
        assert cs[0..i + 1] == cs[..i + 1] && cs[0..i] == cs[..i];
        ScanAgrees(root, cs, i + 1, m.state);
      } else if st.InTemp? {
        assert stack == TempNames(st.sub);
        assert root + SubNames(st.sub) + [] == root + SubNames(st.sub);
      }
    }
  }

  // ----- paths that never name the private tree -----

  /** In one of the private temp directories, by its physical name. */
  predicate InPrivateTree(root: seq<Bytes>, stack: seq<Bytes>) {
    root + [TMP] <= stack || root + [VAR, TMP] <= stack
  }

  /** At no point of the walk does the path name the private tree physically. */
  predicate Avoids(root: seq<Bytes>, stack: seq<Bytes>, cs: seq<Bytes>)
    decreases |cs|
  {
    !InPrivateTree(root, stack) && (cs == [] || Avoids(root, Push(stack, cs[0]), cs[1..]))
  }

  lemma {:induction false} AvoidsAppend(root: seq<Bytes>, stack: seq<Bytes>, a: seq<Bytes>, b: seq<Bytes>)
    ensures Avoids(root, stack, a + b) <==> Avoids(root, stack, a) && Avoids(root, Normal(stack, a), b)
    decreases |a|
  {
    if a == [] {
      assert a + b == b;
    } else {
      assert (a + b)[1..] == a[1..] + b;
      AvoidsAppend(root, Push(stack, a[0]), a[1..], b);
    }
  }

  lemma {:induction false} AvoidsNames(root: seq<Bytes>, stack: seq<Bytes>, names: seq<Bytes>)
    requires (forall n :: n in names ==> IsName(n)) && (stack != [] || Canonical(names)) && !InPrivateTree(root, stack + names)
    ensures Avoids(root, stack, names)
    decreases |names|
  {
    if names == [] {
      assert stack + names == stack;
    } else {
      assert names[0] in names;
      var rest := names[1..];
      assert forall n :: n in rest ==> n in names;
      assert stack + names == stack + [names[0]] + rest;
      AvoidsNames(root, stack + [names[0]], rest);
    }
  }

  lemma SlashFreeBehind(names: seq<Bytes>, tail: seq<Bytes>)
    requires (forall n :: n in names ==> IsName(n)) && forall k :: 0 <= k < |tail| ==> SLASH !in tail[k]
    ensures var cs := names + tail; forall k :: 0 <= k < |cs| ==> SLASH !in cs[k]
  {
    var cs := names + tail;
    forall k | 0 <= k < |cs| ensures SLASH !in cs[k] {
      if k < |names| {
        assert cs[k] in names;
      } else {
        assert cs[k] == tail[k - |names|];
      }
    }
  }

  /** Slash-free components behind canonical names. */
  lemma SplitBehind(names: seq<Bytes>, tail: seq<Bytes>)
    requires (forall n :: n in names ==> IsName(n)) && forall k :: 0 <= k < |tail| ==> SLASH !in tail[k]
    ensures Split(Slashed(names) + Slashed(tail)) == [[]] + (names + tail)
  {
    SlashedAppend(names, tail);
    SlashFreeBehind(names, tail);
    SplitSlashed(names + tail);
  }

  lemma HostBehind(names: seq<Bytes>, tail: seq<Bytes>)
    requires Canonical(names) && forall k :: 0 <= k < |tail| ==> SLASH !in tail[k]
    ensures HostNames(Slashed(names) + Slashed(tail)) == Normal(names, tail)
  {
    SplitBehind(names, tail);
    NormalPath(names, tail);
  }

  lemma SplitNames(names: seq<Bytes>)
    requires forall n :: n in names ==> IsName(n)
    ensures Split(Slashed(names)) == [[]] + names
  {
    forall k | 0 <= k < |names| ensures SLASH !in names[k] { assert names[k] in names; }
    SplitSlashed(names);
  }

  lemma SplitHead(head: seq<Bytes>, tail: Bytes) returns (cs: seq<Bytes>)
    requires (forall n :: n in head ==> IsName(n)) && (tail == [] || tail[0] == SLASH)
    ensures Split(Slashed(head) + tail) == [[]] + (head + cs)
  {
    SplitNames(head);
    var front := Slashed(head);
    if tail == [] {
      cs := [];
      assert front + tail == front;
      assert head + cs == head;
    } else {
      var u := tail[1..];
      cs := Split(u);
      assert front + tail == front + [SLASH] + u;
      SplitJoin(front, u);
      var none: seq<Bytes> := [[]];
      assert none + head + cs == none + (head + cs);
    }
  }

  lemma SplitPathOf(stack: seq<Bytes>)
    requires forall n :: n in stack ==> IsName(n)
    ensures Split(PathOf(stack)) == [[]] + (if stack == [] then [[]] else stack)
  {
    if stack == [] {
      SplitJoin([], []);
      assert [] + [SLASH] + [] == [SLASH];
      assert Split([]) == [[]];
    } else {
      SplitNames(stack);
    }
  }

  /** A path text that begins with whole names begins with them as a list too. */
  lemma PrefixNames(head: seq<Bytes>, stack: seq<Bytes>, tail: Bytes)
    requires head != [] && (forall n :: n in head ==> IsName(n)) && (forall n :: n in stack ==> IsName(n))
    requires (tail == [] || tail[0] == SLASH) && PathOf(stack) == Slashed(head) + tail
    ensures head <= stack
  {
    var cs := SplitHead(head, tail);
    SplitPathOf(stack);
    var rest: seq<Bytes> := if stack == [] then [[]] else stack;
    assert rest == ([[]] + rest)[1..] && head + cs == ([[]] + (head + cs))[1..];
    assert rest[0] == head[0] && head[0] in head;
  }

  lemma BelowSub(root: Bytes, names: seq<Bytes>, stack: seq<Bytes>, sub: Sub, rest: Bytes)
    requires (forall n :: n in names ==> IsName(n)) && root == Slashed(names) && (forall n :: n in stack ==> IsName(n))
    requires PathOf(stack) == root + rest && ComponentRest(rest, SubText(sub)).Some?
    ensures names + SubNames(sub) <= stack
  {
    var tail := ComponentRest(rest, SubText(sub)).value;
    CanonicalNames(sub);
    SlashedAppend(names, SubNames(sub));
    assert PathOf(stack) == Slashed(names + SubNames(sub)) + tail;
    assert forall n :: n in SubNames(sub) ==> n in [PRIVATE] + SubNames(sub);
    PrefixNames(names + SubNames(sub), stack, tail);
  }

  /** A name outside the private tree is not rewritten. */
  lemma HostNameStays(root: Bytes, names: seq<Bytes>, stack: seq<Bytes>)
    requires names != [] && Canonical(names) && root == Slashed(names) && Canonical(stack) && !InPrivateTree(names, stack)
    ensures HostName(root, PathOf(stack)) == PathOf(stack)
  {
    var rest := ComponentRest(PathOf(stack), root);
    if rest.Some? {
      if ComponentRest(rest.value, SubText(VarTmpSub)).Some? {
        BelowSub(root, names, stack, VarTmpSub, rest.value);
      } else if ComponentRest(rest.value, SubText(TmpSub)).Some? {
        BelowSub(root, names, stack, TmpSub, rest.value);
      }
    }
  }
}
