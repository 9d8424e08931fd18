/** The temp-path mapper as functions on byte strings: the scanner, one round of
    the mapping loop, the loop itself and the inverse rewriting. */
module TmpPath {
  import opened Text

  const PATH_MAX: nat := 1024
  const MAX_ROOT_LEN: nat := 512

  const TMP: Bytes := [116, 109, 112]
  const VAR: Bytes := [118, 97, 114]
  const PRIVATE: Bytes := [112, 114, 105, 118, 97, 116, 101]

  lemma RailNames()
    ensures IsName(TMP) && IsName(VAR) && IsName(PRIVATE) && TMP != VAR && VAR != PRIVATE && TMP != PRIVATE
  {
    assert TMP[0] == 116 && VAR[0] == 118 && PRIVATE[0] == 112;
  }

  /** Which private temp directory a path was redirected to. */
  datatype Sub = TmpSub | VarTmpSub

  function SubNames(sub: Sub): seq<Bytes> {
    match sub
    case TmpSub => [TMP]
    case VarTmpSub => [VAR, TMP]
  }

  /** `/tmp` or `/var/tmp`, the location below the workspace root. */
  function SubText(sub: Sub): Bytes {
    match sub
    case TmpSub => [SLASH] + TMP
    case VarTmpSub => [SLASH] + VAR + [SLASH] + TMP
  }

  /** The name reported for a redirected location: `/private/tmp` or `/private/var/tmp`. */
  function CanonicalText(sub: Sub): Bytes {
    [SLASH] + PRIVATE + SubText(sub)
  }

  /** The remainder of `path` after `prefix`, when `prefix` names whole leading components. */
  function ComponentRest(path: Bytes, prefix: Bytes): (r: Option<Bytes>)
    ensures r.Some? <==> prefix <= path && (|path| == |prefix| || path[|prefix|] == SLASH)
    ensures r.Some? ==> path == prefix + r.value
  {
    if prefix <= path && (|path| == |prefix| || path[|prefix|] == SLASH)
    then Some(path[|prefix|..])
    else None
  }

  /** True when `path` lies in one of the four host spellings of a temp root. */
  predicate UnderHostRoot(path: Bytes) {
    || ComponentRest(path, CanonicalText(VarTmpSub)).Some?
    || ComponentRest(path, CanonicalText(TmpSub)).Some?
    || ComponentRest(path, SubText(VarTmpSub)).Some?
    || ComponentRest(path, SubText(TmpSub)).Some?
  }

  predicate ValidRoot(root: Bytes) {
    && 8 <= |root| <= MAX_ROOT_LEN
    && root[0] == SLASH
    && root[|root| - 1] != SLASH
    && NUL !in root
    && (forall c :: c in Split(root[1..]) ==> IsName(c))
    && !UnderHostRoot(root)
  }

  // ----- scanning -----

  datatype Base = AtRoot | AtPrivate | AtPrivVar

  function BaseParent(b: Base): Base {
    match b
    case AtRoot => AtRoot
    case AtPrivate => AtRoot
    case AtPrivVar => AtPrivate
  }

  /** Where a scanned prefix stands. `start` counts the components up to and including
      the one that entered the temp root; `named` is set once a name was pushed below it. */
  datatype Scan =
    | InBase(base: Base)
    | InOther(base: Base, depth: nat)
    | InTemp(sub: Sub, parent: Base, start: nat, depth: nat, named: bool)

  /** A `..`, component number `at`, whose effect only the kernel knows. The components
      `start..at` stand in front of it; `sub` is set when they are relative to a private
      temp directory. */
  datatype Escape = Escape(start: nat, sub: Option<Sub>, at: nat)

  datatype Move = Go(state: Scan) | Stuck(start: nat, sub: Option<Sub>)

  function EnterTemp(b: Base, end: nat): Scan {
    if b == AtPrivVar then InTemp(VarTmpSub, AtPrivVar, end, 0, false)
    else InTemp(TmpSub, AtPrivate, end, 0, false)
  }

  /** One component of the scan. `tmpFollows`: some later component is `tmp`. */
  function ScanMove(st: Scan, comp: Bytes, end: nat, tmpFollows: bool): Move {
    if !IsReal(comp) then Go(st)
    else match st
      case InBase(b) =>
        if comp == DOTDOT then Go(InBase(BaseParent(b)))
        else if b == AtRoot && comp == PRIVATE then Go(InBase(AtPrivate))
        else if b != AtPrivVar && comp == VAR then Go(InBase(AtPrivVar))
        else if comp == TMP then Go(EnterTemp(b, end))
        else Go(InOther(b, 1))
      case InOther(b, depth) =>
        if comp == DOTDOT then
          if tmpFollows then Stuck(0, None)
          else if depth <= 1 then Go(InBase(b))
          else Go(InOther(b, depth - 1))
        else Go(InOther(b, depth + 1))
      case InTemp(sub, parent, start, depth, named) =>
        if comp == DOTDOT then
          if depth == 0 then
            if named then Stuck(start, Some(sub)) else Go(InBase(parent))
          else Go(InTemp(sub, parent, start, depth - 1, named))
        else Go(InTemp(sub, parent, start, depth + 1, true))
  }

  datatype ScanEnd = Final(state: Scan) | Escaping(esc: Escape)

  /** Scan the components from number `i` on. */
  function ScanFrom(cs: seq<Bytes>, i: nat, st: Scan): ScanEnd
    requires i <= |cs|
    decreases |cs| - i
  {
    if i == |cs| then Final(st)
    else
      var m := ScanMove(st, cs[i], i + 1, TMP in cs[i + 1..]);
      if m.Stuck? then Escaping(Escape(m.start, m.sub, i))
      else ScanFrom(cs, i + 1, m.state)
  }

  /** The offset a state remembers lies behind the first of the components scanned so far. */
  predicate ScanOk(st: Scan, i: nat) {
    st.InTemp? ==> 0 < st.start <= i
  }

  /** An escape stands at a `..` at or after component `i`, behind what it refers to. */
  predicate EscapeOk(cs: seq<Bytes>, i: nat, e: Escape) {
    && e.start <= e.at && i <= e.at < |cs|
    && cs[e.at] == DOTDOT
    && (e.sub.Some? <==> e.start > 0)
  }

  lemma {:induction false} ScanBounds(cs: seq<Bytes>, i: nat, st: Scan)
    requires i <= |cs| && ScanOk(st, i)
    ensures match ScanFrom(cs, i, st)
            case Final(f) => ScanOk(f, |cs|)
            case Escaping(e) => EscapeOk(cs, i, e)
    decreases |cs| - i
  {
    if i < |cs| {
      var m := ScanMove(st, cs[i], i + 1, TMP in cs[i + 1..]);
      if m.Go? {
        ScanBounds(cs, i + 1, m.state);
      }
    }
  }

  /** The temp root a scan ended in, or asks the resolver about, and where its remainder begins. */
  function TempOf(r: ScanEnd): Option<(Sub, nat)> {
    match r
    case Final(InTemp(sub, _, start, _, _)) => Some((sub, start))
    case Escaping(Escape(start, Some(sub), _)) => Some((sub, start))
    case _ => None
  }

  /** Outside the bases, or without a `tmp` ahead, a scan never comes to a temp root. */
  lemma {:induction false} NoTemp(cs: seq<Bytes>, i: nat, st: Scan)
    requires i <= |cs|
    requires st.InOther? || (st.InBase? && TMP !in cs[i..])
    ensures TempOf(ScanFrom(cs, i, st)).None?
    decreases |cs| - i
  {
    if i < |cs| {
      assert cs[i..] == [cs[i]] + cs[i + 1..];
      var m := ScanMove(st, cs[i], i + 1, TMP in cs[i + 1..]);
      if m.Go? {
        NoTemp(cs, i + 1, m.state);
      }
    }
  }

  /** Once a name was pushed below a temp root, a scan stays with that temp root. */
  lemma {:induction false} NamedStays(cs: seq<Bytes>, i: nat, st: Scan)
    requires i <= |cs| && st.InTemp? && st.named
    ensures TempOf(ScanFrom(cs, i, st)) == Some((st.sub, st.start))
    decreases |cs| - i
  {
    if i < |cs| {
      var m := ScanMove(st, cs[i], i + 1, TMP in cs[i + 1..]);
      if m.Go? {
        NamedStays(cs, i + 1, m.state);
      }
    }
  }

  // ----- rewriting -----

  /** Everything before the last slash; `/` has itself as parent. */
  function LastSlash(path: Bytes): (i: Option<nat>)
    ensures i.Some? ==> i.value < |path| && path[i.value] == SLASH && SLASH !in path[i.value + 1..]
    ensures i.None? ==> SLASH !in path
  {
    if path == [] then None
    else if path[|path| - 1] == SLASH then Some(|path| - 1)
    else
      var i := LastSlash(path[..|path| - 1]);
      assert path == path[..|path| - 1] + [path[|path| - 1]];
      i
  }

  function TextualParent(path: Bytes): (p: Bytes)
    ensures |p| <= |path| || p == [SLASH]
  {
    match LastSlash(path)
    case Some(i) => if i == 0 then path[..1] else path[..i]
    case None => [SLASH]
  }

  lemma {:induction false} LastSlashIs(front: Bytes, name: Bytes)
    requires SLASH !in name
    ensures LastSlash(front + [SLASH] + name) == Some(|front|)
  {
    var t := front + [SLASH] + name;
    var i := LastSlash(t);
    assert t[|front|] == SLASH;
  }

  /** The textual parent of an absolute path of names drops the last name. */
  lemma {:induction false} TextualParentOf(names: seq<Bytes>, k: Bytes)
    requires SLASH !in k && (forall n :: n in names ==> n != [])
    ensures TextualParent(PathOf(names + [k])) == PathOf(names)
  {
    var t := Slashed(names) + [SLASH] + k;
    assert (names + [k])[..|names|] == names;
    assert Slashed(names + [k]) == t;
    LastSlashIs(Slashed(names), k);
    if names == [] {
      assert t[..1] == [SLASH];
    } else {
      SlashedFirst(names);
      assert t[..|Slashed(names)|] == Slashed(names);
    }
  }

  /** The host name of a physical location below `root`, None when it is not mapped. */
  function Unmap(root: Bytes, text: Bytes): (r: Option<Bytes>) {
    match ComponentRest(text, root)
    case None => None
    case Some(rest) =>
      match ComponentRest(rest, SubText(VarTmpSub))
      case Some(r) => Some(CanonicalText(VarTmpSub) + r)
      case None =>
        match ComponentRest(rest, SubText(TmpSub))
        case Some(r) => Some(CanonicalText(TmpSub) + r)
        case None => None
  }

  function HostName(root: Bytes, text: Bytes): Bytes {
    match Unmap(root, text)
    case Some(t) => t
    case None => text
  }

  // ----- the mapping loop -----

  /** Why mapping failed: the kernel's own errno, a text that does not fit, or a
      resolver whose answer brought `..` components back. */
  datatype MapError = Kernel(errno: int) | NameTooLong | Loop

  datatype MapResult = Unchanged | Mapped(text: Bytes) | Fails(error: MapError)

  datatype Answer = Resolved(text: Bytes) | Refused(errno: int)

  /** The resolver: an arbitrary answer to each query. The call number lets the answer
      depend on anything that happened before. */
  type Resolver = (nat, Bytes) -> Answer

  /** Answers are written into a buffer of PATH_MAX bytes. */
  ghost predicate Fits(resolve: Resolver) {
    forall k: nat, q: Bytes :: resolve(k, q).Resolved? ==> |resolve(k, q).text| <= PATH_MAX
  }

  function DotDots(text: Bytes): nat {
    CountOf(Split(text), DOTDOT)
  }

  /** What a scan that reached the end of the text answers. */
  function Answered(root: Bytes, cur: Bytes, st: Scan, rewritten: bool, cap: nat): MapResult
    requires ScanOk(st, |Split(cur)|)
  {
    match st
    case InTemp(sub, _, start, _, _) =>
      var text := root + SubText(sub) + Slashed(Split(cur)[start..]);
      if |text| >= cap then Fails(NameTooLong) else Mapped(text)
    case _ =>
      if !rewritten then Unchanged
      else if |cur| >= cap then Fails(NameTooLong)
      else Mapped(cur)
  }

  /** The physical name of the directory that a query is relative to. */
  function Head(root: Bytes, sub: Option<Sub>): Bytes {
    match sub
    case Some(x) => root + SubText(x)
    case None => []
  }

  /** The text in front of the escaping `..`, as far as it counts. */
  function Front(cs: seq<Bytes>, e: Escape): Bytes
    requires e.start <= e.at <= |cs|
  {
    (if e.sub.Some? then Slashed(cs[e.start..e.at]) else Join(cs[..e.at])) + [SLASH]
  }

  /** The physical directory that the escaping `..` leaves, as handed to the resolver. */
  function Query(root: Bytes, cs: seq<Bytes>, e: Escape): Bytes
    requires e.start <= e.at <= |cs|
  {
    Head(root, e.sub) + Front(cs, e) + [SLASH]
  }

  /** The host parent of the resolver's answer with the remainder behind it. */
  function Rest(root: Bytes, answer: Bytes, remainder: Bytes): Bytes {
    var parent := TextualParent(HostName(root, answer));
    (if parent == [SLASH] then parent else parent + [SLASH]) + remainder
  }

  /** The text that replaces the current one once the resolver answered. */
  function Rejoin(root: Bytes, cs: seq<Bytes>, e: Escape, answer: Bytes): Bytes
    requires e.at < |cs|
  {
    Rest(root, answer, Join(cs[e.at + 1..]))
  }

  /** The outcome of mapping and the questions that were put to the resolver, in order. */
  datatype Run = Run(result: MapResult, queries: seq<Bytes>)

  /** How a round of the loop ends: for good, or with a new text to start over with. */
  datatype Round = Over(run: Run) | Again(query: Bytes, next: Bytes, temp: bool)

  /** Ask about the directory that `front` leads to, relative to the temp root `sub`, and put
      `remainder` behind the parent of the answer. The new text must have fewer than `dots`
      `..` components. */
  function Ask(root: Bytes, sub: Option<Sub>, front: Bytes, remainder: Bytes, dots: nat, cap: nat, resolve: Resolver, asked: nat): (r: Round)
    ensures r.Again? ==> DotDots(r.next) < dots && |r.next| < PATH_MAX && r.query == Head(root, sub) + front + [SLASH]
  {
    var q := Head(root, sub) + front + [SLASH];
    if |q| >= cap then Over(Run(Fails(NameTooLong), []))
    else match resolve(asked, q)
      case Refused(errno) => Over(Run(Fails(Kernel(errno)), [q]))
      case Resolved(text) =>
        var next := Rest(root, text, remainder);
        if |next| >= PATH_MAX then Over(Run(Fails(NameTooLong), [q]))
        else if DotDots(next) >= dots then Over(Run(Fails(Loop), [q]))
        else Again(q, next, sub.Some?)
  }

  /** The question of escape `e`. */
  function AskAt(root: Bytes, cur: Bytes, e: Escape, cap: nat, resolve: Resolver, asked: nat): (r: Round)
    requires e.start <= e.at < |Split(cur)|
    ensures r.Again? ==> DotDots(r.next) < DotDots(cur) && |r.next| < PATH_MAX
  {
    Ask(root, e.sub, Front(Split(cur), e), Join(Split(cur)[e.at + 1..]), DotDots(cur), cap, resolve, asked)
  }

  /** What it means that the loop goes on. */
  lemma AskedAt(root: Bytes, cur: Bytes, e: Escape, cap: nat, resolve: Resolver, asked: nat)
    requires e.start <= e.at < |Split(cur)|
    ensures var r := AskAt(root, cur, e, cap, resolve, asked);
            var q := Query(root, Split(cur), e);
            if r.Over? then r.run.result.Fails?
            else r.query == q && |q| < cap && resolve(asked, q).Resolved? && r.next == Rejoin(root, Split(cur), e, resolve(asked, q).text)
  {
  }

  /** One round: scan the text, then answer or ask. */
  function OneRound(root: Bytes, cur: Bytes, rewritten: bool, cap: nat, resolve: Resolver, asked: nat): (r: Round)
    ensures r.Again? ==> DotDots(r.next) < DotDots(cur) && |r.next| < PATH_MAX
  {
    ScanBounds(Split(cur), 0, InBase(AtRoot));
    match ScanFrom(Split(cur), 0, InBase(AtRoot))
    case Final(st) => Over(Run(Answered(root, cur, st, rewritten, cap), []))
    case Escaping(e) => AskAt(root, cur, e, cap, resolve, asked)
  }

  /** The loop of the mapper: scan, ask, rewrite, restart. `asked` is how many
      questions were put before. */
  function MapLoop(root: Bytes, cur: Bytes, rewritten: bool, cap: nat, resolve: Resolver, asked: nat): Run
    decreases DotDots(cur)
  {
    match OneRound(root, cur, rewritten, cap, resolve, asked)
    case Over(run) => run
    case Again(q, next, temp) =>
      var run := MapLoop(root, next, rewritten || temp, cap, resolve, asked + 1);
      Run(run.result, [q] + run.queries)
  }

  function MapWith(root: Bytes, path: Bytes, cap: nat, resolve: Resolver): Run {
    if path == [] || path[0] != SLASH || |path| >= PATH_MAX then Run(Unchanged, [])
    else MapLoop(root, path, false, cap, resolve, 0)
  }

  // ----- paths relative to a directory -----

  /** Drop the last component textually, never the leading slash. */
  function PopComponent(text: Bytes): (r: Bytes)
    ensures |r| <= |text|
  {
    if |text| <= 1 then text
    else if text[|text| - 1] == SLASH then text[..|text| - 1]
    else PopName(text)
  }

  function PopName(text: Bytes): (r: Bytes)
    requires |text| > 1 && text[|text| - 1] != SLASH
    ensures |r| <= |text|
  {
    var t := text[..|text| - 1];
    if |t| > 1 && t[|t| - 1] != SLASH then PopName(t)
    else if |t| > 1 then t[..|t| - 1]
    else t
  }

  /** Take leading `.` and `..` components of `rest` against `text`. */
  function TakeLeading(text: Bytes, rest: Bytes): (r: (Bytes, Bytes))
    ensures |r.0| <= |text| && |r.1| <= |rest|
    decreases |rest|
  {
    if rest == DOT then (text, [])
    else if rest == DOTDOT then (PopComponent(text), [])
    else if DOT + [SLASH] <= rest then TakeLeading(text, rest[2..])
    else if DOTDOT + [SLASH] <= rest then TakeLeading(PopComponent(text), rest[3..])
    else (text, rest)
  }

  function Joined(text: Bytes, rest: Bytes): Bytes {
    if rest == [] then text
    else (if text == [SLASH] then text else text + [SLASH]) + rest
  }

  /** True when a relative path can be used as it stands: no `..`, and its first name is
      not one that leads into a host temp root. */
  predicate Innocent(path: Bytes) {
    && DOTDOT !in Split(path)
    && (Comps(path) == [] || Comps(path)[0] !in {TMP, PRIVATE, VAR})
  }

  /** Map `path` relative to the directory whose physical name `base` answers. */
  function MapAtWith(root: Bytes, path: Bytes, cap: nat, base: Answer, resolve: Resolver): Run {
    if path != [] && path[0] == SLASH then MapWith(root, path, cap, resolve)
    else if Innocent(path) then Run(Unchanged, [])
    else match base
      case Refused(errno) => Run(Fails(Kernel(errno)), [])
      case Resolved(dir) =>
        if |dir| >= PATH_MAX then Run(Fails(NameTooLong), [])
        else
          var (text, rest) := TakeLeading(HostName(root, dir), path);
          var joined := Joined(text, rest);
          if rest != [] && |joined| >= PATH_MAX then Run(Fails(NameTooLong), [])
          else
            var run := MapWith(root, joined, cap, resolve);
            if !run.result.Unchanged? || Unmap(root, dir).None? then run
            else if |joined| >= cap then run.(result := Fails(NameTooLong))
            else run.(result := Mapped(joined))
  }
}
