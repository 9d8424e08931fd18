/** The temp-path mapper as it runs: fixed buffers, lengths and byte offsets. */
module TmpPathBuffer {
  import opened Text
  import opened TmpPath

  // ----- components and byte offsets -----

  /** Where the first `k` components of a text end. */
  ghost function EndOf(cs: seq<Bytes>, k: nat): nat
    requires k <= |cs|
  {
    if k == 0 then 0 else (if k == 1 then 0 else EndOf(cs, k - 1) + 1) + |cs[k - 1]|
  }

  /** Where component number `k` begins. */
  ghost function BeginOf(cs: seq<Bytes>, k: nat): nat
    requires k <= |cs|
  {
    if k == 0 then 0 else EndOf(cs, k) + 1
  }

  /** One component more. */
  lemma {:induction false} JoinSnoc(cs: seq<Bytes>, k: nat)
    requires 0 < k < |cs|
    ensures Join(cs[..k + 1]) == Join(cs[..k]) + [SLASH] + cs[k]
  {
    var front := cs[..k + 1];
    JoinCut(front, k);
    assert front[..k] == cs[..k] && front[k..] == [cs[k]];
    JoinOne(cs[k]);
  }

  lemma JoinOne(c: Bytes)
    ensures Join([c]) == c
  {
    assert [c][1..] == [];
    assert c + [] == c;
  }

  lemma {:induction false} EndIs(cs: seq<Bytes>, k: nat)
    requires k <= |cs|
    ensures EndOf(cs, k) == |Join(cs[..k])|
  {
    if k == 1 {
      assert cs[..1] == [cs[0]];
      JoinOne(cs[0]);
    } else if k > 1 {
      EndIs(cs, k - 1);
      JoinSnoc(cs, k - 1);
    }
  }

  /** A text cut behind its first `k` components. */
  lemma {:induction false} CutAt(cs: seq<Bytes>, k: nat)
    requires 0 < k <= |cs|
    ensures Join(cs) == Join(cs[..k]) + Slashed(cs[k..])
    ensures EndOf(cs, k) <= |Join(cs)|
    ensures Join(cs)[EndOf(cs, k)..] == Slashed(cs[k..])
    ensures Join(cs)[..EndOf(cs, k)] == Join(cs[..k])
  {
    EndIs(cs, k);
    JoinOver(cs, k);
  }

  lemma {:induction false} JoinOver(cs: seq<Bytes>, k: nat)
    requires 0 < k <= |cs|
    ensures Join(cs) == Join(cs[..k]) + Slashed(cs[k..])
  {
    assert cs[1..] == cs[1..k] + cs[k..];
    SlashedAppend(cs[1..k], cs[k..]);
    assert cs[..k][1..] == cs[1..k];
    var a, b, c := cs[0], Slashed(cs[1..k]), Slashed(cs[k..]);
    assert a + (b + c) == (a + b) + c;
  }

  /** The text in front of component `k`, its slash included. */
  ghost function Before(cs: seq<Bytes>, k: nat): Bytes
    requires k <= |cs|
  {
    if k == 0 then [] else Join(cs[..k]) + [SLASH]
  }

  /** A text is what stands before a component, the component and what stands behind. */
  lemma {:induction false} Around(cs: seq<Bytes>, k: nat)
    requires k < |cs|
    ensures Join(cs) == Before(cs, k) + cs[k] + Slashed(cs[k + 1..])
    ensures Join(cs[..k + 1]) == Before(cs, k) + cs[k]
    ensures |Before(cs, k)| == BeginOf(cs, k) && EndOf(cs, k + 1) == BeginOf(cs, k) + |cs[k]|
  {
    CutAt(cs, k + 1);
    EndIs(cs, k);
    if k == 0 {
      assert cs[..1] == [cs[0]];
      JoinOne(cs[0]);
      assert [] + cs[0] == cs[0];
    } else {
      JoinSnoc(cs, k);
    }
  }

  lemma {:induction false} Middle(p: Bytes, c: Bytes, q: Bytes)
    requires SLASH !in c && (q == [] || q[0] == SLASH)
    ensures var t := p + c + q;
            && NextSlash(t, |p|) == |p| + |c|
            && t[|p|..|p| + |c|] == c
            && t[|p| + |c|..] == q
            && (q != [] ==> t[|p| + |c| + 1..] == q[1..])
  {
    var t := p + c + q;
    assert forall j :: |p| <= j < |p| + |c| ==> t[j] == c[j - |p|];
    assert q != [] ==> t[|p| + |c|] == q[0];
    NextSlashIs(t, |p|, |p| + |c|);
  }

  /** Component `k` of a text, located by its offsets. */
  lemma {:induction false} ComponentAt(text: Bytes, cs: seq<Bytes>, k: nat)
    requires text == Join(cs) && k < |cs| && SLASH !in cs[k]
    ensures BeginOf(cs, k) <= EndOf(cs, k + 1) <= |text|
    ensures NextSlash(text, BeginOf(cs, k)) == EndOf(cs, k + 1)
    ensures text[BeginOf(cs, k)..EndOf(cs, k + 1)] == cs[k]
    ensures EndOf(cs, k + 1) == |text| <==> k + 1 == |cs|
    ensures k + 1 < |cs| ==> BeginOf(cs, k + 1) <= |text| && text[BeginOf(cs, k + 1)..] == Join(cs[k + 1..])
  {
    Around(cs, k);
    var q := Slashed(cs[k + 1..]);
    if k + 1 < |cs| {
      SlashedJoin(cs[k + 1..]);
      assert q[1..] == Join(cs[k + 1..]);
    }
    Middle(Before(cs, k), cs[k], q);
  }

  /** The text in front of component `at`, counted from component `start` on. */
  lemma {:induction false} Between(text: Bytes, cs: seq<Bytes>, start: nat, at: nat)
    requires text == Join(cs) && start <= at < |cs| && 0 < at
    ensures BeginOf(cs, at) <= |text|
    ensures text[..BeginOf(cs, at)] == Join(cs[..at]) + [SLASH]
    ensures start > 0 ==> EndOf(cs, start) <= BeginOf(cs, at) && text[EndOf(cs, start)..BeginOf(cs, at)] == Slashed(cs[start..at]) + [SLASH]
  {
    Around(cs, at);
    var p := Before(cs, at);
    assert p <= text;
    if start > 0 {
      FrontCut(cs, start, at);
      MiddleOf(text, p, Join(cs[..at]), EndOf(cs, start));
    }
  }

  /** The front of a text cut behind its first `start` components. */
  lemma {:induction false} FrontCut(cs: seq<Bytes>, start: nat, at: nat)
    requires 0 < start <= at <= |cs|
    ensures EndOf(cs, start) <= |Join(cs[..at])| && Join(cs[..at])[EndOf(cs, start)..] == Slashed(cs[start..at])
  {
    var front := cs[..at];
    JoinOver(front, start);
    assert front[..start] == cs[..start] && front[start..] == cs[start..at];
    EndIs(cs, start);
  }

  lemma MiddleOf(text: Bytes, p: Bytes, front: Bytes, b: nat)
    requires p <= text && p == front + [SLASH] && b <= |front|
    ensures text[b..|p|] == front[b..] + [SLASH]
  {
    assert text[b..|p|] == p[b..];
  }

  // ----- the scan -----

  /** An escape in byte offsets. */
  datatype Hit = Reached(state: Scan) | Stopped(start: nat, sub: Option<Sub>, compStart: nat, end: nat)

  /** The state with its component count turned into a byte offset. */
  ghost function AsOffsets(cs: seq<Bytes>, st: Scan): Scan
    requires ScanOk(st, |cs|)
  {
    if st.InTemp? then st.(start := EndOf(cs, st.start)) else st
  }

  ghost function HitOf(cs: seq<Bytes>, r: ScanEnd): Hit
    requires match r case Final(st) => ScanOk(st, |cs|) case Escaping(e) => EscapeOk(cs, 0, e)
  {
    match r
    case Final(st) => Reached(AsOffsets(cs, st))
    case Escaping(e) => Stopped(if e.sub.Some? then EndOf(cs, e.start) else 0, e.sub, BeginOf(cs, e.at), EndOf(cs, e.at + 1))
  }

  /** Where the scan of the text ends. */
  ghost function HitFor(text: Bytes): Hit {
    ScanBounds(Split(text), 0, InBase(AtRoot));
    HitOf(Split(text), ScanFrom(Split(text), 0, InBase(AtRoot)))
  }

  lemma MoveOffsets(cs: seq<Bytes>, i: nat, st: Scan, follows: bool)
    requires i < |cs| && ScanOk(st, i)
    ensures var m := ScanMove(st, cs[i], i + 1, follows);
            var m' := ScanMove(AsOffsets(cs, st), cs[i], EndOf(cs, i + 1), follows);
            if m.Go? then ScanOk(m.state, i + 1) && m' == Go(AsOffsets(cs, m.state))
            else m' == Stuck(if m.sub.Some? then EndOf(cs, m.start) else 0, m.sub) && (m.sub.Some? <==> m.start > 0) && m.start <= i && cs[i] == DOTDOT
  {
    match st
    case InBase(_) =>
    case InOther(_, _) =>
    case InTemp(_, _, _, _, _) =>
  }

  ghost predicate Parts(text: Bytes, cs: seq<Bytes>) {
    text == Join(cs) && cs != [] && forall k :: 0 <= k < |cs| ==> SLASH !in cs[k]
  }

  lemma SplitParts(text: Bytes)
    ensures Parts(text, Split(text))
  {
    JoinSplit(text);
    forall k | 0 <= k < |Split(text)| ensures SLASH !in Split(text)[k] {
      SplitSlashFree(text, k);
    }
  }

  /** What the loop of the scan keeps: where it stands, in components and in bytes. */
  ghost predicate ScanAt(text: Bytes, cs: seq<Bytes>, i: nat, pos: nat, st: Scan, state: Scan) {
    && Parts(text, cs)
    && i < |cs| && pos == BeginOf(cs, i) <= |text|
    && ScanOk(st, i) && state == AsOffsets(cs, st)
    && ScanFrom(cs, i, st) == ScanFrom(cs, 0, InBase(AtRoot))
  }

  /** Whether a `tmp` component follows offset `end`. */
  predicate TmpBehind(text: Bytes, end: nat)
    requires end <= |text|
  {
    end < |text| && TMP in Split(text[end + 1..])
  }

  /** Walk the components of the text left to right, as the mapper's inner loop does. */
  method ScanText(text: Bytes) returns (r: Hit)
    ensures r == HitFor(text)
  {
    ghost var cs := Split(text);
    ghost var i := 0;
    ghost var st := InBase(AtRoot);
    var state := InBase(AtRoot);
    var pos := 0;
    SplitParts(text);
    ScanBounds(cs, 0, InBase(AtRoot));
    ghost var goal := HitOf(cs, ScanFrom(cs, 0, InBase(AtRoot)));
    while true
      invariant ScanAt(text, cs, i, pos, st, state)
      decreases |cs| - i
    {
      var end := NextSlash(text, pos);
      var m := ScanMove(state, text[pos..end], end, TmpBehind(text, end));
      ScanStep(text, cs, i, pos, st, state, goal);
      if m.Stuck? {
        return Stopped(m.start, m.sub, pos, end);
      }
      st := ScanMove(st, cs[i], i + 1, TmpBehind(text, end)).state;
      state := m.state;
      if end == |text| {
        return Reached(state);
      }
      pos := end + 1;
      i := i + 1;
    }
  }

  /** One round of the scan. */
  lemma {:induction false} ScanStep(text: Bytes, cs: seq<Bytes>, i: nat, pos: nat, st: Scan, state: Scan, goal: Hit)
    requires ScanAt(text, cs, i, pos, st, state)
    requires match ScanFrom(cs, 0, InBase(AtRoot)) case Final(f) => ScanOk(f, |cs|) case Escaping(e) => EscapeOk(cs, 0, e)
    requires goal == HitOf(cs, ScanFrom(cs, 0, InBase(AtRoot)))
    ensures var end := NextSlash(text, pos);
            var m := ScanMove(state, text[pos..end], end, TmpBehind(text, end));
            var next := ScanMove(st, cs[i], i + 1, TmpBehind(text, end));
            && (m.Stuck? <==> next.Stuck?)
            && (m.Stuck? ==> Stopped(m.start, m.sub, pos, end) == goal)
            && (m.Go? && end == |text| ==> Reached(m.state) == goal)
            && (m.Go? && end < |text| ==> ScanAt(text, cs, i + 1, end + 1, next.state, m.state))
  {
    ComponentAt(text, cs, i);
    Follows(text, cs, i);
    var end := NextSlash(text, pos);
    var follows := TmpBehind(text, end);
    MoveOffsets(cs, i, st, follows);
    StepGoal(cs, i, st, follows);
    var m, next := ScanMove(state, text[pos..end], end, follows), ScanMove(st, cs[i], i + 1, follows);
    StepOffsets(text, cs, i, pos, end, st, state, m, next, goal);
  }

  /** The same in bytes, given what the two scanners do with the component. */
  lemma {:induction false} StepOffsets(text: Bytes, cs: seq<Bytes>, i: nat, pos: nat, end: nat, st: Scan, state: Scan, m: Move, next: Move, goal: Hit)
    requires ScanAt(text, cs, i, pos, st, state)
    requires match ScanFrom(cs, 0, InBase(AtRoot)) case Final(f) => ScanOk(f, |cs|) case Escaping(e) => EscapeOk(cs, 0, e)
    requires goal == HitOf(cs, ScanFrom(cs, 0, InBase(AtRoot)))
    requires end == EndOf(cs, i + 1) <= |text| && (end == |text| <==> i + 1 == |cs|)
    requires if next.Go? then ScanOk(next.state, i + 1) && ScanOk(next.state, |cs|) && m == Go(AsOffsets(cs, next.state))
             else next.start <= i && (next.sub.Some? <==> next.start > 0) && m == Stuck(if next.sub.Some? then EndOf(cs, next.start) else 0, next.sub)
    requires ScanFrom(cs, i, st)
             == if next.Stuck? then Escaping(Escape(next.start, next.sub, i))
                else if i + 1 == |cs| then Final(next.state)
                else ScanFrom(cs, i + 1, next.state)
    ensures m.Stuck? <==> next.Stuck?
    ensures m.Stuck? ==> Stopped(m.start, m.sub, pos, end) == goal
    ensures m.Go? && end == |text| ==> Reached(m.state) == goal
    ensures m.Go? && end < |text| ==> ScanAt(text, cs, i + 1, end + 1, next.state, m.state)
  {
  }

  /** Where the scan stands after one component, in components. */
  lemma {:induction false} StepGoal(cs: seq<Bytes>, i: nat, st: Scan, follows: bool)
    requires i < |cs| && ScanOk(st, i) && follows == (TMP in cs[i + 1..])
    ensures var next := ScanMove(st, cs[i], i + 1, follows);
            ScanFrom(cs, i, st)
            == if next.Stuck? then Escaping(Escape(next.start, next.sub, i))
               else if i + 1 == |cs| then Final(next.state)
               else ScanFrom(cs, i + 1, next.state)
  {
    var next := ScanMove(st, cs[i], i + 1, follows);
    if next.Go? && i + 1 == |cs| {
      assert ScanFrom(cs, i + 1, next.state) == Final(next.state);
    }
  }

  lemma {:induction false} Follows(text: Bytes, cs: seq<Bytes>, i: nat)
    requires Parts(text, cs) && i < |cs|
    ensures var end := EndOf(cs, i + 1);
            end <= |text| && (TmpBehind(text, end) <==> TMP in cs[i + 1..])
  {
    ComponentAt(text, cs, i);
    if i + 1 < |cs| {
      TailParts(cs, i + 1);
      TmpInTail(text, EndOf(cs, i + 1), cs[i + 1..]);
    }
  }

  lemma TailParts(cs: seq<Bytes>, i: nat)
    requires i <= |cs| && forall k :: 0 <= k < |cs| ==> SLASH !in cs[k]
    ensures var tail := cs[i..]; forall k :: 0 <= k < |tail| ==> SLASH !in tail[k]
  {
  }

  lemma TmpInTail(text: Bytes, end: nat, tail: seq<Bytes>)
    requires end < |text| && text[end + 1..] == Join(tail) && tail != [] && forall k :: 0 <= k < |tail| ==> SLASH !in tail[k]
    ensures TmpBehind(text, end) <==> TMP in tail
  {
    SplitOfJoin(tail);
  }

  // ----- rewriting in place -----

  method CopyInto(dst: array<byte>, at: nat, src: Bytes)
    requires at + |src| <= dst.Length
    modifies dst
    ensures dst[..at] == old(dst[..at])
    ensures dst[at..at + |src|] == src
    ensures dst[at + |src|..] == old(dst[at + |src|..])
  {
    forall k | 0 <= k < |src| {
      dst[at + k] := src[k];
    }
  }

  /** Rewrite the physical location in `buf[from..from + len]` to its host name in place.
      A root of at least eight bytes keeps the text from growing. */
  method UnmapInPlace(root: Bytes, buf: array<byte>, from: nat, len: nat) returns (r: Option<nat>)
    requires from + len <= buf.Length && |root| >= 8
    modifies buf
    ensures buf[..from] == old(buf[..from]) && buf[from + len..] == old(buf[from + len..])
    ensures match Unmap(root, old(buf[from..from + len]))
            case None => r.None? && buf[..] == old(buf[..])
            case Some(t) => r == Some(|t|) && |t| <= len && buf[from..from + |t|] == t
  {
    var text := buf[from..from + len];
    var found := Locate(root, text);
    if found.None? {
      return None;
    }
    var (canonical, start) := found.value;
    Overwrite(buf, from, canonical, text[start..]);
    var n := |canonical| + len - start;
    ghost var k := from + n;
    assert buf[from + len..] == buf[k..][len - n..];
    assert old(buf[from + len..]) == old(buf[..])[k..][len - n..];
    return Some(n);
  }

  /** Move the back to its new place, then write the front before it. */
  method Overwrite(buf: array<byte>, from: nat, front: Bytes, back: Bytes)
    requires from + |front| + |back| <= buf.Length
    modifies buf
    ensures buf[..from] == old(buf[..from])
    ensures buf[from..from + |front| + |back|] == front + back
    ensures buf[from + |front| + |back|..] == old(buf[..])[from + |front| + |back|..]
  {
    var m := from + |front|;
    CopyInto(buf, m, back);
    ghost var moved := buf[..];
    assert moved[..from] == buf[..m][..from];
    CopyInto(buf, from, front);
    Assembled(moved, buf[..], from, front, back);
    assert buf[m + |back|..] == buf[m..][|back|..];
    assert moved[m + |back|..] == moved[m..][|back|..];
    assert old(buf[..from]) == old(buf[..m])[..from];
  }

  /** The canonical prefix of a mapped text and where its remainder begins. */
  method Locate(root: Bytes, text: Bytes) returns (r: Option<(Bytes, nat)>)
    requires |root| >= 8
    ensures r.None? <==> Unmap(root, text).None?
    ensures r.Some? ==>
              && |r.value.0| <= r.value.1 <= |text|
              && Unmap(root, text) == Some(r.value.0 + text[r.value.1..])
  {
    var below := ComponentRest(text, root);
    if below.None? {
      return None;
    }
    var rest := ComponentRest(below.value, SubText(VarTmpSub));
    if rest.Some? {
      var start := |text| - |rest.value|;
      assert text[start..] == rest.value;
      return Some((CanonicalText(VarTmpSub), start));
    }
    rest := ComponentRest(below.value, SubText(TmpSub));
    if rest.Some? {
      var start := |text| - |rest.value|;
      assert text[start..] == rest.value;
      return Some((CanonicalText(TmpSub), start));
    }
    return None;
  }

  /** Writing a front over a buffer that holds the back right behind it. */
  lemma Assembled(moved: Bytes, after: Bytes, from: nat, front: Bytes, back: Bytes)
    requires from + |front| + |back| <= |moved| == |after|
    requires moved[from + |front|..from + |front| + |back|] == back
    requires after[..from] == moved[..from] && after[from..from + |front|] == front
    requires after[from + |front|..] == moved[from + |front|..]
    ensures after[from..from + |front| + |back|] == front + back
  {
    var m := from + |front|;
    assert after[m..m + |back|] == after[m..][..|back|];
    assert moved[m..m + |back|] == moved[m..][..|back|];
    assert after[from..m + |back|] == after[from..m] + after[m..m + |back|];
  }

  const AF_UNIX: byte := 1
  const SUN_PATH_OFFSET: nat := 2

  /** The length of the leading run of `s` that holds no NUL. */
  function NulFree(s: Bytes): (n: nat)
    ensures n <= |s| && (n < |s| ==> s[n] == NUL) && forall k :: 0 <= k < n ==> s[k] != NUL
  {
    if s == [] || s[0] == NUL then 0 else 1 + NulFree(s[1..])
  }

  /** The path of a raw socket address: up to the first NUL, if it is an AF_UNIX one. */
  function UnixPath(sa: Bytes): (r: Option<Bytes>) {
    if |sa| <= SUN_PATH_OFFSET || sa[1] != AF_UNIX then None
    else
      var region := sa[SUN_PATH_OFFSET..];
      Some(region[..NulFree(region)])
  }

  /** The path inside a reported socket address, and the host name it stands for. */
  ghost function HostPath(root: Bytes, sa: Bytes, reported: nat): Option<Bytes> {
    if reported > |sa| then None
    else match UnixPath(sa[..reported])
      case None => None
      case Some(path) => Unmap(root, path)
  }

  /** The address in `after` is the one in `before` with path `t`: the freed bytes are zero,
      the length byte is that of the new total `n`, and the rest is as it was. */
  ghost predicate Readdressed(before: Bytes, after: Bytes, reported: nat, t: Bytes, n: nat) {
    && SUN_PATH_OFFSET < n <= reported <= |before| == |after| && n == Min(SUN_PATH_OFFSET + |t| + 1, reported)
    && after[1] == before[1] && after[0] as nat == n % 256
    && SUN_PATH_OFFSET + |t| <= reported && after[SUN_PATH_OFFSET..SUN_PATH_OFFSET + |t|] == t
    && (forall k :: SUN_PATH_OFFSET + |t| <= k < reported ==> after[k] == NUL)
    && (forall k :: reported <= k < |after| ==> after[k] == before[k])
  }

  /** Rewrite a physical socket address to its host name in place; the address never grows. */
  method UnmapSockaddr(root: Bytes, sa: array<byte>, reported: nat) returns (r: Option<nat>)
    requires |root| >= 8
    modifies sa
    ensures match HostPath(root, old(sa[..]), reported)
            case None => r.None? && sa[..] == old(sa[..])
            case Some(t) => r.Some? && Readdressed(old(sa[..]), sa[..], reported, t, r.value)
  {
    if reported <= SUN_PATH_OFFSET || reported > sa.Length || sa[1] != AF_UNIX {
      return None;
    }
    var pathLen := NulFree(sa[SUN_PATH_OFFSET..reported]);
    assert sa[..][SUN_PATH_OFFSET..reported] == sa[SUN_PATH_OFFSET..reported];
    PathInside(root, sa[..], reported, pathLen);
    r := Readdress(root, sa, pathLen, reported);
  }

  /** Rewrite the path of `pathLen` bytes in an address, when it is mapped. */
  method Readdress(root: Bytes, sa: array<byte>, pathLen: nat, reported: nat) returns (r: Option<nat>)
    requires |root| >= 8 && SUN_PATH_OFFSET < reported && SUN_PATH_OFFSET + pathLen <= reported <= sa.Length
    modifies sa
    ensures match Unmap(root, old(sa[..])[SUN_PATH_OFFSET..SUN_PATH_OFFSET + pathLen])
            case None => r.None? && sa[..] == old(sa[..])
            case Some(t) => r.Some? && Readdressed(old(sa[..]), sa[..], reported, t, r.value)
  {
    ghost var before := sa[..];
    assert before[SUN_PATH_OFFSET..SUN_PATH_OFFSET + pathLen] == sa[SUN_PATH_OFFSET..SUN_PATH_OFFSET + pathLen];
    var newLen := UnmapInPlace(root, sa, SUN_PATH_OFFSET, pathLen);
    if newLen.None? {
      return None;
    }
    ghost var moved := sa[..];
    var n := newLen.value;
    assert moved[SUN_PATH_OFFSET..SUN_PATH_OFFSET + n] == sa[SUN_PATH_OFFSET..SUN_PATH_OFFSET + n];
    r := Seal(sa, n, reported);
    Sealed(before, moved, sa[..], pathLen, n, reported, r.value);
  }

  /** Where the path of an address lies. */
  lemma PathInside(root: Bytes, sa: Bytes, reported: nat, pathLen: nat)
    requires SUN_PATH_OFFSET < reported <= |sa| && sa[1] == AF_UNIX && pathLen == NulFree(sa[SUN_PATH_OFFSET..reported])
    ensures SUN_PATH_OFFSET + pathLen <= reported
    ensures HostPath(root, sa, reported) == Unmap(root, sa[SUN_PATH_OFFSET..SUN_PATH_OFFSET + pathLen])
  {
    assert sa[..reported][SUN_PATH_OFFSET..] == sa[SUN_PATH_OFFSET..reported];
    assert sa[SUN_PATH_OFFSET..reported][..pathLen] == sa[SUN_PATH_OFFSET..SUN_PATH_OFFSET + pathLen];
  }

  /** Zero the freed bytes and set the length byte. */
  method Seal(sa: array<byte>, n: nat, reported: nat) returns (r: Option<nat>)
    requires SUN_PATH_OFFSET + n <= reported <= sa.Length && SUN_PATH_OFFSET < reported
    modifies sa
    ensures r == Some(Min(SUN_PATH_OFFSET + n + 1, reported)) && sa[0] as nat == r.value % 256
    ensures forall k :: SUN_PATH_OFFSET + n <= k < reported ==> sa[k] == NUL
    ensures forall k :: 0 < k < SUN_PATH_OFFSET + n || reported <= k < sa.Length ==> sa[k] == old(sa[k])
  {
    var end := SUN_PATH_OFFSET + n;
    forall k | end <= k < reported {
      sa[k] := NUL;
    }
    var total := end + if n < reported - SUN_PATH_OFFSET then 1 else 0;
    sa[0] := (total % 256) as byte;
    return Some(total);
  }

  lemma Sealed(before: Bytes, moved: Bytes, after: Bytes, pathLen: nat, n: nat, reported: nat, total: nat)
    requires SUN_PATH_OFFSET + n <= SUN_PATH_OFFSET + pathLen <= reported <= |before| == |moved| == |after| && SUN_PATH_OFFSET < reported
    requires moved[..SUN_PATH_OFFSET] == before[..SUN_PATH_OFFSET]
    requires moved[SUN_PATH_OFFSET + pathLen..] == before[SUN_PATH_OFFSET + pathLen..]
    requires total == Min(SUN_PATH_OFFSET + n + 1, reported) && after[0] as nat == total % 256
    requires forall k :: SUN_PATH_OFFSET + n <= k < reported ==> after[k] == NUL
    requires forall k :: 0 < k < SUN_PATH_OFFSET + n || reported <= k < |after| ==> after[k] == moved[k]
    ensures Readdressed(before, after, reported, moved[SUN_PATH_OFFSET..SUN_PATH_OFFSET + n], total)
  {
    assert moved[1] == moved[..SUN_PATH_OFFSET][1] && before[1] == before[..SUN_PATH_OFFSET][1];
    var from := SUN_PATH_OFFSET + pathLen;
    forall k | reported <= k < |after| ensures after[k] == before[k] {
      assert moved[from..][k - from] == before[from..][k - from];
    }
    assert after[SUN_PATH_OFFSET..SUN_PATH_OFFSET + n] == moved[SUN_PATH_OFFSET..SUN_PATH_OFFSET + n];
  }

  function Min(a: nat, b: nat): nat {
    if a <= b then a else b
  }

  // ----- mapping -----

  /** A stopped scan, in the terms of the specification. */
  lemma {:induction false} StoppedMeans(text: Bytes) returns (e: Escape)
    requires HitFor(text).Stopped?
    ensures ScanFrom(Split(text), 0, InBase(AtRoot)) == Escaping(e) && EscapeOk(Split(text), 0, e)
    ensures var h := HitFor(text);
            && h.sub == e.sub && h.start <= h.compStart <= h.end <= |text|
            && Front(Split(text), e) == text[h.start..h.compStart]
            && Join(Split(text)[e.at + 1..]) == Behind(text, h.end)
  {
    var cs := Split(text);
    ScanBounds(cs, 0, InBase(AtRoot));
    e := ScanFrom(cs, 0, InBase(AtRoot)).esc;
    SplitParts(text);
    NotFirst(cs, e);
    FrontText(text, cs, e);
  }

  lemma NotFirst(cs: seq<Bytes>, e: Escape)
    requires cs != [] && ScanFrom(cs, 0, InBase(AtRoot)) == Escaping(e)
    ensures e.at > 0
  {
    ScanBounds(cs, 1, ScanMove(InBase(AtRoot), cs[0], 1, TMP in cs[1..]).state);
  }

  /** What stands behind the slash at offset `end`, if there is one. */
  function Behind(text: Bytes, end: nat): Bytes
    requires end <= |text|
  {
    if end < |text| then text[end + 1..] else []
  }

  lemma {:induction false} FrontText(text: Bytes, cs: seq<Bytes>, e: Escape)
    requires Parts(text, cs) && EscapeOk(cs, 0, e) && e.at > 0
    ensures var start := if e.sub.Some? then EndOf(cs, e.start) else 0;
            var end := EndOf(cs, e.at + 1);
            && start <= BeginOf(cs, e.at) <= end <= |text|
            && Front(cs, e) == text[start..BeginOf(cs, e.at)]
            && Join(cs[e.at + 1..]) == Behind(text, end)
  {
    BackText(text, cs, e.at);
    Between(text, cs, e.start, e.at);
  }

  /** What stands behind component `k`. */
  lemma {:induction false} BackText(text: Bytes, cs: seq<Bytes>, k: nat)
    requires Parts(text, cs) && k < |cs|
    ensures BeginOf(cs, k) <= EndOf(cs, k + 1) <= |text| && Join(cs[k + 1..]) == Behind(text, EndOf(cs, k + 1))
  {
    ComponentAt(text, cs, k);
    if k + 1 == |cs| {
      assert cs[k + 1..] == [];
    }
  }

  /** A finished scan, in the terms of the specification. */
  lemma {:induction false} ReachedMeans(root: Bytes, text: Bytes, rewritten: bool, cap: nat) returns (st: Scan)
    requires HitFor(text).Reached?
    ensures ScanFrom(Split(text), 0, InBase(AtRoot)) == Final(st) && ScanOk(st, |Split(text)|)
    ensures var h := HitFor(text).state;
            && (h.InTemp? <==> st.InTemp?)
            && (h.InTemp? ==> h.sub == st.sub && h.start <= |text| && text[h.start..] == Slashed(Split(text)[st.start..]))
  {
    var cs := Split(text);
    ScanBounds(cs, 0, InBase(AtRoot));
    st := ScanFrom(cs, 0, InBase(AtRoot)).state;
    SplitParts(text);
    if st.InTemp? {
      CutAt(cs, st.start);
    }
  }

  datatype Outcome = NoChange | Wrote(len: nat) | Error(error: MapError)

  /** What the caller finds in its buffer, for a result of the specification. */
  ghost predicate Delivered(r: Outcome, out: Bytes, spec: MapResult) {
    match spec
    case Unchanged => r.NoChange?
    case Fails(e) => r == Error(e)
    case Mapped(text) => r == Wrote(|text|) && |text| < |out| && out[..|text|] == text && out[|text|] == NUL
  }

  /** Write two pieces and a terminator, when they fit. */
  method Deliver(out: array<byte>, front: Bytes, back: Bytes) returns (r: Outcome)
    modifies out
    ensures Delivered(r, out[..], if |front + back| >= out.Length then Fails(NameTooLong) else Mapped(front + back))
  {
    if |front| + |back| >= out.Length {
      return Error(NameTooLong);
    }
    Overwrite(out, 0, front, back);
    var n := |front| + |back|;
    ghost var before := out[..n];
    out[n] := NUL;
    assert out[..n] == before;
    assert out[0..n] == out[..n];
    return Wrote(n);
  }

  /** The query stands in the scratch buffer, terminated. */
  ghost predicate Asked(out: Bytes, q: Bytes) {
    |q| < |out| && out[..|q|] == q && out[|q|] == NUL
  }

  /** Put the query for the resolver into the scratch buffer. */
  method BuildQuery(out: array<byte>, head: Bytes, prefix: Bytes) returns (q: Bytes)
    requires |head| + |prefix| + 1 < out.Length
    modifies out
    ensures q == head + prefix + [SLASH] && Asked(out[..], q)
  {
    Overwrite(out, 0, head, prefix);
    var total := |head| + |prefix|;
    ghost var before := out[..total];
    out[total] := SLASH;
    out[total + 1] := NUL;
    assert out[..total] == before;
    q := out[..total + 1];
    assert q == out[..total] + [SLASH];
    assert out[..][..total + 1] == out[..total + 1];
  }

  /** The text to restart with: the host parent of the answer, then the remainder. */
  method Restart(root: Bytes, answer: Bytes, remainder: Bytes, next: array<byte>) returns (n: Option<nat>)
    requires |root| >= 8 && |answer| <= PATH_MAX && next.Length == PATH_MAX
    modifies next
    ensures var text := Rest(root, answer, remainder);
            if |text| >= PATH_MAX then n.None?
            else n == Some(|text|) && next[..|text|] == text
  {
    var resolved := new byte[PATH_MAX];
    CopyInto(resolved, 0, answer);
    assert resolved[0..|answer|] == answer;
    var unmapped := UnmapInPlace(root, resolved, 0, |answer|);
    var hostLen := if unmapped.Some? then unmapped.value else |answer|;
    assert resolved[0..hostLen] == resolved[..hostLen];
    assert resolved[..hostLen] == HostName(root, answer);
    var parent := TextualParent(resolved[..hostLen]);
    var front := if parent == [SLASH] then parent else parent + [SLASH];
    if |parent| >= PATH_MAX || |front| + |remainder| >= PATH_MAX {
      return None;
    }
    Overwrite(next, 0, front, remainder);
    var len := |front| + |remainder|;
    assert next[0..len] == next[..len];
    return Some(len);
  }

  /** What a round leaves behind: an outcome, or the next text in `cur`. */
  datatype RoundEnd = Finished(outcome: Outcome, ghost queries: seq<Bytes>) | Continue(len: nat, temp: bool, ghost query: Bytes)

  ghost predicate RoundOk(e: RoundEnd, cur: Bytes, out: Bytes, spec: Round) {
    match spec
    case Over(run) => e.Finished? && e.queries == run.queries && Delivered(e.outcome, out, run.result)
    case Again(q, next, temp) => e.Continue? && e.query == q && e.temp == temp && e.len == |next| <= |cur| && cur[..e.len] == next
  }

  /** The answer of a scan that reached the end of the text. */
  method Finish(root: Bytes, text: Bytes, st: Scan, rewritten: bool, out: array<byte>, ghost resolve: Resolver, ghost asked: nat)
    returns (r: Outcome)
    requires HitFor(text) == Reached(st)
    modifies out
    ensures var spec := OneRound(root, text, rewritten, out.Length, resolve, asked);
            spec.Over? && spec.run.queries == [] && Delivered(r, out[..], spec.run.result)
  {
    ghost var s := ReachedMeans(root, text, rewritten, out.Length);
    if st.InTemp? {
      r := Deliver(out, root + SubText(st.sub), text[st.start..]);
    } else if !rewritten {
      r := NoChange;
    } else {
      r := Deliver(out, [], text);
      assert [] + text == text;
    }
  }

  /** Ask the resolver about a stopped scan and write the next text to `cur`. */
  method AskAndRewrite(root: Bytes, sub: Option<Sub>, front: Bytes, remainder: Bytes, dots: nat, cur: array<byte>, out: array<byte>, resolve: Resolver, asked: nat)
    returns (r: RoundEnd)
    requires |root| >= 8 && Fits(resolve) && cur.Length == PATH_MAX && cur != out
    modifies cur, out
    ensures RoundOk(r, cur[..], out[..], Ask(root, sub, front, remainder, dots, out.Length, resolve, asked))
    ensures r.Continue? ==> Asked(out[..], r.query)
    ensures r.Finished? && r.queries != [] ==> Asked(out[..], r.queries[0])
  {
    var head := Head(root, sub);
    if |head| + |front| + 1 >= out.Length {
      return Finished(Error(NameTooLong), []);
    }
    var q := BuildQuery(out, head, front);
    var answer := resolve(asked, q);
    if answer.Refused? {
      return Finished(Error(Kernel(answer.errno)), [q]);
    }
    var next := new byte[PATH_MAX];
    var nextLen := Restart(root, answer.text, remainder, next);
    if nextLen.None? {
      return Finished(Error(NameTooLong), [q]);
    }
    var n := nextLen.value;
    var t := next[..n];
    if DotDots(t) >= dots {
      return Finished(Error(Loop), [q]);
    }
    CopyInto(cur, 0, t);
    assert cur[0..n] == cur[..n];
    return Continue(n, sub.Some?, q);
  }

  /** One turn of the mapper's loop over the text in `cur`. */
  method Turn(root: Bytes, cur: array<byte>, len: nat, rewritten: bool, out: array<byte>, resolve: Resolver, asked: nat)
    returns (r: RoundEnd)
    requires |root| >= 8 && Fits(resolve) && len <= cur.Length == PATH_MAX && cur != out
    modifies cur, out
    ensures RoundOk(r, cur[..], out[..], OneRound(root, old(cur[..len]), rewritten, out.Length, resolve, asked))
  {
    var text := cur[..len];
    var hit := ScanText(text);
    if hit.Reached? {
      var outcome := Finish(root, text, hit.state, rewritten, out, resolve, asked);
      return Finished(outcome, []);
    }
    ghost var e := StoppedMeans(text);
    r := AskAndRewrite(root, hit.sub, text[hit.start..hit.compStart], Behind(text, hit.end), DotDots(text), cur, out, resolve, asked);
  }

  /** The questions so far and those of the rest of the loop make up the specified run. */
  ghost predicate Underway(spec: Run, root: Bytes, cur: Bytes, rewritten: bool, cap: nat, resolve: Resolver, queries: seq<Bytes>) {
    var rest := MapLoop(root, cur, rewritten, cap, resolve, |queries|);
    spec == Run(rest.result, queries + rest.queries)
  }

  /** A round and the rest of the loop make up the loop. */
  ghost predicate Unfolds(root: Bytes, cur: Bytes, rewritten: bool, cap: nat, resolve: Resolver, asked: nat, round: Round) {
    MapLoop(root, cur, rewritten, cap, resolve, asked)
    == match round
       case Over(run) => run
       case Again(q, next, temp) =>
         var rest := MapLoop(root, next, rewritten || temp, cap, resolve, asked + 1);
         Run(rest.result, [q] + rest.queries)
  }

  lemma LoopUnfolds(root: Bytes, cur: Bytes, rewritten: bool, cap: nat, resolve: Resolver, asked: nat)
    ensures Unfolds(root, cur, rewritten, cap, resolve, asked, OneRound(root, cur, rewritten, cap, resolve, asked))
  {
  }

  lemma {:induction false} Advance(spec: Run, root: Bytes, cur: Bytes, rewritten: bool, cap: nat, resolve: Resolver, queries: seq<Bytes>, round: Round)
    requires Underway(spec, root, cur, rewritten, cap, resolve, queries)
    requires Unfolds(root, cur, rewritten, cap, resolve, |queries|, round)
    ensures round.Over? ==> spec == Run(round.run.result, queries + round.run.queries)
    ensures round.Again? ==> Underway(spec, root, round.next, rewritten || round.temp, cap, resolve, queries + [round.query])
  {
    if round.Again? {
      var rest := MapLoop(root, round.next, rewritten || round.temp, cap, resolve, |queries| + 1);
      Assoc(queries, [round.query], rest.queries);
    }
  }

  lemma Assoc(a: seq<Bytes>, b: seq<Bytes>, c: seq<Bytes>)
    ensures a + (b + c) == (a + b) + c
  {
  }

  lemma UnderwayAtStart(root: Bytes, path: Bytes, cap: nat, resolve: Resolver)
    requires path != [] && path[0] == SLASH && |path| < PATH_MAX
    ensures Underway(TmpPath.MapWith(root, path, cap, resolve), root, path, false, cap, resolve, [])
  {
    var spec := TmpPath.MapWith(root, path, cap, resolve);
    assert [] + spec.queries == spec.queries;
  }

  /** One turn, as part of the specified run. */
  method Advancing(root: Bytes, cur: array<byte>, len: nat, rewritten: bool, out: array<byte>, resolve: Resolver, asked: nat, ghost spec: Run, ghost queries: seq<Bytes>)
    returns (r: RoundEnd)
    requires |root| >= 8 && Fits(resolve) && len <= cur.Length == PATH_MAX && cur != out && asked == |queries|
    requires Underway(spec, root, cur[..len], rewritten, out.Length, resolve, queries)
    modifies cur, out
    ensures r.Finished? ==> Delivered(r.outcome, out[..], spec.result) && queries + r.queries == spec.queries
    ensures r.Continue? ==>
              && r.len <= PATH_MAX && DotDots(cur[..r.len]) < DotDots(old(cur[..len]))
              && Underway(spec, root, cur[..r.len], rewritten || r.temp, out.Length, resolve, queries + [r.query])
  {
    ghost var round := OneRound(root, cur[..len], rewritten, out.Length, resolve, asked);
    LoopUnfolds(root, cur[..len], rewritten, out.Length, resolve, asked);
    Advance(spec, root, cur[..len], rewritten, out.Length, resolve, queries, round);
    r := Turn(root, cur, len, rewritten, out, resolve, asked);
    if r.Continue? {
      assert cur[..][..r.len] == cur[..r.len];
    }
  }

  /** The mapper: writes the text to use instead of `path`, NUL-terminated, or says that
      `path` is used unchanged. `out` also serves as scratch space for the queries. */
  method MapWith(root: Bytes, path: Bytes, out: array<byte>, resolve: Resolver) returns (r: Outcome, ghost queries: seq<Bytes>)
    requires |root| >= 8 && Fits(resolve)
    modifies out
    ensures Delivered(r, out[..], TmpPath.MapWith(root, path, out.Length, resolve).result)
    ensures queries == TmpPath.MapWith(root, path, out.Length, resolve).queries
  {
    queries := [];
    if path == [] || path[0] != SLASH || |path| >= PATH_MAX {
      return NoChange, [];
    }
    var cur := new byte[PATH_MAX];
    CopyInto(cur, 0, path);
    var curLen: nat := |path|;
    assert cur[0..curLen] == cur[..curLen];
    var rewritten := false;
    var asked: nat := 0;
    ghost var spec := TmpPath.MapWith(root, path, out.Length, resolve);
    UnderwayAtStart(root, path, out.Length, resolve);
    while true
      invariant curLen <= PATH_MAX == cur.Length && fresh(cur) && asked == |queries|
      invariant Underway(spec, root, cur[..curLen], rewritten, out.Length, resolve, queries)
      decreases DotDots(cur[..curLen])
    {
      var step := Advancing(root, cur, curLen, rewritten, out, resolve, asked, spec, queries);
      if step.Finished? {
        return step.outcome, queries + step.queries;
      }
      queries := queries + [step.query];
      curLen := step.len;
      rewritten := rewritten || step.temp;
      asked := asked + 1;
    }
  }
}
