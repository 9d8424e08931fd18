/** The refinement theorem for paths relative to a directory. */
module RefinementAt {
  import opened Text
  import opened TmpPath
  import opened FsState
  import opened FsTree
  import opened FsPaths
  import opened FsReach
  import opened FsTame
  import opened MacTree
  import opened MacNames
  import opened Refinement
  import opened RefinementLoop
  import opened RefinementUnchanged
  import opened RefinementUnchangedMain
  import opened RefinementMain

  /** Popping a component of an absolute path of names is taking its textual parent. */
  lemma {:induction false} PopNameOf(front: Bytes, name: Bytes)
    requires name != [] && SLASH !in name
    ensures PopName(front + [SLASH] + name) == if front == [] then [SLASH] else front
    decreases |name|
  {
    var text := front + [SLASH] + name;
    var t := text[..|text| - 1];
    assert text[|text| - 1] == name[|name| - 1];
    if |name| == 1 {
      assert t == front + [SLASH];
      assert t[..|t| - 1] == front;
    } else {
      var name' := name[..|name| - 1];
      assert t == front + [SLASH] + name';
      assert t[|t| - 1] == name'[|name'| - 1];
      PopNameOf(front, name');
    }
  }

  /** Popping a component of a virtual path gives the virtual path of the virtual parent. */
  lemma PopParent(s: Fs, d: nat)
    requires Scaffold(s) && Linked(s, d) && Visible(s, d)
    ensures Valid(s, ParentOf(s, Virtual, d))
    ensures var par := ParentOf(s, Virtual, d);
            && Linked(s, par) && Visible(s, par) && FsState.Enter(s, Virtual, par) == par
            && (IsDir(s, d) ==> IsDir(s, par))
            && PopComponent(PathOf(VirtNames(s, d))) == PathOf(VirtNames(s, par))
  {
    ParentText(s, d);
    VirtualSound(s, d);
    SoundUp(s, Virtual, d);
    FullNamesUp(s, Virtual, d);
    var par := ParentOf(s, Virtual, d);
    if NameAndParent(s, Virtual, d).Some? {
      var k := NameAndParent(s, Virtual, d).value.0;
      assert VirtNames(s, d) == VirtNames(s, par) + [k];
      PopLast(VirtNames(s, par), k);
    }
  }

  lemma {:induction false} PopLast(names: seq<Bytes>, k: Bytes)
    requires k != [] && SLASH !in k
    ensures PopComponent(PathOf(names + [k])) == if names == [] then [SLASH] else Slashed(names)
  {
    assert (names + [k])[..|names|] == names;
    var text := Slashed(names) + [SLASH] + k;
    assert text[|text| - 1] == k[|k| - 1];
    PopNameOf(Slashed(names), k);
    if names != [] {
      SlashedFirst(names);
    }
  }

  /** The walk of the whole path from `cur` is the walk of `rest` from the node of `text`. */
  ghost predicate Stands(s: Fs, text: Bytes, n: nat) {
    && Scaffold(s) && Linked(s, n) && Visible(s, n) && IsDir(s, n)
    && text == PathOf(VirtNames(s, n))
  }

  /** A walk that begins with `..` goes on from the parent. */
  lemma ParentWalk(s: Fs, cur: nat, comps: seq<Bytes>, follow: bool, slash: bool)
    requires Scaffold(s) && Linked(s, cur) && Visible(s, cur) && comps != [] && comps[0] == DOTDOT
    requires Valid(s, ParentOf(s, Virtual, cur)) && Visible(s, ParentOf(s, Virtual, cur))
    ensures Walk(s, Virtual, cur, comps, follow, slash, 0) == Walk(s, Virtual, ParentOf(s, Virtual, cur), comps[1..], follow, slash, 0)
  {
    VisibleSelf(s, ParentOf(s, Virtual, cur));
  }

  /** What taking the leading components has to keep. */
  ghost predicate Leads(s: Fs, text: Bytes, cur: nat, rest: Bytes, n: nat, follow: bool, slash: bool)
    requires Closed(s) && Valid(s, cur)
  {
    var (text', rest') := TakeLeading(text, rest);
    && Stands(s, text', n)
    && Walk(s, Virtual, cur, Comps(rest), follow, slash, 0) == Walk(s, Virtual, n, Comps(rest'), follow, slash, 0)
    && (Comps(rest') != [] ==> Trailing(rest') == Trailing(rest))
  }

  /** One more leading `.` or `..` in front. */
  lemma LeadsOn(s: Fs, text: Bytes, cur: nat, rest: Bytes, text1: Bytes, cur1: nat, rest1: Bytes, n: nat, follow: bool, slash: bool)
    requires Closed(s) && Valid(s, cur) && Valid(s, cur1) && Leads(s, text1, cur1, rest1, n, follow, slash)
    requires TakeLeading(text, rest) == TakeLeading(text1, rest1)
    requires Walk(s, Virtual, cur, Comps(rest), follow, slash, 0) == Walk(s, Virtual, cur1, Comps(rest1), follow, slash, 0)
    requires Comps(rest1) != [] ==> Trailing(rest1) == Trailing(rest)
    requires Comps(rest1) == [] ==> Comps(TakeLeading(text1, rest1).1) == []
    ensures Leads(s, text, cur, rest, n, follow, slash)
  {
  }

  /** Which node the leading `.` and `..` components lead to. */
  lemma {:induction false} LeadingWalk(s: Fs, text: Bytes, cur: nat, rest: Bytes, follow: bool, slash: bool) returns (n: nat)
    requires Stands(s, text, cur)
    ensures Leads(s, text, cur, rest, n, follow, slash)
    decreases |rest|
  {
    n := cur;
    if rest == DOT {
      LeadDot(rest);
    } else if rest == DOTDOT {
      LeadDotDot(rest);
      n := ParentOf(s, Virtual, cur);
      PopParent(s, cur);
      ParentWalk(s, cur, Comps(rest), follow, slash);
    } else if DOT + [SLASH] <= rest {
      LeadDot(rest);
      n := LeadingWalk(s, text, cur, rest[2..], follow, slash);
      NoNamesLeft(text, rest[2..]);
      LeadsOn(s, text, cur, rest, text, cur, rest[2..], n, follow, slash);
    } else if DOTDOT + [SLASH] <= rest {
      LeadDotDot(rest);
      PopParent(s, cur);
      ParentWalk(s, cur, Comps(rest), follow, slash);
      n := LeadingWalk(s, PopComponent(text), ParentOf(s, Virtual, cur), rest[3..], follow, slash);
      NoNamesLeft(PopComponent(text), rest[3..]);
      LeadsOn(s, text, cur, rest, PopComponent(text), ParentOf(s, Virtual, cur), rest[3..], n, follow, slash);
    }
  }

  /** Where there are no components, none are left. */
  lemma {:induction false} NoNamesLeft(text: Bytes, rest: Bytes)
    ensures Comps(rest) == [] ==> Comps(TakeLeading(text, rest).1) == []
    decreases |rest|
  {
    if DOT + [SLASH] <= rest {
      LeadDot(rest);
      NoNamesLeft(text, rest[2..]);
    } else if DOTDOT + [SLASH] <= rest {
      LeadDotDot(rest);
    } else {
      CompsEmpty();
    }
  }

  lemma {:induction false} LeadDot(rest: Bytes)
    requires rest == DOT || DOT + [SLASH] <= rest
    ensures var r := if rest == DOT then [] else rest[2..];
            Comps(rest) == Comps(r) && (Comps(r) != [] ==> Trailing(r) == Trailing(rest))
  {
    CompsEmpty();
    CompsSingle(DOT);
    if rest != DOT {
      var r := rest[2..];
      assert rest == DOT + [SLASH] + r;
      CompsJoin(DOT, r);
      TrailingTail(rest, r);
    }
  }

  lemma {:induction false} LeadDotDot(rest: Bytes)
    requires rest == DOTDOT || DOTDOT + [SLASH] <= rest
    ensures var r := if rest == DOTDOT then [] else rest[3..];
            && Comps(rest) != [] && Comps(rest)[0] == DOTDOT && Comps(rest)[1..] == Comps(r)
            && (Comps(r) != [] ==> Trailing(r) == Trailing(rest))
  {
    CompsEmpty();
    CompsSingle(DOTDOT);
    if rest != DOTDOT {
      var r := rest[3..];
      assert rest == DOTDOT + [SLASH] + r;
      CompsJoin(DOTDOT, r);
      TrailingTail(rest, r);
    }
  }

  /** A tail with names in it ends in a slash exactly when the whole does. */
  lemma {:induction false} TrailingTail(whole: Bytes, tail: Bytes)
    requires |tail| <= |whole| && whole[|whole| - |tail|..] == tail
    ensures Comps(tail) != [] ==> Trailing(tail) == Trailing(whole)
  {
    if Comps(tail) != [] {
      CompsEmpty();
      CompsLeading([]);
      assert |tail| == 1 && tail[0] == SLASH ==> tail == [SLASH] + [];
      assert whole[|whole| - 1] == tail[|tail| - 1];
    }
  }

  /** The joined text finds what the relative path finds from its directory. */
  lemma {:induction false} JoinedLook(s: Fs, text: Bytes, dir: nat, path: Bytes, follow: bool)
    requires Stands(s, text, dir) && s.profile.MacShim? && |text| < PATH_MAX
    requires path != [] && path[0] != SLASH && |path| < PATH_MAX
    requires var (text', rest) := TakeLeading(text, path); rest != [] ==> |Joined(text', rest)| < PATH_MAX
    ensures var (text', rest) := TakeLeading(text, path);
            NoWorse(Resolve(s, Virtual, dir, path, follow, 0), VLook(s, Joined(text', rest), follow))
    ensures var (text', rest) := TakeLeading(text, path);
            var j := Joined(text', rest); 0 < |j| < PATH_MAX && j[0] == SLASH
  {
    var slash := Trailing(path);
    VisibleSelf(s, dir);
    assert Resolve(s, Virtual, dir, path, follow, 0) == Walk(s, Virtual, dir, Comps(path), follow, slash, 0);
    var n := LeadingWalk(s, text, dir, path, follow, slash);
    var (text', rest) := TakeLeading(text, path);
    JoinLook(s, text', n, rest, follow, slash);
  }

  lemma {:induction false} JoinLook(s: Fs, text: Bytes, n: nat, rest: Bytes, follow: bool, slash: bool)
    requires Stands(s, text, n) && s.profile.MacShim? && |text| < PATH_MAX
    requires rest != [] ==> |Joined(text, rest)| < PATH_MAX
    requires Comps(rest) != [] ==> Trailing(rest) == slash
    ensures NoWorse(Walk(s, Virtual, n, Comps(rest), follow, slash, 0), VLook(s, Joined(text, rest), follow))
    ensures var j := Joined(text, rest); 0 < |j| < PATH_MAX && j[0] == SLASH
  {
    var names := VirtNames(s, n);
    VirtualSound(s, n);
    SoundNames(s, Virtual, n);
    CompsPathOf(names);
    if rest == [] {
      CompsEmpty();
      ScaffoldRoot(s);
      VisibleSelf(s, ROOT);
      ResolveFullPath(s, Virtual, ROOT, n, follow);
    } else {
      SlashAlone(names);
      var l := Split(rest);
      JoinSplit(rest);
      SplitIsSlashFree(rest);
      JoinedIs(names, rest);
      if Comps(rest) != [] {
        TrailingRest(rest);
      }
      LookBehind(s, n, l, follow, slash, 0);
    }
  }

  lemma {:induction false} JoinedIs(names: seq<Bytes>, rest: Bytes)
    requires rest != [] && (PathOf(names) == [SLASH] ==> names == [])
    ensures Joined(PathOf(names), rest) == Slashed(names) + [SLASH] + rest
  {
    if names == [] {
      assert Slashed(names) + [SLASH] == [SLASH];
    }
  }

  lemma {:induction false} TrailingRest(rest: Bytes)
    requires Comps(rest) != []
    ensures Trailing(rest) <==> Split(rest)[|Split(rest)| - 1] == []
  {
    var l := Split(rest);
    JoinSplit(rest);
    SplitIsSlashFree(rest);
    TrailingJoin([], l);
    var t := [] + [SLASH] + Join(l);
    assert t == [SLASH] + rest;
    TrailingTail(t, rest);
  }

  // ----- a relative path that is used as it stands -----

  /** Names alone, from outside `Top`, stay clear of the host temp directories. */
  lemma {:induction false} NamesTame(s: Fs, a: Skeleton, n: nat, comps: seq<Bytes>, follow: bool, slash: bool, links: nat)
    requires Floor(s, a) && Visible(s, n) && n !in Top(s, a) && links <= MaxLinks(s)
    requires DOTDOT !in comps && GroundWalk(s, Top(s, a), n, comps, follow, slash, links)
    ensures TameEnd(s, n, comps, follow, slash, links)
    decreases |comps|, 0
  {
    VisibleSelf(s, n);
    if comps != [] {
      assert comps == [comps[0]] + comps[1..];
      if comps[0] in s.nodes[n].children && s.nodes[n].children[comps[0]] in Top(s, a) {
        TopEntry(s, a, n, comps[0]);
      }
      OneNameTame(s, a, n, comps[0], comps[1..], follow, slash, links);
    }
  }

  lemma {:induction false} OneNameTame(s: Fs, a: Skeleton, n: nat, name: Bytes, rest: seq<Bytes>, follow: bool, slash: bool, links: nat)
    requires Floor(s, a) && Visible(s, n) && links <= MaxLinks(s) && !IsAlias(n, name)
    requires name in s.nodes[n].children ==> s.nodes[n].children[name] !in Top(s, a)
    requires name != DOTDOT && DOTDOT !in rest && GroundWalk(s, Top(s, a), n, [name] + rest, follow, slash, links)
    ensures TameEnd(s, n, [name] + rest, follow, slash, links)
    decreases |rest|, 1
  {
    VisibleSelf(s, n);
    var f, w := rest != [] || follow || slash, rest != [] || slash;
    GroundOn(s, Top(s, a), n, name, rest, follow, slash, links);
    StepClear(s, a, n, name, TMP in rest, f, w, links);
    var next := Step(s, Physical, n, name, f, w, links);
    if next.Found? {
      if TMP in rest {
        NamesTame(s, a, next.node, rest, follow, slash, next.links);
      } else {
        NoTmpTame(s, a, next.node, rest, follow, slash, next.links);
      }
    }
    NameEnd(s, n, name, rest, follow, slash, links);
  }

  /** A path without `..` whose first name is not one of the rails. */
  lemma InnocentTame(s: Fs, a: Skeleton, dir: nat, path: Bytes, follow: bool, slash: bool)
    requires Floor(s, a) && Visible(s, dir) && Innocent(path) && GroundWalk(s, Top(s, a), dir, Comps(path), follow, slash, 0)
    ensures TameEnd(s, dir, Comps(path), follow, slash, 0)
  {
    VisibleSelf(s, dir);
    var comps := Comps(path);
    assert |DOTDOT| == 2;
    RealMember(Split(path), DOTDOT);
    if comps != [] {
      assert comps == [comps[0]] + comps[1..];
      if comps[0] in s.nodes[dir].children && s.nodes[dir].children[comps[0]] in Top(s, a) {
        TopEntry(s, a, dir, comps[0]);
      }
      OneNameTame(s, a, dir, comps[0], comps[1..], follow, slash, 0);
    }
  }

  /** The text of a directory with a remainder behind it, left unchanged: the remainder is walked
      tamely from the directory. */
  lemma RestTame(s: Fs, root: Bytes, a: Skeleton, text: Bytes, n: nat, rest: Bytes, follow: bool, slash: bool, cap: nat, resolve: Resolver)
    requires Setting(s, root, a, cap, resolve) && Stands(s, text, n) && rest != [] && |Joined(text, rest)| < PATH_MAX
    requires Leaves(root, Joined(text, rest), cap, resolve, 0) && GroundWalk(s, Top(s, a), n, Comps(rest), follow, slash, 0)
    ensures TameEnd(s, n, Comps(rest), follow, slash, 0)
  {
    var next, behind := Joined(text, rest), [SLASH] + rest;
    RestGoesOn(s, text, n, rest);
    NotTemp(root, next, cap, resolve, 0);
    var at, st := EscapeGo(s, root, a, behind, 0, next, n, 0);
    LoopTame(s, root, a, next, at, st, n, follow, slash, 0, cap, resolve, 0);
  }

  lemma RestGoesOn(s: Fs, text: Bytes, n: nat, rest: Bytes)
    requires Stands(s, text, n) && rest != []
    ensures Split([SLASH] + rest)[1..] == Split(rest) && GoesOn(s, [SLASH] + rest, 0, Joined(text, rest), n)
  {
    SplitAt([SLASH] + rest, [], rest);
    assert [SLASH] + rest == [] + [SLASH] + rest;
    JoinSplit(rest);
    VirtualSound(s, n);
    SoundNames(s, Virtual, n);
    SlashAlone(VirtNames(s, n));
    JoinedIs(VirtNames(s, n), rest);
  }

  /** One leading `..`: the text loses a name, the walk goes to the parent. */
  lemma LeadBack(s: Fs, a: Skeleton, text: Bytes, cur: nat, rest: Bytes, back: Bytes, follow: bool, slash: bool)
    requires HostTemps(s, a) && Stands(s, text, cur) && (rest == DOTDOT || DOTDOT + [SLASH] <= rest)
    requires back == (if rest == DOTDOT then [] else rest[3..]) && GroundWalk(s, Top(s, a), cur, Comps(rest), follow, slash, 0)
    ensures Comps(rest) == [DOTDOT] + Comps(back) && s.nodes[cur].virtualParent.None? && Valid(s, ParentOf(s, Physical, cur))
    ensures Stands(s, PopComponent(text), ParentOf(s, Physical, cur))
    ensures GroundWalk(s, Top(s, a), ParentOf(s, Physical, cur), Comps(back), follow, slash, 0)
  {
    LeadDotDot(rest);
    assert Comps(rest) == [DOTDOT] + Comps(back);
    GroundUp(s, Top(s, a), cur, Comps(back), follow, slash, 0);
    PopParent(s, cur);
  }

  /** The leading `.` and `..` components taken against the text of the directory, and the
      joined text left unchanged: the whole path is walked tamely. */
  lemma {:induction false} LeadTame(s: Fs, root: Bytes, a: Skeleton, text: Bytes, cur: nat, rest: Bytes, follow: bool, slash: bool, cap: nat, resolve: Resolver)
    requires Setting(s, root, a, cap, resolve) && Stands(s, text, cur)
    requires var (text', rest') := TakeLeading(text, rest);
             rest' != [] ==> |Joined(text', rest')| < PATH_MAX && Leaves(root, Joined(text', rest'), cap, resolve, 0)
    requires GroundWalk(s, Top(s, a), cur, Comps(rest), follow, slash, 0)
    ensures TameEnd(s, cur, Comps(rest), follow, slash, 0)
    decreases |rest|
  {
    VisibleSelf(s, cur);
    if rest == DOT || DOT + [SLASH] <= rest {
      LeadDot(rest);
      if rest != DOT {
        LeadTame(s, root, a, text, cur, rest[2..], follow, slash, cap, resolve);
      } else {
        CompsEmpty();
      }
    } else if rest == DOTDOT || DOTDOT + [SLASH] <= rest {
      var back := if rest == DOTDOT then [] else rest[3..];
      LeadBack(s, a, text, cur, rest, back, follow, slash);
      if rest == DOTDOT {
        CompsEmpty();
        VisibleSelf(s, ParentOf(s, Physical, cur));
      } else {
        LeadTame(s, root, a, PopComponent(text), ParentOf(s, Physical, cur), back, follow, slash, cap, resolve);
      }
      UpEnd(s, cur, Comps(back), follow, slash, 0);
    } else if rest == [] {
      CompsEmpty();
    } else {
      RestTame(s, root, a, text, cur, rest, follow, slash, cap, resolve);
    }
  }

  // ----- the theorem -----

  lemma HostNameShorter(root: Bytes, text: Bytes)
    requires |root| >= 8
    ensures |HostName(root, text)| <= |text|
  {
  }

  lemma AbsoluteAnywhere(s: Fs, dir: nat, text: Bytes, follow: bool)
    requires Closed(s) && Valid(s, dir) && text != [] && text[0] == SLASH
    ensures Resolve(s, Physical, dir, text, follow, 0) == Resolve(s, Physical, ROOT, text, follow, 0)
  {
  }

  /** The absolute text that stands for `path` in the directory with the physical name `base`. */
  ghost function Whole(root: Bytes, base: Bytes, path: Bytes): Bytes {
    var (text, rest) := TakeLeading(HostName(root, base), path);
    Joined(text, rest)
  }

  /** The path is mapped, and the whole text ends on the alias. */
  ghost predicate OnAliasAt(root: Bytes, base: Bytes, path: Bytes, cap: nat, resolve: Resolver, follow: bool) {
    !Innocent(path) && OnAlias(root, Whole(root, base, path), cap, resolve, follow)
  }

  /** The directory the relative paths start from, and the kernel's name for it. */
  ghost predicate FromDir(s: Fs, root: Bytes, dir: nat, base: Bytes) {
    && Scaffold(s) && Linked(s, dir) && Visible(s, dir) && IsDir(s, dir) && base == PathOf(PhysNames(s, dir))
    && Stands(s, HostName(root, base), dir) && |HostName(root, base)| <= |base|
  }

  lemma MacFromDir(s: Fs, root: Bytes, a: Skeleton, dir: nat, base: Bytes)
    requires Mac(s, root, a) && |root| >= 8 && Linked(s, dir) && Visible(s, dir) && IsDir(s, dir) && base == PathOf(PhysNames(s, dir))
    ensures FromDir(s, root, dir, base)
  {
    HostNameIsVirtual(s, root, a, dir);
    HostNameShorter(root, base);
  }

  /** The whole text finds what the relative path finds. */
  lemma WholeLook(s: Fs, root: Bytes, dir: nat, base: Bytes, path: Bytes, cap: nat, resolve: Resolver, follow: bool)
    requires FromDir(s, root, dir, base) && s.profile.MacShim? && path != [] && path[0] != SLASH && !Innocent(path)
    requires Resolve(s, Virtual, dir, path, follow, 0).Found? && !MapAtWith(root, path, cap, Resolved(base), resolve).result.Fails?
    ensures Absolute(Whole(root, base, path))
    ensures NoWorse(Resolve(s, Virtual, dir, path, follow, 0), VLook(s, Whole(root, base, path), follow))
    ensures var run, at := MapWith(root, Whole(root, base, path), cap, resolve), MapAtWith(root, path, cap, Resolved(base), resolve);
            && !run.result.Fails? && at.queries == run.queries
            && (at.result == run.result || (run.result.Unchanged? && at.result == Mapped(Whole(root, base, path))))
  {
    AtIsWhole(root, path, cap, base, resolve);
    JoinedLook(s, HostName(root, base), dir, path, follow);
  }

  /** What the relative mapper makes of the whole text. */
  lemma AtIsWhole(root: Bytes, path: Bytes, cap: nat, base: Bytes, resolve: Resolver)
    requires path != [] && path[0] != SLASH && !Innocent(path) && !MapAtWith(root, path, cap, Resolved(base), resolve).result.Fails?
    ensures |base| < PATH_MAX
    ensures var (text, rest) := TakeLeading(HostName(root, base), path); rest != [] ==> |Joined(text, rest)| < PATH_MAX
    ensures var run, at := MapWith(root, Whole(root, base, path), cap, resolve), MapAtWith(root, path, cap, Resolved(base), resolve);
            && !run.result.Fails? && at.queries == run.queries
            && (at.result == run.result || (run.result.Unchanged? && at.result == Mapped(Whole(root, base, path))))
  {
  }

  lemma MappedAt(s: Fs, root: Bytes, a: Skeleton, dir: nat, path: Bytes, cap: nat, base: Bytes, resolve: Resolver, follow: bool)
    requires Mac(s, root, a) && FromDir(s, root, dir, base) && KernelLike(s, resolve) && cap <= PATH_MAX && path != [] && path[0] != SLASH
    requires Resolve(s, Virtual, dir, path, follow, 0).Found?
    requires var run := MapAtWith(root, path, cap, Resolved(base), resolve);
             run.result.Mapped? && AllTame(s, run.queries) && Tame(s, run.result.text, follow)
    ensures var text := MapAtWith(root, path, cap, Resolved(base), resolve).result.text;
            SameNode(Resolve(s, Virtual, dir, path, follow, 0), Resolve(s, Physical, dir, text, follow, 0))
            <==> !OnAliasAt(root, base, path, cap, resolve, follow)
  {
    WholeLook(s, root, dir, base, path, cap, resolve, follow);
    var whole := Whole(root, base, path);
    var text := MapAtWith(root, path, cap, Resolved(base), resolve).result.text;
    if MapWith(root, whole, cap, resolve).result.Mapped? {
      MappedRefines(s, root, a, whole, cap, resolve, follow);
    } else {
      UnchangedNotAlias(s, root, a, whole, cap, resolve, follow);
      TameAgrees(s, whole, follow);
    }
    AbsoluteAnywhere(s, dir, text, follow);
  }

  lemma LeavesWhole(s: Fs, root: Bytes, dir: nat, path: Bytes, cap: nat, base: Bytes, resolve: Resolver)
    requires FromDir(s, root, dir, base) && s.profile.MacShim? && path != [] && path[0] != SLASH && |path| < PATH_MAX && !Innocent(path)
    requires MapAtWith(root, path, cap, Resolved(base), resolve).result.Unchanged?
    ensures var (text, rest) := TakeLeading(HostName(root, base), path);
            rest != [] ==> |Joined(text, rest)| < PATH_MAX && Leaves(root, Joined(text, rest), cap, resolve, 0)
  {
    AtIsWhole(root, path, cap, base, resolve);
    JoinedLook(s, HostName(root, base), dir, path, true);
  }

  /** The whole lookup from `dir` is tame and does not end in a host temp directory. */
  ghost predicate TameFrom(s: Fs, dir: nat, path: Bytes, follow: bool)
    requires Closed(s) && Valid(s, dir)
  {
    && TameResolve(s, dir, path, follow, 0)
    && var r := Resolve(s, Physical, dir, path, follow, 0);
       r.Found? ==> s.nodes[r.node].mountedBy.None?
  }

  /** A relative path left unchanged is walked tamely from its directory. */
  lemma UnchangedTameAt(s: Fs, root: Bytes, a: Skeleton, dir: nat, path: Bytes, cap: nat, base: Bytes, resolve: Resolver, follow: bool)
    requires Mac(s, root, a) && FromDir(s, root, dir, base) && KernelLike(s, resolve) && cap <= PATH_MAX && path != [] && path[0] != SLASH
    requires MapAtWith(root, path, cap, Resolved(base), resolve).result.Unchanged? && Grounded(s, a, dir, path, follow) && |path| < PATH_MAX
    ensures TameFrom(s, dir, path, follow)
  {
    VisibleSelf(s, dir);
    MacSetting(s, root, a, cap, resolve);
    if Innocent(path) {
      InnocentTame(s, a, dir, path, follow, Trailing(path));
    } else {
      LeavesWhole(s, root, dir, path, cap, base, resolve);
      LeadTame(s, root, a, HostName(root, base), dir, path, follow, Trailing(path), cap, resolve);
    }
  }

  lemma TameFromAgrees(s: Fs, dir: nat, path: Bytes, follow: bool)
    requires Scaffold(s) && Visible(s, dir) && TameFrom(s, dir, path, follow)
    ensures Resolve(s, Virtual, dir, path, follow, 0) == Resolve(s, Physical, dir, path, follow, 0)
  {
    VisibleSelf(s, dir);
    ResolveAgrees(s, dir, path, follow, 0);
  }

  /** Refinement for relative paths, from any linked directory that no mount hides. `base` is the
      kernel's name for the directory. The conditions are those for absolute paths. */
  lemma MapAtRefinesVirtual(s: Fs, root: Bytes, a: Skeleton, dir: nat, path: Bytes, cap: nat, base: Bytes, resolve: Resolver, follow: bool)
    requires Mac(s, root, a) && KernelLike(s, resolve) && cap <= PATH_MAX && ValidRoot(root)
    requires Linked(s, dir) && Visible(s, dir) && IsDir(s, dir) && base == PathOf(PhysNames(s, dir))
    requires path != [] && path[0] != SLASH && Resolve(s, Virtual, dir, path, follow, 0).Found?
    requires var run := MapAtWith(root, path, cap, Resolved(base), resolve);
             && !run.result.Fails?
             && (run.result.Mapped? ==> AllWalked(s, root, a, run.queries, cap, resolve) && Walked(s, root, a, run.result.text, follow, cap, resolve))
             && (run.result.Unchanged? ==> TameFrom(s, dir, path, follow) || Grounded(s, a, dir, path, follow))
    ensures var text := Effective(path, MapAtWith(root, path, cap, Resolved(base), resolve).result);
            SameNode(Resolve(s, Virtual, dir, path, follow, 0), Resolve(s, Physical, dir, text, follow, 0))
            <==> !OnAliasAt(root, base, path, cap, resolve, follow)
  {
    MacFromDir(s, root, a, dir, base);
    var run := MapAtWith(root, path, cap, Resolved(base), resolve);
    if run.result.Mapped? {
      AllWalkedTame(s, root, a, run.queries, cap, resolve);
      WalkedTame(s, root, a, run.result.text, follow, cap, resolve);
      MappedAt(s, root, a, dir, path, cap, base, resolve, follow);
    } else {
      assert |path| < PathMax(s);
      if !TameFrom(s, dir, path, follow) {
        UnchangedTameAt(s, root, a, dir, path, cap, base, resolve, follow);
      }
      TameFromAgrees(s, dir, path, follow);
      if !Innocent(path) {
        WholeLook(s, root, dir, base, path, cap, resolve, follow);
        UnchangedNotAlias(s, root, a, Whole(root, base, path), cap, resolve, follow);
      }
    }
  }
}
