/** The refinement theorem for absolute paths. */
module RefinementMain {
  import opened Text
  import opened TmpPath
  import opened FsState
  import opened FsTree
  import opened FsPaths
  import opened FsReach
  import opened FsTame
  import opened MacTree
  import opened MacNames
  import opened Refinement
  import opened RefinementLoop
  import opened RefinementUnchanged
  import opened RefinementUnchangedMain

  /** What is asked of the physical walk of a path that is used as it stands: fold is off, the
      mountpoints are the host temp directories, no `..` steps off a private temp directory, and
      each link it follows leads tamely away from the host temp directories. Whether the names
      of the path lead there is not asked: that is the mapper's business. */
  ghost predicate Grounded(s: Fs, a: Skeleton, start: nat, path: Bytes, follow: bool)
    requires Closed(s) && Valid(s, start)
  {
    && !s.fold && HostTemps(s, a)
    && (0 < |path| < PathMax(s) ==>
          GroundWalk(s, Top(s, a), if path[0] == SLASH then ROOT else start, Comps(path), follow, Trailing(path), 0))
  }

  /** What the loop needs, once for the whole tree. */
  lemma MacSetting(s: Fs, root: Bytes, a: Skeleton, cap: nat, resolve: Resolver)
    requires Mac(s, root, a) && HostTemps(s, a) && !s.fold && KernelLike(s, resolve) && cap <= PATH_MAX
    ensures Setting(s, root, a, cap, resolve)
  {
    MacFloor(s, root, a);
    MacHonest(s, root, a);
  }

  lemma TrackStart(s: Fs, a: Skeleton, text: Bytes)
    requires Floor(s, a) && Absolute(text)
    ensures Track(s, a, text, 0, InBase(AtRoot), ROOT, 0)
  {
    assert Split(text)[..0] == [];
  }

  /** A path that the mapper leaves unchanged is walked tamely and does not end in a host temp
      directory, whatever its names. */
  lemma UnchangedTame(s: Fs, root: Bytes, a: Skeleton, path: Bytes, cap: nat, resolve: Resolver, follow: bool)
    requires Mac(s, root, a) && KernelLike(s, resolve) && cap <= PATH_MAX && path != [] && path[0] == SLASH
    requires MapWith(root, path, cap, resolve).result.Unchanged? && Grounded(s, a, ROOT, path, follow)
    ensures Tame(s, path, follow)
  {
    if |path| < PATH_MAX {
      MacSetting(s, root, a, cap, resolve);
      TrackStart(s, a, path);
      GroundWhole(s, a, path, follow);
      LoopTame(s, root, a, path, 0, InBase(AtRoot), ROOT, follow, Trailing(path), 0, cap, resolve, 0);
      TameWhole(s, path, follow);
    }
  }

  lemma GroundWhole(s: Fs, a: Skeleton, path: Bytes, follow: bool)
    requires Scaffold(s) && s.profile.MacShim? && HostTemps(s, a) && Absolute(path) && Grounded(s, a, ROOT, path, follow)
    ensures GroundFrom(s, a, path, 0, ROOT, follow, Trailing(path), 0)
  {
    assert Split(path)[0..] == Split(path);
  }

  lemma TameWhole(s: Fs, path: Bytes, follow: bool)
    requires Scaffold(s) && s.profile.MacShim? && Absolute(path) && TameFromAt(s, path, 0, ROOT, follow, Trailing(path), 0)
    ensures Tame(s, path, follow)
  {
    assert Split(path)[0..] == Split(path);
  }

  /** The text the caller uses after mapping. */
  ghost function Effective(path: Bytes, r: MapResult): Bytes {
    if r.Mapped? then r.text else path
  }

  /** The lookup would not follow its last link, and the text the mapper last scanned names the
      `/tmp` alias with its last component. */
  ghost predicate OnAlias(root: Bytes, path: Bytes, cap: nat, resolve: Resolver, follow: bool) {
    0 < |path| < PATH_MAX && path[0] == SLASH && AliasEnd(Last(root, path, false, cap, resolve, 0).text, follow)
  }

  /** Both lookups find the same node. */
  ghost predicate SameNode(virt: Found, phys: Found) {
    virt.Found? && phys.Found? && phys.node == virt.node
  }

  lemma MappedRefines(s: Fs, root: Bytes, a: Skeleton, path: Bytes, cap: nat, resolve: Resolver, follow: bool)
    requires Mac(s, root, a) && KernelLike(s, resolve) && cap <= PATH_MAX && 0 < |path| < PATH_MAX && path[0] == SLASH
    requires VLook(s, path, follow).Found?
    requires var run := MapWith(root, path, cap, resolve); run.result.Mapped? && AllTame(s, run.queries) && Tame(s, run.result.text, follow)
    ensures SameNode(VLook(s, path, follow), Resolve(s, Physical, ROOT, MapWith(root, path, cap, resolve).result.text, follow, 0))
            <==> !OnAlias(root, path, cap, resolve, follow)
    ensures MapWith(root, path, cap, resolve).result.text != [] && MapWith(root, path, cap, resolve).result.text[0] == SLASH
  {
    var run := MapWith(root, path, cap, resolve);
    TameAgrees(s, run.result.text, follow);
    MacReady(s, root, a);
    if OnAlias(root, path, cap, resolve, follow) {
      MacListed(s, root, a);
      LoopOnAlias(s, root, a, path, cap, resolve);
    } else {
      LoopKeeps(s, root, a, path, cap, resolve, follow);
    }
  }

  lemma UnchangedNotAlias(s: Fs, root: Bytes, a: Skeleton, path: Bytes, cap: nat, resolve: Resolver, follow: bool)
    requires Mac(s, root, a) && cap <= PATH_MAX
    requires MapWith(root, path, cap, resolve).result.Unchanged?
    ensures !OnAlias(root, path, cap, resolve, follow)
  {
    if OnAlias(root, path, cap, resolve, follow) {
      AliasChanges(root, Last(root, path, false, cap, resolve, 0), cap, resolve);
    }
  }

  // ----- texts that are walked tamely -----

  /** The text is walked tamely: either that is given, or the mapper would leave it alone and it is
      grounded, from which it is derived. */
  ghost predicate Walked(s: Fs, root: Bytes, a: Skeleton, text: Bytes, follow: bool, cap: nat, resolve: Resolver)
    requires Closed(s)
  {
    || Tame(s, text, follow)
    || (text != [] && text[0] == SLASH && MapWith(root, text, cap, resolve).result.Unchanged? && Grounded(s, a, ROOT, text, follow))
  }

  ghost predicate AllWalked(s: Fs, root: Bytes, a: Skeleton, texts: seq<Bytes>, cap: nat, resolve: Resolver)
    requires Closed(s)
  {
    forall i :: 0 <= i < |texts| ==> Walked(s, root, a, texts[i], true, cap, resolve)
  }

  lemma WalkedTame(s: Fs, root: Bytes, a: Skeleton, text: Bytes, follow: bool, cap: nat, resolve: Resolver)
    requires Mac(s, root, a) && KernelLike(s, resolve) && cap <= PATH_MAX && Walked(s, root, a, text, follow, cap, resolve)
    ensures Tame(s, text, follow)
  {
    if !Tame(s, text, follow) {
      UnchangedTame(s, root, a, text, cap, resolve, follow);
    }
  }

  lemma AllWalkedTame(s: Fs, root: Bytes, a: Skeleton, texts: seq<Bytes>, cap: nat, resolve: Resolver)
    requires Mac(s, root, a) && KernelLike(s, resolve) && cap <= PATH_MAX && AllWalked(s, root, a, texts, cap, resolve)
    ensures AllTame(s, texts)
  {
    forall i | 0 <= i < |texts| ensures Tame(s, texts[i], true) {
      WalkedTame(s, root, a, texts[i], true, cap, resolve);
    }
  }

  /** The last round of the loop ended outside the temp roots. */
  ghost predicate EndsOutside(root: Bytes, path: Bytes, cap: nat, resolve: Resolver) {
    TempOf(ScanFrom(Split(Last(root, path, false, cap, resolve, 0).text), 0, InBase(AtRoot))).None?
  }

  /** A text that was rewritten and ends outside the temp roots is one that the mapper would leave
      alone: it only has to be grounded. */
  lemma RewrittenWalked(s: Fs, root: Bytes, a: Skeleton, path: Bytes, cap: nat, resolve: Resolver, follow: bool)
    requires Mac(s, root, a) && KernelLike(s, resolve) && cap <= PATH_MAX && 0 < |path| < PATH_MAX && path[0] == SLASH
    requires MapWith(root, path, cap, resolve).result.Mapped? && EndsOutside(root, path, cap, resolve)
    ensures var text := MapWith(root, path, cap, resolve).result.text;
            && text == Last(root, path, false, cap, resolve, 0).text
            && MapWith(root, text, cap, resolve).result.Unchanged?
            && (text != [] && text[0] == SLASH && Grounded(s, a, ROOT, text, follow) ==> Tame(s, text, follow))
  {
    var last := Last(root, path, false, cap, resolve, 0);
    var text := MapWith(root, path, cap, resolve).result.text;
    LastOutside(root, last, cap, resolve);
    if text != [] && text[0] == SLASH && Grounded(s, a, ROOT, text, follow) {
      UnchangedTame(s, root, a, text, cap, resolve, follow);
    }
  }

  lemma LastOutside(root: Bytes, last: LastRound, cap: nat, resolve: Resolver)
    requires var r := OneRound(root, last.text, last.rewritten, cap, resolve, last.asked); r.Over? && r.run.result.Mapped?
    requires TempOf(ScanFrom(Split(last.text), 0, InBase(AtRoot))).None?
    ensures OneRound(root, last.text, last.rewritten, cap, resolve, last.asked).run.result == Mapped(last.text)
    ensures MapWith(root, last.text, cap, resolve).result.Unchanged?
  {
    var cs := Split(last.text);
    ScanBounds(cs, 0, InBase(AtRoot));
    match ScanFrom(cs, 0, InBase(AtRoot))
    case Final(st) => assert OneRound(root, last.text, false, cap, resolve, 0).run.result == Unchanged;
    case Escaping(e) => AskedAt(root, last.text, e, cap, resolve, last.asked);
  }

  /** Refinement for absolute paths. Whenever the virtual view finds a node at `path` and the mapper
      answers, the physical view finds the same node at the text to use instead, except exactly
      where the path ends on the `/tmp` alias and is not followed. The text to use, and the
      questions on the way to it, are walked tamely; where the mapper would leave such a text alone,
      as it does with every path left unchanged and every text that ends outside the temp roots,
      being grounded is enough. */
  lemma MapRefinesVirtual(s: Fs, root: Bytes, a: Skeleton, path: Bytes, cap: nat, resolve: Resolver, follow: bool)
    requires Mac(s, root, a) && KernelLike(s, resolve) && cap <= PATH_MAX && path != [] && path[0] == SLASH
    requires Resolve(s, Virtual, ROOT, path, follow, 0).Found?
    requires var run := MapWith(root, path, cap, resolve);
             && !run.result.Fails?
             && (run.result.Mapped? ==> AllWalked(s, root, a, run.queries, cap, resolve))
             && Walked(s, root, a, Effective(path, run.result), follow, cap, resolve)
    ensures var phys := Resolve(s, Physical, ROOT, Effective(path, MapWith(root, path, cap, resolve).result), follow, 0);
            SameNode(Resolve(s, Virtual, ROOT, path, follow, 0), phys) <==> !OnAlias(root, path, cap, resolve, follow)
  {
    var run := MapWith(root, path, cap, resolve);
    WalkedTame(s, root, a, Effective(path, run.result), follow, cap, resolve);
    if run.result.Mapped? {
      AllWalkedTame(s, root, a, run.queries, cap, resolve);
      MappedRefines(s, root, a, path, cap, resolve, follow);
    } else {
      TameAgrees(s, path, follow);
      UnchangedNotAlias(s, root, a, path, cap, resolve, follow);
    }
  }
}
