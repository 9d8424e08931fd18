/** Reported path names lead back to the node they were made for. */
module FsPaths {
  import opened Text
  import opened FsState
  import opened FsTree

  /** Looking up `k` in directory `p` leads to `n` in the given view. */
  ghost predicate Listed(s: Fs, view: View, n: nat, p: nat, k: Bytes) {
    && IsDir(s, p) && Valid(s, n)
    && IsName(k) && |k| <= NAME_MAX && Key(s, k) == k
    && k in s.nodes[p].children
    && var e := s.nodes[p].children[k];
       Valid(s, e) && Enter(s, view, e) == n && (e == n || (IsDir(s, e) && IsDir(s, n)))
  }

  /** Each reported name on the way from `n` to the root is the name of an entry. */
  ghost predicate Sound(s: Fs, view: View, n: nat)
    requires Closed(s)
  {
    && Valid(s, n) && Ends(s, Reported(view), n)
    && var c := Chain(s, Reported(view), n);
       && c[|c| - 1] == ROOT
       && forall i :: 0 <= i < |c| - 1 ==>
            Up(s, Reported(view), c[i]) == Some(c[i + 1])
            && Listed(s, view, c[i], c[i + 1], NameAndParent(s, view, c[i]).value.0)
  }

  lemma SoundUp(s: Fs, view: View, n: nat)
    requires Closed(s) && Sound(s, view, n)
    ensures match NameAndParent(s, view, n)
            case None => n == ROOT
            case Some(r) => Sound(s, view, r.1) && Listed(s, view, n, r.1, r.0)
  {
    ChainUp(s, Reported(view), n);
    var c := Chain(s, Reported(view), n);
    ChainStart(s, Reported(view), c);
    if Up(s, Reported(view), n).Some? {
      var d := Chain(s, Reported(view), Up(s, Reported(view), n).value);
      assert c[0] == n && c[0 + 1] == d[0];
      forall i | 0 <= i < |d| - 1
        ensures Up(s, Reported(view), d[i]) == Some(d[i + 1])
        ensures Listed(s, view, d[i], d[i + 1], NameAndParent(s, view, d[i]).value.0)
      {
        assert c[i + 1] == d[i] && c[i + 1 + 1] == d[i + 1];
      }
      assert c[|c| - 1] == d[|d| - 1];
      assert Listed(s, view, c[0], c[0 + 1], NameAndParent(s, view, c[0]).value.0);
    }
  }

  lemma SoundCons(s: Fs, view: View, n: nat)
    requires Closed(s) && Valid(s, n)
    requires NameAndParent(s, view, n).Some?
    requires var r := NameAndParent(s, view, n).value; Sound(s, view, r.1) && Listed(s, view, n, r.1, r.0)
    ensures Sound(s, view, n)
  {
    var r := NameAndParent(s, view, n).value;
    var d := Chain(s, Reported(view), r.1);
    ChainCons(s, Reported(view), n, d);
    var c := Chain(s, Reported(view), n);
    forall i | 0 <= i < |c| - 1
      ensures Up(s, Reported(view), c[i]) == Some(c[i + 1])
      ensures Listed(s, view, c[i], c[i + 1], NameAndParent(s, view, c[i]).value.0)
    {
      if i > 0 {
        assert c[i] == d[i - 1] && c[i + 1] == d[i - 1 + 1];
      }
    }
  }

  /** Walking the reported names from the root arrives at the node, following no link. */
  lemma {:induction false} WalkNames(s: Fs, view: View, n: nat, follow: bool, slash: bool, links: nat)
    requires Closed(s) && Sound(s, view, n) && links <= MaxLinks(s)
    requires IsDir(s, n) || (!slash && !(follow && s.nodes[n].kind.Symlink?))
    ensures Walk(s, view, ROOT, FullNames(s, view, n), follow, slash, links) == Found(n, links)
    decreases |Chain(s, Reported(view), n)|
  {
    SoundUp(s, view, n);
    FullNamesUp(s, view, n);
    ChainUp(s, Reported(view), n);
    match NameAndParent(s, view, n)
    case None =>
    case Some(r) =>
      var k, p := r.0, r.1;
      WalkNames(s, view, p, true, true, links);
      WalkAppend(s, view, ROOT, FullNames(s, view, p), [k], follow, slash, links);
      WalkOne(s, view, n, p, k, follow, slash, links);
  }

  lemma WalkOne(s: Fs, view: View, n: nat, p: nat, k: Bytes, follow: bool, slash: bool, links: nat)
    requires Closed(s) && Listed(s, view, n, p, k) && links <= MaxLinks(s)
    requires IsDir(s, n) || (!slash && !(follow && s.nodes[n].kind.Symlink?))
    ensures Walk(s, view, p, [k], follow, slash, links) == Found(n, links)
  {
    var e := s.nodes[p].children[k];
    assert !(follow || slash) || FollowLink(s, view, p, e, links) == Found(e, links);
    assert Step(s, view, p, k, follow || slash, slash, links) == Found(n, links);
    assert [k][1..] == [];
    assert Walk(s, view, n, [], follow, slash, links) == Found(n, links);
  }

  lemma {:induction false} SoundNames(s: Fs, view: View, n: nat)
    requires Closed(s) && Sound(s, view, n)
    ensures forall k :: k in FullNames(s, view, n) ==> IsName(k)
    decreases |Chain(s, Reported(view), n)|
  {
    SoundUp(s, view, n);
    FullNamesUp(s, view, n);
    ChainUp(s, Reported(view), n);
    if NameAndParent(s, view, n).Some? {
      SoundNames(s, view, NameAndParent(s, view, n).value.1);
    }
  }

  lemma PathOfEnd(names: seq<Bytes>)
    requires forall k :: k in names ==> IsName(k)
    ensures !Trailing(PathOf(names))
  {
    if names != [] {
      var last := names[|names| - 1];
      assert last in names;
      var t := Slashed(names);
      assert t[|t| - 1] == last[|last| - 1];
      assert last[|last| - 1] in last;
    }
  }

  /** Looking up the reported path of a soundly named node gives the node, whatever
      directory the lookup starts from. */
  lemma ResolveFullPath(s: Fs, view: View, start: nat, n: nat, follow: bool)
    requires Closed(s) && Valid(s, start) && Sound(s, view, n)
    requires Enter(s, view, ROOT) == ROOT
    requires !(follow && s.nodes[n].kind.Symlink?)
    requires |FullPath(s, view, n)| < PathMax(s)
    ensures Resolve(s, view, start, FullPath(s, view, n), follow, 0) == Found(n, 0)
  {
    var names := FullNames(s, view, n);
    SoundNames(s, view, n);
    CompsPathOf(names);
    PathOfEnd(names);
    WalkNames(s, view, n, follow, false, 0);
  }

  // ----- the physical view -----

  lemma {:induction false} PhysicalSound(s: Fs, n: nat)
    requires WellFormed(s) && Linked(s, n)
    ensures Sound(s, Physical, n)
    decreases |Chain(s, Owner, n)|
  {
    assert NodeOk(s, n);
    if n == ROOT {
      ChainNil(s, Reported(Physical), n);
    } else {
      LinkedParent(s, n);
      var p := s.nodes[n].parent.value;
      ChainUp(s, Owner, n);
      PhysicalSound(s, p);
      var k := EntryName(s, p, n);
      assert NodeOk(s, p);
      assert EntryOk(s, p, k);
      SoundCons(s, Physical, n);
    }
  }

  // ----- the virtual view -----

  /** No mountpoint stands on the way from `n` to the root, `n` included. */
  ghost predicate Visible(s: Fs, n: nat) {
    && Closed(s) && Valid(s, n) && Ends(s, Owner, n)
    && forall i :: 0 <= i < |Chain(s, Owner, n)| ==> s.nodes[Chain(s, Owner, n)[i]].mountedBy.None?
  }

  lemma VisibleUp(s: Fs, n: nat)
    requires Closed(s) && Valid(s, n) && Ends(s, Owner, n)
    ensures match s.nodes[n].parent
            case None => Visible(s, n) <==> s.nodes[n].mountedBy.None?
            case Some(p) => Ends(s, Owner, p) && Valid(s, p)
                            && (Visible(s, n) <==> s.nodes[n].mountedBy.None? && Visible(s, p))
  {
    ChainUp(s, Owner, n);
    assert Up(s, Owner, n) == s.nodes[n].parent;
    if s.nodes[n].parent.Some? {
      var c, d := Chain(s, Owner, n), Chain(s, Owner, s.nodes[n].parent.value);
      assert c[0] == n;
      assert forall i :: 0 <= i < |d| ==> d[i] == c[i + 1];
      assert forall i :: 0 < i < |c| ==> c[i] == d[i - 1];
    }
  }

  /** No mount of any kind on the way from `n` to the root. */
  ghost predicate Plain(s: Fs, n: nat) {
    && Visible(s, n)
    && forall i :: 0 <= i < |Chain(s, Owner, n)| ==> s.nodes[Chain(s, Owner, n)[i]].virtualParent.None?
  }

  lemma PlainUp(s: Fs, n: nat)
    requires Plain(s, n)
    ensures s.nodes[n].virtualParent.None?
    ensures s.nodes[n].parent.Some? ==> Plain(s, s.nodes[n].parent.value)
  {
    VisibleUp(s, n);
    ChainUp(s, Owner, n);
    var c := Chain(s, Owner, n);
    assert c[0] == n;
    if s.nodes[n].parent.Some? {
      var d := Chain(s, Owner, s.nodes[n].parent.value);
      assert forall i :: 0 <= i < |d| ==> d[i] == c[i + 1];
    }
  }

  /** A mount target is reported in a plain, linked directory under the name of the
      mountpoint it covers. */
  ghost predicate TargetOk(s: Fs, t: nat)
    requires Valid(s, t) && s.nodes[t].virtualParent.Some?
  {
    var vp := s.nodes[t].virtualParent.value;
    && IsDir(s, t) && Visible(s, t) && Linked(s, t)
    && s.nodes[t].mountName.Some?
    && Plain(s, vp) && Linked(s, vp)
    && Listed(s, Virtual, t, vp, s.nodes[t].mountName.value)
  }

  ghost predicate MountpointOk(s: Fs, m: nat)
    requires Closed(s) && Valid(s, m) && s.nodes[m].mountedBy.Some?
  {
    assert NodeClosed(s.nodes[m], |s.nodes|);
    var t := s.nodes[m].mountedBy.value;
    IsDir(s, m) && s.nodes[t].virtualParent.Some? && s.nodes[t].virtualParent == s.nodes[m].parent
  }

  /** The mounts are in place: what the driver's guard keeps over a whole run. */
  ghost predicate Scaffold(s: Fs) {
    && WellFormed(s)
    && s.nodes[ROOT].mountedBy.None? && s.nodes[ROOT].virtualParent.None?
    && (forall n :: 0 <= n < |s.nodes| && s.nodes[n].virtualParent.Some? ==> TargetOk(s, n))
    && (forall n :: 0 <= n < |s.nodes| && s.nodes[n].mountedBy.Some? ==> MountpointOk(s, n))
  }

  lemma {:induction false} PlainSound(s: Fs, n: nat)
    requires WellFormed(s) && Plain(s, n) && Linked(s, n)
    ensures Sound(s, Virtual, n)
    ensures FullNames(s, Virtual, n) == (LinkedChain(s, n); FullNames(s, Physical, n))
    decreases |Chain(s, Owner, n)|
  {
    assert NodeOk(s, n);
    PlainUp(s, n);
    LinkedChain(s, n);
    FullNamesUp(s, Physical, n);
    VisibleUp(s, n);
    if n == ROOT {
      ChainNil(s, Reported(Virtual), n);
    } else {
      LinkedParent(s, n);
      var p := s.nodes[n].parent.value;
      ChainUp(s, Owner, n);
      PlainSound(s, p);
      var k := EntryName(s, p, n);
      assert NodeOk(s, p);
      assert EntryOk(s, p, k);
      SoundCons(s, Virtual, n);
      FullNamesUp(s, Virtual, n);
    }
  }

  /** Every linked node that no mount hides is soundly named in the virtual view. */
  lemma {:induction false} VirtualSound(s: Fs, n: nat)
    requires Scaffold(s) && Visible(s, n) && Linked(s, n)
    ensures Sound(s, Virtual, n)
    decreases |Chain(s, Owner, n)|
  {
    assert NodeOk(s, n);
    VisibleUp(s, n);
    if s.nodes[n].virtualParent.Some? {
      assert TargetOk(s, n);
      PlainSound(s, s.nodes[n].virtualParent.value);
      SoundCons(s, Virtual, n);
    } else if n == ROOT {
      ChainNil(s, Reported(Virtual), n);
    } else {
      LinkedParent(s, n);
      var p := s.nodes[n].parent.value;
      ChainUp(s, Owner, n);
      VirtualSound(s, p);
      var k := EntryName(s, p, n);
      assert NodeOk(s, p);
      assert EntryOk(s, p, k);
      SoundCons(s, Virtual, n);
    }
  }

  /** With the mounts in place, looking up the virtual path of a linked node that no mount
      hides returns exactly that node. */
  lemma FullPathInverse(s: Fs, start: nat, n: nat)
    requires Scaffold(s) && Valid(s, start) && Visible(s, n) && Linked(s, n)
    ensures Ends(s, Reported(Virtual), n)
    ensures |FullPath(s, Virtual, n)| < PathMax(s) ==>
              Resolve(s, Virtual, start, FullPath(s, Virtual, n), false, 0) == Found(n, 0)
  {
    VirtualSound(s, n);
    if |FullPath(s, Virtual, n)| < PathMax(s) {
      ScaffoldRoot(s);
      ResolveFullPath(s, Virtual, start, n, false);
    }
  }

  lemma ScaffoldRoot(s: Fs)
    requires Scaffold(s)
    ensures Plain(s, ROOT) && Linked(s, ROOT)
  {
    assert NodeOk(s, ROOT);
    ChainNil(s, Owner, ROOT);
  }
}
