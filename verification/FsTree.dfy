/** Parent chains, reported path names and the well-formedness of the node tree. */
module FsTree {
  import opened Text
  import opened FsState

  // ----- chains -----

  /** Which way a chain climbs: along the owning directories, or along the names that
      `full_path` reports in a view. */
  datatype Axis = Owner | Reported(view: View)

  ghost predicate HasEntry(s: Fs, p: nat, n: nat) {
    Valid(s, p) && exists k :: k in s.nodes[p].children && s.nodes[p].children[k] == n
  }

  /** The name under which `p` lists `n`. */
  ghost function EntryName(s: Fs, p: nat, n: nat): (k: Bytes)
    requires HasEntry(s, p, n)
    ensures k in s.nodes[p].children && s.nodes[p].children[k] == n
  {
    var k :| k in s.nodes[p].children && s.nodes[p].children[k] == n;
    k
  }

  /** The name `n` is reported under and the node it is reported in, if any. */
  ghost function NameAndParent(s: Fs, view: View, n: nat): (r: Option<(Bytes, nat)>)
    requires Closed(s) && Valid(s, n)
    ensures r.Some? ==> Valid(s, r.value.1)
  {
    var nd := s.nodes[n];
    assert NodeClosed(nd, |s.nodes|);
    if view.Virtual? && nd.virtualParent.Some? then
      Some((match nd.mountName case Some(m) => m case None => [], nd.virtualParent.value))
    else if nd.parent.Some? && HasEntry(s, nd.parent.value, n) then
      Some((EntryName(s, nd.parent.value, n), nd.parent.value))
    else None
  }

  ghost function Up(s: Fs, axis: Axis, n: nat): (r: Option<nat>)
    requires Closed(s) && Valid(s, n)
    ensures r.Some? ==> Valid(s, r.value)
  {
    assert NodeClosed(s.nodes[n], |s.nodes|);
    match axis
    case Owner => s.nodes[n].parent
    case Reported(view) =>
      match NameAndParent(s, view, n)
      case Some(r) => Some(r.1)
      case None => None
  }

  /** `c` climbs from its first element to a node from which there is no way up. */
  ghost predicate IsChain(s: Fs, axis: Axis, c: seq<nat>)
    requires Closed(s)
  {
    && |c| > 0
    && (forall i :: 0 <= i < |c| ==> Valid(s, c[i]))
    && (forall i :: 0 <= i < |c| - 1 ==> Up(s, axis, c[i]) == Some(c[i + 1]))
    && Up(s, axis, c[|c| - 1]) == None
  }

  /** Climbing from `n` ends, so a loop along the axis terminates. */
  ghost predicate Ends(s: Fs, axis: Axis, n: nat)
    requires Closed(s)
  {
    exists c :: IsChain(s, axis, c) && c[0] == n
  }

  ghost function Chain(s: Fs, axis: Axis, n: nat): (c: seq<nat>)
    requires Closed(s) && Ends(s, axis, n)
    ensures IsChain(s, axis, c) && c[0] == n
  {
    var c :| IsChain(s, axis, c) && c[0] == n;
    c
  }

  lemma ChainStart(s: Fs, axis: Axis, c: seq<nat>)
    requires Closed(s) && IsChain(s, axis, c)
    ensures Up(s, axis, c[0]) == if |c| == 1 then None else Some(c[1])
  {
    if |c| == 1 {
      assert c[|c| - 1] == c[0];
    } else {
      assert Up(s, axis, c[0]) == Some(c[0 + 1]);
    }
  }

  lemma {:induction false} ChainUnique(s: Fs, axis: Axis, c: seq<nat>, d: seq<nat>)
    requires Closed(s) && IsChain(s, axis, c) && IsChain(s, axis, d) && c[0] == d[0]
    ensures c == d
    decreases |c|
  {
    ChainStart(s, axis, c);
    ChainStart(s, axis, d);
    if |c| == 1 {
      assert c == [c[0]] && d == [d[0]];
    } else {
      ChainTail(s, axis, c);
      ChainTail(s, axis, d);
      ChainUnique(s, axis, c[1..], d[1..]);
      assert c == [c[0]] + c[1..];
      assert d == [d[0]] + d[1..];
    }
  }

  lemma ChainTail(s: Fs, axis: Axis, c: seq<nat>)
    requires Closed(s) && IsChain(s, axis, c) && |c| > 1
    ensures IsChain(s, axis, c[1..])
  {
    var t := c[1..];
    forall i | 0 <= i < |t| - 1
      ensures Up(s, axis, t[i]) == Some(t[i + 1])
    {
      assert Up(s, axis, c[i + 1]) == Some(c[i + 2]);
    }
  }

  lemma {:induction false} ChainDrop(s: Fs, axis: Axis, c: seq<nat>, k: nat)
    requires Closed(s) && IsChain(s, axis, c) && k < |c|
    ensures IsChain(s, axis, c[k..]) && c[k..][0] == c[k]
  {
    if k == 0 {
      assert c[0..] == c;
    } else {
      ChainDrop(s, axis, c, k - 1);
      ChainTail(s, axis, c[k - 1..]);
      assert c[k - 1..][1..] == c[k..];
    }
  }

  lemma ChainCons(s: Fs, axis: Axis, n: nat, c: seq<nat>)
    requires Closed(s) && Valid(s, n) && IsChain(s, axis, c) && Up(s, axis, n) == Some(c[0])
    ensures IsChain(s, axis, [n] + c) && Ends(s, axis, n) && Chain(s, axis, n) == [n] + c
  {
    var d := [n] + c;
    forall i | 0 <= i < |d| - 1
      ensures Up(s, axis, d[i]) == Some(d[i + 1])
    {
      if i > 0 {
        assert Up(s, axis, c[i - 1]) == Some(c[i]);
      }
    }
    assert IsChain(s, axis, d) && d[0] == n;
    ChainUnique(s, axis, Chain(s, axis, n), d);
  }

  lemma ChainNil(s: Fs, axis: Axis, n: nat)
    requires Closed(s) && Valid(s, n) && Up(s, axis, n) == None
    ensures IsChain(s, axis, [n]) && Ends(s, axis, n) && Chain(s, axis, n) == [n]
  {
    assert IsChain(s, axis, [n]) && [n][0] == n;
    ChainUnique(s, axis, Chain(s, axis, n), [n]);
  }

  /** The chain of a node is the node followed by the chain of the next one up. */
  lemma ChainUp(s: Fs, axis: Axis, n: nat)
    requires Closed(s) && Valid(s, n) && Ends(s, axis, n)
    ensures match Up(s, axis, n)
            case None => Chain(s, axis, n) == [n]
            case Some(p) => Ends(s, axis, p) && Chain(s, axis, n) == [n] + Chain(s, axis, p)
  {
    var c := Chain(s, axis, n);
    if |c| == 1 {
      assert c[|c| - 1] == c[0];
      assert c == [n];
    } else {
      assert Up(s, axis, c[0]) == Some(c[1]);
      ChainTail(s, axis, c);
      assert IsChain(s, axis, c[1..]) && c[1..][0] == c[1];
      ChainUnique(s, axis, Chain(s, axis, c[1]), c[1..]);
      assert c == [n] + c[1..];
    }
  }

  /** A chain along which nothing changed is still a chain. */
  lemma ChainFrame(s: Fs, s': Fs, axis: Axis, n: nat)
    requires Closed(s) && Closed(s') && Ends(s, axis, n) && |s.nodes| <= |s'.nodes|
    requires forall i :: 0 <= i < |Chain(s, axis, n)| ==> Up(s', axis, Chain(s, axis, n)[i]) == Up(s, axis, Chain(s, axis, n)[i])
    ensures Ends(s', axis, n) && Chain(s', axis, n) == Chain(s, axis, n)
  {
    var c := Chain(s, axis, n);
    forall i | 0 <= i < |c| - 1
      ensures Up(s', axis, c[i]) == Some(c[i + 1])
    {
      assert Up(s, axis, c[i]) == Some(c[i + 1]);
    }
    assert IsChain(s', axis, c) && c[0] == n;
    ChainUnique(s', axis, Chain(s', axis, n), c);
  }

  // ----- reported names -----

  /** The names met while climbing `c`, outermost first. */
  ghost function NamesAlong(s: Fs, view: View, c: seq<nat>): seq<Bytes>
    requires Closed(s) && IsChain(s, Reported(view), c)
  {
    if |c| == 1 then []
    else
      assert Up(s, Reported(view), c[0]) == Some(c[1]);
      ChainTail(s, Reported(view), c);
      NamesAlong(s, view, c[1..]) + [NameAndParent(s, view, c[0]).value.0]
  }

  ghost function FullNames(s: Fs, view: View, n: nat): seq<Bytes>
    requires Closed(s) && Ends(s, Reported(view), n)
  {
    NamesAlong(s, view, Chain(s, Reported(view), n))
  }

  /** The canonical text of a node in a view. */
  ghost function FullPath(s: Fs, view: View, n: nat): Bytes
    requires Closed(s) && Ends(s, Reported(view), n)
  {
    PathOf(FullNames(s, view, n))
  }

  lemma FullNamesUp(s: Fs, view: View, n: nat)
    requires Closed(s) && Valid(s, n) && Ends(s, Reported(view), n)
    ensures match NameAndParent(s, view, n)
            case None => FullNames(s, view, n) == []
            case Some(r) => Ends(s, Reported(view), r.1) && FullNames(s, view, n) == FullNames(s, view, r.1) + [r.0]
  {
    ChainUp(s, Reported(view), n);
    var np := NameAndParent(s, view, n);
    if np.Some? {
      assert Up(s, Reported(view), n) == Some(np.value.1);
      assert Chain(s, Reported(view), n)[1..] == Chain(s, Reported(view), np.value.1);
    }
  }

  // ----- well-formedness -----

  ghost predicate EntryOk(s: Fs, p: nat, k: Bytes)
    requires Valid(s, p) && k in s.nodes[p].children
  {
    var c := s.nodes[p].children[k];
    && Valid(s, c) && s.nodes[c].parent == Some(p)
    && IsName(k) && |k| <= NAME_MAX && Key(s, k) == k
    && (forall k' :: k' in s.nodes[p].children && s.nodes[p].children[k'] == c ==> k' == k)
  }

  ghost predicate NodeOk(s: Fs, n: nat)
    requires Valid(s, n)
  {
    var nd := s.nodes[n];
    && (n == ROOT <==> nd.parent.None?)
    && (nd.parent.Some? ==> IsDir(s, nd.parent.value))
    && (nd.children != map[] ==> IsDir(s, n) && !nd.detached)
    && (nd.detached ==> IsDir(s, n))
    && (n == ROOT ==> IsDir(s, n) && !nd.detached)
    && (n != ROOT && IsDir(s, n) ==> (nd.detached <==> !HasEntry(s, nd.parent.value, n)))
    && (forall k :: k in nd.children ==> EntryOk(s, n, k))
  }

  ghost predicate FdOk(s: Fs, e: FdEntry) {
    match e
    case FileFd(n, _, _) => Valid(s, n) && s.nodes[n].kind.File?
    case DirFd(n) => IsDir(s, n)
  }

  /** Parent pointers and entries agree, every node has at most one entry, owner chains
      end, only directories have entries, a directory other than the root has an entry
      exactly when it is not detached, and detached directories are empty. */
  ghost predicate WellFormed(s: Fs) {
    && Closed(s)
    && (forall n :: 0 <= n < |s.nodes| ==> NodeOk(s, n))
    && (forall n :: 0 <= n < |s.nodes| ==> Ends(s, Owner, n))
    && IsDir(s, s.cwd)
    && (forall f :: f in s.fds ==> FdOk(s, s.fds[f]))
  }

  /** Listed in its parent, or the root. */
  ghost predicate Linked(s: Fs, n: nat) {
    Valid(s, n) && (n == ROOT || (s.nodes[n].parent.Some? && HasEntry(s, s.nodes[n].parent.value, n)))
  }

  /** The parent of a linked node is linked. */
  lemma LinkedParent(s: Fs, n: nat)
    requires WellFormed(s) && Linked(s, n) && n != ROOT
    ensures s.nodes[n].parent.Some? && Linked(s, s.nodes[n].parent.value) && IsDir(s, s.nodes[n].parent.value)
    ensures !s.nodes[s.nodes[n].parent.value].detached
  {
    assert NodeOk(s, n);
    var p := s.nodes[n].parent.value;
    assert NodeOk(s, p);
    var k := EntryName(s, p, n);
    assert k in s.nodes[p].children;
  }

  /** For a linked node the physical names climb along the owners up to the root. */
  lemma {:induction false} LinkedChain(s: Fs, n: nat)
    requires WellFormed(s) && Linked(s, n)
    ensures Ends(s, Owner, n) && Ends(s, Reported(Physical), n)
    ensures Chain(s, Reported(Physical), n) == Chain(s, Owner, n)
    decreases |Chain(s, Owner, n)|
  {
    assert NodeOk(s, n);
    ChainUp(s, Owner, n);
    if n == ROOT {
      ChainNil(s, Reported(Physical), n);
    } else {
      LinkedParent(s, n);
      var p := s.nodes[n].parent.value;
      assert Ends(s, Owner, p);
      LinkedChain(s, p);
      assert Up(s, Reported(Physical), n) == Some(p);
      ChainCons(s, Reported(Physical), n, Chain(s, Reported(Physical), p));
    }
  }

  /** Every owner chain of a well-formed tree ends at the root. */
  lemma ChainRoot(s: Fs, n: nat)
    requires WellFormed(s) && Valid(s, n)
    ensures var c := Chain(s, Owner, n); c[|c| - 1] == ROOT
  {
    var c := Chain(s, Owner, n);
    assert NodeOk(s, c[|c| - 1]);
  }
}
