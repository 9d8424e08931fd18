/** Trees written down node by node, parents first. */
module FsSprout {
  import opened Text
  import opened FsState
  import opened FsTree
  import opened FsPaths
  import opened FsReach
  import opened FsIsolation

  function Plainly(kind: Kind, parent: Option<nat>, children: map<Bytes, nat>): Node {
    Node(kind, parent, children, None, None, None, false)
  }

  /** Node `n` is listed in an earlier node, and lists what it should. */
  ghost predicate SproutNode(s: Fs, n: nat)
    requires Valid(s, n)
  {
    var nd := s.nodes[n];
    && NodeClosed(nd, |s.nodes|) && !nd.detached && (nd.children != map[] ==> IsDir(s, n))
    && (forall k :: k in nd.children ==> EntryOk(s, n, k))
    && (n == ROOT <==> nd.parent.None?)
    && (n != ROOT ==> nd.parent.value < n && IsDir(s, nd.parent.value) && HasEntry(s, nd.parent.value, n))
  }

  ghost predicate Sprout(s: Fs) {
    && IsDir(s, ROOT) && s.cwd == ROOT && s.fds == map[]
    && (forall n: nat :: Valid(s, n) ==> SproutNode(s, n))
  }

  lemma {:induction false} SproutEnds(s: Fs, n: nat)
    requires Sprout(s) && Closed(s) && Valid(s, n)
    ensures Ends(s, FsTree.Owner, n)
  {
    assert SproutNode(s, n);
    if n == ROOT {
      ChainNil(s, FsTree.Owner, n);
    } else {
      var p := s.nodes[n].parent.value;
      SproutEnds(s, p);
      ChainCons(s, FsTree.Owner, n, Chain(s, FsTree.Owner, p));
    }
  }

  /** Such a tree is well formed, and everything in it is linked. */
  lemma SproutFormed(s: Fs)
    requires Sprout(s)
    ensures WellFormed(s)
    ensures forall n: nat :: Valid(s, n) ==> Linked(s, n)
  {
    SproutClosed(s);
    forall n: nat | Valid(s, n) ensures NodeOk(s, n) && Ends(s, FsTree.Owner, n) && Linked(s, n) {
      assert SproutNode(s, n);
      SproutEnds(s, n);
    }
  }

  lemma SproutClosed(s: Fs)
    requires Sprout(s)
    ensures Closed(s)
  {
    forall n | 0 <= n < |s.nodes| ensures NodeClosed(s.nodes[n], |s.nodes|) {
      assert SproutNode(s, n);
    }
  }

  /** Visibility is handed down. */
  lemma SproutVisible(s: Fs, n: nat)
    requires Sprout(s) && WellFormed(s) && Valid(s, n)
    ensures n == ROOT ==> (Visible(s, n) <==> s.nodes[n].mountedBy.None?)
    ensures n == ROOT ==> (Plain(s, n) <==> s.nodes[n].mountedBy.None? && s.nodes[n].virtualParent.None?)
    ensures n != ROOT ==> var p := s.nodes[n].parent.value; Visible(s, n) <==> s.nodes[n].mountedBy.None? && Visible(s, p)
    ensures n != ROOT ==> var p := s.nodes[n].parent.value;
                          s.nodes[n].mountedBy.None? && s.nodes[n].virtualParent.None? && Plain(s, p) ==> Plain(s, n)
  {
    assert SproutNode(s, n);
    VisibleUp(s, n);
    ChainUp(s, FsTree.Owner, n);
    var c := Chain(s, FsTree.Owner, n);
    assert c[0] == n;
    if n != ROOT {
      var d := Chain(s, FsTree.Owner, s.nodes[n].parent.value);
      assert forall i :: 0 < i < |c| ==> c[i] == d[i - 1];
    }
  }
}
