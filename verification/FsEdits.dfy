/** Edits of the tree keep it well formed: creating, removing and moving an entry. */
module FsEdits {
  import opened Text
  import opened FsState
  import opened FsTree
  import opened FsOps
  import opened FsWellFormed

  // ----- creating -----

  lemma AddedChains(s: Fs, p: nat, key: Bytes, kind: Kind)
    requires WellFormed(s) && Legal(s, Create(p, key, kind, None))
    ensures var s' := Added(s, p, key, kind);
            && Closed(s')
            && (forall n :: 0 <= n < |s'.nodes| ==> Ends(s', FsTree.Owner, n))
            && (forall n :: 0 <= n < |s.nodes| ==> Chain(s', FsTree.Owner, n) == Chain(s, FsTree.Owner, n))
            && Chain(s', FsTree.Owner, |s.nodes|) == [|s.nodes|] + Chain(s, FsTree.Owner, p)
  {
    var s' := Added(s, p, key, kind);
    forall n | 0 <= n < |s'.nodes| ensures NodeClosed(s'.nodes[n], |s'.nodes|) {
      if n < |s.nodes| {
        assert NodeClosed(s.nodes[n], |s.nodes|);
      }
    }
    forall n | 0 <= n < |s.nodes|
      ensures Ends(s', FsTree.Owner, n) && Chain(s', FsTree.Owner, n) == Chain(s, FsTree.Owner, n)
    {
      ChainFrame(s, s', FsTree.Owner, n);
    }
    ChainCons(s', FsTree.Owner, |s.nodes|, Chain(s', FsTree.Owner, p));
  }

  lemma AddedNode(s: Fs, p: nat, key: Bytes, kind: Kind, n: nat)
    requires WellFormed(s) && Legal(s, Create(p, key, kind, None)) && n <= |s.nodes|
    ensures NodeOk(Added(s, p, key, kind), n)
  {
    var s' := Added(s, p, key, kind);
    var id := |s.nodes|;
    assert forall q :: 0 <= q < id ==> s'.nodes[q].kind == s.nodes[q].kind && s'.nodes[q].parent == s.nodes[q].parent;
    if n == id {
      assert s'.nodes[p].children[key] == id;
      assert HasEntry(s', p, id);
    } else {
      assert NodeOk(s, n);
      assert NodeClosed(s.nodes[n], |s.nodes|);
      AddedEntries(s, p, key, kind, n);
      if n != ROOT {
        var q := s.nodes[n].parent.value;
        AddedHas(s, p, key, kind, q, n);
      }
    }
  }

  lemma AddedHas(s: Fs, p: nat, key: Bytes, kind: Kind, q: nat, n: nat)
    requires WellFormed(s) && Legal(s, Create(p, key, kind, None)) && Valid(s, q) && Valid(s, n)
    ensures HasEntry(Added(s, p, key, kind), q, n) <==> HasEntry(s, q, n)
  {
    var s' := Added(s, p, key, kind);
    if HasEntry(s, q, n) {
      var k := EntryName(s, q, n);
      assert k in s'.nodes[q].children && s'.nodes[q].children[k] == n;
    }
    if HasEntry(s', q, n) {
      var k := EntryName(s', q, n);
      assert k in s.nodes[q].children && s.nodes[q].children[k] == n;
    }
  }

  lemma AddedEntries(s: Fs, p: nat, key: Bytes, kind: Kind, n: nat)
    requires WellFormed(s) && Legal(s, Create(p, key, kind, None)) && Valid(s, n)
    ensures var s' := Added(s, p, key, kind); forall k :: k in s'.nodes[n].children ==> EntryOk(s', n, k)
  {
    var s' := Added(s, p, key, kind);
    assert NodeOk(s, n);
    forall k | k in s'.nodes[n].children ensures EntryOk(s', n, k) {
      if n == p && k == key {
        assert forall j :: j in s.nodes[n].children ==> EntryOk(s, n, j);
      } else {
        assert EntryOk(s, n, k);
      }
    }
  }

  lemma CreateFormed(s: Fs, e: Edit)
    requires WellFormed(s) && e.Create? && Legal(s, e)
    ensures CanDo(s, e) && WellFormed(Do(s, e))
  {
    var s1 := Added(s, e.parent, e.key, e.kind);
    AddedChains(s, e.parent, e.key, e.kind);
    forall n | 0 <= n < |s1.nodes| ensures NodeOk(s1, n) {
      AddedNode(s, e.parent, e.key, e.kind, n);
    }
    forall f | f in s1.fds ensures FdOk(s1, s1.fds[f]) {
      assert FdOk(s, s.fds[f]);
    }
    assert WellFormed(s1);
    var s' := Do(s, e);
    assert SameTree(s1, s');
    FdsStay(s1, s');
    SameTreeFormed(s1, s');
  }

  // ----- removing -----

  /** `s'` is `s` without the entry that `e` removes. */
  ghost predicate IsRemoved(s: Fs, s': Fs, e: Edit)
    requires e.Remove?
  {
    && |s'.nodes| == |s.nodes| && s'.fold == s.fold && s'.cwd == s.cwd && s'.fds == s.fds
    && (forall n :: 0 <= n < |s.nodes| ==> NodeRemoved(s, e, n, s'.nodes[n]))
  }

  ghost predicate NodeRemoved(s: Fs, e: Edit, n: nat, b: Node)
    requires e.Remove? && Valid(s, n)
  {
    var a := s.nodes[n];
    b == a.(children := if n == e.parent then a.children - {e.key} else a.children,
            detached := a.detached || (n == e.id && IsDir(s, n)))
  }

  lemma RemovedIs(s: Fs, e: Edit)
    requires WellFormed(s) && e.Remove? && Legal(s, e)
    ensures CanDo(s, e) && IsRemoved(s, Do(s, e), e)
  {
  }

  lemma RemovedHas(s: Fs, s': Fs, e: Edit, q: nat, n: nat)
    requires WellFormed(s) && e.Remove? && Legal(s, e) && IsRemoved(s, s', e) && Valid(s, q) && Valid(s, n)
    ensures HasEntry(s', q, n) <==> HasEntry(s, q, n) && n != e.id
  {
    assert NodeRemoved(s, e, q, s'.nodes[q]);
    assert NodeOk(s, e.parent) && EntryOk(s, e.parent, e.key) && NodeOk(s, q);
    if HasEntry(s, q, n) {
      var k := EntryName(s, q, n);
      assert EntryOk(s, q, k);
      assert n != e.id ==> k in s'.nodes[q].children && s'.nodes[q].children[k] == n;
    }
    if HasEntry(s', q, n) {
      var k := EntryName(s', q, n);
      assert k in s.nodes[q].children && s.nodes[q].children[k] == n;
      assert EntryOk(s, q, k);
    }
  }

  lemma RemovedOk(s: Fs, s': Fs, e: Edit, n: nat)
    requires WellFormed(s) && e.Remove? && Legal(s, e) && IsRemoved(s, s', e) && Valid(s, n)
    ensures NodeOk(s', n)
  {
    assert NodeRemoved(s, e, n, s'.nodes[n]);
    assert NodeOk(s, n) && NodeOk(s, e.parent) && EntryOk(s, e.parent, e.key);
    if n != ROOT {
      var q := s.nodes[n].parent.value;
      RemovedHas(s, s', e, q, n);
      assert NodeRemoved(s, e, q, s'.nodes[q]);
    }
    forall k | k in s'.nodes[n].children ensures EntryOk(s', n, k) {
      assert EntryOk(s, n, k);
      assert NodeRemoved(s, e, s.nodes[n].children[k], s'.nodes[s.nodes[n].children[k]]);
    }
  }

  lemma RemovedChains(s: Fs, s': Fs, e: Edit)
    requires WellFormed(s) && e.Remove? && Legal(s, e) && IsRemoved(s, s', e)
    ensures Closed(s')
    ensures forall n :: 0 <= n < |s.nodes| ==> Ends(s', FsTree.Owner, n) && Chain(s', FsTree.Owner, n) == Chain(s, FsTree.Owner, n)
  {
    forall n | 0 <= n < |s'.nodes| ensures NodeClosed(s'.nodes[n], |s'.nodes|) {
      assert NodeRemoved(s, e, n, s'.nodes[n]);
      assert NodeClosed(s.nodes[n], |s.nodes|);
    }
    forall n | 0 <= n < |s.nodes|
      ensures Ends(s', FsTree.Owner, n) && Chain(s', FsTree.Owner, n) == Chain(s, FsTree.Owner, n)
    {
      var c := Chain(s, FsTree.Owner, n);
      forall i | 0 <= i < |c| ensures Up(s', FsTree.Owner, c[i]) == Up(s, FsTree.Owner, c[i]) {
        assert NodeRemoved(s, e, c[i], s'.nodes[c[i]]);
      }
      ChainFrame(s, s', FsTree.Owner, n);
    }
  }

  lemma RemoveFormed(s: Fs, e: Edit)
    requires WellFormed(s) && e.Remove? && Legal(s, e)
    ensures CanDo(s, e) && WellFormed(Do(s, e))
  {
    RemovedIs(s, e);
    RemovedFormed(s, Do(s, e), e);
  }

  lemma RemovedFormed(s: Fs, s': Fs, e: Edit)
    requires WellFormed(s) && e.Remove? && Legal(s, e) && IsRemoved(s, s', e)
    ensures WellFormed(s')
  {
    RemovedChains(s, s', e);
    forall n | 0 <= n < |s'.nodes| ensures NodeOk(s', n) {
      RemovedOk(s, s', e, n);
    }
    assert NodeRemoved(s, e, s.cwd, s'.nodes[s.cwd]);
    forall f | f in s'.fds ensures FdOk(s', s'.fds[f]) {
      assert FdOk(s, s.fds[f]);
      assert NodeRemoved(s, e, s.fds[f].node, s'.nodes[s.fds[f].node]);
    }
  }

  // ----- moving -----

  /** The node whose entry the move takes over. */
  ghost predicate Replaced(s: Fs, e: Edit, n: nat)
    requires e.Move? && Valid(s, e.toParent)
  {
    e.toKey in s.nodes[e.toParent].children && s.nodes[e.toParent].children[e.toKey] == n
  }

  ghost predicate NodeMoved(s: Fs, e: Edit, n: nat, b: Node)
    requires e.Move? && Valid(s, e.toParent) && Valid(s, n)
  {
    var a := s.nodes[n];
    var cut := if n == e.fromParent then a.children - {e.fromKey} else a.children;
    b == a.(children := if n == e.toParent then cut[e.toKey := e.id] else cut,
            parent := if n == e.id then Some(e.toParent) else a.parent,
            detached := a.detached || (IsDir(s, n) && Replaced(s, e, n)))
  }

  /** `s'` is `s` with the entry moved. */
  ghost predicate IsMoved(s: Fs, s': Fs, e: Edit)
    requires e.Move? && Valid(s, e.toParent)
  {
    && |s'.nodes| == |s.nodes| && s'.fold == s.fold && s'.cwd == s.cwd && s'.fds == s.fds
    && (forall n :: 0 <= n < |s.nodes| ==> NodeMoved(s, e, n, s'.nodes[n]))
  }

  lemma MovedIs(s: Fs, e: Edit)
    requires WellFormed(s) && e.Move? && Legal(s, e)
    ensures CanDo(s, e) && IsMoved(s, Do(s, e), e)
  {
    MoveDone(s, e);
    forall n | 0 <= n < |s.nodes| ensures NodeMoved(s, e, n, Do(s, e).nodes[n]) {
      MoveDoneAt(s, e, n);
    }
  }

  lemma MoveDone(s: Fs, e: Edit)
    requires WellFormed(s) && e.Move? && Legal(s, e)
    ensures CanDo(s, e) && |Do(s, e).nodes| == |s.nodes|
    ensures Do(s, e).fold == s.fold && Do(s, e).cwd == s.cwd && Do(s, e).fds == s.fds
  {
    assert NodeClosed(s.nodes[e.toParent], |s.nodes|);
  }

  /** Each update of a move shows at the node it is made to. */
  lemma MoveDoneAt(s: Fs, e: Edit, n: nat)
    requires e.Move? && CanDo(s, e) && Valid(s, n) && |Do(s, e).nodes| == |s.nodes|
    ensures NodeMoved(s, e, n, Do(s, e).nodes[n])
  {
    var s1 := Unlisted(s, e.fromParent, e.fromKey);
    var s2 := if e.toKey in s.nodes[e.toParent].children then Detach(s1, s.nodes[e.toParent].children[e.toKey]) else s1;
    assert s1.nodes[n] == if n == e.fromParent then s.nodes[n].(children := s.nodes[n].children - {e.fromKey}) else s.nodes[n];
    assert s2.nodes[n] == s1.nodes[n].(detached := s.nodes[n].detached || (IsDir(s, n) && Replaced(s, e, n)));
  }

  lemma MovedClosed(s: Fs, s': Fs, e: Edit)
    requires WellFormed(s) && e.Move? && Legal(s, e) && IsMoved(s, s', e)
    ensures Closed(s')
  {
    forall n | 0 <= n < |s'.nodes| ensures NodeClosed(s'.nodes[n], |s'.nodes|) {
      assert NodeMoved(s, e, n, s'.nodes[n]);
      assert NodeClosed(s.nodes[n], |s.nodes|);
    }
  }

  /** Where `x` first stands in a chain. */
  ghost function IndexIn(c: seq<nat>, x: nat): (i: nat)
    requires x in c
    ensures i < |c| && c[i] == x && x !in c[..i]
  {
    if c[0] == x then 0
    else
      var i := IndexIn(c[1..], x);
      assert c[..i + 1] == [c[0]] + c[1..][..i];
      i + 1
  }

  /** The owner chain of a node after a move: below the moved node it is continued with the
      chain of the new parent, elsewhere it is unchanged. */
  ghost function MovedChain(c: seq<nat>, id: nat, up: seq<nat>): seq<nat> {
    if id in c then c[..IndexIn(c, id)] + [id] + up else c
  }

  lemma {:induction false} MovedChainCons(n: nat, c: seq<nat>, id: nat, up: seq<nat>)
    ensures MovedChain([n] + c, id, up) == if n == id then [id] + up else [n] + MovedChain(c, id, up)
  {
    var d := [n] + c;
    assert d[1..] == c;
    if n == id {
      assert IndexIn(d, id) == 0;
      assert d[..0] == [];
    } else if id in c {
      var i := IndexIn(c, id);
      assert IndexIn(d, id) == i + 1;
      assert d[..i + 1] == [n] + c[..i];
      var front := c[..i];
      assert ([n] + front) + [id] + up == [n] + (front + [id] + up);
    }
  }

  lemma {:induction false} MoveChain(s: Fs, s': Fs, e: Edit, n: nat)
    requires WellFormed(s) && e.Move? && Legal(s, e) && IsMoved(s, s', e) && Closed(s') && Valid(s, n)
    ensures Ends(s', FsTree.Owner, n)
    ensures Chain(s', FsTree.Owner, n) == MovedChain(Chain(s, FsTree.Owner, n), e.id, Chain(s, FsTree.Owner, e.toParent))
    decreases |Chain(s, FsTree.Owner, n)|
  {
    ChainUp(s, FsTree.Owner, n);
    assert NodeMoved(s, e, n, s'.nodes[n]);
    var up := Chain(s, FsTree.Owner, e.toParent);
    if n == e.id {
      UpperChain(s, s', e);
      ChainCons(s', FsTree.Owner, n, up);
      MovedChainCons(n, Chain(s, FsTree.Owner, n)[1..], e.id, up);
      assert Chain(s, FsTree.Owner, n) == [n] + Chain(s, FsTree.Owner, n)[1..];
    } else if s.nodes[n].parent.None? {
      ChainNil(s', FsTree.Owner, n);
    } else {
      var p := s.nodes[n].parent.value;
      MoveChain(s, s', e, p);
      ChainCons(s', FsTree.Owner, n, Chain(s', FsTree.Owner, p));
      MovedChainCons(n, Chain(s, FsTree.Owner, p), e.id, up);
    }
  }

  /** The chain of the new parent does not change. */
  lemma UpperChain(s: Fs, s': Fs, e: Edit)
    requires WellFormed(s) && e.Move? && Legal(s, e) && IsMoved(s, s', e) && Closed(s')
    ensures Ends(s', FsTree.Owner, e.toParent) && Chain(s', FsTree.Owner, e.toParent) == Chain(s, FsTree.Owner, e.toParent)
  {
    var up := Chain(s, FsTree.Owner, e.toParent);
    forall i | 0 <= i < |up| ensures Up(s', FsTree.Owner, up[i]) == Up(s, FsTree.Owner, up[i]) {
      assert NodeMoved(s, e, up[i], s'.nodes[up[i]]);
    }
    ChainFrame(s, s', FsTree.Owner, e.toParent);
  }

  /** Who lists a node after a move. */
  ghost predicate ListsAfter(s: Fs, e: Edit, q: nat, n: nat)
    requires e.Move? && Valid(s, e.toParent)
  {
    if n == e.id then q == e.toParent else HasEntry(s, q, n) && !(Replaced(s, e, n) && q == e.toParent)
  }

  lemma MovedHasBack(s: Fs, s': Fs, e: Edit, q: nat, n: nat)
    requires WellFormed(s) && e.Move? && Legal(s, e) && IsMoved(s, s', e) && Valid(s, q) && Valid(s, n) && HasEntry(s', q, n)
    ensures ListsAfter(s, e, q, n)
  {
    assert NodeMoved(s, e, q, s'.nodes[q]);
    assert NodeOk(s, q) && NodeOk(s, e.fromParent) && NodeOk(s, e.toParent) && EntryOk(s, e.fromParent, e.fromKey);
    var k := EntryName(s', q, n);
    if !(q == e.toParent && k == e.toKey) {
      assert k in s.nodes[q].children && s.nodes[q].children[k] == n;
      assert EntryOk(s, q, k);
      assert Replaced(s, e, n) ==> EntryOk(s, e.toParent, e.toKey);
    }
  }

  lemma MovedHasOn(s: Fs, s': Fs, e: Edit, q: nat, n: nat)
    requires WellFormed(s) && e.Move? && Legal(s, e) && IsMoved(s, s', e) && Valid(s, q) && Valid(s, n) && ListsAfter(s, e, q, n)
    ensures HasEntry(s', q, n)
  {
    assert NodeMoved(s, e, q, s'.nodes[q]);
    assert NodeOk(s, q) && NodeOk(s, e.fromParent) && NodeOk(s, e.toParent) && EntryOk(s, e.fromParent, e.fromKey);
    var k := if n == e.id then e.toKey else EntryName(s, q, n);
    assert k in s'.nodes[q].children && s'.nodes[q].children[k] == n;
  }

  lemma MovedHas(s: Fs, s': Fs, e: Edit, q: nat, n: nat)
    requires WellFormed(s) && e.Move? && Legal(s, e) && IsMoved(s, s', e) && Valid(s, q) && Valid(s, n)
    ensures HasEntry(s', q, n) <==> ListsAfter(s, e, q, n)
  {
    if HasEntry(s', q, n) {
      MovedHasBack(s, s', e, q, n);
    }
    if ListsAfter(s, e, q, n) {
      MovedHasOn(s, s', e, q, n);
    }
  }

  lemma MovedEntry(s: Fs, s': Fs, e: Edit, n: nat, k: Bytes)
    requires WellFormed(s) && e.Move? && Legal(s, e) && IsMoved(s, s', e) && Valid(s, n)
    requires k in s'.nodes[n].children
    ensures EntryOk(s', n, k)
  {
    assert NodeMoved(s, e, n, s'.nodes[n]);
    assert NodeOk(s, n) && NodeOk(s, e.fromParent);
    assert EntryOk(s, e.fromParent, e.fromKey);
    var c := s'.nodes[n].children[k];
    assert c != e.id ==> EntryOk(s, n, k);
    assert NodeMoved(s, e, c, s'.nodes[c]);
    assert forall j :: j in s.nodes[n].children ==> EntryOk(s, n, j);
  }

  lemma MovedOk(s: Fs, s': Fs, e: Edit, n: nat)
    requires WellFormed(s) && e.Move? && Legal(s, e) && IsMoved(s, s', e) && Valid(s, n)
    ensures NodeOk(s', n)
  {
    assert NodeMoved(s, e, n, s'.nodes[n]);
    assert NodeOk(s, n) && NodeOk(s, e.fromParent) && NodeOk(s, e.toParent);
    assert EntryOk(s, e.fromParent, e.fromKey);
    assert Replaced(s, e, n) ==> EntryOk(s, e.toParent, e.toKey);
    assert NodeMoved(s, e, e.toParent, s'.nodes[e.toParent]);
    if n != ROOT {
      var q := s.nodes[n].parent.value;
      assert NodeMoved(s, e, q, s'.nodes[q]);
      MovedHas(s, s', e, s'.nodes[n].parent.value, n);
    }
    forall k | k in s'.nodes[n].children ensures EntryOk(s', n, k) {
      MovedEntry(s, s', e, n, k);
    }
  }

  lemma MovedFormed(s: Fs, s': Fs, e: Edit)
    requires WellFormed(s) && e.Move? && Legal(s, e) && IsMoved(s, s', e)
    ensures WellFormed(s')
  {
    MovedClosed(s, s', e);
    forall n | 0 <= n < |s'.nodes| ensures NodeOk(s', n) {
      MovedOk(s, s', e, n);
    }
    forall n | 0 <= n < |s'.nodes| ensures Ends(s', FsTree.Owner, n) {
      MoveChain(s, s', e, n);
    }
    assert NodeMoved(s, e, s.cwd, s'.nodes[s.cwd]);
    forall f | f in s'.fds ensures FdOk(s', s'.fds[f]) {
      assert FdOk(s, s.fds[f]);
      assert NodeMoved(s, e, s.fds[f].node, s'.nodes[s.fds[f].node]);
    }
  }

  lemma MoveFormed(s: Fs, e: Edit)
    requires WellFormed(s) && e.Move? && Legal(s, e)
    ensures CanDo(s, e) && WellFormed(Do(s, e))
  {
    MovedIs(s, e);
    MovedFormed(s, Do(s, e), e);
  }

  // ----- runs -----

  /** A legal edit keeps the tree well formed. */
  lemma EditFormed(s: Fs, e: Edit)
    requires WellFormed(s) && Legal(s, e)
    ensures CanDo(s, e) && WellFormed(Do(s, e))
  {
    match e
    case Create(_, _, _, _) => CreateFormed(s, e);
    case Move(_, _, _, _, _) => MoveFormed(s, e);
    case Remove(_, _, _) => RemoveFormed(s, e);
    case _ => QuietFormed(s, e);
  }

  /** One call: the state afterwards and what the caller gets. */
  ghost function Apply(s: Fs, op: Op): (r: (Fs, Outcome))
    requires WellFormed(s)
    ensures WellFormed(r.0)
    ensures r.1.Failed? ==> r.0 == s
  {
    var v := Decide(s, op);
    DecideSensible(s, op);
    EditFormed(s, v.edit);
    (Do(s, v.edit), v.outcome)
  }

  /** The state after a run of calls. */
  ghost function After(s: Fs, ops: seq<Op>): (r: Fs)
    requires WellFormed(s)
    ensures WellFormed(r)
    decreases |ops|
  {
    if ops == [] then s else After(Apply(s, ops[0]).0, ops[1..])
  }

  /** What the calls of a run return. */
  ghost function Outcomes(s: Fs, ops: seq<Op>): seq<Outcome>
    requires WellFormed(s)
    decreases |ops|
  {
    if ops == [] then [] else [Apply(s, ops[0]).1] + Outcomes(Apply(s, ops[0]).0, ops[1..])
  }
}
