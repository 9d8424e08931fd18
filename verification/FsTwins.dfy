/** Noninterference: what lies below a mountpoint does not show in any outcome. */
module FsTwins {
  import opened Text
  import opened FsState
  import opened FsTree
  import opened FsPaths
  import opened FsReach
  import opened FsOps
  import opened FsWellFormed
  import opened FsEdits
  import opened FsIsolation

  /** A node as it shows outside: of a mountpoint everything but its entries. */
  ghost function Face(nd: Node): Node {
    if nd.mountedBy.Some? then nd.(children := map[]) else nd
  }

  ghost predicate TwinNode(s: Fs, t: Fs, n: nat)
    requires WellFormed(s) && WellFormed(t) && Valid(s, n) && Valid(t, n)
  {
    && (Hidden(s, n) <==> Hidden(t, n))
    && (!Hidden(s, n) ==> Face(s.nodes[n]) == Face(t.nodes[n]))
  }

  /** Two models that differ only below mountpoints. */
  ghost predicate Twins(s: Fs, t: Fs) {
    && Isolated(s) && Isolated(t) && |s.nodes| == |t.nodes|
    && s.profile == t.profile && s.fold == t.fold && s.cwd == t.cwd && s.fds == t.fds && s.nextFd == t.nextFd
    && (forall n: nat {:trigger TwinNode(s, t, n)} :: Valid(s, n) ==> TwinNode(s, t, n))
  }

  lemma TwinVisible(s: Fs, t: Fs, n: nat)
    requires Twins(s, t) && Visible(s, n)
    ensures Visible(t, n) && s.nodes[n] == t.nodes[n]
  {
    assert TwinNode(s, t, n);
    ParentNotHidden(s, n);
    VisibleSelf(s, n);
    VisibleUp(t, n);
  }

  lemma TwinSym(s: Fs, t: Fs)
    requires Twins(s, t)
    ensures Twins(t, s)
  {
    forall n: nat | Valid(t, n) ensures TwinNode(t, s, n) {
      assert TwinNode(s, t, n);
    }
  }

  /** A child of a visible directory shows the same face. */
  lemma TwinChild(s: Fs, t: Fs, p: nat, k: Bytes)
    requires Twins(s, t) && Visible(s, p) && k in s.nodes[p].children
    ensures k in t.nodes[p].children && t.nodes[p].children[k] == s.nodes[p].children[k]
    ensures var c := s.nodes[p].children[k];
            Valid(s, c) && Valid(t, c) && Face(s.nodes[c]) == Face(t.nodes[c]) && s.nodes[c].parent == Some(p) && t.nodes[c].parent == Some(p)
  {
    TwinVisible(s, t, p);
    var c := s.nodes[p].children[k];
    assert NodeOk(s, p) && EntryOk(s, p, k);
    assert NodeOk(t, p) && EntryOk(t, p, k);
    assert TwinNode(s, t, c);
  }

  // ----- lookups -----

  lemma {:induction false} ResolveTwin(s: Fs, t: Fs, start: nat, path: Bytes, follow: bool, links: nat)
    requires Twins(s, t) && Visible(s, start) && links <= MaxLinks(s)
    ensures Valid(t, start) && Resolve(t, Virtual, start, path, follow, links) == Resolve(s, Virtual, start, path, follow, links)
    decreases MaxLinks(s) - links, 3, 0
  {
    TwinVisible(s, t, start);
    if 0 < |path| < PathMax(s) {
      var from := if path[0] == SLASH then ROOT else start;
      TwinVisible(s, t, from);
      VisibleSelf(s, from);
      WalkTwin(s, t, from, Comps(path), follow, Trailing(path), links);
    }
  }

  lemma {:induction false} WalkTwin(s: Fs, t: Fs, cur: nat, comps: seq<Bytes>, follow: bool, slash: bool, links: nat)
    requires Twins(s, t) && Visible(s, cur) && links <= MaxLinks(s)
    ensures Valid(t, cur) && Walk(t, Virtual, cur, comps, follow, slash, links) == Walk(s, Virtual, cur, comps, follow, slash, links)
    decreases MaxLinks(s) - links, 2, |comps|
  {
    TwinVisible(s, t, cur);
    if comps == [] {
    } else if comps[0] == DOTDOT {
      EnterParent(s, cur);
      var p := ParentOf(s, Virtual, cur);
      TwinVisible(s, t, p);
      WalkTwin(s, t, FsState.Enter(s, Virtual, p), comps[1..], follow, slash, links);
    } else {
      var last := |comps| == 1;
      var f, w := !last || follow || slash, !last || slash;
      StepTwin(s, t, cur, comps[0], f, w, links);
      StepVisible(s, cur, comps[0], f, w, links);
      var next := Step(s, Virtual, cur, comps[0], f, w, links);
      if next.Found? {
        WalkTwin(s, t, next.node, comps[1..], follow, slash, next.links);
      }
    }
  }

  /** A node that lookups cannot tell apart in the two models. */
  ghost predicate Alike(s: Fs, t: Fs, n: nat) {
    Valid(s, n) && Valid(t, n) && t.nodes[n].kind == s.nodes[n].kind && t.nodes[n].mountedBy == s.nodes[n].mountedBy
  }

  lemma FollowSame(s: Fs, t: Fs, dir: nat, link: nat, links: nat)
    requires Closed(s) && Closed(t) && s.profile == t.profile && Valid(s, dir) && Valid(t, dir) && links <= MaxLinks(s)
    requires Alike(s, t, link)
    requires s.nodes[link].kind.Symlink? && links + 1 <= MaxLinks(s) ==>
               Resolve(t, Virtual, dir, s.nodes[link].kind.target, true, links + 1)
               == Resolve(s, Virtual, dir, s.nodes[link].kind.target, true, links + 1)
    ensures FollowLink(t, Virtual, dir, link, links) == FollowLink(s, Virtual, dir, link, links)
  {
  }

  lemma StepSame(s: Fs, t: Fs, cur: nat, name: Bytes, follow: bool, wantDir: bool, links: nat)
    requires Closed(s) && Closed(t) && s.profile == t.profile && s.fold == t.fold && links <= MaxLinks(s)
    requires Valid(s, cur) && Valid(t, cur) && s.nodes[cur] == t.nodes[cur]
    requires Key(s, name) in s.nodes[cur].children ==>
               var c := s.nodes[cur].children[Key(s, name)];
               var r := FollowLink(s, Virtual, cur, c, links);
               && Alike(s, t, c) && FollowLink(t, Virtual, cur, c, links) == r && (r.Found? ==> Alike(s, t, r.node))
    ensures Step(t, Virtual, cur, name, follow, wantDir, links) == Step(s, Virtual, cur, name, follow, wantDir, links)
  {
    assert Key(t, name) == Key(s, name);
  }

  /** What a link or a plain entry leads to is alike. */
  lemma {:induction false} FollowTwin(s: Fs, t: Fs, dir: nat, key: Bytes, links: nat)
    requires Twins(s, t) && Visible(s, dir) && key in s.nodes[dir].children && links <= MaxLinks(s)
    ensures var c := s.nodes[dir].children[key];
            && Alike(s, t, c) && Valid(t, dir)
            && var r := FollowLink(s, Virtual, dir, c, links);
            FollowLink(t, Virtual, dir, c, links) == r && (r.Found? ==> Alike(s, t, r.node))
    decreases MaxLinks(s) - links, 0, 0
  {
    TwinVisible(s, t, dir);
    TwinChild(s, t, dir, key);
    var c := s.nodes[dir].children[key];
    if s.nodes[c].kind.Symlink? {
      if links + 1 <= MaxLinks(s) {
        ResolveTwin(s, t, dir, s.nodes[c].kind.target, true, links + 1);
      }
      FollowVisible(s, dir, c, links);
      var r := FollowLink(s, Virtual, dir, c, links);
      if r.Found? {
        TwinVisible(s, t, r.node);
      }
    }
    FollowSame(s, t, dir, c, links);
  }

  lemma {:induction false} StepTwin(s: Fs, t: Fs, cur: nat, name: Bytes, follow: bool, wantDir: bool, links: nat)
    requires Twins(s, t) && Visible(s, cur) && links <= MaxLinks(s)
    ensures Valid(t, cur) && Step(t, Virtual, cur, name, follow, wantDir, links) == Step(s, Virtual, cur, name, follow, wantDir, links)
    decreases MaxLinks(s) - links, 1, 0
  {
    TwinVisible(s, t, cur);
    if Key(s, name) in s.nodes[cur].children {
      FollowTwin(s, t, cur, Key(s, name), links);
    }
    StepSame(s, t, cur, name, follow, wantDir, links);
  }

  lemma FindTwin(s: Fs, t: Fs, start: Start, path: Bytes, follow: bool)
    requires Twins(s, t) && Ready(s) && Ready(t)
    ensures Find(t, start, path, follow) == Find(s, start, path, follow)
  {
    StartVisible(s, start);
    var from := StartNode(s, start);
    if from.Found? {
      ResolveTwin(s, t, from.node, path, follow, 0);
    }
    FindSame(s, t, start, path, follow);
  }

  lemma FindSame(s: Fs, t: Fs, start: Start, path: Bytes, follow: bool)
    requires Ready(s) && Ready(t) && s.profile == t.profile && s.cwd == t.cwd && s.fds == t.fds
    requires var from := StartNode(s, start);
             from.Found? ==> Valid(s, from.node) && Valid(t, from.node)
                             && Resolve(t, Virtual, from.node, path, follow, 0) == Resolve(s, Virtual, from.node, path, follow, 0)
    ensures Find(t, start, path, follow) == Find(s, start, path, follow)
  {
  }

  lemma ParentSame(s: Fs, t: Fs, start: Start, path: Bytes)
    requires Ready(s) && Ready(t) && s.profile == t.profile && s.cwd == t.cwd && s.fds == t.fds && |s.nodes| == |t.nodes|
    requires var parts := SplitLast(path);
             parts.PathParts? ==> Find(t, start, parts.dir, true) == Find(s, start, parts.dir, true)
    ensures FindParentRaw(t, start, path) == FindParentRaw(s, start, path)
  {
  }

  lemma ParentRawTwin(s: Fs, t: Fs, start: Start, path: Bytes)
    requires Twins(s, t) && Ready(s) && Ready(t)
    ensures FindParentRaw(t, start, path) == FindParentRaw(s, start, path)
  {
    var parts := SplitLast(path);
    if parts.PathParts? {
      FindTwin(s, t, start, parts.dir, true);
    }
    ParentSame(s, t, start, path);
  }

  lemma ParentChecks(s: Fs, t: Fs, start: Start, path: Bytes)
    requires Ready(s) && Ready(t) && FindParentRaw(t, start, path) == FindParentRaw(s, start, path)
    requires var r := FindParentRaw(s, start, path); r.At? ==> Alike(s, t, r.parent)
    ensures FindParent(t, start, path) == FindParent(s, start, path)
  {
  }

  lemma ParentTwin(s: Fs, t: Fs, start: Start, path: Bytes)
    requires Twins(s, t) && Ready(s) && Ready(t)
    ensures FindParentRaw(t, start, path) == FindParentRaw(s, start, path)
    ensures FindParent(t, start, path) == FindParent(s, start, path)
  {
    ParentRawTwin(s, t, start, path);
    ParentVisible(s, start, path);
    var r := FindParentRaw(s, start, path);
    if r.At? {
      TwinVisible(s, t, r.parent);
    }
    ParentChecks(s, t, start, path);
  }

  lemma FrontTwin(s: Fs, t: Fs, cur: nat, path: Bytes, links: nat)
    requires Twins(s, t) && Visible(s, cur) && links <= MaxLinks(s) && path != [] && Comps(path) != []
    ensures Valid(t, cur) && CreateFront(t, cur, path, links) == CreateFront(s, cur, path, links)
  {
    TwinVisible(s, t, cur);
    var from := if path[0] == SLASH then ROOT else cur;
    VisibleSelf(s, from);
    TwinVisible(s, t, from);
    VisibleSelf(t, from);
    WalkTwin(s, t, from, Comps(path)[..|Comps(path)| - 1], true, true, links);
  }

  lemma CreateSame(s: Fs, t: Fs, cur: nat, path: Bytes, links: nat)
    requires Ready(s) && Ready(t) && s.profile == t.profile && Valid(s, cur) && Valid(t, cur) && links <= MaxLinks(s)
    requires 0 < |path| < PathMax(s) && Comps(path) != [] ==>
               && CreateFront(t, cur, path, links) == CreateFront(s, cur, path, links)
               && var dir := CreateFront(s, cur, path, links);
               var last := Comps(path)[|Comps(path)| - 1];
               dir.Found? ==> Valid(t, dir.node) && SLASH !in last && IsReal(last)
                              && FindLast(t, dir.node, last, dir.links) == FindLast(s, dir.node, last, dir.links)
    ensures FindForCreate(t, cur, path, links) == FindForCreate(s, cur, path, links)
  {
  }

  lemma {:induction false} CreateTwin(s: Fs, t: Fs, cur: nat, path: Bytes, links: nat)
    requires Twins(s, t) && Ready(s) && Ready(t) && Visible(s, cur) && links <= MaxLinks(s)
    ensures Valid(t, cur) && FindForCreate(t, cur, path, links) == FindForCreate(s, cur, path, links)
    decreases MaxLinks(s) - links, 2
  {
    TwinVisible(s, t, cur);
    if 0 < |path| < PathMax(s) && Comps(path) != [] {
      FrontTwin(s, t, cur, path, links);
      FrontVisible(s, cur, path, links);
      var dir := CreateFront(s, cur, path, links);
      if dir.Found? {
        CompsOk(path, |Comps(path)| - 1);
        LastTwin(s, t, dir.node, Comps(path)[|Comps(path)| - 1], dir.links);
      }
    }
    CreateSame(s, t, cur, path, links);
  }

  /** What a create finds behind an existing last name, in both models. */
  ghost predicate SameBehind(s: Fs, t: Fs, dir: nat, k: Bytes, links: nat)
    requires Ready(s) && Ready(t) && s.profile == t.profile && Valid(s, dir) && Valid(t, dir) && links <= MaxLinks(s)
  {
    k in s.nodes[dir].children ==>
      var child := s.nodes[dir].children[k];
      && Alike(s, t, child)
      && (s.nodes[child].kind.Symlink? && links + 1 <= MaxLinks(s) ==>
            FindForCreate(t, dir, s.nodes[child].kind.target, links + 1)
            == FindForCreate(s, dir, s.nodes[child].kind.target, links + 1))
  }

  lemma LastSame(s: Fs, t: Fs, dir: nat, last: Bytes, links: nat)
    requires Ready(s) && Ready(t) && s.profile == t.profile && s.fold == t.fold && Valid(s, dir) && Valid(t, dir)
    requires links <= MaxLinks(s) && SLASH !in last && IsReal(last) && t.nodes[dir] == s.nodes[dir]
    requires SameBehind(s, t, dir, Key(s, last), links)
    ensures FindLast(t, dir, last, links) == FindLast(s, dir, last, links)
  {
  }

  lemma {:induction false} BehindTwin(s: Fs, t: Fs, dir: nat, k: Bytes, links: nat)
    requires Twins(s, t) && Ready(s) && Ready(t) && Visible(s, dir) && Valid(t, dir) && links <= MaxLinks(s)
    ensures SameBehind(s, t, dir, k, links)
    decreases MaxLinks(s) - links, 0
  {
    if k in s.nodes[dir].children {
      TwinChild(s, t, dir, k);
      var child := s.nodes[dir].children[k];
      if s.nodes[child].kind.Symlink? && links + 1 <= MaxLinks(s) {
        CreateTwin(s, t, dir, s.nodes[child].kind.target, links + 1);
      }
    }
  }

  lemma {:induction false} LastTwin(s: Fs, t: Fs, dir: nat, last: Bytes, links: nat)
    requires Twins(s, t) && Ready(s) && Ready(t) && Visible(s, dir) && links <= MaxLinks(s) && SLASH !in last && IsReal(last)
    ensures Valid(t, dir) && FindLast(t, dir, last, links) == FindLast(s, dir, last, links)
    decreases MaxLinks(s) - links, 1
  {
    TwinVisible(s, t, dir);
    BehindTwin(s, t, dir, Key(s, last), links);
    LastSame(s, t, dir, last, links);
  }

  lemma NewSame(s: Fs, t: Fs, start: Start, path: Bytes)
    requires Ready(s) && Ready(t) && s.profile == t.profile && s.cwd == t.cwd && s.fds == t.fds && |s.nodes| == |t.nodes|
    requires var from := StartNode(s, start);
             from.Found? ==> FindForCreate(t, from.node, path, 0) == FindForCreate(s, from.node, path, 0)
    ensures FindNew(t, start, path) == FindNew(s, start, path)
  {
  }

  lemma NewTwin(s: Fs, t: Fs, start: Start, path: Bytes)
    requires Twins(s, t) && Ready(s) && Ready(t)
    ensures FindNew(t, start, path) == FindNew(s, start, path)
  {
    StartVisible(s, start);
    var from := StartNode(s, start);
    if from.Found? {
      CreateTwin(s, t, from.node, path, 0);
    }
    NewSame(s, t, start, path);
  }

  lemma TrailSame(s: Fs, t: Fs, start: Start, parent: nat, key: Bytes, path: Bytes)
    requires Ready(s) && Ready(t) && Valid(s, parent) && Valid(t, parent) && s.nodes[parent] == t.nodes[parent]
    requires FindNew(t, start, path) == FindNew(s, start, path)
    requires key in s.nodes[parent].children ==>
               var c := s.nodes[parent].children[key];
               var r := FollowLink(s, Virtual, parent, c, 0);
               FollowLink(t, Virtual, parent, c, 0) == r && (r.Found? ==> Alike(s, t, r.node))
    ensures TrailMac(t, start, parent, key, path) == TrailMac(s, start, parent, key, path)
  {
  }

  lemma TrailTwin(s: Fs, t: Fs, start: Start, parent: nat, key: Bytes, path: Bytes)
    requires Twins(s, t) && Ready(s) && Ready(t) && Visible(s, parent)
    ensures Valid(t, parent) && TrailMac(t, start, parent, key, path) == TrailMac(s, start, parent, key, path)
  {
    TwinVisible(s, t, parent);
    NewTwin(s, t, start, path);
    if key in s.nodes[parent].children {
      FollowTwin(s, t, parent, key, 0);
    }
    TrailSame(s, t, start, parent, key, path);
  }

  // ----- chains and entries -----

  lemma {:induction false} ChainTwin(s: Fs, t: Fs, n: nat)
    requires Twins(s, t) && Visible(s, n)
    ensures Valid(t, n) && Chain(t, FsTree.Owner, n) == Chain(s, FsTree.Owner, n)
    decreases |Chain(s, FsTree.Owner, n)|
  {
    TwinVisible(s, t, n);
    ChainUp(s, FsTree.Owner, n);
    ChainUp(t, FsTree.Owner, n);
    VisibleUp(s, n);
    if s.nodes[n].parent.Some? {
      ChainTwin(s, t, s.nodes[n].parent.value);
    }
  }

  lemma DetachedTwin(s: Fs, t: Fs, n: nat)
    requires Twins(s, t) && Visible(s, n)
    ensures Valid(t, n) && (IsDetached(t, n) <==> IsDetached(s, n))
  {
    ChainTwin(s, t, n);
    var c := Chain(s, FsTree.Owner, n);
    forall i | 0 <= i < |c| ensures t.nodes[c[i]] == s.nodes[c[i]] {
      ChainVisible(s, n, i);
      TwinVisible(s, t, c[i]);
    }
  }

  lemma {:induction false} ChainVisible(s: Fs, n: nat, i: nat)
    requires WellFormed(s) && Visible(s, n) && i < |Chain(s, FsTree.Owner, n)|
    ensures Visible(s, Chain(s, FsTree.Owner, n)[i])
  {
    var c := Chain(s, FsTree.Owner, n);
    ChainDrop(s, FsTree.Owner, c, i);
    ChainUnique(s, FsTree.Owner, c[i..], Chain(s, FsTree.Owner, c[i]));
    assert forall j :: 0 <= j < |c[i..]| ==> c[i..][j] == c[i + j];
  }

  lemma EntryTwin(s: Fs, t: Fs, p: nat, n: nat)
    requires Twins(s, t) && Visible(s, p)
    ensures Valid(t, p) && (HasEntry(t, p, n) <==> HasEntry(s, p, n))
    ensures HasEntry(s, p, n) ==> EntryName(t, p, n) == EntryName(s, p, n)
  {
    TwinVisible(s, t, p);
    if HasEntry(s, p, n) {
      var k := EntryName(s, p, n);
      assert NodeOk(s, p) && EntryOk(s, p, k);
    }
  }

  lemma OwnerTwin(s: Fs, t: Fs, n: nat)
    requires Twins(s, t) && Visible(s, n)
    ensures Valid(t, n) && OwnerOf(t, n) == OwnerOf(s, n)
  {
    TwinVisible(s, t, n);
    VisibleUp(s, n);
    if s.nodes[n].parent.Some? {
      EntryTwin(s, t, s.nodes[n].parent.value, n);
    }
  }

  lemma {:induction false} ReportTwin(s: Fs, t: Fs, c: seq<nat>)
    requires Twins(s, t) && IsChain(s, Reported(Virtual), c) && Visible(s, c[0])
    ensures IsChain(t, Reported(Virtual), c) && NamesAlong(t, Virtual, c) == NamesAlong(s, Virtual, c)
    decreases |c|
  {
    NameTwin(s, t, c[0]);
    ChainStart(s, Reported(Virtual), c);
    if |c| == 1 {
      assert c == [c[0]];
      ChainNil(t, Reported(Virtual), c[0]);
    } else {
      ChainTail(s, Reported(Virtual), c);
      ReportTwin(s, t, c[1..]);
      ReportCons(s, t, c);
    }
  }

  lemma ReportCons(s: Fs, t: Fs, c: seq<nat>)
    requires Closed(s) && Closed(t) && |c| > 1 && Valid(t, c[0])
    requires IsChain(s, Reported(Virtual), c) && IsChain(s, Reported(Virtual), c[1..]) && IsChain(t, Reported(Virtual), c[1..])
    requires NameAndParent(t, Virtual, c[0]) == NameAndParent(s, Virtual, c[0])
    requires NamesAlong(t, Virtual, c[1..]) == NamesAlong(s, Virtual, c[1..])
    ensures IsChain(t, Reported(Virtual), c) && NamesAlong(t, Virtual, c) == NamesAlong(s, Virtual, c)
  {
    ChainStart(s, Reported(Virtual), c);
    assert c == [c[0]] + c[1..];
    ChainCons(t, Reported(Virtual), c[0], c[1..]);
  }

  lemma NameSame(s: Fs, t: Fs, n: nat)
    requires Closed(s) && Closed(t) && Valid(s, n) && Valid(t, n) && s.nodes[n] == t.nodes[n]
    requires s.nodes[n].parent.Some? ==>
               var p := s.nodes[n].parent.value;
               && (HasEntry(t, p, n) <==> HasEntry(s, p, n))
               && (HasEntry(s, p, n) ==> EntryName(t, p, n) == EntryName(s, p, n))
    ensures NameAndParent(t, Virtual, n) == NameAndParent(s, Virtual, n)
  {
  }

  lemma NameTwin(s: Fs, t: Fs, n: nat)
    requires Twins(s, t) && Visible(s, n)
    ensures Valid(t, n) && NameAndParent(t, Virtual, n) == NameAndParent(s, Virtual, n)
    ensures var r := NameAndParent(s, Virtual, n); r.Some? ==> Visible(s, r.value.1)
  {
    TwinVisible(s, t, n);
    VisibleUp(s, n);
    if s.nodes[n].parent.Some? {
      EntryTwin(s, t, s.nodes[n].parent.value, n);
    }
    NameSame(s, t, n);
  }

  lemma PathTwin(s: Fs, t: Fs, n: nat)
    requires Twins(s, t) && Visible(s, n)
    ensures ReportPath(t, n) == ReportPath(s, n)
  {
    if Ends(s, Reported(Virtual), n) {
      PathTwinOne(s, t, n);
    } else if Ends(t, Reported(Virtual), n) {
      TwinSym(s, t);
      TwinVisible(s, t, n);
      PathTwinOne(t, s, n);
    }
  }

  lemma PathTwinOne(s: Fs, t: Fs, n: nat)
    requires Twins(s, t) && Visible(s, n) && Ends(s, Reported(Virtual), n)
    ensures Ends(t, Reported(Virtual), n) && FullPath(t, Virtual, n) == FullPath(s, Virtual, n)
  {
    var c := Chain(s, Reported(Virtual), n);
    ReportTwin(s, t, c);
    ChainUnique(t, Reported(Virtual), c, Chain(t, Reported(Virtual), n));
  }
}
