/** The arena of filesystem nodes and path lookup in its two views. */
module FsState {
  import opened Text

  const NAME_MAX: nat := 255

  datatype Errno =
    | ENOENT | EEXIST | ENOTDIR | EISDIR | EINVAL | ELOOP | ENAMETOOLONG | ENOTEMPTY
    | EXDEV | EBUSY | EPERM | EACCES | EBADF | EADDRINUSE | ENOTSOCK | ECONNREFUSED
    | ENXIO | EOPNOTSUPP

  /** Which backend the model stands for; `root` is the workspace's temp root. */
  datatype Profile = MacShim(root: Bytes) | LinuxMount(root: Bytes)

  datatype View = Virtual | Physical

  datatype Kind = Dir | File(content: Bytes) | Symlink(target: Bytes) | Socket | Opaque

  datatype Node = Node(
    kind: Kind,
    parent: Option<nat>,
    children: map<Bytes, nat>,
    mountedBy: Option<nat>,
    virtualParent: Option<nat>,
    mountName: Option<Bytes>,
    detached: bool)

  datatype FdEntry = FileFd(node: nat, pos: nat, write: bool) | DirFd(node: nat)

  datatype Fs = Fs(
    nodes: seq<Node>,
    profile: Profile,
    fold: bool,
    cwd: nat,
    fds: map<nat, FdEntry>,
    nextFd: nat)

  const ROOT: nat := 0

  predicate IsDirKind(k: Kind) {
    k.Dir? || k.Opaque?
  }

  predicate Valid(s: Fs, n: nat) {
    n < |s.nodes|
  }

  predicate IsDir(s: Fs, n: nat) {
    Valid(s, n) && IsDirKind(s.nodes[n].kind)
  }

  predicate IdOk(o: Option<nat>, count: nat) {
    o.Some? ==> o.value < count
  }

  predicate NodeClosed(nd: Node, count: nat) {
    && IdOk(nd.parent, count)
    && IdOk(nd.mountedBy, count)
    && IdOk(nd.virtualParent, count)
    && (forall k :: k in nd.children ==> nd.children[k] < count)
  }

  /** Every id stored in a node names a node. */
  ghost predicate Closed(s: Fs) {
    && |s.nodes| > 0
    && (forall n :: 0 <= n < |s.nodes| ==> NodeClosed(s.nodes[n], |s.nodes|))
  }

  function MaxLinks(s: Fs): nat {
    if s.profile.MacShim? then 32 else 40
  }

  function PathMax(s: Fs): nat {
    if s.profile.MacShim? then 1024 else 4096
  }

  function Lower(b: byte): byte {
    if 65 <= b <= 90 then b + 32 else b
  }

  /** The key a name is stored under. */
  function Key(s: Fs, name: Bytes): Bytes {
    if s.fold then seq(|name|, i requires 0 <= i < |name| => Lower(name[i])) else name
  }

  /** Virtual view only: a mountpoint is replaced by what is mounted over it. */
  function Enter(s: Fs, view: View, n: nat): nat
    requires Valid(s, n)
  {
    if view.Virtual? && s.nodes[n].mountedBy.Some? then s.nodes[n].mountedBy.value else n
  }

  /** Where `..` leads: off a mount target, to the mountpoint's parent in the virtual view. */
  function ParentOf(s: Fs, view: View, n: nat): nat
    requires Valid(s, n)
  {
    if view.Virtual? && s.nodes[n].virtualParent.Some? then s.nodes[n].virtualParent.value
    else match s.nodes[n].parent
      case Some(p) => p
      case None => n
  }

  // ----- lookup -----

  datatype Found = Found(node: nat, links: nat) | Missing(errno: Errno)

  predicate Trailing(path: Bytes) {
    |path| > 1 && path[|path| - 1] == SLASH
  }

  ghost predicate LookupOk(s: Fs, links: nat, r: Found) {
    r.Found? ==> Valid(s, r.node) && links <= r.links <= MaxLinks(s)
  }

  /** Resolve `path` from directory `start`, `links` symlinks having been followed so far. */
  ghost function Resolve(s: Fs, view: View, start: nat, path: Bytes, follow: bool, links: nat): (r: Found)
    requires Closed(s) && Valid(s, start) && links <= MaxLinks(s)
    ensures LookupOk(s, links, r)
    decreases MaxLinks(s) - links, 3, 0
  {
    if |path| >= PathMax(s) then Missing(ENAMETOOLONG)
    else if path == [] then Missing(ENOENT)
    else
      var cur := Enter(s, view, if path[0] == SLASH then ROOT else start);
      Walk(s, view, cur, Comps(path), follow, Trailing(path), links)
  }

  /** Walk the components from `cur`. `slash`: the text ended in a slash. */
  ghost function Walk(s: Fs, view: View, cur: nat, comps: seq<Bytes>, follow: bool, slash: bool, links: nat): (r: Found)
    requires Closed(s) && Valid(s, cur) && links <= MaxLinks(s)
    ensures LookupOk(s, links, r)
    decreases MaxLinks(s) - links, 2, |comps|
  {
    if comps == [] then Found(cur, links)
    else if comps[0] == DOTDOT then
      Walk(s, view, Enter(s, view, ParentOf(s, view, cur)), comps[1..], follow, slash, links)
    else
      var last := |comps| == 1;
      var next := Step(s, view, cur, comps[0], !last || follow || slash, !last || slash, links);
      if next.Missing? then next
      else Walk(s, view, next.node, comps[1..], follow, slash, next.links)
  }

  /** One named component: find the entry, follow it when it is a link, enter it. */
  ghost function Step(s: Fs, view: View, cur: nat, name: Bytes, follow: bool, wantDir: bool, links: nat): (r: Found)
    requires Closed(s) && Valid(s, cur) && links <= MaxLinks(s)
    ensures LookupOk(s, links, r)
    decreases MaxLinks(s) - links, 1, 0
  {
    if |name| > NAME_MAX then Missing(ENAMETOOLONG)
    else if !IsDir(s, cur) then Missing(ENOTDIR)
    else if Key(s, name) !in s.nodes[cur].children then Missing(ENOENT)
    else
      var child := s.nodes[cur].children[Key(s, name)];
      var target := if follow then FollowLink(s, view, cur, child, links) else Found(child, links);
      if target.Missing? then target
      else if wantDir && !IsDir(s, target.node) then Missing(ENOTDIR)
      else Found(Enter(s, view, target.node), target.links)
  }

  /** The node a symlink leads to; any other node leads to itself. */
  ghost function FollowLink(s: Fs, view: View, dir: nat, link: nat, links: nat): (r: Found)
    requires Closed(s) && Valid(s, dir) && Valid(s, link) && links <= MaxLinks(s)
    ensures LookupOk(s, links, r)
    decreases MaxLinks(s) - links, 0, 0
  {
    if !s.nodes[link].kind.Symlink? then Found(link, links)
    else if links + 1 > MaxLinks(s) then Missing(ELOOP)
    else if s.nodes[link].kind.target == [] then Missing(ENOENT)
    else Resolve(s, view, dir, s.nodes[link].kind.target, true, links + 1)
  }

  /** A walk is the walk of its front part, every component of it taken as a directory,
      continued with the rest. */
  lemma {:induction false} WalkAppend(s: Fs, view: View, cur: nat, a: seq<Bytes>, b: seq<Bytes>, follow: bool, slash: bool, links: nat)
    requires Closed(s) && Valid(s, cur) && links <= MaxLinks(s)
    requires b != []
    ensures var front := Walk(s, view, cur, a, true, true, links);
            Walk(s, view, cur, a + b, follow, slash, links)
            == if front.Missing? then front else Walk(s, view, front.node, b, follow, slash, front.links)
    decreases |a|
  {
    if a == [] {
      assert a + b == b;
    } else {
      assert (a + b)[1..] == a[1..] + b;
      if a[0] == DOTDOT {
        WalkAppend(s, view, Enter(s, view, ParentOf(s, view, cur)), a[1..], b, follow, slash, links);
      } else {
        var next := Step(s, view, cur, a[0], true, true, links);
        if next.Found? {
          WalkAppend(s, view, next.node, a[1..], b, follow, slash, next.links);
        }
      }
    }
  }

  /** Also the last part may be empty when the walk ends at a directory either way. */
  lemma {:induction false} WalkAppendDirs(s: Fs, view: View, cur: nat, a: seq<Bytes>, b: seq<Bytes>, links: nat)
    requires Closed(s) && Valid(s, cur) && links <= MaxLinks(s)
    ensures var front := Walk(s, view, cur, a, true, true, links);
            Walk(s, view, cur, a + b, true, true, links)
            == if front.Missing? then front else Walk(s, view, front.node, b, true, true, front.links)
  {
    if b == [] {
      assert a + b == a;
    } else {
      WalkAppend(s, view, cur, a, b, true, true, links);
    }
  }

  // ----- fewer links followed before never hurts -----

  /** `r` found a node: then `r'` found the same one, having followed no more links. */
  ghost predicate NoWorse(r: Found, r': Found) {
    r.Found? ==> r'.Found? && r'.node == r.node && r'.links <= r.links
  }

  lemma {:induction false} ResolveFewer(s: Fs, view: View, start: nat, path: Bytes, follow: bool, links: nat, fewer: nat)
    requires Closed(s) && Valid(s, start) && fewer <= links <= MaxLinks(s)
    ensures NoWorse(Resolve(s, view, start, path, follow, links), Resolve(s, view, start, path, follow, fewer))
    decreases MaxLinks(s) - links, 3, 0
  {
    if 0 < |path| < PathMax(s) {
      var cur := Enter(s, view, if path[0] == SLASH then ROOT else start);
      WalkFewer(s, view, cur, Comps(path), follow, Trailing(path), links, fewer);
    }
  }

  lemma {:induction false} WalkFewer(s: Fs, view: View, cur: nat, comps: seq<Bytes>, follow: bool, slash: bool, links: nat, fewer: nat)
    requires Closed(s) && Valid(s, cur) && fewer <= links <= MaxLinks(s)
    ensures NoWorse(Walk(s, view, cur, comps, follow, slash, links), Walk(s, view, cur, comps, follow, slash, fewer))
    decreases MaxLinks(s) - links, 2, |comps|
  {
    if comps == [] {
    } else if comps[0] == DOTDOT {
      WalkFewer(s, view, Enter(s, view, ParentOf(s, view, cur)), comps[1..], follow, slash, links, fewer);
    } else {
      var last := |comps| == 1;
      StepFewer(s, view, cur, comps[0], !last || follow || slash, !last || slash, links, fewer);
      var next := Step(s, view, cur, comps[0], !last || follow || slash, !last || slash, links);
      var next' := Step(s, view, cur, comps[0], !last || follow || slash, !last || slash, fewer);
      if next.Found? {
        WalkFewer(s, view, next.node, comps[1..], follow, slash, next.links, next'.links);
      }
    }
  }

  lemma {:induction false} StepFewer(s: Fs, view: View, cur: nat, name: Bytes, follow: bool, wantDir: bool, links: nat, fewer: nat)
    requires Closed(s) && Valid(s, cur) && fewer <= links <= MaxLinks(s)
    ensures NoWorse(Step(s, view, cur, name, follow, wantDir, links), Step(s, view, cur, name, follow, wantDir, fewer))
    decreases MaxLinks(s) - links, 1, 0
  {
    if follow && IsDir(s, cur) && Key(s, name) in s.nodes[cur].children {
      FollowFewer(s, view, cur, s.nodes[cur].children[Key(s, name)], links, fewer);
    }
  }

  lemma {:induction false} FollowFewer(s: Fs, view: View, dir: nat, link: nat, links: nat, fewer: nat)
    requires Closed(s) && Valid(s, dir) && Valid(s, link) && fewer <= links <= MaxLinks(s)
    ensures NoWorse(FollowLink(s, view, dir, link, links), FollowLink(s, view, dir, link, fewer))
    decreases MaxLinks(s) - links, 0, 0
  {
    if s.nodes[link].kind.Symlink? && links + 1 <= MaxLinks(s) {
      ResolveFewer(s, view, dir, s.nodes[link].kind.target, true, links + 1, fewer + 1);
    }
  }
}
