/** Where a create makes its name when the path ends in links that lead nowhere yet. */
module FsRoom {
  import opened Text
  import opened FsState
  import opened FsTree
  import opened FsOps
  import opened FsWellFormed
  import opened FsEdits
  import opened FsEffects
  import opened FsCalls
  import opened FsOutcomes

  /** The directory of a text that is looked up from directory `d`. */
  ghost function DirOf(s: Fs, d: nat, text: Bytes, links: nat): (r: Found)
    requires Closed(s) && Valid(s, d) && links <= MaxLinks(s) && SplitLast(text).PathParts?
    ensures LookupOk(s, links, r)
  {
    if SplitLast(text).dir == DOT then Found(d, links) else Resolve(s, Virtual, d, SplitLast(text).dir, true, links)
  }

  /** Looked up from directory `d`, the text has a directory in which its last name is free, and that is
      `at`; or the name is a link whose target has, looked up from the directory of the link. */
  ghost predicate Room(s: Fs, d: nat, text: Bytes, links: nat, at: Lookup)
    requires Closed(s) && Valid(s, d) && links <= MaxLinks(s)
    decreases MaxLinks(s) - links
  {
    && s.nodes[d].mountedBy.None?
    && text != [] && |text| < PathMax(s) && SplitLast(text).PathParts? && IsName(SplitLast(text).name) && |SplitLast(text).name| <= 255
    && var p, name := DirOf(s, d, text, links), SplitLast(text).name;
       && p.Found? && IsDir(s, p.node)
       && (if Key(s, name) !in s.nodes[p.node].children then at == At(p.node, name, false)
           else RoomBehind(s, p.node, s.nodes[p.node].children[Key(s, name)], p.links, at))
  }

  ghost predicate RoomBehind(s: Fs, d: nat, link: nat, links: nat, at: Lookup)
    requires Closed(s) && Valid(s, d) && links <= MaxLinks(s)
    decreases MaxLinks(s) - links, 0
  {
    && Valid(s, link) && s.nodes[link].kind.Symlink? && s.nodes[link].kind.target != [] && links + 1 <= MaxLinks(s)
    && Room(s, d, s.nodes[link].kind.target, links + 1, at)
  }

  /** A walk that ends at a directory may as well insist on one, however many links came before. */
  lemma DirWalks(s: Fs, d: nat, text: Bytes, links: nat)
    requires Ready(s) && MountDirs(s) && Valid(s, d) && s.nodes[d].mountedBy.None? && links <= MaxLinks(s)
    requires text != [] && |text| < PathMax(s) && SplitLast(text).PathParts? && IsName(SplitLast(text).name)
    requires var p := DirOf(s, d, text, links); p.Found? && IsDir(s, p.node)
    ensures Comps(text) == Comps(SplitLast(text).dir) + [SplitLast(text).name]
    ensures CreateFront(s, d, text, links) == DirOf(s, d, text, links)
  {
    var parts := SplitLast(text);
    SplitLastComps(text);
    assert Comps(text)[..|Comps(text)| - 1] == Comps(parts.dir);
    if parts.dir == DOT {
      CompsSingle(DOT);
    } else {
      WalkInsists(s, FsState.Enter(s, Virtual, if parts.dir[0] == SLASH then ROOT else d), Comps(parts.dir), Trailing(parts.dir), links);
    }
  }

  /** The create finds that room. */
  lemma {:induction false} RoomFound(s: Fs, d: nat, text: Bytes, links: nat, at: Lookup)
    requires Ready(s) && MountDirs(s) && Valid(s, d) && links <= MaxLinks(s) && Room(s, d, text, links, at)
    ensures FindForCreate(s, d, text, links) == at
    decreases MaxLinks(s) - links
  {
    hide Resolve, Walk, SplitLast, Closed;
    DirWalks(s, d, text, links);
    CompsOk(text, |Comps(text)| - 1);
    var p, name := DirOf(s, d, text, links), SplitLast(text).name;
    if Key(s, name) in s.nodes[p.node].children {
      RoomFound(s, p.node, s.nodes[s.nodes[p.node].children[Key(s, name)]].kind.target, p.links + 1, at);
    }
  }

  /** So O_CREAT of a path with such room, and whose lookup misses it, makes the file there, through
      however many links: in that directory, under that name, and nowhere else. */
  lemma CreatesInRoom(s: Fs, path: Bytes, flags: OpenFlags, p: nat, name: Bytes)
    requires Steady(s) && IsDir(s, p) && !IsDetached(s, p) && Room(s, s.cwd, path, 0, At(p, name, false))
    requires flags.create && !flags.excl && !flags.directory && !Trailing(path) && !IsRootOperand(path)
    requires Find(s, Cwd, path, !flags.nofollow) == Missing(ENOENT)
    ensures Says(s, Open(path, flags)) == Returned(s.nextFd, [])
    ensures Decide(s, Open(path, flags)).edit == Create(p, Key(s, name), File([]), Some(flags.write))
  {
    hide Find, FindForCreate, Room, IsDetached, WellFormed, MountDirs, OpenSlash, FindParent;
    RoomFound(s, s.cwd, path, 0, At(p, name, false));
    OpenCreates(s, path, flags);
  }
}
