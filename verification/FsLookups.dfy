/** Lookups of a path, told by the lookup of its directory. */
module FsLookups {
  import opened Text
  import opened FsState
  import opened FsTree
  import opened FsOps
  import opened FsWellFormed
  import opened FsEffects

  /** The walk to the directory, insisting on directories all the way, comes to the same failure, or fails
      or ends at what is none. */
  ghost predicate Insisted(s: Fs, r: Found, insisted: Found) {
    if r.Missing? then insisted == r
    else if IsDir(s, r.node) then insisted == r
    else insisted == Missing(ENOTDIR) || (insisted == r)
  }

  lemma {:induction false} WalkInsisted(s: Fs, cur: nat, comps: seq<Bytes>, slash: bool, links: nat)
    requires Closed(s) && MountDirs(s) && Valid(s, cur) && links <= MaxLinks(s)
    ensures Insisted(s, Walk(s, Virtual, cur, comps, true, slash, links), Walk(s, Virtual, cur, comps, true, true, links))
    decreases |comps|
  {
    if comps == [] {
    } else if comps[0] == DOTDOT {
      assert NodeClosed(s.nodes[cur], |s.nodes|);
      WalkInsisted(s, FsState.Enter(s, Virtual, ParentOf(s, Virtual, cur)), comps[1..], slash, links);
    } else if |comps| == 1 {
      assert comps[1..] == [];
      hide Resolve;
      assert NodeClosed(s.nodes[cur], |s.nodes|);
    } else {
      var next := Step(s, Virtual, cur, comps[0], true, true, links);
      if next.Found? {
        WalkInsisted(s, next.node, comps[1..], slash, next.links);
      }
    }
  }

  /** The lookup of a path's directory. */
  ghost function Directory(s: Fs, path: Bytes): (r: Found)
    requires Ready(s) && SplitLast(path).PathParts?
    ensures LookupOk(s, 0, r)
  {
    if SplitLast(path).dir == DOT then Found(s.cwd, 0) else Find(s, Cwd, SplitLast(path).dir, true)
  }

  /** What a last name comes to in directory `d`, after `links` links. */
  ghost predicate NameComes(s: Fs, d: nat, name: Bytes, follow: bool, slash: bool, links: nat, r: Found)
    requires Closed(s) && Valid(s, d) && links <= MaxLinks(s)
  {
    if !IsDir(s, d) then r == Missing(ENOTDIR)
    else if Key(s, name) !in s.nodes[d].children then r == Missing(ENOENT)
    else
      var n := s.nodes[d].children[Key(s, name)];
      && Valid(s, n)
      && (!s.nodes[n].kind.Symlink? || (!follow && !slash) ==>
            r == if slash && !IsDir(s, n) then Missing(ENOTDIR) else Found(FsState.Enter(s, Virtual, n), links))
      && (s.nodes[n].kind.Symlink? && (follow || slash) ==>
            var t := FollowLink(s, Virtual, d, n, links);
            && (t.Missing? ==> r == t)
            && (t.Found? ==> r == if slash && !IsDir(s, t.node) then Missing(ENOTDIR) else Found(FsState.Enter(s, Virtual, t.node), t.links)))
  }

  /** A path is looked up in its directory: where that is not found it fails with the same errno; where it
      is no directory, with ENOTDIR; where the name is not there, with ENOENT; else it is what stands
      there, or what a link there leads to. */
  lemma LookupsCompose(s: Fs, path: Bytes, follow: bool)
    requires Steady(s) && |path| < PathMax(s) && SplitLast(path).PathParts?
    requires IsName(SplitLast(path).name) && |SplitLast(path).name| <= 255
    ensures var parts, d := SplitLast(path), Directory(s, path);
            if d.Missing? then Find(s, Cwd, path, follow) == d
            else NameComes(s, d.node, parts.name, follow, parts.slash, d.links, Find(s, Cwd, path, follow))
  {
    hide WellFormed, SplitLast, Walk, NameComes, Step;
    var parts := SplitLast(path);
    SplitLastComps(path);
    var from, front := From(s, path), Comps(parts.dir);
    DirectoryWalk(s, path);
    WalkInsisted(s, from, front, Trailing(parts.dir), 0);
    WalkAppend(s, Virtual, from, front, [parts.name], follow, parts.slash, 0);
    var d := Walk(s, Virtual, from, front, true, true, 0);
    if d.Found? {
      OneStep(s, d.node, parts.name, follow, parts.slash, d.links);
      StepComes(s, d.node, parts.name, follow, parts.slash, d.links);
    } else if Directory(s, path).Found? {
      NoDirectoryComes(s, Directory(s, path), parts.name, follow, parts.slash);
    }
  }

  lemma DirectoryWalk(s: Fs, path: Bytes)
    requires Steady(s) && 0 < |path| < PathMax(s) && SplitLast(path).PathParts? && IsName(SplitLast(path).name)
    ensures var parts := SplitLast(path);
            Directory(s, path) == Walk(s, Virtual, From(s, path), Comps(parts.dir), true, Trailing(parts.dir), 0)
  {
    hide WellFormed, SplitLast;
    SplitLastComps(path);
    if SplitLast(path).dir == DOT {
      CompsSingle(DOT);
    }
  }

  lemma OneStep(s: Fs, d: nat, name: Bytes, follow: bool, slash: bool, links: nat)
    requires Closed(s) && Valid(s, d) && links <= MaxLinks(s) && name != DOTDOT
    ensures Walk(s, Virtual, d, [name], follow, slash, links) == Step(s, Virtual, d, name, follow || slash, slash, links)
  {
    assert [name][1..] == [];
  }

  lemma StepComes(s: Fs, d: nat, name: Bytes, follow: bool, slash: bool, links: nat)
    requires Closed(s) && Valid(s, d) && links <= MaxLinks(s) && |name| <= 255
    ensures NameComes(s, d, name, follow, slash, links, Step(s, Virtual, d, name, follow || slash, slash, links))
  {
    hide Resolve;
    assert NodeClosed(s.nodes[d], |s.nodes|);
  }

  lemma NoDirectoryComes(s: Fs, d: Found, name: Bytes, follow: bool, slash: bool)
    requires Closed(s) && d.Found? && Valid(s, d.node) && d.links <= MaxLinks(s) && !IsDir(s, d.node)
    ensures NameComes(s, d.node, name, follow, slash, d.links, Missing(ENOTDIR))
  {
  }
}
