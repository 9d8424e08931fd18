/** What each record of an accepted stream comes to, whoever wrote the stream. */
module ImportMeaning {
  import opened Text
  import opened ImportStream
  import opened ImportRoundTrip
  import opened ImportSafety

  predicate AllData(rs: seq<Record>) {
    forall k :: 0 <= k < |rs| ==> rs[k].Data?
  }

  /** The bytes of data records. */
  function Payload(rs: seq<Record>): Bytes {
    if rs == [] then [] else (if rs[0].Data? then rs[0].data else []) + Payload(rs[1..])
  }

  // ----- what later records leave alone -----

  lemma {:induction false} EntryStays(st: Import, rs: seq<Record>, p: Path)
    requires p in st.staged && st.current != Some(p) && Steps(st, rs).Some?
    ensures p in Steps(st, rs).value.staged && Steps(st, rs).value.staged[p] == st.staged[p]
    decreases |rs|
  {
    hide Slot, Step;
    if rs != [] {
      OneStays(st, rs[0], p);
      EntryStays(Step(st, rs[0]).value, rs[1..], p);
    }
  }

  lemma OneStays(st: Import, r: Record, p: Path)
    requires p in st.staged && st.current != Some(p) && Step(st, r).Some?
    ensures var st' := Step(st, r).value; p in st'.staged && st'.staged[p] == st.staged[p] && st'.current != Some(p)
  {
    hide Place;
  }

  /** Modes noted later are of directories made later. */
  lemma {:induction false} ModesGrow(st: Import, rs: seq<Record>)
    requires Steps(st, rs).Some?
    ensures var t := Steps(st, rs).value;
            && st.modes <= t.modes && st.staged.Keys <= t.staged.Keys
            && forall k :: |st.modes| <= k < |t.modes| ==> t.modes[k].0 !in st.staged
    decreases |rs|
  {
    hide Slot, Step;
    if rs != [] {
      OneGrows(st, rs[0]);
      ModesGrow(Step(st, rs[0]).value, rs[1..]);
    }
  }

  lemma OneGrows(st: Import, r: Record)
    requires Step(st, r).Some?
    ensures var t := Step(st, r).value;
            && st.modes <= t.modes && st.staged.Keys <= t.staged.Keys
            && forall k :: |st.modes| <= k < |t.modes| ==> t.modes[k].0 !in st.staged
  {
    hide Place;
  }

  /** A mode noted once for a path is the one that the directory gets. */
  lemma {:induction false} ModeSet(t: Tree, modes: seq<(Path, nat)>, i: nat)
    requires i < |modes| && forall k :: 0 <= k < |modes| && k != i ==> modes[k].0 != modes[i].0
    ensures modes[i].0 in WithModes(t, modes) && WithModes(t, modes)[modes[i].0] == DirEntry(modes[i].1)
    decreases |modes|
  {
    var (p, m) := modes[|modes| - 1];
    var front := modes[..|modes| - 1];
    if i < |front| {
      ModeSet(t[p := DirEntry(m)], front, i);
    } else {
      ModeUnset(t[p := DirEntry(m)], front, p);
    }
  }

  lemma {:induction false} ModeUnset(t: Tree, modes: seq<(Path, nat)>, p: Path)
    requires p in t && forall k :: 0 <= k < |modes| ==> modes[k].0 != p
    ensures p in WithModes(t, modes) && WithModes(t, modes)[p] == t[p]
    decreases |modes|
  {
    if modes != [] {
      var (q, m) := modes[|modes| - 1];
      assert modes[|modes| - 1].0 != p;
      ModeUnset(t[q := DirEntry(m)], modes[..|modes| - 1], p);
    }
  }

  // ----- files -----

  /** Records up to the end of the open file. */
  lemma {:induction false} FileEnds(st: Import, rs: seq<Record>, p: Path) returns (j: nat)
    requires st.begun && st.current == Some(p) && p in st.staged && st.staged[p].FileEntry?
    requires !st.finished && Steps(st, rs).Some? && Steps(st, rs).value.finished
    ensures j < |rs| && AllData(rs[..j]) && rs[j].EndFile? && |Payload(rs[..j])| == st.remaining
    ensures var t := Steps(st, rs).value;
            p in t.staged && t.staged[p] == FileEntry(st.staged[p].mode, st.staged[p].content + Payload(rs[..j]))
    decreases |rs|
  {
    hide Slot;
    assert rs != [];
    var next := Step(st, rs[0]).value;
    if rs[0].EndFile? {
      j := 0;
      assert rs[..0] == [];
      EntryStays(next, rs[1..], p);
      assert st.staged[p].content + [] == st.staged[p].content;
    } else {
      assert rs[0].Data?;
      j := FileEnds(next, rs[1..], p);
      assert rs[..j + 1] == [rs[0]] + rs[1..][..j];
      assert rs[..j + 1][1..] == rs[1..][..j];
      var more := Payload(rs[1..][..j]);
      assert st.staged[p].content + rs[0].data + more == st.staged[p].content + (rs[0].data + more);
      j := j + 1;
    }
  }

  // ----- the stream around record `i` -----

  /** The state before a record of an accepted stream, and after it. */
  lemma Around(rs: seq<Record>, i: nat) returns (before: Import, after: Import)
    requires Decode(rs).Some? && i < |rs|
    ensures Sound(before) && !before.finished && Step(before, rs[i]) == Some(after) && Sound(after)
    ensures Steps(after, rs[i + 1..]) == Steps(Fresh, rs) && Steps(Fresh, rs).Some? && Steps(Fresh, rs).value.finished
    ensures var end := Steps(after, rs[i + 1..]).value; Sound(end) && Decode(rs).value == WithModes(end.staged, end.modes)
    ensures (before.begun <==> i > 0) && (i == 0 ==> before == Fresh)
  {
    hide Step, Sound, WithModes;
    assert rs == rs[..i] + rs[i..] && rs[i..][1..] == rs[i + 1..];
    StepsAppend(Fresh, rs[..i], rs[i..]);
    before := Steps(Fresh, rs[..i]).value;
    after := Step(before, rs[i]).value;
    FreshSound();
    StepsSound(Fresh, rs[..i]);
    StepsSound(before, rs[i..]);
    StepSound(before, rs[i]);
    StepsSound(after, rs[i + 1..]);
    FinishedMeansBegun(Fresh, rs[..i]);
    if before.begun && before.finished {
      Done(before, rs[i..]);
    }
    BegunWhen(rs[..i]);
  }

  lemma FreshSound()
    ensures Sound(Fresh)
  {
  }

  lemma BegunWhen(rs: seq<Record>)
    requires Steps(Fresh, rs).Some?
    ensures (Steps(Fresh, rs).value.begun <==> |rs| > 0) && (rs == [] ==> Steps(Fresh, rs).value == Fresh)
  {
    hide Slot;
    if rs != [] {
      BegunStays(Step(Fresh, rs[0]).value, rs[1..]);
    }
  }

  lemma {:induction false} BegunStays(st: Import, rs: seq<Record>)
    requires st.begun && Steps(st, rs).Some?
    ensures Steps(st, rs).value.begun
    decreases |rs|
  {
    hide Slot;
    if rs != [] {
      BegunStays(Step(st, rs[0]).value, rs[1..]);
    }
  }

  lemma NotYet(st: Import, rs: seq<Record>)
    requires Steps(st, rs).Some? && Steps(st, rs).value.finished && !st.finished
    ensures rs != []
  {
  }

  /** An accepted stream begins with the protocol record and ends with the count of its entries, and
      neither of them, nor anything unknown, is in between. */
  lemma AcceptedFrame(rs: seq<Record>)
    requires Decode(rs).Some?
    ensures |rs| >= 2 && rs[0] == Begin(1) && rs[|rs| - 1] == Finish(EntryCount(rs))
    ensures forall i :: 0 < i < |rs| - 1 ==> !rs[i].Begin? && !rs[i].Finish? && !rs[i].Unknown?
  {
    hide Slot, Sound, WithModes, EntryCount, Steps;
    NotYet(Fresh, rs);
    var before, after := Around(rs, 0);
    NotYet(after, rs[1..]);
    LastFinishes(rs);
    forall i | 0 < i < |rs| - 1 ensures !rs[i].Begin? && !rs[i].Finish? && !rs[i].Unknown? {
      MiddleIs(rs, i);
    }
  }

  lemma LastFinishes(rs: seq<Record>)
    requires Decode(rs).Some? && |rs| >= 2
    ensures rs[|rs| - 1] == Finish(EntryCount(rs))
  {
    hide Slot, WithModes, Sound, EntryCount, Decode;
    var n := |rs| - 1;
    var before, after := Around(rs, n);
    assert rs[n + 1..] == [];
    FreshSound();
    StepsSound(Fresh, rs);
  }

  lemma MiddleIs(rs: seq<Record>, i: nat)
    requires Decode(rs).Some? && 0 < i < |rs| - 1
    ensures !rs[i].Begin? && !rs[i].Finish? && !rs[i].Unknown?
  {
    hide Slot, Sound, WithModes, Steps;
    var before, after := Around(rs, i);
    Done(after, rs[i + 1..]);
  }

  // ----- what the records publish -----

  /** The records of one file, from its header to its end: as many bytes as announced, which are what
      is published. */
  ghost predicate FileRecords(rs: seq<Record>, i: nat, j: nat, t: Tree)
    requires i < |rs| && rs[i].Regular?
  {
    && i < j < |rs| && AllData(rs[i + 1..j]) && rs[j].EndFile? && |Payload(rs[i + 1..j])| == rs[i].size
    && Split(rs[i].path) in t
    && t[Split(rs[i].path)].FileEntry? && t[Split(rs[i].path)].mode == rs[i].mode && t[Split(rs[i].path)].content == Payload(rs[i + 1..j])
  }

  lemma FileMeans(rs: seq<Record>, i: nat) returns (j: nat)
    requires Decode(rs).Some? && i < |rs| && rs[i].Regular?
    ensures FileRecords(rs, i, j, Decode(rs).value)
  {
    hide Sound, WithModes, Steps, Decode;
    var before, after := Around(rs, i);
    var p := Split(rs[i].path);
    OpensFile(before, after, rs[i]);
    var k := FileEnds(after, rs[i + 1..], p);
    j := i + 1 + k;
    assert rs[i + 1..][..k] == rs[i + 1..j];
    FileKept(Steps(Fresh, rs).value, p);
  }

  lemma OpensFile(before: Import, after: Import, r: Record)
    requires r.Regular? && Step(before, r) == Some(after) && !before.finished
    ensures var p := Split(r.path);
            && after.begun && !after.finished && after.current == Some(p) && p in after.staged && after.remaining == r.size
            && after.staged[p].FileEntry? && after.staged[p].mode == r.mode && after.staged[p].content == []
  {
  }

  /** Setting the modes of the directories leaves files and links as they are. */
  lemma FileKept(end: Import, p: Path)
    requires Sound(end) && p in end.staged && !end.staged[p].DirEntry?
    ensures p in WithModes(end.staged, end.modes) && WithModes(end.staged, end.modes)[p] == end.staged[p]
  {
    ModesKeep(end.staged, end.modes);
  }

  lemma LinkMeans(rs: seq<Record>, i: nat)
    requires Decode(rs).Some? && i < |rs| && rs[i].Link?
    ensures var t, p := Decode(rs).value, Split(rs[i].path); p in t && t[p] == LinkEntry(rs[i].target)
    ensures rs[i].target != [] && 0 !in rs[i].target
  {
    hide Sound, WithModes, Steps, Decode;
    var before, after := Around(rs, i);
    var p := Split(rs[i].path);
    MakesLink(before, after, rs[i]);
    EntryStays(after, rs[i + 1..], p);
    FileKept(Steps(Fresh, rs).value, p);
  }

  lemma MakesLink(before: Import, after: Import, r: Record)
    requires r.Link? && Step(before, r) == Some(after) && !before.finished
    ensures var p := Split(r.path); after.current.None? && p in after.staged && after.staged[p] == LinkEntry(r.target)
    ensures r.target != [] && 0 !in r.target
  {
  }

  lemma DirectoryMeans(rs: seq<Record>, i: nat)
    requires Decode(rs).Some? && i < |rs| && rs[i].Directory?
    ensures var t, p := Decode(rs).value, Split(rs[i].path); p in t && t[p].DirEntry? && t[p].mode == rs[i].mode
  {
    hide Sound, WithModes, Steps, Decode;
    var before, after := Around(rs, i);
    var p, end := Split(rs[i].path), Steps(Fresh, rs).value;
    MakesDirectory(before, after, rs[i]);
    ModesBefore(before, p);
    ModesGrow(after, rs[i + 1..]);
    var k := |before.modes|;
    assert end.modes[k] == after.modes[k];
    forall n | 0 <= n < |end.modes| && n != k ensures end.modes[n].0 != p {
      if n < k {
        assert end.modes[n] == after.modes[n] == before.modes[n];
      }
    }
    ModeSet(end.staged, end.modes, k);
  }

  lemma MakesDirectory(before: Import, after: Import, r: Record)
    requires r.Directory? && Step(before, r) == Some(after) && !before.finished
    ensures var p := Split(r.path);
            && p in after.staged && p !in before.staged && p != [] && r.mode >= 0
            && |after.modes| == |before.modes| + 1 && before.modes <= after.modes && after.modes[|before.modes|] == (p, r.mode)
  {
  }

  /** Modes are noted only of directories that are there. */
  lemma ModesBefore(st: Import, p: Path)
    requires Sound(st) && p !in st.staged && p != []
    ensures forall n :: 0 <= n < |st.modes| ==> st.modes[n].0 != p
  {
  }

  /** In an accepted stream every entry record publishes, at the path that it names, just what it says: a
      directory of its mode, a link to its target, which is not empty and holds no NUL, a file of its mode with the bytes of the data
      records up to the end of the file, as many as it announced. */
  lemma AcceptedMeans(rs: seq<Record>, i: nat)
    requires Decode(rs).Some? && i < |rs|
    ensures var t, r := Decode(rs).value, rs[i];
            && (r.Directory? ==> Split(r.path) in t && t[Split(r.path)].DirEntry? && t[Split(r.path)].mode == r.mode)
            && (r.Link? ==> r.target != [] && 0 !in r.target && Split(r.path) in t && t[Split(r.path)] == LinkEntry(r.target))
            && (r.Regular? ==> exists j: nat :: FileRecords(rs, i, j, t))
  {
    hide Decode, FileRecords;
    match rs[i]
    case Directory(_, _) => DirectoryMeans(rs, i);
    case Link(_, _) => LinkMeans(rs, i);
    case Regular(_, _, _) => var j := FileMeans(rs, i);
    case _ =>
  }
}
