/** Accepted streams are closed, and a cut stream is never accepted. */
module ImportSafety {
  import opened Text
  import opened ImportStream
  import opened ImportRoundTrip

  // ----- closedness -----

  predicate SafePath(p: Path) {
    p != [] && forall i :: 0 <= i < |p| ==> SafePart(p[i]) && SLASH !in p[i]
  }

  function ParentPath(p: Path): Path
    requires p != []
  {
    p[..|p| - 1]
  }

  /** What every record keeps: each entry sits in a directory that this stream made, under a
      safe name, and as many entries were made as there are paths. */
  ghost predicate Sound(st: Import) {
    && st.entries == |st.staged|
    && (forall p :: p in st.directories <==> p == [] || (p in st.staged && st.staged[p].DirEntry?))
    && (forall p :: p in st.staged ==> SafePath(p) && ParentPath(p) in st.directories)
    && (st.current.Some? ==> st.current.value in st.staged && st.staged[st.current.value].FileEntry?)
    && (forall i :: 0 <= i < |st.modes| ==> st.modes[i].0 in st.directories && st.modes[i].0 != [])
  }

  lemma PlaceSafe(path: Bytes)
    requires Place(path).Some?
    ensures SafePath(Place(path).value)
  {
    var parts := Split(path);
    forall i | 0 <= i < |parts| ensures SafePart(parts[i]) && SLASH !in parts[i] {
      SplitSlashFree(path, i);
      assert parts[i] in parts;
    }
  }

  lemma SlotSafe(st: Import, path: Bytes)
    requires Slot(st, path).Some?
    ensures var p := Slot(st, path).value; SafePath(p) && ParentPath(p) in st.directories && p !in st.staged
  {
    PlaceSafe(path);
  }

  lemma StepSound(st: Import, r: Record)
    requires Sound(st) && Step(st, r).Some?
    ensures Sound(Step(st, r).value)
  {
    var st' := Step(st, r).value;
    match r
    case Link(path, _) => if st.begun { SlotSafe(st, path); }
    case Directory(path, _) => if st.begun { SlotSafe(st, path); }
    case Regular(path, _, _) => if st.begun { SlotSafe(st, path); }
    case Data(_) => if st.begun { assert st'.staged.Keys == st.staged.Keys; }
    case _ =>
  }

  function IsEntry(r: Record): nat {
    if r.Directory? || r.Regular? || r.Link? then 1 else 0
  }

  function EntryCount(rs: seq<Record>): nat {
    if rs == [] then 0 else IsEntry(rs[0]) + EntryCount(rs[1..])
  }

  lemma StepCounts(st: Import, r: Record)
    requires Step(st, r).Some?
    ensures Step(st, r).value.entries == st.entries + IsEntry(r)
  {
  }

  lemma {:induction false} StepsSound(st: Import, rs: seq<Record>)
    requires Sound(st) && Steps(st, rs).Some?
    ensures Sound(Steps(st, rs).value) && Steps(st, rs).value.entries == st.entries + EntryCount(rs)
    decreases |rs|
  {
    if rs != [] {
      StepSound(st, rs[0]);
      StepCounts(st, rs[0]);
      StepsSound(Step(st, rs[0]).value, rs[1..]);
    }
  }

  /** Setting modes changes no path and no kind. */
  lemma {:induction false} ModesKeep(t: Tree, modes: seq<(Path, nat)>)
    requires forall i :: 0 <= i < |modes| ==> modes[i].0 in t && t[modes[i].0].DirEntry?
    ensures var u := WithModes(t, modes);
            && u.Keys == t.Keys
            && forall p :: p in t ==> (u[p].DirEntry? <==> t[p].DirEntry?) && (!t[p].DirEntry? ==> u[p] == t[p])
    decreases |modes|
  {
    if modes != [] {
      var (p, m) := modes[|modes| - 1];
      assert modes[|modes| - 1].0 in t;
      ModesKeep(t[p := DirEntry(m)], modes[..|modes| - 1]);
      assert t[p := DirEntry(m)].Keys == t.Keys;
    }
  }

  /** Every entry lies below a chain of directories of the same tree. */
  ghost predicate ClosedTree(t: Tree) {
    forall p :: p in t ==>
      SafePath(p) && (ParentPath(p) == [] || (ParentPath(p) in t && t[ParentPath(p)].DirEntry?))
  }

  /** In any accepted stream every entry sits below directories that this stream created,
      never through a link, and each entry record made an entry of its own. */
  lemma AcceptedIsClosed(rs: seq<Record>)
    requires Decode(rs).Some?
    ensures ClosedTree(Decode(rs).value) && |Decode(rs).value| == EntryCount(rs)
  {
    assert Sound(Fresh);
    StepsSound(Fresh, rs);
    var st := Steps(Fresh, rs).value;
    ModesKeep(st.staged, st.modes);
    var t := WithModes(st.staged, st.modes);
    assert |t.Keys| == |st.staged.Keys|;
    forall p | p in t
      ensures SafePath(p) && (ParentPath(p) == [] || (ParentPath(p) in t && t[ParentPath(p)].DirEntry?))
    {
      assert p in st.staged;
    }
  }

  /** All the way up: every proper front part of an accepted path is a directory. */
  lemma {:induction false} Ancestors(t: Tree, p: Path, n: nat)
    requires ClosedTree(t) && p in t && 0 < n < |p|
    ensures p[..n] in t && t[p[..n]].DirEntry?
    decreases |p|
  {
    var q := ParentPath(p);
    if n < |p| - 1 {
      Ancestors(t, q, n);
      assert q[..n] == p[..n];
    }
  }

  // ----- all or nothing -----

  /** Nothing may follow the finish record. */
  lemma Done(st: Import, rs: seq<Record>)
    requires rs != []
    ensures st.begun && st.finished ==> Steps(st, rs) == None
  {
  }

  lemma {:induction false} FinishedMeansBegun(st: Import, rs: seq<Record>)
    requires (st.finished ==> st.begun) && Steps(st, rs).Some?
    ensures Steps(st, rs).value.finished ==> Steps(st, rs).value.begun
    decreases |rs|
  {
    if rs != [] {
      FinishedMeansBegun(Step(st, rs[0]).value, rs[1..]);
    }
  }

  /** Every strict prefix of an accepted stream is rejected. */
  lemma PrefixRejected(rs: seq<Record>, n: nat)
    requires Decode(rs).Some? && n < |rs|
    ensures Decode(rs[..n]) == None
  {
    assert rs == rs[..n] + rs[n..];
    StepsAppend(Fresh, rs[..n], rs[n..]);
    FinishedMeansBegun(Fresh, rs[..n]);
    var st := Steps(Fresh, rs[..n]).value;
    Done(st, rs[n..]);
  }

  // ----- lines -----

  const MAX_LINE: nat := 70000

  /** What one read from the stream gives: its length, whether it ended in a newline, and the
      record it parses to, if any. */
  datatype Line = Line(length: nat, whole: bool, record: Option<Record>)

  predicate Readable(l: Line) {
    l.length <= MAX_LINE && l.whole && l.record.Some?
  }

  ghost function Parsed(ls: seq<Line>): Option<seq<Record>> {
    if forall i :: 0 <= i < |ls| ==> Readable(ls[i])
    then Some(seq(|ls|, i requires 0 <= i < |ls| && ls[i].record.Some? => ls[i].record.value))
    else None
  }

  ghost function DecodeLines(ls: seq<Line>): Option<Tree> {
    match Parsed(ls)
    case None => None
    case Some(rs) => Decode(rs)
  }

  /** Cut anywhere, between two lines or within one, an accepted stream is rejected. */
  lemma CutRejected(ls: seq<Line>, n: nat, stub: Line)
    requires DecodeLines(ls).Some? && n < |ls| && !stub.whole
    ensures DecodeLines(ls[..n]) == None && DecodeLines(ls[..n] + [stub]) == None
  {
    var rs := Parsed(ls).value;
    PrefixRejected(rs, n);
    assert forall i :: 0 <= i < n ==> Readable(ls[i]) && ls[..n][i] == ls[i];
    assert Parsed(ls[..n]).value == rs[..n];
    var cut := ls[..n] + [stub];
    assert !Readable(cut[n]);
  }
}
