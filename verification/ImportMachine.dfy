/** The import as it runs: the walk that appends records to its output, and the loop that
    receives records into a private staging area and publishes it in one step. */
module ImportMachine {
  import opened Text
  import opened ImportStream
  import opened ImportSafety

  class Encoder {
    var output: seq<Record>
    var count: nat

    constructor ()
      ensures output == [] && count == 0
    {
      output, count := [], 0;
    }

    /** The records and the count that `r` adds to what was there, when it is not refused. */
    ghost predicate Wrote(before: seq<Record>, r: Encoded, ok: bool)
      reads this
    {
      && (ok <==> r.Encoded?)
      && (ok ==> output == before + r.records && count == r.count)
    }

    method Emit(r: Record)
      modifies this`output
      ensures output == old(output) + [r]
    {
      output := output + [r];
    }

    method EmitContent(content: Bytes)
      modifies this`output
      ensures output == old(output) + Chunks(content)
    {
      ghost var start := output;
      var done := 0;
      assert content[0..] == content;
      while done < |content|
        invariant done <= |content| && output + Chunks(content[done..]) == start + Chunks(content)
      {
        var size := if |content| - done < CHUNK then |content| - done else CHUNK;
        ghost var left := content[done..];
        assert left[..size] == content[done..done + size] && left[size..] == content[done + size..];
        ChunksUnfold(left, size);
        ghost var before := output;
        Emit(Data(content[done..done + size]));
        assert before + ([Data(left[..size])] + Chunks(left[size..])) == output + Chunks(left[size..]);
        done := done + size;
      }
      assert content[done..] == [];
      assert output + [] == output;
    }

    method Walk(es: Entries, prefix: Bytes, depth: nat) returns (ok: bool)
      modifies this
      ensures Wrote(old(output), if depth > MAX_DEPTH then Refused else Encode(es, prefix, depth, old(count)), ok)
      decreases es, 1
    {
      if depth > MAX_DEPTH {
        return false;
      }
      var rest := es;
      ghost var start := output;
      ghost var whole := Encode(es, prefix, depth, count);
      assert output + [] == output;
      while rest.Cons?
        invariant rest == es || rest < es
        invariant whole == Since(output, start, Encode(rest, prefix, depth, count)) && start <= output
        decreases rest
      {
        ghost var before, n := output, count;
        var one := WalkEntry(rest, prefix, depth);
        EncodeUnfold(rest, prefix, depth, n, start, before);
        if !one {
          return false;
        }
        rest := rest.rest;
      }
      return true;
    }

    /** One entry of a directory. */
    method WalkEntry(es: Entries, prefix: Bytes, depth: nat) returns (ok: bool)
      requires es.Cons?
      modifies this
      ensures Wrote(old(output), EncodeFirst(es, prefix, depth, old(count)), ok)
      decreases es, 0
    {
      count := count + 1;
      if count > MAX_ENTRIES {
        return false;
      }
      var path := PathIn(prefix, es.name);
      if |path| > MAX_PATH {
        return false;
      }
      match es.item
      case Pointer(target) =>
        if |target| > MAX_PATH {
          return false;
        }
        Emit(Link(path, target));
        return true;
      case Special => return false;
      case Folder(mode, inside) =>
        ghost var start := output;
        Emit(Directory(path, mode % MODE_MASK));
        ok := Walk(inside, path, depth + 1);
        ghost var r := Encode(inside, path, depth + 1, old(count) + 1);
        assert r.Encoded? ==> start + [Directory(path, mode % MODE_MASK)] + r.records == start + ([Directory(path, mode % MODE_MASK)] + r.records);
      case Document(mode, content) =>
        ghost var start := output;
        ghost var first := Regular(path, mode % MODE_MASK, |content|);
        Emit(Regular(path, mode % MODE_MASK, |content|));
        EmitContent(content);
        Emit(EndFile);
        assert output == start + ([first] + Chunks(content) + [EndFile]);
        return true;
    }
  }

  lemma ChunksUnfold(content: Bytes, size: nat)
    requires content != [] && size == if |content| < CHUNK then |content| else CHUNK
    ensures Chunks(content) == [Data(content[..size])] + Chunks(content[size..])
  {
    if |content| <= CHUNK {
      assert content[..size] == content && content[size..] == [];
      assert [Data(content)] + [] == [Data(content)];
    }
  }

  /** What the first entry of a directory contributes. */
  function EncodeFirst(es: Entries, prefix: Bytes, depth: nat, count: nat): Encoded
    requires es.Cons?
  {
    var path := PathIn(prefix, es.name);
    if count + 1 > MAX_ENTRIES || |path| > MAX_PATH then Refused
    else EncodeItem(es.item, path, depth, count + 1)
  }

  /** A result with the records written since `start` in front. */
  ghost function Since(output: seq<Record>, start: seq<Record>, r: Encoded): Encoded
  {
    if start <= output then Append(output[|start|..], r) else Refused
  }

  lemma EncodeUnfold(es: Entries, prefix: Bytes, depth: nat, count: nat, start: seq<Record>, output: seq<Record>)
    requires es.Cons? && start <= output
    ensures var first := EncodeFirst(es, prefix, depth, count);
            var whole := Since(output, start, Encode(es, prefix, depth, count));
            if first.Refused? then whole == Refused
            else whole == Since(output + first.records, start, Encode(es.rest, prefix, depth, first.count))
  {
    var first := EncodeFirst(es, prefix, depth, count);
    if first.Encoded? {
      var r := Encode(es.rest, prefix, depth, first.count);
      var since := output[|start|..];
      assert (output + first.records)[|start|..] == since + first.records;
      if r.Encoded? {
        assert since + (first.records + r.records) == since + first.records + r.records;
      }
    }
  }

  /** The encoder's entry point. */
  method WriteSnapshot(es: Entries) returns (r: Option<seq<Record>>)
    ensures r == Snapshot(es)
  {
    var e := new Encoder();
    e.Emit(Begin(1));
    assert e.output == [Begin(1)];
    var ok := e.Walk(es, [], 0);
    if !ok {
      return None;
    }
    e.Emit(Finish(e.count));
    return Some(e.output);
  }

  // ----- receiving -----

  class Importer {
    var begun: bool
    var finished: bool
    var current: Option<Path>
    var remaining: nat
    var entries: nat
    var directories: set<Path>
    var staged: Tree
    var modes: seq<(Path, nat)>
    /** What the guest sees under the workspace directory. */
    var workspace: Tree

    function State(): Import
      reads this
    {
      Import(begun, finished, current, remaining, entries, directories, staged, modes)
    }

    constructor (present: Tree)
      ensures State() == Fresh && workspace == present
    {
      begun, finished, current, remaining, entries := false, false, None, 0, 0;
      directories, staged, modes := {[]}, map[], [];
      workspace := present;
    }

    /** Claim a free place for an entry record. */
    method Claim(path: Bytes) returns (p: Option<Path>)
      ensures p == if current.Some? then None else Slot(State(), path)
    {
      if current.Some? {
        return None;
      }
      return Slot(State(), path);
    }

    /** A record that makes an entry. */
    method ReceiveEntry(r: Record) returns (ok: bool)
      requires begun && !finished && IsEntry(r) == 1
      modifies this
      ensures workspace == old(workspace)
      ensures match Step(old(State()), r) case None => !ok case Some(next) => ok && State() == next
    {
      var p := Claim(r.path);
      if p.None? {
        return false;
      }
      match r {
      case Link(_, target) =>
        if target == [] || NUL in target {
          return false;
        }
        staged := staged[p.value := LinkEntry(target)];
      case Directory(_, mode) =>
        if !ModeOk(mode) {
          return false;
        }
        staged := staged[p.value := DirEntry(PRIVATE_MODE)];
        directories := directories + {p.value};
        modes := modes + [(p.value, mode)];
      case Regular(_, mode, size) =>
        if !ModeOk(mode) || size < 0 {
          return false;
        }
        staged := staged[p.value := FileEntry(mode, [])];
        current, remaining := Some(p.value), size;
      }
      entries := entries + 1;
      return true;
    }

    /** One record; false when the import is to be given up. */
    method Receive(r: Record) returns (ok: bool)
      requires current.Some? ==> current.value in staged && staged[current.value].FileEntry?
      modifies this
      ensures workspace == old(workspace)
      ensures match Step(old(State()), r) case None => !ok case Some(next) => ok && State() == next
    {
      if !begun {
        begun := r == Begin(1);
        return begun;
      }
      if finished {
        return false;
      }
      match r
      case Data(data) =>
        if current.None? || |data| > remaining {
          return false;
        }
        var p := current.value;
        staged := staged[p := FileEntry(staged[p].mode, staged[p].content + data)];
        remaining := remaining - |data|;
        return true;
      case EndFile =>
        if current.None? || remaining > 0 {
          return false;
        }
        current := None;
        return true;
      case Finish(n) =>
        if current.Some? || n != entries {
          return false;
        }
        finished := true;
        return true;
      case Begin(_) => return false;
      case Unknown => return false;
      case _ => ok := ReceiveEntry(r);
    }

    /** Give the staged directories their modes, last one first. */
    method SetModes()
      modifies this
      ensures staged == WithModes(old(staged), old(modes)) && workspace == old(workspace)
    {
      ghost var all, before := modes, staged;
      var i := |modes|;
      assert modes[..i] == modes;
      while i > 0
        invariant 0 <= i <= |modes| && modes == all && workspace == old(workspace)
        invariant WithModes(staged, modes[..i]) == WithModes(before, all)
      {
        assert modes[..i][..i - 1] == modes[..i - 1];
        var (p, m) := modes[i - 1];
        staged := staged[p := DirEntry(m)];
        i := i - 1;
      }
    }

    /** The record loop: read, check and apply line after line until the stream ends. */
    method ReceiveAll(ls: seq<Line>) returns (ok: bool)
      requires State() == Fresh
      modifies this
      ensures workspace == old(workspace)
      ensures ok <==> DecodeLines(ls).Some?
      ensures ok ==> WithModes(staged, modes) == DecodeLines(ls).value
    {
      var i := 0;
      ghost var done: seq<Record> := [];
      NothingParsed(ls);
      while i < |ls|
        invariant i <= |ls| && workspace == old(workspace) && Sound(State())
        invariant Parsed(ls[..i]) == Some(done) && Steps(Fresh, done) == Some(State())
      {
        if ls[i].length > MAX_LINE || !ls[i].whole || ls[i].record.None? {
          Unparsed(ls, i);
          return false;
        }
        ghost var st := State();
        var r := ls[i].record.value;
        ParsedMore(ls, i, done);
        StepsMore(done, r, st);
        if Step(st, r).Some? {
          StepSound(st, r);
        }
        var more := Receive(r);
        if !more {
          StoppedEarly(ls, i + 1, done + [r]);
          return false;
        }
        done := done + [r];
        i := i + 1;
      }
      assert ls[..i] == ls;
      return finished;
    }

    /** The import. Nothing but a complete, accepted stream changes an empty workspace, and
        then to exactly what the stream describes. `meanwhile` is what the workspace holds
        when it is looked at a second time. */
    method ImportWorkspace(ls: seq<Line>, meanwhile: Tree) returns (ok: bool)
      requires State() == Fresh
      modifies this
      ensures ok <==> old(workspace) == map[] && meanwhile == map[] && DecodeLines(ls).Some?
      ensures ok ==> workspace == DecodeLines(ls).value
      ensures !ok ==> workspace == old(workspace) || workspace == meanwhile
    {
      if workspace != map[] {
        return false;
      }
      ok := ReceiveAll(ls);
      if !ok {
        return;
      }
      SetModes();
      workspace := meanwhile;
      if workspace != map[] {
        return false;
      }
      workspace := staged;
    }
  }

  lemma NothingParsed(ls: seq<Line>)
    ensures Parsed(ls[..0]) == Some([]) && Steps(Fresh, []) == Some(Fresh) && Sound(Fresh)
  {
    assert ls[..0] == [] && Parsed([]).value == [];
  }

  lemma Unparsed(ls: seq<Line>, i: nat)
    requires i < |ls| && !Readable(ls[i])
    ensures DecodeLines(ls) == None
  {
  }

  lemma ParsedMore(ls: seq<Line>, i: nat, done: seq<Record>)
    requires i < |ls| && Parsed(ls[..i]) == Some(done) && Readable(ls[i])
    ensures Parsed(ls[..i + 1]) == Some(done + [ls[i].record.value])
  {
    var more := ls[..i + 1];
    forall k | 0 <= k < |more| ensures Readable(more[k]) {
      if k < i {
        assert Readable(ls[..i][k]);
      }
    }
    assert Parsed(more).value == done + [ls[i].record.value];
  }

  lemma StepsMore(done: seq<Record>, r: Record, st: Import)
    requires Steps(Fresh, done) == Some(st)
    ensures Steps(Fresh, done + [r]) == Step(st, r)
  {
    StepsAppend(Fresh, done, [r]);
    assert [r][1..] == [];
  }

  lemma StoppedEarly(ls: seq<Line>, n: nat, done: seq<Record>)
    requires n <= |ls| && Parsed(ls[..n]) == Some(done) && Steps(Fresh, done) == None
    ensures DecodeLines(ls) == None
  {
    if Parsed(ls).Some? {
      var rs := Parsed(ls).value;
      assert rs[..n] == done;
      assert rs == done + rs[n..];
      StepsAppend(Fresh, done, rs[n..]);
    }
  }
}
