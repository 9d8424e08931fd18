/** Decoding what the encoder wrote rebuilds the source tree. */
module ImportRoundTrip {
  import opened Text
  import opened ImportStream

  // ----- the source tree as the decoder should publish it -----

  function FlatItem(item: Item, p: Path): Tree {
    match item
    case Folder(mode, inside) => map[p := DirEntry(mode % MODE_MASK)] + Flat(inside, p)
    case Document(mode, content) => map[p := FileEntry(mode % MODE_MASK, content)]
    case Pointer(target) => map[p := LinkEntry(target)]
    case Special => map[]
  }

  /** Everything below directory `p`, by path, with modes masked. */
  function Flat(es: Entries, p: Path): Tree {
    match es
    case Nil => map[]
    case Cons(name, item, rest) => FlatItem(item, p + [name]) + Flat(rest, p)
  }

  /** `k` lies below `p`, under one of the names. */
  predicate Below(k: Path, p: Path, names: set<Bytes>) {
    |k| > |p| && k[..|p|] == p && k[|p|] in names
  }

  lemma {:induction false} FlatBelow(es: Entries, p: Path, k: Path)
    requires k in Flat(es, p)
    ensures Below(k, p, Names(es))
    decreases es
  {
    match es
    case Cons(name, item, rest) =>
      if k in Flat(rest, p) {
        FlatBelow(rest, p, k);
      } else {
        FlatItemBelow(item, p, name, k);
      }
  }

  lemma {:induction false} FlatItemBelow(item: Item, p: Path, name: Bytes, k: Path)
    requires k in FlatItem(item, p + [name])
    ensures Below(k, p, {name})
    decreases item
  {
    var q := p + [name];
    if item.Folder? && k in Flat(item.inside, q) {
      FlatBelow(item.inside, q, k);
      assert k[..|p|] == k[..|q|][..|p|];
      assert k[|p|] == k[..|q|][|p|];
    }
  }

  // ----- paths -----

  predicate GoodPath(p: Path) {
    forall i :: 0 <= i < |p| ==> FileName(p[i])
  }

  lemma PathText(p: Path, name: Bytes)
    requires GoodPath(p) && FileName(name)
    ensures PathIn(Join(p), name) == Join(p + [name])
  {
    if p == [] {
      assert p + [name] == [name];
      assert [name][1..] == [];
      assert name + [] == name;
    } else {
      var q := p + [name];
      JoinCut(q, |p|);
      assert q[..|p|] == p && q[|p|..] == [name];
      assert [name][1..] == [];
      assert name + [] == name;
      assert p[0] != [];
    }
  }

  lemma PlaceOf(p: Path)
    requires GoodPath(p) && p != [] && |Join(p)| <= MAX_PATH
    ensures Place(Join(p)) == Some(p)
  {
    SplitOfJoin(p);
    assert p[0] != [];
    assert forall i :: 0 <= i < |p| ==> SafePart(p[i]);
  }

  // ----- modes -----

  lemma {:induction false} ModesPut(t: Tree, modes: seq<(Path, nat)>, p: Path, e: Entry)
    requires forall i :: 0 <= i < |modes| ==> modes[i].0 != p
    ensures WithModes(t[p := e], modes) == WithModes(t, modes)[p := e]
    decreases |modes|
  {
    if modes != [] {
      var (q, m) := modes[|modes| - 1];
      assert t[p := e][q := DirEntry(m)] == t[q := DirEntry(m)][p := e];
      ModesPut(t[q := DirEntry(m)], modes[..|modes| - 1], p, e);
    }
  }

  lemma ModesDir(t: Tree, modes: seq<(Path, nat)>, p: Path, e: Entry, mode: nat)
    requires forall i :: 0 <= i < |modes| ==> modes[i].0 != p
    ensures WithModes(t[p := e], modes + [(p, mode)]) == WithModes(t, modes)[p := DirEntry(mode)]
  {
    var more := modes + [(p, mode)];
    assert more[..|more| - 1] == modes;
    assert t[p := e][p := DirEntry(mode)] == t[p := DirEntry(mode)];
    ModesPut(t, modes, p, DirEntry(mode));
  }

  // ----- between entries -----

  /** Between two entries: nothing is open, and what has a mode pending is staged. */
  ghost predicate Between(st: Import) {
    && st.begun && !st.finished && st.current.None?
    && forall i :: 0 <= i < |st.modes| ==> st.modes[i].0 in st.staged
  }

  function Published(st: Import): Tree {
    WithModes(st.staged, st.modes)
  }

  /** From `st` to `st'` exactly the entries of `t` were added. */
  ghost predicate Grew(st: Import, st': Import, t: Tree, count: nat) {
    && Between(st') && st'.entries == count
    && Published(st') == Published(st) + t
    && st'.staged.Keys == st.staged.Keys + t.Keys
    && st.directories <= st'.directories
  }

  lemma GrewTrans(a: Import, b: Import, c: Import, t: Tree, u: Tree, n: nat, m: nat)
    requires Grew(a, b, t, n) && Grew(b, c, u, m)
    ensures Grew(a, c, t + u, m)
  {
    assert Published(a) + t + u == Published(a) + (t + u);
    assert (t + u).Keys == t.Keys + u.Keys;
  }

  /** No staged entry stands where the entries of `es` are to go. */
  ghost predicate Free(st: Import, es: Entries, p: Path) {
    forall k :: k in st.staged ==> !Below(k, p, Names(es))
  }

  // ----- single entries -----

  lemma SlotFree(st: Import, p: Path, name: Bytes)
    requires GoodPath(p) && FileName(name) && p in st.directories && p + [name] !in st.staged
    requires |Join(p + [name])| <= MAX_PATH && st.entries + 1 <= MAX_ENTRIES
    ensures Slot(st, Join(p + [name])) == Some(p + [name])
  {
    var q := p + [name];
    PlaceOf(q);
    assert q[..|q| - 1] == p;
  }

  lemma {:induction false} ChunksDecode(st: Import, p: Path, mode: nat, done: Bytes, content: Bytes)
    requires st.begun && !st.finished && st.current == Some(p) && st.remaining == |content|
    requires p in st.staged && st.staged[p] == FileEntry(mode, done)
    ensures Steps(st, Chunks(content))
            == Some(st.(remaining := 0, staged := st.staged[p := FileEntry(mode, done + content)]))
    decreases |content|
  {
    var end := st.(remaining := 0, staged := st.staged[p := FileEntry(mode, done + content)]);
    if content == [] {
      assert done + content == done;
      assert st.staged[p := FileEntry(mode, done)] == st.staged;
    } else if |content| <= CHUNK {
      assert Step(st, Data(content)) == Some(end);
      assert [Data(content)][1..] == [];
    } else {
      var head, tail := content[..CHUNK], content[CHUNK..];
      var next := st.(remaining := |tail|, staged := st.staged[p := FileEntry(mode, done + head)]);
      assert Step(st, Data(head)) == Some(next);
      ChunksDecode(next, p, mode, done + head, tail);
      assert done + head + tail == done + content;
      assert next.staged[p := FileEntry(mode, done + content)] == end.staged;
      assert ([Data(head)] + Chunks(tail))[1..] == Chunks(tail);
    }
  }

  lemma One(st: Import, r: Record)
    ensures Steps(st, [r]) == Step(st, r)
  {
    assert [r][1..] == [];
  }

  lemma PutGrew(st: Import, st': Import, p: Path, e: Entry)
    requires Between(st) && p !in st.staged && Between(st')
    requires st'.staged == st.staged[p := e] && st'.modes == st.modes && st'.entries == st.entries + 1
    requires st'.directories == st.directories
    ensures Grew(st, st', map[p := e], st.entries + 1)
  {
    ModesPut(st.staged, st.modes, p, e);
  }

  lemma DocumentDecodes(st: Import, p: Path, path: Bytes, mode: nat, content: Bytes)
    requires Between(st) && p !in st.staged && Slot(st, path) == Some(p)
    ensures var rs := [Regular(path, mode % MODE_MASK, |content|)] + Chunks(content) + [EndFile];
            var r := Steps(st, rs);
            r.Some? && Grew(st, r.value, map[p := FileEntry(mode % MODE_MASK, content)], st.entries + 1)
  {
    var m := mode % MODE_MASK;
    var first, last := Regular(path, m, |content|), EndFile;
    var start := Put(st, p, FileEntry(m, [])).(current := Some(p), remaining := |content|);
    assert Step(st, first) == Some(start);
    One(st, first);
    ChunksDecode(start, p, m, [], content);
    assert [] + content == content;
    var full := start.(remaining := 0, staged := start.staged[p := FileEntry(m, content)]);
    StepsAppend(st, [first], Chunks(content));
    StepsAppend(st, [first] + Chunks(content), [last]);
    One(full, last);
    var end := full.(current := None);
    assert end.staged == st.staged[p := FileEntry(m, content)];
    PutGrew(st, end, p, FileEntry(m, content));
  }

  lemma PointerDecodes(st: Import, p: Path, path: Bytes, target: Bytes)
    requires Between(st) && p !in st.staged && Slot(st, path) == Some(p) && NUL !in target
    ensures var r := Steps(st, [Link(path, target)]);
            if target == [] then r.None? else r.Some? && Grew(st, r.value, map[p := LinkEntry(target)], st.entries + 1)
  {
    One(st, Link(path, target));
    if target != [] {
      PutGrew(st, Put(st, p, LinkEntry(target)), p, LinkEntry(target));
    }
  }

  /** The state after a directory record. */
  function Opened(st: Import, p: Path, mode: nat): Import {
    Put(st, p, DirEntry(PRIVATE_MODE)).(directories := st.directories + {p}, modes := st.modes + [(p, mode)])
  }

  lemma OpenedGrew(st: Import, p: Path, mode: nat)
    requires Between(st) && p !in st.staged
    ensures Grew(st, Opened(st, p, mode), map[p := DirEntry(mode)], st.entries + 1)
  {
    ModesDir(st.staged, st.modes, p, DirEntry(PRIVATE_MODE), mode);
    var st' := Opened(st, p, mode);
    forall i | 0 <= i < |st'.modes| ensures st'.modes[i].0 in st'.staged {
      assert i < |st.modes| ==> st'.modes[i] == st.modes[i];
    }
    assert Published(st') == Published(st) + map[p := DirEntry(mode)];
  }

  lemma FolderOpens(st: Import, p: Path, path: Bytes, mode: nat)
    requires Between(st) && Slot(st, path) == Some(p)
    ensures Steps(st, [Directory(path, mode % MODE_MASK)]) == Some(Opened(st, p, mode % MODE_MASK))
  {
    One(st, Directory(path, mode % MODE_MASK));
  }

  // ----- whole directories -----

  lemma Deeper(k: Path, p: Path, name: Bytes, names: set<Bytes>)
    ensures Below(k, p + [name], names) ==> Below(k, p, {name})
  {
    var q := p + [name];
    if Below(k, q, names) {
      assert k[..|p|] == k[..|q|][..|p|] && k[|p|] == k[..|q|][|p|];
    }
  }

  lemma FreeInside(st: Import, st1: Import, es: Entries, p: Path)
    requires es.Cons? && es.item.Folder? && Free(st, es, p) && st1.staged.Keys == st.staged.Keys + {p + [es.name]}
    ensures Free(st1, es.item.inside, p + [es.name])
  {
    var q := p + [es.name];
    forall k | k in st1.staged ensures !Below(k, q, Names(es.item.inside)) {
      Deeper(k, p, es.name, Names(es.item.inside));
    }
  }

  lemma FreeRest(st: Import, st1: Import, es: Entries, p: Path, t: Tree)
    requires es.Cons? && es.name !in Names(es.rest) && Free(st, es, p) && st1.staged.Keys == st.staged.Keys + t.Keys
    requires forall k :: k in t ==> Below(k, p, {es.name})
    ensures Free(st1, es.rest, p)
  {
    forall k | k in st1.staged ensures !Below(k, p, Names(es.rest)) {
      if k in st.staged {
        assert !Below(k, p, Names(es));
      } else {
        assert Below(k, p, {es.name});
      }
    }
  }

  /** The decoder does what `t` says, when every link leads somewhere, and raises otherwise. */
  ghost predicate Decodes(st: Import, r: Encoded, t: Tree, leads: bool) {
    r.Encoded? ==>
      var end := Steps(st, r.records);
      if leads then end.Some? && Grew(st, end.value, t, r.count) else end.None?
  }

  predicate ItemLeads(item: Item) {
    match item
    case Folder(_, inside) => LinksLead(inside)
    case Pointer(target) => target != []
    case _ => true
  }

  lemma LeafDecodes(st: Import, item: Item, q: Path, path: Bytes, depth: nat)
    requires Between(st) && q !in st.staged && Slot(st, path) == Some(q) && ItemOnDisk(item) && !item.Folder?
    ensures Decodes(st, EncodeItem(item, path, depth, st.entries + 1), FlatItem(item, q), ItemLeads(item))
  {
    match item
    case Pointer(target) => PointerDecodes(st, q, path, target);
    case Special =>
    case Document(mode, content) => DocumentDecodes(st, q, path, mode, content);
  }

  lemma {:induction false} FolderDecodes(st: Import, es: Entries, p: Path, path: Bytes, depth: nat)
    requires es.Cons? && es.item.Folder? && OnDisk(es) && Between(st) && GoodPath(p) && Free(st, es, p)
    requires path == Join(p + [es.name]) && p + [es.name] !in st.staged && Slot(st, path) == Some(p + [es.name])
    ensures Decodes(st, EncodeItem(es.item, path, depth, st.entries + 1), FlatItem(es.item, p + [es.name]), LinksLead(es.item.inside))
    decreases es, 0
  {
    var q, mode, inside := p + [es.name], es.item.mode, es.item.inside;
    var m := mode % MODE_MASK;
    if depth + 1 <= MAX_DEPTH {
      FolderOpens(st, q, path, mode);
      OpenedGrew(st, q, m);
      var st1 := Opened(st, q, m);
      FreeInside(st, st1, es, p);
      assert GoodPath(q);
      DirectoryDecodes(st1, inside, q, depth + 1);
      FolderCloses(st, st1, inside, q, path, mode, depth);
    }
  }

  lemma {:induction false} ItemDecodes(st: Import, es: Entries, p: Path, depth: nat)
    requires es.Cons? && OnDisk(es) && Between(st) && GoodPath(p) && p in st.directories && Free(st, es, p)
    requires |Join(p + [es.name])| <= MAX_PATH && st.entries + 1 <= MAX_ENTRIES
    ensures Decodes(st, EncodeItem(es.item, Join(p + [es.name]), depth, st.entries + 1), FlatItem(es.item, p + [es.name]), ItemLeads(es.item))
    decreases es, 1
  {
    var q := p + [es.name];
    assert Below(q, p, Names(es)) by { assert q[..|p|] == p; }
    SlotFree(st, p, es.name);
    if es.item.Folder? {
      FolderDecodes(st, es, p, Join(q), depth);
    } else {
      LeafDecodes(st, es.item, q, Join(q), depth);
    }
  }

  lemma FolderCloses(st: Import, st1: Import, inside: Entries, q: Path, path: Bytes, mode: nat, depth: nat)
    requires var m := mode % MODE_MASK;
             Steps(st, [Directory(path, m)]) == Some(st1) && Grew(st, st1, map[q := DirEntry(m)], st.entries + 1)
    requires Decodes(st1, Encode(inside, path, depth + 1, st.entries + 1), Flat(inside, q), LinksLead(inside))
    ensures var m := mode % MODE_MASK;
            Decodes(st, Append([Directory(path, m)], Encode(inside, path, depth + 1, st.entries + 1)),
                    map[q := DirEntry(m)] + Flat(inside, q), LinksLead(inside))
  {
    var m := mode % MODE_MASK;
    var r := Encode(inside, path, depth + 1, st.entries + 1);
    if r.Encoded? {
      StepsAppend(st, [Directory(path, m)], r.records);
      if LinksLead(inside) {
        GrewTrans(st, st1, Steps(st1, r.records).value, map[q := DirEntry(m)], Flat(inside, q), st.entries + 1, r.count);
      }
    }
  }

  lemma {:induction false} DirectoryDecodes(st: Import, es: Entries, p: Path, depth: nat)
    requires OnDisk(es) && Between(st) && GoodPath(p) && p in st.directories && Free(st, es, p)
    ensures Decodes(st, Encode(es, Join(p), depth, st.entries), Flat(es, p), LinksLead(es))
    decreases es, 2
  {
    match es
    case Nil =>
      assert Published(st) + map[] == Published(st);
      assert Grew(st, st, map[], st.entries);
    case Cons(name, item, rest) =>
      PathText(p, name);
      var path := Join(p + [name]);
      if st.entries + 1 <= MAX_ENTRIES && |path| <= MAX_PATH {
        ItemDecodes(st, es, p, depth);
        var first := EncodeItem(item, path, depth, st.entries + 1);
        if first.Encoded? {
          if ItemLeads(item) {
            var st1 := Steps(st, first.records).value;
            forall k | k in FlatItem(item, p + [name]) ensures Below(k, p, {name}) {
              FlatItemBelow(item, p, name, k);
            }
            FreeRest(st, st1, es, p, FlatItem(item, p + [name]));
            DirectoryDecodes(st1, rest, p, depth);
          }
          RestDecodes(st, es, p, depth, first);
        }
      }
  }

  lemma RestDecodes(st: Import, es: Entries, p: Path, depth: nat, first: Encoded)
    requires es.Cons? && first.Encoded? && Decodes(st, first, FlatItem(es.item, p + [es.name]), ItemLeads(es.item))
    requires ItemLeads(es.item) ==>
               var st1 := Steps(st, first.records).value;
               Decodes(st1, Encode(es.rest, Join(p), depth, first.count), Flat(es.rest, p), LinksLead(es.rest))
    ensures Decodes(st, Append(first.records, Encode(es.rest, Join(p), depth, first.count)), Flat(es, p), LinksLead(es))
  {
    var r := Encode(es.rest, Join(p), depth, first.count);
    if r.Encoded? {
      StepsAppend(st, first.records, r.records);
      if ItemLeads(es.item) && LinksLead(es.rest) {
        var st1 := Steps(st, first.records).value;
        GrewTrans(st, st1, Steps(st1, r.records).value, FlatItem(es.item, p + [es.name]), Flat(es.rest, p), first.count, r.count);
      }
    }
  }

  // ----- what is published, looked up path by path -----

  function EntryOf(item: Item): Option<Entry> {
    match item
    case Folder(mode, _) => Some(DirEntry(mode % MODE_MASK))
    case Document(mode, content) => Some(FileEntry(mode % MODE_MASK, content))
    case Pointer(target) => Some(LinkEntry(target))
    case Special => None
  }

  /** What the source tree has at a path. */
  function At(es: Entries, p: Path): Option<Entry>
    requires p != []
    decreases es
  {
    match es
    case Nil => None
    case Cons(name, item, rest) =>
      if name != p[0] then At(rest, p)
      else if |p| == 1 then EntryOf(item)
      else if item.Folder? then At(item.inside, p[1..])
      else None
  }

  /** `t` has at each path below `base` what the tree `es` has there. */
  ghost predicate Shows(t: Tree, base: Path, es: Entries) {
    forall p :: p != [] ==> (if base + p in t then Some(t[base + p]) else None) == At(es, p)
  }

  lemma {:induction false} NotNamed(es: Entries, p: Path)
    requires p != [] && p[0] !in Names(es)
    ensures At(es, p) == None
    decreases es
  {
    if es.Cons? {
      NotNamed(es.rest, p);
    }
  }

  lemma {:induction false} FlatShows(es: Entries, base: Path, p: Path)
    requires OnDisk(es) && p != []
    ensures (if base + p in Flat(es, base) then Some(Flat(es, base)[base + p]) else None) == At(es, p)
    decreases es
  {
    match es
    case Nil =>
    case Cons(name, item, rest) =>
      var k := base + p;
      assert k[..|base|] == base && k[|base|] == p[0];
      FlatShows(rest, base, p);
      if p[0] == name {
        NotNamed(rest, p);
        ItemShows(item, base, name, p);
      } else if k in FlatItem(item, base + [name]) {
        FlatItemBelow(item, base, name, k);
      }
  }

  lemma {:induction false} ItemShows(item: Item, base: Path, name: Bytes, p: Path)
    requires ItemOnDisk(item) && p != [] && p[0] == name
    ensures var t := FlatItem(item, base + [name]);
            (if base + p in t then Some(t[base + p]) else None)
            == if |p| == 1 then EntryOf(item) else if item.Folder? then At(item.inside, p[1..]) else None
    decreases item
  {
    var q, k := base + [name], base + p;
    if |p| == 1 {
      assert p == [name];
      if item.Folder? && q in Flat(item.inside, q) {
        FlatBelow(item.inside, q, q);
      }
    } else {
      assert k == q + p[1..];
      assert k != q;
      if item.Folder? {
        FlatShows(item.inside, q, p[1..]);
      }
    }
  }

  // ----- the theorem -----

  /** Decoding the stream of a tree that the encoder took. */
  lemma TakenDecodes(es: Entries)
    requires OnDisk(es) && Snapshot(es).Some?
    ensures var r := Decode(Snapshot(es).value);
            if LinksLead(es) then r.Some? && [] !in r.value && Shows(r.value, [], es) else r.None?
  {
    RoundTripFlat(es);
    forall p | p != [] ensures (if [] + p in Flat(es, []) then Some(Flat(es, [])[[] + p]) else None) == At(es, p) {
      FlatShows(es, [], p);
    }
    if [] in Flat(es, []) {
      FlatBelow(es, [], []);
    }
  }

  lemma RoundTripFlat(es: Entries)
    requires OnDisk(es) && Snapshot(es).Some?
    ensures Decode(Snapshot(es).value) == if LinksLead(es) then Some(Flat(es, [])) else None
  {
    var r := Encode(es, [], 0, 0);
    var st := Fresh.(begun := true);
    DirectoryDecodes(st, es, [], 0);
    StepsAppend(Fresh, [Begin(1)], r.records);
    StepsAppend(Fresh, [Begin(1)] + r.records, [Finish(r.count)]);
    One(Fresh, Begin(1));
    if LinksLead(es) {
      One(Steps(st, r.records).value, Finish(r.count));
      assert Published(st) + Flat(es, []) == Flat(es, []);
    }
  }
}
