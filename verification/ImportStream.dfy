/** The import stream: records, the encoder's walk and the decoder's steps. */
module ImportStream {
  import opened Text

  const MAX_ENTRIES: nat := 1000000
  const MAX_PATH: nat := 4096
  const MAX_DEPTH: nat := 128
  const CHUNK: nat := 49152
  const MODE_MASK: nat := 512
  const MAX_SIZE: nat := 0x1_0000_0000_0000_0000

  /** One line of the stream. Paths and targets are UTF-8 texts. */
  datatype Record =
    | Begin(protocol: int)
    | Directory(path: Bytes, mode: int)
    | Regular(path: Bytes, mode: int, size: int)
    | Data(data: Bytes)
    | EndFile
    | Link(path: Bytes, target: Bytes)
    | Finish(entries: int)
    | Unknown

  // ----- the source tree -----

  /** What a directory holds, in the order in which its names sort. */
  datatype Entries = Nil | Cons(name: Bytes, item: Item, rest: Entries)

  datatype Item =
    | Folder(mode: nat, inside: Entries)
    | Document(mode: nat, content: Bytes)
    | Pointer(target: Bytes)
    | Special

  function Names(es: Entries): set<Bytes> {
    match es
    case Nil => {}
    case Cons(name, _, rest) => {name} + Names(rest)
  }

  predicate FileName(n: Bytes) {
    IsName(n) && NUL !in n
  }

  /** What any directory tree on disk satisfies. */
  predicate OnDisk(es: Entries) {
    match es
    case Nil => true
    case Cons(name, item, rest) =>
      FileName(name) && name !in Names(rest) && ItemOnDisk(item) && OnDisk(rest)
  }

  predicate ItemOnDisk(item: Item) {
    match item
    case Folder(_, inside) => OnDisk(inside)
    case Document(_, content) => |content| < MAX_SIZE
    case Pointer(target) => NUL !in target
    case Special => true
  }

  /** No link in the tree has an empty target. */
  predicate LinksLead(es: Entries) {
    match es
    case Nil => true
    case Cons(_, item, rest) =>
      && (match item case Folder(_, inside) => LinksLead(inside) case Pointer(target) => target != [] case _ => true)
      && LinksLead(rest)
  }

  // ----- the encoder -----

  datatype Encoded = Encoded(records: seq<Record>, count: nat) | Refused

  function PathIn(prefix: Bytes, name: Bytes): Bytes {
    if prefix == [] then name else prefix + [SLASH] + name
  }

  /** A file's bytes in records of at most 48 KiB. */
  function Chunks(content: Bytes): seq<Record> {
    if content == [] then []
    else if |content| <= CHUNK then [Data(content)]
    else [Data(content[..CHUNK])] + Chunks(content[CHUNK..])
  }

  function Append(records: seq<Record>, r: Encoded): Encoded {
    if r.Refused? then Refused else Encoded(records + r.records, r.count)
  }

  /** The records of one entry whose path is `path`. */
  function EncodeItem(item: Item, path: Bytes, depth: nat, count: nat): Encoded {
    match item
    case Pointer(target) => if |target| > MAX_PATH then Refused else Encoded([Link(path, target)], count)
    case Special => Refused
    case Document(mode, content) =>
      Encoded([Regular(path, mode % MODE_MASK, |content|)] + Chunks(content) + [EndFile], count)
    case Folder(mode, inside) =>
      if depth + 1 > MAX_DEPTH then Refused
      else Append([Directory(path, mode % MODE_MASK)], Encode(inside, path, depth + 1, count))
  }

  /** The records of what a directory holds; `count` entries came before. */
  function Encode(es: Entries, prefix: Bytes, depth: nat, count: nat): Encoded {
    match es
    case Nil => Encoded([], count)
    case Cons(name, item, rest) =>
      var path := PathIn(prefix, name);
      if count + 1 > MAX_ENTRIES || |path| > MAX_PATH then Refused
      else
        var first := EncodeItem(item, path, depth, count + 1);
        if first.Refused? then Refused
        else Append(first.records, Encode(rest, prefix, depth, first.count))
  }

  /** The whole stream. */
  function Snapshot(es: Entries): Option<seq<Record>> {
    match Encode(es, [], 0, 0)
    case Refused => None
    case Encoded(records, count) => Some([Begin(1)] + records + [Finish(count)])
  }

  // ----- the decoder -----

  type Path = seq<Bytes>

  datatype Entry = DirEntry(mode: nat) | FileEntry(mode: nat, content: Bytes) | LinkEntry(target: Bytes)

  type Tree = map<Path, Entry>

  const PRIVATE_MODE: nat := 448

  /** The decoder's variables. `directories` holds the root as the empty path. */
  datatype Import = Import(
    begun: bool,
    finished: bool,
    current: Option<Path>,
    remaining: nat,
    entries: nat,
    directories: set<Path>,
    staged: Tree,
    modes: seq<(Path, nat)>)

  const Fresh: Import := Import(false, false, None, 0, 0, {[]}, map[], [])

  predicate SafePart(p: Bytes) {
    p != [] && p != DOT && p != DOTDOT && NUL !in p
  }

  /** The place an entry record names: its parts, when they are safe. */
  function Place(path: Bytes): Option<Path> {
    var parts := Split(path);
    if path == [] || |path| > MAX_PATH || exists p :: p in parts && !SafePart(p) then None
    else Some(parts)
  }

  predicate ModeOk(mode: int) {
    0 <= mode < MODE_MASK
  }

  /** Where an entry record may put its entry: below a directory of this stream, at a free name. */
  function Slot(st: Import, path: Bytes): Option<Path> {
    match Place(path)
    case None => None
    case Some(parts) =>
      if parts[..|parts| - 1] !in st.directories || parts in st.staged || st.entries + 1 > MAX_ENTRIES then None
      else Some(parts)
  }

  function Put(st: Import, p: Path, e: Entry): Import {
    st.(staged := st.staged[p := e], entries := st.entries + 1)
  }

  /** One record; `None` when the decoder raises. */
  function Step(st: Import, r: Record): Option<Import> {
    if !st.begun then
      if r == Begin(1) then Some(st.(begun := true)) else None
    else if st.finished then None
    else match r
      case Data(data) =>
        if st.current.None? || |data| > st.remaining then None
        else
          var p := st.current.value;
          if p in st.staged && st.staged[p].FileEntry? then
            Some(st.(remaining := st.remaining - |data|,
                     staged := st.staged[p := FileEntry(st.staged[p].mode, st.staged[p].content + data)]))
          else None
      case EndFile =>
        if st.current.None? || st.remaining > 0 then None else Some(st.(current := None))
      case Finish(n) =>
        if st.current.Some? || n != st.entries then None else Some(st.(finished := true))
      case Link(path, target) =>
        if st.current.Some? || Slot(st, path).None? || target == [] || NUL in target then None
        else Some(Put(st, Slot(st, path).value, LinkEntry(target)))
      case Directory(path, mode) =>
        if st.current.Some? || Slot(st, path).None? || !ModeOk(mode) then None
        else
          var p := Slot(st, path).value;
          Some(Put(st, p, DirEntry(PRIVATE_MODE)).(directories := st.directories + {p}, modes := st.modes + [(p, mode)]))
      case Regular(path, mode, size) =>
        if st.current.Some? || Slot(st, path).None? || !ModeOk(mode) || size < 0 then None
        else
          var p := Slot(st, path).value;
          Some(Put(st, p, FileEntry(mode, [])).(current := Some(p), remaining := size))
      case Begin(_) => None
      case Unknown => None
  }

  function Steps(st: Import, rs: seq<Record>): Option<Import>
    decreases |rs|
  {
    if rs == [] then Some(st)
    else match Step(st, rs[0])
      case None => None
      case Some(next) => Steps(next, rs[1..])
  }

  /** Directories get their modes last, the deepest first. */
  function WithModes(t: Tree, modes: seq<(Path, nat)>): Tree
    decreases |modes|
  {
    if modes == [] then t
    else
      var (p, m) := modes[|modes| - 1];
      WithModes(t[p := DirEntry(m)], modes[..|modes| - 1])
  }

  /** What an accepted stream publishes. */
  function Decode(rs: seq<Record>): Option<Tree> {
    match Steps(Fresh, rs)
    case None => None
    case Some(st) => if st.finished then Some(WithModes(st.staged, st.modes)) else None
  }

  lemma {:induction false} StepsAppend(st: Import, a: seq<Record>, b: seq<Record>)
    ensures Steps(st, a + b) == match Steps(st, a) case None => None case Some(next) => Steps(next, b)
    decreases |a|
  {
    if a == [] {
      assert a + b == b;
    } else {
      assert (a + b)[1..] == a[1..] + b;
      match Step(st, a[0])
      case None =>
      case Some(next) => StepsAppend(next, a[1..], b);
    }
  }
}
