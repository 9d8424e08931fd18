/** The printer and the parser of operations undo each other. */
module OpLines {
  import opened Text
  import opened FsOps
  import opened OpText

  const U32: nat := 0x1_0000_0000
  const USIZE: nat := 0x1_0000_0000_0000_0000

  /** The first word of a line. */
  datatype Cmd =
    | MkdirCmd | OpenCmd | WriteCmd | ReadCmd | SymlinkCmd | ReadlinkCmd
    | RenameCmd | UnlinkCmd | RmdirCmd | ChdirCmd | GetcwdCmd | RealpathCmd
    | StatCmd | LstatCmd | OpendirCmd | OpenatCmd | MkdiratCmd | UnlinkatCmd
    | BindCmd | ConnectCmd | MkstempCmd | ListCmd | CloseCmd

  function CmdText(c: Cmd): Bytes {
    match c
    case MkdirCmd => [109, 107, 100, 105, 114] // mkdir
    case OpenCmd => [111, 112, 101, 110] // open
    case WriteCmd => [119, 114, 105, 116, 101] // write
    case ReadCmd => [114, 101, 97, 100] // read
    case SymlinkCmd => [115, 121, 109, 108, 105, 110, 107] // symlink
    case ReadlinkCmd => [114, 101, 97, 100, 108, 105, 110, 107] // readlink
    case RenameCmd => [114, 101, 110, 97, 109, 101] // rename
    case UnlinkCmd => [117, 110, 108, 105, 110, 107] // unlink
    case RmdirCmd => [114, 109, 100, 105, 114] // rmdir
    case ChdirCmd => [99, 104, 100, 105, 114] // chdir
    case GetcwdCmd => [103, 101, 116, 99, 119, 100] // getcwd
    case RealpathCmd => [114, 101, 97, 108, 112, 97, 116, 104] // realpath
    case StatCmd => [115, 116, 97, 116] // stat
    case LstatCmd => [108, 115, 116, 97, 116] // lstat
    case OpendirCmd => [111, 112, 101, 110, 100, 105, 114] // opendir
    case OpenatCmd => [111, 112, 101, 110, 97, 116] // openat
    case MkdiratCmd => [109, 107, 100, 105, 114, 97, 116] // mkdirat
    case UnlinkatCmd => [117, 110, 108, 105, 110, 107, 97, 116] // unlinkat
    case BindCmd => [98, 105, 110, 100] // bind
    case ConnectCmd => [99, 111, 110, 110, 101, 99, 116] // connect
    case MkstempCmd => [109, 107, 115, 116, 101, 109, 112] // mkstemp
    case ListCmd => [108, 105, 115, 116] // list
    case CloseCmd => [99, 108, 111, 115, 101] // close
  }

  const ALL: seq<Cmd> := [MkdirCmd, OpenCmd, WriteCmd, ReadCmd, SymlinkCmd, ReadlinkCmd, RenameCmd, UnlinkCmd,
                          RmdirCmd, ChdirCmd, GetcwdCmd, RealpathCmd, StatCmd, LstatCmd, OpendirCmd, OpenatCmd,
                          MkdiratCmd, UnlinkatCmd, BindCmd, ConnectCmd, MkstempCmd, ListCmd, CloseCmd]

  /** The first of the commands whose text this is. */
  function FindCmd(t: Bytes, from: seq<Cmd>): Option<Cmd> {
    if from == [] then None
    else if CmdText(from[0]) == t then Some(from[0])
    else FindCmd(t, from[1..])
  }

  /** Length, first and last byte tell the commands apart. */
  function Sign(c: Cmd): (nat, byte, byte) {
    match c
    case MkdirCmd => (5, 109, 114)
    case OpenCmd => (4, 111, 110)
    case WriteCmd => (5, 119, 101)
    case ReadCmd => (4, 114, 100)
    case SymlinkCmd => (7, 115, 107)
    case ReadlinkCmd => (8, 114, 107)
    case RenameCmd => (6, 114, 101)
    case UnlinkCmd => (6, 117, 107)
    case RmdirCmd => (5, 114, 114)
    case ChdirCmd => (5, 99, 114)
    case GetcwdCmd => (6, 103, 100)
    case RealpathCmd => (8, 114, 104)
    case StatCmd => (4, 115, 116)
    case LstatCmd => (5, 108, 116)
    case OpendirCmd => (7, 111, 114)
    case OpenatCmd => (6, 111, 116)
    case MkdiratCmd => (7, 109, 116)
    case UnlinkatCmd => (8, 117, 116)
    case BindCmd => (4, 98, 100)
    case ConnectCmd => (7, 99, 116)
    case MkstempCmd => (7, 109, 112)
    case ListCmd => (4, 108, 116)
    case CloseCmd => (5, 99, 101)
  }

  lemma SignOf(c: Cmd)
    ensures var t := CmdText(c); t != [] && Sign(c) == (|t|, t[0], t[|t| - 1]) && IsToken(t)
  {
  }

  lemma SignTells(a: Cmd, b: Cmd)
    requires Sign(a) == Sign(b)
    ensures a == b
  {
  }

  lemma CmdTells(a: Cmd, b: Cmd)
    requires CmdText(a) == CmdText(b)
    ensures a == b
  {
    SignOf(a);
    SignOf(b);
    SignTells(a, b);
  }

  lemma {:induction false} FindIs(c: Cmd, from: seq<Cmd>)
    requires c in from
    ensures FindCmd(CmdText(c), from) == Some(c)
  {
    if CmdText(from[0]) == CmdText(c) {
      CmdTells(from[0], c);
    } else {
      FindIs(c, from[1..]);
    }
  }

  lemma CmdListed(c: Cmd)
    ensures c in ALL
  {
    var k := match c
      case MkdirCmd => 0
      case OpenCmd => 1
      case WriteCmd => 2
      case ReadCmd => 3
      case SymlinkCmd => 4
      case ReadlinkCmd => 5
      case RenameCmd => 6
      case UnlinkCmd => 7
      case RmdirCmd => 8
      case ChdirCmd => 9
      case GetcwdCmd => 10
      case RealpathCmd => 11
      case StatCmd => 12
      case LstatCmd => 13
      case OpendirCmd => 14
      case OpenatCmd => 15
      case MkdiratCmd => 16
      case UnlinkatCmd => 17
      case BindCmd => 18
      case ConnectCmd => 19
      case MkstempCmd => 20
      case ListCmd => 21
      case CloseCmd => 22
    ;
    assert ALL[k] == c;
  }

  // ----- fields -----

  function Bit(b: bool): byte {
    if b then 49 else 48
  }

  function FlagText(f: OpenFlags): Bytes {
    [Bit(f.create), Bit(f.excl), Bit(f.trunc), Bit(f.write), Bit(f.directory), Bit(f.nofollow)]
  }

  predicate IsBit(b: byte) {
    b == 48 || b == 49
  }

  /** Exactly six `0` or `1` characters. */
  function ParseFlags(t: Bytes): Option<OpenFlags> {
    if |t| == 6 && IsBit(t[0]) && IsBit(t[1]) && IsBit(t[2]) && IsBit(t[3]) && IsBit(t[4]) && IsBit(t[5])
    then Some(OpenFlags(t[0] == 49, t[1] == 49, t[2] == 49, t[3] == 49, t[4] == 49, t[5] == 49))
    else None
  }

  const TRUE: Bytes := [116, 114, 117, 101]
  const FALSE: Bytes := [102, 97, 108, 115, 101]

  function BoolText(b: bool): Bytes {
    if b then TRUE else FALSE
  }

  function ParseBool(t: Bytes): Option<bool> {
    if t == TRUE then Some(true) else if t == FALSE then Some(false) else None
  }

  /** A path operand may not hold a NUL. */
  function ParsePath(t: Bytes): Option<Bytes> {
    match Unescaped(t)
    case None => None
    case Some(bs) => if NUL in bs then None else Some(bs)
  }

  lemma PathField(bs: Bytes)
    ensures ParsePath(Escaped(bs)) == (if NUL in bs then None else Some(bs)) && IsToken(Escaped(bs))
  {
    EscapeRoundTrip(bs);
    EscapedToken(bs);
  }

  lemma FlagField(f: OpenFlags)
    ensures ParseFlags(FlagText(f)) == Some(f) && IsToken(FlagText(f))
  {
  }

  lemma BoolField(b: bool)
    ensures ParseBool(BoolText(b)) == Some(b) && IsToken(BoolText(b))
  {
    assert |TRUE| != |FALSE|;
  }

  // ----- operations -----

  function CmdOf(op: Op): Cmd {
    match op
    case Mkdir(_, _) => MkdirCmd
    case Open(_, _) => OpenCmd
    case Write(_, _) => WriteCmd
    case Read(_, _) => ReadCmd
    case SymlinkOp(_, _) => SymlinkCmd
    case Readlink(_) => ReadlinkCmd
    case Rename(_, _) => RenameCmd
    case Unlink(_) => UnlinkCmd
    case Rmdir(_) => RmdirCmd
    case Chdir(_) => ChdirCmd
    case Getcwd => GetcwdCmd
    case Realpath(_) => RealpathCmd
    case Stat(_) => StatCmd
    case Lstat(_) => LstatCmd
    case OpenDir(_) => OpendirCmd
    case OpenAt(_, _, _) => OpenatCmd
    case MkdirAt(_, _) => MkdiratCmd
    case UnlinkAt(_, _, _) => UnlinkatCmd
    case Bind(_) => BindCmd
    case Connect(_) => ConnectCmd
    case MkstempAdopt(_) => MkstempCmd
    case List(_) => ListCmd
    case CloseFd(_) => CloseCmd
  }

  function Args(op: Op): seq<Bytes> {
    match op
    case Mkdir(path, mode) => [Escaped(path), Digits(mode, 8)]
    case Open(path, flags) => [Escaped(path), FlagText(flags)]
    case Write(fd, data) => [Digits(fd, 10), Escaped(data)]
    case Read(fd, len) => [Digits(fd, 10), Digits(len, 10)]
    case SymlinkOp(target, path) => [Escaped(target), Escaped(path)]
    case Readlink(path) => [Escaped(path)]
    case Rename(from, to) => [Escaped(from), Escaped(to)]
    case Unlink(path) => [Escaped(path)]
    case Rmdir(path) => [Escaped(path)]
    case Chdir(path) => [Escaped(path)]
    case Getcwd => []
    case Realpath(path) => [Escaped(path)]
    case Stat(path) => [Escaped(path)]
    case Lstat(path) => [Escaped(path)]
    case OpenDir(path) => [Escaped(path)]
    case OpenAt(fd, path, flags) => [Digits(fd, 10), Escaped(path), FlagText(flags)]
    case MkdirAt(fd, path) => [Digits(fd, 10), Escaped(path)]
    case UnlinkAt(fd, path, rmdir) => [Digits(fd, 10), Escaped(path), BoolText(rmdir)]
    case Bind(path) => [Escaped(path)]
    case Connect(path) => [Escaped(path)]
    case MkstempAdopt(name) => [Escaped(name)]
    case List(path) => [Escaped(path)]
    case CloseFd(fd) => [Digits(fd, 10)]
  }

  function ToLine(op: Op): Bytes {
    Spaced([CmdText(CmdOf(op))] + Args(op))
  }

  /** The operation with a single path operand that a command stands for. */
  function PathOp(c: Cmd, path: Bytes): Option<Op> {
    match c
    case ReadlinkCmd => Some(Readlink(path))
    case UnlinkCmd => Some(Unlink(path))
    case RmdirCmd => Some(Rmdir(path))
    case ChdirCmd => Some(Chdir(path))
    case RealpathCmd => Some(Realpath(path))
    case StatCmd => Some(Stat(path))
    case LstatCmd => Some(Lstat(path))
    case OpendirCmd => Some(OpenDir(path))
    case BindCmd => Some(Bind(path))
    case ConnectCmd => Some(Connect(path))
    case MkstempCmd => Some(MkstempAdopt(path))
    case ListCmd => Some(List(path))
    case _ => None
  }

  function ParseOne(c: Cmd, t: Bytes): Option<Op> {
    if c == CloseCmd then
      match ParseNum(t, 10, U32) case None => None case Some(fd) => Some(CloseFd(fd))
    else
      match ParsePath(t) case None => None case Some(path) => PathOp(c, path)
  }

  function ParseTwo(c: Cmd, t: Bytes, u: Bytes): Option<Op> {
    match c
    case MkdirCmd =>
      var path, mode := ParsePath(t), ParseNum(u, 8, U32);
      if path.Some? && mode.Some? then Some(Mkdir(path.value, mode.value)) else None
    case OpenCmd =>
      var path, flags := ParsePath(t), ParseFlags(u);
      if path.Some? && flags.Some? then Some(Open(path.value, flags.value)) else None
    case WriteCmd =>
      var fd, data := ParseNum(t, 10, U32), Unescaped(u);
      if fd.Some? && data.Some? then Some(Write(fd.value, data.value)) else None
    case ReadCmd =>
      var fd, len := ParseNum(t, 10, U32), ParseNum(u, 10, USIZE);
      if fd.Some? && len.Some? then Some(Read(fd.value, len.value)) else None
    case SymlinkCmd =>
      var target, path := ParsePath(t), ParsePath(u);
      if target.Some? && path.Some? then Some(SymlinkOp(target.value, path.value)) else None
    case RenameCmd =>
      var from, to := ParsePath(t), ParsePath(u);
      if from.Some? && to.Some? then Some(Rename(from.value, to.value)) else None
    case MkdiratCmd =>
      var fd, path := ParseNum(t, 10, U32), ParsePath(u);
      if fd.Some? && path.Some? then Some(MkdirAt(fd.value, path.value)) else None
    case _ => None
  }

  function ParseThree(c: Cmd, t: Bytes, u: Bytes, v: Bytes): Option<Op> {
    var fd, path := ParseNum(t, 10, U32), ParsePath(u);
    if fd.None? || path.None? then None
    else match c
      case OpenatCmd =>
        var flags := ParseFlags(v);
        if flags.Some? then Some(OpenAt(fd.value, path.value, flags.value)) else None
      case UnlinkatCmd =>
        var rmdir := ParseBool(v);
        if rmdir.Some? then Some(UnlinkAt(fd.value, path.value, rmdir.value)) else None
      case _ => None
  }

  /** Missing operands and trailing tokens are rejected. */
  function ParseArgs(c: Cmd, args: seq<Bytes>): Option<Op> {
    match |args|
    case 0 => if c == GetcwdCmd then Some(Getcwd) else None
    case 1 => if c == GetcwdCmd then None else ParseOne(c, args[0])
    case 2 => ParseTwo(c, args[0], args[1])
    case 3 => ParseThree(c, args[0], args[1], args[2])
    case _ => None
  }

  function FromLine(s: Bytes): Option<Op> {
    var ts := Tokens(s);
    match FindCmd(ts[0], ALL)
    case None => None
    case Some(c) => ParseArgs(c, ts[1..])
  }

  // ----- the round trip -----

  /** Descriptors and modes are 32 bits wide, lengths 64. */
  predicate InRange(op: Op) {
    match op
    case Mkdir(_, mode) => mode < U32
    case Write(fd, _) => fd < U32
    case Read(fd, len) => fd < U32 && len < USIZE
    case OpenAt(fd, _, _) => fd < U32
    case MkdirAt(fd, _) => fd < U32
    case UnlinkAt(fd, _, _) => fd < U32
    case CloseFd(fd) => fd < U32
    case _ => true
  }

  /** The byte strings that the operation hands to a system call as paths. */
  function PathOperands(op: Op): seq<Bytes> {
    match op
    case Mkdir(path, _) => [path]
    case Open(path, _) => [path]
    case Write(_, _) => []
    case Read(_, _) => []
    case SymlinkOp(target, path) => [target, path]
    case Readlink(path) => [path]
    case Rename(from, to) => [from, to]
    case Unlink(path) => [path]
    case Rmdir(path) => [path]
    case Chdir(path) => [path]
    case Getcwd => []
    case Realpath(path) => [path]
    case Stat(path) => [path]
    case Lstat(path) => [path]
    case OpenDir(path) => [path]
    case OpenAt(_, path, _) => [path]
    case MkdirAt(_, path) => [path]
    case UnlinkAt(_, path, _) => [path]
    case Bind(path) => [path]
    case Connect(path) => [path]
    case MkstempAdopt(name) => [name]
    case List(path) => [path]
    case CloseFd(_) => []
  }

  predicate Speakable(op: Op) {
    forall i :: 0 <= i < |PathOperands(op)| ==> NUL !in PathOperands(op)[i]
  }

  ghost predicate ArgsOk(op: Op) {
    AllTokens(Args(op)) && ParseArgs(CmdOf(op), Args(op)) == if Speakable(op) then Some(op) else None
  }

  lemma PathArgs(op: Op, path: Bytes)
    requires PathOp(CmdOf(op), path) == Some(op) && Args(op) == [Escaped(path)] && PathOperands(op) == [path]
    requires CmdOf(op) != CloseCmd && CmdOf(op) != GetcwdCmd
    ensures ArgsOk(op)
  {
    PathField(path);
    Operands1(op, path);
  }

  lemma Operands0(op: Op)
    requires PathOperands(op) == []
    ensures Speakable(op)
  {
  }

  lemma Operands1(op: Op, path: Bytes)
    requires PathOperands(op) == [path]
    ensures Speakable(op) <==> NUL !in path
  {
    assert PathOperands(op)[0] == path;
  }

  lemma Operands2(op: Op, a: Bytes, b: Bytes)
    requires PathOperands(op) == [a, b]
    ensures Speakable(op) <==> NUL !in a && NUL !in b
  {
    assert PathOperands(op)[0] == a && PathOperands(op)[1] == b;
  }

  /** Two operands that parse as they should. */
  lemma Fields2(op: Op, t: Bytes, u: Bytes)
    requires Args(op) == [t, u] && IsToken(t) && IsToken(u)
    requires ParseTwo(CmdOf(op), t, u) == if Speakable(op) then Some(op) else None
    ensures ArgsOk(op)
  {
  }

  lemma Fields3(op: Op, t: Bytes, u: Bytes, v: Bytes)
    requires Args(op) == [t, u, v] && IsToken(t) && IsToken(u) && IsToken(v)
    requires ParseThree(CmdOf(op), t, u, v) == if Speakable(op) then Some(op) else None
    ensures ArgsOk(op)
  {
  }

  lemma MkdirArgs(path: Bytes, mode: nat)
    requires mode < U32
    ensures ArgsOk(Mkdir(path, mode))
  {
    var op := Mkdir(path, mode);
    PathField(path);
    NumRoundTrip(mode, 8, U32);
    Operands1(op, path);
    Fields2(op, Escaped(path), Digits(mode, 8));
  }

  lemma OpenArgs(path: Bytes, flags: OpenFlags)
    ensures ArgsOk(Open(path, flags))
  {
    var op := Open(path, flags);
    PathField(path);
    FlagField(flags);
    Operands1(op, path);
    Fields2(op, Escaped(path), FlagText(flags));
  }

  lemma WriteArgs(fd: nat, data: Bytes)
    requires fd < U32
    ensures ArgsOk(Write(fd, data))
  {
    var op := Write(fd, data);
    NumRoundTrip(fd, 10, U32);
    EscapeRoundTrip(data);
    EscapedToken(data);
    Operands0(op);
    Fields2(op, Digits(fd, 10), Escaped(data));
  }

  lemma ReadArgs(fd: nat, len: nat)
    requires fd < U32 && len < USIZE
    ensures ArgsOk(Read(fd, len))
  {
    var op := Read(fd, len);
    NumRoundTrip(fd, 10, U32);
    NumRoundTrip(len, 10, USIZE);
    Operands0(op);
    Fields2(op, Digits(fd, 10), Digits(len, 10));
  }

  lemma SymlinkArgs(target: Bytes, path: Bytes)
    ensures ArgsOk(SymlinkOp(target, path))
  {
    var op := SymlinkOp(target, path);
    PathField(target);
    PathField(path);
    Operands2(op, target, path);
    Fields2(op, Escaped(target), Escaped(path));
  }

  lemma RenameArgs(from: Bytes, to: Bytes)
    ensures ArgsOk(Rename(from, to))
  {
    var op := Rename(from, to);
    PathField(from);
    PathField(to);
    Operands2(op, from, to);
    Fields2(op, Escaped(from), Escaped(to));
  }

  lemma MkdirAtArgs(fd: nat, path: Bytes)
    requires fd < U32
    ensures ArgsOk(MkdirAt(fd, path))
  {
    var op := MkdirAt(fd, path);
    NumRoundTrip(fd, 10, U32);
    PathField(path);
    Operands1(op, path);
    Fields2(op, Digits(fd, 10), Escaped(path));
  }

  lemma OpenAtArgs(fd: nat, path: Bytes, flags: OpenFlags)
    requires fd < U32
    ensures ArgsOk(OpenAt(fd, path, flags))
  {
    var op := OpenAt(fd, path, flags);
    NumRoundTrip(fd, 10, U32);
    PathField(path);
    FlagField(flags);
    Operands1(op, path);
    Fields3(op, Digits(fd, 10), Escaped(path), FlagText(flags));
  }

  lemma UnlinkAtArgs(fd: nat, path: Bytes, rmdir: bool)
    requires fd < U32
    ensures ArgsOk(UnlinkAt(fd, path, rmdir))
  {
    var op := UnlinkAt(fd, path, rmdir);
    NumRoundTrip(fd, 10, U32);
    PathField(path);
    BoolField(rmdir);
    Operands1(op, path);
    Fields3(op, Digits(fd, 10), Escaped(path), BoolText(rmdir));
  }

  lemma CloseArgs(fd: nat)
    requires fd < U32
    ensures ArgsOk(CloseFd(fd))
  {
    NumRoundTrip(fd, 10, U32);
    Operands0(CloseFd(fd));
  }

  lemma OpArgs(op: Op)
    requires InRange(op)
    ensures ArgsOk(op)
  {
    match op
    case Getcwd =>
    case Mkdir(path, mode) => MkdirArgs(path, mode);
    case Write(fd, data) => WriteArgs(fd, data);
    case Read(fd, len) => ReadArgs(fd, len);
    case MkdirAt(fd, path) => MkdirAtArgs(fd, path);
    case CloseFd(fd) => CloseArgs(fd);
    case SymlinkOp(target, path) => SymlinkArgs(target, path);
    case Rename(from, to) => RenameArgs(from, to);
    case Open(path, flags) => OpenArgs(path, flags);
    case OpenAt(fd, path, flags) => OpenAtArgs(fd, path, flags);
    case UnlinkAt(fd, path, rmdir) => UnlinkAtArgs(fd, path, rmdir);
    case Readlink(path) => PathArgs(op, path);
    case Unlink(path) => PathArgs(op, path);
    case Rmdir(path) => PathArgs(op, path);
    case Chdir(path) => PathArgs(op, path);
    case Realpath(path) => PathArgs(op, path);
    case Stat(path) => PathArgs(op, path);
    case Lstat(path) => PathArgs(op, path);
    case OpenDir(path) => PathArgs(op, path);
    case Bind(path) => PathArgs(op, path);
    case Connect(path) => PathArgs(op, path);
    case MkstempAdopt(name) => PathArgs(op, name);
    case List(path) => PathArgs(op, path);
  }

  /** Reading a printed line gives the operation back exactly when no path operand holds a
      NUL, and nothing otherwise; a printed line is a single line. */
  lemma LineRoundTrip(op: Op)
    requires InRange(op)
    ensures FromLine(ToLine(op)) == (if Speakable(op) then Some(op) else None) && NEWLINE !in ToLine(op)
  {
    var c := CmdOf(op);
    var ts := [CmdText(c)] + Args(op);
    OpArgs(op);
    SignOf(c);
    assert AllTokens(ts);
    TokensSpaced(ts);
    SpacedOneLine(ts);
    CmdListed(c);
    FindIs(c, ALL);
    assert ts[1..] == Args(op);
  }
}
