/** The written form of each operation, word by word, and what the parser turns away. */
module OpForms {
  import opened Text
  import opened FsOps
  import opened OpText
  import opened OpLines
  import opened TmpPathSpelled

  // ----- bytes -----

  const HEX: string := "0123456789abcdef"

  predicate Within(b: byte, first: char, last: char) {
    first as int <= b as int <= last as int
  }

  /** Letters, digits, and the four characters that paths are full of. */
  predicate IsPlainByte(b: byte) {
    || Within(b, 'a', 'z') || Within(b, 'A', 'Z') || Within(b, '0', '9')
    || b as int in {'.' as int, '_' as int, '/' as int, '-' as int}
  }

  /** A plain byte stands for itself, any other is a percent sign and two hex digits in lower case. */
  lemma ByteForm(b: byte)
    ensures Escaped([b]) == if IsPlainByte(b) then [b] else Ascii("%") + [Ascii(HEX)[b as int / 16], Ascii(HEX)[b as int % 16]]
  {
    assert [b][..0] == [] && Escaped([]) == [];
    assert Escaped([b]) == [] + EscapedByte(b);
    DigitIs(b as nat / 16);
    DigitIs(b as nat % 16);
  }

  lemma DigitIs(n: nat)
    requires n < 16
    ensures HexDigit(n) == Ascii(HEX)[n]
  {
    var t := Ascii(HEX);
  }

  /** And a text is escaped byte by byte. */
  lemma {:induction false} EscapedAppend(a: Bytes, b: Bytes)
    ensures Escaped(a + b) == Escaped(a) + Escaped(b)
    decreases |b|
  {
    if b == [] {
      assert a + b == a;
    } else {
      var init, last := b[..|b| - 1], b[|b| - 1];
      assert (a + b)[..|a + b| - 1] == a + init;
      EscapedAppend(a, init);
    }
  }

  predicate IsHexByte(b: byte) {
    Within(b, '0', '9') || Within(b, 'a', 'f') || Within(b, 'A', 'F')
  }

  /** Unescaping turns away a percent sign without two hex digits behind it, wherever it stands. */
  lemma BadPercent(front: Bytes, rest: Bytes)
    requires |rest| < 2 || !IsHexByte(rest[0]) || !IsHexByte(rest[1])
    ensures Unescaped(Escaped(front) + Ascii("%") + rest) == None
  {
    hide Escaped, Unescaped, IsHexByte;
    BadStart(rest);
    assert Escaped(front) + Ascii("%") + rest == Escaped(front) + ([PERCENT] + rest);
    UnescapeAppend(front, [PERCENT] + rest);
  }

  lemma BadStart(rest: Bytes)
    requires |rest| < 2 || !IsHexByte(rest[0]) || !IsHexByte(rest[1])
    ensures Unescaped([PERCENT] + rest) == None
  {
    hide Escaped;
    var t := [PERCENT] + rest;
    assert |rest| >= 2 ==> t[1] == rest[0] && t[2] == rest[1];
    assert NextByte(t) == None;
  }

  // ----- numbers -----

  /** The number that a text of digits stands for. */
  function Reads(t: Bytes, radix: nat): nat {
    if t == [] then 0
    else Reads(t[..|t| - 1], radix) * radix + (if t[|t| - 1] >= 48 then t[|t| - 1] as nat - 48 else 0)
  }

  /** A number is written with the digits of its radix and without leading zeros. */
  lemma {:induction false} NumberForm(n: nat, radix: nat)
    requires 2 <= radix <= 10
    ensures var t := Digits(n, radix);
            && Reads(t, radix) == n && t != [] && (|t| > 1 ==> t[0] != Ascii("0")[0])
            && forall i :: 0 <= i < |t| ==> Ascii("0")[0] as int <= t[i] as int < Ascii("0")[0] as int + radix
  {
    assert Ascii("0")[0] == 48;
    if n < radix {
      assert [HexDigit(n)][..0] == [];
      assert Reads([], radix) == 0;
    } else {
      DivMod(n, radix);
      NumberForm(n / radix, radix);
      DigitsFirst(n / radix, radix);
      var q := Digits(n / radix, radix);
      assert (q + [HexDigit(n % radix)])[..|q|] == q;
    }
  }

  lemma {:induction false} DigitsFirst(n: nat, radix: nat)
    requires 2 <= radix <= 10
    ensures n > 0 ==> Digits(n, radix)[0] != 48
  {
    if n >= radix {
      DivMod(n, radix);
      DigitsFirst(n / radix, radix);
      OverRadix(n, radix);
    }
  }

  lemma OverRadix(n: nat, radix: nat)
    requires 2 <= radix <= n
    ensures n / radix > 0
  {
  }

  // ----- operations -----

  function Sep(a: Bytes, b: Bytes): Bytes {
    a + Ascii(" ") + b
  }

  function FlagBits(f: OpenFlags): Bytes {
    Ascii([if f.create then '1' else '0', if f.excl then '1' else '0', if f.trunc then '1' else '0',
           if f.write then '1' else '0', if f.directory then '1' else '0', if f.nofollow then '1' else '0'])
  }

  /** An operation as it is written. */
  function Form(op: Op): Bytes {
    match op
    case Mkdir(path, mode) => Sep(Ascii("mkdir"), Sep(Escaped(path), Digits(mode, 8)))
    case Open(path, flags) => Sep(Ascii("open"), Sep(Escaped(path), FlagBits(flags)))
    case Write(fd, data) => Sep(Ascii("write"), Sep(Digits(fd, 10), Escaped(data)))
    case Read(fd, len) => Sep(Ascii("read"), Sep(Digits(fd, 10), Digits(len, 10)))
    case SymlinkOp(target, path) => Sep(Ascii("symlink"), Sep(Escaped(target), Escaped(path)))
    case Readlink(path) => Sep(Ascii("readlink"), Escaped(path))
    case Rename(from, to) => Sep(Ascii("rename"), Sep(Escaped(from), Escaped(to)))
    case Unlink(path) => Sep(Ascii("unlink"), Escaped(path))
    case Rmdir(path) => Sep(Ascii("rmdir"), Escaped(path))
    case Chdir(path) => Sep(Ascii("chdir"), Escaped(path))
    case Getcwd => Ascii("getcwd")
    case Realpath(path) => Sep(Ascii("realpath"), Escaped(path))
    case Stat(path) => Sep(Ascii("stat"), Escaped(path))
    case Lstat(path) => Sep(Ascii("lstat"), Escaped(path))
    case OpenDir(path) => Sep(Ascii("opendir"), Escaped(path))
    case OpenAt(fd, path, flags) => Sep(Ascii("openat"), Sep(Digits(fd, 10), Sep(Escaped(path), FlagBits(flags))))
    case MkdirAt(fd, path) => Sep(Ascii("mkdirat"), Sep(Digits(fd, 10), Escaped(path)))
    case UnlinkAt(fd, path, rmdir) =>
      Sep(Ascii("unlinkat"), Sep(Digits(fd, 10), Sep(Escaped(path), Ascii(if rmdir then "true" else "false"))))
    case Bind(path) => Sep(Ascii("bind"), Escaped(path))
    case Connect(path) => Sep(Ascii("connect"), Escaped(path))
    case MkstempAdopt(name) => Sep(Ascii("mkstemp"), Escaped(name))
    case List(path) => Sep(Ascii("list"), Escaped(path))
    case CloseFd(fd) => Sep(Ascii("close"), Digits(fd, 10))
  }

  /** The words. */
  function Word(c: Cmd): Bytes {
    match c
    case MkdirCmd => Ascii("mkdir")
    case OpenCmd => Ascii("open")
    case WriteCmd => Ascii("write")
    case ReadCmd => Ascii("read")
    case SymlinkCmd => Ascii("symlink")
    case ReadlinkCmd => Ascii("readlink")
    case RenameCmd => Ascii("rename")
    case UnlinkCmd => Ascii("unlink")
    case RmdirCmd => Ascii("rmdir")
    case ChdirCmd => Ascii("chdir")
    case GetcwdCmd => Ascii("getcwd")
    case RealpathCmd => Ascii("realpath")
    case StatCmd => Ascii("stat")
    case LstatCmd => Ascii("lstat")
    case OpendirCmd => Ascii("opendir")
    case OpenatCmd => Ascii("openat")
    case MkdiratCmd => Ascii("mkdirat")
    case UnlinkatCmd => Ascii("unlinkat")
    case BindCmd => Ascii("bind")
    case ConnectCmd => Ascii("connect")
    case MkstempCmd => Ascii("mkstemp")
    case ListCmd => Ascii("list")
    case CloseCmd => Ascii("close")
  }

  lemma FirstWords(c: Cmd)
    requires c.MkdirCmd? || c.OpenCmd? || c.WriteCmd? || c.ReadCmd? || c.SymlinkCmd? || c.ReadlinkCmd?
    ensures CmdText(c) == Word(c)
  {
  }

  lemma SecondWords(c: Cmd)
    requires c.RenameCmd? || c.UnlinkCmd? || c.RmdirCmd? || c.ChdirCmd? || c.GetcwdCmd? || c.RealpathCmd?
    ensures CmdText(c) == Word(c)
  {
  }

  lemma ThirdWords(c: Cmd)
    requires c.StatCmd? || c.LstatCmd? || c.OpendirCmd? || c.OpenatCmd? || c.MkdiratCmd? || c.UnlinkatCmd?
    ensures CmdText(c) == Word(c)
  {
  }

  lemma FourthWords(c: Cmd)
    requires c.BindCmd? || c.ConnectCmd? || c.MkstempCmd? || c.ListCmd? || c.CloseCmd?
    ensures CmdText(c) == Word(c)
  {
  }

  lemma WordIs(c: Cmd)
    ensures CmdText(c) == Word(c)
  {
    hide CmdText, Word;
    match c
    case MkdirCmd => FirstWords(c);
    case OpenCmd => FirstWords(c);
    case WriteCmd => FirstWords(c);
    case ReadCmd => FirstWords(c);
    case SymlinkCmd => FirstWords(c);
    case ReadlinkCmd => FirstWords(c);
    case RenameCmd => SecondWords(c);
    case UnlinkCmd => SecondWords(c);
    case RmdirCmd => SecondWords(c);
    case ChdirCmd => SecondWords(c);
    case GetcwdCmd => SecondWords(c);
    case RealpathCmd => SecondWords(c);
    case BindCmd => FourthWords(c);
    case ConnectCmd => FourthWords(c);
    case MkstempCmd => FourthWords(c);
    case ListCmd => FourthWords(c);
    case CloseCmd => FourthWords(c);
    case _ => ThirdWords(c);
  }

  lemma FieldForms(f: OpenFlags, b: bool)
    ensures FlagText(f) == FlagBits(f) && BoolText(b) == Ascii(if b then "true" else "false") && [SPACE] == Ascii(" ")
  {
  }

  lemma SpacedMore(a: Bytes, rest: seq<Bytes>)
    requires rest != []
    ensures Spaced([a] + rest) == Sep(a, Spaced(rest))
  {
    FieldForms(OpenFlags(true, true, true, true, true, true), true);
    assert ([a] + rest)[1..] == rest;
  }

  lemma SpacedForm(a: Bytes, b: Bytes, c: Bytes, d: Bytes)
    ensures Spaced([a]) == a && Spaced([a, b]) == Sep(a, b)
    ensures Spaced([a, b, c]) == Sep(a, Sep(b, c)) && Spaced([a, b, c, d]) == Sep(a, Sep(b, Sep(c, d)))
  {
    hide Sep;
    SpacedMore(c, [d]);
    SpacedMore(b, [c, d]);
    SpacedMore(a, [b, c, d]);
    SpacedMore(b, [c]);
    SpacedMore(a, [b, c]);
    SpacedMore(a, [b]);
    assert [c] + [d] == [c, d] && [b] + [c, d] == [b, c, d] && [a] + [b, c, d] == [a, b, c, d];
    assert [b] + [c] == [b, c] && [a] + [b, c] == [a, b, c] && [a] + [b] == [a, b];
  }

  /** The word of an operation and its operands, one behind the other. */
  function Parts(op: Op): Bytes
    requires |Args(op)| <= 3
  {
    var a, w := Args(op), Word(CmdOf(op));
    if |a| == 0 then w
    else if |a| == 1 then Sep(w, a[0])
    else if |a| == 2 then Sep(w, Sep(a[0], a[1]))
    else Sep(w, Sep(a[0], Sep(a[1], a[2])))
  }

  lemma ShortForm(op: Op)
    requires |Args(op)| <= 1
    ensures Form(op) == Parts(op)
  {
    hide Ascii, Sep, Escaped, Digits;
  }

  lemma LongForm(op: Op)
    requires 2 <= |Args(op)| <= 3
    ensures Form(op) == Parts(op)
  {
    hide Ascii, Sep, Escaped, Digits, FlagText, FlagBits, BoolText;
    FieldForms(if op.Open? || op.OpenAt? then op.flags else OpenFlags(true, true, true, true, true, true), if op.UnlinkAt? then op.rmdir else true);
  }

  /** Printing gives that form, and reading that form gives the operation back exactly when no path in
      it holds a NUL. */
  lemma LineForm(op: Op)
    ensures ToLine(op) == Form(op)
    ensures InRange(op) ==> FromLine(Form(op)) == if Speakable(op) then Some(op) else None
  {
    hide Ascii, Spaced, FromLine, ToLine, Speakable, InRange, Sep, CmdText, CmdOf, Word, Args, Form;
    LineIs(op);
    WordIs(CmdOf(op));
    var a, w := Args(op), CmdText(CmdOf(op));
    SpacedForm(w, if |a| > 0 then a[0] else [], if |a| > 1 then a[1] else [], if |a| > 2 then a[2] else []);
    if |a| <= 1 {
      ShortForm(op);
    } else {
      LongForm(op);
    }
    if InRange(op) {
      LineRoundTrip(op);
    }
  }

  lemma LineIs(op: Op)
    ensures var a, w := Args(op), CmdText(CmdOf(op));
            && ToLine(op) == Spaced([w] + a) && |a| <= 3
            && [w] + a == (if |a| == 0 then [w] else if |a| == 1 then [w, a[0]] else if |a| == 2 then [w, a[0], a[1]] else [w, a[0], a[1], a[2]])
  {
    hide Spaced, Escaped, Digits, CmdText, FlagText, BoolText;
  }

  // ----- what is turned away -----

  /** A line with anything behind its last operand. */
  lemma TrailingRejected(op: Op, extra: Bytes)
    requires InRange(op)
    ensures FromLine(Sep(Form(op), extra)) == None
  {
    hide Form, Spaced, Tokens, Args, CmdOf, ParseArgs, FindCmd, CmdText, InRange, Sep, AllTokens, ALL;
    LineForm(op);
    ArgTokens(op);
    var c, ts := CmdOf(op), [CmdText(CmdOf(op))] + Args(op);
    MoreTokens(ts, extra);
    CmdListed(c);
    FindIs(c, ALL);
    assert (ts + Tokens(extra))[1..] == Args(op) + Tokens(extra);
    TooMany(op, Tokens(extra));
  }

  lemma ArgTokens(op: Op)
    requires InRange(op)
    ensures var ts := [CmdText(CmdOf(op))] + Args(op); AllTokens(ts) && ToLine(op) == Spaced(ts)
  {
    hide Spaced, Args, CmdOf, CmdText, InRange, IsToken;
    OpArgs(op);
    SignOf(CmdOf(op));
  }

  lemma TooMany(op: Op, more: seq<Bytes>)
    requires more != []
    ensures ParseArgs(CmdOf(op), Args(op) + more) == None
  {
    hide Escaped, Digits, FlagText, BoolText, ParseNum, ParsePath, ParseFlags, ParseBool, CmdText;
  }

  lemma {:induction false} MoreTokens(ts: seq<Bytes>, extra: Bytes)
    requires ts != [] && AllTokens(ts)
    ensures Tokens(Sep(Spaced(ts), extra)) == ts + Tokens(extra)
    decreases |ts|
  {
    hide Tokens, IsToken, Sep, Ascii;
    var tail, rest := ts[1..], Spaced(ts[1..]);
    if |ts| == 1 {
      FirstToken(ts[0], extra);
      assert ts == [ts[0]];
    } else {
      MoreTokens(tail, extra);
      FirstToken(ts[0], Sep(rest, extra));
      SepOn(ts[0], rest, extra);
      assert ts + Tokens(extra) == [ts[0]] + (tail + Tokens(extra));
    }
  }

  lemma FirstToken(t: Bytes, rest: Bytes)
    requires IsToken(t)
    ensures Tokens(Sep(t, rest)) == [t] + Tokens(rest)
  {
    hide Tokens, IsToken;
    assert Ascii(" ") == [SPACE];
    TokensCons(t, rest);
  }

  lemma SepOn(t: Bytes, rest: Bytes, extra: Bytes)
    ensures Sep(t + [SPACE] + rest, extra) == Sep(t, Sep(rest, extra))
  {
    assert Ascii(" ") == [SPACE];
  }

  /** A line whose first word is none of the 23. */
  lemma UnknownRejected(line: Bytes)
    requires forall c: Cmd :: Tokens(line)[0] != Word(c)
    ensures FromLine(line) == None
  {
    hide CmdText, Word, Tokens, ParseArgs;
    var w := Tokens(line)[0];
    forall c: Cmd ensures CmdText(c) != w {
      WordIs(c);
    }
    NoneFound(w, ALL);
  }

  lemma {:induction false} NoneFound(w: Bytes, from: seq<Cmd>)
    requires forall c: Cmd :: CmdText(c) != w
    ensures FindCmd(w, from) == None
  {
    hide CmdText;
    if from != [] {
      NoneFound(w, from[1..]);
    }
  }

  /** Descriptors have 32 bits and lengths 64: a wider number is turned away. */
  lemma WideRejected(fd: nat, len: nat)
    ensures FromLine(Form(Read(fd, len))) == if fd <= 4294967295 && len <= 18446744073709551615 then Some(Read(fd, len)) else None
  {
    hide Form, Spaced, Tokens, FindCmd, CmdText, ParseNum, Digits, ALL, AllTokens;
    var op := Read(fd, len);
    var c, ts := ReadCmd, [CmdText(ReadCmd), Digits(fd, 10), Digits(len, 10)];
    LineForm(op);
    ReadTokens(fd, len);
    TokensSpaced(ts);
    CmdListed(c);
    FindIs(c, ALL);
    NumberTaken(fd, U32);
    NumberTaken(len, USIZE);
    assert ts[1..] == [Digits(fd, 10), Digits(len, 10)];
  }

  lemma ReadTokens(fd: nat, len: nat)
    ensures var ts := [CmdText(ReadCmd), Digits(fd, 10), Digits(len, 10)];
            AllTokens(ts) && ToLine(Read(fd, len)) == Spaced(ts)
  {
    hide Spaced, CmdText, Digits, IsToken;
    SignOf(ReadCmd);
    DigitsToken(fd, 10);
    DigitsToken(len, 10);
    assert [CmdText(ReadCmd)] + [Digits(fd, 10), Digits(len, 10)] == [CmdText(ReadCmd), Digits(fd, 10), Digits(len, 10)];
  }

  lemma NumberTaken(n: nat, limit: nat)
    ensures ParseNum(Digits(n, 10), 10, limit) == if n < limit then Some(n) else None
  {
    hide Digits, Value;
    DigitsValue(n, 10);
    DigitsToken(n, 10);
  }
}
