/** Every record the encoder writes fits the line that the decoder reads. */
module ImportLimits {
  import opened Text
  import opened ImportStream
  import opened ImportRoundTrip
  import opened ImportTrees
  import opened ImportSafety

  // ----- lengths of JSON texts -----

  /** A byte in a JSON string (section 7 of RFC 8259): quotes, backslashes and the control
      characters with a short form take two bytes, other control characters six. */
  function EscapedLen(b: byte): nat {
    if b == 34 || b == 92 || b in {8, 9, 10, 12, 13} then 2 else if b < 32 then 6 else 1
  }

  function BodyLen(s: Bytes): nat {
    if s == [] then 0 else EscapedLen(s[0]) + BodyLen(s[1..])
  }

  function QuotedLen(s: Bytes): nat {
    2 + BodyLen(s)
  }

  lemma {:induction false} BodyBound(s: Bytes)
    ensures BodyLen(s) <= 6 * |s|
  {
    if s != [] {
      BodyBound(s[1..]);
    }
  }

  function DigitsLen(n: nat): nat {
    if n < 10 then 1 else 1 + DigitsLen(n / 10)
  }

  function IntLen(n: int): nat {
    if n < 0 then 1 + DigitsLen(-n) else DigitsLen(n)
  }

  function Pow10(k: nat): nat {
    if k == 0 then 1 else 10 * Pow10(k - 1)
  }

  lemma {:induction false} DigitsBound(n: nat, k: nat)
    requires k > 0 && n < Pow10(k)
    ensures DigitsLen(n) <= k
    decreases k
  {
    if n >= 10 {
      assert k > 1;
      DigitsBound(n / 10, k - 1);
    }
  }

  /** Base64 with padding (section 4 of RFC 4648). */
  function Base64Len(n: nat): nat {
    (n + 2) / 3 * 4
  }

  /** The length of a record's line: keys, punctuation and the newline, and the values. The
      fixed part is written with single quotes, and `n` for the newline. */
  function LineLen(r: Record): nat {
    match r
    case Begin(protocol) => |"{'protocol':,'type':'begin'}n"| + IntLen(protocol)
    case Directory(path, mode) => |"{'mode':,'path':,'type':'directory'}n"| + IntLen(mode) + QuotedLen(path)
    case Regular(path, mode, size) => |"{'mode':,'path':,'size':,'type':'file'}n"| + IntLen(mode) + QuotedLen(path) + IntLen(size)
    case Data(data) => |"{'data':'','type':'data'}n"| + Base64Len(|data|)
    case EndFile => |"{'type':'end_file'}n"|
    case Link(path, target) => |"{'path':,'target':,'type':'symlink'}n"| + QuotedLen(path) + QuotedLen(target)
    case Finish(entries) => |"{'entries':,'type':'finish'}n"| + IntLen(entries)
    case Unknown => 0
  }

  // ----- what the encoder emits -----

  predicate Modest(r: Record) {
    match r
    case Begin(protocol) => protocol == 1
    case Directory(path, mode) => |path| <= MAX_PATH && 0 <= mode < MODE_MASK
    case Regular(path, mode, size) => |path| <= MAX_PATH && 0 <= mode < MODE_MASK && 0 <= size < MAX_SIZE
    case Data(data) => |data| <= CHUNK
    case EndFile => true
    case Link(path, target) => |path| <= MAX_PATH && |target| <= MAX_PATH
    case Finish(entries) => 0 <= entries <= MAX_ENTRIES
    case Unknown => false
  }

  predicate AllModest(rs: seq<Record>) {
    forall i :: 0 <= i < |rs| ==> Modest(rs[i])
  }

  lemma {:induction false} ChunksModest(content: Bytes)
    ensures AllModest(Chunks(content))
    decreases |content|
  {
    if |content| > CHUNK {
      ChunksModest(content[CHUNK..]);
    }
  }

  lemma {:induction false} ItemModest(item: Item, path: Bytes, depth: nat, count: nat)
    requires ItemOnDisk(item) && |path| <= MAX_PATH && count <= MAX_ENTRIES
    ensures var r := EncodeItem(item, path, depth, count); r.Encoded? ==> AllModest(r.records) && r.count <= MAX_ENTRIES
    decreases item
  {
    match item
    case Folder(_, inside) => EncodeModest(inside, path, depth + 1, count);
    case Document(_, content) => ChunksModest(content);
    case _ =>
  }

  lemma {:induction false} EncodeModest(es: Entries, prefix: Bytes, depth: nat, count: nat)
    requires OnDisk(es) && count <= MAX_ENTRIES
    ensures var r := Encode(es, prefix, depth, count); r.Encoded? ==> AllModest(r.records) && r.count <= MAX_ENTRIES
    decreases es
  {
    if es.Cons? {
      var path := PathIn(prefix, es.name);
      if count + 1 <= MAX_ENTRIES && |path| <= MAX_PATH {
        ItemModest(es.item, path, depth, count + 1);
        var first := EncodeItem(es.item, path, depth, count + 1);
        if first.Encoded? {
          EncodeModest(es.rest, prefix, depth, first.count);
        }
      }
    }
  }

  lemma ModestFits(r: Record)
    requires Modest(r)
    ensures LineLen(r) <= MAX_LINE
  {
    match r
    case Begin(protocol) =>
    case Directory(path, mode) => BodyBound(path); ModeDigits(mode);
    case Regular(path, mode, size) => BodyBound(path); ModeDigits(mode); SizeDigits(size);
    case Data(data) =>
    case EndFile =>
    case Link(path, target) => BodyBound(path); BodyBound(target);
    case Finish(entries) => assert Pow10(7) == 10000000; DigitsBound(entries, 7);
  }

  lemma ModeDigits(mode: nat)
    requires mode < MODE_MASK
    ensures DigitsLen(mode) <= 3
  {
    assert Pow10(3) == 1000;
    DigitsBound(mode, 3);
  }

  lemma SizeDigits(size: nat)
    requires size < MAX_SIZE
    ensures DigitsLen(size) <= 20
  {
    assert Pow10(10) == 10000000000;
    assert Pow10(20) == 100000000000000000000;
    DigitsBound(size, 20);
  }

  /** Every line of the stream of every tree within the limits is within the decoder's limit. */
  lemma LinesFit(es: Entries, i: nat)
    requires OnDisk(es) && WithinLimits(es)
    ensures Snapshot(es).Some?
    ensures i < |Snapshot(es).value| ==> LineLen(Snapshot(es).value[i]) <= MAX_LINE
  {
    TakenIff(es);
    EncodeModest(es, [], 0, 0);
    if i < |Snapshot(es).value| {
      ModestFits(Snapshot(es).value[i]);
    }
  }

  // ----- the whole stream as lines -----

  function AsLines(rs: seq<Record>): seq<Line> {
    seq(|rs|, i requires 0 <= i < |rs| => Line(LineLen(rs[i]), true, Some(rs[i])))
  }

  /** From tree to lines and back. */
  lemma LinesRoundTrip(es: Entries)
    requires OnDisk(es) && WithinLimits(es)
    ensures Snapshot(es).Some? && DecodeLines(AsLines(Snapshot(es).value)) == Decode(Snapshot(es).value)
  {
    TakenIff(es);
    var rs := Snapshot(es).value;
    var ls := AsLines(rs);
    forall i | 0 <= i < |ls| ensures Readable(ls[i]) {
      LinesFit(es, i);
    }
    assert Parsed(ls).value == rs;
  }
}
