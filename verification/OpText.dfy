/** Operations as text lines: the printer, the parser and the escaping of byte strings. */
module OpText {
  import opened Text
  import opened FsOps

  const SPACE: byte := 32
  const PERCENT: byte := 37
  const PLUS: byte := 43

  // ----- bytes -----

  predicate IsPlain(b: byte) {
    48 <= b <= 57 || 65 <= b <= 90 || 97 <= b <= 122 || b == 46 || b == 95 || b == 47 || b == 45
  }

  function HexDigit(n: nat): byte
    requires n < 16
  {
    if n < 10 then (48 + n) as byte else (87 + n) as byte
  }

  function HexVal(b: byte): Option<nat> {
    if 48 <= b <= 57 then Some(b as nat - 48)
    else if 97 <= b <= 102 then Some(b as nat - 87)
    else if 65 <= b <= 70 then Some(b as nat - 55)
    else None
  }

  function EscapedByte(b: byte): Bytes {
    if IsPlain(b) then [b] else [PERCENT, HexDigit(b as nat / 16), HexDigit(b as nat % 16)]
  }

  /** Anything but letters, digits and `._/-` becomes a percent sign and two hex digits. */
  function Escaped(bs: Bytes): Bytes {
    if bs == [] then [] else Escaped(bs[..|bs| - 1]) + EscapedByte(bs[|bs| - 1])
  }

  /** How many bytes of a token stand for the next byte, and which one. */
  function NextByte(t: Bytes): Option<(byte, nat)>
    requires t != []
  {
    if t[0] != PERCENT then Some((t[0], 1))
    else if |t| < 3 || HexVal(t[1]).None? || HexVal(t[2]).None? then None
    else Some(((HexVal(t[1]).value * 16 + HexVal(t[2]).value) as byte, 3))
  }

  /** Strict: a percent sign needs two hex digits behind it. */
  function Unescaped(t: Bytes): Option<Bytes> {
    if t == [] then Some([])
    else match NextByte(t)
      case None => None
      case Some((b, n)) =>
        Behind([b], Unescaped(t[n..]))
  }

  /** A result with some bytes in front. */
  function Behind(front: Bytes, r: Option<Bytes>): Option<Bytes> {
    match r
    case None => None
    case Some(rest) => Some(front + rest)
  }

  lemma BehindNothing(r: Option<Bytes>)
    ensures Behind([], r) == r
  {
    if r.Some? {
      assert [] + r.value == r.value;
    }
  }

  lemma BehindMore(front: Bytes, b: byte, r: Option<Bytes>)
    ensures Behind(front, Behind([b], r)) == Behind(front + [b], r)
  {
    if r.Some? {
      assert front + ([b] + r.value) == (front + [b]) + r.value;
    }
  }

  method Escape(bs: Bytes) returns (t: Bytes)
    ensures t == Escaped(bs)
  {
    t := [];
    for i := 0 to |bs|
      invariant t == Escaped(bs[..i])
    {
      assert bs[..i + 1][..i] == bs[..i];
      if IsPlain(bs[i]) {
        t := t + [bs[i]];
      } else {
        t := t + [PERCENT] + [HexDigit(bs[i] as nat / 16), HexDigit(bs[i] as nat % 16)];
      }
    }
    assert bs[..|bs|] == bs;
  }

  method Unescape(t: Bytes) returns (r: Option<Bytes>)
    ensures r == Unescaped(t)
  {
    var out: Bytes := [];
    var i := 0;
    assert t[0..] == t;
    BehindNothing(Unescaped(t));
    while i < |t|
      invariant i <= |t|
      invariant Unescaped(t) == Behind(out, Unescaped(t[i..]))
      decreases |t| - i
    {
      ghost var left := t[i..];
      if t[i] == PERCENT {
        if i + 2 >= |t| || HexVal(t[i + 1]).None? || HexVal(t[i + 2]).None? {
          assert NextByte(left) == None;
          return None;
        }
        var b := (HexVal(t[i + 1]).value * 16 + HexVal(t[i + 2]).value) as byte;
        assert NextByte(left) == Some((b, 3)) && left[3..] == t[i + 3..];
        BehindMore(out, b, Unescaped(t[i + 3..]));
        out := out + [b];
        i := i + 3;
      } else {
        assert NextByte(left) == Some((t[i], 1)) && left[1..] == t[i + 1..];
        BehindMore(out, t[i], Unescaped(t[i + 1..]));
        out := out + [t[i]];
        i := i + 1;
      }
    }
    assert t[i..] == [];
    assert out + [] == out;
    return Some(out);
  }

  lemma HexRoundTrip(n: nat)
    requires n < 16
    ensures HexVal(HexDigit(n)) == Some(n) && IsPlain(HexDigit(n))
  {
  }

  lemma NextEscaped(b: byte, rest: Bytes)
    ensures NextByte(EscapedByte(b) + rest) == Some((b, |EscapedByte(b)|))
    ensures (EscapedByte(b) + rest)[|EscapedByte(b)|..] == rest
  {
    HexRoundTrip(b as nat / 16);
    HexRoundTrip(b as nat % 16);
  }

  lemma {:induction false} UnescapeAppend(bs: Bytes, rest: Bytes)
    ensures Unescaped(Escaped(bs) + rest) == Behind(bs, Unescaped(rest))
  {
    if bs == [] {
      assert Escaped(bs) + rest == rest;
      BehindNothing(Unescaped(rest));
    } else {
      var init, b := bs[..|bs| - 1], bs[|bs| - 1];
      assert Escaped(bs) + rest == Escaped(init) + (EscapedByte(b) + rest);
      UnescapeAppend(init, EscapedByte(b) + rest);
      NextEscaped(b, rest);
      BehindMore(init, b, Unescaped(rest));
      assert bs == init + [b];
    }
  }

  /** Unescaping undoes escaping, for every byte string. */
  lemma EscapeRoundTrip(bs: Bytes)
    ensures Unescaped(Escaped(bs)) == Some(bs)
  {
    UnescapeAppend(bs, []);
    assert Escaped(bs) + [] == Escaped(bs);
    assert bs + [] == bs;
  }

  /** The bytes that a token may hold. */
  predicate TokenByte(b: byte) {
    b != SPACE && b != NEWLINE
  }

  predicate IsToken(t: Bytes) {
    forall i :: 0 <= i < |t| ==> TokenByte(t[i])
  }

  lemma {:induction false} EscapedToken(bs: Bytes)
    ensures IsToken(Escaped(bs))
  {
    if bs != [] {
      EscapedToken(bs[..|bs| - 1]);
      var b := bs[|bs| - 1];
      HexRoundTrip(b as nat / 16);
      HexRoundTrip(b as nat % 16);
      assert IsToken(EscapedByte(b));
    }
  }

  // ----- numbers -----

  function Digits(n: nat, radix: nat): Bytes
    requires 2 <= radix <= 10
  {
    if n < radix then [HexDigit(n)] else Digits(n / radix, radix) + [HexDigit(n % radix)]
  }

  function DigitVal(b: byte, radix: nat): Option<nat> {
    if 48 <= b <= 57 && b as nat - 48 < radix then Some(b as nat - 48) else None
  }

  function Value(t: Bytes, radix: nat): Option<nat> {
    if t == [] then Some(0)
    else match Value(t[..|t| - 1], radix)
      case None => None
      case Some(v) =>
        match DigitVal(t[|t| - 1], radix)
        case None => None
        case Some(d) => Some(v * radix + d)
  }

  /** Parsing an unsigned number below `limit`: a leading plus is allowed, an empty text is not. */
  function ParseNum(t: Bytes, radix: nat, limit: nat): Option<nat> {
    var digits := if |t| > 1 && t[0] == PLUS then t[1..] else t;
    if digits == [] then None
    else match Value(digits, radix)
      case None => None
      case Some(v) => if v < limit then Some(v) else None
  }

  lemma ValueSnoc(t: Bytes, d: nat, radix: nat)
    requires d < radix <= 10 && Value(t, radix).Some?
    ensures Value(t + [HexDigit(d)], radix) == Some(Value(t, radix).value * radix + d)
  {
    var u := t + [HexDigit(d)];
    assert u[..|u| - 1] == t && u[|u| - 1] == HexDigit(d);
  }

  lemma DivMod(n: nat, radix: nat)
    requires 2 <= radix <= n
    ensures n / radix * radix + n % radix == n && n / radix < n && n % radix < radix
  {
  }

  lemma {:induction false} DigitsValue(n: nat, radix: nat)
    requires 2 <= radix <= 10
    ensures Value(Digits(n, radix), radix) == Some(n)
  {
    if n < radix {
      ValueSnoc([], n, radix);
      assert [] + [HexDigit(n)] == [HexDigit(n)];
    } else {
      DivMod(n, radix);
      var q, d := n / radix, n % radix;
      DigitsValue(q, radix);
      ValueSnoc(Digits(q, radix), d, radix);
    }
  }

  lemma {:induction false} DigitsToken(n: nat, radix: nat)
    requires 2 <= radix <= 10
    ensures var t := Digits(n, radix); t != [] && IsToken(t) && t[0] != PLUS
  {
    if n >= radix {
      DigitsToken(n / radix, radix);
    }
  }

  lemma NumRoundTrip(n: nat, radix: nat, limit: nat)
    requires 2 <= radix <= 10 && n < limit
    ensures ParseNum(Digits(n, radix), radix, limit) == Some(n) && IsToken(Digits(n, radix))
  {
    DigitsValue(n, radix);
    DigitsToken(n, radix);
  }

  // ----- tokens -----

  function NextSpace(s: Bytes): (i: nat)
    ensures i <= |s| && (i < |s| ==> s[i] == SPACE) && forall j :: 0 <= j < i ==> s[j] != SPACE
  {
    if s == [] || s[0] == SPACE then 0 else 1 + NextSpace(s[1..])
  }

  lemma {:induction false} NextSpaceIs(s: Bytes, k: nat)
    requires k <= |s| && (k < |s| ==> s[k] == SPACE) && forall j :: 0 <= j < k ==> s[j] != SPACE
    ensures NextSpace(s) == k
  {
    var i := NextSpace(s);
  }

  /** Split at every space; empty tokens count. */
  function Tokens(s: Bytes): (r: seq<Bytes>)
    ensures |r| > 0
    decreases |s|
  {
    var i := NextSpace(s);
    if i == |s| then [s] else [s[..i]] + Tokens(s[i + 1..])
  }

  function Spaced(ts: seq<Bytes>): Bytes {
    if ts == [] then [] else if |ts| == 1 then ts[0] else ts[0] + [SPACE] + Spaced(ts[1..])
  }

  predicate AllTokens(ts: seq<Bytes>) {
    forall i :: 0 <= i < |ts| ==> IsToken(ts[i])
  }

  lemma {:induction false} TokensSpaced(ts: seq<Bytes>)
    requires ts != [] && AllTokens(ts)
    ensures Tokens(Spaced(ts)) == ts
    decreases |ts|
  {
    var t := ts[0];
    assert forall j :: 0 <= j < |t| ==> TokenByte(t[j]);
    if |ts| == 1 {
      NextSpaceIs(t, |t|);
      assert ts == [t];
    } else {
      var tail := ts[1..];
      var rest := Spaced(tail);
      TokensSpaced(tail);
      TokensCons(t, rest);
      assert ts == [t] + tail;
    }
  }

  lemma TokensCons(t: Bytes, rest: Bytes)
    requires IsToken(t)
    ensures Tokens(t + [SPACE] + rest) == [t] + Tokens(rest)
  {
    var s := t + [SPACE] + rest;
    NextSpaceIs(s, |t|);
    assert s[..|t|] == t && s[|t| + 1..] == rest;
  }

  lemma {:induction false} SpacedOneLine(ts: seq<Bytes>)
    requires AllTokens(ts)
    ensures NEWLINE !in Spaced(ts)
    decreases |ts|
  {
    if |ts| > 0 {
      assert forall j :: 0 <= j < |ts[0]| ==> TokenByte(ts[0][j]);
      SpacedOneLine(ts[1..]);
    }
  }
}
