/** Byte strings and the slash-separated component structure of pathnames. */
module Text {

  newtype byte = x: int | 0 <= x < 256
  type Bytes = seq<byte>

  datatype Option<+T> = None | Some(value: T)

  const SLASH: byte := 47
  const NUL: byte := 0
  const DOT: Bytes := [46]
  const DOTDOT: Bytes := [46, 46]

  /** The first slash at or after `i`, or the end of the text. */
  function NextSlash(s: Bytes, i: nat): (r: nat)
    requires i <= |s|
    ensures i <= r <= |s|
    ensures forall j :: i <= j < r ==> s[j] != SLASH
    ensures r < |s| ==> s[r] == SLASH
    decreases |s| - i
  {
    if i == |s| || s[i] == SLASH then i else NextSlash(s, i + 1)
  }

  lemma NextSlashIs(s: Bytes, i: nat, r: nat)
    requires i <= r <= |s|
    requires forall j :: i <= j < r ==> s[j] != SLASH
    requires r < |s| ==> s[r] == SLASH
    ensures NextSlash(s, i) == r
  {
    var j := NextSlash(s, i);
  }

  /** All components of `s`, empty ones included, as splitting at each slash gives them. */
  function Split(s: Bytes): (r: seq<Bytes>)
    ensures |r| > 0
  {
    var i := NextSlash(s, 0);
    if i == |s| then [s] else [s[..i]] + Split(s[i + 1..])
  }

  predicate IsReal(c: Bytes) {
    c != [] && c != DOT
  }

  /** The components that a lookup acts on: neither empty nor `.`. */
  function Real(cs: seq<Bytes>): seq<Bytes> {
    if cs == [] then []
    else if IsReal(cs[0]) then [cs[0]] + Real(cs[1..])
    else Real(cs[1..])
  }

  function Comps(s: Bytes): seq<Bytes> {
    Real(Split(s))
  }

  lemma {:induction false} SplitSlashFree(s: Bytes, k: nat)
    requires k < |Split(s)|
    ensures SLASH !in Split(s)[k]
    decreases |s|
  {
    var i := NextSlash(s, 0);
    if i < |s| && k > 0 {
      SplitSlashFree(s[i + 1..], k - 1);
    } else {
      assert Split(s)[k] == s[..i];
    }
  }

  lemma {:induction false} RealIn(cs: seq<Bytes>, k: nat)
    requires k < |Real(cs)|
    ensures Real(cs)[k] in cs && IsReal(Real(cs)[k])
  {
    if IsReal(cs[0]) {
      if k > 0 {
        RealIn(cs[1..], k - 1);
      }
    } else {
      RealIn(cs[1..], k);
    }
  }

  /** Every component a lookup acts on is slash-free and neither empty nor `.`. */
  lemma CompsOk(s: Bytes, k: nat)
    requires k < |Comps(s)|
    ensures SLASH !in Comps(s)[k] && IsReal(Comps(s)[k])
  {
    RealIn(Split(s), k);
    var j :| 0 <= j < |Split(s)| && Split(s)[j] == Comps(s)[k];
    SplitSlashFree(s, j);
  }

  lemma SplitAt(s: Bytes, front: Bytes, back: Bytes)
    requires SLASH !in front && s == front + [SLASH] + back
    ensures Split(s) == [front] + Split(back)
  {
    NextSlashIs(s, 0, |front|);
    assert s[..|front|] == front && s[|front| + 1..] == back;
  }

  lemma {:induction false} SplitJoin(a: Bytes, b: Bytes)
    ensures Split(a + [SLASH] + b) == Split(a) + Split(b)
    decreases |a|
  {
    var i := NextSlash(a, 0);
    var head := a[..i];
    if i == |a| {
      assert head == a;
      SplitAt(a + [SLASH] + b, a, b);
    } else {
      var tail := a[i + 1..];
      SplitJoin(tail, b);
      assert a + [SLASH] + b == head + [SLASH] + (tail + [SLASH] + b);
      SplitAt(a + [SLASH] + b, head, tail + [SLASH] + b);
      var hs, ts, bs := [head], Split(tail), Split(b);
      assert hs + ts + bs == hs + (ts + bs);
    }
  }

  lemma {:induction false} RealAppend(a: seq<Bytes>, b: seq<Bytes>)
    ensures Real(a + b) == Real(a) + Real(b)
  {
    if a == [] {
      assert a + b == b;
    } else {
      assert (a + b)[1..] == a[1..] + b;
      RealAppend(a[1..], b);
    }
  }

  lemma CompsJoin(a: Bytes, b: Bytes)
    ensures Comps(a + [SLASH] + b) == Comps(a) + Comps(b)
  {
    SplitJoin(a, b);
    RealAppend(Split(a), Split(b));
  }

  lemma CompsEmpty()
    ensures Comps([]) == []
  {
    assert Split([]) == [[]];
  }

  lemma CompsTrailing(a: Bytes)
    ensures Comps(a + [SLASH]) == Comps(a)
  {
    CompsJoin(a, []);
    CompsEmpty();
    assert a + [SLASH] + [] == a + [SLASH];
  }

  lemma CompsLeading(b: Bytes)
    ensures Comps([SLASH] + b) == Comps(b)
  {
    CompsJoin([], b);
    CompsEmpty();
    assert [] + [SLASH] + b == [SLASH] + b;
  }

  /** A component without slashes contributes itself. */
  lemma CompsSingle(c: Bytes)
    requires SLASH !in c
    ensures Split(c) == [c]
    ensures Comps(c) == if IsReal(c) then [c] else []
  {
    NextSlashIs(c, 0, |c|);
    assert Real([]) == [];
    assert [c][1..] == [];
  }

  /** What a directory entry may be called. */
  predicate IsName(c: Bytes) {
    IsReal(c) && c != DOTDOT && SLASH !in c
  }

  /** Slash-prefixed concatenation of names: `/a/b` for `[a, b]`, empty for none. */
  function Slashed(names: seq<Bytes>): Bytes {
    if names == [] then [] else Slashed(names[..|names| - 1]) + [SLASH] + names[|names| - 1]
  }

  /** The absolute text of a list of names, `/` for the empty list. */
  function PathOf(names: seq<Bytes>): (p: Bytes)
    ensures |p| > 0
  {
    if names == [] then [SLASH] else Slashed(names)
  }

  /** Inverse of `Split`: components with a slash between each two. */
  function Join(cs: seq<Bytes>): Bytes {
    if cs == [] then [] else cs[0] + Slashed(cs[1..])
  }

  lemma {:induction false} SlashedCons(c: Bytes, cs: seq<Bytes>)
    ensures Slashed([c] + cs) == [SLASH] + c + Slashed(cs)
  {
    SlashedAppend([c], cs);
    assert [c][..0] == [];
  }

  lemma {:induction false} JoinCons(c: Bytes, cs: seq<Bytes>)
    requires cs != []
    ensures Join([c] + cs) == c + ([SLASH] + Join(cs))
  {
    var h, t := cs[0], cs[1..];
    assert ([c] + cs)[1..] == cs == [h] + t;
    SlashedCons(h, t);
    var u := Slashed(t);
    assert [SLASH] + h + u == [SLASH] + (h + u);
  }

  lemma {:induction false} JoinSplit(s: Bytes)
    ensures Join(Split(s)) == s
    decreases |s|
  {
    var i := NextSlash(s, 0);
    if i < |s| {
      var rest := s[i + 1..];
      JoinSplit(rest);
      JoinCons(s[..i], Split(rest));
      assert s == s[..i] + ([SLASH] + rest);
    }
  }

  lemma {:induction false} SplitSlashed(cs: seq<Bytes>)
    requires forall k :: 0 <= k < |cs| ==> SLASH !in cs[k]
    ensures Split(Slashed(cs)) == [[]] + cs
  {
    if cs == [] {
      assert Slashed(cs) == [];
    } else {
      var init, last := cs[..|cs| - 1], cs[|cs| - 1];
      SplitSlashed(init);
      SplitJoin(Slashed(init), last);
      CompsSingle(last);
      assert cs == init + [last];
    }
  }

  lemma {:induction false} SlashedFirst(names: seq<Bytes>)
    requires names != []
    ensures |Slashed(names)| > 0 && Slashed(names)[0] == SLASH
  {
    if |names| > 1 {
      SlashedFirst(names[..|names| - 1]);
    }
  }

  lemma {:induction false} SlashedAppend(a: seq<Bytes>, b: seq<Bytes>)
    ensures Slashed(a + b) == Slashed(a) + Slashed(b)
    decreases |b|
  {
    if b == [] {
      assert a + b == a;
    } else {
      var c := b[..|b| - 1];
      assert (a + b)[..|a + b| - 1] == a + c;
      SlashedAppend(a, c);
    }
  }

  lemma {:induction false} CompsSlashed(names: seq<Bytes>)
    requires forall n :: n in names ==> IsName(n)
    ensures Comps(Slashed(names)) == names
  {
    if names == [] {
      CompsEmpty();
    } else {
      var init, last := names[..|names| - 1], names[|names| - 1];
      assert last in names;
      forall n | n in init ensures IsName(n) { assert n in names; }
      CompsSlashed(init);
      CompsJoin(Slashed(init), last);
      CompsSingle(last);
      assert names == init + [last];
    }
  }

  lemma CompsPathOf(names: seq<Bytes>)
    requires forall n :: n in names ==> IsName(n)
    ensures Comps(PathOf(names)) == names
    ensures PathOf(names)[0] == SLASH
  {
    if names == [] {
      CompsLeading([]);
      CompsEmpty();
      assert [SLASH] + [] == [SLASH];
    } else {
      CompsSlashed(names);
      SlashedFirst(names);
    }
  }

  lemma {:induction false} SlashedInjective(a: seq<Bytes>, b: seq<Bytes>)
    requires forall n :: n in a ==> IsName(n)
    requires forall n :: n in b ==> IsName(n)
    requires Slashed(a) == Slashed(b)
    ensures a == b
  {
    CompsSlashed(a);
    CompsSlashed(b);
  }

  lemma RealCons(cs: seq<Bytes>, i: nat)
    requires i < |cs|
    ensures Real(cs[i..]) == (if IsReal(cs[i]) then [cs[i]] else []) + Real(cs[i + 1..])
  {
    assert cs[i..][1..] == cs[i + 1..];
  }

  lemma {:induction false} RealMember(cs: seq<Bytes>, c: Bytes)
    requires IsReal(c)
    ensures c in cs <==> c in Real(cs)
  {
    if cs != [] {
      RealMember(cs[1..], c);
      assert cs == [cs[0]] + cs[1..];
    }
  }

  lemma {:induction false} RealNames(names: seq<Bytes>)
    requires forall k :: k in names ==> IsName(k)
    ensures Real(names) == names
  {
    if names != [] {
      assert names[0] in names;
      RealNames(names[1..]);
      assert names == [names[0]] + names[1..];
    }
  }

  /** Splitting undoes joining. */
  lemma SplitOfJoin(cs: seq<Bytes>)
    requires forall k :: 0 <= k < |cs| ==> SLASH !in cs[k]
    ensures Split(Join(cs)) == if cs == [] then [[]] else cs
    ensures Comps(Join(cs)) == Real(cs)
  {
    if cs == [] {
      CompsEmpty();
    } else {
      SlashedJoin(cs);
      SplitSlashed(cs);
      SplitLeading(Join(cs), cs);
    }
  }

  lemma SplitLeading(u: Bytes, cs: seq<Bytes>)
    requires Split([SLASH] + u) == [[]] + cs
    ensures Split(u) == cs
  {
    assert [SLASH] + u == [] + [SLASH] + u;
    SplitAt([SLASH] + u, [], u);
    assert cs == ([[]] + cs)[1..] && Split(u) == ([[]] + Split(u))[1..];
  }

  lemma {:induction false} SlashedJoin(cs: seq<Bytes>)
    requires cs != []
    ensures Slashed(cs) == [SLASH] + Join(cs)
  {
    var h, t := cs[0], cs[1..];
    assert cs == [h] + t;
    SlashedCons(h, t);
    var u := Slashed(t);
    assert [SLASH] + h + u == [SLASH] + (h + u);
  }

  /** Cutting a component list anywhere cuts the text at a slash. */
  lemma {:induction false} JoinCut(cs: seq<Bytes>, i: nat)
    requires 0 < i < |cs|
    ensures Join(cs) == Join(cs[..i]) + [SLASH] + Join(cs[i..])
  {
    assert cs[1..] == cs[1..i] + cs[i..];
    SlashedAppend(cs[1..i], cs[i..]);
    SlashedJoin(cs[i..]);
    assert cs[..i][1..] == cs[1..i];
    assert Join(cs) == cs[0] + (Slashed(cs[1..i]) + ([SLASH] + Join(cs[i..])));
  }

  function CountOf(cs: seq<Bytes>, c: Bytes): nat {
    if cs == [] then 0 else (if cs[0] == c then 1 else 0) + CountOf(cs[1..], c)
  }

  lemma {:induction false} CountAppend(a: seq<Bytes>, b: seq<Bytes>, c: Bytes)
    ensures CountOf(a + b, c) == CountOf(a, c) + CountOf(b, c)
  {
    if a == [] {
      assert a + b == b;
    } else {
      assert (a + b)[1..] == a[1..] + b;
      CountAppend(a[1..], b, c);
    }
  }
}
