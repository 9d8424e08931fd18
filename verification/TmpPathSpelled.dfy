/** The mapper's names and limits spelled out, and the paths that it leaves to the caller. */
module TmpPathSpelled {
  import opened Text
  import opened TmpPath
  import opened TmpPathResolver
  import opened TmpPathInverse

  /** The bytes of an ASCII text. */
  function Ascii(s: string): (r: Bytes)
    ensures |r| == |s| && forall i :: 0 <= i < |s| ==> r[i] as int == s[i] as int % 256
  {
    seq(|s|, i requires 0 <= i < |s| => (s[i] as int % 256) as byte)
  }

  lemma Names()
    ensures TMP == Ascii("tmp") && VAR == Ascii("var") && PRIVATE == Ascii("private") && [SLASH] == Ascii("/")
    ensures DOT == Ascii(".") && DOTDOT == Ascii("..")
  {
  }

  /** A path that spells a temp root and leads on without `..`. */
  ghost predicate MovesTo(root: Bytes, from: Bytes, to: Bytes, tail: seq<Bytes>, cap: nat, resolve: Resolver) {
    MapWith(root, from + Slashed(tail), cap, resolve)
    == Run(if |from + Slashed(tail)| >= 1024 then Unchanged
           else if |root + to + Slashed(tail)| >= cap then Fails(NameTooLong)
           else Mapped(root + to + Slashed(tail)), [])
  }

  /** The four spellings of the two temp roots, and where each leads. */
  lemma FourSpellings(root: Bytes, tail: seq<Bytes>, cap: nat, resolve: Resolver)
    requires Descends(tail)
    ensures MovesTo(root, Ascii("/tmp"), Ascii("/tmp"), tail, cap, resolve)
    ensures MovesTo(root, Ascii("/private/tmp"), Ascii("/tmp"), tail, cap, resolve)
    ensures MovesTo(root, Ascii("/var/tmp"), Ascii("/var/tmp"), tail, cap, resolve)
    ensures MovesTo(root, Ascii("/private/var/tmp"), Ascii("/var/tmp"), tail, cap, resolve)
  {
    hide *;
    SubSpelled();
    OneSpelling(root, TmpSub, tail, cap, resolve);
    OneSpelling(root, VarTmpSub, tail, cap, resolve);
  }

  lemma OneSpelling(root: Bytes, sub: Sub, tail: seq<Bytes>, cap: nat, resolve: Resolver)
    requires Descends(tail)
    ensures MovesTo(root, SubText(sub), SubText(sub), tail, cap, resolve)
    ensures MovesTo(root, CanonicalText(sub), SubText(sub), tail, cap, resolve)
  {
    hide MapWith, Slashed, SubText, CanonicalText, SubNames, Spells;
    PlainSpells(sub);
    CanonicalNames(sub);
    MapsBelowRoot(root, sub, SubNames(sub), tail, cap, resolve);
    MapsBelowRoot(root, sub, [PRIVATE] + SubNames(sub), tail, cap, resolve);
  }

  lemma SubSpelled()
    ensures SubText(TmpSub) == Ascii("/tmp") && CanonicalText(TmpSub) == Ascii("/private/tmp")
    ensures SubText(VarTmpSub) == Ascii("/var/tmp") && CanonicalText(VarTmpSub) == Ascii("/private/var/tmp")
  {
  }

  /** Unmapping renames exactly what lies in the two private temp directories below the root. */
  lemma UnmapsExactly(root: Bytes, text: Bytes, host: Bytes)
    ensures Unmap(root, text) == Some(host) <==>
            exists rest: Bytes :: (rest == [] || [rest[0]] == Ascii("/"))
              && ((text == root + Ascii("/tmp") + rest && host == Ascii("/private/tmp") + rest)
                  || (text == root + Ascii("/var/tmp") + rest && host == Ascii("/private/var/tmp") + rest))
  {
    hide Ascii;
    SubSpelled();
    Names();
    if Unmap(root, text) == Some(host) {
      var below := ComponentRest(text, root).value;
      var sub := if ComponentRest(below, SubText(VarTmpSub)).Some? then VarTmpSub else TmpSub;
      var rest := ComponentRest(below, SubText(sub)).value;
      assert text == root + SubText(sub) + rest;
      assert rest == [] || [rest[0]] == [SLASH];
    }
    forall rest: Bytes, sub | (rest == [] || [rest[0]] == [SLASH]) && text == root + SubText(sub) + rest
      ensures Unmap(root, text) == Some(CanonicalText(sub) + rest)
    {
      UnmapsBelow(root, sub, rest);
    }
  }

  lemma UnmapsBelow(root: Bytes, sub: Sub, rest: Bytes)
    requires rest == [] || rest[0] == SLASH
    ensures Unmap(root, root + SubText(sub) + rest) == Some(CanonicalText(sub) + rest)
  {
    var below := SubText(sub) + rest;
    var text := root + SubText(sub) + rest;
    assert text == root + below && text[|root|..] == below && text[|root|] == SLASH;
    assert below[|SubText(sub)|..] == rest;
    assert ComponentRest(below, SubText(sub)) == Some(rest);
    if sub == TmpSub {
      assert below[1] != SubText(VarTmpSub)[1];
    }
  }

  /** The path is the directory or lies below it. */
  predicate AtOrBelow(path: Bytes, dir: Bytes) {
    path == dir || (dir + Ascii("/")) <= path
  }

  /** The roots that may be used: absolute, of 8 to 512 bytes, without NUL, without an empty, `.` or `..`
      component, and in none of the four spellings of a temp root. */
  lemma RootsAre(root: Bytes)
    ensures ValidRoot(root) <==>
              && 8 <= |root| <= 512 && [root[0]] == Ascii("/") && [root[|root| - 1]] != Ascii("/") && 0 !in root
              && (forall c :: c in Split(root[1..]) ==> c != [] && c != Ascii(".") && c != Ascii(".."))
              && !AtOrBelow(root, Ascii("/tmp")) && !AtOrBelow(root, Ascii("/private/tmp"))
              && !AtOrBelow(root, Ascii("/var/tmp")) && !AtOrBelow(root, Ascii("/private/var/tmp"))
  {
    hide Split, Ascii, SubText, CanonicalText, AtOrBelow, ComponentRest, IsName;
    Names();
    SubSpelled();
    BelowIs(root, SubText(TmpSub));
    BelowIs(root, SubText(VarTmpSub));
    BelowIs(root, CanonicalText(TmpSub));
    BelowIs(root, CanonicalText(VarTmpSub));
    if |root| > 0 {
      NamesOnly(root[1..]);
      OneByte(root[0], SLASH);
      OneByte(root[|root| - 1], SLASH);
    }
  }

  lemma NamesOnly(text: Bytes)
    ensures (forall c :: c in Split(text) ==> IsName(c)) <==> (forall c :: c in Split(text) ==> c != [] && c != DOT && c != DOTDOT)
  {
    forall c | c in Split(text) ensures SLASH !in c {
      var k :| 0 <= k < |Split(text)| && Split(text)[k] == c;
      SplitSlashFree(text, k);
    }
  }

  lemma OneByte(a: byte, b: byte)
    ensures [a] == [b] <==> a == b
  {
    assert [a][0] == a && [b][0] == b;
  }

  lemma BelowIs(path: Bytes, dir: Bytes)
    ensures ComponentRest(path, dir).Some? <==> AtOrBelow(path, dir)
  {
    hide Ascii;
    Names();
    if dir + [SLASH] <= path {
      assert path[|dir|] == (dir + [SLASH])[|dir|];
      assert path[..|dir|] == dir;
    }
  }

  // ----- what is left alone -----

  lemma {:induction false} ScanNoTmp(cs: seq<Bytes>, i: nat, st: Scan)
    requires i <= |cs| && TMP !in cs[i..] && !st.InTemp?
    ensures ScanFrom(cs, i, st).Final? && !ScanFrom(cs, i, st).state.InTemp?
    decreases |cs| - i
  {
    if i < |cs| {
      assert cs[i..] == [cs[i]] + cs[i + 1..];
      ScanNoTmp(cs, i + 1, ScanMove(st, cs[i], i + 1, TMP in cs[i + 1..]).state);
    }
  }

  /** A path is left alone, and nothing is asked, when no component is `tmp`, when it is not
      absolute, and when it is too long for the mapper. */
  lemma LeftAlone(root: Bytes, path: Bytes, cap: nat, resolve: Resolver)
    requires Ascii("tmp") !in Split(path) || path == [] || [path[0]] != Ascii("/") || |path| >= 1024
    ensures MapWith(root, path, cap, resolve) == Run(Unchanged, [])
  {
    Names();
    if Ascii("tmp") !in Split(path) {
      NoTmpLeft(root, path, cap, resolve);
    } else {
      hide MapLoop, Split;
      assert path != [] ==> path[0] == SLASH ==> [path[0]] == [SLASH];
    }
  }

  lemma NoTmpLeft(root: Bytes, path: Bytes, cap: nat, resolve: Resolver)
    requires TMP !in Split(path)
    ensures MapWith(root, path, cap, resolve) == Run(Unchanged, [])
  {
    hide Split, ScanFrom;
    ScanBounds(Split(path), 0, InBase(AtRoot));
    assert Split(path)[0..] == Split(path);
    ScanNoTmp(Split(path), 0, InBase(AtRoot));
  }

  // ----- paths relative to a directory -----

  /** No `..`, and the first name is none that leads into a temp root. */
  ghost predicate Harmless(path: Bytes) {
    && Ascii("..") !in Split(path)
    && (Comps(path) == [] || Comps(path)[0] !in {Ascii("tmp"), Ascii("private"), Ascii("var")})
  }

  /** The name that the relative path gets in the host's view of the directory. */
  function JoinedName(root: Bytes, dir: Bytes, path: Bytes): Bytes {
    var (text, rest) := TakeLeading(HostName(root, dir), path);
    Joined(text, rest)
  }

  /** Why a relative path may be refused. */
  ghost predicate Refusable(root: Bytes, path: Bytes, cap: nat, base: Answer, resolve: Resolver, error: MapError) {
    if base.Refused? then error == Kernel(base.errno)
    else
      var joined := JoinedName(root, base.text, path);
      || (error == NameTooLong && (|base.text| >= 1024 || |joined| >= 1024 || |joined| >= cap))
      || MapWith(root, joined, cap, resolve).result == Fails(error)
  }

  /** A harmless relative path is left alone without so much as a look at the directory; any other is
      refused only with the directory's own errno, for a text that does not fit, or as its whole
      name is. */
  lemma RelativeOutcome(root: Bytes, path: Bytes, cap: nat, base: Answer, resolve: Resolver)
    requires path == [] || [path[0]] != Ascii("/")
    ensures var run := MapAtWith(root, path, cap, base, resolve);
            && (Harmless(path) ==> run == Run(Unchanged, []))
            && (run.result.Fails? ==> !Harmless(path) && Refusable(root, path, cap, base, resolve, run.result.error))
  {
    hide MapWith, TakeLeading, HostName, Unmap, Comps, Split, Joined;
    Names();
    assert path != [] ==> path[0] != SLASH;
  }
}
