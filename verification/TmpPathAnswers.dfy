/** When the mapper answers and when it fails, told by the texts it goes through, without its loop. */
module TmpPathAnswers {
  import opened Text
  import opened TmpPath
  import opened TmpPathResolver
  import opened TmpPathInverse

  // ----- the texts of a run -----

  /** What stands in front of the `..` that component `at` is: the question is about it. A directory
      in a private temp directory `sub` is named by the components since `start`. */
  function Question(root: Bytes, text: Bytes, sub: Option<Sub>, start: nat, at: nat): Bytes
    requires start <= at <= |Split(text)|
  {
    if sub.None? then Join(Split(text)[..at]) + [SLASH, SLASH]
    else if sub.value.TmpSub? then root + [SLASH] + TMP + Slashed(Split(text)[start..at]) + [SLASH, SLASH]
    else root + [SLASH] + VAR + [SLASH] + TMP + Slashed(Split(text)[start..at]) + [SLASH, SLASH]
  }

  /** The parent of what the answer is called outside, with what stands behind the `..`. */
  function Rewritten(root: Bytes, answer: Bytes, text: Bytes, at: nat): Bytes
    requires at < |Split(text)|
  {
    Behind(TextualParent(HostName(root, answer)), Join(Split(text)[at + 1..]))
  }

  function Behind(parent: Bytes, rest: Bytes): Bytes {
    if parent == [SLASH] then [SLASH] + rest else parent + [SLASH] + rest
  }

  /** A text whose scan stopped, the question it led to and the answer. */
  datatype Turn = Turn(text: Bytes, sub: Option<Sub>, start: nat, at: nat, question: Bytes, answer: Bytes)

  /** The scan of the text stops there, behind the components that the question is about. */
  ghost predicate StopsAt(text: Bytes, sub: Option<Sub>, start: nat, at: nat) {
    && ScanFrom(Split(text), 0, InBase(AtRoot)) == Escaping(Escape(start, sub, at))
    && start <= at < |Split(text)| && Split(text)[at] == DOTDOT
  }

  /** One turn, put as question number `k`, and the text it leads to. */
  ghost predicate TurnOk(root: Bytes, cap: nat, resolve: Resolver, k: nat, t: Turn, next: Bytes) {
    && StopsAt(t.text, t.sub, t.start, t.at)
    && t.question == Question(root, t.text, t.sub, t.start, t.at) && |t.question| < cap
    && resolve(k, t.question) == Resolved(t.answer)
    && next == Rewritten(root, t.answer, t.text, t.at) && |next| < 1024 && DotDots(next) < DotDots(t.text)
  }

  /** From `path` over the turns to `last`. */
  ghost predicate TraceTo(root: Bytes, path: Bytes, cap: nat, resolve: Resolver, k: nat, turns: seq<Turn>, last: Bytes)
    decreases |turns|
  {
    if turns == [] then last == path
    else
      var next := if |turns| == 1 then last else turns[1].text;
      turns[0].text == path && TurnOk(root, cap, resolve, k, turns[0], next) && TraceTo(root, next, cap, resolve, k + 1, turns[1..], last)
  }

  ghost predicate SomeTemp(turns: seq<Turn>) {
    exists i :: 0 <= i < |turns| && turns[i].sub.Some?
  }

  function Questions(turns: seq<Turn>): (r: seq<Bytes>)
    ensures |r| == |turns|
  {
    if turns == [] then [] else [turns[0].question] + Questions(turns[1..])
  }

  // ----- what the last text comes to -----

  /** The place below the root of a text that stands in a temp root behind component `start`. */
  function Place(root: Bytes, sub: Sub, text: Bytes, start: nat): Bytes
    requires start <= |Split(text)|
  {
    if sub.TmpSub? then root + [SLASH] + TMP + Slashed(Split(text)[start..])
    else root + [SLASH] + VAR + [SLASH] + TMP + Slashed(Split(text)[start..])
  }

  ghost predicate InTempAt(text: Bytes, sub: Sub, start: nat) {
    var r := ScanFrom(Split(text), 0, InBase(AtRoot));
    r.Final? && r.state.InTemp? && r.state.sub == sub && r.state.start == start && start <= |Split(text)|
  }

  ghost predicate OutsideTemp(text: Bytes) {
    var r := ScanFrom(Split(text), 0, InBase(AtRoot));
    r.Final? && !r.state.InTemp?
  }

  /** Left alone: the scan ends outside the temp roots, and so did every turn before. */
  ghost predicate LeftAlone(last: Bytes, temp: bool) {
    OutsideTemp(last) && !temp
  }

  ghost predicate MapsTo(root: Bytes, last: Bytes, temp: bool, cap: nat, text: Bytes) {
    && |text| < cap
    && ((exists sub, start: nat :: InTempAt(last, sub, start) && text == Place(root, sub, last, start))
        || (OutsideTemp(last) && temp && text == last))
  }

  /** Something does not fit: the place below the root or the text itself in the caller's buffer, the
      question in it, or the rewritten text in the mapper's own. */
  ghost predicate TooLong(root: Bytes, last: Bytes, temp: bool, cap: nat, resolve: Resolver, k: nat) {
    || (exists sub, start: nat :: InTempAt(last, sub, start) && |Place(root, sub, last, start)| >= cap)
    || (OutsideTemp(last) && temp && |last| >= cap)
    || (exists sub, start: nat, at: nat ::
          StopsAt(last, sub, start, at) && QuestionTooLong(root, last, sub, start, at, cap, resolve, k))
  }

  ghost predicate QuestionTooLong(root: Bytes, last: Bytes, sub: Option<Sub>, start: nat, at: nat, cap: nat, resolve: Resolver, k: nat)
    requires StopsAt(last, sub, start, at)
  {
    var q := Question(root, last, sub, start, at);
    || |q| >= cap
    || (resolve(k, q).Resolved? && |Rewritten(root, resolve(k, q).text, last, at)| >= 1024)
  }

  /** The question is put and refused. */
  ghost predicate Refuses(root: Bytes, last: Bytes, cap: nat, resolve: Resolver, k: nat, errno: int) {
    exists sub, start: nat, at: nat :: StopsAt(last, sub, start, at) && RefusedAt(root, last, sub, start, at, cap, resolve, k, errno)
  }

  ghost predicate RefusedAt(root: Bytes, last: Bytes, sub: Option<Sub>, start: nat, at: nat, cap: nat, resolve: Resolver, k: nat, errno: int)
    requires StopsAt(last, sub, start, at)
  {
    var q := Question(root, last, sub, start, at);
    |q| < cap && resolve(k, q) == Refused(errno)
  }

  /** The answer brings so many `..` in that the text has no fewer than before. */
  ghost predicate Loops(root: Bytes, last: Bytes, cap: nat, resolve: Resolver, k: nat) {
    exists sub, start: nat, at: nat :: StopsAt(last, sub, start, at) && LoopsAt(root, last, sub, start, at, cap, resolve, k)
  }

  ghost predicate LoopsAt(root: Bytes, last: Bytes, sub: Option<Sub>, start: nat, at: nat, cap: nat, resolve: Resolver, k: nat)
    requires StopsAt(last, sub, start, at)
  {
    var q := Question(root, last, sub, start, at);
    && |q| < cap && resolve(k, q).Resolved?
    && |Rewritten(root, resolve(k, q).text, last, at)| < 1024
    && DotDots(Rewritten(root, resolve(k, q).text, last, at)) >= DotDots(last)
  }

  /** What the result says of the last text. */
  ghost predicate ResultIs(r: MapResult, root: Bytes, last: Bytes, temp: bool, cap: nat, resolve: Resolver, k: nat) {
    if r.Unchanged? then LeftAlone(last, temp)
    else if r.Mapped? then MapsTo(root, last, temp, cap, r.text)
    else if r.error.NameTooLong? then TooLong(root, last, temp, cap, resolve, k)
    else if r.error.Kernel? then Refuses(root, last, cap, resolve, k, r.error.errno)
    else Loops(root, last, cap, resolve, k)
  }

  // ----- the loop goes through such texts -----

  lemma QuestionIs(root: Bytes, text: Bytes, e: Escape)
    requires EscapeOk(Split(text), 0, e)
    ensures Query(root, Split(text), e) == Question(root, text, e.sub, e.start, e.at)
  {
    var cs := Split(text);
    if e.sub.None? {
      assert [] + (Join(cs[..e.at]) + [SLASH]) + [SLASH] == Join(cs[..e.at]) + [SLASH, SLASH];
    } else {
      QuestionText(root, SubText(e.sub.value), Slashed(cs[e.start..e.at]));
    }
  }

  lemma QuestionText(root: Bytes, sub: Bytes, tail: Bytes)
    ensures root + sub + (tail + [SLASH]) + [SLASH] == root + sub + tail + [SLASH, SLASH]
    ensures sub == [SLASH] + TMP ==> root + sub + tail + [SLASH, SLASH] == root + [SLASH] + TMP + tail + [SLASH, SLASH]
    ensures sub == [SLASH] + VAR + [SLASH] + TMP ==>
              root + sub + tail + [SLASH, SLASH] == root + [SLASH] + VAR + [SLASH] + TMP + tail + [SLASH, SLASH]
  {
  }

  lemma PlaceIs(root: Bytes, sub: Sub, text: Bytes, start: nat)
    requires start <= |Split(text)|
    ensures root + SubText(sub) + Slashed(Split(text)[start..]) == Place(root, sub, text, start)
  {
    var tail := Slashed(Split(text)[start..]);
    if sub.TmpSub? {
      assert root + ([SLASH] + TMP) + tail == root + [SLASH] + TMP + tail;
    } else {
      assert root + ([SLASH] + VAR + [SLASH] + TMP) + tail == root + [SLASH] + VAR + [SLASH] + TMP + tail;
    }
  }

  lemma RewrittenIs(root: Bytes, answer: Bytes, text: Bytes, e: Escape)
    requires EscapeOk(Split(text), 0, e)
    ensures Rejoin(root, Split(text), e, answer) == Rewritten(root, answer, text, e.at)
  {
    hide Rest, Behind, HostName, TextualParent, Split, Join;
    RestIs(root, answer, Join(Split(text)[e.at + 1..]));
  }

  lemma RestIs(root: Bytes, answer: Bytes, remainder: Bytes)
    ensures Rest(root, answer, remainder) == Behind(TextualParent(HostName(root, answer)), remainder)
  {
    hide HostName, TextualParent;
  }

  lemma FinalIs(root: Bytes, text: Bytes, st: Scan, rewritten: bool, cap: nat, resolve: Resolver, k: nat)
    requires ScanFrom(Split(text), 0, InBase(AtRoot)) == Final(st) && ScanOk(st, |Split(text)|)
    ensures ResultIs(Answered(root, text, st, rewritten, cap), root, text, rewritten, cap, resolve, k)
  {
    if st.InTemp? {
      PlaceIs(root, st.sub, text, st.start);
      assert InTempAt(text, st.sub, st.start);
    }
  }

  lemma AskedIs(root: Bytes, text: Bytes, e: Escape, rewritten: bool, cap: nat, resolve: Resolver, k: nat)
    requires ScanFrom(Split(text), 0, InBase(AtRoot)) == Escaping(e) && EscapeOk(Split(text), 0, e)
    ensures StopsAt(text, e.sub, e.start, e.at)
    ensures AskIs(root, text, e, rewritten, cap, resolve, k, AskAt(root, text, e, cap, resolve, k))
  {
    hide ResultIs, TurnOk, AskAt, Query, Question, Rejoin, Rewritten, StopsAt, ScanFrom, Split, EscapeOk;
    StopIs(text, e);
    QuestionIs(root, text, e);
    var q := Question(root, text, e.sub, e.start, e.at);
    if resolve(k, q).Resolved? {
      RewrittenIs(root, resolve(k, q).text, text, e);
    }
    AskAgain(root, text, e, cap, resolve, k);
    AskOver(root, text, e, rewritten, cap, resolve, k);
  }

  /** What a round that asks comes to. */
  ghost predicate AskIs(root: Bytes, text: Bytes, e: Escape, rewritten: bool, cap: nat, resolve: Resolver, k: nat, r: Round)
    requires e.start <= e.at < |Split(text)|
  {
    var q := Question(root, text, e.sub, e.start, e.at);
    if r.Over? then
      && ResultIs(r.run.result, root, text, rewritten, cap, resolve, k)
      && r.run.queries == (if |q| < cap then [q] else [])
    else
      && resolve(k, q).Resolved? && r.query == q && r.temp == e.sub.Some?
      && TurnOk(root, cap, resolve, k, Turn(text, e.sub, e.start, e.at, q, resolve(k, q).text), r.next)
  }

  lemma StopIs(text: Bytes, e: Escape)
    requires ScanFrom(Split(text), 0, InBase(AtRoot)) == Escaping(e) && EscapeOk(Split(text), 0, e)
    ensures StopsAt(text, e.sub, e.start, e.at)
  {
  }

  lemma AskAgain(root: Bytes, text: Bytes, e: Escape, cap: nat, resolve: Resolver, k: nat)
    requires StopsAt(text, e.sub, e.start, e.at) && Query(root, Split(text), e) == Question(root, text, e.sub, e.start, e.at)
    requires var q := Query(root, Split(text), e);
             resolve(k, q).Resolved? ==> Rejoin(root, Split(text), e, resolve(k, q).text) == Rewritten(root, resolve(k, q).text, text, e.at)
    ensures var r := AskAt(root, text, e, cap, resolve, k);
            var q := Question(root, text, e.sub, e.start, e.at);
            if r.Over? then r.run.queries == (if |q| < cap then [q] else [])
            else resolve(k, q).Resolved? && r.query == q && r.temp == e.sub.Some?
                 && TurnOk(root, cap, resolve, k, Turn(text, e.sub, e.start, e.at, q, resolve(k, q).text), r.next)
  {
    hide StopsAt, Question, Rewritten, ScanFrom, Split, DotDots;
  }

  lemma AskOver(root: Bytes, text: Bytes, e: Escape, rewritten: bool, cap: nat, resolve: Resolver, k: nat)
    requires StopsAt(text, e.sub, e.start, e.at) && Query(root, Split(text), e) == Question(root, text, e.sub, e.start, e.at)
    requires var q := Query(root, Split(text), e);
             resolve(k, q).Resolved? ==> Rejoin(root, Split(text), e, resolve(k, q).text) == Rewritten(root, resolve(k, q).text, text, e.at)
    ensures var r := AskAt(root, text, e, cap, resolve, k);
            r.Over? ==> ResultIs(r.run.result, root, text, rewritten, cap, resolve, k)
  {
    var r := AskAt(root, text, e, cap, resolve, k);
    if r.Over? {
      var error := r.run.result.error;
      if error.NameTooLong? {
        assert QuestionTooLong(root, text, e.sub, e.start, e.at, cap, resolve, k);
      } else if error.Kernel? {
        assert RefusedAt(root, text, e.sub, e.start, e.at, cap, resolve, k, error.errno);
      } else {
        assert LoopsAt(root, text, e.sub, e.start, e.at, cap, resolve, k);
      }
    }
  }

  /** The run of the loop as a trace: what it asked and where it came to. */
  lemma {:induction false} LoopTrace(root: Bytes, cur: Bytes, rewritten: bool, cap: nat, resolve: Resolver, k: nat) returns (turns: seq<Turn>, last: Bytes)
    ensures TraceTo(root, cur, cap, resolve, k, turns, last)
    ensures RunIs(MapLoop(root, cur, rewritten, cap, resolve, k), turns, root, last, rewritten, cap, resolve, k)
    decreases DotDots(cur)
  {
    hide *;
    var r := OneRound(root, cur, rewritten, cap, resolve, k);
    RoundIs(root, cur, rewritten, cap, resolve, k);
    if r.Over? {
      turns, last := [], cur;
      OverIs(root, cur, rewritten, cap, resolve, k);
    } else {
      var t := RoundAgain(root, cur, rewritten, cap, resolve, k);
      var rest, end := LoopTrace(root, r.next, rewritten || r.temp, cap, resolve, k + 1);
      turns, last := [t] + rest, end;
      TraceCons(root, cap, resolve, k, t, r.next, rest, end);
      var run := MapLoop(root, r.next, rewritten || r.temp, cap, resolve, k + 1);
      RunCons(run, t, rest, root, end, rewritten, cap, resolve, k);
    }
  }

  /** The run asked the questions of the turns, and one more at most; the result fits the last text. */
  ghost predicate RunIs(run: Run, turns: seq<Turn>, root: Bytes, last: Bytes, rewritten: bool, cap: nat, resolve: Resolver, k: nat) {
    && Questions(turns) <= run.queries && |run.queries| <= |turns| + 1
    && ResultIs(run.result, root, last, rewritten || SomeTemp(turns), cap, resolve, k + |turns|)
  }

  /** One round ends with a result that fits its text, or goes on with a turn. */
  lemma RoundIs(root: Bytes, cur: Bytes, rewritten: bool, cap: nat, resolve: Resolver, k: nat)
    ensures var r := OneRound(root, cur, rewritten, cap, resolve, k);
            if r.Over? then MapLoop(root, cur, rewritten, cap, resolve, k) == r.run
            else
              var run := MapLoop(root, r.next, rewritten || r.temp, cap, resolve, k + 1);
              MapLoop(root, cur, rewritten, cap, resolve, k) == Run(run.result, [r.query] + run.queries)
  {
    hide OneRound;
  }

  lemma OverIs(root: Bytes, cur: Bytes, rewritten: bool, cap: nat, resolve: Resolver, k: nat)
    requires OneRound(root, cur, rewritten, cap, resolve, k).Over?
    ensures TraceTo(root, cur, cap, resolve, k, [], cur)
    ensures RunIs(OneRound(root, cur, rewritten, cap, resolve, k).run, [], root, cur, rewritten, cap, resolve, k)
  {
    hide ScanFrom, Split, Answered, AskAt, Question, ResultIs, EscapeOk, ScanOk, TurnOk, StopsAt;
    ScanBounds(Split(cur), 0, InBase(AtRoot));
    match ScanFrom(Split(cur), 0, InBase(AtRoot))
    case Final(st) => FinalIs(root, cur, st, rewritten, cap, resolve, k);
    case Escaping(e) => AskedIs(root, cur, e, rewritten, cap, resolve, k);
  }

  lemma RoundAgain(root: Bytes, cur: Bytes, rewritten: bool, cap: nat, resolve: Resolver, k: nat) returns (t: Turn)
    requires OneRound(root, cur, rewritten, cap, resolve, k).Again?
    ensures var r := OneRound(root, cur, rewritten, cap, resolve, k);
            && t.text == cur && t.question == r.query && t.sub.Some? == r.temp
            && TurnOk(root, cap, resolve, k, t, r.next)
  {
    hide ScanFrom, Split, Answered, AskAt, Question, ResultIs, EscapeOk, ScanOk, TurnOk, StopsAt;
    ScanBounds(Split(cur), 0, InBase(AtRoot));
    var e := ScanFrom(Split(cur), 0, InBase(AtRoot)).esc;
    AskedIs(root, cur, e, rewritten, cap, resolve, k);
    var q := Question(root, cur, e.sub, e.start, e.at);
    t := Turn(cur, e.sub, e.start, e.at, q, resolve(k, q).text);
  }

  lemma TraceCons(root: Bytes, cap: nat, resolve: Resolver, k: nat, t: Turn, next: Bytes, rest: seq<Turn>, last: Bytes)
    requires TurnOk(root, cap, resolve, k, t, next) && TraceTo(root, next, cap, resolve, k + 1, rest, last)
    ensures TraceTo(root, t.text, cap, resolve, k, [t] + rest, last)
  {
    hide TurnOk;
    assert ([t] + rest)[1..] == rest;
  }

  lemma RunCons(run: Run, t: Turn, rest: seq<Turn>, root: Bytes, last: Bytes, rewritten: bool, cap: nat, resolve: Resolver, k: nat)
    requires RunIs(run, rest, root, last, rewritten || t.sub.Some?, cap, resolve, k + 1)
    ensures RunIs(Run(run.result, [t.question] + run.queries), [t] + rest, root, last, rewritten, cap, resolve, k)
  {
    hide ResultIs;
    assert ([t] + rest)[1..] == rest;
    SomeTempCons(t, rest);
  }

  lemma SomeTempCons(t: Turn, rest: seq<Turn>)
    ensures SomeTemp([t] + rest) <==> t.sub.Some? || SomeTemp(rest)
  {
    var turns := [t] + rest;
    if SomeTemp(rest) {
      var i :| 0 <= i < |rest| && rest[i].sub.Some?;
      assert turns[i + 1].sub.Some?;
    }
    if t.sub.Some? {
      assert turns[0].sub.Some?;
    }
    if SomeTemp(turns) {
      var i :| 0 <= i < |turns| && turns[i].sub.Some?;
      assert i > 0 ==> rest[i - 1].sub.Some?;
    }
  }

  // ----- the theorems -----

  /** For every path and resolver: the mapper goes from the path over answered questions to a last text,
      and its result is what that text comes to. It says that a name is too long only when one of
      the texts does not fit, gives an errno only when the resolver did, and reports a loop only
      when an answer brought `..` in. */
  lemma MapOutcome(root: Bytes, path: Bytes, cap: nat, resolve: Resolver) returns (turns: seq<Turn>, last: Bytes)
    requires 0 < |path| < 1024 && path[0] == SLASH
    ensures TraceTo(root, path, cap, resolve, 0, turns, last)
    ensures ResultIs(MapWith(root, path, cap, resolve).result, root, last, SomeTemp(turns), cap, resolve, |turns|)
    ensures var qs := MapWith(root, path, cap, resolve).queries; Questions(turns) <= qs && |qs| <= |turns| + 1
  {
    hide MapLoop, TraceTo, ResultIs;
    turns, last := LoopTrace(root, path, false, cap, resolve, 0);
  }

  /** At a text that the run comes to, everything fits, and a question is answered without `..`. */
  ghost predicate FitsAt(root: Bytes, text: Bytes, cap: nat, resolve: Resolver, k: nat) {
    && |text| < cap
    && (forall sub, start: nat :: InTempAt(text, sub, start) ==> |Place(root, sub, text, start)| < cap)
    && (forall sub, start: nat, at: nat :: StopsAt(text, sub, start, at) ==> AnsweredAt(root, text, sub, start, at, cap, resolve, k))
  }

  ghost predicate AnsweredAt(root: Bytes, text: Bytes, sub: Option<Sub>, start: nat, at: nat, cap: nat, resolve: Resolver, k: nat)
    requires StopsAt(text, sub, start, at)
  {
    var q := Question(root, text, sub, start, at);
    && |q| < cap && resolve(k, q).Resolved? && DotDots(resolve(k, q).text) == 0
    && |Rewritten(root, resolve(k, q).text, text, at)| < 1024
  }

  /** Everything fits and every question is answered, wherever answered questions lead. */
  ghost predicate AllFit(root: Bytes, path: Bytes, cap: nat, resolve: Resolver) {
    forall turns: seq<Turn>, last: Bytes {:trigger TraceTo(root, path, cap, resolve, 0, turns, last)} ::
      TraceTo(root, path, cap, resolve, 0, turns, last) ==> FitsAt(root, last, cap, resolve, |turns|)
  }

  /** Then the mapper answers. */
  lemma AnswersWhenAllFits(root: Bytes, path: Bytes, cap: nat, resolve: Resolver)
    requires AllFit(root, path, cap, resolve)
    ensures !MapWith(root, path, cap, resolve).result.Fails?
  {
    hide MapLoop, TraceTo, ResultIs, FitsAt;
    if 0 < |path| < 1024 && path[0] == SLASH {
      var turns, last := MapOutcome(root, path, cap, resolve);
      assert FitsAt(root, last, cap, resolve, |turns|);
      NoFailure(MapWith(root, path, cap, resolve).result, root, last, SomeTemp(turns), cap, resolve, |turns|);
    }
  }

  /** Where everything fits, no failure is what the text comes to. */
  lemma NoFailure(r: MapResult, root: Bytes, last: Bytes, temp: bool, cap: nat, resolve: Resolver, k: nat)
    requires FitsAt(root, last, cap, resolve, k) && ResultIs(r, root, last, temp, cap, resolve, k)
    ensures !r.Fails?
  {
    hide ScanFrom, Split, Question, Place, Rewritten, InTempAt, OutsideTemp, StopsAt, DotDots, Loops;
    NoLoop(root, last, cap, resolve, k);
  }

  /** An answer without `..` does not loop. */
  lemma NoLoop(root: Bytes, text: Bytes, cap: nat, resolve: Resolver, k: nat)
    requires FitsAt(root, text, cap, resolve, k)
    ensures !Loops(root, text, cap, resolve, k)
  {
    forall sub, start: nat, at: nat | StopsAt(text, sub, start, at)
      ensures !LoopsAt(root, text, sub, start, at, cap, resolve, k)
    {
      assert AnsweredAt(root, text, sub, start, at, cap, resolve, k);
      var answer := resolve(k, Question(root, text, sub, start, at)).text;
      DotDotsRemainder(text, at);
      DotDotsBehind(root, answer, Join(Split(text)[at + 1..]));
      assert Rest(root, answer, Join(Split(text)[at + 1..])) == Rewritten(root, answer, text, at);
    }
  }
}
