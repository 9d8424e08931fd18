/** What completed setups and teardowns leave to the holder protocol, and that they can complete. */
module HolderOutcomes {
  import opened Text
  import opened HolderProtocol

  // ----- a committed holder -----

  /** It holds, or its next step is to hold. */
  ghost predicate Holds(s: State, h: Hid) {
    IsAt(s, h, Holding) || (Enabled(s, ReadCommit(h)) && IsAt(Next(s, ReadCommit(h)), h, Holding))
  }

  /** It is the holder recorded for the workspace, and holds or will. */
  ghost predicate Serves(s: State, ws: Workspace, h: Hid) {
    h in s.holders && s.holders[h].ws == ws && ws in s.recorded && s.recorded[ws] == h && Holds(s, h)
  }

  /** The step stops the holder, or the holder dies. */
  ghost predicate Ends(s: State, e: Event, h: Hid)
    requires Enabled(s, e)
  {
    e == Die(h) || (e.StopRecorded? && PcOf(s, e.p).records[PcOf(s, e.p).ws] == h)
  }

  ghost predicate Undisturbed(s: State, es: seq<Event>, h: Hid)
    requires CanRun(s, es)
    decreases |es|
  {
    es != [] ==> !Ends(s, es[0], h) && Undisturbed(Next(s, es[0]), es[1..], h)
  }

  lemma HoldsOn(s: State, e: Event, h: Hid)
    requires Enabled(s, e) && Holds(s, h) && !Ends(s, e, h)
    ensures Holds(Next(s, e), h) && Next(s, e).holders[h].ws == s.holders[h].ws
  {
  }

  /** In a state that a run reaches, what holds or will is recorded. */
  lemma HoldsRecorded(s: State, h: Hid)
    requires Inv(s) && Holds(s, h)
    ensures Serves(s, s.holders[h].ws, h)
  {
    assert Committed(s, h);
    assert HolderOk(s, h);
  }

  lemma {:induction false} ServesOn(s: State, es: seq<Event>, ws: Workspace, h: Hid)
    requires Inv(s) && CanRun(s, es) && Serves(s, ws, h) && Undisturbed(s, es, h)
    ensures Serves(After(s, es), ws, h)
    decreases |es|
  {
    hide Inv, Enabled, Next, Holds, Ends;
    if es != [] {
      StepKeeps(s, es[0]);
      HoldsOn(s, es[0], h);
      HoldsRecorded(Next(s, es[0]), h);
      ServesOn(Next(s, es[0]), es[1..], ws, h);
    }
  }

  /** After a setup that ended with its commit, over every interleaving before, the holder it started is
      the recorded one and holds or will; and so it stays over every further run that does not stop
      the holder and in which it does not die. */
  lemma CommitServes(s: State, before: seq<Event>, p: Proc, es: seq<Event>)
    requires Initial(s) && CanRun(s, before) && Enabled(After(s, before), Commit(p))
    requires CanRun(Next(After(s, before), Commit(p)), es)
    ensures var u := After(s, before);
            var h, ws, t := PcOf(u, p).h, PcOf(u, p).ws, Next(u, Commit(p));
            && PcOf(t, p).Idle? && t.lock.None? && Serves(t, ws, h)
            && (Undisturbed(t, es, h) ==> Serves(After(t, es), ws, h))
  {
    hide Inv, CanRun, After, Initial, Serves, Undisturbed;
    InitialInv(s);
    RunKeeps(s, before);
    var u := After(s, before);
    CommitTells(u, p);
    StepKeeps(u, Commit(p));
    var h, ws, t := PcOf(u, p).h, PcOf(u, p).ws, Next(u, Commit(p));
    if Undisturbed(t, es, h) {
      ServesOn(t, es, ws, h);
    }
  }

  lemma CommitTells(u: State, p: Proc)
    requires Inv(u) && Enabled(u, Commit(p))
    ensures var t := Next(u, Commit(p)); PcOf(t, p).Idle? && t.lock.None? && Serves(t, PcOf(u, p).ws, PcOf(u, p).h)
  {
    assert PcOk(u, p);
  }

  // ----- teardown -----

  /** A teardown that succeeds, over every interleaving before, leaves no record of the workspace and
      nobody who holds for it or will. */
  lemma TeardownLeaves(s: State, before: seq<Event>, p: Proc, e: Event)
    requires Initial(s) && CanRun(s, before) && (e == Forget(p) || (e == FindNone(p) && PcOf(After(s, before), p).Deciding? && PcOf(After(s, before), p).task == Teardown))
    requires Enabled(After(s, before), e)
    ensures var ws, t := PcOf(After(s, before), p).ws, Next(After(s, before), e);
            && PcOf(t, p).Idle? && t.lock.None? && ws !in t.recorded
            && (forall h: Hid :: h in t.holders && t.holders[h].ws == ws ==> !Holds(t, h))
  {
    hide CanRun, After, Initial, Inv;
    InitialInv(s);
    RunKeeps(s, before);
    TeardownEnds(After(s, before), p, e);
    StepKeeps(After(s, before), e);
    NobodyHolds(Next(After(s, before), e), PcOf(After(s, before), p).ws);
  }

  lemma TeardownEnds(u: State, p: Proc, e: Event)
    requires Inv(u) && Enabled(u, e) && (e == Forget(p) || (e == FindNone(p) && PcOf(u, p).task == Teardown))
    ensures var t := Next(u, e); PcOf(t, p).Idle? && t.lock.None? && PcOf(u, p).ws !in t.recorded
  {
    assert PcOk(u, p);
  }

  lemma NobodyHolds(t: State, ws: Workspace)
    requires Inv(t) && ws !in t.recorded
    ensures forall h: Hid :: h in t.holders && t.holders[h].ws == ws ==> !Holds(t, h)
  {
    forall h: Hid | h in t.holders && t.holders[h].ws == ws ensures !Holds(t, h) {
      if Holds(t, h) {
        HoldsRecorded(t, h);
      }
    }
  }

  // ----- a process that stops short -----

  /** A process may give up at any point: the lock is free of it, no record changes, and the holder that
      it was starting can see the end of its channel while it waits, and never holds. */
  lemma GiveUpFrees(s: State, p: Proc, es: seq<Event>)
    requires Inv(s) && CanRun(Next(s, GiveUp(p)), es)
    ensures Enabled(s, GiveUp(p))
    ensures var t := Next(s, GiveUp(p));
            && PcOf(t, p).Idle? && t.lock != Some(p) && t.recorded == s.recorded
            && (Minds(PcOf(s, p)) && !Committed(s, PcOf(s, p).h) ==>
                  && !Committed(After(t, es), PcOf(s, p).h)
                  && (IsAt(t, PcOf(s, p).h, Waiting) || IsAt(t, PcOf(s, p).h, Unpinned) ==> Enabled(t, SeeEof(PcOf(s, p).h))))
  {
    hide CanRun, After;
    assert PcOk(s, p);
    var t := Next(s, GiveUp(p));
    StepKeeps(s, GiveUp(p));
    if Minds(PcOf(s, p)) && !Committed(s, PcOf(s, p).h) {
      OrphanNeverHolds(t, es, PcOf(s, p).h);
    }
  }

  // ----- runs to the end -----

  lemma OneStep(s: State, e: Event)
    requires Enabled(s, e)
    ensures CanRun(s, [e]) && After(s, [e]) == Next(s, e)
  {
    assert [e][1..] == [];
  }

  lemma TwoSteps(s: State, e: Event, f: Event)
    requires Enabled(s, e) && Enabled(Next(s, e), f)
    ensures CanRun(s, [e, f]) && After(s, [e, f]) == Next(Next(s, e), f)
  {
    hide Enabled, Next;
    OneStep(Next(s, e), f);
    assert [e, f][1..] == [f];
  }

  /** The start of both operations: nobody holds for the workspace any more. */
  lemma Clears(s: State, p: Proc, task: Task, ws: Workspace) returns (es: seq<Event>, t: State)
    requires Inv(s) && s.lock.None? && PcOf(s, p).Idle? && (task == Setup || ws in s.recorded)
    ensures CanRun(s, es) && After(s, es) == t && t.lock == Some(p) && t.recorded == s.recorded
    ensures PcOf(t, p) == Cleared(task, ws, s.recorded) && t.holders.Keys == s.holders.Keys
  {
    hide CanRun, After;
    var s2 := Next(Next(s, Begin(p, task, ws)), ReadRecords(p));
    TwoSteps(s, Begin(p, task, ws), ReadRecords(p));
    var e := if ws !in s.recorded then FindNone(p) else if Alive(s, s.recorded[ws]) then StopRecorded(p) else FindStale(p);
    ClearsBy(s, p, task, ws, e);
    OneStep(s2, e);
    t := Next(s2, e);
    es := [Begin(p, task, ws), ReadRecords(p)] + [e];
    RunsJoin(s, [Begin(p, task, ws), ReadRecords(p)], [e]);
  }

  lemma ClearsBy(s: State, p: Proc, task: Task, ws: Workspace, e: Event)
    requires Inv(s) && s.lock.None? && PcOf(s, p).Idle? && (task == Setup || ws in s.recorded)
    requires e == if ws !in s.recorded then FindNone(p) else if Alive(s, s.recorded[ws]) then StopRecorded(p) else FindStale(p)
    ensures Enabled(s, Begin(p, task, ws)) && Enabled(Next(s, Begin(p, task, ws)), ReadRecords(p))
    ensures var s2 := Next(Next(s, Begin(p, task, ws)), ReadRecords(p));
            && Enabled(s2, e)
            && var t := Next(s2, e);
               t.lock == Some(p) && t.recorded == s.recorded && PcOf(t, p) == Cleared(task, ws, s.recorded) && t.holders.Keys == s.holders.Keys
  {
    hide PcOk, HolderOk, Vacant;
  }

  /** The new holder of a setup, from its fork to the record. */
  lemma Starts(s: State, p: Proc, ws: Workspace, records: Records, h: Hid) returns (es: seq<Event>, t: State)
    requires PcOf(s, p) == Cleared(Setup, ws, records) && h !in s.holders
    ensures CanRun(s, es) && After(s, es) == t && t.lock == s.lock && t.recorded == records[ws := h]
    ensures PcOf(t, p) == Recorded(ws, h) && IsAt(t, h, Waiting) && t.holders[h].ws == ws
  {
    hide CanRun, After;
    var s2 := Next(Next(s, Fork(p, h)), Pin(p));
    TwoSteps(s, Fork(p, h), Pin(p));
    var s4 := Next(Next(s2, Prepared(h)), Report(p));
    TwoSteps(s2, Prepared(h), Report(p));
    t := Next(s4, Persist(p));
    OneStep(s4, Persist(p));
    RunsJoin(s, [Fork(p, h), Pin(p)], [Prepared(h), Report(p)]);
    RunsJoin(s, [Fork(p, h), Pin(p)] + [Prepared(h), Report(p)], [Persist(p)]);
    es := [Fork(p, h), Pin(p)] + [Prepared(h), Report(p)] + [Persist(p)];
  }

  lemma Commits(s: State, p: Proc, ws: Workspace, h: Hid) returns (es: seq<Event>, t: State)
    requires PcOf(s, p) == Recorded(ws, h) && IsAt(s, h, Waiting) && s.lock == Some(p)
    ensures CanRun(s, es) && After(s, es) == t && t.lock.None? && t.recorded == s.recorded
    ensures PcOf(t, p).Idle? && IsAt(t, h, Holding) && t.holders[h].ws == s.holders[h].ws
  {
    hide CanRun, After;
    t := Next(Next(s, Commit(p)), ReadCommit(h));
    TwoSteps(s, Commit(p), ReadCommit(h));
    es := [Commit(p), ReadCommit(h)];
  }

  /** From every state that a run reaches with the lock free, a setup can run to its end: a new holder
      is the recorded one and holds, and no other record has changed. */
  lemma SetupCompletes(s: State, p: Proc, ws: Workspace, h: Hid) returns (es: seq<Event>, t: State)
    requires Inv(s) && s.lock.None? && PcOf(s, p).Idle? && h !in s.holders
    ensures CanRun(s, es) && After(s, es) == t && PcOf(t, p).Idle? && t.lock.None?
    ensures t.recorded == s.recorded[ws := h] && IsAt(t, h, Holding) && Serves(t, ws, h)
  {
    hide CanRun, After, Inv;
    var es1, s1 := Clears(s, p, Setup, ws);
    var es2, s2 := Starts(s1, p, ws, s.recorded, h);
    var es3, s3 := Commits(s2, p, ws, h);
    RunsJoin(s, es1, es2);
    RunsJoin(s, es1 + es2, es3);
    es, t := es1 + es2 + es3, s3;
  }

  /** And a teardown: the workspace has no record and nobody holds for it. */
  lemma TeardownCompletes(s: State, p: Proc, ws: Workspace) returns (es: seq<Event>, t: State)
    requires Inv(s) && s.lock.None? && PcOf(s, p).Idle?
    ensures CanRun(s, es) && After(s, es) == t && PcOf(t, p).Idle? && t.lock.None?
    ensures t.recorded == s.recorded - {ws}
    ensures forall h: Hid :: h in t.holders && t.holders[h].ws == ws ==> !Holds(t, h)
  {
    hide Holds;
    if ws in s.recorded {
      hide CanRun, After, Inv;
      var es1, s1 := Clears(s, p, Teardown, ws);
      OneStep(s1, Forget(p));
      RunsJoin(s, es1, [Forget(p)]);
      es, t := es1 + [Forget(p)], Next(s1, Forget(p));
    } else {
      es, t := FindsNothing(s, p, ws);
    }
    RunKeeps(s, es);
    NobodyHolds(t, ws);
  }

  lemma FindsNothing(s: State, p: Proc, ws: Workspace) returns (es: seq<Event>, t: State)
    requires s.lock.None? && PcOf(s, p).Idle? && ws !in s.recorded
    ensures CanRun(s, es) && After(s, es) == t && PcOf(t, p).Idle? && t.lock.None? && t.recorded == s.recorded - {ws}
  {
    hide CanRun, After;
    var s2 := Next(Next(s, Begin(p, Teardown, ws)), ReadRecords(p));
    TwoSteps(s, Begin(p, Teardown, ws), ReadRecords(p));
    OneStep(s2, FindNone(p));
    t := Next(s2, FindNone(p));
    RunsJoin(s, [Begin(p, Teardown, ws), ReadRecords(p)], [FindNone(p)]);
    es := [Begin(p, Teardown, ws), ReadRecords(p)] + [FindNone(p)];
    assert s.recorded - {ws} == s.recorded;
  }

  /** A first setup in a new system: a run whose last state has its holder holding. */
  lemma FirstSetupHolds(p: Proc, ws: Workspace, h: Hid) returns (es: seq<Event>)
    ensures Initial(Empty) && CanRun(Empty, es) && IsAt(After(Empty, es), h, Holding) && After(Empty, es).recorded == map[ws := h]
  {
    InitialInv(Empty);
    var t;
    es, t := SetupCompletes(Empty, p, ws, h);
  }
}
