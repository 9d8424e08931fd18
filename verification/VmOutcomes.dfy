/** What completed operations on Linux VMs leave behind, and that they can complete. */
module VmOutcomes {
  import opened Text
  import opened VmLifecycle
  import opened VmSafety

  // ----- stopped means stopped -----

  ghost predicate SaysStopped(s: Vms, o: Owner) {
    o in s.journals && s.journals[o].phase == Stopped
  }

  /** Where a journal says stopped, or a teardown is about to, no instance runs; where a deletion
      is done with the instance, and for every owner that was removed, there is none. */
  ghost predicate Down(s: Vms) {
    && (forall o: Owner :: SaysStopped(s, o) ==> !IsRunning(s, o))
    && (forall p: Proc :: PcOf(s, p).TearStopped? ==> !IsRunning(s, PcOf(s, p).vm.owner))
    && (forall p: Proc :: PcOf(s, p).DelGone? ==> PcOf(s, p).vm.owner !in s.instances)
    && (forall o: Owner :: o in s.removed ==> o !in s.instances)
    && (forall p: Proc :: PcOf(s, p).CreateJournaled? ==> JournalOf(s, PcOf(s, p).vm.owner) == Journal(Created, 0))
  }

  lemma InitialDown(s: Vms)
    requires Initial(s)
    ensures Down(s)
  {
  }

  /** A start works on a journal that says starting, under the lock of its owner. */
  lemma StartKnows(s: Vms, e: Event, o: Owner)
    requires Inv(s) && Enabled(s, e) && IsRunning(Next(s, e), o) && !IsRunning(s, o)
    ensures e.StartInstance? && o == PcOf(s, e.p).vm.owner && JournalOf(s, o).phase == Starting
    ensures o in s.locks && s.locks[o] == e.p && !e.RecordStopped?
  {
    hide NoneRunning, NoExec;
    RunningNext(s, e, o);
    assert PcOk(s, e.p);
  }

  lemma StoppedKeeps(s: Vms, e: Event, o: Owner)
    requires Inv(s) && Down(s) && Enabled(s, e) && SaysStopped(Next(s, e), o)
    ensures !IsRunning(Next(s, e), o)
  {
    hide Inv, PcOk, NoneRunning, NoExec;
    if !IsRunning(s, o) {
      if IsRunning(Next(s, e), o) {
        StartKnows(s, e, o);
      }
    } else if !SaysStopped(s, o) {
      SavedStopped(s, e, o);
    }
  }

  /** Only the end of a teardown saves that word. */
  lemma SavedStopped(s: Vms, e: Event, o: Owner)
    requires Inv(s) && Enabled(s, e) && SaysStopped(Next(s, e), o) && !SaysStopped(s, o)
    ensures e.RecordStopped? && PcOf(s, e.p).vm.owner == o
  {
  }

  lemma TeardownKeeps(s: Vms, e: Event, p: Proc)
    requires Inv(s) && Down(s) && Enabled(s, e) && PcOf(Next(s, e), p).TearStopped?
    ensures !IsRunning(Next(s, e), PcOf(Next(s, e), p).vm.owner)
  {
    hide Inv, PcOk, NoneRunning, NoExec;
    if Acts(e) && e.p == p {
      StopsOrNot(s, e);
    } else {
      var o := PcOf(s, p).vm.owner;
      LockIs(s, p);
      if IsRunning(Next(s, e), o) {
        StartKnows(s, e, o);
      }
    }
  }

  lemma StopsOrNot(s: Vms, e: Event)
    requires Acts(e) && Enabled(s, e) && PcOf(Next(s, e), e.p).TearStopped?
    ensures !IsRunning(Next(s, e), PcOf(Next(s, e), e.p).vm.owner)
  {
    hide NoneRunning, NoExec;
    assert e.StopInstance? || e.NothingToStop?;
  }

  lemma LockIs(s: Vms, p: Proc)
    requires Inv(s)
    ensures var h := Holds(PcOf(s, p)); h.Some? ==> h.value in s.locks && s.locks[h.value] == p
  {
    assert PcOk(s, p);
  }

  /** An instance is made under the lock of its owner, and only for a registered workspace. */
  lemma MakeKnows(s: Vms, e: Event, o: Owner)
    requires Inv(s) && Enabled(s, e) && o in Next(s, e).instances && o !in s.instances
    ensures e.MakeInstance? && o == PcOf(s, e.p).vm.owner && o in s.locks && s.locks[o] == e.p
    ensures IsRegistered(s, PcOf(s, e.p).vm) && o !in s.removed
  {
    hide NoneRunning, NoExec;
    assert e.MakeInstance?;
    assert PcOk(s, e.p);
  }

  lemma GoneKeeps(s: Vms, e: Event, p: Proc)
    requires Inv(s) && Down(s) && Enabled(s, e) && PcOf(Next(s, e), p).DelGone?
    ensures PcOf(Next(s, e), p).vm.owner !in Next(s, e).instances
  {
    hide Inv, PcOk, NoneRunning, NoExec;
    if Acts(e) && e.p == p {
      DeletesIt(s, e);
    } else {
      var o := PcOf(s, p).vm.owner;
      LockIs(s, p);
      if o in Next(s, e).instances {
        MakeKnows(s, e, o);
      }
    }
  }

  lemma DeletesIt(s: Vms, e: Event)
    requires Acts(e) && Enabled(s, e) && PcOf(Next(s, e), e.p).DelGone?
    ensures PcOf(Next(s, e), e.p).vm.owner !in Next(s, e).instances
  {
    hide NoneRunning, NoExec;
    assert e.DeleteInstance?;
  }

  lemma RemovedKeeps(s: Vms, e: Event, o: Owner)
    requires Inv(s) && Down(s) && Enabled(s, e) && o in Next(s, e).removed
    ensures o !in Next(s, e).instances
  {
    hide Inv, PcOk, NoneRunning, NoExec;
    if o in Next(s, e).instances && o !in s.instances {
      MakeKnows(s, e, o);
    }
  }

  lemma FirstKeeps(s: Vms, e: Event, p: Proc)
    requires Inv(s) && Down(s) && Enabled(s, e) && PcOf(Next(s, e), p).CreateJournaled?
    ensures JournalOf(Next(s, e), PcOf(Next(s, e), p).vm.owner) == Journal(Created, 0)
  {
    hide Inv, PcOk, NoneRunning, NoExec;
    if Acts(e) && e.p == p {
      assert e.WriteFirstJournal?;
    } else {
      hide Enabled, Saved;
      var o := PcOf(s, p).vm.owner;
      assert PcOf(Next(s, e), p) == PcOf(s, p);
      if Acts(e) && Saved(s, e).Some? {
        WritesElsewhere(s, e, p);
      }
      assert JournalOf(Next(s, e), o) == JournalOf(s, o);
    }
  }

  lemma WritesElsewhere(s: Vms, e: Event, p: Proc)
    requires Inv(s) && Acts(e) && Enabled(s, e) && Saved(s, e).Some? && e.p != p && Creating(PcOf(s, p))
    ensures PcOf(s, e.p).vm.owner != PcOf(s, p).vm.owner
  {
    assert PcOk(s, p) && PcOk(s, e.p);
    SavedChecked(s, e);
    hide Enabled, Saved, Inv, PcJournal, PcHistory, NoneRunning, NoExec;
    var vm := PcOf(s, e.p).vm;
    if Checked(PcOf(s, e.p)) {
      assert s.registry[vm.id] in s.registry.Values;
    }
  }

  lemma StepDown(s: Vms, e: Event)
    requires Inv(s) && Down(s) && Enabled(s, e)
    ensures Down(Next(s, e))
  {
    hide Inv, Next, Enabled, IsRunning, SaysStopped, JournalOf;
    var t := Next(s, e);
    forall o: Owner | SaysStopped(t, o) ensures !IsRunning(t, o) {
      StoppedKeeps(s, e, o);
    }
    forall p: Proc | PcOf(t, p).TearStopped? ensures !IsRunning(t, PcOf(t, p).vm.owner) {
      TeardownKeeps(s, e, p);
    }
    forall p: Proc | PcOf(t, p).DelGone? ensures PcOf(t, p).vm.owner !in t.instances {
      GoneKeeps(s, e, p);
    }
    forall o: Owner | o in t.removed ensures o !in t.instances {
      RemovedKeeps(s, e, o);
    }
    forall p: Proc | PcOf(t, p).CreateJournaled? ensures JournalOf(t, PcOf(t, p).vm.owner) == Journal(Created, 0) {
      FirstKeeps(s, e, p);
    }
  }

  lemma {:induction false} RunDown(s: Vms, es: seq<Event>)
    requires Inv(s) && Down(s) && CanRun(s, es)
    ensures Inv(After(s, es)) && Down(After(s, es))
    decreases |es|
  {
    hide Inv, Down, Next, Enabled;
    if es != [] {
      StepKeeps(s, es[0]);
      StepDown(s, es[0]);
      RunDown(Next(s, es[0]), es[1..]);
    }
  }

  // ----- the end of an operation -----

  /** What the last step of an operation leaves, in a state that any run reaches. */
  ghost predicate Ended(s: Vms, e: Event) {
    Enabled(s, e) &&
    var t := Next(s, e);
    && (e.BecomeReady? ==>
          var vm := PcOf(s, e.p).vm;
          IsRegistered(t, vm) && IsRunning(t, vm.owner) && JournalOf(t, vm.owner).phase == Ready)
    && (e.RecordStopped? ==>
          var vm := PcOf(s, e.p).vm;
          IsRegistered(t, vm) && !IsRunning(t, vm.owner) && JournalOf(t, vm.owner).phase in {Stopped, Created})
    && (e.Unregister? ==>
          var vm := PcOf(s, e.p).vm;
          vm.id !in t.registry && vm.owner !in t.instances && JournalOf(t, vm.owner).phase == Deleting && vm.owner in t.removed)
    && (e.Register? ==>
          var vm := PcOf(s, e.p).vm;
          IsRegistered(t, vm) && JournalOf(t, vm.owner).phase == Created)
  }

  /** Over every interleaving: a setup that succeeds leaves the VM running and recorded as ready, a
      teardown leaves it down, a deletion leaves neither the instance nor the name, and a creation
      leaves the name. */
  lemma OperationsEnd(s: Vms, es: seq<Event>, e: Event)
    requires Initial(s) && CanRun(s, es) && Enabled(After(s, es), e)
    ensures Ended(After(s, es), e)
  {
    hide CanRun, After, Initial, Ended, Enabled, Inv, Down;
    InitialInv(s);
    InitialDown(s);
    RunDown(s, es);
    EndsSo(After(s, es), e);
  }

  lemma EndsSo(s: Vms, e: Event)
    requires Inv(s) && Down(s) && Enabled(s, e)
    ensures Ended(s, e)
  {
    hide NoneRunning, NoExec;
    if Acts(e) {
      assert PcOk(s, e.p);
    }
  }

  /** No start of the owner's instance is in the run. */
  ghost predicate NoStart(s: Vms, es: seq<Event>, o: Owner)
    requires CanRun(s, es)
    decreases |es|
  {
    es != [] ==> !(es[0].StartInstance? && PcOf(s, es[0].p).vm.owner == o) && NoStart(Next(s, es[0]), es[1..], o)
  }

  /** A VM that is down stays down until its next start, and one that was deleted for ever. */
  lemma {:induction false} StaysDown(s: Vms, es: seq<Event>, o: Owner)
    requires Inv(s) && Down(s) && CanRun(s, es)
    ensures !IsRunning(s, o) && NoStart(s, es, o) ==> !IsRunning(After(s, es), o)
    ensures o in s.removed ==> o !in After(s, es).instances
    decreases |es|
  {
    hide Inv, Enabled, Next;
    if es != [] {
      StepKeeps(s, es[0]);
      StepDown(s, es[0]);
      StepRemoved(s, es[0]);
      if !IsRunning(s, o) {
        StepNotStarted(s, es[0], o);
      }
      StaysDown(Next(s, es[0]), es[1..], o);
    }
  }

  lemma StepNotStarted(s: Vms, e: Event, o: Owner)
    requires Enabled(s, e) && !IsRunning(s, o)
    ensures IsRunning(Next(s, e), o) ==> e.StartInstance? && PcOf(s, e.p).vm.owner == o
  {
    if IsRunning(Next(s, e), o) {
      RunningNext(s, e, o);
    }
  }

  // ----- consent -----

  /** A deletion that means to remove an instance. */
  ghost predicate Removes(pc: Pc) {
    (pc.DelChecked? || pc.DelMarked?) && pc.present
  }

  /** An instance goes by a deletion that means to remove it, or is lost outside. */
  lemma InstanceGoes(s: Vms, e: Event, o: Owner)
    requires Enabled(s, e) && o in s.instances && o !in Next(s, e).instances
    ensures e == Lose(o) || (e.DeleteInstance? && Removes(PcOf(s, e.p)) && PcOf(s, e.p).vm.owner == o && !IsRunning(s, o))
  {
    hide NoneRunning, NoExec;
  }

  /** A deletion comes to mean that by a check that was given consent. */
  lemma ConsentGiven(s: Vms, e: Event, p: Proc)
    requires Enabled(s, e) && Removes(PcOf(Next(s, e), p))
    ensures Removes(PcOf(s, p)) || e == CheckDelete(p, true)
  {
    hide NoneRunning, NoExec;
  }

  lemma {:induction false} ConsentWas(s: Vms, es: seq<Event>, p: Proc)
    requires CanRun(s, es) && Removes(PcOf(After(s, es), p))
    ensures Removes(PcOf(s, p)) || CheckDelete(p, true) in es
    decreases |es|
  {
    hide Enabled, Next, Removes;
    if es != [] {
      ConsentWas(Next(s, es[0]), es[1..], p);
      if Removes(PcOf(Next(s, es[0]), p)) {
        ConsentGiven(s, es[0], p);
      } else {
        assert forall e :: e in es[1..] ==> e in es;
      }
    }
  }

  /** Over every interleaving: a step that makes an instance go, other than a loss outside, is one of a
      process that was given consent in the run, and the instance was not running. */
  lemma GoesWithConsent(s: Vms, es: seq<Event>, e: Event, o: Owner)
    requires Initial(s) && CanRun(s, es) && Enabled(After(s, es), e)
    requires o in After(s, es).instances && o !in Next(After(s, es), e).instances && e != Lose(o)
    ensures e.DeleteInstance? && CheckDelete(e.p, true) in es && !IsRunning(After(s, es), o)
  {
    hide CanRun, After, Enabled, Next;
    InstanceGoes(After(s, es), e, o);
    ConsentWas(s, es, e.p);
  }
}
