/** Operations on Linux VMs that nothing disturbs run to their end. */
module VmCompletes {
  import opened Text
  import opened VmLifecycle
  import opened VmSafety

  /** A run by one process alone, and the state it ends in. */
  ghost predicate RunsTo(s: Vms, p: Proc, es: seq<Event>, t: Vms) {
    CanRun(s, es) && After(s, es) == t && forall e :: e in es ==> Acts(e) && e.p == p
  }

  lemma NoSteps(s: Vms, p: Proc)
    ensures RunsTo(s, p, [], s)
  {
  }

  lemma OneStep(s: Vms, p: Proc, e: Event, es: seq<Event>, t: Vms)
    requires Acts(e) && e.p == p && Enabled(s, e) && RunsTo(Next(s, e), p, es, t)
    ensures RunsTo(s, p, [e] + es, t)
  {
    hide Enabled, Next;
    assert ([e] + es)[1..] == es;
  }

  lemma OnTo(s: Vms, p: Proc, first: seq<Event>, mid: Vms, rest: seq<Event>, t: Vms)
    requires RunsTo(s, p, first, mid) && RunsTo(mid, p, rest, t)
    ensures RunsTo(s, p, first + rest, t)
    decreases |first|
  {
    hide Enabled, Next;
    if first == [] {
      assert first + rest == rest;
    } else {
      assert first[0] in first && forall e :: e in first[1..] ==> e in first;
      OnTo(Next(s, first[0]), p, first[1..], mid, rest, t);
      OneStep(s, p, first[0], first[1..] + rest, t);
      assert first + rest == [first[0]] + (first[1..] + rest);
    }
  }

  lemma Alone(s: Vms, p: Proc, e: Event)
    requires Acts(e) && e.p == p && Enabled(s, e)
    ensures RunsTo(s, p, [e], Next(s, e))
  {
    hide Enabled, Next;
    NoSteps(Next(s, e), p);
    OneStep(s, p, e, [], Next(s, e));
    assert [e] + [] == [e];
  }

  /** What the other processes and the other owners have is as before. */
  ghost predicate Stays(s: Vms, t: Vms, p: Proc, o: Owner) {
    && (forall q: Proc :: q != p ==> PcOf(t, q) == PcOf(s, q))
    && (forall a: Owner :: a != o ==> JournalOf(t, a) == JournalOf(s, a) && (IsRunning(t, a) <==> IsRunning(s, a)))
    && (forall a: Owner :: a != o ==> (a in t.instances <==> a in s.instances))
  }

  /** The owner that a step works on. */
  ghost function Works(s: Vms, e: Event): Owner
    requires Acts(e) && Enabled(s, e) && !e.GiveUp?
  {
    if e.BeginCreate? || Locks(e) || e.BeginExec? then e.vm.owner else PcOf(s, e.p).vm.owner
  }

  lemma StepStays(s: Vms, e: Event)
    requires Acts(e) && Enabled(s, e) && !e.GiveUp?
    ensures Stays(s, Next(s, e), e.p, Works(s, e))
  {
    hide NoExec, NoneRunning;
  }

  lemma StaysOn(s: Vms, t: Vms, u: Vms, p: Proc, o: Owner)
    requires Stays(s, t, p, o) && Stays(t, u, p, o)
    ensures Stays(s, u, p, o)
  {
  }

  // ----- teardown -----

  /** What one step leaves of the owner that it works on. */
  ghost predicate OwnerIs(t: Vms, o: Owner, j: Journal, present: bool, running: bool) {
    JournalOf(t, o) == j && (o in t.instances <==> present) && (IsRunning(t, o) <==> running)
  }

  ghost predicate SameLocks(s: Vms, t: Vms) {
    t.locks == s.locks && t.admission == s.admission && t.registryLock == s.registryLock
  }

  lemma TearStarts(s: Vms, p: Proc, vm: Vm) returns (es: seq<Event>, t: Vms)
    requires Lockable(s, p, vm.owner) && IsRegistered(s, vm) && JournalOf(s, vm.owner).phase != Deleting
    ensures RunsTo(s, p, es, t) && Stays(s, t, p, vm.owner) && t.registry == s.registry
    ensures PcOf(t, p) == TearChecked(vm, JournalOf(s, vm.owner)) && t.locks == s.locks[vm.owner := p]
    ensures t.admission == s.admission && t.registryLock == s.registryLock
    ensures OwnerIs(t, vm.owner, JournalOf(s, vm.owner), vm.owner in s.instances, IsRunning(s, vm.owner))
  {
    hide RunsTo, Stays, NoneRunning;
    var e1, e2 := BeginTeardown(p, vm), CheckTeardown(p);
    var s1 := Next(s, e1);
    t := Next(s1, e2);
    Alone(s, p, e1);
    Alone(s1, p, e2);
    StepStays(s, e1);
    StepStays(s1, e2);
    hide *;
    StaysOn(s, s1, t, p, vm.owner);
    OnTo(s, p, [e1], s1, [e2], t);
    es := [e1] + [e2];
  }

  lemma TearStops(s: Vms, p: Proc, vm: Vm, j: Journal) returns (es: seq<Event>, t: Vms)
    requires PcOf(s, p) == TearChecked(vm, j) && IsRunning(s, vm.owner)
    ensures RunsTo(s, p, es, t) && Stays(s, t, p, vm.owner) && t.registry == s.registry && SameLocks(s, t)
    ensures var j' := j.(phase := Phase.Stopping);
            PcOf(t, p) == TearStopped(vm, j') && OwnerIs(t, vm.owner, j', true, false)
  {
    hide RunsTo, Stays, NoExec, NoneRunning;
    var e1, e2 := BeginStop(p), StopInstance(p);
    var s1 := Next(s, e1);
    t := Next(s1, e2);
    Alone(s, p, e1);
    Alone(s1, p, e2);
    StepStays(s, e1);
    StepStays(s1, e2);
    StaysOn(s, s1, t, p, vm.owner);
    OnTo(s, p, [e1], s1, [e2], t);
    es := [e1] + [e2];
  }

  /** The stop, or finding that there is nothing to stop. */
  lemma TearMiddle(s: Vms, p: Proc, vm: Vm, j: Journal) returns (es: seq<Event>, t: Vms)
    requires PcOf(s, p) == TearChecked(vm, j) && JournalOf(s, vm.owner) == j
    ensures RunsTo(s, p, es, t) && Stays(s, t, p, vm.owner) && t.registry == s.registry && SameLocks(s, t)
    ensures var j' := if IsRunning(s, vm.owner) then j.(phase := Phase.Stopping) else j;
            PcOf(t, p) == TearStopped(vm, j') && OwnerIs(t, vm.owner, j', vm.owner in s.instances, false)
  {
    hide RunsTo, Stays, NoExec, NoneRunning;
    if IsRunning(s, vm.owner) {
      es, t := TearStops(s, p, vm, j);
    } else {
      var e := NothingToStop(p);
      t := Next(s, e);
      Alone(s, p, e);
      StepStays(s, e);
      es := [e];
    }
  }

  lemma TearEnds(s: Vms, p: Proc, vm: Vm, j: Journal) returns (es: seq<Event>, t: Vms)
    requires PcOf(s, p) == TearStopped(vm, j) && s.admission != Some(p) && s.registryLock != Some(p)
    ensures RunsTo(s, p, es, t) && Stays(s, t, p, vm.owner) && t.registry == s.registry
    ensures t.locks == s.locks - {vm.owner} && t.admission == s.admission && t.registryLock == s.registryLock
    ensures PcOf(t, p) == Idle
    ensures OwnerIs(t, vm.owner, j.(phase := if j.phase == Created then Created else Phase.Stopped), vm.owner in s.instances, IsRunning(s, vm.owner))
  {
    var e := RecordStopped(p);
    t := Next(s, e);
    Alone(s, p, e);
    StepStays(s, e);
    es := [e];
  }

  /** A process that holds none of the shared locks. */
  ghost predicate Clear(s: Vms, p: Proc) {
    s.admission != Some(p) && s.registryLock != Some(p)
  }

  /** A teardown of a registered workspace whose lock is free runs to its end: the VM is down, the
      journal says so, and nothing else has changed. */
  lemma TeardownCompletes(s: Vms, p: Proc, vm: Vm) returns (es: seq<Event>, t: Vms)
    requires Lockable(s, p, vm.owner) && Clear(s, p) && IsRegistered(s, vm) && JournalOf(s, vm.owner).phase != Deleting
    ensures RunsTo(s, p, es, t) && Stays(s, t, p, vm.owner) && PcOf(t, p).Idle? && t.registry == s.registry && SameLocks(s, t)
    ensures var j := JournalOf(s, vm.owner);
            OwnerIs(t, vm.owner, j.(phase := if j.phase == Created && !IsRunning(s, vm.owner) then Created else Phase.Stopped),
                    vm.owner in s.instances, false)
  {
    hide RunsTo, Stays, NoExec, NoneRunning;
    var j := JournalOf(s, vm.owner);
    var es1, s1 := TearStarts(s, p, vm);
    var es2, s2 := TearMiddle(s1, p, vm, j);
    var es3, s3 := TearEnds(s2, p, vm, if IsRunning(s, vm.owner) then j.(phase := Phase.Stopping) else j);
    StaysOn(s, s1, s2, p, vm.owner);
    StaysOn(s, s2, s3, p, vm.owner);
    OnTo(s, p, es1, s1, es2, s2);
    OnTo(s, p, es1 + es2, s2, es3, s3);
    es, t := es1 + es2 + es3, s3;
  }

  // ----- setup -----

  /** What a setup finds: the VM running, or no VM running at all and an instance there or one that may
      be made. */
  ghost predicate CanSetup(s: Vms, vm: Vm, recreate: bool) {
    var j := JournalOf(s, vm.owner);
    && IsRegistered(s, vm) && j.phase != Deleting && s.admission.None?
    && (IsRunning(s, vm.owner)
        || (NoneRunning(s) && j.generation < MAX_GENERATION && (vm.owner in s.instances || j.phase == Created || recreate)))
  }

  lemma SetupStarts(s: Vms, p: Proc, vm: Vm, recreate: bool) returns (es: seq<Event>, t: Vms)
    requires Lockable(s, p, vm.owner) && IsRegistered(s, vm) && JournalOf(s, vm.owner).phase != Deleting
    ensures RunsTo(s, p, es, t) && Stays(s, t, p, vm.owner) && t.registry == s.registry && t.instances == s.instances
    ensures PcOf(t, p) == SetupChecked(vm, recreate, JournalOf(s, vm.owner)) && t.locks == s.locks[vm.owner := p]
    ensures t.admission == s.admission && t.registryLock == s.registryLock && JournalOf(t, vm.owner) == JournalOf(s, vm.owner)
  {
    hide RunsTo, Stays, NoneRunning;
    var e1, e2 := BeginSetup(p, vm, recreate), CheckSetup(p);
    var s1 := Next(s, e1);
    t := Next(s1, e2);
    Alone(s, p, e1);
    Alone(s1, p, e2);
    StepStays(s, e1);
    StepStays(s1, e2);
    hide *;
    StaysOn(s, s1, t, p, vm.owner);
    OnTo(s, p, [e1], s1, [e2], t);
    es := [e1] + [e2];
  }

  lemma SetupAdmits(s: Vms, p: Proc, vm: Vm, recreate: bool, j: Journal) returns (es: seq<Event>, t: Vms)
    requires PcOf(s, p) == SetupChecked(vm, recreate, j) && s.admission.None?
    ensures RunsTo(s, p, es, t) && Stays(s, t, p, vm.owner) && t.registry == s.registry && t.instances == s.instances
    ensures PcOf(t, p) == SetupAdmitted(vm, recreate, j) && t.locks == s.locks
    ensures t.admission == Some(p) && t.registryLock == s.registryLock && JournalOf(t, vm.owner) == JournalOf(s, vm.owner)
  {
    var e := Admit(p);
    t := Next(s, e);
    Alone(s, p, e);
    StepStays(s, e);
    es := [e];
  }

  lemma NoneSame(s: Vms, t: Vms)
    requires t.instances == s.instances
    ensures NoneRunning(t) == NoneRunning(s)
  {
    if NoneRunning(s) {
      forall o: Owner ensures !IsRunning(t, o) { assert !IsRunning(s, o); }
    }
    if NoneRunning(t) {
      forall o: Owner ensures !IsRunning(s, o) { assert !IsRunning(t, o); }
    }
  }

  /** From admission to an instance that is there and not running. */
  lemma SetupMakes(s: Vms, p: Proc, vm: Vm, recreate: bool, j: Journal) returns (es: seq<Event>, t: Vms, j': Journal)
    requires PcOf(s, p) == SetupAdmitted(vm, recreate, j) && JournalOf(s, vm.owner) == j && NoneRunning(s)
    requires vm.owner in s.instances || j.phase == Created || recreate
    ensures RunsTo(s, p, es, t) && Stays(s, t, p, vm.owner) && t.registry == s.registry && SameLocks(s, t)
    ensures PcOf(t, p) == SetupMade(vm, j') && OwnerIs(t, vm.owner, j', true, false)
    ensures j' == if vm.owner in s.instances then j else j.(phase := Phase.Provisioning)
  {
    var e1 := FindAlone(p);
    var s1 := Next(s, e1);
    assert !IsRunning(s, vm.owner);
    Alone(s, p, e1);
    StepStays(s, e1);
    if vm.owner in s.instances {
      var e2 := SkipProvision(p);
      t := Next(s1, e2);
      Alone(s1, p, e2);
      StepStays(s1, e2);
      StaysOn(s, s1, t, p, vm.owner);
      OnTo(s, p, [e1], s1, [e2], t);
      es, j' := [e1] + [e2], j;
    } else {
      var es2;
      es2, t, j' := SetupProvides(s1, p, vm, recreate, j);
      StaysOn(s, s1, t, p, vm.owner);
      OnTo(s, p, [e1], s1, es2, t);
      es := [e1] + es2;
    }
  }

  lemma SetupProvides(s: Vms, p: Proc, vm: Vm, recreate: bool, j: Journal) returns (es: seq<Event>, t: Vms, j': Journal)
    requires PcOf(s, p) == SetupAlone(vm, recreate, j, false) && vm.owner !in s.instances && (j.phase == Created || recreate)
    ensures RunsTo(s, p, es, t) && Stays(s, t, p, vm.owner) && t.registry == s.registry && SameLocks(s, t)
    ensures PcOf(t, p) == SetupMade(vm, j') && OwnerIs(t, vm.owner, j', true, false) && j' == j.(phase := Phase.Provisioning)
  {
    hide RunsTo, Stays, NoExec, NoneRunning;
    var e1, e2 := Provision(p), MakeInstance(p);
    var s1 := Next(s, e1);
    t := Next(s1, e2);
    Alone(s, p, e1);
    Alone(s1, p, e2);
    StepStays(s, e1);
    StepStays(s1, e2);
    StaysOn(s, s1, t, p, vm.owner);
    OnTo(s, p, [e1], s1, [e2], t);
    es, j' := [e1] + [e2], j.(phase := Phase.Provisioning);
  }

  lemma SetupRuns(s: Vms, p: Proc, vm: Vm, j: Journal) returns (es: seq<Event>, t: Vms, j': Journal)
    requires PcOf(s, p) == SetupMade(vm, j) && vm.owner in s.instances && j.generation < MAX_GENERATION
    ensures RunsTo(s, p, es, t) && Stays(s, t, p, vm.owner) && t.registry == s.registry && SameLocks(s, t)
    ensures PcOf(t, p) == SetupProbing(vm, j') && OwnerIs(t, vm.owner, j', true, true) && j' == Journal(Phase.Starting, j.generation + 1)
  {
    hide RunsTo, Stays, NoExec, NoneRunning;
    var e1, e2 := NextGeneration(p), StartInstance(p);
    var s1 := Next(s, e1);
    t := Next(s1, e2);
    Alone(s, p, e1);
    Alone(s1, p, e2);
    StepStays(s, e1);
    StepStays(s1, e2);
    StaysOn(s, s1, t, p, vm.owner);
    OnTo(s, p, [e1], s1, [e2], t);
    es, j' := [e1] + [e2], Journal(Phase.Starting, j.generation + 1);
  }

  /** From admission to a running instance. */
  lemma SetupBrings(s: Vms, p: Proc, vm: Vm, recreate: bool, j: Journal) returns (es: seq<Event>, t: Vms, j': Journal)
    requires PcOf(s, p) == SetupAdmitted(vm, recreate, j) && JournalOf(s, vm.owner) == j
    requires IsRunning(s, vm.owner) || (NoneRunning(s) && j.generation < MAX_GENERATION && (vm.owner in s.instances || j.phase == Created || recreate))
    ensures RunsTo(s, p, es, t) && Stays(s, t, p, vm.owner) && t.registry == s.registry && SameLocks(s, t)
    ensures PcOf(t, p) == SetupProbing(vm, j') && OwnerIs(t, vm.owner, j', true, true)
    ensures j'.generation == j.generation + if IsRunning(s, vm.owner) then 0 else 1
  {
    if IsRunning(s, vm.owner) {
      var e := FindRunning(p);
      t := Next(s, e);
      Alone(s, p, e);
      StepStays(s, e);
      es, j' := [e], j;
    } else {
      hide RunsTo, Stays, NoExec, NoneRunning;
      var es1, s1, j1 := SetupMakes(s, p, vm, recreate, j);
      var es2;
      es2, t, j' := SetupRuns(s1, p, vm, j1);
      StaysOn(s, s1, t, p, vm.owner);
      OnTo(s, p, es1, s1, es2, t);
      es := es1 + es2;
    }
  }

  lemma SetupEnds(s: Vms, p: Proc, vm: Vm, j: Journal) returns (es: seq<Event>, t: Vms)
    requires PcOf(s, p) == SetupProbing(vm, j) && IsRunning(s, vm.owner) && s.admission == Some(p) && s.registryLock != Some(p)
    ensures RunsTo(s, p, es, t) && Stays(s, t, p, vm.owner) && t.registry == s.registry
    ensures t.locks == s.locks - {vm.owner} && t.admission == None && t.registryLock == s.registryLock
    ensures PcOf(t, p) == Idle && OwnerIs(t, vm.owner, j.(phase := Phase.Ready), true, true)
  {
    var e := BecomeReady(p);
    t := Next(s, e);
    Alone(s, p, e);
    StepStays(s, e);
    es := [e];
  }

  /** A setup that finds what it needs runs to its end: the VM runs, under the next generation unless it
      ran already, the journal says ready, and nothing else has changed. */
  lemma SetupCompletes(s: Vms, p: Proc, vm: Vm, recreate: bool) returns (es: seq<Event>, t: Vms)
    requires Lockable(s, p, vm.owner) && s.registryLock != Some(p) && CanSetup(s, vm, recreate)
    ensures RunsTo(s, p, es, t) && Stays(s, t, p, vm.owner) && PcOf(t, p).Idle? && t.registry == s.registry && SameLocks(s, t)
    ensures OwnerIs(t, vm.owner, Journal(Phase.Ready, JournalOf(s, vm.owner).generation + if IsRunning(s, vm.owner) then 0 else 1), true, true)
  {
    hide RunsTo, Stays, NoExec;
    var j := JournalOf(s, vm.owner);
    var es0, s0 := SetupStarts(s, p, vm, recreate);
    var es1, s1 := SetupAdmits(s0, p, vm, recreate, j);
    NoneSame(s, s1);
    var es2, s2, j2 := SetupBrings(s1, p, vm, recreate, j);
    var es3, s3 := SetupEnds(s2, p, vm, j2);
    StaysOn(s, s0, s1, p, vm.owner);
    StaysOn(s, s1, s2, p, vm.owner);
    StaysOn(s, s2, s3, p, vm.owner);
    OnTo(s, p, es0, s0, es1, s1);
    OnTo(s, p, es0 + es1, s1, es2, s2);
    OnTo(s, p, es0 + es1 + es2, s2, es3, s3);
    es, t := es0 + es1 + es2 + es3, s3;
  }

  // ----- deletion -----

  /** What a deletion finds: no running instance, and consent where there is one. */
  ghost predicate CanDelete(s: Vms, vm: Vm, discard: bool) {
    IsRegistered(s, vm) && !IsRunning(s, vm.owner) && (vm.owner in s.instances ==> discard) && s.registryLock.None?
  }

  lemma DeleteStarts(s: Vms, p: Proc, vm: Vm, discard: bool) returns (es: seq<Event>, t: Vms)
    requires Lockable(s, p, vm.owner) && CanDelete(s, vm, discard)
    ensures RunsTo(s, p, es, t) && Stays(s, t, p, vm.owner) && t.registry == s.registry && t.instances == s.instances
    ensures PcOf(t, p) == DelChecked(vm, vm.owner in s.instances) && t.locks == s.locks[vm.owner := p]
    ensures t.admission == s.admission && t.registryLock == s.registryLock && JournalOf(t, vm.owner) == JournalOf(s, vm.owner)
  {
    hide RunsTo, Stays, NoneRunning;
    var e1, e2 := BeginDelete(p, vm), CheckDelete(p, discard);
    var s1 := Next(s, e1);
    t := Next(s1, e2);
    Alone(s, p, e1);
    Alone(s1, p, e2);
    StepStays(s, e1);
    StepStays(s1, e2);
    hide *;
    StaysOn(s, s1, t, p, vm.owner);
    OnTo(s, p, [e1], s1, [e2], t);
    es := [e1] + [e2];
  }

  lemma DeleteMarks(s: Vms, p: Proc, vm: Vm) returns (es: seq<Event>, t: Vms)
    requires PcOf(s, p) == DelChecked(vm, vm.owner in s.instances) && !IsRunning(s, vm.owner)
    ensures RunsTo(s, p, es, t) && Stays(s, t, p, vm.owner) && t.registry == s.registry && SameLocks(s, t)
    ensures PcOf(t, p) == DelGone(vm) && OwnerIs(t, vm.owner, JournalOf(s, vm.owner).(phase := Phase.Deleting), false, false)
  {
    hide RunsTo, Stays, NoExec, NoneRunning;
    var e1, e2 := MarkDeleting(p), DeleteInstance(p);
    var s1 := Next(s, e1);
    t := Next(s1, e2);
    Alone(s, p, e1);
    Alone(s1, p, e2);
    StepStays(s, e1);
    StepStays(s1, e2);
    StaysOn(s, s1, t, p, vm.owner);
    OnTo(s, p, [e1], s1, [e2], t);
    es := [e1] + [e2];
  }

  lemma DeleteEnds(s: Vms, p: Proc, vm: Vm) returns (es: seq<Event>, t: Vms)
    requires PcOf(s, p) == DelGone(vm) && IsRegistered(s, vm) && s.admission != Some(p) && s.registryLock.None?
    ensures RunsTo(s, p, es, t) && Stays(s, t, p, vm.owner) && t.registry == s.registry - {vm.id}
    ensures t.locks == s.locks - {vm.owner} && t.admission == s.admission && t.registryLock == s.registryLock
    ensures PcOf(t, p) == Idle && OwnerIs(t, vm.owner, JournalOf(s, vm.owner), vm.owner in s.instances, IsRunning(s, vm.owner))
  {
    var e := Unregister(p);
    t := Next(s, e);
    Alone(s, p, e);
    StepStays(s, e);
    es := [e];
  }

  /** A deletion that finds what it needs runs to its end: neither name nor instance are left, the
      journal says deleting, and nothing else has changed. */
  lemma DeleteCompletes(s: Vms, p: Proc, vm: Vm, discard: bool) returns (es: seq<Event>, t: Vms)
    requires Lockable(s, p, vm.owner) && Clear(s, p) && CanDelete(s, vm, discard)
    ensures RunsTo(s, p, es, t) && Stays(s, t, p, vm.owner) && PcOf(t, p).Idle? && t.registry == s.registry - {vm.id} && SameLocks(s, t)
    ensures OwnerIs(t, vm.owner, JournalOf(s, vm.owner).(phase := Phase.Deleting), false, false)
  {
    hide RunsTo, Stays, NoExec;
    var es1, s1 := DeleteStarts(s, p, vm, discard);
    var es2, s2 := DeleteMarks(s1, p, vm);
    var es3, s3 := DeleteEnds(s2, p, vm);
    StaysOn(s, s1, s2, p, vm.owner);
    StaysOn(s, s2, s3, p, vm.owner);
    OnTo(s, p, es1, s1, es2, s2);
    OnTo(s, p, es1 + es2, s2, es3, s3);
    es, t := es1 + es2 + es3, s3;
  }

  // ----- creation -----

  /** A creation under a free name runs to its end: the name stands for the new owner, whose journal
      says created. */
  lemma CreateCompletes(s: Vms, p: Proc, vm: Vm) returns (es: seq<Event>, t: Vms)
    requires PcOf(s, p).Idle? && s.registryLock.None? && vm.id !in s.registry && vm.owner !in s.used && s.admission != Some(p)
    ensures RunsTo(s, p, es, t) && Stays(s, t, p, vm.owner) && PcOf(t, p).Idle? && SameLocks(s, t)
    ensures t.registry == s.registry[vm.id := vm.owner]
    ensures OwnerIs(t, vm.owner, Journal(Created, 0), vm.owner in s.instances, IsRunning(s, vm.owner))
  {
    hide RunsTo, Stays, NoExec, NoneRunning;
    var e1, e2, e3 := BeginCreate(p, vm), WriteFirstJournal(p), Register(p);
    var s1 := Next(s, e1);
    var s2 := Next(s1, e2);
    t := Next(s2, e3);
    Alone(s, p, e1);
    Alone(s1, p, e2);
    Alone(s2, p, e3);
    StepStays(s, e1);
    StepStays(s1, e2);
    StepStays(s2, e3);
    hide *;
    StaysOn(s, s1, s2, p, vm.owner);
    StaysOn(s, s2, t, p, vm.owner);
    OnTo(s, p, [e1], s1, [e2], s2);
    OnTo(s, p, [e1] + [e2], s2, [e3], t);
    es := [e1] + [e2] + [e3];
  }

  // ----- stopping short -----

  /** A process may give up at any point, and then nothing is locked by it. */
  lemma GiveUpFrees(s: Vms, p: Proc)
    requires Inv(s)
    ensures Enabled(s, GiveUp(p))
    ensures var t := Next(s, GiveUp(p));
            && PcOf(t, p).Idle? && Clear(t, p) && (forall o :: o in t.locks ==> t.locks[o] != p)
            && t.registry == s.registry && t.journals == s.journals && t.instances == s.instances
            && (forall o :: o in s.locks && s.locks[o] != p ==> o in t.locks && t.locks[o] == s.locks[o])
  {
    hide PcOk, RegistryOk, OneRuns, CreationOk, StartOk, CreatedOnce, StartsDistinct, NoneRunning, NoExec;
    LockIs(s, p);
  }

  lemma LockIs(s: Vms, p: Proc)
    requires Inv(s)
    ensures var h := Holds(PcOf(s, p)); h.Some? ==> h.value in s.locks && s.locks[h.value] == p
  {
    assert PcOk(s, p);
  }
}
