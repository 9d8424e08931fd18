/** What a claim of a temp root records, and that claims can complete. */
module TempRootsOutcomes {
  import opened Text
  import opened TempRoots

  // ----- owners -----

  predicate Within(b: byte, first: char, last: char) {
    first as int <= b as int <= last as int
  }

  /** Who may claim: a registry named by 32 hex digits, and in it a name of 1 to 128 bytes without NUL,
      line feed and carriage return. What it leaves in its marker is the two, a line each. */
  lemma OwnersAre(o: Owner)
    ensures ValidOwner(o) <==>
              && |o.registry| == 32
              && (forall i :: 0 <= i < 32 ==>
                    Within(o.registry[i], '0', '9') || Within(o.registry[i], 'a', 'f') || Within(o.registry[i], 'A', 'F'))
              && 1 <= |o.id| <= 128
              && (forall i :: 0 <= i < |o.id| ==> o.id[i] as int != 0 && o.id[i] as int != '\n' as int && o.id[i] as int != '\r' as int)
    ensures OwnerText(o) == o.registry + ['\n' as int as byte] + o.id + ['\n' as int as byte]
  {
  }

  // ----- what is recorded was granted -----

  lemma GrantedBy(s: State, e: Event, p: Proc)
    requires Enabled(s, e) && PcOf(Next(s, e), p).Granted?
    ensures var pc := PcOf(Next(s, e), p);
            PcOf(s, p) == pc || (GrantOf(s, e).Some? && GrantOf(s, e).value.0 == pc.ip && GrantOf(s, e).value.2 == pc.owner)
  {
    hide Content, OwnerText, ValidOwner, Unused;
  }

  /** A process that has an address granted got it in the run, or had it before. */
  lemma {:induction false} GrantedWas(s: State, es: seq<Event>, p: Proc)
    requires CanRun(s, es) && PcOf(After(s, es), p).Granted?
    ensures var pc := PcOf(After(s, es), p); PcOf(s, p) == pc || Grants(s, es, pc.ip, pc.owner)
    decreases |es|
  {
    hide Enabled, Next, GrantOf;
    if es != [] {
      GrantedWas(Next(s, es[0]), es[1..], p);
      if PcOf(Next(s, es[0]), p) == PcOf(After(s, es), p) {
        GrantedBy(s, es[0], p);
      }
    }
  }

  /** The end of a claim, over every interleaving before: the address was granted to the owner in the
      run, it is what the registry says for the owner from then on, next to what it said of others, and
      nothing else is changed. */
  lemma SavesGrant(s: State, es: seq<Event>, p: Proc)
    requires Initial(s) && CanRun(s, es) && Enabled(After(s, es), Save(p))
    ensures var u := After(s, es);
            var o, ip, t := PcOf(u, p).owner, PcOf(u, p).ip, Next(u, Save(p));
            && Grants(s, es, ip, o)
            && WorldsOf(t, o.registry) == WorldsOf(u, o.registry)[o.id := World(ip)] && Distinct(WorldsOf(t, o.registry))
            && (forall r :: r != o.registry ==> WorldsOf(t, r) == WorldsOf(u, r))
            && PcOf(t, p).Idle? && o.registry !in t.locks && t.roots == u.roots && t.markers == u.markers && t.files == u.files
  {
    hide CanRun, After, Grants, Distinct;
    GrantedWas(s, es, p);
    assert PcOf(s, p).Idle?;
    InitialInv(s);
    RunKeeps(s, es);
    StepKeeps(After(s, es), Save(p));
    Recorded(After(s, es), p);
    DistinctIn(Next(After(s, es), Save(p)), PcOf(After(s, es), p).owner.registry);
  }

  lemma Recorded(u: State, p: Proc)
    requires Inv(u) && Enabled(u, Save(p))
    ensures var o, ip, t := PcOf(u, p).owner, PcOf(u, p).ip, Next(u, Save(p));
            && WorldsOf(t, o.registry) == WorldsOf(u, o.registry)[o.id := World(ip)]
            && (forall r :: r != o.registry ==> WorldsOf(t, r) == WorldsOf(u, r))
            && PcOf(t, p).Idle? && o.registry !in t.locks
  {
    assert PcOk(u, p);
  }

  lemma DistinctIn(t: State, registry: Bytes)
    requires Inv(t)
    ensures Distinct(WorldsOf(t, registry))
  {
  }

  /** Only the end of a claim of the registry changes what it says. */
  lemma OnlySaves(s: State, e: Event, registry: Bytes)
    requires Enabled(s, e) && WorldsOf(Next(s, e), registry) != WorldsOf(s, registry)
    ensures e.Save? && PcOf(s, e.p).owner.registry == registry
  {
    hide Content, OwnerText, ValidOwner, Unused;
  }

  // ----- claims that nothing disturbs -----

  lemma OneStep(s: State, e: Event)
    requires Enabled(s, e)
    ensures CanRun(s, [e]) && After(s, [e]) == Next(s, e)
  {
    assert [e][1..] == [];
  }

  lemma TwoSteps(s: State, e: Event, f: Event)
    requires Enabled(s, e) && Enabled(Next(s, e), f)
    ensures CanRun(s, [e, f]) && After(s, [e, f]) == Next(Next(s, e), f)
  {
    hide Enabled, Next;
    OneStep(Next(s, e), f);
    assert [e, f][1..] == [f];
  }

  /** Nothing at the address yet: the root is made and its marker created. */
  lemma MakesRoot(s: State, p: Proc, o: Owner, worlds: Worlds, ip: Address, inode: Inode) returns (es: seq<Event>, t: State)
    requires PcOf(s, p) == Choosing(o, worlds) && Unused(worlds, o.id, ip)
    requires ip !in s.roots && ip !in s.markers && inode !in s.files
    ensures CanRun(s, es) && After(s, es) == t && t.registries == s.registries && t.locks == s.locks
    ensures PcOf(t, p) == Writing(o, worlds, ip, inode) && t.markers == s.markers[ip := inode] && t.roots == s.roots + {ip}
    ensures inode in t.files && t.files[inode] == Marker(o, 0)
  {
    hide CanRun, After, OwnerText, Content, ValidOwner;
    var s2 := Next(Next(s, Look(p, ip)), MakeRoot(p));
    TwoSteps(s, Look(p, ip), MakeRoot(p));
    OneStep(s2, CreateMarker(p, inode));
    t := Next(s2, CreateMarker(p, inode));
    RunsJoin(s, [Look(p, ip), MakeRoot(p)], [CreateMarker(p, inode)]);
    es := [Look(p, ip), MakeRoot(p)] + [CreateMarker(p, inode)];
  }

  lemma WritesMarker(s: State, p: Proc, o: Owner, worlds: Worlds, ip: Address, inode: Inode) returns (es: seq<Event>, t: State)
    requires PcOf(s, p) == Writing(o, worlds, ip, inode) && inode in s.files && s.files[inode] == Marker(o, 0)
    ensures CanRun(s, es) && After(s, es) == t && t.registries == s.registries && t.locks == s.locks
    ensures PcOf(t, p) == Granted(o, worlds, ip) && t.markers == s.markers && t.roots == s.roots
    ensures inode in t.files && Content(t.files[inode]) == OwnerText(o)
  {
    hide CanRun, After, ValidOwner, OwnerText;
    var n := |OwnerText(o)|;
    TwoSteps(s, WriteMore(p, n), FinishMarker(p));
    es, t := [WriteMore(p, n), FinishMarker(p)], Next(Next(s, WriteMore(p, n)), FinishMarker(p));
  }

  /** From every state that a run reaches, a claim of a free address runs to its end: the root is there,
      its marker is the owner's, and the registry says so. */
  lemma ClaimCompletes(s: State, p: Proc, o: Owner, ip: Address, inode: Inode) returns (es: seq<Event>, t: State)
    requires Inv(s) && PcOf(s, p).Idle? && ValidOwner(o) && o.registry !in s.locks
    requires Unused(WorldsOf(s, o.registry), o.id, ip) && ip !in s.roots && ip !in s.markers && inode !in s.files
    ensures CanRun(s, es) && After(s, es) == t && PcOf(t, p).Idle?
    ensures WorldsOf(t, o.registry) == WorldsOf(s, o.registry)[o.id := World(ip)]
    ensures t.roots == s.roots + {ip} && t.markers == s.markers[ip := inode]
    ensures inode in t.files && Content(t.files[inode]) == OwnerText(o)
  {
    hide CanRun, After, Inv, OwnerText, Content, Unused, ValidOwner;
    var s1 := Next(s, Begin(p, o));
    OneStep(s, Begin(p, o));
    var es2, s2 := MakesRoot(s1, p, o, WorldsOf(s, o.registry), ip, inode);
    var es3, s3 := WritesMarker(s2, p, o, WorldsOf(s, o.registry), ip, inode);
    OneStep(s3, Save(p));
    t := Next(s3, Save(p));
    RunsJoin(s, [Begin(p, o)], es2);
    RunsJoin(s, [Begin(p, o)] + es2, es3);
    RunsJoin(s, [Begin(p, o)] + es2 + es3, [Save(p)]);
    es := [Begin(p, o)] + es2 + es3 + [Save(p)];
  }

  /** The owner of a registry entry gets its root back: the marker is the owner's still. */
  lemma RevisitCompletes(s: State, p: Proc, o: Owner) returns (es: seq<Event>, t: State)
    requires Inv(s) && PcOf(s, p).Idle? && ValidOwner(o) && o.registry !in s.locks && o.id in WorldsOf(s, o.registry)
    requires var ip := WorldsOf(s, o.registry)[o.id].ip;
             ip in s.markers && s.markers[ip] in s.files && Content(s.files[s.markers[ip]]) == OwnerText(o)
    ensures CanRun(s, es) && After(s, es) == t && PcOf(t, p).Idle? && WorldsOf(t, o.registry) == WorldsOf(s, o.registry)
    ensures t.markers == s.markers && t.files == s.files && t.roots == s.roots + {WorldsOf(s, o.registry)[o.id].ip}
  {
    hide CanRun, After, Inv, OwnerText, Content, Unused, ValidOwner;
    var worlds := WorldsOf(s, o.registry);
    var s2 := Next(Next(s, Begin(p, o)), Revisit(p));
    TwoSteps(s, Begin(p, o), Revisit(p));
    TwoSteps(s2, ReadMarker(p), Save(p));
    t := Next(Next(s2, ReadMarker(p)), Save(p));
    RunsJoin(s, [Begin(p, o), Revisit(p)], [ReadMarker(p), Save(p)]);
    es := [Begin(p, o), Revisit(p)] + [ReadMarker(p), Save(p)];
    assert worlds[o.id := World(worlds[o.id].ip)] == worlds;
  }

  /** A process may give up at any point: nothing is locked by it, and no registry has changed. */
  lemma GiveUpFrees(s: State, p: Proc)
    requires Inv(s)
    ensures Enabled(s, GiveUp(p))
    ensures var t := Next(s, GiveUp(p));
            && PcOf(t, p).Idle? && t.registries == s.registries && t.roots == s.roots && t.markers == s.markers
            && (forall r :: r in t.locks ==> r in s.locks && t.locks[r] == s.locks[r])
            && (!PcOf(s, p).Idle? ==> PcOf(s, p).owner.registry !in t.locks)
  {
  }

  // ----- roots from before there were markers -----

  /** There is a root at the address without a marker, nobody is after it and no entry has it. */
  ghost predicate Legacy(s: State, ip: Address) {
    && ip in s.roots && ip !in s.markers
    && (forall p: Proc :: Aims(PcOf(s, p)) ==> PcOf(s, p).ip != ip)
    && (forall r, id :: r in s.registries && id in s.registries[r] ==> s.registries[r][id].ip != ip)
  }

  lemma LegacyStep(s: State, e: Event, ip: Address)
    requires Inv(s) && Enabled(s, e) && Legacy(s, ip) && e != DeleteRoot(ip)
    ensures Legacy(Next(s, e), ip)
    ensures GrantOf(s, e).Some? ==> GrantOf(s, e).value.0 != ip
  {
    if e.DeleteRoot? {
      var t := Next(s, e);
      assert t.procs == s.procs && t.registries == s.registries;
      assert forall p: Proc :: PcOf(t, p) == PcOf(s, p);
    } else {
      ActorOk(s, e.p);
      hide Inv, Enabled, Next, GrantOf, WorldsOf, Elsewhere;
      WorldsElsewhere(s, PcOf(s, e.p), ip);
      LegacyRoot(s, e, ip);
      forall p: Proc | Aims(PcOf(Next(s, e), p)) ensures PcOf(Next(s, e), p).ip != ip {
        LegacyAim(s, e, ip, p);
      }
      LegacyRecords(s, e, ip);
    }
  }

  lemma ActorOk(s: State, p: Proc)
    requires Inv(s)
    ensures var pc := PcOf(s, p); !pc.Idle? ==> pc.worlds == WorldsOf(s, pc.owner.registry)
  {
    assert PcOk(s, p);
  }

  /** The entries that a process has read do not have the address either. */
  lemma WorldsElsewhere(s: State, pc: Pc, ip: Address)
    requires Legacy(s, ip)
    ensures !pc.Idle? && pc.worlds == WorldsOf(s, pc.owner.registry) ==> Elsewhere(pc.worlds, ip)
  {
  }

  ghost predicate Elsewhere(worlds: Worlds, ip: Address) {
    forall id :: id in worlds ==> worlds[id].ip != ip
  }

  lemma LegacyRoot(s: State, e: Event, ip: Address)
    requires Enabled(s, e) && Legacy(s, ip) && !e.DeleteRoot?
    ensures ip in Next(s, e).roots && ip !in Next(s, e).markers
    ensures GrantOf(s, e).Some? ==> GrantOf(s, e).value.0 != ip
  {
    hide Content, OwnerText, ValidOwner, Unused;
    assert Aims(PcOf(s, e.p)) ==> PcOf(s, e.p).ip != ip;
  }

  lemma LegacyAim(s: State, e: Event, ip: Address, p: Proc)
    requires Enabled(s, e) && Legacy(s, ip) && !e.DeleteRoot? && Aims(PcOf(Next(s, e), p))
    requires !PcOf(s, e.p).Idle? ==> Elsewhere(PcOf(s, e.p).worlds, ip)
    ensures PcOf(Next(s, e), p).ip != ip
  {
    hide Content, OwnerText, ValidOwner, Unused;
    assert Aims(PcOf(s, p)) ==> PcOf(s, p).ip != ip;
  }

  lemma LegacyRecords(s: State, e: Event, ip: Address)
    requires Enabled(s, e) && Legacy(s, ip) && !e.DeleteRoot?
    requires !PcOf(s, e.p).Idle? ==> Elsewhere(PcOf(s, e.p).worlds, ip)
    ensures forall r, id :: r in Next(s, e).registries && id in Next(s, e).registries[r] ==> Next(s, e).registries[r][id].ip != ip
  {
    hide Content, OwnerText, ValidOwner, Unused;
    var pc, t := PcOf(s, e.p), Next(s, e);
    assert Aims(pc) ==> pc.ip != ip;
    forall r, id | r in t.registries && id in t.registries[r] ensures t.registries[r][id].ip != ip {
      if e.Save? && r == pc.owner.registry {
        assert t.registries[r] == pc.worlds[pc.owner.id := World(pc.ip)];
      } else {
        assert t.registries[r] == s.registries[r];
      }
    }
  }

  /** Such a root is left alone over every interleaving until it is deleted: it is granted to nobody and
      no registry records it. */
  lemma {:induction false} LegacyStays(s: State, es: seq<Event>, ip: Address, o: Owner)
    requires Inv(s) && CanRun(s, es) && Legacy(s, ip) && Keeps(es, ip)
    ensures Legacy(After(s, es), ip) && !Grants(s, es, ip, o)
    decreases |es|
  {
    hide Inv, Enabled, Next, Legacy, GrantOf;
    if es != [] {
      StepKeeps(s, es[0]);
      LegacyStep(s, es[0], ip);
      LegacyStays(Next(s, es[0]), es[1..], ip, o);
    }
  }
}
