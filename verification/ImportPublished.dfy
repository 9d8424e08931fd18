/** What an import publishes, with its limits and modes spelled out. */
module ImportPublished {
  import opened Text
  import opened ImportStream
  import opened ImportRoundTrip
  import opened ImportTrees
  import opened ImportSafety
  import opened ImportLimits

  // ----- trees -----

  /** The entry keeps the nine permission bits of the mode, so all of a mode below 0x200, and the
      bytes or the target. */
  predicate Keeps(item: Item, e: Entry) {
    match item
    case Folder(mode, _) => e.DirEntry? && NineBits(mode, e.mode)
    case Document(mode, content) => e.FileEntry? && NineBits(mode, e.mode) && e.content == content
    case Pointer(target) => e == LinkEntry(target)
    case Special => false
  }

  predicate NineBits(mode: nat, kept: nat) {
    kept < 0x200 && (mode - kept) % 0x200 == 0 && (mode < 0x200 ==> kept == mode)
  }

  /** At most 1,000,000 entries; paths and targets of at most 4096 bytes; directories at most 128 deep;
      only directories, files and links, none with an empty target. */
  ghost predicate Importable(es: Entries) {
    && Size(es) <= 1000000
    && forall p: Path :: p != [] && ItemAt(es, p).Some? ==>
         var item := ItemAt(es, p).value;
         && |Join(p)| <= 4096 && !item.Special?
         && (item.Pointer? ==> 0 < |item.target| <= 4096)
         && (item.Folder? ==> |p| <= 128)
  }

  lemma {:induction false} AtItem(es: Entries, p: Path)
    requires p != []
    ensures At(es, p) == if ItemAt(es, p).Some? then EntryOf(ItemAt(es, p).value) else None
    decreases es
  {
    if es.Cons? {
      if es.name != p[0] {
        AtItem(es.rest, p);
      } else if |p| > 1 && es.item.Folder? {
        AtItem(es.item.inside, p[1..]);
      }
    }
  }

  lemma EntryKeeps(item: Item)
    requires !item.Special?
    ensures EntryOf(item).Some? && Keeps(item, EntryOf(item).value)
  {
  }

  lemma LimitsAre(es: Entries)
    ensures Importable(es) ==> WithinLimits(es)
  {
  }

  /** A tree whose links all have targets leads, and one in which some link has none does not. */
  lemma {:induction false} LeadsEach(es: Entries, p: Path)
    requires LinksLead(es) && p != [] && ItemAt(es, p).Some?
    ensures ItemAt(es, p).value.Pointer? ==> ItemAt(es, p).value.target != []
    decreases es
  {
    if es.name != p[0] {
      LeadsEach(es.rest, p);
    } else if |p| > 1 {
      LeadsEach(es.item.inside, p[1..]);
    }
  }

  ghost predicate AllLead(es: Entries) {
    forall p: Path :: p != [] && ItemAt(es, p).Some? && ItemAt(es, p).value.Pointer? ==> ItemAt(es, p).value.target != []
  }

  lemma {:induction false} EachLeads(es: Entries)
    requires OnDisk(es) && AllLead(es)
    ensures LinksLead(es)
    decreases es
  {
    if es.Cons? {
      assert ItemAt(es, [es.name]) == Some(es.item);
      if es.item.Folder? {
        forall p: Path | p != [] && ItemAt(es.item.inside, p).Some? && ItemAt(es.item.inside, p).value.Pointer?
          ensures ItemAt(es.item.inside, p).value.target != []
        {
          var q := [es.name] + p;
          assert q[1..] == p && ItemAt(es, q) == ItemAt(es.item.inside, p);
        }
        EachLeads(es.item.inside);
      }
      forall p: Path | p != [] && ItemAt(es.rest, p).Some? && ItemAt(es.rest, p).value.Pointer?
        ensures ItemAt(es.rest, p).value.target != []
      {
        ItemNamed(es.rest, p);
        assert ItemAt(es, p) == ItemAt(es.rest, p);
      }
      EachLeads(es.rest);
    }
  }

  /** Exactly the importable trees are published, and at each path what the tree has there. */
  lemma Published(es: Entries)
    requires OnDisk(es)
    ensures (Snapshot(es).Some? && Decode(Snapshot(es).value).Some?) <==> Importable(es)
    ensures Importable(es) ==>
              var t := Decode(Snapshot(es).value).value;
              && [] !in t
              && forall p: Path :: p != [] ==>
                   (p in t <==> ItemAt(es, p).Some?) && (p in t ==> Keeps(ItemAt(es, p).value, t[p]))
  {
    hide Snapshot, Decode, OnDisk;
    RoundTrip(es);
    LeadsIff(es);
    if Importable(es) {
      var t := Decode(Snapshot(es).value).value;
      forall p: Path | p != [] ensures (p in t <==> ItemAt(es, p).Some?) && (p in t ==> Keeps(ItemAt(es, p).value, t[p])) {
        ShownAt(es, t, p);
      }
    }
  }

  lemma LeadsIff(es: Entries)
    requires OnDisk(es)
    ensures Importable(es) <==> WithinLimits(es) && LinksLead(es)
  {
    hide OnDisk, LinksLead, Size;
    if WithinLimits(es) && LinksLead(es) {
      forall p: Path | p != [] && ItemAt(es, p).Some? && ItemAt(es, p).value.Pointer? ensures ItemAt(es, p).value.target != [] {
        LeadsEach(es, p);
      }
    }
    if Importable(es) {
      EachLeads(es);
    }
  }

  lemma ShownAt(es: Entries, t: Tree, p: Path)
    requires Shows(t, [], es) && Importable(es) && p != []
    ensures (p in t <==> ItemAt(es, p).Some?) && (p in t ==> Keeps(ItemAt(es, p).value, t[p]))
  {
    hide ItemAt, At, EntryOf, Keeps;
    assert [] + p == p;
    AtItem(es, p);
    if ItemAt(es, p).Some? {
      EntryKeeps(ItemAt(es, p).value);
    }
  }

  // ----- modes -----

  /** The decoder takes exactly the modes 0 to 511: where a record is taken with one of them, it is taken
      with each of them and with no other. */
  lemma ModesTaken(st: Import, path: Bytes, mode: int, other: int, size: int)
    requires 0 <= other <= 511
    ensures Step(st, Directory(path, other)).Some? ==> (Step(st, Directory(path, mode)).Some? <==> 0 <= mode <= 511)
    ensures Step(st, Regular(path, other, size)).Some? ==> (Step(st, Regular(path, mode, size)).Some? <==> 0 <= mode <= 511)
    ensures !(0 <= mode <= 511) ==> Step(st, Directory(path, mode)).None? && Step(st, Regular(path, mode, size)).None?
  {
    hide Slot;
  }

  ghost predicate ModestTree(t: Tree) {
    forall p :: p in t && !t[p].LinkEntry? ==> t[p].mode <= 511
  }

  ghost predicate ModestModes(modes: seq<(Path, nat)>) {
    forall i :: 0 <= i < |modes| ==> modes[i].1 <= 511
  }

  lemma {:induction false} StepsModest(st: Import, rs: seq<Record>)
    requires ModestTree(st.staged) && ModestModes(st.modes) && Steps(st, rs).Some?
    ensures ModestTree(Steps(st, rs).value.staged) && ModestModes(Steps(st, rs).value.modes)
    decreases |rs|
  {
    if rs != [] {
      StepModest(st, rs[0]);
      StepsModest(Step(st, rs[0]).value, rs[1..]);
    }
  }

  lemma StepModest(st: Import, r: Record)
    requires ModestTree(st.staged) && ModestModes(st.modes) && Step(st, r).Some?
    ensures ModestTree(Step(st, r).value.staged) && ModestModes(Step(st, r).value.modes)
  {
    hide Slot;
  }

  lemma {:induction false} WithModesModest(t: Tree, modes: seq<(Path, nat)>)
    requires ModestTree(t) && ModestModes(modes)
    ensures ModestTree(WithModes(t, modes))
    decreases |modes|
  {
    if modes != [] {
      var (p, m) := modes[|modes| - 1];
      assert modes[|modes| - 1].1 == m;
      WithModesModest(t[p := DirEntry(m)], modes[..|modes| - 1]);
    }
  }

  /** So no accepted stream, whoever wrote it, publishes a set-user-ID, set-group-ID or sticky bit. */
  lemma NoSpecialBits(rs: seq<Record>)
    requires Decode(rs).Some?
    ensures ModestTree(Decode(rs).value)
  {
    hide Step;
    StepsModest(Fresh, rs);
    var st := Steps(Fresh, rs).value;
    WithModesModest(st.staged, st.modes);
  }

  // ----- lines -----

  /** Every line of the encoder is at most 70,000 bytes, every data record at most 48 KiB, and a longer
      line makes the decoder reject the stream. */
  lemma LinesAre(es: Entries, i: nat, ls: seq<Line>, j: nat)
    requires OnDisk(es) && Importable(es)
    ensures Snapshot(es).Some?
    ensures i < |Snapshot(es).value| ==>
              var r := Snapshot(es).value[i];
              LineLen(r) <= 70000 && (r.Data? ==> |r.data| <= 49152)
    ensures j < |ls| && ls[j].length > 70000 ==> DecodeLines(ls).None?
  {
    hide OnDisk, LineLen, Snapshot;
    LimitsAre(es);
    LinesFit(es, i);
    if i < |Snapshot(es).value| && Snapshot(es).value[i].Data? {
      DataModest(es, i);
    }
    if j < |ls| && ls[j].length > 70000 {
      assert !Readable(ls[j]);
    }
  }

  lemma DataModest(es: Entries, i: nat)
    requires OnDisk(es) && Snapshot(es).Some? && i < |Snapshot(es).value| && Snapshot(es).value[i].Data?
    ensures |Snapshot(es).value[i].data| <= 49152
  {
    EncodeModest(es, [], 0, 0);
    var rs := Encode(es, [], 0, 0).records;
    assert Snapshot(es).value[i] == rs[i - 1];
    assert Modest(rs[i - 1]);
  }
}
