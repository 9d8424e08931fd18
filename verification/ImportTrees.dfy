/** Which trees the encoder takes, told by paths. */
module ImportTrees {
  import opened Text
  import opened ImportStream
  import opened ImportRoundTrip

  /** What stands at a path. */
  function ItemAt(es: Entries, p: Path): Option<Item>
    requires p != []
    decreases es
  {
    match es
    case Nil => None
    case Cons(name, item, rest) =>
      if name != p[0] then ItemAt(rest, p)
      else if |p| == 1 then Some(item)
      else if item.Folder? then ItemAt(item.inside, p[1..])
      else None
  }

  /** How many entries a tree has. */
  function Size(es: Entries): nat {
    match es
    case Nil => 0
    case Cons(_, item, rest) => 1 + (if item.Folder? then Size(item.inside) else 0) + Size(rest)
  }

  /** The limits on one entry: no device, socket or pipe, a path and a target of at most 4096 bytes,
      a directory at most 128 deep. */
  predicate ItemFits(item: Item, p: Path) {
    && |Join(p)| <= MAX_PATH && !item.Special?
    && (item.Pointer? ==> |item.target| <= MAX_PATH)
    && (item.Folder? ==> |p| <= MAX_DEPTH)
  }

  /** The limits on a tree. */
  ghost predicate WithinLimits(es: Entries) {
    && Size(es) <= MAX_ENTRIES
    && forall p: Path :: p != [] && ItemAt(es, p).Some? ==> ItemFits(ItemAt(es, p).value, p)
  }

  // ----- limits along the tree -----

  predicate FitsIn(es: Entries, base: Path) {
    match es
    case Nil => true
    case Cons(name, item, rest) =>
      && ItemFits(item, base + [name]) && (item.Folder? ==> FitsIn(item.inside, base + [name]))
      && FitsIn(rest, base)
  }

  ghost predicate FitsBelow(es: Entries, base: Path) {
    forall p: Path :: p != [] && ItemAt(es, p).Some? ==> ItemFits(ItemAt(es, p).value, base + p)
  }

  /** What the structure says, each path says. */
  lemma {:induction false} FitsEach(es: Entries, base: Path, p: Path)
    requires FitsIn(es, base) && p != [] && ItemAt(es, p).Some?
    ensures ItemFits(ItemAt(es, p).value, base + p)
    decreases es
  {
    if es.name != p[0] {
      FitsEach(es.rest, base, p);
    } else if |p| == 1 {
      assert p == [es.name];
    } else {
      FitsEach(es.item.inside, base + [es.name], p[1..]);
      assert base + [es.name] + p[1..] == base + p;
    }
  }

  /** And what each path says, the structure says: names are unique, so each entry has a path. */
  lemma {:induction false} EachFits(es: Entries, base: Path)
    requires OnDisk(es) && FitsBelow(es, base)
    ensures FitsIn(es, base)
    decreases es
  {
    if es.Cons? {
      assert ItemAt(es, [es.name]) == Some(es.item);
      if es.item.Folder? {
        InsideBelow(es, base);
        EachFits(es.item.inside, base + [es.name]);
      }
      RestBelow(es, base);
      EachFits(es.rest, base);
    }
  }

  lemma InsideBelow(es: Entries, base: Path)
    requires es.Cons? && es.item.Folder? && FitsBelow(es, base)
    ensures FitsBelow(es.item.inside, base + [es.name])
  {
    forall p: Path | p != [] && ItemAt(es.item.inside, p).Some?
      ensures ItemFits(ItemAt(es.item.inside, p).value, base + [es.name] + p)
    {
      var q := [es.name] + p;
      assert q[1..] == p && ItemAt(es, q) == ItemAt(es.item.inside, p);
      assert base + [es.name] + p == base + q;
    }
  }

  lemma RestBelow(es: Entries, base: Path)
    requires es.Cons? && OnDisk(es) && FitsBelow(es, base)
    ensures FitsBelow(es.rest, base)
  {
    forall p: Path | p != [] && ItemAt(es.rest, p).Some? ensures ItemFits(ItemAt(es.rest, p).value, base + p) {
      ItemNamed(es.rest, p);
      assert ItemAt(es, p) == ItemAt(es.rest, p);
    }
  }

  lemma {:induction false} ItemNamed(es: Entries, p: Path)
    requires p != [] && ItemAt(es, p).Some?
    ensures p[0] in Names(es)
    decreases es
  {
    if es.name != p[0] {
      ItemNamed(es.rest, p);
    }
  }

  // ----- the encoder against the limits -----

  /** The encoder succeeds and has counted `n` entries. */
  ghost predicate Takes(r: Encoded, fits: bool, n: nat) {
    if fits && n <= MAX_ENTRIES then r.Encoded? && r.count == n else r.Refused?
  }

  lemma {:induction false} ItemTaken(item: Item, p: Path, count: nat)
    requires ItemOnDisk(item) && GoodPath(p) && p != [] && count <= MAX_ENTRIES && |Join(p)| <= MAX_PATH
    ensures Takes(EncodeItem(item, Join(p), |p| - 1, count), ItemFits(item, p) && (item.Folder? ==> FitsIn(item.inside, p)),
                  count + if item.Folder? then Size(item.inside) else 0)
    decreases item
  {
    if item.Folder? {
      EncodeTaken(item.inside, p, count);
    }
  }

  lemma {:induction false} EncodeTaken(es: Entries, base: Path, count: nat)
    requires OnDisk(es) && GoodPath(base) && count <= MAX_ENTRIES
    ensures Takes(Encode(es, Join(base), |base|, count), FitsIn(es, base), count + Size(es))
    decreases es
  {
    if es.Cons? {
      var p := base + [es.name];
      PathText(base, es.name);
      if count + 1 <= MAX_ENTRIES && |Join(p)| <= MAX_PATH {
        ItemTaken(es.item, p, count + 1);
        var first := EncodeItem(es.item, Join(p), |base|, count + 1);
        if first.Encoded? {
          EncodeTaken(es.rest, base, first.count);
        }
      }
    }
  }

  /** The encoder takes exactly the trees within the limits. */
  lemma TakenIff(es: Entries)
    requires OnDisk(es)
    ensures Snapshot(es).Some? <==> WithinLimits(es)
  {
    EncodeTaken(es, [], 0);
    if FitsIn(es, []) {
      forall p: Path | p != [] && ItemAt(es, p).Some? ensures ItemFits(ItemAt(es, p).value, p) {
        FitsEach(es, [], p);
        assert [] + p == p;
      }
    }
    if WithinLimits(es) {
      forall p: Path | p != [] && ItemAt(es, p).Some? ensures ItemFits(ItemAt(es, p).value, [] + p) {
        assert [] + p == p;
      }
      EachFits(es, []);
    }
  }

  /** From tree to stream and back, for every tree on disk. A tree beyond the limits is refused. For
      one within them, when no link has an empty target, decoding the stream publishes at every
      path what the tree has there, modes masked, and nothing else; when some link has, the
      stream is rejected. */
  lemma RoundTrip(es: Entries)
    requires OnDisk(es)
    ensures Snapshot(es).Some? <==> WithinLimits(es)
    ensures WithinLimits(es) ==>
              var r := Decode(Snapshot(es).value);
              if LinksLead(es) then r.Some? && [] !in r.value && Shows(r.value, [], es) else r.None?
  {
    TakenIff(es);
    if WithinLimits(es) {
      TakenDecodes(es);
    }
  }
}
