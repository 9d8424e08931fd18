/** Mapping a path relative to a directory, as it runs on fixed buffers. */
module TmpPathAtBuffer {
  import opened Text
  import opened TmpPath
  import opened TmpPathBuffer

  lemma PopShorter(text: Bytes)
    requires |text| > 1 && text[|text| - 1] != SLASH
    ensures TmpPath.PopComponent(text) == TmpPath.PopComponent(text[..|text| - 1])
  {
  }

  /** Drop the last component of `joined[..len]`, never the leading slash. */
  method PopComponent(joined: array<byte>, len: nat) returns (n: nat)
    requires len <= joined.Length
    ensures n <= len && joined[..n] == TmpPath.PopComponent(joined[..len])
  {
    n := len;
    while n > 1 && joined[n - 1] != SLASH
      invariant n <= len && TmpPath.PopComponent(joined[..n]) == TmpPath.PopComponent(joined[..len])
    {
      PopShorter(joined[..n]);
      assert joined[..n][..n - 1] == joined[..n - 1];
      n := n - 1;
    }
    if n > 1 {
      assert joined[..n][..n - 1] == joined[..n - 1];
      n := n - 1;
    }
  }

  /** Take the leading `.` and `..` components of `path` against the text in `joined`. */
  method TakeLeading(joined: array<byte>, start: nat, path: Bytes) returns (len: nat, rest: Bytes)
    requires start <= joined.Length
    ensures len <= start && (joined[..len], rest) == TmpPath.TakeLeading(joined[..start], path)
  {
    len, rest := start, path;
    while true
      invariant len <= start && TmpPath.TakeLeading(joined[..len], rest) == TmpPath.TakeLeading(joined[..start], path)
      decreases |rest|
    {
      if rest == DOT {
        return len, [];
      } else if rest == DOTDOT {
        len := PopComponent(joined, len);
        return len, [];
      } else if DOT + [SLASH] <= rest {
        rest := rest[2..];
      } else if DOTDOT + [SLASH] <= rest {
        len := PopComponent(joined, len);
        rest := rest[3..];
      } else {
        return len, rest;
      }
    }
  }

  /** Append `rest` behind the directory in `joined[..len]`. */
  method Append(joined: array<byte>, len: nat, rest: Bytes) returns (r: Option<nat>)
    requires len <= joined.Length == PATH_MAX
    modifies joined
    ensures var text := Joined(old(joined[..len]), rest);
            if rest != [] && |text| >= PATH_MAX then r == None
            else r == Some(|text|) && |text| <= PATH_MAX && joined[..|text|] == text
  {
    if rest == [] {
      return Some(len);
    }
    var n := len;
    if joined[..len] != [SLASH] {
      if len >= joined.Length {
        return None;
      }
      joined[len] := SLASH;
      n := len + 1;
    }
    assert joined[..n] == if old(joined[..len]) == [SLASH] then [SLASH] else old(joined[..len]) + [SLASH];
    if n + |rest| >= joined.Length {
      return None;
    }
    ghost var front := joined[..n];
    CopyInto(joined, n, rest);
    assert joined[..n + |rest|] == joined[..n] + joined[n..n + |rest|];
    return Some(n + |rest|);
  }

  /** The host name of the directory, put into `joined`; `under` says whether it differs from
      the physical name. */
  method PlaceBase(root: Bytes, dir: Bytes, joined: array<byte>) returns (len: nat, under: bool)
    requires |root| >= 8 && |dir| < PATH_MAX == joined.Length
    modifies joined
    ensures len <= PATH_MAX && joined[..len] == HostName(root, dir) && (under <==> Unmap(root, dir).Some?)
  {
    var buf := new byte[PATH_MAX];
    CopyInto(buf, 0, dir);
    var r := UnmapInPlace(root, buf, 0, |dir|);
    under := r.Some?;
    len := if r.Some? then r.value else |dir|;
    assert buf[0..len] == HostName(root, dir);
    CopyInto(joined, 0, buf[..len]);
    assert joined[0..len] == joined[..len];
  }

  /** The last step: the joined text is handed back when the directory lies in the private
      tree, for there the original relative text would be looked up in the wrong place. */
  method Conclude(mapped: Outcome, under: bool, joined: Bytes, out: array<byte>) returns (r: Outcome)
    modifies out
    ensures if mapped.NoChange? && under
            then Delivered(r, out[..], if |joined| >= out.Length then Fails(NameTooLong) else Mapped(joined))
            else r == mapped && out[..] == old(out[..])
  {
    if mapped.NoChange? && under {
      assert joined + [] == joined;
      r := Deliver(out, joined, []);
    } else {
      r := mapped;
    }
  }

  /** The mapper for a path relative to the directory whose physical name `base` answers. */
  method MapAtWith(root: Bytes, path: Bytes, out: array<byte>, base: Answer, resolve: Resolver) returns (r: Outcome, ghost queries: seq<Bytes>)
    requires |root| >= 8 && Fits(resolve)
    modifies out
    ensures Delivered(r, out[..], TmpPath.MapAtWith(root, path, out.Length, base, resolve).result)
    ensures queries == TmpPath.MapAtWith(root, path, out.Length, base, resolve).queries
  {
    if path != [] && path[0] == SLASH {
      r, queries := TmpPathBuffer.MapWith(root, path, out, resolve);
      return;
    }
    if Innocent(path) {
      return NoChange, [];
    }
    if base.Refused? {
      return Error(Kernel(base.errno)), [];
    }
    if |base.text| >= PATH_MAX {
      return Error(NameTooLong), [];
    }
    var joined := new byte[PATH_MAX];
    var len, under := PlaceBase(root, base.text, joined);
    var cut, rest := TakeLeading(joined, len, path);
    var end := Append(joined, cut, rest);
    if end.None? {
      return Error(NameTooLong), [];
    }
    var text := joined[..end.value];
    var mapped: Outcome;
    mapped, queries := TmpPathBuffer.MapWith(root, text, out, resolve);
    r := Conclude(mapped, under, text, out);
  }
}
