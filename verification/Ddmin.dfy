/** Delta debugging: shrink a failing run to one of which no single line can be dropped. */
module Ddmin {
  import opened Text

  /** `picks` are increasing positions of `b` at which the elements of `a` stand. */
  ghost predicate Picks<T>(picks: seq<nat>, a: seq<T>, b: seq<T>) {
    && |picks| == |a|
    && (forall i, j :: 0 <= i < j < |picks| ==> picks[i] < picks[j])
    && (forall i :: 0 <= i < |picks| ==> picks[i] < |b| && a[i] == b[picks[i]])
  }

  ghost predicate Subsequence<T>(a: seq<T>, b: seq<T>) {
    exists picks :: Picks(picks, a, b)
  }

  function Without<T>(lines: seq<T>, start: nat, end: nat): seq<T>
    requires start <= end <= |lines|
  {
    lines[..start] + lines[end..]
  }

  lemma PicksWithout<T>(picks: seq<nat>, a: seq<T>, b: seq<T>, start: nat, end: nat)
    requires Picks(picks, a, b) && start <= end <= |a|
    ensures Picks(Without(picks, start, end), Without(a, start, end), b)
  {
  }

  /** The outcome of a run: which divergence it shows, if any. */
  type Oracle<!T> = seq<T> -> Option<Bytes>

  /** Dropping line `i` changes the outcome. */
  predicate Needed<T>(lines: seq<T>, i: nat, attempt: Oracle<T>)
    requires i < |lines|
  {
    attempt(Without(lines, i, i + 1)) != attempt(lines)
  }

  /** Dropping any one line of a result that keeps a line changes the outcome. */
  ghost predicate OneMinimal<T>(lines: seq<T>, attempt: Oracle<T>) {
    |lines| > 1 ==> forall i :: 0 <= i < |lines| ==> Needed(lines, i, attempt)
  }

  function CeilDiv(n: nat, d: nat): nat
    requires d > 0
  {
    (n + d - 1) / d
  }

  function Least(a: nat, b: nat): nat {
    if a <= b then a else b
  }

  /** The first chunk of the given size, from the left, that can be dropped. */
  method DropChunk<T>(lines: seq<T>, size: nat, attempt: Oracle<T>, ghost all: seq<T>, ghost picks: seq<nat>)
    returns (shrank: bool, next: seq<T>, ghost left: seq<nat>)
    requires lines != [] && size > 0 && attempt(lines).Some? && Picks(picks, lines, all)
    ensures next != [] && attempt(next) == attempt(lines) && Picks(left, next, all)
    ensures shrank ==> |next| < |lines|
    ensures !shrank ==> next == lines
    ensures !shrank && size == 1 ==> OneMinimal(lines, attempt)
  {
    var start := 0;
    while start < |lines|
      invariant start <= |lines|
      invariant size == 1 && |lines| > 1 ==> forall i :: 0 <= i < start ==> Needed(lines, i, attempt)
      decreases |lines| - start
    {
      var end := Least(start + size, |lines|);
      var candidate := Without(lines, start, end);
      if candidate != [] && attempt(candidate) == attempt(lines) {
        PicksWithout(picks, lines, all, start, end);
        return true, candidate, Without(picks, start, end);
      }
      start := end;
    }
    return false, lines, picks;
  }

  /** Remove ever smaller chunks until none of them can be dropped. */
  method Coarse<T>(input: seq<T>, attempt: Oracle<T>) returns (lines: seq<T>, ghost picks: seq<nat>)
    requires input != [] && attempt(input).Some?
    ensures lines != [] && attempt(lines) == attempt(input) && Picks(picks, lines, input)
    ensures OneMinimal(lines, attempt)
  {
    lines := input;
    picks := seq(|input|, i => i);
    var divisor := 2;
    while |lines| > 1
      invariant divisor >= 2 && lines != [] && attempt(lines) == attempt(input) && Picks(picks, lines, input)
      decreases |lines|, if divisor < |lines| then |lines| - divisor else 0
    {
      var size := CeilDiv(|lines|, divisor);
      SizePositive(|lines|, divisor);
      var shrank, next;
      ghost var left;
      shrank, next, left := DropChunk(lines, size, attempt, input, picks);
      if shrank {
        lines, picks := next, left;
        divisor := if divisor > 3 then divisor - 1 else 2;
      } else {
        if divisor >= |lines| {
          return;
        }
        divisor := Least(divisor * 2, |lines|);
      }
    }
  }

  lemma SizePositive(n: nat, d: nat)
    requires n > 0 && d > 0
    ensures CeilDiv(n, d) > 0
    ensures d >= n ==> CeilDiv(n, d) == 1
  {
    assert n + d - 1 >= d;
    if d >= n {
      assert n + d - 1 < 2 * d;
    }
  }

  /** Try to drop single lines, once from left to right. */
  method Fine<T>(input: seq<T>, attempt: Oracle<T>, ghost all: seq<T>, ghost from: seq<nat>)
    returns (lines: seq<T>, ghost picks: seq<nat>)
    requires input != [] && attempt(input).Some? && Picks(from, input, all)
    ensures lines != [] && attempt(lines) == attempt(input) && Picks(picks, lines, all)
    ensures OneMinimal(input, attempt) ==> lines == input
  {
    lines, picks := input, from;
    var i := 0;
    while i < |lines|
      invariant i <= |lines| && lines != [] && attempt(lines) == attempt(input) && Picks(picks, lines, all)
      invariant OneMinimal(input, attempt) ==> lines == input
      decreases |lines| - i
    {
      var candidate := Without(lines, i, i + 1);
      assert attempt(candidate) != attempt(lines) <==> Needed(lines, i, attempt);
      if candidate != [] && attempt(candidate) == attempt(lines) {
        PicksWithout(picks, lines, all, i, i + 1);
        lines, picks := candidate, Without(picks, i, i + 1);
      } else {
        i := i + 1;
      }
    }
  }

  /** Minimise a run that shows a divergence. The result is a subsequence of the input that
      still shows the same divergence, and no single line of it can be dropped. */
  method Minimize<T>(input: seq<T>, attempt: Oracle<T>) returns (r: Option<seq<T>>)
    ensures r.None? <==> input == [] || attempt(input).None?
    ensures r.Some? ==> r.value != [] && attempt(r.value) == attempt(input)
    ensures r.Some? ==> Subsequence(r.value, input) && OneMinimal(r.value, attempt)
  {
    if input == [] || attempt(input).None? {
      return None;
    }
    var lines;
    ghost var picks;
    lines, picks := Coarse(input, attempt);
    lines, picks := Fine(lines, attempt, input, picks);
    return Some(lines);
  }
}
