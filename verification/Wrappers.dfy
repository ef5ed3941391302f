// What the whole model shares: result types, the fixed-width arithmetic the agent does on
// unix seconds, and parts of a sequence.
module Wrappers {

  datatype Option<+T> = None | Some(value: T)

  datatype Result<+T, +E> = Ok(value: T) | Err(error: E)

  const U64_MAX: nat := 0xFFFF_FFFF_FFFF_FFFF

  // A Rust `u64`.
  type U64 = n: nat | n <= U64_MAX

  // `u64::saturating_add`.
  function SatAdd(a: U64, b: U64): (r: U64) {
    if a + b > U64_MAX then U64_MAX else a + b
  }

  // The last `n` of them, or all there are.
  function LastN<T>(xs: seq<T>, n: nat): seq<T> {
    if |xs| <= n then xs else xs[|xs| - n..]
  }

  // The first answer any of them gives.
  function FirstSome<T, R>(ask: T -> Option<R>, xs: seq<T>): Option<R> {
    if xs == [] then None else if ask(xs[0]).Some? then ask(xs[0]) else FirstSome(ask, xs[1..])
  }

  lemma {:induction false} FirstSomeAt<T, R>(ask: T -> Option<R>, xs: seq<T>, i: nat)
    requires i < |xs| && ask(xs[i]).Some? && forall j :: 0 <= j < i ==> ask(xs[j]).None?
    ensures FirstSome(ask, xs) == ask(xs[i])
  {
    if i > 0 { FirstSomeAt(ask, xs[1..], i - 1); }
  }

  lemma {:induction false} FirstSomeFrom<T, R>(ask: T -> Option<R>, xs: seq<T>) returns (i: nat)
    requires FirstSome(ask, xs).Some?
    ensures i < |xs| && ask(xs[i]) == FirstSome(ask, xs)
  {
    i := 0;
    if ask(xs[0]).None? {
      i := FirstSomeFrom(ask, xs[1..]);
      i := i + 1;
    }
  }

  // ---- the elements that pass a test, in order -----------------------------------------

  function Filter<T>(keep: T -> bool, xs: seq<T>): seq<T> {
    if xs == [] then []
    else Filter(keep, xs[..|xs| - 1]) + if keep(xs[|xs| - 1]) then [xs[|xs| - 1]] else []
  }

  lemma FilterSnoc<T>(keep: T -> bool, xs: seq<T>, x: T)
    ensures Filter(keep, xs + [x]) == Filter(keep, xs) + if keep(x) then [x] else []
  {
    assert (xs + [x])[..|xs|] == xs;
  }

  lemma {:induction false} FilterCons<T>(keep: T -> bool, x: T, xs: seq<T>)
    ensures Filter(keep, [x] + xs) == (if keep(x) then [x] else []) + Filter(keep, xs)
  {
    if xs == [] {
      FilterSnoc(keep, [], x);
      assert [x] + xs == [] + [x];
    } else {
      var front, last := xs[..|xs| - 1], xs[|xs| - 1];
      FilterCons(keep, x, front);
      FilterSnoc(keep, [x] + front, last);
      assert [x] + xs == ([x] + front) + [last];
    }
  }

  lemma {:induction false} FilterMembers<T>(keep: T -> bool, xs: seq<T>)
    ensures forall x :: x in Filter(keep, xs) <==> x in xs && keep(x)
  {
    if xs != [] {
      FilterMembers(keep, xs[..|xs| - 1]);
      assert xs == xs[..|xs| - 1] + [xs[|xs| - 1]];
    }
  }

  lemma {:induction false} FilterAll<T>(keep: T -> bool, xs: seq<T>)
    requires forall i :: 0 <= i < |xs| ==> keep(xs[i])
    ensures Filter(keep, xs) == xs
  {
    if xs != [] {
      FilterAll(keep, xs[..|xs| - 1]);
      assert xs == xs[..|xs| - 1] + [xs[|xs| - 1]];
    }
  }

  // Testing twice is testing for both.
  lemma {:induction false} FilterTwice<T>(first: T -> bool, second: T -> bool, both: T -> bool, xs: seq<T>)
    requires forall x :: both(x) <==> first(x) && second(x)
    ensures Filter(second, Filter(first, xs)) == Filter(both, xs)
  {
    if xs != [] {
      var front, last := xs[..|xs| - 1], xs[|xs| - 1];
      FilterTwice(first, second, both, front);
      if first(last) {
        FilterSnoc(second, Filter(first, front), last);
      } else {
        assert Filter(first, xs) == Filter(first, front) && Filter(both, xs) == Filter(both, front);
      }
    }
  }
}
