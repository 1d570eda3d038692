/** Option and failure-compatible Result types, and sums over sequences. */
module Basics {

  datatype Option<+T> = None | Some(value: T)

  datatype Result<+T, +E> = Ok(value: T) | Err(error: E) {
    predicate IsFailure() { Err? }

    function PropagateFailure<U>(): Result<U, E>
      requires Err?
    {
      Err(error)
    }

    function Extract(): T
      requires Ok?
    {
      value
    }
  }

  function Sum(xs: seq<nat>): nat {
    if xs == [] then 0 else Sum(xs[..|xs| - 1]) + xs[|xs| - 1]
  }

  lemma SumSnoc(xs: seq<nat>, x: nat)
    ensures Sum(xs + [x]) == Sum(xs) + x
  {
    assert (xs + [x])[..|xs|] == xs;
  }

  lemma {:induction false} SumConcat(xs: seq<nat>, ys: seq<nat>)
    ensures Sum(xs + ys) == Sum(xs) + Sum(ys)
  {
    if ys == [] {
      assert xs + ys == xs;
    } else {
      var front, last := ys[..|ys| - 1], ys[|ys| - 1];
      assert xs + ys == (xs + front) + [last];
      SumSnoc(xs + front, last);
      SumConcat(xs, front);
    }
  }

  lemma {:induction false} SumUpdate(xs: seq<nat>, i: nat, x: nat)
    requires i < |xs|
    ensures Sum(xs[i := x]) == Sum(xs) - xs[i] + x
  {
    var front := xs[..|xs| - 1];
    if i == |xs| - 1 {
      assert xs[i := x][..|xs| - 1] == front;
    } else {
      assert xs[i := x][..|xs| - 1] == front[i := x];
      SumUpdate(front, i, x);
    }
  }

  ghost function Times<T>(x: T, y: T): nat { if x == y then 1 else 0 }

  lemma CountOfThree<T>(a: T, b: T, c: T, x: T)
    ensures multiset([a, b, c])[x] == Times(x, a) + Times(x, b) + Times(x, c)
  {
    assert multiset([a, b, c]) == multiset{a, b, c};
  }

  lemma CountIn<T>(ts: seq<T>, x: T)
    requires |ts| == 3
    ensures multiset(ts)[x] == Times(x, ts[0]) + Times(x, ts[1]) + Times(x, ts[2])
  {
    hide Times;
    CountOfThree(ts[0], ts[1], ts[2], x);
    assert ts == [ts[0], ts[1], ts[2]];
  }

  // Two sequences of three with the same elements: each occurs as often in one as in the other.
  lemma SameThree<T>(ts: seq<T>, s: seq<T>, x: T)
    requires |ts| == |s| == 3 && multiset(s) == multiset(ts)
    ensures Times(x, s[0]) + Times(x, s[1]) + Times(x, s[2]) == Times(x, ts[0]) + Times(x, ts[1]) + Times(x, ts[2])
  {
    hide Times;
    CountIn(ts, x);
    CountIn(s, x);
  }
}
