/**
 * The list and string operations the exporter relies on, with Python's
 * meaning: list.remove, str.split and str.join, and the shape of a Python
 * `for` loop over objects whose methods may raise (every element is handled
 * in order until the first one raises, and the exception ends the loop).
 */
module Sequences {
  import opened Ami

  predicate Distinct<T(==)>(s: seq<T>) {
    forall i, j :: 0 <= i < j < |s| ==> s[i] != s[j]
  }

  /** Python's list.remove: drop the first occurrence; None where it raises ValueError. */
  function RemoveFirst<T(==)>(s: seq<T>, x: T): (r: Option<seq<T>>)
    ensures r.None? <==> x !in s
  {
    if |s| == 0 then None
    else if s[0] == x then
      assert s == [s[0]] + s[1..];
      Some(s[1..])
    else
      match RemoveFirst(s[1..], x)
      case None => None
      case Some(t) =>
        assert s == [s[0]] + s[1..];
        Some([s[0]] + t)
  }

  /** One occurrence of x goes and nothing else. */
  lemma {:induction false} RemoveFirstCount<T>(s: seq<T>, x: T)
    requires x in s
    ensures multiset(RemoveFirst(s, x).value) == multiset(s) - multiset{x}
  {
    assert s == [s[0]] + s[1..];
    if s[0] != x {
      RemoveFirstCount(s[1..], x);
    }
  }

  /** Only the first occurrence goes: what precedes it and what follows it stay, in order. */
  lemma {:induction false} RemoveFirstSplits<T>(a: seq<T>, x: T, b: seq<T>)
    requires x !in a
    ensures RemoveFirst(a + [x] + b, x) == Some(a + b)
  {
    var s := a + [x] + b;
    if |a| > 0 {
      assert s[0] == a[0] && a[0] != x;
      assert s[1..] == a[1..] + [x] + b;
      RemoveFirstSplits(a[1..], x, b);
      assert RemoveFirst(s, x) == Some([s[0]] + (a[1..] + b));
      assert a == [a[0]] + a[1..];
      assert [a[0]] + (a[1..] + b) == ([a[0]] + a[1..]) + b;
    } else {
      assert s[0] == x && s[1..] == b;
      assert a + b == b;
    }
  }

  /** A prefix one element longer is the prefix with that element appended. */
  lemma TakeSnoc<T>(s: seq<T>, i: nat)
    requires i < |s|
    ensures s[..i + 1] == s[..i] + [s[i]]
  {
  }

  /** The index of the first occurrence of x. */
  function IndexOf<T(==)>(s: seq<T>, x: T): (k: nat)
    requires x in s
    ensures k < |s| && s[k] == x && x !in s[..k]
    decreases |s|
  {
    if s[0] == x then 0
    else
      var k := IndexOf(s[1..], x);
      assert s[..k + 1] == [s[0]] + s[1..][..k];
      k + 1
  }

  /** list.remove cuts the list at the first occurrence. */
  lemma RemoveFirstAt<T>(s: seq<T>, x: T)
    requires x in s
    ensures RemoveFirst(s, x) == Some(s[..IndexOf(s, x)] + s[IndexOf(s, x) + 1..])
  {
    var k := IndexOf(s, x);
    assert s == s[..k] + [x] + s[k + 1..];
    RemoveFirstSplits(s[..k], x, s[k + 1..]);
  }

  /** Removing what was just appended restores the list. */
  lemma RemoveAppended<T>(s: seq<T>, x: T)
    requires x !in s
    ensures RemoveFirst(s + [x], x) == Some(s)
  {
    RemoveFirstSplits(s, x, []);
    assert s + [x] + [] == s + [x];
    assert s + [] == s;
  }

  /** A loop calling list.remove for each element of xs in turn; None once one raises. */
  function RemoveEach<T(==)>(s: seq<T>, xs: seq<T>): Option<seq<T>>
    decreases |xs|
  {
    if |xs| == 0 then Some(s)
    else
      match RemoveFirst(s, xs[0])
      case None => None
      case Some(t) => RemoveEach(t, xs[1..])
  }

  /** Removing one more element after a list of them removes it from what the list left. */
  lemma {:induction false} RemoveEachSnoc<T>(s: seq<T>, xs: seq<T>, x: T)
    ensures RemoveEach(s, xs + [x]) == if RemoveEach(s, xs).Some? then RemoveFirst(RemoveEach(s, xs).value, x) else None
    decreases |xs|
  {
    if |xs| == 0 {
      assert xs + [x] == [x];
      assert [x][1..] == [];
    } else {
      assert (xs + [x])[0] == xs[0];
      assert (xs + [x])[1..] == xs[1..] + [x];
      match RemoveFirst(s, xs[0]) {
        case None =>
        case Some(t) => RemoveEachSnoc(t, xs[1..], x);
      }
    }
  }

  /** Removing, in order, distinct elements that were appended after s gives back s. */
  lemma {:induction false} RemoveEachAppended<T>(s: seq<T>, xs: seq<T>)
    requires Distinct(xs)
    requires forall i :: 0 <= i < |xs| ==> xs[i] !in s
    ensures RemoveEach(s + xs, xs) == Some(s)
  {
    if |xs| > 0 {
      assert s + xs == s + [xs[0]] + xs[1..];
      RemoveFirstSplits(s, xs[0], xs[1..]);
      forall i | 0 <= i < |xs[1..]| ensures xs[1..][i] !in s {
        assert xs[1..][i] == xs[i + 1];
      }
      RemoveEachAppended(s, xs[1..]);
    } else {
      assert s + xs == s;
    }
  }

  function Count<T(==)>(s: seq<T>, x: T): (n: nat)
    ensures n > 0 <==> x in s
    decreases |s|
  {
    if |s| == 0 then 0
    else
      assert s == s[..|s| - 1] + [s[|s| - 1]];
      Count(s[..|s| - 1], x) + (if s[|s| - 1] == x then 1 else 0)
  }

  /** f applied n times. */
  function Iterate<S>(f: S -> S, n: nat, x: S): S {
    if n == 0 then x else f(Iterate(f, n - 1, x))
  }

  /** Python's str.split(sep) for a one-character separator. */
  function Split(s: string, sep: char): (parts: seq<string>)
    ensures |parts| > 0
    decreases |s|
  {
    if |s| == 0 then [""]
    else
      var rest := Split(s[1..], sep);
      if s[0] == sep then [""] + rest else [[s[0]] + rest[0]] + rest[1..]
  }

  /** Python's sep.join(parts). */
  function Join(parts: seq<string>, sep: char): string
    decreases |parts|
  {
    if |parts| == 0 then ""
    else if |parts| == 1 then parts[0]
    else parts[0] + [sep] + Join(parts[1..], sep)
  }

  /** Joining the parts of a split with the same separator gives back the text. */
  lemma {:induction false} JoinSplit(s: string, sep: char)
    ensures Join(Split(s, sep), sep) == s
    decreases |s|
  {
    if |s| > 0 {
      var rest := Split(s[1..], sep);
      JoinSplit(s[1..], sep);
      if s[0] == sep {
        assert ([""] + rest)[1..] == rest;
        assert s == [sep] + s[1..];
      } else {
        var parts := [[s[0]] + rest[0]] + rest[1..];
        if |rest| == 1 {
          assert parts == [[s[0]] + rest[0]];
        } else {
          assert parts[1..] == rest[1..];
          assert Join(rest, sep) == rest[0] + [sep] + Join(rest[1..], sep);
        }
        assert s == [s[0]] + s[1..];
      }
    }
  }

  /** No part of a split contains the separator, and there is one part more than separators. */
  lemma {:induction false} SplitParts(s: string, sep: char)
    ensures forall i :: 0 <= i < |Split(s, sep)| ==> sep !in Split(s, sep)[i]
    ensures |Split(s, sep)| == Count(s, sep) + 1
    decreases |s|
  {
    if |s| > 0 {
      SplitParts(s[1..], sep);
      CountFront(s, sep);
      var rest := Split(s[1..], sep);
      if s[0] != sep {
        var parts := Split(s, sep);
        forall i | 0 <= i < |parts| ensures sep !in parts[i] {
          if i == 0 {
            assert sep !in rest[0];
            assert parts[0] == [s[0]] + rest[0];
          } else {
            assert parts[i] == rest[i];
          }
        }
      } else {
        var parts := Split(s, sep);
        forall i | 0 <= i < |parts| ensures sep !in parts[i] {
          if i > 0 { assert parts[i] == rest[i - 1]; }
        }
      }
    }
  }

  /** Count read from the front. */
  lemma {:induction false} CountFront<T>(s: seq<T>, x: T)
    requires |s| > 0
    ensures Count(s, x) == Count(s[1..], x) + (if s[0] == x then 1 else 0)
    decreases |s|
  {
    if |s| > 1 {
      CountFront(s[..|s| - 1], x);
      assert s[..|s| - 1][1..] == s[1..][..|s[1..]| - 1];
      assert s[..|s| - 1][0] == s[0];
    } else {
      assert s[1..] == [];
      assert s[..|s| - 1] == [];
    }
  }

  /** Index of the first element whose step raises, or |xs| when none does. */
  function FirstRaise<S>(step: S -> (S, bool), xs: seq<S>): (k: nat)
    ensures k <= |xs|
    decreases |xs|
  {
    if |xs| == 0 then 0
    else if step(xs[0]).1 then 0
    else 1 + FirstRaise(step, xs[1..])
  }

  /** No element before the first raise raises, and the one at it does. */
  lemma {:induction false} FirstRaiseFacts<S>(step: S -> (S, bool), xs: seq<S>)
    ensures forall j :: 0 <= j < FirstRaise(step, xs) ==> !step(xs[j]).1
    ensures FirstRaise(step, xs) < |xs| ==> step(xs[FirstRaise(step, xs)]).1
    decreases |xs|
  {
    if |xs| > 0 && !step(xs[0]).1 {
      FirstRaiseFacts(step, xs[1..]);
      forall j | 0 <= j < FirstRaise(step, xs) ensures !step(xs[j]).1 {
        if j > 0 { assert xs[j] == xs[1..][j - 1]; }
      }
    }
  }

  /**
   * A `for` loop that calls a raising method on each element: each element
   * takes its step in order; the first one that raises still takes its own
   * step, ends the loop, and the rest are left as they were.
   */
  function StepAll<S>(step: S -> (S, bool), xs: seq<S>): (r: (seq<S>, bool))
    ensures |r.0| == |xs|
    decreases |xs|
  {
    if |xs| == 0 then ([], false)
    else
      var first := step(xs[0]);
      if first.1 then ([first.0] + xs[1..], true)
      else
        var rest := StepAll(step, xs[1..]);
        ([first.0] + rest.0, rest.1)
  }

  /**
   * The loop raises exactly when some element raises; the elements up to and
   * including the first raise took their step, the rest are as they were.
   */
  lemma {:induction false} StepAllFacts<S>(step: S -> (S, bool), xs: seq<S>)
    ensures StepAll(step, xs).1 <==> FirstRaise(step, xs) < |xs|
    ensures forall j :: 0 <= j < |xs| ==>
      StepAll(step, xs).0[j] == if j <= FirstRaise(step, xs) then step(xs[j]).0 else xs[j]
    decreases |xs|
  {
    if |xs| > 0 && !step(xs[0]).1 {
      StepAllFacts(step, xs[1..]);
      var r := StepAll(step, xs);
      forall j | 0 <= j < |xs|
        ensures r.0[j] == if j <= FirstRaise(step, xs) then step(xs[j]).0 else xs[j]
      {
        if j > 0 { assert xs[j] == xs[1..][j - 1]; }
      }
    }
  }

  /** A list that took the steps of StepAll element by element, stopping at k, is its result. */
  lemma StepAllPointwise<S>(step: S -> (S, bool), xs: seq<S>, ys: seq<S>, k: nat)
    requires k <= |xs| && |ys| == |xs|
    requires forall j :: 0 <= j < k ==> !step(xs[j]).1
    requires k < |xs| ==> step(xs[k]).1
    requires forall j :: 0 <= j < |xs| ==> ys[j] == if j <= k then step(xs[j]).0 else xs[j]
    ensures FirstRaise(step, xs) == k
    ensures StepAll(step, xs) == (ys, k < |xs|)
  {
    FirstRaiseFacts(step, xs);
    StepAllFacts(step, xs);
    var f := FirstRaise(step, xs);
    assert f == k;
    assert StepAll(step, xs).0 == ys;
  }
}
