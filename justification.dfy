/** The justification tags: a list that a button click toggles one tag in or out of. */
module Justification {

  /** The tags offered by the form, in the order of their buttons. */
  const TAGS: seq<string> := ["Labor Savings", "Increased Productivity", "Quality Improvement", "Safety"]

  /** No element occurs twice. */
  predicate NoDuplicates<T(==)>(xs: seq<T>) {
    forall i, j :: 0 <= i < j < |xs| ==> xs[i] != xs[j]
  }

  /** The array search `indexOf`: the first position holding `x`, or -1 when there is none. */
  method IndexOf<T(==)>(xs: seq<T>, x: T) returns (index: int)
    ensures -1 <= index < |xs|
    ensures index == -1 <==> x !in xs
    ensures 0 <= index ==> xs[index] == x && x !in xs[..index]
  {
    var i := 0;
    while i < |xs|
      invariant 0 <= i <= |xs|
      invariant x !in xs[..i]
    {
      if xs[i] == x {
        return i;
      }
      assert xs[..i + 1] == xs[..i] + [xs[i]];
      i := i + 1;
    }
    assert xs[..i] == xs;
    return -1;
  }

  /** `xs` without its first occurrence of `x`; `xs` itself when `x` does not occur. */
  function RemoveFirst<T(==)>(xs: seq<T>, x: T): (r: seq<T>)
    ensures x in xs ==> |r| == |xs| - 1 && multiset(r) == multiset(xs) - multiset{x}
    ensures x !in xs ==> r == xs
  {
    if xs == [] then []
    else if xs[0] == x then assert xs == [x] + xs[1..]; xs[1..]
    else assert xs == [xs[0]] + xs[1..]; [xs[0]] + RemoveFirst(xs[1..], x)
  }

  /** What the source's `splice(index, 1)` leaves when `index` is the first position of `x`. */
  lemma {:induction false} RemoveFirstAt<T>(xs: seq<T>, x: T, index: nat)
    requires index < |xs| && xs[index] == x && x !in xs[..index]
    ensures RemoveFirst(xs, x) == xs[..index] + xs[index + 1..]
  {
    if index > 0 {
      assert xs[0] in xs[..index];
      assert xs[1..][..index - 1] == xs[1..index];
      RemoveFirstAt(xs[1..], x, index - 1);
      assert xs[..index] == [xs[0]] + xs[1..index];
    }
  }

  /** One click on the button of tag `x`: remove its first occurrence when present, append it otherwise. */
  function Toggled<T(==)>(xs: seq<T>, x: T): (r: seq<T>)
    ensures |r| == if x in xs then |xs| - 1 else |xs| + 1
    ensures multiset(r) == if x in xs then multiset(xs) - multiset{x} else multiset(xs) + multiset{x}
  {
    if x in xs then RemoveFirst(xs, x) else xs + [x]
  }

  /** `xs` with every occurrence of `x` deleted and the rest in its order. */
  function Erase<T(==)>(xs: seq<T>, x: T): (r: seq<T>)
    ensures x !in r
  {
    if xs == [] then []
    else if xs[0] == x then Erase(xs[1..], x)
    else [xs[0]] + Erase(xs[1..], x)
  }

  lemma {:induction false} EraseConcat<T>(a: seq<T>, b: seq<T>, x: T)
    ensures Erase(a + b, x) == Erase(a, x) + Erase(b, x)
  {
    if a == [] {
      assert a + b == b;
    } else {
      assert (a + b)[0] == a[0] && (a + b)[1..] == a[1..] + b;
      EraseConcat(a[1..], b, x);
    }
  }

  lemma {:induction false} EraseRemoveFirst<T>(xs: seq<T>, x: T)
    ensures Erase(RemoveFirst(xs, x), x) == Erase(xs, x)
  {
    if xs != [] && xs[0] != x {
      EraseRemoveFirst(xs[1..], x);
      assert ([xs[0]] + RemoveFirst(xs[1..], x))[1..] == RemoveFirst(xs[1..], x);
    }
  }

  /** Toggling `x` keeps every other tag and their relative order. */
  lemma ToggledKeepsOthers<T>(xs: seq<T>, x: T)
    ensures Erase(Toggled(xs, x), x) == Erase(xs, x)
  {
    if x in xs {
      EraseRemoveFirst(xs, x);
    } else {
      EraseConcat(xs, [x], x);
      assert Erase([x], x) == [];
    }
  }

  /** In a list without duplicates a click flips whether the tag is selected. */
  lemma ToggledFlips<T>(xs: seq<T>, x: T)
    requires NoDuplicates(xs)
    ensures x in Toggled(xs, x) <==> x !in xs
  {
    var r := Toggled(xs, x);
    if x in xs {
      assert multiset(xs)[x] == 1 by {
        MultiplicityInDistinct(xs, x);
      }
      assert multiset(r)[x] == 0;
    }
  }

  /** An element of a list without duplicates occurs exactly once. */
  lemma {:induction false} MultiplicityInDistinct<T>(xs: seq<T>, x: T)
    requires NoDuplicates(xs) && x in xs
    ensures multiset(xs)[x] == 1
  {
    assert xs == [xs[0]] + xs[1..];
    assert NoDuplicates(xs[1..]) by {
      forall i, j | 0 <= i < j < |xs[1..]| ensures xs[1..][i] != xs[1..][j] {
        assert xs[1..][i] == xs[i + 1] && xs[1..][j] == xs[j + 1];
      }
    }
    if xs[0] == x {
      assert x !in xs[1..] by {
        forall k | 0 <= k < |xs[1..]| ensures xs[1..][k] != x {
          assert xs[1..][k] == xs[k + 1];
        }
      }
    } else {
      MultiplicityInDistinct(xs[1..], x);
    }
  }

  /** A list is free of duplicates exactly when each of its elements occurs once. */
  lemma {:induction false} DistinctByMultiplicity<T>(xs: seq<T>)
    requires forall y :: y in xs ==> multiset(xs)[y] == 1
    ensures NoDuplicates(xs)
  {
    forall i, j | 0 <= i < j < |xs| ensures xs[i] != xs[j] {
      TwoPositions(xs, i, j);
    }
  }

  /** Two positions holding the same value make it occur at least twice. */
  lemma TwoPositions<T>(xs: seq<T>, i: nat, j: nat)
    requires i < j < |xs|
    ensures multiset(xs)[xs[i]] >= if xs[j] == xs[i] then 2 else 1
  {
    var y := xs[i];
    assert xs == xs[..i] + [y] + xs[i + 1..j] + [xs[j]] + xs[j + 1..];
  }

  /** A click never creates a duplicate. */
  lemma ToggledNoDuplicates<T>(xs: seq<T>, x: T)
    requires NoDuplicates(xs)
    ensures NoDuplicates(Toggled(xs, x))
  {
    var r := Toggled(xs, x);
    forall y | y in r ensures multiset(r)[y] == 1 {
      assert y in multiset(r);
      if y in xs {
        MultiplicityInDistinct(xs, y);
      }
    }
    DistinctByMultiplicity(r);
  }

  /** Clicking an unselected tag twice restores the list exactly. */
  lemma ToggleTwiceAbsent<T>(xs: seq<T>, x: T)
    requires x !in xs
    ensures Toggled(Toggled(xs, x), x) == xs
  {
    RemoveFirstAt(xs + [x], x, |xs|);
    assert (xs + [x])[..|xs|] == xs;
  }

  /** Clicking a selected tag twice moves it to the end: the list holds the same tags
      as before, with the same multiplicities, and the others keep their order. */
  lemma ToggleTwicePresent<T>(xs: seq<T>, x: T)
    requires NoDuplicates(xs) && x in xs
    ensures Toggled(Toggled(xs, x), x) == RemoveFirst(xs, x) + [x]
    ensures multiset(Toggled(Toggled(xs, x), x)) == multiset(xs)
  {
    ToggledFlips(xs, x);
    var once := Toggled(xs, x);
    assert x !in once;
    assert multiset(xs)[x] >= 1;
  }

  /** A click on one of the form's tags keeps the list within the form's tags. */
  lemma ToggledWithin<T>(xs: seq<T>, x: T, tags: seq<T>)
    requires forall y :: y in xs ==> y in tags
    requires x in tags
    ensures forall y :: y in Toggled(xs, x) ==> y in tags
  {
    var r := Toggled(xs, x);
    forall y | y in r ensures y in tags {
      assert y in multiset(r);
      if y != x {
        assert y in multiset(xs);
      }
    }
  }
}
