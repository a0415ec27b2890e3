/** Cycle-walking: repeat a permutation of a finite set until it lands in a subset again.

    The permutation and its inverse are arbitrary functions here, so nothing below depends on
    how the code scrambler mixes bits. */
module CycleWalk {

  /** `f` and `g` are mutually inverse permutations of `U`. */
  ghost predicate Inverses<T(!new)>(U: set<T>, f: T -> T, g: T -> T) {
    && (forall x {:trigger f(x)} :: x in U ==> f(x) in U)
    && (forall x {:trigger g(x)} :: x in U ==> g(x) in U)
    && (forall x {:trigger g(f(x))} :: x in U ==> g(f(x)) == x)
    && (forall x {:trigger f(g(x))} :: x in U ==> f(g(x)) == x)
  }

  lemma InversesEverywhere<T(!new)>(U: set<T>, f: T -> T, g: T -> T)
    requires forall x :: x in U && g(f(x)) == x && f(g(x)) == x
    ensures Inverses(U, f, g) && Inverses(U, g, f)
  {
  }

  ghost function Iterate<T>(f: T -> T, k: nat, x: T): T {
    if k == 0 then x else f(Iterate(f, k - 1, x))
  }

  /** `y` is the first point of the orbit of `x`, after `x` itself, that lies in `inside`; it is
      met at step `k`. */
  ghost predicate FirstReturnAt<T(!new)>(f: T -> T, inside: T -> bool, x: T, k: nat, y: T) {
    && 1 <= k
    && y == Iterate(f, k, x)
    && inside(y)
    && forall i :: 1 <= i < k ==> !inside(Iterate(f, i, x))
  }

  lemma {:induction false} IterateStays<T(!new)>(U: set<T>, f: T -> T, g: T -> T, k: nat, x: T)
    requires Inverses(U, f, g) && x in U
    ensures Iterate(f, k, x) in U
  {
    if k > 0 {
      IterateStays(U, f, g, k - 1, x);
    }
  }

  lemma {:induction false} IterateSplit<T>(f: T -> T, i: nat, j: nat, x: T)
    ensures Iterate(f, i + j, x) == Iterate(f, i, Iterate(f, j, x))
  {
    if i > 0 {
      IterateSplit(f, i - 1, j, x);
    }
  }

  /** Walking back with the inverse undoes walking forward. */
  lemma {:induction false} IterateUndo<T(!new)>(U: set<T>, f: T -> T, g: T -> T, k: nat, x: T)
    requires Inverses(U, f, g) && x in U
    ensures Iterate(g, k, Iterate(f, k, x)) == x
  {
    if k > 0 {
      IterateUndo(U, f, g, k - 1, x);
      IterateInner(g, k, Iterate(f, k, x));
      UndoneOnce(U, f, g, k, x);
    }
  }

  lemma IterateInner<T>(f: T -> T, k: nat, x: T)
    requires k > 0
    ensures Iterate(f, k, x) == Iterate(f, k - 1, f(x))
  {
    IterateSplit(f, k - 1, 1, x);
    assert Iterate(f, 1, x) == f(Iterate(f, 0, x));
  }

  lemma UndoneOnce<T(!new)>(U: set<T>, f: T -> T, g: T -> T, k: nat, x: T)
    requires Inverses(U, f, g) && x in U && k > 0
    ensures g(Iterate(f, k, x)) == Iterate(f, k - 1, x)
  {
    IterateStays(U, f, g, k - 1, x);
  }

  /** Walking `i` steps back from step `k` leads to step `k - i`. */
  lemma StepsBack<T(!new)>(U: set<T>, f: T -> T, g: T -> T, x: T, i: nat, k: nat)
    requires Inverses(U, f, g) && x in U && i <= k
    ensures Iterate(g, i, Iterate(f, k, x)) == Iterate(f, k - i, x)
  {
    var z := Iterate(f, k - i, x);
    IterateStays(U, f, g, k - i, x);
    IterateUndo(U, f, g, i, z);
    IterateSplit(f, i, k - i, x);
    assert Iterate(f, k, x) == Iterate(f, i, z);
  }

  /** A point met twice, walked back, is an earlier visit to the start. */
  lemma RepeatIsReturn<T(!new)>(U: set<T>, f: T -> T, g: T -> T, x: T, i: nat, k: nat)
    requires Inverses(U, f, g) && x in U && i <= k
    requires Iterate(f, i, x) == Iterate(f, k, x)
    ensures Iterate(f, k - i, x) == x
  {
    StepsBack(U, f, g, x, i, k);
    StepsBack(U, f, g, x, i, i);
  }

  /** As long as the walk has not come back inside, it meets no point twice. */
  lemma StillNew<T(!new)>(U: set<T>, f: T -> T, g: T -> T, inside: T -> bool, x: T, k: nat)
    requires Inverses(U, f, g) && x in U && inside(x)
    requires forall j :: 1 <= j < k ==> !inside(Iterate(f, j, x))
    ensures forall j :: 1 <= j < k ==> Iterate(f, j, x) != Iterate(f, k, x)
  {
    forall j | 1 <= j < k
      ensures Iterate(f, j, x) != Iterate(f, k, x)
    {
      assert !inside(Iterate(f, k - j, x));
      if Iterate(f, j, x) == Iterate(f, k, x) {
        RepeatIsReturn(U, f, g, x, j, k);
      }
    }
  }

  /** The walk from any inside point comes back inside: orbits in a finite set are finite. */
  lemma Returns<T(!new)>(U: set<T>, f: T -> T, g: T -> T, inside: T -> bool, x: T) returns (k: nat)
    requires Inverses(U, f, g) && x in U && inside(x)
    ensures FirstReturnAt(f, inside, x, k, Iterate(f, k, x))
  {
    k := 1;
    var visited: set<T> := {};
    while !inside(Iterate(f, k, x))
      invariant 1 <= k
      invariant forall j :: 1 <= j < k ==> !inside(Iterate(f, j, x))
      invariant forall y :: y in visited ==> exists j :: 1 <= j < k && y == Iterate(f, j, x)
      invariant visited <= U
      decreases U - visited
    {
      var y := Iterate(f, k, x);
      IterateStays(U, f, g, k, x);
      StillNew(U, f, g, inside, x, k);
      visited := visited + {y};
      k := k + 1;
    }
  }

  lemma FirstReturnUnique<T(!new)>(f: T -> T, inside: T -> bool, x: T, k: nat, y: T, k': nat, y': T)
    requires FirstReturnAt(f, inside, x, k, y) && FirstReturnAt(f, inside, x, k', y')
    ensures k == k' && y == y'
  {
    assert k < k' ==> !inside(Iterate(f, k, x));
    assert k' < k ==> !inside(Iterate(f, k', x));
  }

  /** The first-return map of `f` on the inside points of `U`. */
  ghost function FirstReturn<T(!new)>(U: set<T>, f: T -> T, g: T -> T, inside: T -> bool, x: T): (y: T)
    requires Inverses(U, f, g) && x in U && inside(x)
    ensures y in U && inside(y)
    ensures exists k :: FirstReturnAt(f, inside, x, k, y)
  {
    assert exists k, y :: FirstReturnAt(f, inside, x, k, y) by {
      var k := Returns(U, f, g, inside, x);
    }
    var k, y :| FirstReturnAt(f, inside, x, k, y);
    IterateStays(U, f, g, k, x);
    y
  }

  lemma ReturnSteps<T(!new)>(U: set<T>, f: T -> T, g: T -> T, inside: T -> bool, x: T) returns (k: nat)
    requires Inverses(U, f, g) && x in U && inside(x)
    ensures 1 <= k && FirstReturn(U, f, g, inside, x) == Iterate(f, k, x)
    ensures forall i :: 1 <= i < k ==> !inside(Iterate(f, i, x))
  {
    var y := FirstReturn(U, f, g, inside, x);
    var j: nat :| FirstReturnAt(f, inside, x, j, y);
    k := j;
  }

  /** A forward first return, read backwards, is a first return of the inverse. */
  lemma ReturnReverses<T(!new)>(U: set<T>, f: T -> T, g: T -> T, inside: T -> bool, x: T, k: nat, y: T)
    requires Inverses(U, f, g) && x in U && inside(x)
    requires FirstReturnAt(f, inside, x, k, y)
    ensures FirstReturnAt(g, inside, y, k, x)
  {
    StepsBack(U, f, g, x, k, k);
    forall i | 1 <= i < k ensures !inside(Iterate(g, i, y)) {
      StepsBack(U, f, g, x, i, k);
    }
  }

  /** The first-return maps of `f` and of its inverse undo each other, so each is a bijection of
      the inside points: injective because it can be undone, onto because every inside point is
      the image of what the other map makes of it. */
  lemma FirstReturnInverse<T(!new)>(U: set<T>, f: T -> T, g: T -> T, inside: T -> bool, x: T)
    requires Inverses(U, f, g) && x in U && inside(x)
    ensures FirstReturn(U, g, f, inside, FirstReturn(U, f, g, inside, x)) == x
  {
    var y := FirstReturn(U, f, g, inside, x);
    var k :| FirstReturnAt(f, inside, x, k, y);
    ReturnReverses(U, f, g, inside, x, k, y);
    var z := FirstReturn(U, g, f, inside, y);
    var k' :| FirstReturnAt(g, inside, y, k', z);
    FirstReturnUnique(g, inside, y, k, x, k', z);
  }
}
