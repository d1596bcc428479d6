/** A JavaScript `Set` of identifiers as the signaling code uses it: its elements
    are enumerated in insertion order, so it is a sequence without duplicates.
    The same module serves the key order of a plain object used as a dictionary
    (`Object.keys` of an object whose keys are not array indices). */
module OrderedSet {

  /** No element occurs twice. */
  ghost predicate NoDup<T>(xs: seq<T>)
  {
    forall i, j :: 0 <= i < j < |xs| ==> xs[i] != xs[j]
  }

  /** `set.add(x)`: appends x, unless it is already there, in which case nothing moves. */
  function Add<T(==,!new)>(xs: seq<T>, x: T): (r: seq<T>)
    ensures x in r
    ensures forall y :: y in r <==> y in xs || y == x
    ensures |r| == if x in xs then |xs| else |xs| + 1
    ensures r[..|xs|] == xs
    ensures NoDup(xs) ==> NoDup(r)
  {
    if x in xs then xs else xs + [x]
  }

  /** `set.delete(x)`, and equally `Array.from(set).filter(id => id !== x)`:
      every element other than x, in the original order. */
  function Remove<T(==,!new)>(xs: seq<T>, x: T): (r: seq<T>)
    ensures x !in r
    ensures forall y :: y in r <==> y in xs && y != x
    ensures |r| <= |xs|
    ensures x !in xs ==> r == xs
    ensures NoDup(xs) ==> NoDup(r)
    ensures NoDup(xs) && x in xs ==> |r| == |xs| - 1
    decreases |xs|
  {
    if xs == [] then []
    else if xs[0] == x then Remove(xs[1..], x)
    else
      var rest := Remove(xs[1..], x);
      NoDupSplit(xs);
      NoDupCons(xs[0], rest);
      [xs[0]] + rest
  }

  lemma NoDupSplit<T>(xs: seq<T>)
    requires xs != []
    ensures NoDup(xs) ==> xs[0] !in xs[1..] && NoDup(xs[1..])
  {
  }

  lemma NoDupCons<T>(a: T, xs: seq<T>)
    ensures a !in xs && NoDup(xs) ==> NoDup([a] + xs)
  {
    if !(a !in xs && NoDup(xs)) { return; }
    var ys := [a] + xs;
    forall i, j | 0 <= i < j < |ys| ensures ys[i] != ys[j] {
      if i == 0 {
        assert ys[j] == xs[j - 1];
      } else {
        assert ys[i] == xs[i - 1] && ys[j] == xs[j - 1];
      }
    }
  }

  /** Adding an absent element and filtering it out again gives back the original
      order: the roster a newcomer receives is the membership as it was. */
  lemma {:induction false} RemoveAfterAdd<T(!new)>(xs: seq<T>, x: T)
    requires x !in xs
    ensures Remove(Add(xs, x), x) == xs
  {
    RemoveAppended(xs, x);
  }

  lemma {:induction false} RemoveAppended<T(!new)>(xs: seq<T>, x: T)
    requires x !in xs
    ensures Remove(xs + [x], x) == xs
  {
    if xs == [] {
      assert [x][1..] == [];
    } else {
      assert (xs + [x])[1..] == xs[1..] + [x];
      RemoveAppended(xs[1..], x);
      assert xs == [xs[0]] + xs[1..];
    }
  }

  /** Removing the element at position k of a duplicate-free sequence splices
      it out: the elements before and after it keep their order. */
  lemma {:induction false} RemoveSplices<T(!new)>(xs: seq<T>, k: nat)
    requires NoDup(xs) && k < |xs|
    ensures Remove(xs, xs[k]) == xs[..k] + xs[k + 1..]
  {
    NoDupSplit(xs);
    if k == 0 {
      assert xs[k] !in xs[1..];
      assert Remove(xs[1..], xs[k]) == xs[1..];
    } else {
      assert xs[1..][k - 1] == xs[k];
      RemoveSplices(xs[1..], k - 1);
      assert xs[..k] == [xs[0]] + xs[1..][..k - 1];
      assert xs[k + 1..] == xs[1..][k..];
    }
  }
}
