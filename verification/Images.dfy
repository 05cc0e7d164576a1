/** Maps of a finite set into itself: taking different values, they reach every element. */
module Images {
  lemma {:induction false} SmallerSubset<T>(a: set<T>, b: set<T>)
    requires a <= b
    ensures |a| <= |b|
    decreases a
  {
    if x :| x in a {
      SmallerSubset(a - {x}, b - {x});
    }
  }

  lemma SubsetOfSameSize<T>(a: set<T>, b: set<T>)
    requires a <= b && |a| == |b|
    ensures a == b
  {
    if x :| x in b && x !in a {
      SmallerSubset(a, b - {x});
    }
  }

  ghost predicate IsOneToOne<T(!new), U(!new)>(a: set<T>, f: T -> U) {
    forall x, y {:trigger f(x), f(y)} :: x in a && y in a && f(x) == f(y) ==> x == y
  }

  ghost predicate StaysIn<T(!new)>(a: set<T>, f: T -> T) {
    forall x {:trigger f(x)} :: x in a ==> f(x) in a
  }

  ghost function Image<T(!new), U(!new)>(a: set<T>, f: T -> U): set<U> { set x | x in a :: f(x) }

  lemma {:induction false} ImageHasSameSize<T(!new), U(!new)>(a: set<T>, f: T -> U)
    requires IsOneToOne(a, f)
    ensures |Image(a, f)| == |a|
    decreases a
  {
    if x :| x in a {
      var rest := a - {x};
      ImageHasSameSize(rest, f);
      assert Image(a, f) == Image(rest, f) + {f(x)};
      assert f(x) !in Image(rest, f);
    } else {
      assert Image(a, f) == {};
    }
  }

  lemma InImage<T(!new), U(!new)>(a: set<T>, f: T -> U, y: U) returns (x: T)
    requires y in Image(a, f)
    ensures x in a && f(x) == y
  {
    x :| x in a && f(x) == y;
  }

  lemma ImageStaysIn<T(!new)>(a: set<T>, f: T -> T)
    requires StaysIn(a, f)
    ensures Image(a, f) <= a
  {
  }

  /** A map of a finite set into itself that takes different values reaches every element. */
  lemma OneToOneIsOnto<T(!new)>(a: set<T>, f: T -> T, y: T) returns (x: T)
    requires IsOneToOne(a, f) && StaysIn(a, f) && y in a
    ensures x in a && f(x) == y
  {
    hide *;
    ImageHasSameSize(a, f);
    ImageStaysIn(a, f);
    SubsetOfSameSize(Image(a, f), a);
    x := InImage(a, f, y);
  }
}
