/** The array-update operators of MongoDB that the user routes rely on
    (`$push` is plain append and needs no definition), and the membership
    flip that the follow and favourite toggles assemble from them. */
module MongoArray {

  /** `$pull`: removes every occurrence of `x` and keeps the rest in order. */
  function Pull<T(==)>(s: seq<T>, x: T): (r: seq<T>)
    ensures x !in r
    ensures forall y :: y in r ==> y in s
    ensures forall y :: y in s && y != x ==> y in r
    ensures |r| <= |s|
  {
    if s == [] then []
    else if s[0] == x then Pull(s[1..], x)
    else [s[0]] + Pull(s[1..], x)
  }

  /** The effect of one `$pull` for each element of `xs`. */
  function Without<T(==)>(s: seq<T>, xs: set<T>): (r: seq<T>)
    ensures forall y :: y in r ==> y in s && y !in xs
    ensures forall y :: y in s && y !in xs ==> y in r
    ensures |r| <= |s|
  {
    if s == [] then []
    else if s[0] in xs then Without(s[1..], xs)
    else [s[0]] + Without(s[1..], xs)
  }

  /** `$pull` keeps every other element with its multiplicity. */
  lemma {:induction false} PullCounts<T>(s: seq<T>, x: T)
    ensures multiset(Pull(s, x)) == multiset(s)[x := 0]
  {
    if s != [] {
      PullCounts(s[1..], x);
      assert s == [s[0]] + s[1..];
    }
  }

  /** Pulling a value that is not there leaves the array as it was. */
  lemma {:induction false} PullAbsent<T>(s: seq<T>, x: T)
    requires x !in s
    ensures Pull(s, x) == s
  {
    if s != [] {
      PullAbsent(s[1..], x);
      assert s == [s[0]] + s[1..];
    }
  }

  /** A second `$pull` of the same value does nothing. */
  lemma PullIdempotent<T>(s: seq<T>, x: T)
    ensures Pull(Pull(s, x), x) == Pull(s, x)
  {
    PullAbsent(Pull(s, x), x);
  }

  /** `$pull` undoes a `$push` of a value that was absent. */
  lemma {:induction false} PullAfterPush<T>(s: seq<T>, x: T)
    requires x !in s
    ensures Pull(s + [x], x) == s
  {
    if s == [] {
      assert [] + [x] == [x];
      assert [x][1..] == [];
    } else {
      assert (s + [x])[0] == s[0];
      assert (s + [x])[1..] == s[1..] + [x];
      PullAfterPush(s[1..], x);
      assert s == [s[0]] + s[1..];
    }
  }

  /** Removing no values leaves the array as it was. */
  lemma {:induction false} WithoutNothing<T>(s: seq<T>)
    ensures Without(s, {}) == s
  {
    if s != [] {
      WithoutNothing(s[1..]);
      assert s == [s[0]] + s[1..];
    }
  }

  /** Pulling one more value is removing one more element of the set. */
  lemma {:induction false} PullWithout<T>(s: seq<T>, xs: set<T>, x: T)
    ensures Pull(Without(s, xs), x) == Without(s, xs + {x})
  {
    if s != [] {
      PullWithout(s[1..], xs, x);
      if s[0] !in xs {
        var w := Without(s[1..], xs);
        assert ([s[0]] + w)[0] == s[0];
        assert ([s[0]] + w)[1..] == w;
      }
    }
  }

  /** The check-then-push-or-pull of the toggle routes: append `x` when it
      is absent, pull every occurrence when it is present. */
  function Toggle<T(==)>(s: seq<T>, x: T): (r: seq<T>)
    ensures x in r <==> x !in s
    ensures forall y :: y in r && y != x ==> y in s
    ensures forall y :: y in s && y != x ==> y in r
    ensures x !in s ==> r == s + [x]
  {
    if x in s then Pull(s, x) else s + [x]
  }

  /** Toggling twice restores the membership of every value. */
  lemma ToggleTwiceMembership<T>(s: seq<T>, x: T)
    ensures forall y :: y in Toggle(Toggle(s, x), x) <==> y in s
  {
  }

  /** Starting from absence, toggling twice restores the array exactly. */
  lemma ToggleTwiceFromAbsent<T>(s: seq<T>, x: T)
    requires x !in s
    ensures Toggle(Toggle(s, x), x) == s
  {
    PullAfterPush(s, x);
  }

  /** Starting from presence, toggling twice moves `x` to the end, once. */
  lemma ToggleTwiceFromPresent<T>(s: seq<T>, x: T)
    requires x in s
    ensures Toggle(Toggle(s, x), x) == Pull(s, x) + [x]
  {
  }
}
