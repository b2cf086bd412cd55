/** Least-recently-used order: which keys a bounded cache holds after a history of touches. */
module Recency {

  import opened Sequences

  datatype Key = Key(model: string, kind: string, text: string)

  function Without(xs: seq<Key>, k: Key): (r: seq<Key>)
    ensures k !in r && forall x :: x in r <==> x in xs && x != k
  {
    if xs == [] then []
    else Without(Front(xs), k) + if Last(xs) == k then [] else [Last(xs)]
  }

  /** The distinct keys of a history, the most recently touched last. */
  function Recent(history: seq<Key>): (r: seq<Key>)
    ensures forall x :: x in r <==> x in history
  {
    if history == [] then []
    else Without(Recent(Front(history)), Last(history)) + [Last(history)]
  }

  /** The last `n` elements. */
  function Newest(xs: seq<Key>, n: nat): seq<Key> {
    if |xs| <= n then xs else xs[|xs| - n..]
  }

  predicate Distinct(xs: seq<Key>) {
    forall i, j | 0 <= i < j < |xs| :: xs[i] != xs[j]
  }

  /** The keys touched after the last touch of `k`. */
  function Since(history: seq<Key>, k: Key): set<Key> {
    if history == [] || Last(history) == k then {} else Since(Front(history), k) + {Last(history)}
  }

  lemma DistinctParts(a: seq<Key>, b: seq<Key>)
    ensures Distinct(a + b) <==> Distinct(a) && Distinct(b) && forall x <- b :: x !in a
  {
    assert forall i | 0 <= i < |a| :: a[i] == (a + b)[i];
    assert forall i | 0 <= i < |b| :: b[i] == (a + b)[|a| + i];
    if Distinct(a) && Distinct(b) && forall x <- b :: x !in a {
      forall i, j | 0 <= i < j < |a + b|
        ensures (a + b)[i] != (a + b)[j]
      {
        assert j >= |a| ==> (a + b)[j] in b;
        assert i < |a| ==> (a + b)[i] in a;
      }
    }
  }

  lemma {:induction false} WithoutIsDistinct(xs: seq<Key>, k: Key)
    requires Distinct(xs)
    ensures Distinct(Without(xs, k))
    ensures |Without(xs, k)| == if k in xs then |xs| - 1 else |xs|
  {
    if xs != [] {
      hide Distinct;
      assert xs == Front(xs) + [Last(xs)];
      DistinctParts(Front(xs), [Last(xs)]);
      WithoutIsDistinct(Front(xs), k);
      DistinctParts(Without(Front(xs), k), [Last(xs)]);
    }
  }

  lemma {:induction false} RecentIsDistinct(history: seq<Key>)
    ensures Distinct(Recent(history))
  {
    if history != [] {
      RecentIsDistinct(Front(history));
      WithoutIsDistinct(Recent(Front(history)), Last(history));
    }
  }

  lemma {:induction false} WithoutOfConcat(a: seq<Key>, b: seq<Key>, k: Key)
    ensures Without(a + b, k) == Without(a, k) + Without(b, k)
  {
    if b == [] {
      assert a + b == a;
    } else {
      WithoutOfConcat(a, Front(b), k);
      assert Front(a + b) == a + Front(b) && Last(a + b) == Last(b);
      ConcatIsAssociative(Without(a, k), Without(Front(b), k), if Last(b) == k then [] else [Last(b)]);
    }
  }

  lemma NewestOfFew(xs: seq<Key>, n: nat)
    requires |xs| <= n
    ensures Newest(xs, n) == xs
  {}

  lemma NewestOfConcat(a: seq<Key>, b: seq<Key>, n: nat)
    requires |b| >= n
    ensures Newest(a + b, n) == Newest(b, n)
  {}

  lemma NewestAfterTouch(r: seq<Key>, n: nat, k: Key)
    requires n > 0 && Distinct(r)
    ensures Newest(Without(r, k) + [k], n) == Newest(Without(Newest(r, n), k) + [k], n)
  {
    hide Distinct, Newest, Without;
    if |r| > n {
      var older, kept := r[..|r| - n], r[|r| - n..];
      assert r == older + kept;
      DistinctParts(older, kept);
      WithoutOfConcat(older, kept, k);
      WithoutIsDistinct(kept, k);
      assert Without(r, k) + [k] == Without(older, k) + (Without(kept, k) + [k]);
      NewestOfConcat(Without(older, k), Without(kept, k) + [k], n);
      NewestOfConcat(older, kept, n);
      NewestOfFew(kept, n);
    } else {
      NewestOfFew(r, n);
    }
  }

  /** Forgetting all but the newest `n` keys loses nothing a later touch could bring back. */
  lemma TouchNewest(history: seq<Key>, n: nat, k: Key)
    requires n > 0
    ensures Newest(Recent(history + [k]), n) == Newest(Without(Newest(Recent(history), n), k) + [k], n)
  {
    hide Distinct, Newest, Without;
    assert Front(history + [k]) == history;
    RecentIsDistinct(history);
    NewestAfterTouch(Recent(history), n, k);
  }

  /** Touching a key that is held moves it to the end. */
  lemma TouchHeld(history: seq<Key>, n: nat, k: Key)
    requires n > 0 && k in Newest(Recent(history), n)
    ensures Newest(Recent(history + [k]), n) == Without(Newest(Recent(history), n), k) + [k]
  {
    hide Distinct, Newest, Without, Recent;
    TouchNewest(history, n, k);
    NewestIsDistinct(history, n);
    WithoutIsDistinct(Newest(Recent(history), n), k);
    NewestOfFew(Without(Newest(Recent(history), n), k) + [k], n);
  }

  lemma NewestIsDistinct(history: seq<Key>, n: nat)
    ensures Distinct(Newest(Recent(history), n)) && |Newest(Recent(history), n)| <= n
  {
    RecentIsDistinct(history);
  }

  /** In `a + [k] + b`, what `Without` leaves of `b` is still what stands behind `k`. */
  lemma WithoutBehind(a: seq<Key>, k: Key, b: seq<Key>, x: Key)
    requires x != k
    ensures Without(a + [k] + b, x) == Without(a, x) + [k] + Without(b, x)
  {
    WithoutOfConcat(a + [k], b, x);
    WithoutOfConcat(a, [k], x);
    assert Without([k], x) == [k] by {
      assert Front([k]) == [];
    }
  }

  /** The keys behind `k` in the recency order are those touched since `k`. */
  lemma {:induction false} BehindIsSince(history: seq<Key>, k: Key) returns (a: seq<Key>, b: seq<Key>)
    requires k in history
    ensures Recent(history) == a + [k] + b && Elements(b) == Since(history, k)
  {
    hide Without;
    var x := Last(history);
    if x == k {
      a, b := Without(Recent(Front(history)), x), [];
      assert a + [k] + [] == a + [k];
    } else {
      assert k in Front(history) by {
        assert history == Front(history) + [x];
      }
      var c, d := BehindIsSince(Front(history), k);
      WithoutBehind(c, k, d, x);
      a, b := Without(c, x), Without(d, x) + [x];
      assert a + [k] + b == Without(c, x) + [k] + Without(d, x) + [x];
    }
  }

  lemma {:induction false} SizeOfDistinct(xs: seq<Key>)
    requires Distinct(xs)
    ensures |Elements(xs)| == |xs|
  {
    if xs != [] {
      SizeOfDistinct(Front(xs));
      assert Elements(xs) == Elements(Front(xs)) + {Last(xs)};
    }
  }

  lemma NewestHoldsIff(a: seq<Key>, k: Key, b: seq<Key>, n: nat)
    requires k !in b
    ensures k in Newest(a + [k] + b, n) <==> |b| < n || |a + [k] + b| <= n
  {
    var all := a + [k] + b;
    assert all[|a|] == k;
    if |b| < n && |all| > n {
      assert Newest(all, n)[n - 1 - |b|] == all[|a|];
    } else if |b| >= n {
      NewestOfConcat(a + [k], b, n);
      assert forall x <- Newest(b, n) :: x in b;
    }
  }

  /** A bounded cache holds `k` exactly when `k` was touched and fewer than `n` other keys were since. */
  lemma HeldIffRecentlyTouched(history: seq<Key>, n: nat, k: Key)
    ensures k in Newest(Recent(history), n) <==> k in history && |Since(history, k)| < n
  {
    hide Since, Distinct, Newest;
    if k in history {
      var a, b := BehindIsSince(history, k);
      RecentIsDistinct(history);
      DistinctParts(a + [k], b);
      SizeOfDistinct(b);
      assert k in a + [k];
      NewestHoldsIff(a, k, b, n);
    } else {
      NewestIsPart(Recent(history), n);
    }
  }

  lemma NewestIsPart(xs: seq<Key>, n: nat)
    ensures forall x <- Newest(xs, n) :: x in xs
  {}
}
