/** The embedding client of TinyCTX/ai.py: one bounded cache shared by all callers, batches sent for
    the misses, and single retries for a batch that failed. */
module EmbedCache {
  import opened Arithmetic
  import opened Outcomes
  import opened Recency
  import opened Sequences

  type Vector = seq<real>

  /** What the API does in one call of `embed`.  A batch fails, or is answered by items in any order, each with
      the place it names; the item of a place has the vector of the text there, and that of a place beyond
      the batch some vector.  A single retry brings its vector or nothing. */
  datatype Api = Api(batch: nat -> Option<seq<nat>>, stray: (nat, nat) -> Vector, retry: nat -> bool)

  /** What a missing text is given: nothing, the vector of the missing text at a position, or a stray one. */
  datatype Source = Nothing | TextAt(position: nat) | Stray(batch: nat, place: nat)

  function KeysOf(model: string, kind: string, texts: seq<string>): seq<Key> {
    seq(|texts|, i requires 0 <= i < |texts| => Key(model, kind, texts[i]))
  }

  /** The positions that missed. */
  function MissesOf(results: seq<Option<Vector>>): (idx: seq<nat>)
    ensures forall m | 0 <= m < |idx| :: idx[m] < |results| && results[idx[m]].None?
  {
    if results == [] then []
    else MissesOf(Front(results)) + if Last(results).None? then [|results| - 1] else []
  }

  /** How many positions before `i` missed. */
  function Rank(results: seq<Option<Vector>>, i: nat): nat
    requires i <= |results|
  {
    |MissesOf(results[..i])|
  }

  lemma {:induction false} MissAtRank(results: seq<Option<Vector>>, i: nat)
    requires i < |results| && results[i].None?
    ensures Rank(results, i) < |MissesOf(results)| && MissesOf(results)[Rank(results, i)] == i
  {
    if i == |results| - 1 {
      assert results[..i] == Front(results);
    } else {
      MissAtRank(Front(results), i);
      assert Front(results)[..i] == results[..i];
    }
  }

  lemma {:induction false} MissesAscend(results: seq<Option<Vector>>)
    ensures forall m, n | 0 <= m < n < |MissesOf(results)| :: MissesOf(results)[m] < MissesOf(results)[n]
  {
    if results != [] {
      MissesAscend(Front(results));
    }
  }

  // ----- What a call gets -----

  predicate Ascends(places: seq<nat>) {
    forall i, j | 0 <= i < j < |places| :: places[i] <= places[j]
  }

  function Place(places: seq<nat>, p: nat): (r: seq<nat>)
    ensures multiset(r) == multiset(places) + multiset{p} && |r| == |places| + 1
  {
    if places == [] || p < places[0] then [p] + places
    else
      assert places == [places[0]] + places[1..];
      [places[0]] + Place(places[1..], p)
  }

  lemma {:induction false} PlaceAscends(places: seq<nat>, p: nat)
    requires Ascends(places)
    ensures Ascends(Place(places, p))
  {
    if places != [] && p >= places[0] {
      var rest := Place(places[1..], p);
      PlaceAscends(places[1..], p);
      forall i | 0 <= i < |rest|
        ensures places[0] <= rest[i]
      {
        assert rest[i] in multiset(rest);
      }
    }
  }

  /** `sorted(..., key=index)`. */
  function Sorted(places: seq<nat>): (r: seq<nat>)
    ensures multiset(r) == multiset(places) && |r| == |places|
  {
    if places == [] then []
    else
      assert places == Front(places) + [Last(places)];
      Place(Sorted(Front(places)), Last(places))
  }

  lemma {:induction false} SortedAscends(places: seq<nat>)
    ensures Ascends(Sorted(places))
  {
    if places != [] {
      SortedAscends(Front(places));
      PlaceAscends(Sorted(Front(places)), Last(places));
    }
  }

  /** The sorted answer begins with every place of the batch once. */
  predicate BeginsWithAll(places: seq<nat>, size: nat) {
    size <= |places| && forall i | 0 <= i < size :: Sorted(places)[i] == i
  }

  lemma {:induction false} PlacesOfPrefix(sorted: seq<nat>, size: nat, i: nat)
    requires Ascends(sorted) && size <= |sorted| && i <= size
    requires forall p | 0 <= p < size :: multiset(sorted)[p] == 1
    ensures forall j | 0 <= j < i :: sorted[j] == j
  {
    if i > 0 {
      PlacesOfPrefix(sorted, size, i - 1);
      var p := i - 1;
      assert p in multiset(sorted);
      var k :| 0 <= k < |sorted| && sorted[k] == p;
      if sorted[p] < p {
        var q := sorted[p];
        TwiceThere(sorted, q, p);
      }
    }
  }

  lemma TwiceThere(xs: seq<nat>, i: nat, j: nat)
    requires i < j < |xs| && xs[i] == xs[j]
    ensures multiset(xs)[xs[i]] >= 2
  {
    assert xs == xs[..j] + xs[j..];
    assert xs[..j][i] in multiset(xs[..j]) && xs[j..][0] in multiset(xs[j..]);
  }

  /** An answer as long as its batch is in place exactly when it names every place once. */
  lemma FullAnswerIsInPlaceIff(places: seq<nat>, size: nat)
    requires |places| == size
    ensures BeginsWithAll(places, size) <==> forall p | 0 <= p < size :: multiset(places)[p] == 1
  {
    var sorted := Sorted(places);
    SortedAscends(places);
    if forall p | 0 <= p < size :: multiset(places)[p] == 1 {
      PlacesOfPrefix(sorted, size, size);
    }
    if BeginsWithAll(places, size) {
      forall p | 0 <= p < size
        ensures multiset(places)[p] == 1
      {
        OnceIn(sorted, p);
      }
    }
  }

  lemma OnceIn(xs: seq<nat>, p: nat)
    requires p < |xs| && forall i | 0 <= i < |xs| :: xs[i] == i
    ensures multiset(xs)[p] == 1
  {
    assert xs == xs[..p] + [xs[p]] + xs[p + 1..];
    assert p !in xs[..p] && p !in xs[p + 1..];
  }

  function End(from: nat, batchSize: nat, n: nat): nat {
    if from + batchSize < n then from + batchSize else n
  }

  /** From the batch that starts at `from` on: every answer begins with each place of its batch once, and none but
      the last is longer than its batch. */
  predicate IsInPlace(api: Api, n: nat, batchSize: nat, from: nat, batch: nat)
    requires batchSize > 0
    decreases n - from
  {
    from >= n
    || (var to := End(from, batchSize, n);
        (api.batch(batch).Some? ==>
           BeginsWithAll(api.batch(batch).value, to - from) && (to < n ==> |api.batch(batch).value| == to - from))
        && IsInPlace(api, n, batchSize, to, batch + 1))
  }

  /** What one batch brings: the sorted answer as it is, or one retry per text if the call failed. */
  function Brought(from: nat, to: nat, batch: nat, api: Api): (r: seq<Source>)
    requires from <= to
    ensures forall s <- r :: s.TextAt? ==> from <= s.position < to
  {
    match api.batch(batch)
    case None =>
      seq(to - from, j requires 0 <= j < to - from => if api.retry(from + j) then TextAt(from + j) else Nothing)
    case Some(places) =>
      var sorted := Sorted(places);
      seq(|sorted|, j requires 0 <= j < |sorted| =>
        if sorted[j] < to - from then TextAt(from + sorted[j]) else Stray(batch, sorted[j]))
  }

  /** What the batches bring, one after the other. */
  function Sources(n: nat, batchSize: nat, api: Api, from: nat, batch: nat): (r: seq<Source>)
    requires batchSize > 0
    ensures forall s <- r :: s.TextAt? ==> from <= s.position < n
    decreases n - from
  {
    if from >= n then []
    else
      var to := End(from, batchSize, n);
      Brought(from, to, batch, api) + Sources(n, batchSize, api, to, batch + 1)
  }

  /** `zip`: the `m`-th missing text is given the `m`-th source, as long as there is one. */
  function Given(sources: seq<Source>, m: nat): Source {
    if m < |sources| then sources[m] else Nothing
  }

  /** Whether the `m`-th missing text should get its vector: its batch or else its own retry succeeds. */
  predicate Succeeds(api: Api, batchSize: nat, m: nat)
    requires batchSize > 0
  {
    api.batch(m / batchSize).Some? || api.retry(m)
  }

  function Promised(api: Api, batchSize: nat, m: nat): Source
    requires batchSize > 0
  {
    if Succeeds(api, batchSize, m) then TextAt(m) else Nothing
  }

  predicate GetsItsOwn(sources: seq<Source>, api: Api, batchSize: nat, from: nat, m: nat)
    requires batchSize > 0 && from <= m
  {
    Given(sources, m - from) == Promised(api, batchSize, m)
  }

  predicate IsRight(sources: seq<Source>, api: Api, batchSize: nat, from: nat, to: nat)
    requires batchSize > 0
  {
    forall m | from <= m < to :: GetsItsOwn(sources, api, batchSize, from, m)
  }

  lemma BatchOf(batch: nat, batchSize: nat, m: nat)
    requires batchSize > 0 && batch * batchSize <= m < batch * batchSize + batchSize
    ensures m / batchSize == batch
  {
    var q := m / batchSize;
    assert q * batchSize <= m < q * batchSize + batchSize;
    if q < batch {
      ProductGrows(q + 1, batchSize, batch, batchSize);
    } else if q > batch {
      ProductGrows(batch + 1, batchSize, q, batchSize);
    }
  }

  lemma PromisedInBatch(api: Api, batchSize: nat, batch: nat, m: nat)
    requires batchSize > 0 && batch * batchSize <= m < batch * batchSize + batchSize
    ensures Promised(api, batchSize, m) == if api.batch(batch).Some? || api.retry(m) then TextAt(m) else Nothing
  {
    BatchOf(batch, batchSize, m);
  }

  lemma FailedBatchIsRight(api: Api, batchSize: nat, from: nat, to: nat, batch: nat, rest: seq<Source>)
    requires batchSize > 0 && from == batch * batchSize && from < to <= from + batchSize && api.batch(batch).None?
    ensures IsRight(Brought(from, to, batch, api) + rest, api, batchSize, from, to)
  {
    hide Promised;
    forall m | from <= m < to
      ensures GetsItsOwn(Brought(from, to, batch, api) + rest, api, batchSize, from, m)
    {
      PromisedInBatch(api, batchSize, batch, m);
    }
  }

  lemma AnswerInPlaceIsRight(api: Api, batchSize: nat, from: nat, to: nat, batch: nat, rest: seq<Source>)
    requires batchSize > 0 && from == batch * batchSize && from < to <= from + batchSize && api.batch(batch).Some?
    requires BeginsWithAll(api.batch(batch).value, to - from)
    ensures IsRight(Brought(from, to, batch, api) + rest, api, batchSize, from, to)
  {
    hide Promised, Sorted;
    forall m | from <= m < to
      ensures GetsItsOwn(Brought(from, to, batch, api) + rest, api, batchSize, from, m)
    {
      PromisedInBatch(api, batchSize, batch, m);
      assert Sorted(api.batch(batch).value)[m - from] == m - from;
    }
  }

  /** A short answer is never made up for: what comes next belongs to later texts. */
  lemma ShortAnswerIsWrong(api: Api, batchSize: nat, from: nat, to: nat, batch: nat, rest: seq<Source>)
    requires batchSize > 0 && from == batch * batchSize && from < to <= from + batchSize && api.batch(batch).Some?
    requires |api.batch(batch).value| < to - from && forall s <- rest :: s.TextAt? ==> to <= s.position
    ensures !GetsItsOwn(Brought(from, to, batch, api) + rest, api, batchSize, from, from + |api.batch(batch).value|)
  {
    hide Promised, Sorted;
    PromisedInBatch(api, batchSize, batch, from + |api.batch(batch).value|);
    var all := Brought(from, to, batch, api) + rest;
    assert rest != [] ==> all[|api.batch(batch).value|] == rest[0] && rest[0] in rest;
  }

  lemma RightAnswerIsInPlace(api: Api, batchSize: nat, from: nat, to: nat, batch: nat, rest: seq<Source>)
    requires batchSize > 0 && from == batch * batchSize && from < to <= from + batchSize && api.batch(batch).Some?
    requires |api.batch(batch).value| >= to - from
    requires IsRight(Brought(from, to, batch, api) + rest, api, batchSize, from, to)
    ensures BeginsWithAll(api.batch(batch).value, to - from)
  {
    hide Promised, Sorted;
    var all := Brought(from, to, batch, api) + rest;
    forall i | 0 <= i < to - from
      ensures Sorted(api.batch(batch).value)[i] == i
    {
      PromisedInBatch(api, batchSize, batch, from + i);
      assert GetsItsOwn(all, api, batchSize, from, from + i);
    }
  }

  /** The texts of one batch are given what they should, whatever comes after it, exactly when the batch failed or
      its answer begins with each of its places once. */
  lemma BatchIsRightIff(api: Api, batchSize: nat, from: nat, to: nat, batch: nat, rest: seq<Source>)
    requires batchSize > 0 && from == batch * batchSize && from < to <= from + batchSize
    requires forall s <- rest :: s.TextAt? ==> to <= s.position
    ensures IsRight(Brought(from, to, batch, api) + rest, api, batchSize, from, to) <==>
              (api.batch(batch).Some? ==> BeginsWithAll(api.batch(batch).value, to - from))
  {
    hide GetsItsOwn, Sorted, Brought;
    if api.batch(batch).None? {
      FailedBatchIsRight(api, batchSize, from, to, batch, rest);
    } else if |api.batch(batch).value| < to - from {
      ShortAnswerIsWrong(api, batchSize, from, to, batch, rest);
    } else if BeginsWithAll(api.batch(batch).value, to - from) {
      AnswerInPlaceIsRight(api, batchSize, from, to, batch, rest);
    } else if IsRight(Brought(from, to, batch, api) + rest, api, batchSize, from, to) {
      RightAnswerIsInPlace(api, batchSize, from, to, batch, rest);
    }
  }

  /** A batch that is answered by more items than it has texts spoils the next one. */
  lemma LongAnswerIsWrong(api: Api, batchSize: nat, from: nat, to: nat, batch: nat, rest: seq<Source>)
    requires batchSize > 0 && from < to && |Brought(from, to, batch, api)| > to - from
    ensures !GetsItsOwn(Brought(from, to, batch, api) + rest, api, batchSize, from, to)
  {
    var brought := Brought(from, to, batch, api);
    assert Given(brought + rest, to - from) == brought[to - from] && brought[to - from] in brought;
    assert brought[to - from] != Nothing;
  }

  lemma LaterBatchesAreRightIff(api: Api, n: nat, batchSize: nat, from: nat, to: nat,
                                brought: seq<Source>, rest: seq<Source>)
    requires batchSize > 0 && from <= to <= n && |brought| == to - from
    ensures IsRight(brought + rest, api, batchSize, from, n) <==>
              IsRight(brought + rest, api, batchSize, from, to) && IsRight(rest, api, batchSize, to, n)
  {
    hide Promised;
    forall m: nat | to <= m
      ensures GetsItsOwn(brought + rest, api, batchSize, from, m) == GetsItsOwn(rest, api, batchSize, to, m)
    {
      assert Given(brought + rest, m - from) == Given(rest, m - to);
    }
    hide GetsItsOwn;
  }

  lemma {:induction false} SourcesFromAreRightIff(api: Api, n: nat, batchSize: nat, from: nat, batch: nat)
    requires batchSize > 0 && from <= n && (from < n ==> from == batch * batchSize)
    ensures IsRight(Sources(n, batchSize, api, from, batch), api, batchSize, from, n) <==>
              IsInPlace(api, n, batchSize, from, batch)
    decreases n - from
  {
    hide GetsItsOwn, BeginsWithAll, Brought, IsRight;
    if from == n {
      NoneIsRight(api, batchSize, n);
    } else {
      var to := End(from, batchSize, n);
      var brought, rest := Brought(from, to, batch, api), Sources(n, batchSize, api, to, batch + 1);
      assert to < n ==> to == (batch + 1) * batchSize;
      SourcesFromAreRightIff(api, n, batchSize, to, batch + 1);
      BatchIsRightIff(api, batchSize, from, to, batch, rest);
      BroughtLength(from, to, batch, api);
      if |brought| == to - from {
        LaterBatchesAreRightIff(api, n, batchSize, from, to, brought, rest);
      } else if |brought| > to - from && to < n {
        LongAnswerIsWrong(api, batchSize, from, to, batch, rest);
        OneIsWrong(brought + rest, api, batchSize, from, to, n);
      } else {
        RightThroughout(brought + rest, api, batchSize, from, to, n);
      }
    }
  }

  lemma NoneIsRight(api: Api, batchSize: nat, n: nat)
    requires batchSize > 0
    ensures forall sources :: IsRight(sources, api, batchSize, n, n)
  {}

  lemma BroughtLength(from: nat, to: nat, batch: nat, api: Api)
    requires from <= to
    ensures |Brought(from, to, batch, api)|
         == if api.batch(batch).Some? then |api.batch(batch).value| else to - from
    ensures api.batch(batch).Some? && BeginsWithAll(api.batch(batch).value, to - from) ==>
              |api.batch(batch).value| >= to - from
  {}

  lemma OneIsWrong(sources: seq<Source>, api: Api, batchSize: nat, from: nat, m: nat, n: nat)
    requires batchSize > 0 && from <= m < n && !GetsItsOwn(sources, api, batchSize, from, m)
    ensures !IsRight(sources, api, batchSize, from, n)
  {}

  lemma RightThroughout(sources: seq<Source>, api: Api, batchSize: nat, from: nat, to: nat, n: nat)
    requires batchSize > 0 && to <= n
    ensures IsRight(sources, api, batchSize, from, n) ==> IsRight(sources, api, batchSize, from, to)
  {}

  /** Every text is given its own vector, or nothing where its batch and retry failed, exactly when each answer names
      each place of its batch before any other item, once, and none but the last has items to spare; a condition
      on what a call returns. */
  lemma SourcesAreRightIff(api: Api, n: nat, batchSize: nat)
    requires batchSize > 0
    ensures IsRight(Sources(n, batchSize, api, 0, 0), api, batchSize, 0, n) <==> IsInPlace(api, n, batchSize, 0, 0)
  {
    hide IsRight, IsInPlace, Sources;
    SourcesFromAreRightIff(api, n, batchSize, 0, 0);
  }

  function VectorOf(keys: seq<Key>, api: Api, embedding: Key -> Vector, s: Source): Option<Vector>
    requires s.TextAt? ==> s.position < |keys|
  {
    match s
    case Nothing => None
    case TextAt(m) => Some(embedding(keys[m]))
    case Stray(batch, place) => Some(api.stray(batch, place))
  }

  function VectorsOf(keys: seq<Key>, api: Api, embedding: Key -> Vector, sources: seq<Source>): seq<Option<Vector>>
    requires forall s <- sources :: s.TextAt? ==> s.position < |keys|
  {
    seq(|sources|, j requires 0 <= j < |sources| => VectorOf(keys, api, embedding, sources[j]))
  }

  /** The vectors that the batches bring. */
  function Fetched(keys: seq<Key>, batchSize: nat, api: Api, embedding: Key -> Vector): seq<Option<Vector>>
    requires batchSize > 0
  {
    VectorsOf(keys, api, embedding, Sources(|keys|, batchSize, api, 0, 0))
  }

  /** If all is in place each text gets the vector of its own key. */
  lemma FetchedIsRight(keys: seq<Key>, batchSize: nat, api: Api, embedding: Key -> Vector)
    requires batchSize > 0 && IsInPlace(api, |keys|, batchSize, 0, 0)
    ensures var fetched := Fetched(keys, batchSize, api, embedding);
            forall m | 0 <= m < |keys| ::
              (if m < |fetched| then fetched[m] else None)
              == if Succeeds(api, batchSize, m) then Some(embedding(keys[m])) else None
  {
    hide IsInPlace, Succeeds, Sources, IsRight;
    SourcesAreRightIff(api, |keys|, batchSize);
    var sources := Sources(|keys|, batchSize, api, 0, 0);
    var fetched := Fetched(keys, batchSize, api, embedding);
    forall m | 0 <= m < |keys|
      ensures (if m < |fetched| then fetched[m] else None)
           == if Succeeds(api, batchSize, m) then Some(embedding(keys[m])) else None
    {
      RightAt(sources, api, batchSize, |keys|, m);
      assert m < |fetched| ==> fetched[m] == VectorOf(keys, api, embedding, sources[m]);
    }
  }

  lemma RightAt(sources: seq<Source>, api: Api, batchSize: nat, n: nat, m: nat)
    requires batchSize > 0 && IsRight(sources, api, batchSize, 0, n) && m < n
    ensures Given(sources, m) == Promised(api, batchSize, m)
  {
    assert GetsItsOwn(sources, api, batchSize, 0, m);
  }

  lemma VectorsOfConcat(keys: seq<Key>, api: Api, embedding: Key -> Vector, a: seq<Source>, b: seq<Source>)
    requires forall s <- a + b :: s.TextAt? ==> s.position < |keys|
    requires (forall s <- a :: s in a + b) && forall s <- b :: s in a + b
    ensures VectorsOf(keys, api, embedding, a + b)
         == VectorsOf(keys, api, embedding, a) + VectorsOf(keys, api, embedding, b)
  {
    hide VectorOf;
  }

  class Cache {
    /** The vector the model gives for a key, its text wrapped in the kind's template. */
    const embedding: Key -> Vector
    /** `_embed_cache_max`. */
    const capacity: nat
    /** The keys, least recently used first, and their vectors. */
    var order: seq<Key>
    var vectors: map<Key, Vector>
    /** Every key stored or found, in time order. */
    ghost var touched: seq<Key>

    ghost predicate Valid()
      reads this
    {
      capacity > 0
      && order == Newest(Recent(touched), capacity)
      && vectors.Keys == Elements(order)
    }

    /** Every vector is that of its key. */
    ghost predicate IsTrue()
      reads this
    {
      forall k <- vectors :: vectors[k] == embedding(k)
    }

    /** `configure_embed_cache(n)`. */
    constructor (n: int, embedding: Key -> Vector)
      ensures Valid() && touched == [] && vectors == map[] && this.embedding == embedding
      ensures capacity == if n > 1 then n else 1
    {
      this.embedding, capacity := embedding, if n > 1 then n else 1;
      order, vectors, touched := [], map[], [];
    }

    /** `move_to_end`. */
    method MoveToEnd(k: Key)
      requires Valid() && k in vectors
      modifies this`order, this`touched
      ensures Valid() && touched == old(touched) + [k]
    {
      hide Newest, Recent, Without, Elements;
      TouchKeepsElements(order, k);
      TouchHeld(touched, capacity, k);
      order := Without(order, k) + [k];
      touched := touched + [k];
    }

    /** A hit is marked as recently used. */
    method Find(k: Key) returns (v: Option<Vector>)
      requires Valid()
      modifies this`order, this`touched
      ensures Valid()
      ensures v == if k in vectors then Some(vectors[k]) else None
      ensures touched == old(touched) + if k in vectors then [k] else []
    {
      hide Newest, Recent, Elements;
      if k !in vectors {
        return None;
      }
      MoveToEnd(k);
      v := Some(vectors[k]);
    }

    /** Evict the oldest while there are too many. */
    method Evict()
      requires vectors.Keys == Elements(order) && Distinct(order)
      modifies this`order, this`vectors
      ensures order == Newest(old(order), capacity) && vectors.Keys == Elements(order)
      ensures forall x <- vectors :: x in old(vectors) && vectors[x] == old(vectors)[x]
    {
      hide Newest, Recent, Distinct;
      while |order| > capacity
        invariant Newest(order, capacity) == Newest(old(order), capacity)
        invariant vectors.Keys == Elements(order) && Distinct(order)
        invariant forall x <- vectors :: x in old(vectors) && vectors[x] == old(vectors)[x]
      {
        assert order == [order[0]] + order[1..];
        DistinctParts([order[0]], order[1..]);
        NewestOfConcat([order[0]], order[1..], capacity);
        vectors := vectors - {order[0]};
        order := order[1..];
      }
      NewestOfFew(order, capacity);
    }

    /** Store, mark as recently used, and evict. */
    method Store(k: Key, v: Vector)
      requires Valid()
      modifies this
      ensures Valid() && touched == old(touched) + [k]
      ensures forall x <- vectors ::
                if x == k then vectors[x] == v else x in old(vectors) && vectors[x] == old(vectors)[x]
    {
      hide Newest, Recent, Distinct;
      TouchNewest(touched, capacity, k);
      NewestIsDistinct(touched, capacity);
      WithoutIsDistinct(order, k);
      DistinctParts(Without(order, k), [k]);
      Single(k);
      vectors := vectors[k := v];
      order := Without(order, k) + [k];
      touched := touched + [k];
      Evict();
    }

    /** The cache is checked for every text before anything is awaited. */
    method LookUp(keys: seq<Key>) returns (results: seq<Option<Vector>>)
      requires Valid()
      modifies this
      ensures Valid() && vectors == old(vectors)
      ensures results == Lookups(keys, old(vectors))
      ensures touched == old(touched) + Held(keys, old(vectors.Keys))
    {
      hide Newest, Recent;
      results := [];
      for i := 0 to |keys|
        invariant Valid() && vectors == old(vectors) && |results| == i
        invariant forall j | 0 <= j < i :: results[j] == if keys[j] in vectors then Some(vectors[keys[j]]) else None
        invariant touched == old(touched) + Held(keys[..i], vectors.Keys)
      {
        assert Front(keys[..i + 1]) == keys[..i];
        var v := Find(keys[i]);
        results := results + [v];
      }
      assert keys[..|keys|] == keys;
    }

    /** Whatever other callers do while this one waits for the API; what they store is right or not. */
    method Others(right: bool) returns (ghost touches: seq<Key>)
      requires Valid()
      modifies this
      ensures Valid() && touched == old(touched) + touches
      ensures right && old(IsTrue()) ==> IsTrue()
    {
      hide Newest, Recent;
      touches := [];
      var steps: nat :| true;
      for i := 0 to steps
        invariant Valid() && touched == old(touched) + touches
        invariant right && old(IsTrue()) ==> IsTrue()
      {
        var k: Key := *;
        ghost var before := touched;
        if * {
          var _ := Find(k);
        } else {
          var v: Vector := *;
          Store(k, if right then embedding(k) else v);
        }
        touches := touches + touched[|before|..];
      }
    }

    /** One call, and one retry per text when it fails. */
    method CallBatch(keys: seq<Key>, from: nat, to: nat, batch: nat, api: Api) returns (answers: seq<Option<Vector>>)
      requires from <= to <= |keys|
      ensures answers == VectorsOf(keys, api, embedding, Brought(from, to, batch, api))
    {
      hide Sorted;
      match api.batch(batch) {
        case Some(places) =>
          var sorted := Sorted(places);
          answers := seq(|sorted|, j requires 0 <= j < |sorted| =>
            Some(if sorted[j] < to - from then embedding(keys[from + sorted[j]]) else api.stray(batch, sorted[j])));
        case None =>
          answers := seq(to - from, j requires 0 <= j < to - from =>
            if api.retry(from + j) then Some(embedding(keys[from + j])) else None);
      }
    }

    /** `_run`: the batches one after the other. */
    method Run(keys: seq<Key>, batchSize: nat, api: Api) returns (computed: seq<Option<Vector>>)
      requires batchSize > 0
      ensures computed == Fetched(keys, batchSize, api, embedding)
    {
      hide Brought, VectorsOf, Sources;
      computed := [];
      var from, batch := 0, 0;
      ghost var sources: seq<Source> := [];
      NoVectors(keys, api, embedding);
      while from < |keys|
        invariant from <= |keys|
        invariant forall s <- sources :: s.TextAt? ==> s.position < |keys|
        invariant computed == VectorsOf(keys, api, embedding, sources)
        invariant sources + Sources(|keys|, batchSize, api, from, batch) == Sources(|keys|, batchSize, api, 0, 0)
        decreases |keys| - from
      {
        var to := if from + batchSize < |keys| then from + batchSize else |keys|;
        var answers := CallBatch(keys, from, to, batch, api);
        ghost var brought := Brought(from, to, batch, api);
        OneMoreBatch(|keys|, batchSize, api, from, batch);
        ConcatIsAssociative(sources, brought, Sources(|keys|, batchSize, api, to, batch + 1));
        VectorsOfConcat(keys, api, embedding, sources, brought);
        computed, sources := computed + answers, sources + brought;
        from, batch := to, batch + 1;
      }
      NoBatchLeft(|keys|, batchSize, api, from, batch);
      assert sources + [] == sources;
    }

    /** `zip`: the computed vectors go to the missed positions, in order, and into the cache. */
    method Record(keys: seq<Key>, found: seq<Option<Vector>>, computed: seq<Option<Vector>>)
      returns (results: seq<Option<Vector>>)
      requires Valid() && |keys| == |found|
      modifies this
      ensures Valid() && |results| == |keys|
      ensures forall i | 0 <= i < |keys| && found[i].Some? :: results[i] == found[i]
      ensures forall m | 0 <= m < |MissesOf(found)| ::
                results[MissesOf(found)[m]] == if m < |computed| then computed[m] else None
      ensures var n := Shorter(|MissesOf(found)|, |computed|);
              touched == old(touched) + Computed(keys, MissesOf(found)[..n], computed[..n])
              && Accounted(old(vectors), vectors, keys, MissesOf(found), computed[..n])
    {
      hide Newest, Recent, Elements, MissesOf, Accounted, Computed;
      NothingToAccount(vectors, keys, MissesOf(found));
      NothingComputed(keys);
      var idx := MissesOf(found);
      MissesAscend(found);
      results := found;
      for m := 0 to Shorter(|idx|, |computed|)
        invariant Valid() && |results| == |keys|
        invariant forall i | 0 <= i < |keys| && found[i].Some? :: results[i] == found[i]
        invariant forall n | 0 <= n < |idx| :: results[idx[n]] == if n < m then computed[n] else None
        invariant touched == old(touched) + Computed(keys, idx[..m], computed[..m])
        invariant Accounted(old(vectors), vectors, keys, idx, computed[..m])
      {
        OneMoreComputed(keys, idx, computed, m);
        results := results[idx[m] := computed[m]];
        ghost var before := vectors;
        if computed[m].Some? {
          Store(keys[idx[m]], computed[m].value);
        }
        OneMoreAccounted(old(vectors), before, vectors, keys, idx, computed, m);
      }
    }

    /** `embed`: a hit gets its stored vector, the misses share out what was fetched, in order, and nothing that
        failed is cached.  If all answers are in place and the cache is right, each text gets its own vector, or
        nothing when it missed, its batch failed and its own retry failed; and the cache stays right. */
    method Embed(model: string, kind: string, texts: seq<string>, batchSize: nat, api: Api, right: bool)
      returns (results: seq<Option<Vector>>, ghost others: seq<Key>, ghost held: map<Key, Vector>)
      requires Valid() && batchSize > 0
      modifies this
      ensures Valid() && |results| == |texts|
      ensures var keys := KeysOf(model, kind, texts);
              var found := Lookups(keys, old(vectors));
              var fetched := Fetched(At(keys, MissesOf(found)), batchSize, api, embedding);
              var used := fetched[..Shorter(|MissesOf(found)|, |fetched|)];
              (forall i | 0 <= i < |texts| :: results[i] == Shared(found, fetched, i))
              && (forall i | 0 <= i < |texts| && Key(model, kind, texts[i]) in old(vectors) ::
                    results[i] == Some(old(vectors)[Key(model, kind, texts[i])]))
              && (MissesOf(found) == [] ==> others == [])
              && Accounted(held, vectors, keys, MissesOf(found), used)
              && touched == old(touched) + Held(keys, old(vectors.Keys)) + others
                         + Computed(keys, MissesOf(found)[..|used|], used)
              && (right && old(IsTrue()) && IsInPlace(api, |MissesOf(found)|, batchSize, 0, 0) ==>
                    IsTrue()
                    && forall i | 0 <= i < |texts| ::
                         results[i] == if Key(model, kind, texts[i]) in old(vectors)
                                          || Succeeds(api, batchSize, Rank(found, i))
                                       then Some(embedding(Key(model, kind, texts[i]))) else None)
    {
      hide Newest, Recent, MissesOf, Held, Computed, Fetched, IsInPlace, Succeeds;
      var keys := KeysOf(model, kind, texts);
      var found := LookUp(keys);
      var idx := MissesOf(found);
      if idx == [] {
        NothingComputed(keys);
        others, results, held := [], found, vectors;
        NothingMissed(found);
        NothingToAccount(vectors, keys, idx);
        return;
      }
      others := Others(right);
      held := vectors;
      var computed := Run(At(keys, idx), batchSize, api);
      results := Record(keys, found, computed);
      forall i | 0 <= i < |keys| && found[i].None?
        ensures Rank(found, i) < |idx| && idx[Rank(found, i)] == i
      {
        MissAtRank(found, i);
      }
      if right && old(IsTrue()) && IsInPlace(api, |idx|, batchSize, 0, 0) {
        FetchedIsRight(At(keys, idx), batchSize, api, embedding);
        ghost var used := computed[..Shorter(|idx|, |computed|)];
        assert forall m | 0 <= m < |used| :: used[m].Some? ==> used[m].value == embedding(At(keys, idx)[m]);
        forall k: Key
          ensures Latest(keys, idx, used, k).Some? ==> Latest(keys, idx, used, k).value == embedding(k)
        {
          LatestIsRight(keys, idx, used, k, embedding);
        }
      }
    }
  }

  function Shorter(a: nat, b: nat): nat {
    if a < b then a else b
  }

  lemma OneMoreBatch(n: nat, batchSize: nat, api: Api, from: nat, batch: nat)
    requires batchSize > 0 && from < n
    ensures var to := if from + batchSize < n then from + batchSize else n;
            Sources(n, batchSize, api, from, batch)
            == Brought(from, to, batch, api) + Sources(n, batchSize, api, to, batch + 1)
  {
    hide Brought;
  }

  lemma NoVectors(keys: seq<Key>, api: Api, embedding: Key -> Vector)
    ensures VectorsOf(keys, api, embedding, []) == []
  {}

  lemma NoBatchLeft(n: nat, batchSize: nat, api: Api, from: nat, batch: nat)
    requires batchSize > 0 && from >= n
    ensures Sources(n, batchSize, api, from, batch) == []
  {}

  /** The last vector computed for a key. */
  function Latest(keys: seq<Key>, idx: seq<nat>, computed: seq<Option<Vector>>, k: Key): Option<Vector>
    requires |computed| <= |idx| && forall m | 0 <= m < |idx| :: idx[m] < |keys|
  {
    if computed == [] then None
    else if Last(computed).Some? && keys[idx[|computed| - 1]] == k then Last(computed)
    else Latest(keys, idx, Front(computed), k)
  }

  /** What is held now was computed last, or was held before. */
  predicate Accounted(before: map<Key, Vector>, after: map<Key, Vector>,
                      keys: seq<Key>, idx: seq<nat>, computed: seq<Option<Vector>>)
    requires |computed| <= |idx| && forall m | 0 <= m < |idx| :: idx[m] < |keys|
  {
    forall k <- after ::
      match Latest(keys, idx, computed, k)
      case Some(v) => after[k] == v
      case None => k in before && after[k] == before[k]
  }

  lemma NothingToAccount(vectors: map<Key, Vector>, keys: seq<Key>, idx: seq<nat>)
    requires forall m | 0 <= m < |idx| :: idx[m] < |keys|
    ensures Accounted(vectors, vectors, keys, idx, [])
  {}

  lemma OneMoreAccounted(before: map<Key, Vector>, now: map<Key, Vector>, after: map<Key, Vector>,
                         keys: seq<Key>, idx: seq<nat>, computed: seq<Option<Vector>>, m: nat)
    requires m < |computed| && m < |idx| && forall m | 0 <= m < |idx| :: idx[m] < |keys|
    requires Accounted(before, now, keys, idx, computed[..m])
    requires if computed[m].None? then after == now
             else forall x <- after :: if x == keys[idx[m]] then after[x] == computed[m].value
                                       else x in now && after[x] == now[x]
    ensures Accounted(before, after, keys, idx, computed[..m + 1])
  {
    assert Front(computed[..m + 1]) == computed[..m];
  }

  lemma {:induction false} LatestIsRight(keys: seq<Key>, idx: seq<nat>, computed: seq<Option<Vector>>, k: Key,
                                         embedding: Key -> Vector)
    requires |computed| <= |idx| && forall m | 0 <= m < |idx| :: idx[m] < |keys|
    requires forall m | 0 <= m < |computed| && computed[m].Some? :: computed[m].value == embedding(keys[idx[m]])
    ensures Latest(keys, idx, computed, k).Some? ==> Latest(keys, idx, computed, k).value == embedding(k)
  {
    if computed != [] {
      LatestIsRight(keys, idx, Front(computed), k, embedding);
    }
  }

  /** What position `i` gets: what was found, or the next of what was fetched, as long as there is any. */
  function Shared(found: seq<Option<Vector>>, fetched: seq<Option<Vector>>, i: nat): Option<Vector>
    requires i < |found|
  {
    if found[i].Some? then found[i]
    else if Rank(found, i) < |fetched| then fetched[Rank(found, i)]
    else None
  }

  lemma NothingMissed(found: seq<Option<Vector>>)
    requires MissesOf(found) == []
    ensures forall i | 0 <= i < |found| :: found[i].Some?
  {
    forall i | 0 <= i < |found|
      ensures found[i].Some?
    {
      if found[i].None? {
        MissAtRank(found, i);
      }
    }
  }

  function At(keys: seq<Key>, idx: seq<nat>): seq<Key>
    requires forall m | 0 <= m < |idx| :: idx[m] < |keys|
  {
    seq(|idx|, m requires 0 <= m < |idx| => keys[idx[m]])
  }

  /** The keys that are held. */
  function Held(keys: seq<Key>, held: set<Key>): seq<Key> {
    if keys == [] then [] else Held(Front(keys), held) + if Last(keys) in held then [Last(keys)] else []
  }

  /** The positions below `n` that are marked, in order. */
  function Where(n: nat, marked: nat -> bool): (at: seq<nat>)
    ensures forall i: nat :: i in at <==> i < n && marked(i)
    ensures forall j, l | 0 <= j < l < |at| :: at[j] < at[l]
    ensures forall j | 0 <= j < |at| :: at[j] < n
  {
    if n == 0 then [] else Where(n - 1, marked) + if marked(n - 1) then [n - 1] else []
  }

  lemma {:induction false} HeldUpTo(keys: seq<Key>, held: set<Key>, marked: nat -> bool, n: nat)
    requires n <= |keys| && forall i | 0 <= i < |keys| :: marked(i) <==> keys[i] in held
    ensures Held(keys[..n], held) == At(keys, Where(n, marked))
  {
    if n > 0 {
      HeldUpTo(keys, held, marked, n - 1);
      assert Front(keys[..n]) == keys[..n - 1];
      AtOneMore(keys, Where(n - 1, marked), n - 1);
    }
  }

  lemma AtOneMore(keys: seq<Key>, at: seq<nat>, i: nat)
    requires i < |keys| && forall j | 0 <= j < |at| :: at[j] < |keys|
    ensures At(keys, at + [i]) == At(keys, at) + [keys[i]] && At(keys, at + []) == At(keys, at)
  {}

  /** Every hit is touched once, in the order of the texts, and nothing else. */
  lemma HitsAreTouched(keys: seq<Key>, held: set<Key>) returns (at: seq<nat>)
    ensures forall i: nat :: i in at <==> i < |keys| && keys[i] in held
    ensures forall j, l | 0 <= j < l < |at| :: at[j] < at[l]
    ensures (forall j | 0 <= j < |at| :: at[j] < |keys|) && Held(keys, held) == At(keys, at)
  {
    var marked := (i: nat) => i < |keys| && keys[i] in held;
    HeldUpTo(keys, held, marked, |keys|);
    assert keys[..|keys|] == keys;
    at := Where(|keys|, marked);
  }

  lemma {:induction false} ComputedUpTo(keys: seq<Key>, idx: seq<nat>, computed: seq<Option<Vector>>,
                                        marked: nat -> bool, n: nat)
    requires n <= |idx| == |computed| && forall m | 0 <= m < |idx| :: idx[m] < |keys|
    requires forall m | 0 <= m < |idx| :: marked(m) <==> computed[m].Some?
    ensures Computed(keys, idx[..n], computed[..n]) == At(At(keys, idx), Where(n, marked))
  {
    if n > 0 {
      ComputedUpTo(keys, idx, computed, marked, n - 1);
      OneMoreComputed(keys, idx, computed, n - 1);
      hide Computed;
      AtOneMore(At(keys, idx), Where(n - 1, marked), n - 1);
    }
  }

  /** And so is every miss that was given a vector. */
  lemma ComputedAreTouched(keys: seq<Key>, idx: seq<nat>, computed: seq<Option<Vector>>) returns (at: seq<nat>)
    requires |idx| == |computed| && forall m | 0 <= m < |idx| :: idx[m] < |keys|
    ensures forall m: nat :: m in at <==> m < |idx| && computed[m].Some?
    ensures forall j, l | 0 <= j < l < |at| :: at[j] < at[l]
    ensures (forall j | 0 <= j < |at| :: at[j] < |idx|) && Computed(keys, idx, computed) == At(At(keys, idx), at)
  {
    var marked := (m: nat) => m < |computed| && computed[m].Some?;
    ComputedUpTo(keys, idx, computed, marked, |idx|);
    assert idx[..|idx|] == idx && computed[..|idx|] == computed;
    at := Where(|idx|, marked);
  }

  /** The keys that were computed. */
  function Computed(keys: seq<Key>, idx: seq<nat>, computed: seq<Option<Vector>>): seq<Key>
    requires |idx| == |computed| && forall m | 0 <= m < |idx| :: idx[m] < |keys|
  {
    if idx == [] then []
    else Computed(keys, Front(idx), Front(computed)) + if Last(computed).Some? then [keys[Last(idx)]] else []
  }

  function Lookups(keys: seq<Key>, vectors: map<Key, Vector>): seq<Option<Vector>> {
    seq(|keys|, i requires 0 <= i < |keys| => if keys[i] in vectors then Some(vectors[keys[i]]) else None)
  }

  lemma OneMoreComputed(keys: seq<Key>, idx: seq<nat>, computed: seq<Option<Vector>>, m: nat)
    requires m < |computed| && m < |idx| && forall n | 0 <= n < |idx| :: idx[n] < |keys|
    ensures Computed(keys, idx[..m + 1], computed[..m + 1])
         == Computed(keys, idx[..m], computed[..m]) + if computed[m].Some? then [keys[idx[m]]] else []
  {
    assert Front(idx[..m + 1]) == idx[..m] && Front(computed[..m + 1]) == computed[..m];
  }

  lemma NothingComputed(keys: seq<Key>)
    ensures Computed(keys, [], []) == []
  {}

  /** The cache holds a key exactly when it was stored or found, and fewer distinct keys than fit were since. */
  lemma HoldsTheMostRecent(c: Cache, k: Key)
    requires c.Valid()
    ensures k in c.vectors <==> k in c.touched && |Since(c.touched, k)| < c.capacity
  {
    HeldIffRecentlyTouched(c.touched, c.capacity, k);
  }

  lemma TouchKeepsElements(order: seq<Key>, k: Key)
    ensures k in Elements(order) ==> k in order && Elements(Without(order, k) + [k]) == Elements(order)
  {}

  lemma Single(k: Key)
    ensures Distinct([k])
  {}

  // ----- Answers out of place -----

  /** Both batches are answered, each with the vector of its first text only. */
  const SHORT := Api(_ => Some([0]), (_, _) => [], _ => false)

  /** As many items as texts, but one place is named twice and one not at all. */
  const REPEATED := Api(_ => Some([0, 0]), (_, _) => [], _ => false)

  function Named(text: string): Key {
    Key("model", "default", text)
  }

  const THREE := [Named("a"), Named("b"), Named("c")]

  lemma ShortSources()
    ensures Sources(3, 2, SHORT, 0, 0) == [TextAt(0), TextAt(2)]
  {
    assert Sorted([0]) == [0];
    assert Brought(0, 2, 0, SHORT) == [TextAt(0)] && Brought(2, 3, 1, SHORT) == [TextAt(2)];
    hide Brought;
    NoBatchLeft(3, 2, SHORT, 3, 2);
    OneMoreBatch(3, 2, SHORT, 2, 1);
    OneMoreBatch(3, 2, SHORT, 0, 0);
  }

  lemma ShortFetch(embedding: Key -> Vector)
    ensures Fetched(THREE, 2, SHORT, embedding) == [Some(embedding(Named("a"))), Some(embedding(Named("c")))]
  {
    ShortSources();
    hide Sources;
  }

  /** An answer of full length is no safer: the second text is given the vector of the first. */
  lemma RepeatedPlaceIsWrong()
    ensures Sources(2, 2, REPEATED, 0, 0) == [TextAt(0), TextAt(0)] && !IsInPlace(REPEATED, 2, 2, 0, 0)
  {
    assert Front([0, 0]) == [0] && Sorted([0]) == [0] && Place([0], 0) == [0, 0];
    assert Sorted([0, 0]) == [0, 0];
    assert Brought(0, 2, 0, REPEATED) == [TextAt(0), TextAt(0)];
    NoBatchLeft(2, 2, REPEATED, 2, 1);
    OneMoreBatch(2, 2, REPEATED, 0, 0);
  }

  lemma AllMissed(n: nat)
    ensures var found: seq<Option<Vector>> := seq(n, _ => None);
            MissesOf(found) == seq(n, i requires 0 <= i < n => i) && forall i | 0 <= i < n :: Rank(found, i) == i
  {
    var found: seq<Option<Vector>> := seq(n, _ => None);
    if n > 0 {
      AllMissed(n - 1);
      assert Front(found) == seq(n - 1, _ => None);
    }
    forall i | 0 <= i < n
      ensures Rank(found, i) == i
    {
      AllMissed(i);
      assert found[..i] == seq(i, _ => None);
    }
  }

  /** The second text gets the vector of the third, for as long as the cache holds it, and the third gets none. */
  method ShortAnswersShift(embedding: Key -> Vector) returns (cache: Cache, results: seq<Option<Vector>>)
    ensures fresh(cache) && results == [Some(embedding(Named("a"))), Some(embedding(Named("c"))), None]
    ensures Named("b") in cache.vectors && cache.vectors[Named("b")] == embedding(Named("c"))
  {
    hide Fetched, IsInPlace, MissesOf, Rank, Newest, Recent;
    ShortFetch(embedding);
    AllMissed(3);
    cache := new Cache(512, embedding);
    assert KeysOf("model", "default", ["a", "b", "c"]) == THREE;
    assert Lookups(THREE, cache.vectors) == seq(3, _ => None);
    ghost var idx := seq(3, i requires 0 <= i < 3 => i);
    assert At(THREE, idx) == THREE;
    ghost var others, held;
    results, others, held := cache.Embed("model", "default", ["a", "b", "c"], 2, SHORT, true);
    ghost var fetched := [Some(embedding(Named("a"))), Some(embedding(Named("c")))];
    assert idx[..2] == [0, 1];
    OneMoreComputed(THREE, idx, fetched, 1);
    assert fetched[..2] == fetched;
    assert Last(cache.touched) == Named("b");
    HoldsTheMostRecent(cache, Named("b"));
    assert Latest(THREE, idx, fetched, Named("b")) == fetched[1];
  }
}
