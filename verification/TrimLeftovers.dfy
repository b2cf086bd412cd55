/** Tool results that the trim of TinyCTX/context.py leaves behind without their call: over all of its rounds,
    exactly those of a turn that also has text. */
module TrimLeftovers {
  import opened History
  import opened Sequences
  import opened TokenTrim

  // ----- Conversations -----

  /** The entry that a result belongs to: the last one before it that is not a result. */
  function Owner(xs: seq<Entry>, j: nat): (o: nat)
    requires j < |xs|
    ensures o <= j && (forall i | o < i <= j :: xs[i].role == Tool) && (xs[o].role == Tool ==> o == 0)
  {
    if xs[j].role != Tool || j == 0 then j else Owner(xs, j - 1)
  }

  predicate PairedAt(xs: seq<Entry>, j: nat)
    requires j < |xs|
  {
    (xs[j].toolCalls != [] ==> xs[j].role == Assistant)
    && (xs[j].role == Tool ==> Owner(xs, j) < j && IsResultOf(xs[j], CallIds(xs[Owner(xs, j)])))
  }

  /** Only assistant turns make calls, and their results follow them directly. */
  predicate Paired(xs: seq<Entry>) {
    forall j | 0 <= j < |xs| :: PairedAt(xs, j)
  }

  lemma OwnerMakesCalls(xs: seq<Entry>, j: nat)
    requires Paired(xs) && j < |xs| && xs[j].role == Tool
    ensures var o := Owner(xs, j);
            o < j && xs[o].role == Assistant && xs[o].toolCalls != []
            && forall i | o < i <= j :: xs[i].role == Tool && IsResultOf(xs[i], CallIds(xs[o])) && Owner(xs, i) == o
  {
    hide IsResultOf;
    var o := Owner(xs, j);
    assert PairedAt(xs, j) && PairedAt(xs, o);
    CallsAreMade(xs[j], xs[o]);
    forall i | o < i <= j
      ensures xs[i].role == Tool && IsResultOf(xs[i], CallIds(xs[o])) && Owner(xs, i) == o
    {
      SameOwner(xs, i, j);
      assert PairedAt(xs, i);
    }
  }

  lemma CallsAreMade(result: Entry, owner: Entry)
    requires IsResultOf(result, CallIds(owner))
    ensures owner.toolCalls != []
  {}

  lemma {:induction false} SameOwner(xs: seq<Entry>, i: nat, j: nat)
    requires j < |xs| && Owner(xs, j) < i <= j
    ensures Owner(xs, i) == Owner(xs, j)
  {
    if i < j {
      SameOwner(xs, i, j - 1);
    }
  }

  // ----- How far the trim has got -----

  /** The first entry that is still there and may go, and whether it has lost its calls. */
  datatype Place = Place(k: nat, stripped: bool)

  /** The first entry from `k` on that is not a system entry. */
  function NextOther(xs: seq<Entry>, k: nat): (i: nat)
    requires k <= |xs|
    ensures k <= i <= |xs| && (forall j | k <= j < i :: xs[j].role == System) && (i < |xs| ==> xs[i].role != System)
  {
    k + FirstNonSystem(xs[k..])
  }

  /** The first entry from `k` on that is not a result of the calls. */
  function EndOfResults(xs: seq<Entry>, k: nat, ids: set<string>): (i: nat)
    requires k <= |xs|
    ensures k <= i <= |xs| && (forall j | k <= j < i :: IsResultOf(xs[j], ids))
    ensures i < |xs| ==> !IsResultOf(xs[i], ids)
    decreases |xs| - k
  {
    if k < |xs| && IsResultOf(xs[k], ids) then EndOfResults(xs, k + 1, ids) else k
  }

  predicate IsPlace(xs: seq<Entry>, p: Place) {
    p.k <= |xs| && (p.k < |xs| ==> xs[p.k].role != System)
    && (p.stripped ==> p.k < |xs| && xs[p.k].role == Assistant && xs[p.k].toolCalls != [] && HasText(xs[p.k]))
  }

  /** What is left then: all system entries before the place, and everything from there on. */
  function Remaining(xs: seq<Entry>, p: Place): seq<Entry>
    requires IsPlace(xs, p)
  {
    Select(xs[..p.k], true)
    + if p.stripped then [xs[p.k].(toolCalls := [])] + xs[p.k + 1..] else xs[p.k..]
  }

  function After(xs: seq<Entry>, p: Place): (r: Place)
    requires IsPlace(xs, p) && Paired(xs)
    ensures IsPlace(xs, r)
  {
    if p.k == |xs| then p
    else if p.stripped || xs[p.k].toolCalls == [] then Place(NextOther(xs, p.k + 1), false)
    else if HasText(xs[p.k]) then
      assert PairedAt(xs, p.k);
      Place(p.k, true)
    else Place(NextOther(xs, EndOfResults(xs, p.k + 1, CallIds(xs[p.k]))), false)
  }

  function Reached(xs: seq<Entry>, n: nat): (p: Place)
    requires Paired(xs)
    ensures IsPlace(xs, p)
  {
    if n == 0 then Place(NextOther(xs, 0), false) else After(xs, Reached(xs, n - 1))
  }

  // ----- The rounds of the trim -----

  lemma {:induction false} FirstAfterSystem(a: seq<Entry>, b: seq<Entry>)
    requires forall e <- a :: e.role == System
    requires b != [] ==> b[0].role != System
    ensures FirstNonSystem(a + b) == |a|
  {
    if a == [] {
      assert a + b == b;
    } else {
      FirstAfterSystem(a[1..], b);
      TailOfConcat(a, b);
    }
  }

  lemma {:induction false} SelectedAreSystem(xs: seq<Entry>)
    ensures forall e <- Select(xs, true) :: e.role == System
  {
    if xs != [] {
      SelectedAreSystem(xs[1..]);
    }
  }

  /** What goes between `k` and `to` are no system entries, and those that come next stay. */
  lemma RemainingAfter(xs: seq<Entry>, k: nat, to: nat)
    requires k <= to <= |xs| && forall j | k <= j < to :: xs[j].role != System
    ensures Select(xs[..k], true) + xs[to..] == Remaining(xs, Place(NextOther(xs, to), false))
  {
    hide Select, NextOther, HasText;
    var i := NextOther(xs, to);
    SelectUniform(xs[k..to], false);
    SelectUniform(xs[to..i], true);
    SelectOfConcat(xs[..k], xs[k..to], true);
    SelectOfConcat(xs[..to], xs[to..i], true);
    assert xs[..k] + xs[k..to] == xs[..to] && xs[..to] + xs[to..i] == xs[..i];
    assert xs[to..i] + xs[i..] == xs[to..];
    ConcatIsAssociative(Select(xs[..k], true), xs[to..i], xs[i..]);
  }

  lemma {:induction false} SkippedResults(xs: seq<Entry>, k: nat, ids: set<string>)
    requires k <= |xs|
    ensures SkipResults(xs[k..], ids) == xs[EndOfResults(xs, k, ids)..]
    decreases |xs| - k
  {
    if k < |xs| && IsResultOf(xs[k], ids) {
      SkippedResults(xs, k + 1, ids);
      assert xs[k..][1..] == xs[k + 1..];
    }
  }

  lemma DropAtPlace(system: seq<Entry>, rest: seq<Entry>)
    requires (forall e <- system :: e.role == System) && rest != [] && rest[0].role != System
    ensures !AllSystem(system + rest) && Drop(system + rest) == system + DropHead(rest[0], rest[1..])
  {
    FirstAfterSystem(system, rest);
    var xs, i := system + rest, |system|;
    assert xs[..i] == system && xs[i] == rest[0] && xs[i + 1..] == rest[1..];
  }

  lemma DropHeadLeads(xs: seq<Entry>, p: Place)
    requires Paired(xs) && IsPlace(xs, p) && p.k < |xs|
    ensures var e := if p.stripped then xs[p.k].(toolCalls := []) else xs[p.k];
            Select(xs[..p.k], true) + DropHead(e, xs[p.k + 1..]) == Remaining(xs, After(xs, p))
  {
    hide Select, HasText, IsResultOf, CallIds, Paired, PairedAt;
    var k := p.k;
    if p.stripped || xs[k].toolCalls == [] {
      RemainingAfter(xs, k, k + 1);
    } else if HasText(xs[k]) {
      CallersAreTurns(xs, k);
      SkipsNothing([xs[k].(toolCalls := [])] + xs[k + 1..], CallIds(xs[k]));
    } else {
      var ids := CallIds(xs[k]);
      SkippedResults(xs, k + 1, ids);
      ResultsAreNotSystem(xs, k, EndOfResults(xs, k + 1, ids), ids);
      RemainingAfter(xs, k, EndOfResults(xs, k + 1, ids));
    }
  }

  lemma CallersAreTurns(xs: seq<Entry>, k: nat)
    requires Paired(xs) && k < |xs| && xs[k].toolCalls != []
    ensures xs[k].role == Assistant
  {
    assert PairedAt(xs, k);
  }

  lemma ResultsAreNotSystem(xs: seq<Entry>, k: nat, to: nat, ids: set<string>)
    requires k < to <= |xs| && xs[k].role != System && forall j | k < j < to :: IsResultOf(xs[j], ids)
    ensures forall j | k <= j < to :: xs[j].role != System
  {}

  lemma DropLeadsAfter(xs: seq<Entry>, p: Place)
    requires Paired(xs) && IsPlace(xs, p)
    ensures AllSystem(Remaining(xs, p)) <==> p.k == |xs|
    ensures p.k < |xs| ==> Drop(Remaining(xs, p)) == Remaining(xs, After(xs, p))
  {
    hide Drop, DropHead, Paired, After;
    var system := Select(xs[..p.k], true);
    SelectedAreSystem(xs[..p.k]);
    if p.k == |xs| {
      FirstAfterSystem(system, []);
    } else {
      var e := if p.stripped then xs[p.k].(toolCalls := []) else xs[p.k];
      assert xs[p.k..] == [xs[p.k]] + xs[p.k + 1..];
      assert ([e] + xs[p.k + 1..])[1..] == xs[p.k + 1..];
      DropAtPlace(system, [e] + xs[p.k + 1..]);
      DropHeadLeads(xs, p);
    }
  }

  /** Where the trim stands after any number of rounds. */
  lemma {:induction false} DroppedIsRemaining(xs: seq<Entry>, n: nat)
    requires Paired(xs)
    ensures Dropped(xs, n) == Remaining(xs, Reached(xs, n))
  {
    hide Drop, Paired, After;
    if n == 0 {
      RemainingAfter(xs, 0, 0);
      assert xs[..0] == [] && xs[0..] == xs;
    } else {
      DroppedIsRemaining(xs, n - 1);
      DropLeadsAfter(xs, Reached(xs, n - 1));
      StaysAtEnd(xs, Reached(xs, n - 1));
    }
  }

  lemma StaysAtEnd(xs: seq<Entry>, p: Place)
    requires Paired(xs) && IsPlace(xs, p)
    ensures p.k == |xs| ==> After(xs, p) == p
  {}

  // ----- The results it stops at -----

  lemma NeighbourOfResult(xs: seq<Entry>, k: nat)
    requires Paired(xs) && k < |xs| && xs[k].role == Tool
    ensures k > 0 && xs[k - 1].role != System && Owner(xs, k) <= k - 1
    ensures Owner(xs, k) == Owner(xs, k - 1)
  {
    OwnerMakesCalls(xs, k);
  }

  /** When the trim moves on to a result, it comes from the entry right before it: another result of the same turn,
      or that turn itself, which had lost its calls and kept its text. */
  lemma MovesOnToResult(xs: seq<Entry>, p: Place)
    requires Paired(xs) && IsPlace(xs, p) && p.k < After(xs, p).k < |xs| && xs[After(xs, p).k].role == Tool
    ensures Owner(xs, After(xs, p).k) == Owner(xs, p.k)
    ensures xs[p.k].role != Tool ==> p.stripped && Owner(xs, p.k) == p.k
  {
    hide HasText, Paired, IsResultOf, CallIds, NextOther;
    var k := After(xs, p).k;
    NeighbourOfResult(xs, k);
    OwnerMakesCalls(xs, k);
    if !p.stripped && xs[p.k].toolCalls != [] {
      CallersAreTurns(xs, p.k);
      var to := EndOfResults(xs, p.k + 1, CallIds(xs[p.k]));
      assert k == to;
      ResultsAreTools(xs, p.k + 1, to, CallIds(xs[p.k]));
      SameTurn(xs, p.k, k);
    }
  }

  lemma ResultsAreTools(xs: seq<Entry>, from: nat, to: nat, ids: set<string>)
    requires to <= |xs| && forall j | from <= j < to :: IsResultOf(xs[j], ids)
    ensures forall j | from <= j < to :: xs[j].role == Tool
  {}

  lemma {:induction false} SameTurn(xs: seq<Entry>, o: nat, j: nat)
    requires o <= j < |xs| && xs[o].role != Tool && forall i | o < i <= j :: xs[i].role == Tool
    ensures Owner(xs, j) == o
  {
    if o < j {
      SameTurn(xs, o, j - 1);
    }
  }

  /** A result is only ever first if its turn has text. */
  lemma {:induction false} StopsAtResultOfText(xs: seq<Entry>, n: nat)
    requires Paired(xs)
    ensures var p := Reached(xs, n);
            p.k < |xs| && xs[p.k].role == Tool ==> HasText(xs[Owner(xs, p.k)])
  {
    hide HasText, Paired, IsResultOf, CallIds, After, NextOther, Owner;
    var k := Reached(xs, n).k;
    if k < |xs| && xs[k].role == Tool {
      NeighbourOfResult(xs, k);
      if n > 0 {
        var p := Reached(xs, n - 1);
        StopsAtResultOfText(xs, n - 1);
        MovesForward(xs, p);
        if p.k < k {
          MovesOnToResult(xs, p);
        }
      }
    }
  }

  lemma MovesForward(xs: seq<Entry>, p: Place)
    requires Paired(xs) && IsPlace(xs, p)
    ensures p.k <= After(xs, p).k && (p.k == After(xs, p).k < |xs| ==> xs[p.k].role == Assistant)
  {
    hide HasText, Paired;
    if p.k < |xs| && xs[p.k].toolCalls != [] {
      CallersAreTurns(xs, p.k);
    }
  }

  lemma LastOther(xs: seq<Entry>, k: nat) returns (p: nat)
    requires k <= |xs| && exists j :: 0 <= j < k && xs[j].role != System
    ensures p < k && xs[p].role != System && forall j | p < j < k :: xs[j].role == System
  {
    p := k - 1;
    while xs[p].role == System
      invariant p < k && forall j | p < j < k :: xs[j].role == System
      decreases p
    {
      p := p - 1;
    }
  }

  /** Every entry is first at some time, but system entries and the results of turns without text. */
  lemma {:induction false} StopsAt(xs: seq<Entry>, k: nat) returns (n: nat)
    requires Paired(xs) && k < |xs| && xs[k].role != System
    requires xs[k].role == Tool ==> HasText(xs[Owner(xs, k)])
    ensures Reached(xs, n) == Place(k, false)
    decreases k
  {
    hide HasText, Paired, IsResultOf, CallIds, After, Owner, IsPlace;
    if forall j | 0 <= j < k :: xs[j].role == System {
      n := 0;
    } else {
      var p := LastOther(xs, k);
      if xs[k].role == Tool {
        NeighbourOfResult(xs, k);
        OwnerMakesCalls(xs, k);
      }
      if xs[p].role == Tool && !HasText(xs[Owner(xs, p)]) {
        OwnerMakesCalls(xs, p);
        n := StopsAt(xs, Owner(xs, p));
        PassesResults(xs, Owner(xs, p), p, k);
        n := n + 1;
      } else {
        n := StopsAt(xs, p);
        PassesOne(xs, p, k);
        n := if xs[p].toolCalls != [] && HasText(xs[p]) then n + 2 else n + 1;
      }
    }
  }

  lemma PassesResults(xs: seq<Entry>, o: nat, p: nat, k: nat)
    requires Paired(xs) && o < p < k < |xs| && xs[k].role !in {System, Tool}
    requires forall j | p < j < k :: xs[j].role == System
    requires forall i | o < i <= p :: IsResultOf(xs[i], CallIds(xs[o]))
    requires xs[o].role == Assistant && xs[o].toolCalls != [] && !HasText(xs[o])
    ensures After(xs, Place(o, false)) == Place(k, false)
  {
    hide HasText, Paired, CallIds;
    var to := EndOfResults(xs, o + 1, CallIds(xs[o]));
    assert xs[p + 1].role != Tool;
    assert to == p + 1;
    assert NextOther(xs, to) == k;
  }

  lemma PassesOne(xs: seq<Entry>, p: nat, k: nat)
    requires Paired(xs) && p < k < |xs| && xs[p].role != System && xs[k].role != System
    requires forall j | p < j < k :: xs[j].role == System
    requires xs[k].role == Tool ==> Owner(xs, k) == Owner(xs, p) && HasText(xs[Owner(xs, p)]) && p == k - 1
    ensures var q := After(xs, Place(p, false));
            if xs[p].toolCalls != [] && HasText(xs[p]) then q.stripped && After(xs, q) == Place(k, false)
            else q == Place(k, false)
  {
    hide HasText, Paired, CallIds;
    assert NextOther(xs, p + 1) == k;
    if xs[p].toolCalls != [] {
      CallersAreTurns(xs, p);
    }
  }

  // ----- The exact condition -----

  /** The further the trim has got the less is left. */
  lemma LessRemains(xs: seq<Entry>, p: Place, q: Place)
    requires IsPlace(xs, p) && IsPlace(xs, q) && p.k < q.k
    ensures |Remaining(xs, q)| < |Remaining(xs, p)|
  {
    var between := xs[p.k..q.k];
    SelectOfConcat(xs[..p.k], between, true);
    assert xs[..p.k] + between == xs[..q.k];
    SelectsFewer(between[1..]);
  }

  lemma {:induction false} SelectsFewer(xs: seq<Entry>)
    ensures |Select(xs, true)| <= |xs|
  {
    if xs != [] {
      SelectsFewer(xs[1..]);
    }
  }

  /** Over all rounds: the trim comes to a list that begins, after its system entries, with a given tool result, its
      call gone, exactly when the turn that made the call has text. */
  lemma ResultIsLeftBehindIff(xs: seq<Entry>, k: nat)
    requires Paired(xs) && k < |xs| && xs[k].role == Tool
    ensures (exists n :: Dropped(xs, n) == Select(xs[..k], true) + xs[k..]) <==> HasText(xs[Owner(xs, k)])
  {
    hide HasText, Paired, Select;
    if n :| Dropped(xs, n) == Select(xs[..k], true) + xs[k..] {
      DroppedIsRemaining(xs, n);
      StopsAtResultOfText(xs, n);
      var p := Reached(xs, n);
      if p.k < k {
        LessRemains(xs, p, Place(k, false));
      } else if k < p.k {
        LessRemains(xs, Place(k, false), p);
      }
    }
    if HasText(xs[Owner(xs, k)]) {
      var n := StopsAt(xs, k);
      DroppedIsRemaining(xs, n);
    }
  }
}
