/** Sequences that a loop with a `continue` or an `append` builds from another: some of its
    places, in order, and what becomes of each. */
module Selections {

  /** Places that go up, all of them below n. */
  predicate Increasing(places: seq<nat>, n: nat) {
    && (forall i :: 0 <= i < |places| ==> places[i] < n)
    && (forall i, j :: 0 <= i < j < |places| ==> places[i] < places[j])
  }

  /** Every place kept is among these, no other is, and each has become its element. */
  ghost predicate PicksAt<T(!new)>(
      n: nat, kept: nat -> bool, becomes: (nat, T) -> bool, picked: seq<T>, places: seq<nat>)
  {
    && Increasing(places, n) && |places| == |picked|
    && (forall i :: 0 <= i < |places| ==> becomes(places[i], picked[i]))
    && (forall k: nat :: k < n ==> (kept(k) <==> k in places))
  }

  /** What is picked is what the kept places below n become, once each and in order. */
  ghost predicate Picks<T(!new)>(n: nat, kept: nat -> bool, becomes: (nat, T) -> bool, picked: seq<T>) {
    exists places :: PicksAt(n, kept, becomes, picked, places)
  }

  lemma PicksNothing<T(!new)>(kept: nat -> bool, becomes: (nat, T) -> bool)
    ensures Picks(0, kept, becomes, [])
  {
    assert PicksAt(0, kept, becomes, [], []);
  }

  lemma PicksOn<T(!new)>(n: nat, kept: nat -> bool, becomes: (nat, T) -> bool, picked: seq<T>)
    requires Picks(n, kept, becomes, picked) && !kept(n)
    ensures Picks(n + 1, kept, becomes, picked)
  {
    var places :| PicksAt(n, kept, becomes, picked, places);
    assert PicksAt(n + 1, kept, becomes, picked, places);
  }

  lemma PicksOneMore<T(!new)>(n: nat, kept: nat -> bool, becomes: (nat, T) -> bool, picked: seq<T>, next: T)
    requires Picks(n, kept, becomes, picked) && kept(n) && becomes(n, next)
    ensures Picks(n + 1, kept, becomes, picked + [next])
  {
    var places :| PicksAt(n, kept, becomes, picked, places);
    var more := places + [n];
    assert forall k :: k in more <==> k in places || k == n;
    assert PicksAt(n + 1, kept, becomes, picked + [next], more);
  }
}
