/**
 * The vote store: a map from an option (a destination name or a weekend
 * label) to the ratings cast for it, in the order they were cast. A vote
 * appends one rating to one option's sequence; a key the store does not
 * hold yet is created by its first vote.
 */
module Votes {

  type Store = map<string, seq<int>>

  /** The ratings of `option`, or none when the store has no such key (`votes[option] || []`). */
  function Lookup(store: Store, option: string): seq<int>
  {
    if option in store then store[option] else []
  }

  /** The vote count the page shows next to an option (`votes[option]?.length || 0`). */
  function VoteCount(store: Store, option: string): (n: nat)
    ensures n == |Lookup(store, option)|
    ensures n == 0 <==> option !in store || store[option] == []
  {
    if option in store then |store[option]| else 0
  }

  /** `handleVote`'s update: a copy of the store with `value` appended to `option`'s ratings. */
  function Vote(store: Store, option: string, value: int): (r: Store)
    ensures r.Keys == store.Keys + {option}
    ensures Lookup(r, option) == Lookup(store, option) + [value]
    ensures forall k :: k != option ==> Lookup(r, k) == Lookup(store, k)
  {
    store[option := Lookup(store, option) + [value]]
  }

  /** A vote raises the count of its option by exactly one and leaves every other count alone. */
  lemma VoteCountsOne(store: Store, option: string, value: int, other: string)
    ensures VoteCount(Vote(store, option, value), option) == VoteCount(store, option) + 1
    ensures other != option ==> VoteCount(Vote(store, option, value), other) == VoteCount(store, other)
  {
  }

  /** The store after `values` are voted for `option`, one after another. */
  function VoteAll(store: Store, option: string, values: seq<int>): Store
    decreases |values|
  {
    if values == [] then store
    else VoteAll(Vote(store, option, values[0]), option, values[1..])
  }

  /** Votes are only ever added: after N votes for an option its ratings are the old ones followed by the N new ones, and nothing else changes. */
  lemma {:induction false} VoteAllAppends(store: Store, option: string, values: seq<int>)
    ensures Lookup(VoteAll(store, option, values), option) == Lookup(store, option) + values
    ensures VoteCount(VoteAll(store, option, values), option) == VoteCount(store, option) + |values|
    ensures forall k :: k != option ==> Lookup(VoteAll(store, option, values), k) == Lookup(store, k)
    decreases |values|
  {
    if values != [] {
      var next := Vote(store, option, values[0]);
      VoteAllAppends(next, option, values[1..]);
      assert [values[0]] + values[1..] == values;
      assert Lookup(store, option) + [values[0]] + values[1..] == Lookup(store, option) + values;
    }
  }

  /** One store holding an empty rating sequence for every destination and every weekend. */
  method InitVotes(destinations: seq<string>, weekends: seq<string>) returns (store: Store)
    ensures forall k :: k in store <==> k in destinations || k in weekends
    ensures forall k :: k in store ==> store[k] == []
  {
    store := map[];
    for i := 0 to |destinations|
      invariant forall k :: k in store <==> k in destinations[..i]
      invariant forall k :: k in store ==> store[k] == []
    {
      store := store[destinations[i] := []];
    }
    for i := 0 to |weekends|
      invariant forall k :: k in store <==> k in destinations || k in weekends[..i]
      invariant forall k :: k in store ==> store[k] == []
    {
      store := store[weekends[i] := []];
    }
  }
}
