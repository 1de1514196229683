/**
 * The component's state made explicit: the fixed destination list, the
 * generated weekend list, the vote store and the chosen trip. The React
 * state cells become fields; the mount effect, the vote handler and the
 * score button become methods.
 */
module TripApp {
  import opened Wrappers
  import opened Weekends
  import opened Votes
  import opened Scoring

  /** The fifteen destinations the page offers, in display order. */
  const DefaultDestinations: seq<string> := [
    "Miami", "Las Vegas", "Austin", "New Orleans", "Nashville",
    "Denver", "Chicago", "Los Angeles", "San Diego", "Orlando",
    "Montreal", "Cancun", "San Francisco", "Boston", "Seattle"
  ]

  class App {
    const destinations: seq<string>
    const weekends: seq<string>
    var votes: Store
    var finalTrip: Option<FinalTrip>

    /**
     * Every listed destination and weekend has a key in the store. Scoring
     * reads missing keys as empty, so nothing depends on it; it is the store
     * invariant the mount effect sets up and every vote keeps.
     */
    ghost predicate Seeded()
      reads this
    {
      forall o :: o in destinations || o in weekends ==> o in votes
    }

    /** The first render: the lists are set up, the store is still empty and no trip is chosen. */
    constructor ()
      ensures destinations == DefaultDestinations
      ensures weekends == WeekendLabels(TripYear)
      ensures votes == map[] && finalTrip == None
    {
      destinations := DefaultDestinations;
      var generated := GenerateWeekends(TripYear);
      weekends := generated;
      votes := map[];
      finalTrip := None;
    }

    /** The mount effect: the store is replaced by one with an empty rating list for every option. */
    method InitializeVotes()
      modifies this
      ensures Seeded()
      ensures forall k :: k in votes <==> k in destinations || k in weekends
      ensures forall k :: k in votes ==> votes[k] == []
      ensures finalTrip == old(finalTrip)
    {
      votes := InitVotes(destinations, weekends);
    }

    /** `handleVote(option, value)`: one rating appended to one option; keys and earlier ratings stay. */
    method HandleVote(option: string, value: int)
      modifies this
      ensures votes == Vote(old(votes), option, value)
      ensures forall k :: k in old(votes) ==> k in votes && old(votes)[k] <= votes[k]
      ensures old(Seeded()) ==> Seeded()
      ensures finalTrip == old(finalTrip)
    {
      votes := Vote(votes, option, value);
    }

    /** `calculateScores`: the chosen trip is recomputed from the current votes; when `reduce` throws, nothing changes. */
    method CalculateScores()
      modifies this
      ensures votes == old(votes)
      ensures BestTrip(destinations, weekends, votes).Ok? ==> finalTrip == Some(BestTrip(destinations, weekends, votes).value)
      ensures BestTrip(destinations, weekends, votes).Err? ==> finalTrip == old(finalTrip)
    {
      match BestTrip(destinations, weekends, votes)
      case Ok(trip) => finalTrip := Some(trip);
      case Err(_) =>
    }
  }

  /** When every option scores the same (as in a fresh store), the first option in the list wins. */
  lemma EqualScoresPickFirst(options: seq<string>, store: Store)
    requires options != []
    requires forall j :: 0 <= j < |options| ==> Score(store, options[j]) == Score(store, options[0])
    ensures IsWinner(options, store, options[0])
    ensures Top(ScoreAll(options, store)).value.name == options[0]
  {
    forall o | o in options
      ensures Score(store, o) <= Score(store, options[0])
    {
      var j :| 0 <= j < |options| && options[j] == o;
    }
    forall j | 0 <= j < |options| && Score(store, options[j]) == Score(store, options[0])
      ensures options[0] in options[..j + 1]
    {
      assert options[..j + 1][0] == options[0];
    }
    TopIsWinner(options, store);
    WinnerUnique(options, store, options[0], Top(ScoreAll(options, store)).value.name);
  }

  /** Miami voted 5 and 3, Austin voted 4: both average 4, and Miami, listed first, is chosen. */
  lemma TieGoesToEarlierOption()
    ensures var store := Vote(Vote(Vote(map[], "Miami", 5), "Miami", 3), "Austin", 4);
            Score(store, "Miami") == 4.0 && Score(store, "Austin") == 4.0
            && Top(ScoreAll(["Miami", "Austin"], store)).value.name == "Miami"
  {
    var store := Vote(Vote(Vote(map[], "Miami", 5), "Miami", 3), "Austin", 4);
    assert Lookup(store, "Miami") == [5, 3];
    assert Lookup(store, "Austin") == [4];
    assert Sum([5, 3]) == 8;
    EqualScoresPickFirst(["Miami", "Austin"], store);
  }

  /** In a store where no option has a rating, every option of a list scores the same (0). */
  lemma FreshScoresEqual(options: seq<string>, store: Store)
    requires options != []
    requires forall k :: k in store ==> store[k] == []
    ensures forall j :: 0 <= j < |options| ==> Score(store, options[j]) == 0.0 == Score(store, options[0])
  {
    forall j | 0 <= j < |options|
      ensures Score(store, options[j]) == 0.0
    {
      assert Lookup(store, options[j]) == [];
    }
  }

  /** In a store where no option has a rating, the first destination and the first weekend are chosen. */
  lemma FreshStorePicksFirstOptions(destinations: seq<string>, weekends: seq<string>, store: Store)
    requires destinations != [] && weekends != []
    requires forall k :: k in store ==> store[k] == []
    ensures BestTrip(destinations, weekends, store) == Ok(FinalTrip(destinations[0], weekends[0]))
  {
    FreshScoresEqual(destinations, store);
    FreshScoresEqual(weekends, store);
    EqualScoresPickFirst(destinations, store);
    EqualScoresPickFirst(weekends, store);
    var r := BestTrip(destinations, weekends, store);
    WinnerUnique(destinations, store, r.value.destination, destinations[0]);
    WinnerUnique(weekends, store, r.value.weekend, weekends[0]);
  }
}
