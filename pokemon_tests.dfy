/**
 * The scenarios of `test_pokemon.py`, stated as client code of `PokemonCards`:
 * what a caller can prove about the fixture from the contracts alone.
 */
module PokemonTests {
  import opened Wrappers
  import opened PokemonCards

  /** The fixture, in the order the test file lists it. */
  function Fixture(): seq<Pokemon> {
    [ Pokemon("Bulbasaur", 10, Some(Grass)),
      Pokemon("Bulbasaur", 10, Some(Grass)),
      Pokemon("Bulbasaur", 11, Some(Grass)),
      Pokemon("Charmander", 9, Some(Fire)),
      Pokemon("Squirtle", 10, Some(Water)),
      Pokemon("Pikachu", 10, Some(Grass)) ]
  }

  /** The fixture after `collection.sort()`. */
  function SortedFixture(): seq<Pokemon> {
    [ Pokemon("Bulbasaur", 10, Some(Grass)),
      Pokemon("Bulbasaur", 10, Some(Grass)),
      Pokemon("Bulbasaur", 11, Some(Grass)),
      Pokemon("Charmander", 9, Some(Fire)),
      Pokemon("Pikachu", 10, Some(Grass)),
      Pokemon("Squirtle", 10, Some(Water)) ]
  }

  /** `SortedFixture` is sorted ... */
  lemma SortedFixtureIsSorted()
    ensures Sorted(SortedFixture())
  {
    var s := SortedFixture();
    forall i, j | 0 <= i < j < |s|
      ensures !s[j].Less(s[i])
    {
    }
  }

  /** ... and holds the same cards as `Fixture`. */
  lemma SortedFixtureIsPermutation()
    ensures multiset(SortedFixture()) == multiset(Fixture())
  {
    var s := SortedFixture();
    assert Fixture() == s[..4] + [s[5], s[4]];
  }

  /** `test_pokemon_can_be_compared`. */
  lemma FixtureComparisons()
    ensures Fixture()[0].Equal(Fixture()[1])
    ensures Fixture()[0].Less(Fixture()[2])
    ensures Fixture()[1].Less(Fixture()[2])
    ensures Fixture()[0].Less(Fixture()[3])
    ensures Fixture()[3].Less(Fixture()[4])
  {
  }

  /** `test_pokemon_binary_search`: each card of the sorted fixture is found where it is. */
  method SearchFixture() returns (bulbasaur10: Option<nat>, others: seq<Option<nat>>)
    ensures bulbasaur10 == Some(0) || bulbasaur10 == Some(1)
    ensures others == [Some(2), Some(3), Some(4), Some(5)]
  {
    var s := SortedFixture();
    SortedFixtureIsSorted();
    assert s[0].Equal(Key("Bulbasaur", 10));
    bulbasaur10 := BinarySearch(s, "Bulbasaur", 10);
    assert forall i :: 2 <= i < 6 ==> !s[i].Equal(Key("Bulbasaur", 10));
    others := [];
    for k := 2 to 6
      invariant |others| == k - 2
      invariant forall m :: 0 <= m < k - 2 ==> others[m] == Some(m + 2)
    {
      var r := BinarySearch(s, s[k].name, s[k].level);
      assert s[k].Equal(Key(s[k].name, s[k].level));
      others := others + [r];
    }
  }

  /** `test_pokemon_add_to_team__card_does_not_exist`: an unknown name, and a known name at an unknown level. */
  method AddMissingCards() returns (foo: AddResult, bulbasaur9999: AddResult, cards: seq<Pokemon>)
    ensures foo == PokemonNotFound && bulbasaur9999 == PokemonNotFound
    ensures cards == []
  {
    var s := SortedFixture();
    SortedFixtureIsSorted();
    var team := new Team();
    foo := AddToTeam(s, team, "Foo", 10);
    bulbasaur9999 := AddToTeam(s, team, "Bulbasaur", 9999);
    cards := team.cards;
  }

  /**
   * The loops of the add-to-team tests: on a sorted collection, adding cards
   * that are all present to a new team succeeds six times and overflows from
   * then on, and the team holds the first six of them in order.
   */
  method AddEach(collection: seq<Pokemon>, keys: seq<(string, int)>)
    returns (outcomes: seq<AddResult>, cards: seq<Pokemon>)
    requires Sorted(collection)
    requires forall k :: 0 <= k < |keys| ==> Contains(collection, keys[k].0, keys[k].1)
    ensures |outcomes| == |keys|
    ensures forall k :: 0 <= k < |keys| ==> outcomes[k] == if k < 6 then Added else TeamDeckOverflow
    ensures |cards| == if |keys| < 6 then |keys| else 6
    ensures forall k :: 0 <= k < |cards| ==>
      cards[k] in collection && cards[k].Equal(Key(keys[k].0, keys[k].1))
  {
    var team := new Team();
    outcomes := [];
    for k := 0 to |keys|
      invariant |outcomes| == k
      invariant forall m :: 0 <= m < k ==> outcomes[m] == if m < 6 then Added else TeamDeckOverflow
      invariant |team.cards| == if k < 6 then k else 6
      invariant forall m :: 0 <= m < |team.cards| ==>
        team.cards[m] in collection && team.cards[m].Equal(Key(keys[m].0, keys[m].1))
    {
      var outcome := AddToTeam(collection, team, keys[k].0, keys[k].1);
      outcomes := outcomes + [outcome];
    }
    cards := team.cards;
  }

  /** The name and level of every card of the sorted fixture, in order. */
  function FixtureKeys(): seq<(string, int)> {
    seq(6, k requires 0 <= k < 6 => (SortedFixture()[k].name, SortedFixture()[k].level))
  }

  lemma FixtureHoldsItsKeys(k: nat)
    requires k < 6
    ensures FixtureKeys()[k] == (SortedFixture()[k].name, SortedFixture()[k].level)
    ensures Contains(SortedFixture(), FixtureKeys()[k].0, FixtureKeys()[k].1)
  {
    assert SortedFixture()[k].Equal(Key(FixtureKeys()[k].0, FixtureKeys()[k].1));
  }

  /**
   * `test_pokemon_add_to_team__card_exists`: the first three cards of the sorted
   * fixture are added, and each of them is then `in` the team (by `__eq__`):
   * the team holds them in the order they were added.
   */
  method AddFirstThreeCards() returns (outcomes: seq<AddResult>, cards: seq<Pokemon>)
    ensures outcomes == [Added, Added, Added]
    ensures |cards| == 3
    ensures forall i :: 0 <= i < 3 ==> cards[i].Equal(SortedFixture()[i])
  {
    SortedFixtureIsSorted();
    var keys := FixtureKeys()[..3];
    forall k | 0 <= k < |keys|
      ensures Contains(SortedFixture(), keys[k].0, keys[k].1)
    {
      FixtureHoldsItsKeys(k);
    }
    outcomes, cards := AddEach(SortedFixture(), keys);
    var expected := [Added, Added, Added];
    assert forall k :: 0 <= k < 3 ==> outcomes[k] == expected[k];
    forall i | 0 <= i < 3
      ensures cards[i].Equal(SortedFixture()[i])
    {
      FixtureHoldsItsKeys(i);
      assert keys[i] == FixtureKeys()[i];
      assert cards[i].Equal(Key(keys[i].0, keys[i].1));
    }
  }

  /**
   * `test_pokemon_add_to_team__too_many_cards_in_team_deck`: the six cards of the
   * sorted fixture fill the team, and adding the second card again overflows.
   */
  method TooManyCardsInTeamDeck() returns (outcomes: seq<AddResult>, cards: seq<Pokemon>)
    ensures outcomes == [Added, Added, Added, Added, Added, Added, TeamDeckOverflow]
    ensures |cards| == 6
    ensures forall i :: 0 <= i < 6 ==> cards[i].Equal(SortedFixture()[i])
  {
    SortedFixtureIsSorted();
    var keys := FixtureKeys() + [FixtureKeys()[1]];
    forall k | 0 <= k < |keys|
      ensures Contains(SortedFixture(), keys[k].0, keys[k].1)
    {
      FixtureHoldsItsKeys(if k < 6 then k else 1);
    }
    outcomes, cards := AddEach(SortedFixture(), keys);
    var expected := [Added, Added, Added, Added, Added, Added, TeamDeckOverflow];
    assert forall k :: 0 <= k < 7 ==> outcomes[k] == expected[k];
    forall i | 0 <= i < 6
      ensures cards[i].Equal(SortedFixture()[i])
    {
      FixtureHoldsItsKeys(i);
      assert keys[i] == FixtureKeys()[i];
      assert cards[i].Equal(Key(keys[i].0, keys[i].1));
    }
  }
}
