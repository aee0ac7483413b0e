# Pokémon cards: order, binary search and team deck

A Dafny model of the Pokémon card exercise of the course notes
(`2-Comparable/Exercises/2_2_Sort_and_Search/pokemon.py`) and of the scenarios its
test file fixes.

- `LexOrder` (`lex_order.dfy`) writes out Python's `<` on `str`: lexicographic
  order by code point, a proper prefix first. Dafny's own `<` on sequences means
  "proper prefix", so it cannot stand in for it. The module proves that the
  recursive comparison agrees with a first-difference definition, and that it is
  irreflexive, asymmetric, transitive and total.
- `PokemonCards` (`pokemon.dfy`) has the card as a datatype. Its `Less` member is
  `__lt__` (name first, then level) and its `Equal` member is `__eq__` (name and
  level). Neither looks at the type. The module also holds:
  - `BinarySearch`, the `low`/`high`/`mid` loop of `binary_search`, kept as a
    `while` loop. It does not require sortedness, and neither does the source. A
    returned index always holds a matching card. On a sorted collection, `None`
    means no card matches. The `if/elif/elif` chain has no `else`, as in the
    source, so the loop only terminates because `Trichotomy` rules out an
    iteration in which no branch fires.
  - `Team`, the caller's list that `add_to_team` appends to in place.
  - `AddToTeam`, which looks the card up before it checks the size. Its two
    exceptions are the `PokemonNotFound` and `TeamDeckOverflow` cases of
    `AddResult`. Either error leaves the team unchanged.
- `PokemonTests` (`pokemon_tests.dfy`) restates the test file as client code. It
  covers the sorted fixture, the comparisons, the searches, the missing cards,
  and adding cards until the deck overflows. `AddEach` proves the general case:
  on a sorted collection, from an empty team, six additions of present cards
  succeed and every later one overflows.
- `Wrappers` (`wrappers.dfy`) holds the `Option` type, Python's `Optional`.

Python's `//` in `(low + high) // 2` floors. Its divisor is 2, so it agrees with
Dafny's Euclidean `/`. Levels are Python integers and are modelled as unbounded
`int`.

## Model

| member | source | states |
|---|---|---|
| `LexOrder.LexLess` | 2-Comparable/Exercises/2_2_Sort_and_Search/pokemon.py:41 | Python's `str <`: compare code points from the front, a proper prefix first; its properties are in `LexLessIffFirstDifference`, `LexLessIrreflexive`, `LexLessAsymmetric`, `LexLessTransitive` and `LexLessTotal` |
| `PokemonCards.Pokemon.Less` | 2-Comparable/Exercises/2_2_Sort_and_Search/pokemon.py:38-41 | `__lt__`: by level when the names are equal, otherwise by name; its properties are in `LessIsStrictAndIgnoresType`, `LessTransitive` and `Trichotomy` |
| `PokemonCards.Pokemon.Equal` | 2-Comparable/Exercises/2_2_Sort_and_Search/pokemon.py:43-44 | `__eq__`: equal names and equal levels; its properties are in `EqualIsEquivalence` and `Trichotomy` |
| `LexOrder.LexLessIffFirstDifference` | 2-Comparable/Exercises/2_2_Sort_and_Search/pokemon.py:41 | string `a < b` holds exactly when some position `k` is the first where `a` and `b` differ, `k` lies inside `b`, and there `a` has ended or has the smaller code point |
| `LexOrder.LexLessIrreflexive` | 2-Comparable/Exercises/2_2_Sort_and_Search/pokemon.py:41 | no string is less than itself |
| `LexOrder.LexLessAsymmetric` | 2-Comparable/Exercises/2_2_Sort_and_Search/pokemon.py:41 | `a < b` and `b < a` never hold together |
| `LexOrder.LexLessTransitive` | 2-Comparable/Exercises/2_2_Sort_and_Search/pokemon.py:41 | `a < b` and `b < c` give `a < c` |
| `LexOrder.LexLessTotal` | 2-Comparable/Exercises/2_2_Sort_and_Search/pokemon.py:41 | any two different strings are ordered one way or the other |
| `PokemonCards.EqualIsEquivalence` | 2-Comparable/Exercises/2_2_Sort_and_Search/pokemon.py:43-44 | card equality is reflexive, symmetric and transitive, and changing a card's type does not change what it equals |
| `PokemonCards.LessIsStrictAndIgnoresType` | 2-Comparable/Exercises/2_2_Sort_and_Search/pokemon.py:38-41 | no card is less than itself, and changing the type of either card does not change the outcome of `<` |
| `PokemonCards.LessTransitive` | 2-Comparable/Exercises/2_2_Sort_and_Search/pokemon.py:38-41 | the (name, level) order on cards is transitive, including across a change of name |
| `PokemonCards.Trichotomy` | 2-Comparable/Exercises/2_2_Sort_and_Search/pokemon.py:38-44 | for any two cards exactly one of `a < b`, `b < a`, `a == b` holds, so `<` is a strict total order whose incomparable pairs are exactly the equal ones |
| `PokemonCards.BinarySearch` | 2-Comparable/Exercises/2_2_Sort_and_Search/pokemon.py:46-63 | a returned index is inside the collection and holds a card equal to `(name, level)`; on a sorted collection `None` is returned only when no card equals it (so an empty collection gives `None`); the loop keeps `0 <= low`, `high <= len - 1` and `mid` in `[low, high]` whenever `low <= high`, on a sorted collection every match lies in `[low, high]`, and `high - low` decreases |
| `PokemonCards.AddToTeam` | 2-Comparable/Exercises/2_2_Sort_and_Search/pokemon.py:65-74 | the result is an `AddResult`, whose `PokemonNotFound` and `TeamDeckOverflow` cases stand for the exception classes `PokemonNotFoundError` and `PokemonTeamDeckOverflowError` (pokemon.py lines 6-11); presence is decided before capacity; not found leaves the team unchanged and, on a sorted collection, means the card is absent; overflow happens exactly when the card was found and the team already held more than 5 cards, and leaves the team unchanged; success appends a collection card equal to `(name, level)` to the old team |
| `PokemonTests.SortedFixtureIsSorted` | 2-Comparable/Exercises/2_2_Sort_and_Search/test_pokemon.py:34-36 | the fixture, put in the order `collection.sort()` gives, is sorted by card order |
| `PokemonTests.SortedFixtureIsPermutation` | 2-Comparable/Exercises/2_2_Sort_and_Search/test_pokemon.py:4-13 | that sorted fixture holds the same cards as the fixture as listed |
| `PokemonTests.FixtureComparisons` | 2-Comparable/Exercises/2_2_Sort_and_Search/test_pokemon.py:25-32 | the five comparisons of the comparison test hold (`p3 > p2` read as `p2 < p3`, `p5 > p4` as `p4 < p5`) |
| `PokemonTests.SearchFixture` | 2-Comparable/Exercises/2_2_Sort_and_Search/test_pokemon.py:34-43 | on the sorted fixture, Bulbasaur/10 is found at index 0 or 1, and the cards at indices 2 to 5 are found at exactly their own index |
| `PokemonTests.AddMissingCards` | 2-Comparable/Exercises/2_2_Sort_and_Search/test_pokemon.py:58-69 | adding `("Foo", 10)` or `("Bulbasaur", 9999)` ends in not found both times, and the team stays empty |
| `PokemonTests.AddEach` | 2-Comparable/Exercises/2_2_Sort_and_Search/test_pokemon.py:76-84 | on a sorted collection, when every requested card is present, additions to a new team succeed for the first six requests and overflow for every later one; the team ends with `min(n, 6)` cards, the k-th one a collection card equal to the k-th request |
| `PokemonTests.AddFirstThreeCards` | 2-Comparable/Exercises/2_2_Sort_and_Search/test_pokemon.py:45-56 | adding the first three sorted cards succeeds three times, and the team holds three cards equal to them, in order |
| `PokemonTests.TooManyCardsInTeamDeck` | 2-Comparable/Exercises/2_2_Sort_and_Search/test_pokemon.py:71-84 | adding all six sorted cards succeeds six times, the seventh addition overflows, and the team ends with six cards equal to the fixture's, in order |

## Left out

- `PokemonCards.AddToTeam`: it appends the value `collection[i]`. Python appends the same object, but cards are never changed after they are built, so value and identity cannot be told apart here.
- `PokemonCards.AddToTeam`: the "found" case is stated as "some matching card of the collection". It is not pinned to the exact duplicate that the search happens to reach.
- `Pokemon.__init__` accepts any string as a name, the empty one too, and so does the model.
- `main`, `__repr__` and `__str__` in `pokemon.py`: an empty stub and string formatting.
- Python's `list.sort`, which the tests call: it is a library routine. The sorted fixture is written out instead. `SortedFixtureIsSorted` and `SortedFixtureIsPermutation` prove that it is sorted and a permutation of the original.
- Dafny's `string` holds Unicode scalar values, so names with lone surrogates (U+D800 to U+DFFF), which a Python `str` can hold, are outside the model. On every name it can hold, the order is Python's.
- `PokemonType` is kept only as a field that nothing reads (`Option<PokemonType>`, `None` when omitted).
- `test_pokemon_was_created_successfully` only reads back constructor fields. Dafny's datatype constructor gives that by definition.
- `1-Input-Output-Streams/Exercises/Playing_with_advanced_topics/Redirection.py`: process-wide stream redirection and file I/O, with no logic of its own.
- `8-References/Point.java`: a sketch about references whose `getDistance` body is elided and would use floating point.
- `0-Getting-Started/TestingExample/test_Car.py`: the `Car` class it tests is not part of this model.
