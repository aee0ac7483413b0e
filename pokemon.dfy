/**
 * Pokémon cards: their order and equality, binary search over a sorted
 * collection, and adding a found card to a team deck of at most six cards.
 */
module PokemonCards {
  import opened Wrappers
  import opened LexOrder

  datatype PokemonType = Fire | Water | Grass

  /** A card. `ptype` is `None` when the constructor's optional argument is left out. */
  datatype Pokemon = Pokemon(name: string, level: int, ptype: Option<PokemonType>)
  {
    /** `__lt__`: by name first, then by level; the type plays no part. */
    predicate Less(other: Pokemon) {
      if name == other.name then level < other.level else LexLess(name, other.name)
    }

    /** `__eq__`: same name and same level, whatever the type. */
    predicate Equal(other: Pokemon) {
      name == other.name && level == other.level
    }
  }

  /** The probe card that a search builds from a name and a level. */
  function Key(name: string, level: int): Pokemon {
    Pokemon(name, level, None)
  }

  /** Sorted ascending: no card is smaller than one before it. */
  ghost predicate Sorted(data: seq<Pokemon>) {
    forall i, j :: 0 <= i < j < |data| ==> !data[j].Less(data[i])
  }

  /** Some card of `data` equals the card `(name, level)`. */
  ghost predicate Contains(data: seq<Pokemon>, name: string, level: int) {
    exists i :: 0 <= i < |data| && data[i].Equal(Key(name, level))
  }

  /** `Equal` is an equivalence that does not look at the type. */
  lemma EqualIsEquivalence(a: Pokemon, b: Pokemon, c: Pokemon, t: Option<PokemonType>)
    ensures a.Equal(a) && a.Equal(a.(ptype := t))
    ensures a.Equal(b) == b.Equal(a)
    ensures a.Equal(b) && b.Equal(c) ==> a.Equal(c)
  {
  }

  /** `Less` is irreflexive, and the type of either card plays no part in it. */
  lemma LessIsStrictAndIgnoresType(a: Pokemon, b: Pokemon, t: Option<PokemonType>)
    ensures !a.Less(a)
    ensures a.(ptype := t).Less(b) == a.Less(b)
    ensures b.Less(a.(ptype := t)) == b.Less(a)
  {
  }

  lemma LessTransitive(a: Pokemon, b: Pokemon, c: Pokemon)
    requires a.Less(b) && b.Less(c)
    ensures a.Less(c)
  {
    if a.name == b.name || b.name == c.name {
    } else if a.name == c.name {
      LexLessAsymmetric(a.name, b.name);
    } else {
      LexLessTransitive(a.name, b.name, c.name);
    }
  }

  /** Exactly one of `a < b`, `b < a` and `a == b` holds. */
  lemma Trichotomy(a: Pokemon, b: Pokemon)
    ensures a.Less(b) || b.Less(a) || a.Equal(b)
    ensures !(a.Less(b) && b.Less(a))
    ensures !(a.Less(b) && a.Equal(b)) && !(b.Less(a) && a.Equal(b))
  {
    LexLessTotal(a.name, b.name);
    LexLessAsymmetric(a.name, b.name);
  }

  /**
   * `binary_search`: a `low`/`high`/`mid` search. A returned index always holds a
   * matching card; on a sorted collection `None` means no card matches.
   */
  method BinarySearch(data: seq<Pokemon>, name: string, level: int) returns (r: Option<nat>)
    ensures r.Some? ==> r.value < |data| && data[r.value].Equal(Key(name, level))
    ensures r.None? && Sorted(data) ==> !Contains(data, name, level)
  {
    var low: int := 0;
    var high: int := |data| - 1;
    // Python's `//` floors; with the divisor 2 that is Dafny's `/`.
    var mid: int := (low + high) / 2;
    var value := Key(name, level);

    while low <= high
      invariant 0 <= low
      invariant high <= |data| - 1
      invariant mid == (low + high) / 2
      invariant low <= high ==> low <= mid <= high
      invariant Sorted(data) ==>
        forall i :: 0 <= i < |data| && data[i].Equal(value) ==> low <= i <= high
      decreases high - low
    {
      // The chain below has no final `else`: it is the trichotomy of
      // `Less` and `Equal` that rules out an iteration making no progress.
      Trichotomy(data[mid], value);
      if data[mid].Less(value) {
        low := mid + 1;
      } else if value.Less(data[mid]) {
        high := mid - 1;
      } else if data[mid].Equal(value) {
        return Some(mid);
      }
      mid := (low + high) / 2;
    }
    return None;
  }

  /** A team deck: the caller's list of cards, which `AddToTeam` appends to. */
  class Team {
    var cards: seq<Pokemon>

    constructor ()
      ensures cards == []
    {
      cards := [];
    }
  }

  /** How `add_to_team` ends: normally, or with one of its two exceptions. */
  datatype AddResult = Added | PokemonNotFound | TeamDeckOverflow

  /**
   * `add_to_team`: looks the card up first and only then checks the team's size.
   * On success the found card of the collection is appended to the team; on
   * either error the team is left as it was.
   */
  method AddToTeam(collection: seq<Pokemon>, team: Team, name: string, level: int)
    returns (outcome: AddResult)
    modifies team
    ensures outcome != Added ==> team.cards == old(team.cards)
    ensures outcome != PokemonNotFound ==> Contains(collection, name, level)
    ensures outcome == PokemonNotFound && Sorted(collection) ==> !Contains(collection, name, level)
    ensures outcome == TeamDeckOverflow <==> outcome != PokemonNotFound && |old(team.cards)| > 5
    ensures outcome == Added ==>
      exists i :: 0 <= i < |collection| && collection[i].Equal(Key(name, level)) &&
        team.cards == old(team.cards) + [collection[i]]
  {
    var index := BinarySearch(collection, name, level);
    if index.None? {
      return PokemonNotFound;
    }
    if |team.cards| > 5 {
      return TeamDeckOverflow;
    }
    team.cards := team.cards + [collection[index.value]];
    return Added;
  }
}
