/** Properties of the seeded store, worked out on its concrete records. */
module Scenarios {
  import opened Wrappers
  import opened Entities
  import Sequences
  import opened Resolvers
  import opened Mutations
  import opened EntityStore

  /** `games` on the two seeded games resolves to the success type and lists both. */
  lemma SeededGamesQuery()
    ensures ResolveType(QueryGames(Some(SeedGames))) == SuccessTypeName
    ensures |QueryGames(Some(SeedGames)).games| == 2
  {
  }

  /** `game(id: "1")` returns the first seeded game, whose reviews are the seeded review. */
  lemma SeededGameOne()
    ensures QueryGame(SeedGames, "1") ==
      Some(Game("1", Some("golden ratio"), Some("golden ratio new"), Some(["twitch"])))
    ensures GameReviews(SeedReviews, SeedGames[0]) == [Review("1", 9, "something", "1", "1")]
    ensures GameReviews(SeedReviews, SeedGames[1]) == []
  {
    var p := (x: Review) => x.gameId == SeedGames[0].id;
    assert Sequences.Filter(SeedReviews, p) == [SeedReviews[0]] + Sequences.Filter(SeedReviews[1..], p);
  }

  /** Every seeded review's game and author exist in the seeded store. */
  lemma SeededReferencesResolve()
    ensures forall r | r in SeedReviews ::
      ReviewGame(SeedGames, r) == Some(SeedGames[0]) && ReviewAuthor(SeedAuthors, r) == Some(SeedAuthors[0])
  {
  }

  /** Deleting seeded game "1" keeps game "2" alone, after which `game(id: "1")` is absent. */
  lemma SeededDelete()
    ensures AfterDelete(SeedGames, "1") == [SeedGames[1]]
    ensures QueryGame(AfterDelete(SeedGames, "1"), "1").None?
  {
    assert SeedGames == [SeedGames[0]] + [SeedGames[1]];
    DeleteKeepsOrder([SeedGames[0]], [SeedGames[1]], "1");
    DeleteThenLookup(SeedGames, "1");
  }

  /** Editing only the title of seeded game "1" keeps its name and platforms. */
  lemma SeededTitleEdit()
    ensures UpdateResult(SeedGames, "1", EditGameInput(Given(Some("X")), Absent)) ==
      Some(Game("1", Some("X"), Some("golden ratio new"), Some(["twitch"])))
  {
    UpdateReturnsFirstMatch(SeedGames, "1", EditGameInput(Given(Some("X")), Absent));
  }
}
