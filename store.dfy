/**
 * The in-memory entity store: the three module-level collections with their seed
 * records, and the `Mutation` resolvers, which replace or extend the game collection.
 */
module EntityStore {
  import opened Wrappers
  import opened Entities
  import opened Decimal
  import opened Resolvers
  import opened Mutations

  const SeedGames: seq<Game> := [
    Game("1", Some("golden ratio"), Some("golden ratio new"), Some(["twitch"])),
    Game("2", Some("golden ratio 11"), Some("golden ratio new2"), Some(["twitch"]))
  ]
  const SeedAuthors: seq<Author> := [Author("1", "mario", true)]
  const SeedReviews: seq<Review> := [Review("1", 9, "something", "1", "1")]

  class Store {
    var games: seq<Game>
    var authors: seq<Author>
    var reviews: seq<Review>

    /** The store as the process starts. */
    constructor ()
      ensures games == SeedGames && authors == SeedAuthors && reviews == SeedReviews
    {
      games, authors, reviews := SeedGames, SeedAuthors, SeedReviews;
    }

    /** `Mutation.deleteGame`: drops every game with that id and returns what is left. */
    method DeleteGame(id: string) returns (remaining: seq<Game>)
      modifies this`games
      ensures games == AfterDelete(old(games), id)
      ensures remaining == games
    {
      games := AfterDelete(games, id);
      remaining := games;
    }

    /** `Mutation.addGame`: appends a game whose id is the rendered count plus one. */
    method AddGame(input: AddGameInput) returns (game: Game)
      modifies this`games
      ensures game.id == NatToString(|old(games)| + 1)
      ensures game.title == Some(input.title) && game.platforms == input.platforms && game.name == input.name
      ensures games == old(games) + [game] == AfterAdd(old(games), input)
    {
      game := NewGame(|games|, input);
      games := games + [game];
    }

    /** `Mutation.updateGame`: merges the edits into every game with that id. */
    method UpdateGame(id: string, edits: EditGameInput) returns (updated: Option<Game>)
      modifies this`games
      ensures games == AfterUpdate(old(games), id, edits)
      ensures updated == QueryGame(games, id)
    {
      games := AfterUpdate(games, id, edits);
      updated := QueryGame(games, id);
    }
  }

  /**
   * Deleting game "1" from the seeded store and adding a game yields a second game with
   * id "2": `game(id: "2")` then finds the older game, whatever was submitted.
   */
  method DeleteThenAddCollides(input: AddGameInput) returns (store: Store, added: Game)
    ensures added.id == "2" && added.title == Some(input.title)
    ensures store.games == [SeedGames[1], added] && SeedGames[1].id == added.id
    ensures QueryGame(store.games, "2") == Some(SeedGames[1])
  {
    store := new Store();
    var _ := store.DeleteGame("1");
    assert store.games == [SeedGames[1]] by {
      assert SeedGames == [SeedGames[0]] + [SeedGames[1]];
      DeleteKeepsOrder([SeedGames[0]], [SeedGames[1]], "1");
    }
    added := store.AddGame(input);
    assert NatToString(2) == "2";
  }
}
