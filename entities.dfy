/**
 * The records of the entity store and the argument shapes of the mutations,
 * as the schema declares them and the resolvers build them.
 */
module Entities {
  import opened Wrappers

  /** A game.  Fields a mutation may leave undefined or set to null are optional. */
  datatype Game = Game(id: string, title: Option<string>, name: Option<string>, platforms: Option<seq<string>>)

  datatype Author = Author(id: string, name: string, verified: bool)

  /** A review refers to its game and author by id; nothing checks that they exist. */
  datatype Review = Review(id: string, rating: int, content: string, authorId: string, gameId: string)

  /** `AddGameInput`.  The resolver also reads `name`, which the input type does not declare. */
  datatype AddGameInput = AddGameInput(title: string, platforms: Option<seq<string>>, name: Option<string>)

  /**
   * One field of an edit: the key is missing from the input object, or it is present
   * with a value that may be null.  Object spread tells the two apart.
   */
  datatype Edit<T> = Absent | Given(value: Option<T>)

  /** `EditGameInput`. */
  datatype EditGameInput = EditGameInput(title: Edit<string>, platforms: Edit<seq<string>>)

  datatype ErrorEntry = ErrorEntry(message: string)

  /** The two members of the union `GamesResults`. */
  datatype GamesResults = GameSuccess(games: seq<Game>) | GameErrors(errors: seq<ErrorEntry>)
}
