# Verified model of the games/authors/reviews resolver table

This project models the resolver table of a small GraphQL service (games, their
reviews and the reviews' authors) together with the in-memory entity store it reads
and writes. The source is `src/index.ts`.

- **Wrappers**: `Option`. A resolver that returns `undefined` returns `None` here.
- **Decimal**: `NatToString` is how `Number.prototype.toString()` renders a
  non-negative integer below 10^21, which covers every `games.length + 1`.
  Parsing the rendered string with `ParseDecimal` gives the number back.
  `addGame` uses the rendering to build ids.
- **Sequences**: the semantics of the array operations `find`, `filter` and `map`
  that the lookups, the relationship fields, `deleteGame` and `updateGame` are
  built from.
- **Entities**: the Game, Author and Review records; the `AddGameInput` and
  `EditGameInput` argument shapes; and the `GamesResults` union.
- **Resolvers**: the read-only resolvers, written as functions of the collections they
  read. These are the `Query` fields, `Game.reviews`, `Author.reviews`, `Review.game`,
  `Review.author` and `GamesResults.__resolveType`.
- **Mutations**: what `deleteGame`, `addGame` and `updateGame` make of the game
  collection, as functions of the old collection, with lemmas about them.
- **EntityStore**: the seed records and the class `Store`. Its `games`, `authors` and
  `reviews` fields are the three module-level collections. Its methods are the
  mutation resolvers; they modify only `games`, and each is specified by the matching
  function in Mutations.
- **Scenarios**: the same properties worked out on the concrete seed records.

Modelling decisions:
- Ids are strings, and JavaScript `==` between two strings is string equality.
- A Game's `title`, `name` and `platforms` are optional. `addGame` copies
  `args.game.name` and `args.game.platforms`, which may be undefined. An edit may
  set `title` or `platforms` to null.
- An edit field has three states: the key is missing (`Absent`), or it is present
  with a value or with null (`Given`). Object spread keeps the old value only when
  the key is missing.
- `Query.games` takes the games binding as an `Option`. `None` stands for an
  undefined or null binding, which is the only way the `if (games)` test can fail.
  An array is truthy even when it is empty, so the store always gets the success
  shape, even with no games at all.
- `updateGame` merges the edits into every game with a matching id, not only the
  first one, and returns the first. `EditGameInput` has no `id` field, so a merge
  never changes an id.
- `addGame` assigns the id `games.length + 1`. After a deletion this can repeat an id
  that is still in use. The model keeps this behaviour.
  `EntityStore.DeleteThenAddCollides` shows a store that reaches the collision.
  `Mutations.AddThenLookup` states when `game(id)` finds the new record.
- The schema's `AddGameInput` declares no `name`, but the resolver copies
  `args.game.name`. The model keeps the field in the input. Under the declared
  input type it is always `None`.

## Model

| member | source | states |
|---|---|---|
| Decimal.NatToString | src/index.ts:152-153 | the id string is a non-empty run of decimal digits with no leading zero (only 0 renders as "0") |
| Decimal.ParseRendered | src/index.ts:152-153 | parsing the rendered id gives back the number: the rendering loses nothing |
| Decimal.RenderInjective | src/index.ts:152-153 | two counts render to the same id exactly when they are equal |
| Sequences.Find | src/index.ts:107 | `find` is None exactly when no element passes; otherwise it is the element at the first passing index |
| Sequences.Filter | src/index.ts:117 | `filter` never returns more elements than its input; what it keeps and in which order are stated by FilterContents and FilterConcat |
| Sequences.FilterContents | src/index.ts:117 | `filter` keeps an element of the input exactly when it passes, and keeps it as often as the input holds it |
| Sequences.FilterConcat | src/index.ts:117 | `filter` keeps the input order: filtering a concatenation concatenates the filtered parts |
| Sequences.FilterAllPass | src/index.ts:147 | a filter that every element passes returns its input unchanged |
| Sequences.Map | src/index.ts:159-165 | `map` keeps the length and puts the image of element i at position i |
| Resolvers.QueryGames | src/index.ts:91-98 | a defined games binding gives the success shape carrying the whole collection; otherwise the single error "Error happened" |
| Resolvers.ResolveType | src/index.ts:136-142 | the tag is "GameSuccessResults" exactly for a value that carries `games`, and "GameErrorResults" exactly for one that does not |
| Resolvers.QueryReviews | src/index.ts:99 | returns the whole review collection, unfiltered |
| Resolvers.QueryAuthors | src/index.ts:100 | returns the whole author collection, unfiltered |
| Resolvers.QueryReview | src/index.ts:101-104 | absent exactly when no review has the id; otherwise the review at the first index with that id |
| Resolvers.QueryGame | src/index.ts:105-108 | absent exactly when no game has the id; otherwise the game at the first index with that id |
| Resolvers.QueryAuthor | src/index.ts:109-112 | absent exactly when no author has the id; otherwise the author at the first index with that id |
| Resolvers.GameReviews | src/index.ts:115-118 | a review is listed exactly when its game_id is the game's id, and as often as the store holds it |
| Resolvers.AuthorReviews | src/index.ts:121-124 | a review is listed exactly when its author_id is the author's id, and as often as the store holds it |
| Resolvers.GameReviewsKeepOrder | src/index.ts:115-118 | `Game.reviews` lists the matching reviews in store order: filtering a concatenated store concatenates the results |
| Resolvers.AuthorReviewsKeepOrder | src/index.ts:121-124 | `Author.reviews` lists the matching reviews in store order: filtering a concatenated store concatenates the results |
| Resolvers.ReviewGame | src/index.ts:127-130 | absent exactly when no game has the review's game_id; otherwise the first such game |
| Resolvers.ReviewAuthor | src/index.ts:131-133 | absent exactly when no author has the review's author_id; otherwise the first such author |
| Resolvers.GamesQueryResolvesToSuccess | src/index.ts:91-98 | for every collection, including the empty one, `games` resolves to the success type and carries the collection |
| Resolvers.MissingGamesResolvesToError | src/index.ts:92-96 | the defensive branch resolves to the error type |
| Resolvers.ReviewGameRoundTrip | src/index.ts:115-130 | when a stored review's game resolves, that game's reviews list the review |
| Resolvers.ReviewAuthorRoundTrip | src/index.ts:121-133 | when a stored review's author resolves, that author's reviews list the review |
| Resolvers.GameReviewsResolveBack | src/index.ts:115-130 | every review that a stored game lists resolves back to a game with that game's id |
| Resolvers.ListedReviewsAreFound | src/index.ts:99-104 | every review that `reviews` lists is found by `review(id)` on its id |
| Resolvers.ListedAuthorsAreFound | src/index.ts:100-112 | every author that `authors` lists is found by `author(id)` on its id |
| Mutations.AfterDelete | src/index.ts:145-149 | no remaining game has the id, and every game with another id remains |
| Mutations.DeleteKeepsOrder | src/index.ts:147 | the surviving games keep their original order |
| Mutations.DeleteAbsentIsNoop | src/index.ts:147 | deleting an id that no game has leaves the collection unchanged |
| Mutations.DeleteThenLookup | src/index.ts:105-149 | after `deleteGame(id)`, `game(id)` is absent |
| Mutations.NewGame | src/index.ts:152-153 | the new record's id is a digit string without leading zero that parses back to count + 1, and it carries the submitted title, platforms and name |
| Mutations.AfterAdd | src/index.ts:150-157 | the collection grows by one, earlier records are unchanged, and the last record is the new one |
| Mutations.ConsecutiveAddsDiffer | src/index.ts:152 | two games added one after the other get different ids |
| Mutations.AddThenLookup | src/index.ts:105-157 | if no earlier game carries the new id, `game(newId)` right after `addGame` returns the submitted record |
| Mutations.ApplyEdit | src/index.ts:162 | a key present in the edits overrides the field, including with null; a missing key keeps the field |
| Mutations.Merge | src/index.ts:162 | the merge takes every field present in the edits and keeps every absent one; id and name are kept |
| Mutations.MergeIdempotent | src/index.ts:162 | merging the same edits twice is the same as merging them once |
| Mutations.MergeNothing | src/index.ts:162 | an edit with no keys leaves the record unchanged |
| Mutations.AfterUpdate | src/index.ts:159-165 | length and order are kept, games with another id are unchanged, and each matching game is merged |
| Mutations.UpdateResult | src/index.ts:167 | the returned game is absent exactly when no old game has the id, and otherwise carries the id; UpdateReturnsFirstMatch states which record it is |
| Mutations.UpdateReturnsFirstMatch | src/index.ts:158-168 | `updateGame` returns the first matching game of the old collection merged with the edits, or absent when none matches |
| Mutations.UpdateAbsentIsNoop | src/index.ts:158-168 | an update that matches no id leaves the collection unchanged and returns absent |
| EntityStore.Store.constructor | src/index.ts:85-87 | the store starts with the two seeded games, the one seeded author and the one seeded review |
| EntityStore.Store.DeleteGame | src/index.ts:145-149 | the games become the old games without the id, the returned value is the new collection, and authors and reviews are untouched |
| EntityStore.Store.AddGame | src/index.ts:150-157 | the returned record has id = rendered old length + 1 and the submitted fields, and it is appended after the unchanged old games |
| EntityStore.Store.UpdateGame | src/index.ts:158-168 | the games become the merged collection, and the result is `game(id)` on it |
| EntityStore.DeleteThenAddCollides | src/index.ts:145-157 | deleting seeded game "1" and then adding a game gives two games with id "2", and `game(id: "2")` finds the older one |
| Scenarios.SeededGamesQuery | src/index.ts:85-98 | on the seeded store, `games` resolves to the success type with two games |
| Scenarios.SeededGameOne | src/index.ts:105-118 | on the seeded store, `game(id: "1")` is the first seeded record; its reviews are the seeded review, and game "2" has none |
| Scenarios.SeededReferencesResolve | src/index.ts:127-133 | every seeded review's game and author resolve |
| Scenarios.SeededDelete | src/index.ts:145-149 | deleting seeded game "1" leaves only game "2", after which `game(id: "1")` is absent |
| Scenarios.SeededTitleEdit | src/index.ts:158-168 | editing only the title of seeded game "1" keeps its name and platforms |

## Left out

- The server bootstrap is not modelled: `ApolloServer`, `startStandaloneServer`, port 4000 and the context factory (src/index.ts:172-184). They are transport code in a library.
- The GraphQL execution engine is not modelled. This covers selection walking, default field resolvers, scalar coercion and null propagation for non-null fields. That code lives in `@apollo/server`, which is not part of this model.
- The `typeDefs` schema text (src/index.ts:7-72) is not modelled. It only shows up here as the record fields and their optionality. The `@deprecated` annotation has no runtime effect.
- The `console.log` calls are left out; they only produce output.
- The unused `books` array is left out.
- The `context` and `info` resolver parameters are left out; no resolver reads them.
- JavaScript loose-equality coercion is left out, because every id compared is a string.
- Array aliasing is not modelled. `deleteGame` returns the store's own array object, and a later `push` would be visible through it. The model works on values, and the response is serialized before the next operation runs.
- Concurrency is left out. Operations run one at a time, as the single-threaded runtime does.
