/**
 * The read-only resolvers: the `Query` fields, the relationship fields of `Game`,
 * `Author` and `Review`, and the discriminator of the `GamesResults` union.  Each one
 * takes the collections it reads as parameters.
 */
module Resolvers {
  import opened Wrappers
  import opened Entities
  import opened Sequences

  const SuccessTypeName := "GameSuccessResults"
  const ErrorTypeName := "GameErrorResults"
  const ErrorHappened := "Error happened"

  /**
   * `Query.games`.  `games` is the value of the store's binding; None stands for a
   * binding that is undefined or null, the only falsy case an array binding has.
   */
  function QueryGames(games: Option<seq<Game>>): (r: GamesResults)
    ensures games.Some? ==> r == GameSuccess(games.value)
    ensures games.None? ==> r.GameErrors? && |r.errors| == 1 && r.errors[0].message == ErrorHappened
  {
    match games
    case Some(gs) => GameSuccess(gs)
    case None => GameErrors([ErrorEntry(ErrorHappened)])
  }

  /** `GamesResults.__resolveType`: the success type exactly when the value carries `games`. */
  function ResolveType(obj: GamesResults): (name: string)
    ensures name == SuccessTypeName <==> obj.GameSuccess?
    ensures name == ErrorTypeName <==> obj.GameErrors?
  {
    if obj.GameSuccess? then SuccessTypeName else ErrorTypeName
  }

  /** `Query.reviews`: the whole collection, unfiltered. */
  function QueryReviews(reviews: seq<Review>): (r: seq<Review>)
    ensures r == reviews
  {
    reviews
  }

  /** `Query.authors`: the whole collection, unfiltered. */
  function QueryAuthors(authors: seq<Author>): (r: seq<Author>)
    ensures r == authors
  {
    authors
  }

  /** `Query.review(id)`: the first review with that id, or nothing. */
  function QueryReview(reviews: seq<Review>, id: string): (r: Option<Review>)
    ensures r.None? <==> forall i :: 0 <= i < |reviews| ==> reviews[i].id != id
    ensures r.Some? ==> exists i :: 0 <= i < |reviews| && reviews[i] == r.value && r.value.id == id
                                    && forall j :: 0 <= j < i ==> reviews[j].id != id
  {
    Find(reviews, (x: Review) => x.id == id)
  }

  /** `Query.game(id)`: the first game with that id, or nothing. */
  function QueryGame(games: seq<Game>, id: string): (r: Option<Game>)
    ensures r.None? <==> forall i :: 0 <= i < |games| ==> games[i].id != id
    ensures r.Some? ==> exists i :: 0 <= i < |games| && games[i] == r.value && r.value.id == id
                                    && forall j :: 0 <= j < i ==> games[j].id != id
  {
    Find(games, (g: Game) => g.id == id)
  }

  /** `Query.author(id)`: the first author with that id, or nothing. */
  function QueryAuthor(authors: seq<Author>, id: string): (r: Option<Author>)
    ensures r.None? <==> forall i :: 0 <= i < |authors| ==> authors[i].id != id
    ensures r.Some? ==> exists i :: 0 <= i < |authors| && authors[i] == r.value && r.value.id == id
                                    && forall j :: 0 <= j < i ==> authors[j].id != id
  {
    Find(authors, (a: Author) => a.id == id)
  }

  /** `Game.reviews`: the reviews whose `game_id` is the game's id, in store order. */
  function GameReviews(reviews: seq<Review>, parent: Game): (r: seq<Review>)
    ensures forall x | x in r :: x in reviews && x.gameId == parent.id
    ensures forall x | x in reviews :: x in r <==> x.gameId == parent.id
    ensures forall x | x in reviews ::
      multiset(r)[x] == if x.gameId == parent.id then multiset(reviews)[x] else 0
  {
    FilterContents(reviews, (x: Review) => x.gameId == parent.id);
    Filter(reviews, (x: Review) => x.gameId == parent.id)
  }

  /** `Author.reviews`: the reviews whose `author_id` is the author's id, in store order. */
  function AuthorReviews(reviews: seq<Review>, parent: Author): (r: seq<Review>)
    ensures forall x | x in r :: x in reviews && x.authorId == parent.id
    ensures forall x | x in reviews :: x in r <==> x.authorId == parent.id
    ensures forall x | x in reviews ::
      multiset(r)[x] == if x.authorId == parent.id then multiset(reviews)[x] else 0
  {
    FilterContents(reviews, (x: Review) => parent.id == x.authorId);
    Filter(reviews, (x: Review) => parent.id == x.authorId)
  }

  /** `Game.reviews` keeps store order: it distributes over concatenation of the store. */
  lemma GameReviewsKeepOrder(a: seq<Review>, b: seq<Review>, parent: Game)
    ensures GameReviews(a + b, parent) == GameReviews(a, parent) + GameReviews(b, parent)
  {
    FilterConcat(a, b, (x: Review) => x.gameId == parent.id);
  }

  /** `Author.reviews` keeps store order: it distributes over concatenation of the store. */
  lemma AuthorReviewsKeepOrder(a: seq<Review>, b: seq<Review>, parent: Author)
    ensures AuthorReviews(a + b, parent) == AuthorReviews(a, parent) + AuthorReviews(b, parent)
  {
    FilterConcat(a, b, (x: Review) => parent.id == x.authorId);
  }

  /** `Review.game`: the first game whose id is the review's `game_id`, or nothing. */
  function ReviewGame(games: seq<Game>, parent: Review): (r: Option<Game>)
    ensures r.None? <==> forall i :: 0 <= i < |games| ==> games[i].id != parent.gameId
    ensures r.Some? ==> exists i :: 0 <= i < |games| && games[i] == r.value && r.value.id == parent.gameId
                                    && forall j :: 0 <= j < i ==> games[j].id != parent.gameId
  {
    Find(games, (g: Game) => g.id == parent.gameId)
  }

  /** `Review.author`: the first author whose id is the review's `author_id`, or nothing. */
  function ReviewAuthor(authors: seq<Author>, parent: Review): (r: Option<Author>)
    ensures r.None? <==> forall i :: 0 <= i < |authors| ==> authors[i].id != parent.authorId
    ensures r.Some? ==> exists i :: 0 <= i < |authors| && authors[i] == r.value && r.value.id == parent.authorId
                                    && forall j :: 0 <= j < i ==> authors[j].id != parent.authorId
  {
    Find(authors, (a: Author) => a.id == parent.authorId)
  }

  /** Whatever the store holds, even nothing, `Query.games` resolves to the success type. */
  lemma GamesQueryResolvesToSuccess(games: seq<Game>)
    ensures ResolveType(QueryGames(Some(games))) == SuccessTypeName
    ensures QueryGames(Some(games)).games == games
  {
  }

  /** The defensive branch of `Query.games` resolves to the error type. */
  lemma MissingGamesResolvesToError()
    ensures ResolveType(QueryGames(None)) == ErrorTypeName
  {
  }

  /** A review's game, when it resolves, lists that review among its reviews. */
  lemma ReviewGameRoundTrip(games: seq<Game>, reviews: seq<Review>, review: Review)
    requires review in reviews
    requires ReviewGame(games, review).Some?
    ensures review in GameReviews(reviews, ReviewGame(games, review).value)
  {
  }

  /** A review's author, when it resolves, lists that review among its reviews. */
  lemma ReviewAuthorRoundTrip(authors: seq<Author>, reviews: seq<Review>, review: Review)
    requires review in reviews
    requires ReviewAuthor(authors, review).Some?
    ensures review in AuthorReviews(reviews, ReviewAuthor(authors, review).value)
  {
  }

  /** Every review a stored game lists resolves back to a game with that id. */
  lemma GameReviewsResolveBack(games: seq<Game>, reviews: seq<Review>, game: Game, review: Review)
    requires game in games
    requires review in GameReviews(reviews, game)
    ensures ReviewGame(games, review).Some? && ReviewGame(games, review).value.id == game.id
  {
  }

  /** Every review `Query.reviews` lists is found again by `Query.review` on its id. */
  lemma ListedReviewsAreFound(reviews: seq<Review>, i: nat)
    requires i < |QueryReviews(reviews)|
    ensures QueryReview(reviews, reviews[i].id).Some?
    ensures QueryReview(reviews, reviews[i].id).value.id == reviews[i].id
  {
  }

  /** Every author `Query.authors` lists is found again by `Query.author` on its id. */
  lemma ListedAuthorsAreFound(authors: seq<Author>, i: nat)
    requires i < |QueryAuthors(authors)|
    ensures QueryAuthor(authors, authors[i].id).Some?
    ensures QueryAuthor(authors, authors[i].id).value.id == authors[i].id
  {
  }
}
