/**
 * What each `Mutation` resolver makes of the game collection, as functions of the
 * collection before the call.  The store's methods are specified by these functions.
 */
module Mutations {
  import opened Wrappers
  import opened Entities
  import opened Sequences
  import opened Decimal
  import opened Resolvers

  /** The collection `deleteGame(id)` leaves: `games.filter(game => game.id != id)`. */
  function AfterDelete(games: seq<Game>, id: string): (r: seq<Game>)
    ensures forall g | g in r :: g in games && g.id != id
    ensures forall g | g in games :: g in r <==> g.id != id
  {
    FilterContents(games, (g: Game) => g.id != id);
    Filter(games, (g: Game) => g.id != id)
  }

  /** Deletion keeps the surviving games in their order: it distributes over concatenation. */
  lemma DeleteKeepsOrder(a: seq<Game>, b: seq<Game>, id: string)
    ensures AfterDelete(a + b, id) == AfterDelete(a, id) + AfterDelete(b, id)
  {
    FilterConcat(a, b, (g: Game) => g.id != id);
  }

  /** Deleting an id no game has leaves the collection as it was. */
  lemma DeleteAbsentIsNoop(games: seq<Game>, id: string)
    requires forall i :: 0 <= i < |games| ==> games[i].id != id
    ensures AfterDelete(games, id) == games
  {
    FilterAllPass(games, (g: Game) => g.id != id);
  }

  /** After `deleteGame(id)`, `game(id)` finds nothing. */
  lemma DeleteThenLookup(games: seq<Game>, id: string)
    ensures QueryGame(AfterDelete(games, id), id).None?
  {
    var r := AfterDelete(games, id);
    assert forall i :: 0 <= i < |r| ==> r[i].id != id by {
      forall i | 0 <= i < |r| ensures r[i].id != id {
        assert r[i] in r;
      }
    }
  }

  /** The record `addGame` builds when the collection holds `count` games. */
  function NewGame(count: nat, input: AddGameInput): (g: Game)
    ensures ParseDecimal(g.id) == Some(count + 1)
    ensures |g.id| >= 1 && AllDigits(g.id) && g.id[0] != '0'
    ensures g.title == Some(input.title) && g.platforms == input.platforms && g.name == input.name
  {
    ParseRendered(count + 1);
    Game(NatToString(count + 1), Some(input.title), input.name, input.platforms)
  }

  /** The collection after `addGame(input)`: `games.push(game)`. */
  function AfterAdd(games: seq<Game>, input: AddGameInput): (r: seq<Game>)
    ensures |r| == |games| + 1 && r[..|games|] == games
    ensures r[|games|] == NewGame(|games|, input)
  {
    games + [NewGame(|games|, input)]
  }

  /** Two games added one after the other get different ids. */
  lemma ConsecutiveAddsDiffer(games: seq<Game>, first: AddGameInput, second: AddGameInput)
    ensures var r := AfterAdd(AfterAdd(games, first), second);
            r[|games|].id != r[|games| + 1].id
  {
    RenderInjective(|games| + 1, |games| + 2);
  }

  /**
   * `game(id)` right after `addGame` returns the submitted record, provided no earlier
   * game already carries the new id.
   */
  lemma AddThenLookup(games: seq<Game>, input: AddGameInput)
    requires forall i :: 0 <= i < |games| ==> games[i].id != NatToString(|games| + 1)
    ensures QueryGame(AfterAdd(games, input), NatToString(|games| + 1)) == Some(NewGame(|games|, input))
  {
    var r := AfterAdd(games, input);
    var id := NatToString(|games| + 1);
    var found := QueryGame(r, id);
    assert r[|games|].id == id;
    assert forall j :: 0 <= j < |games| ==> r[j].id != id by {
      forall j | 0 <= j < |games| ensures r[j].id != id { assert r[j] == games[j]; }
    }
  }

  /** One field of `{...game, ...edits}`: a given key overrides, a missing one keeps. */
  function ApplyEdit<T>(current: Option<T>, edit: Edit<T>): (r: Option<T>)
    ensures edit.Absent? ==> r == current
    ensures edit.Given? ==> r == edit.value
  {
    match edit
    case Absent => current
    case Given(v) => v
  }

  /** `{...game, ...edits}`: a shallow merge in which the edits win. */
  function Merge(game: Game, edits: EditGameInput): (r: Game)
    ensures r.id == game.id && r.name == game.name
    ensures edits.title.Absent? ==> r.title == game.title
    ensures edits.title.Given? ==> r.title == edits.title.value
    ensures edits.platforms.Absent? ==> r.platforms == game.platforms
    ensures edits.platforms.Given? ==> r.platforms == edits.platforms.value
  {
    game.(title := ApplyEdit(game.title, edits.title), platforms := ApplyEdit(game.platforms, edits.platforms))
  }

  /** Merging the same edits twice is merging them once. */
  lemma MergeIdempotent(game: Game, edits: EditGameInput)
    ensures Merge(Merge(game, edits), edits) == Merge(game, edits)
  {
  }

  /** Merging an edit that names no field changes nothing. */
  lemma MergeNothing(game: Game)
    ensures Merge(game, EditGameInput(Absent, Absent)) == game
  {
  }

  /** The collection `updateGame(id, edits)` leaves: every game with that id merged. */
  function AfterUpdate(games: seq<Game>, id: string, edits: EditGameInput): (r: seq<Game>)
    ensures |r| == |games|
    ensures forall i :: 0 <= i < |games| && games[i].id != id ==> r[i] == games[i]
    ensures forall i :: 0 <= i < |games| && games[i].id == id ==> r[i] == Merge(games[i], edits)
  {
    Map(games, (g: Game) => if g.id == id then Merge(g, edits) else g)
  }

  /** The value `updateGame(id, edits)` returns: `game(id)` on the updated collection. */
  function UpdateResult(games: seq<Game>, id: string, edits: EditGameInput): (r: Option<Game>)
    ensures r.None? <==> forall i :: 0 <= i < |games| ==> games[i].id != id
    ensures r.Some? ==> r.value.id == id
  {
    QueryGame(AfterUpdate(games, id, edits), id)
  }

  /** `updateGame` returns the first matching game merged with the edits, or nothing. */
  lemma {:induction false} UpdateReturnsFirstMatch(games: seq<Game>, id: string, edits: EditGameInput)
    ensures QueryGame(games, id).None? ==> UpdateResult(games, id, edits).None?
    ensures QueryGame(games, id).Some? ==>
      UpdateResult(games, id, edits) == Some(Merge(QueryGame(games, id).value, edits))
  {
    var r := AfterUpdate(games, id, edits);
    var before := QueryGame(games, id);
    var after := QueryGame(r, id);
    if before.Some? {
      var k :| 0 <= k < |games| && games[k] == before.value && before.value.id == id
               && forall j :: 0 <= j < k ==> games[j].id != id;
      assert r[k].id == id;
      var m :| 0 <= m < |r| && r[m] == after.value && after.value.id == id
               && forall j :: 0 <= j < m ==> r[j].id != id;
      assert games[m].id == id;
      assert m == k;
    } else {
      assert forall i :: 0 <= i < |r| ==> r[i].id != id;
    }
  }

  /** An update whose id matches nothing leaves the collection as it was. */
  lemma UpdateAbsentIsNoop(games: seq<Game>, id: string, edits: EditGameInput)
    requires forall i :: 0 <= i < |games| ==> games[i].id != id
    ensures AfterUpdate(games, id, edits) == games
    ensures UpdateResult(games, id, edits).None?
  {
    UpdateReturnsFirstMatch(games, id, edits);
  }
}
