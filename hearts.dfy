/**
 * The hearts endpoint (functions/api/hearts.js): a per-game counter table,
 * read by GET and upserted by POST. The `hearts` table is a map from game id
 * to count.
 */
module Hearts {
  import opened Wrappers
  import opened Http

  /** `!gameId` is false: the id is present and non-empty. */
  predicate Present(gameId: Option<string>): (b: bool)
    ensures b ==> gameId.Some?
    ensures gameId.Some? ==> (b <==> |gameId.value| > 0)
  {
    gameId.Some? && gameId.value != ""
  }

  /** `SELECT count ... WHERE game_id = ?`, with 0 for a game without a row. */
  function HeartsOf(table: map<string, int>, gameId: string): (n: int)
    ensures gameId in table ==> n == table[gameId]
    ensures gameId !in table ==> n == 0
  {
    if gameId in table then table[gameId] else 0
  }

  /** `INSERT ... VALUES (?, 1) ON CONFLICT(game_id) DO UPDATE SET count = count + 1`. */
  function Increment(table: map<string, int>, gameId: string): (r: map<string, int>)
    ensures gameId in r
    ensures gameId !in table ==> r[gameId] == 1
    ensures gameId in table ==> r[gameId] == table[gameId] + 1
    ensures forall g :: g != gameId ==> (g in r <==> g in table) && (g in table ==> r[g] == table[g])
  {
    table[gameId := if gameId in table then table[gameId] + 1 else 1]
  }

  /** `n` successful POSTs for the same game. */
  function IncrementTimes(table: map<string, int>, gameId: string, n: nat): map<string, int>
  {
    if n == 0 then table else Increment(IncrementTimes(table, gameId, n - 1), gameId)
  }

  /** Every POST adds exactly one heart to its game. */
  lemma {:induction false} IncrementTimesCount(table: map<string, int>, gameId: string, n: nat)
    ensures HeartsOf(IncrementTimes(table, gameId, n), gameId) == HeartsOf(table, gameId) + n
  {
    if n > 0 {
      IncrementTimesCount(table, gameId, n - 1);
    }
  }

  /** On a fresh table, `n` POSTs followed by a GET report `n` hearts. */
  lemma FreshTableCount(gameId: string, n: nat)
    ensures HeartsOf(IncrementTimes(map[], gameId, n), gameId) == n
  {
    IncrementTimesCount(map[], gameId, n);
  }

  /** The database behind the endpoint. */
  class HeartsDb {
    var table: map<string, int>

    constructor ()
      ensures table == map[]
    {
      table := map[];
    }

    /** `onRequestGet`: the count for the game in the query string. */
    method OnRequestGet(gameId: Option<string>) returns (resp: Response)
      ensures !Present(gameId) ==> resp == Response(400, ErrorBody("Missing gameId"))
      ensures Present(gameId) ==> resp == Json(HeartsBody(HeartsOf(table, gameId.value)))
    {
      if !Present(gameId) {
        return Response(400, ErrorBody("Missing gameId"));
      }
      var count := if gameId.value in table then table[gameId.value] else 0;
      resp := Json(HeartsBody(count));
    }

    /** `onRequestPost`: add a heart to the game named in the JSON body. */
    method OnRequestPost(gameId: Option<string>) returns (resp: Response)
      modifies this
      ensures !Present(gameId) ==> resp == Response(400, ErrorBody("Missing gameId")) && table == old(table)
      ensures Present(gameId) ==> resp == Json(SuccessBody) && table == Increment(old(table), gameId.value)
    {
      if !Present(gameId) {
        return Response(400, ErrorBody("Missing gameId"));
      }
      var id := gameId.value;
      if id in table {
        table := table[id := table[id] + 1];
      } else {
        table := table[id := 1];
      }
      resp := Json(SuccessBody);
    }
  }

  /** Two POSTs for a game on a fresh table, then a GET, report two hearts. */
  method TwoHeartsScenario() returns (resp: Response)
    ensures resp == Json(HeartsBody(2))
  {
    var db := new HeartsDb();
    var _ := db.OnRequestPost(Some("demo-1"));
    var _ := db.OnRequestPost(Some("demo-1"));
    resp := db.OnRequestGet(Some("demo-1"));
  }
}
