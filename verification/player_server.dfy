/**
 * The HTTP player server of learn-go-with-tests/02-build-an-application/server.go,
 * over its in-memory win counter. Only the dispatch decision is modelled:
 * a request is a method and a path, a response a status and a body.
 */
module PlayerServer {
  import opened GoStrings
  import opened Strconv

  /** A name's count in the map, 0 when absent: Go's zero value for a missing key. */
  function ScoreIn(scores: map<string, int>, name: string): (score: int)
    ensures name !in scores ==> score == 0
  {
    if name in scores then scores[name] else 0
  }

  /** `i.store[name]++` as a new map. */
  function WithWin(scores: map<string, int>, name: string): (r: map<string, int>)
    ensures ScoreIn(r, name) == ScoreIn(scores, name) + 1
    ensures forall other :: other != name ==> ScoreIn(r, other) == ScoreIn(scores, other)
    ensures r.Keys == scores.Keys + {name}
  {
    scores[name := ScoreIn(scores, name) + 1]
  }

  /** No count is negative: counts start at 0 and only ever go up by one. */
  predicate NonNegativeScores(scores: map<string, int>) {
    forall name :: name in scores ==> scores[name] >= 0
  }

  /** The counts after recording each name of `names` in turn. */
  function AfterWins(scores: map<string, int>, names: seq<string>): map<string, int>
    decreases |names|
  {
    if |names| == 0 then scores else AfterWins(WithWin(scores, names[0]), names[1..])
  }

  /** How often `name` occurs in `names`. */
  function Occurrences(names: seq<string>, name: string): nat
    decreases |names|
  {
    if |names| == 0 then 0 else (if names[0] == name then 1 else 0) + Occurrences(names[1..], name)
  }

  /** Every player's count goes up by exactly the number of wins recorded for them. */
  lemma {:induction false} ScoreAfterWins(scores: map<string, int>, names: seq<string>, player: string)
    decreases |names|
    ensures ScoreIn(AfterWins(scores, names), player) == ScoreIn(scores, player) + Occurrences(names, player)
  {
    if |names| > 0 {
      ScoreAfterWins(WithWin(scores, names[0]), names[1..], player);
    }
  }

  class InMemoryPlayerStore {
    var store: map<string, int>

    /** Every reachable store holds only non-negative counts. */
    ghost predicate Valid()
      reads this
    {
      NonNegativeScores(store)
    }

    /** `NewInMemoryPlayerStore`: no wins recorded. */
    constructor ()
      ensures Valid()
      ensures store == map[]
    {
      store := map[];
    }

    /** `RecordWin`: one more win for `name`, starting from 0; no other count changes. */
    method RecordWin(name: string)
      requires Valid()
      modifies this
      ensures Valid()
      ensures store == WithWin(old(store), name)
    {
      var current := if name in store then store[name] else 0;
      store := store[name := current + 1];
    }

    /** `GetPlayerScore`: the stored count, 0 for an unknown name. */
    function GetPlayerScore(name: string): (score: int)
      reads this
      ensures name in store ==> score == store[name]
      ensures name !in store ==> score == 0
    {
      ScoreIn(store, name)
    }
  }

  const MethodGet := "GET"
  const MethodPost := "POST"
  const StatusOK := 200
  const StatusAccepted := 202
  const StatusNotFound := 404
  const PlayersPath := "/players/"

  /** What the server writes back: a status code and a body. */
  datatype Response = Response(status: int, body: string)

  /** The player a request is about: its path with a leading "/players/" removed. */
  function PlayerOf(path: string): (player: string)
    ensures HasPrefix(path, PlayersPath) ==> PlayersPath + player == path
    ensures !HasPrefix(path, PlayersPath) ==> player == path
  {
    TrimPrefix(path, PlayersPath)
  }

  /**
   * The answer and the new counts for one request: POST records a win and
   * answers 202 with no body; GET answers the score, with 404 when it is 0;
   * any other method answers 200 with no body and changes nothing.
   */
  function Serve(scores: map<string, int>, verb: string, path: string): (map<string, int>, Response)
  {
    var player := PlayerOf(path);
    if verb == MethodPost then
      (WithWin(scores, player), Response(StatusAccepted, ""))
    else if verb == MethodGet then
      var score := ScoreIn(scores, player);
      (scores, Response(if score == 0 then StatusNotFound else StatusOK, Itoa(score)))
    else
      (scores, Response(StatusOK, ""))
  }

  /** Only a POST changes the counts, and only the requested player's. */
  lemma OnlyPostChanges(scores: map<string, int>, verb: string, path: string, other: string)
    ensures verb != MethodPost ==> Serve(scores, verb, path).0 == scores
    ensures other != PlayerOf(path) ==> ScoreIn(Serve(scores, verb, path).0, other) == ScoreIn(scores, other)
  {
  }

  /** A GET after a POST for the same player never answers 404. */
  lemma GetAfterPostFound(scores: map<string, int>, path: string)
    requires NonNegativeScores(scores)
    ensures var after := Serve(scores, MethodPost, path).0;
            Serve(after, MethodGet, path).1.status == StatusOK
  {
  }

  class PlayerServer {
    const store: InMemoryPlayerStore

    constructor (store: InMemoryPlayerStore)
      ensures this.store == store
    {
      this.store := store;
    }

    /** `ServeHTTP`: trim the path to a player name, then dispatch on the method. */
    method ServeHTTP(verb: string, path: string) returns (response: Response)
      requires store.Valid()
      modifies store
      ensures store.Valid()
      ensures (store.store, response) == Serve(old(store.store), verb, path)
    {
      var player := TrimPrefix(path, PlayersPath);
      if verb == MethodPost {
        response := ProcessWin(player);
      } else if verb == MethodGet {
        response := ShowScore(player);
      } else {
        response := Response(StatusOK, "");
      }
    }

    /** `showScore`: the score as the body, with 404 when it is 0. */
    method ShowScore(player: string) returns (response: Response)
      ensures response.body == Itoa(ScoreIn(store.store, player))
      ensures response.status == StatusNotFound <==> ScoreIn(store.store, player) == 0
      ensures response.status == StatusOK <==> ScoreIn(store.store, player) != 0
    {
      var score := store.GetPlayerScore(player);
      var status := StatusOK;
      if score == 0 {
        status := StatusNotFound;
      }
      response := Response(status, Itoa(score));
    }

    /** `processWin`: record the win and answer 202. */
    method ProcessWin(player: string) returns (response: Response)
      requires store.Valid()
      modifies store
      ensures store.Valid()
      ensures store.store == WithWin(old(store.store), player)
      ensures response == Response(StatusAccepted, "")
    {
      store.RecordWin(player);
      response := Response(StatusAccepted, "");
    }
  }

  /** The in-memory test of server_intergration_test.go: three wins for Pepper, then a score of 3. */
  method RecordingWinsAndRetrievingThem() returns (response: Response)
    ensures response == Response(StatusOK, "3")
  {
    var store := new InMemoryPlayerStore();
    var server := new PlayerServer(store);
    var path := "/players/Pepper";
    var _ := server.ServeHTTP(MethodPost, path);
    var _ := server.ServeHTTP(MethodPost, path);
    var _ := server.ServeHTTP(MethodPost, path);
    response := server.ServeHTTP(MethodGet, path);
    assert Itoa(3) == "3";
  }

  /** A GET for a player nobody has recorded answers 404 with body "0". */
  method UnknownPlayer() returns (response: Response)
    ensures response == Response(StatusNotFound, "0")
  {
    var store := new InMemoryPlayerStore();
    var server := new PlayerServer(store);
    response := server.ServeHTTP(MethodGet, "/players/Apollo");
    assert Itoa(0) == "0";
  }
}
