/**
 * The league held by learn-go-with-tests/02-build-an-application/file_system_store.go:
 * a sequence of players, in which a win either increments the named player
 * or appends a new one.
 */
module LeagueStore {
  import opened Wrappers

  datatype Player = Player(name: string, wins: int)

  /** `League.Find`: the position of the first player with this name. */
  function Find(league: seq<Player>, name: string): (r: Option<nat>)
    decreases |league|
    ensures r.Some? ==> r.value < |league| && league[r.value].name == name
    ensures r.Some? ==> forall j :: 0 <= j < r.value ==> league[j].name != name
    ensures r.None? <==> forall j :: 0 <= j < |league| ==> league[j].name != name
  {
    if |league| == 0 then None
    else if league[0].name == name then Some(0)
    else match Find(league[1..], name)
      case None => None
      case Some(i) => Some(i + 1)
  }

  /** The found player's wins, or 0 when nobody has that name. */
  function ScoreIn(league: seq<Player>, name: string): int
  {
    match Find(league, name)
    case None => 0
    case Some(i) => league[i].wins
  }

  /** The league after one win for `name`. */
  function WithWin(league: seq<Player>, name: string): seq<Player>
  {
    match Find(league, name)
    case None => league + [Player(name, 1)]
    case Some(i) => league[i := Player(name, league[i].wins + 1)]
  }

  /** The winner's score goes up by one, starting from 0 for a new name. */
  lemma WinScores(league: seq<Player>, name: string)
    ensures ScoreIn(WithWin(league, name), name) == ScoreIn(league, name) + 1
  {
    var after := WithWin(league, name);
    match Find(league, name)
    case None =>
      assert after[|league|].name == name;
    case Some(i) =>
      assert after[i].name == name;
  }

  /** No other player's score changes. */
  lemma OthersKeepScores(league: seq<Player>, name: string, other: string)
    requires other != name
    ensures ScoreIn(WithWin(league, name), other) == ScoreIn(league, other)
  {
    var after := WithWin(league, name);
    match Find(league, other)
    case None =>
      assert forall j :: 0 <= j < |after| ==> after[j].name != other by {
        forall j | 0 <= j < |after|
          ensures after[j].name != other
        {
          if j < |league| { assert after[j].name == league[j].name; }
        }
      }
    case Some(k) =>
      assert after[k] == league[k];
      assert forall j :: 0 <= j < k ==> after[j].name == league[j].name;
  }

  /**
   * The shape of the new league: an existing player is updated in place and
   * everyone else is untouched; a new name is appended at the end with one win.
   */
  lemma WinShape(league: seq<Player>, name: string)
    ensures Find(league, name).Some? ==>
      var i := Find(league, name).value;
      var after := WithWin(league, name);
      |after| == |league| && after[i] == Player(name, league[i].wins + 1) &&
      forall j :: 0 <= j < |league| && j != i ==> after[j] == league[j]
    ensures Find(league, name).None? ==> WithWin(league, name) == league + [Player(name, 1)]
  {
  }

  class FileSystemPlayerStore {
    var league: seq<Player>

    /** A store over a league already decoded from its file. */
    constructor (league: seq<Player>)
      ensures this.league == league
    {
      this.league := league;
    }

    /** `GetLeague`. */
    function GetLeague(): seq<Player>
      reads this
    {
      league
    }

    /** `GetPlayerScore`: the found player's wins, or 0 when there is none. */
    method GetPlayerScore(name: string) returns (score: int)
      ensures score == ScoreIn(league, name)
      ensures (exists i :: 0 <= i < |league| && league[i].name == name) || score == 0
    {
      var player := Find(GetLeague(), name);
      if player.Some? {
        score := league[player.value].wins;
      } else {
        score := 0;
      }
    }

    /** `RecordWin`: increment the found player, or append a player with one win. */
    method RecordWin(name: string)
      modifies this
      ensures league == WithWin(old(league), name)
    {
      var player := Find(league, name);
      if player.Some? {
        var i := player.value;
        league := league[i := league[i].(wins := league[i].wins + 1)];
      } else {
        league := league + [Player(name, 1)];
      }
    }
  }

  /** The two win-recording cases of file_system_store_test.go over Cleo 10 and Chris 33. */
  method StoreWinsCases() returns (chris: int, pepper: int, size: nat)
    ensures chris == 34 && pepper == 1 && size == 3
  {
    var start := [Player("Cleo", 10), Player("Chris", 33)];
    assert start[1..] == [Player("Chris", 33)];
    assert Find(start, "Chris") == Some(1);
    assert Find(start, "Pepper") == None;
    WinScores(start, "Chris");
    WinScores(start, "Pepper");
    var existing := new FileSystemPlayerStore([Player("Cleo", 10), Player("Chris", 33)]);
    existing.RecordWin("Chris");
    chris := existing.GetPlayerScore("Chris");
    var newcomer := new FileSystemPlayerStore([Player("Cleo", 10), Player("Chris", 33)]);
    newcomer.RecordWin("Pepper");
    pepper := newcomer.GetPlayerScore("Pepper");
    size := |newcomer.GetLeague()|;
  }
}
