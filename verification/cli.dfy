/**
 * The poker command line of learn-go-with-tests/02-build-an-application/CLI.go:
 * prompt for the number of players, start a game, read the winner, finish
 * the game. The game itself is not part of this model; what the CLI asks of
 * it is recorded as a trace of events.
 */
module Poker {
  import opened Wrappers
  import opened GoStrings
  import opened Strconv
  import opened LineScanner

  const PlayerPrompt := "Please enter the number of players: "
  const BadPlayerInputErrMsg := "Bad value received for number of players, please try again with a number"
  const WinsSuffix := " wins"

  /** A call the CLI makes on its game. */
  datatype GameEvent = Start(numberOfPlayers: int) | Finish(winner: string)

  /** `extractWinner`: the input with its first " wins" removed. */
  function ExtractWinner(userInput: string): (winner: string)
    ensures !Contains(userInput, WinsSuffix) ==> winner == userInput
    ensures Contains(userInput, WinsSuffix) ==>
      exists i: nat :: OccursAt(userInput, WinsSuffix, i) &&
        (forall j: nat :: j < i ==> !OccursAt(userInput, WinsSuffix, j)) &&
        winner == userInput[..i] + userInput[i + |WinsSuffix|..]
  {
    ReplaceFirst(userInput, WinsSuffix, "")
  }

  /** No " wins" in "<name> wins" starts inside the name, so the first one is the appended one. */
  predicate WinsOnlyAtEnd(name: string) {
    forall j: nat :: j < |name| ==> !OccursAt(name + WinsSuffix, WinsSuffix, j)
  }

  /** A name without spaces never holds the start of " wins". */
  lemma NoSpaceWinsOnlyAtEnd(name: string)
    requires ' ' !in name
    ensures WinsOnlyAtEnd(name)
  {
    var s := name + WinsSuffix;
    forall j: nat | j < |name|
      ensures !OccursAt(s, WinsSuffix, j)
    {
      assert s[j] == name[j];
    }
  }

  /** "<name> wins" gives back the name exactly when the first " wins" is the appended one. */
  lemma ExtractWinnerOfName(name: string)
    requires WinsOnlyAtEnd(name)
    ensures ExtractWinner(name + WinsSuffix) == name
  {
    var s := name + WinsSuffix;
    assert OccursAt(s, WinsSuffix, |name|) by {
      assert s[|name|..|name| + |WinsSuffix|] == WinsSuffix;
    }
    assert Contains(s, WinsSuffix);
    var i: nat :| OccursAt(s, WinsSuffix, i) &&
      (forall j: nat :: j < i ==> !OccursAt(s, WinsSuffix, j)) &&
      ExtractWinner(s) == s[..i] + s[i + |WinsSuffix|..];
    assert i == |name|;
    assert s[..i] == name;
  }

  /** A two-word name is given back whole: only the last " wins" is the suffix. */
  lemma ExtractWinnerOfTwoWordName()
    ensures ExtractWinner("Chris Evans wins") == "Chris Evans"
  {
    var name := "Chris Evans";
    assert name + WinsSuffix == "Chris Evans wins";
    forall j: nat | j < |name|
      ensures !OccursAt(name + WinsSuffix, WinsSuffix, j)
    {
      if j == 5 {
        assert (name + WinsSuffix)[j + 1] == 'E';
      } else {
        assert (name + WinsSuffix)[j] == name[j] != ' ';
      }
    }
    ExtractWinnerOfName(name);
  }

  /** The output and the game's trace of one run of `PlayPoker`. */
  datatype Outcome = Outcome(out: string, events: seq<GameEvent>)

  /**
   * The run of `PlayPoker` on the given input lines: the prompt always; then
   * either the error message and no game at all, or Start with the number
   * read and Finish with the winner taken from the next line.
   */
  function Session(lines: seq<string>): Outcome
  {
    match Atoi(TrimChar(LineAt(lines, 0), '\n'))
    case None => Outcome(PlayerPrompt + BadPlayerInputErrMsg, [])
    case Some(n) => Outcome(PlayerPrompt, [Start(n), Finish(ExtractWinner(LineAt(lines, 1)))])
  }

  /**
   * A first line (trailing newlines trimmed) that `Atoi` refuses, because it
   * is malformed or out of Go's `int` range, writes the error message after
   * the prompt and never starts a game; no input at all is such a line.
   */
  lemma BadInputNoGame(lines: seq<string>)
    requires var t := TrimChar(LineAt(lines, 0), '\n');
             Malformed(t) || !(MinInt <= SignedValue(t) <= MaxInt)
    ensures Session(lines) == Outcome(PlayerPrompt + BadPlayerInputErrMsg, [])
  {
    AtoiNoneIff(TrimChar(LineAt(lines, 0), '\n'));
  }

  /** A well-formed number in range starts a game with that many players, finished with the winner read from the next line. */
  lemma NumberStartsGame(lines: seq<string>)
    requires var t := TrimChar(LineAt(lines, 0), '\n');
             !Malformed(t) && MinInt <= SignedValue(t) <= MaxInt
    ensures var t := TrimChar(LineAt(lines, 0), '\n');
            Session(lines) == Outcome(PlayerPrompt, [Start(SignedValue(t)), Finish(ExtractWinner(LineAt(lines, 1)))])
  {
    AtoiNoneIff(TrimChar(LineAt(lines, 0), '\n'));
  }

  /** Typing a number and then "<name> wins" starts a game with that many players and finishes it with that name. */
  lemma TypedSession(n: int, name: string, more: seq<string>)
    requires MinInt <= n <= MaxInt && WinsOnlyAtEnd(name)
    ensures Session([Itoa(n), name + WinsSuffix] + more)
         == Outcome(PlayerPrompt, [Start(n), Finish(name)])
  {
    var lines := [Itoa(n), name + WinsSuffix] + more;
    assert '\n' !in Itoa(n);
    AtoiItoa(n);
    ExtractWinnerOfName(name);
    assert LineAt(lines, 1) == name + WinsSuffix;
  }

  /** Whatever the input, the prompt comes first, and a game that starts also finishes, once each. */
  lemma PromptFirstStartThenFinish(lines: seq<string>)
    ensures HasPrefix(Session(lines).out, PlayerPrompt)
    ensures Session(lines).events == [] ||
      (|Session(lines).events| == 2 && Session(lines).events[0].Start? && Session(lines).events[1].Finish?)
  {
    var out := Session(lines).out;
    assert out[..|PlayerPrompt|] == PlayerPrompt;
  }

  class CLI {
    const input: Scanner
    /** Everything written to the output. */
    var out: string
    /** The calls made on the game, in order. */
    var game: seq<GameEvent>

    /** `NewCLI` over a fresh scanner. */
    constructor (input: Scanner)
      ensures this.input == input && out == "" && game == []
    {
      this.input := input;
      out := "";
      game := [];
    }

    /** `readLine`: scan and return the token, "" past the end of input. */
    method ReadLine() returns (line: string)
      requires input.Valid()
      modifies input
      ensures input.Valid()
      ensures input.pos == if old(input.pos) < |input.lines| then old(input.pos) + 1 else old(input.pos)
      ensures line == LineAt(input.lines, old(input.pos))
    {
      var _ := input.Scan();
      line := input.text;
    }

    /** `PlayPoker`: one session on the unread input, appended to what was written and played before. */
    method PlayPoker()
      requires input.Valid()
      modifies this, input
      ensures input.Valid()
      ensures out == old(out) + Session(old(input.Remaining())).out
      ensures game == old(game) + Session(old(input.Remaining())).events
      ensures var consumed := if Session(old(input.Remaining())).events == [] then 1 else 2;
              input.pos == if old(input.pos) + consumed <= |input.lines| then old(input.pos) + consumed else |input.lines|
    {
      ghost var rest := input.Remaining();
      ghost var start := input.pos;
      LineAtSuffix(input.lines, start, 0);
      LineAtSuffix(input.lines, start, 1);
      out := out + PlayerPrompt;
      var numberOfPlayersInput := ReadLine();
      assert numberOfPlayersInput == LineAt(rest, 0);
      var numberOfPlayers := Atoi(TrimChar(numberOfPlayersInput, '\n'));
      if numberOfPlayers.None? {
        assert Session(rest) == Outcome(PlayerPrompt + BadPlayerInputErrMsg, []);
        out := out + BadPlayerInputErrMsg;
        return;
      }
      game := game + [Start(numberOfPlayers.value)];
      var winnerInput := ReadLine();
      assert winnerInput == LineAt(rest, 1);
      var winner := ExtractWinner(winnerInput);
      assert Session(rest) == Outcome(PlayerPrompt, [Start(numberOfPlayers.value), Finish(winner)]);
      game := game + [Finish(winner)];
    }
  }

  /** The first test of CLI_test.go: "5" then "Chris wins" starts a game of 5 won by Chris. */
  method RecordChrisWin() returns (events: seq<GameEvent>)
    ensures events == [Start(5), Finish("Chris")]
  {
    var lines := ["5", "Chris wins"];
    assert Itoa(5) == "5";
    assert "Chris" + WinsSuffix == "Chris wins";
    assert lines == [Itoa(5), "Chris" + WinsSuffix] + [];
    NoSpaceWinsOnlyAtEnd("Chris");
    TypedSession(5, "Chris", []);
    var input := new Scanner(lines);
    var cli := new CLI(input);
    assert input.Remaining() == lines;
    cli.PlayPoker();
    events := cli.game;
  }

  /** The prompt test of CLI_test.go: input "7" writes only the prompt and starts a game of 7. */
  method PromptAndStart() returns (out: string, events: seq<GameEvent>)
    ensures out == PlayerPrompt
    ensures |events| > 0 && events[0] == Start(7)
  {
    var lines := ["7"];
    assert Itoa(7) == "7";
    AtoiItoa(7);
    assert TrimLeftChar("7", '\n') == "7";
    assert TrimChar("7", '\n') == "7";
    var input := new Scanner(lines);
    var cli := new CLI(input);
    assert input.Remaining() == lines;
    cli.PlayPoker();
    out := cli.out;
    events := cli.game;
  }
}
