# Go teaching exercises, modelled in Dafny

This project models the small sequential components of a repository of Go
exercises, and proves what they promise:

- **Roman numerals** (`Numeral`, `Numeral16`). A greedy encoder walks the
  descending table of thirteen symbols. A windowing tokenizer pairs I, X or C
  with the next character when the two make a table symbol. A decoder sums the
  token values. The `int` version is proved to round-trip for every n ≥ 0. The
  `uint16` version is proved to round-trip for every `uint16`, and its decoder's
  wrap-around is stated explicitly. The `uint16` copy has the same `Symbols`,
  `Exists` and table lookup as the `int` copy, so it reuses `Numeral.Symbols`
  and `Numeral.Exists`. It keeps its own `ValueOf`, `ConvertToRoman` and
  `ConvertToArabic`.
- **Keyed stores that change in place.**
  - Two `Dictionary` maps with typed errors (`MapsDictionary`, `Dictionary`).
  - The `Wallet` balance.
  - The in-memory player win counter and the HTTP dispatch in front of it
    (`PlayerServer`).
  - The league of players kept by the file-backed store (`LeagueStore`).
  - Each is a class whose methods state the whole new state and the error
    they return.
- **Small functions.**
  - `Sum`, `SumAll` and `SumAllTails`. Three copies in the repository are
    modelled once, in `Sum`.
  - Two greeting builders (`Hello`, `HelloWorld`).
  - The `/servicea/query/` path rewrite (`ServicePath`).
  - A book classifier (`Book`).
- **Line-oriented readers and traces.**
  - The blog-post parser (`BlogPosts`) reads through a line scanner
    (`LineScanner`).
  - The poker command line (`Poker`) maps input lines to output text plus the
    calls it makes on its game.
  - The countdown (`Countdown`) is a recorded sequence of sleeps and writes.
    Two copies in the repository are modelled once.

Support modules give the parts of Go's library that the code calls:
- `GoStrings`: prefix and suffix tests and trims, index, replace-first,
  split, join and trim.
- `Strconv`: decimal printing and `strconv.Atoi`, with the 64-bit range check.
- `Wrappers`: an `Option` type. The code's `error` results become `Option`
  values, with `None` for `nil`.

Strings are sequences of characters. Every literal and table in the modelled
code is ASCII, so for those Go's bytes and these characters coincide. Input
strings are taken as ASCII text as well (see `Numeral.Symbols` under
"## Left out").

## Model

| member | source | states |
|---|---|---|
| Numeral.TableValue | first/numeral/numeral.go:12-26 | every table value is at least 1 and at most 1000 |
| Numeral.TableSymbol | first/numeral/numeral.go:12-26 | every symbol has one or two characters, and a two-character symbol starts with I, X or C |
| Numeral.TableLookup | first/numeral/numeral.go:12-26 | looking an entry's own symbol up finds it and gives back that entry's value, since the symbols are distinct |
| Numeral.PairSymbols | first/numeral/numeral.go:12-26 | the two-character symbols are exactly CM, CD, XC, XL, IX and IV |
| Numeral.SymbolFromMeaning | first/numeral/numeral.go:72-80 | the table search succeeds exactly when some remaining entry has that symbol |
| Numeral.ValueFromMeaning | first/numeral/numeral.go:62-70 | the table search returns the value of the first entry with that symbol, or 0 when there is none |
| Numeral.IsSymbolIffValueNonZero | second/15-property-based-test/numeral.go:43-59 | a string is a table symbol exactly when its value is non-zero, so `Exists` agrees with `ValueOf != 0` |
| Numeral.ValueOf | first/numeral/numeral.go:62-70 | returns the matching entry's value, or 0 when no symbol matches |
| Numeral.Exists | first/numeral/numeral.go:72-80 | true exactly when some table entry's symbol equals the argument; the same code is in `second/15-property-based-test/numeral.go` |
| Numeral.IsSubtractive | first/numeral/numeral.go:105-107 | true exactly for I, X and C |
| Numeral.SubtractiveIsSymbol | first/numeral/numeral.go:105-107 | I, X and C are themselves table symbols |
| Numeral.ConvertToRoman | first/numeral/numeral.go:28-57 | the result is the greedy spelling of the input; 0 or a negative number gives the empty string; for n ≥ 0 decoding the result gives n back |
| Numeral.EmitEntry | first/numeral/numeral.go:32-35 | the inner loop leaves a remainder below the entry's value, and what it emitted, spelled and subtracted keeps step with the greedy encoder |
| Numeral.GreedyTake | first/numeral/numeral.go:32-35 | while the remainder reaches the entry's value, the encoder emits that entry and subtracts its value |
| Numeral.GreedySkip | first/numeral/numeral.go:31-35 | once the remainder is below the entry's value, the encoder moves on to the next entry |
| Numeral.TakeStep | first/numeral/numeral.go:33-34 | emitting one entry extends the emitted prefix, its spelling by the symbol and its total by the value |
| Numeral.GreedyOrdered | first/numeral/numeral.go:31-36 | the encoder emits table entries only, from position k on, in table order |
| Numeral.TableDescending | first/numeral/numeral.go:12-26 | the table's values strictly decrease from first entry to last |
| Numeral.GreedyDescending | first/numeral/numeral.go:31-36 | the entries the encoder emits have non-increasing values, largest first |
| Numeral.GreedyOfNonPositive | first/numeral/numeral.go:31-36 | no table value is ≤ a non-positive number, so nothing is emitted |
| Numeral.GreedyTotal | first/numeral/numeral.go:31-36 | the values emitted add up to the input, because the last entry has value 1 |
| Numeral.SpellAppend | first/numeral/numeral.go:33 | writing one more symbol extends the spelling by that symbol |
| Numeral.TotalAppend | first/numeral/numeral.go:34 | emitting one more entry adds its value to the total |
| Numeral.Symbols | first/numeral/numeral.go:84-96 | the windows are those of the tokenizer specification; they concatenate back to the input, each one or two characters long; the same code is in `second/15-property-based-test/numeral.go` |
| Numeral.WindowsCover | first/numeral/numeral.go:84-96 | the windows concatenate back to the input, each one or two characters long |
| Numeral.WindowsStep | first/numeral/numeral.go:85-93 | a two-character window is taken exactly when the character is not last, is I, X or C, and the pair is a table symbol; otherwise one character is taken |
| Numeral.TokenStep | first/numeral/numeral.go:88-93 | appending the next window to those already read keeps them a prefix of the tokenizer's windows |
| Numeral.NoFalsePair | first/numeral/numeral.go:88 | in greedy output, a single I, X or C is never followed by a character it would pair with |
| Numeral.WindowsOfPairSymbol | first/numeral/numeral.go:88-90 | a two-character table symbol starting with I, X or C is read as one window, whatever follows it |
| Numeral.WindowsOfSingleSymbol | first/numeral/numeral.go:88-93 | a character is read as a window of its own unless it is I, X or C and forms a table symbol with the next character |
| Numeral.SymbolsOf | first/numeral/numeral.go:12-26 | the symbols of emitted entries, one token per entry, in order |
| Numeral.WindowsSpell | first/numeral/numeral.go:84-96 | tokenizing a greedy spelling gives back exactly the symbols emitted |
| Numeral.SumValuesOfSymbols | first/numeral/numeral.go:98-103 | summing the values of the emitted symbols gives the emitted total |
| Numeral.SumValuesNonNegative | first/numeral/numeral.go:98-103 | a decoded total is never negative |
| Numeral.SumValuesAppend | first/numeral/numeral.go:99-100 | each window adds its own value to the total |
| Numeral.ConvertToArabic | first/numeral/numeral.go:98-103 | the total is the sum of `ValueOf` over the windows |
| Numeral.ArabicOfNonSymbols | first/numeral/numeral.go:98-103 | characters that are not table symbols contribute 0, so a string of them (including the empty string) decodes to 0 |
| Numeral.RoundTrip | first/numeral/numeral.go:98-103 | for every n ≥ 0, decoding the encoding of n gives n |
| Numeral16.ConvertToRoman | second/15-property-based-test/numeral.go:30-41 | the result is the greedy spelling of the `uint16` input; the subtraction only runs while the value is at least the entry's, so it never wraps; 0 gives the empty string |
| Numeral16.EmitEntry | second/15-property-based-test/numeral.go:35-38 | the `uint16` inner loop subtracts only while the remainder reaches the value, so it never wraps, and it emits what the greedy encoder emits |
| Numeral16.ValueOf | second/15-property-based-test/numeral.go:43-50 | returns the entry's value, and 0 exactly when the argument is not a table symbol |
| Numeral16.Add | second/15-property-based-test/numeral.go:84 | `uint16` addition is exact when the sum fits in 16 bits and is 65536 less when it does not |
| Numeral16.ConvertToArabic | second/15-property-based-test/numeral.go:77-87 | the accumulated `uint16` total is the sum of window values modulo 65536 (wrapping at each `+=` gives the same total as wrapping once at the end), and equals the true sum when that is below 65536 |
| Numeral16.RoundTrip | second/15-property-based-test/numeral.go:30-41 | for every `uint16` n, decoding the encoding of n gives n |
| MapsDictionary.ErrorsDistinct | learn-go-with-tests/01-go-fundamentals/07-maps/dictionary.go:6-10 | the three error values have pairwise different messages |
| MapsDictionary.DictionaryErr.Error | learn-go-with-tests/01-go-fundamentals/07-maps/dictionary.go:49-51 | an error's text is its own message |
| MapsDictionary.Dictionary.Search | learn-go-with-tests/01-go-fundamentals/07-maps/dictionary.go:12-18 | a present key gives its definition and no error; an absent key gives "" and `ErrNotFound` |
| MapsDictionary.Dictionary.Add | learn-go-with-tests/01-go-fundamentals/07-maps/dictionary.go:20-31 | an absent key is inserted with no error; a present key gives `ErrWordExists` and leaves the map unchanged; other keys never change; the `default` branch cannot be reached |
| MapsDictionary.Dictionary.Update | learn-go-with-tests/01-go-fundamentals/07-maps/dictionary.go:33-43 | a present key gets the new value with no error; an absent key gives `ErrWordDoesNotExist` and leaves the map unchanged; the `default` branch cannot be reached |
| MapsDictionary.Dictionary.Delete | learn-go-with-tests/01-go-fundamentals/07-maps/dictionary.go:45-47 | removes the key and nothing else; deleting an absent key changes nothing |
| MapsDictionary.AddSearchUpdateDelete | learn-go-with-tests/01-go-fundamentals/07-maps/dictionary.go:12-47 | add then search finds the definition; a second add gives `ErrWordExists`; updating an absent word gives `ErrWordDoesNotExist`; a search after delete gives `ErrNotFound` |
| Dictionary.ErrorsCoincide | dictionary.go:11-14 | `ErrWordExists` and `ErrWordDoesNotExist` are built from the same string, so they are the same error |
| Dictionary.DictionaryErr.Error | dictionary.go:7-9 | an error's text is its own message |
| Dictionary.Dictionary.Search | dictionary.go:16-22 | a present word gives its definition and no error; otherwise "" and `ErrWordDoesNotExist` |
| Dictionary.Dictionary.Add | dictionary.go:24-26 | always stores key→value, overwriting any existing definition |
| Dictionary.Dictionary.Update | dictionary.go:28-39 | a present key gets the new value with no error; an absent key gives `ErrWordDoesNotExist` and is not inserted |
| Dictionary.AddTwiceThenUpdateAbsent | dictionary.go:24-39 | a second add overwrites the first; updating an absent word is refused |
| Wallet.WalletError.Error | pointer.go:8 | `ErrInsufficientFunds` reads "balance is not enough" |
| Wallet.BitcoinString | pointer.go:20-22 | the rendering ends in " BTC" |
| Wallet.BitcoinStringParses | pointer.go:20-22 | the text before " BTC" is the decimal form of the amount, which parses back to it |
| Wallet.Wallet.Balance | pointer.go:24-26 | returns the balance and changes nothing |
| Wallet.Wallet.Deposit | pointer.go:28-30 | the balance grows by exactly the amount |
| Wallet.Wallet.Withdraw | pointer.go:32-39 | with enough funds the balance drops by the amount and there is no error; otherwise `ErrInsufficientFunds` and the balance is unchanged |
| Wallet.ReplayKeepsNonNegative | pointer.go:28-39 | with non-negative amounts, a non-negative balance stays non-negative across any sequence of deposits and withdrawals, as long as no 64-bit wrap-around occurs (see "## Left out") |
| Wallet.WalletScenarios | pointer_test.go:29-50 | the three wallet tests: deposit 10 gives 10, withdraw 10 from 20 gives 10, withdraw 100 from 20 is refused with "balance is not enough" and leaves 20 |
| Sum.Sum | sum.go:4-10 | the result is the arithmetic sum, 0 for an empty slice; the same code is in `learn-go-with-tests/01-go-fundamentals/04-arrays-and-slices/sum.go` and `second/04-arrays-and-slices/sum.go` |
| Sum.TotalConcat | sum.go:4-10 | the sum of a concatenation is the sum of the parts |
| Sum.TotalHeadTail | sum.go:24 | the sum of a non-empty slice is its head plus the sum of its tail |
| Sum.SumAll | sum.go:12-17 | one entry per argument slice, entry i being the sum of slice i; the same code is in `learn-go-with-tests/01-go-fundamentals/04-arrays-and-slices/sum.go` and `second/04-arrays-and-slices/sum.go` |
| Sum.SumAllTails | sum.go:19-28 | one entry per argument slice: 0 for an empty slice, otherwise the sum of all but the first element, so 0 for a one-element slice; the same code is in `learn-go-with-tests/01-go-fundamentals/04-arrays-and-slices/sum.go` |
| Sum.SumCases | learn-go-with-tests/01-go-fundamentals/04-arrays-and-slices/sum_test.go:15-50 | [1,2,3] sums to 6, [1..5] to 15; `SumAll` of ([1,2],[0,9]) is [3,9] and with [0,10,3] added is [3,9,13] |
| Sum.SumAllTailsCases | learn-go-with-tests/01-go-fundamentals/04-arrays-and-slices/sum_test.go:60-69 | tails of ([1,2],[0,9]) sum to [2,9]; ([],[3,4,5]) gives [0,9] |
| Hello.Hello | first/hello.go:8-17 | "Spanish" selects "Hola, ", anything else "Hello, "; the name, or "World" when empty, follows it with nothing after |
| Hello.NameRecovered | first/hello.go:8-17 | removing the language's prefix from the greeting gives back the name, or "World" for an empty name |
| Hello.HelloCases | first/hello_test.go:12-28 | "Hello, Chris", "Hello, World" and "Hola, Elodie" |
| HelloWorld.GetHello | learn-go-with-tests/01-go-fundamentals/01-hello-world/main.go:18-27 | "French" exactly gives "Oi", "Spanish" exactly gives "Ola", anything else "Hello" |
| HelloWorld.Hello | learn-go-with-tests/01-go-fundamentals/01-hello-world/main.go:10-16 | the greeting word and ", " come first, then the name (or "World" when empty), and the result ends with "!" |
| HelloWorld.HelloCases | learn-go-with-tests/01-go-fundamentals/01-hello-world/main_test.go:13-28 | "Hello, Naka!", "Hello, World!" and "Ola, Elodie!" |
| Book.CategoryByLength | pragmatic-cases/ginkgo/book/book.go:14-21 | more than 300 pages exactly gives `NOVEL`; 300 or fewer, negative counts included, gives `SHORT_STORY` |
| Book.CategoryIgnoresTitleAndAuthor | pragmatic-cases/ginkgo/book/book.go:14-21 | the category depends only on the page count |
| ServicePath.RewritePath | pragmatic-cases/http/main.go:15-18 | a path starting with "/servicea/query/" becomes "/query" followed by the rest of the path; any other path is unchanged |
| ServicePath.RewriteIdempotent | pragmatic-cases/http/main.go:15-18 | a rewritten path is not rewritten again |
| ServicePath.NoSlashNoRewrite | pragmatic-cases/http/main.go:15 | "/servicea/query" without the final slash is left alone |
| ServicePath.RewriteServiceA | pragmatic-cases/http/main_test.go:34-37 | "/servicea/query/123" becomes "/query/123" |
| ServicePath.RewriteServiceB | pragmatic-cases/http/main_test.go:65-68 | "/serviceb/query/123" is unchanged |
| ServicePath.ModifyPathForServiceA | pragmatic-cases/http/main.go:13-22 | the request's path is rewritten in place, then the next handler is called exactly once with the new path |
| BlogPosts.ReadMetaLine | first/reading-files/blogposts.go:53-56 | reads one line and drops the label in front of it when present |
| BlogPosts.ReadBody | first/reading-files/blogposts.go:70-77 | skips one line, then returns all remaining lines joined by "\n", with no trailing newline; consumes the whole input |
| BlogPosts.TerminatedJoin | first/reading-files/blogposts.go:73-76 | lines written one per line, with the last newline trimmed, are the lines joined by "\n" |
| BlogPosts.NewPost | first/reading-files/blogposts.go:50-68 | title, description and tags come from lines 1 to 3 with their labels removed, tags split on ", ", line 4 is skipped, the body is the rest; the error is always nil |
| BlogPosts.RenderedParses | first/reading-files/blogposts.go:50-68 | a file in the expected layout parses back to its title, description, tags (at least one, none with a comma) and body |
| BlogPosts.TagsLineRecovered | first/reading-files/blogposts.go:60 | joining the parsed tags with ", " gives the tags line back |
| BlogPosts.FirstPost | reading-files/blogposts_test.go:13-46 | the first test file gives "Post 1", "Description 1", ["tdd","go"] and "Hello\nWorld" |
| GoStrings.JoinSplit | first/reading-files/blogposts.go:60 | joining what `strings.Split` returns with the same separator gives the string back |
| GoStrings.SplitJoin | first/reading-files/blogposts.go:60 | splitting a join gives the parts back when there is at least one and none holds the separator's first character |
| GoStrings.JoinAppend | first/reading-files/blogposts.go:73-76 | adding a line at the end of a join adds the separator and the line |
| GoStrings.ReplaceFirst | learn-go-with-tests/02-build-an-application/CLI.go:64 | only the first occurrence of the target is replaced; without one the string is unchanged |
| PlayerServer.WithWin | learn-go-with-tests/02-build-an-application/server.go:51-53 | one more win for the name, starting from 0, and no other count changes |
| PlayerServer.ScoreAfterWins | learn-go-with-tests/02-build-an-application/server.go:51-57 | after any sequence of recorded wins, each name's score has grown by the number of its wins |
| PlayerServer.InMemoryPlayerStore.constructor | learn-go-with-tests/02-build-an-application/server.go:43-45 | a new store holds no counts, so it satisfies the store invariant that every count is non-negative |
| PlayerServer.InMemoryPlayerStore.RecordWin | learn-go-with-tests/02-build-an-application/server.go:51-53 | the store becomes the store with one more win for the name, and every count stays non-negative |
| PlayerServer.InMemoryPlayerStore.GetPlayerScore | learn-go-with-tests/02-build-an-application/server.go:55-57 | the stored count, 0 for an unknown name |
| PlayerServer.PlayerOf | learn-go-with-tests/02-build-an-application/server.go:21 | the player is the path with a leading "/players/" removed |
| PlayerServer.PlayerServer.ServeHTTP | learn-go-with-tests/02-build-an-application/server.go:20-29 | the new counts and the response are those of the dispatch on method and player |
| PlayerServer.PlayerServer.ShowScore | learn-go-with-tests/02-build-an-application/server.go:31-37 | the body is the score; the status is 404 exactly when the score is 0, 200 otherwise |
| PlayerServer.PlayerServer.ProcessWin | learn-go-with-tests/02-build-an-application/server.go:38-41 | records one win and answers 202 |
| PlayerServer.OnlyPostChanges | learn-go-with-tests/02-build-an-application/server.go:20-41 | only a POST changes the counts, and only the requested player's |
| PlayerServer.GetAfterPostFound | learn-go-with-tests/02-build-an-application/server.go:31-41 | after a POST for a player, a GET for the same player is never 404, for every store whose counts are non-negative, which the store invariant keeps for every reachable store |
| PlayerServer.RecordingWinsAndRetrievingThem | learn-go-with-tests/02-build-an-application/server_intergration_test.go:11-26 | three POSTs for Pepper and then a GET answer 200 with body "3" |
| PlayerServer.UnknownPlayer | learn-go-with-tests/02-build-an-application/server.go:31-37 | a GET for an unknown player answers 404 with body "0" |
| LeagueStore.Find | learn-go-with-tests/02-build-an-application/file_system_store.go:39 | the position of the first player with the name, or none when no player has it |
| LeagueStore.WinScores | learn-go-with-tests/02-build-an-application/file_system_store.go:38-45 | the winner's score grows by one, from 0 for a new name |
| LeagueStore.OthersKeepScores | learn-go-with-tests/02-build-an-application/file_system_store.go:38-45 | no other player's score changes |
| LeagueStore.WinShape | learn-go-with-tests/02-build-an-application/file_system_store.go:38-45 | an existing player is updated in place and the length is kept; a new name is appended with one win |
| LeagueStore.FileSystemPlayerStore.GetLeague | learn-go-with-tests/02-build-an-application/file_system_store.go:26-28 | returns the league as stored |
| LeagueStore.FileSystemPlayerStore.GetPlayerScore | learn-go-with-tests/02-build-an-application/file_system_store.go:30-36 | the found player's wins, or 0 when no player has the name |
| LeagueStore.FileSystemPlayerStore.RecordWin | learn-go-with-tests/02-build-an-application/file_system_store.go:38-45 | the league becomes the league with one more win for the name |
| LeagueStore.StoreWinsCases | learn-go-with-tests/02-build-an-application/file_system_store_test.go:60-82 | a win for Chris gives 34; a win for Pepper gives 1 and a league of three |
| Poker.ExtractWinner | learn-go-with-tests/02-build-an-application/CLI.go:63-65 | removes only the first " wins"; input without it is returned unchanged |
| Poker.ExtractWinnerOfName | learn-go-with-tests/02-build-an-application/CLI.go:63-65 | "<name> wins" gives the name back whenever no " wins" starts inside the name, so the appended one is the first |
| Poker.NoSpaceWinsOnlyAtEnd | learn-go-with-tests/02-build-an-application/CLI.go:63-65 | a name without spaces never holds the start of " wins" |
| Poker.ExtractWinnerOfTwoWordName | learn-go-with-tests/02-build-an-application/CLI.go:63-65 | "Chris Evans wins" gives back "Chris Evans" |
| Poker.CLI.ReadLine | learn-go-with-tests/02-build-an-application/CLI.go:67-70 | returns the next line, or "" when the input is used up |
| Poker.CLI.PlayPoker | learn-go-with-tests/02-build-an-application/CLI.go:45-61 | the output and the game calls are those of one session on the unread lines; the scanner has consumed one line after bad input and two otherwise, stopping at the end of input |
| Poker.BadInputNoGame | learn-go-with-tests/02-build-an-application/CLI.go:49-53 | a first line that `Atoi` refuses (empty or missing, a lone sign, a character that is neither a digit nor a leading sign, or a value outside the 64-bit range) writes the error message after the prompt and calls neither Start nor Finish |
| Poker.NumberStartsGame | learn-go-with-tests/02-build-an-application/CLI.go:49-60 | a well-formed number in range writes only the prompt, calls Start with that number, then Finish with the winner taken from the next line |
| Poker.TypedSession | learn-go-with-tests/02-build-an-application/CLI.go:45-61 | typing n and then "<name> wins" writes the prompt and calls Start(n) then Finish(name) |
| Poker.PromptFirstStartThenFinish | learn-go-with-tests/02-build-an-application/CLI.go:45-61 | the prompt is always written first; a game that starts is finished, each call made once and in that order |
| Poker.RecordChrisWin | learn-go-with-tests/02-build-an-application/CLI_test.go:34-43 | "5" and "Chris wins" give Start(5) then Finish("Chris") |
| Poker.PromptAndStart | learn-go-with-tests/02-build-an-application/CLI_test.go:92-110 | input "7" writes exactly the prompt and starts a game of 7 |
| Strconv.AtoiItoa | learn-go-with-tests/02-build-an-application/CLI.go:49 | every 64-bit integer printed in decimal parses back to itself |
| Strconv.AtoiRejectsNonDigit | learn-go-with-tests/02-build-an-application/CLI.go:49-53 | a non-digit after the first character makes the parse fail |
| Strconv.AtoiNoneIff | learn-go-with-tests/02-build-an-application/CLI.go:49-53 | the parse fails exactly when the text is malformed or its value is outside the 64-bit range, and otherwise gives that signed value |
| Countdown.Countdown | countdown/countdown.go:38-45 | the calls made are those of counting down from 3: a sleep before each line, then a sleep and "Go!"; the same code is in `learn-go-with-tests/01-go-fundamentals/09-mocking/countdown.go` |
| Countdown.SleepCount | learn-go-with-tests/01-go-fundamentals/09-mocking/countdown.go:32-39 | counting down from i sleeps i + 1 times |
| Countdown.Alternates | countdown/countdown.go:39-44 | sleeps and writes strictly alternate, starting with a sleep and ending with writing "Go!" |
| Countdown.WrittenAppend | countdown/countdown.go:41-44 | the text written by two runs of calls is the two texts one after the other |
| Countdown.WrittenStep | countdown/countdown.go:39-44 | a step writes its number and a newline, and the last step writes "Go!"; sleeps write nothing |
| Countdown.CountdownFromThree | countdown/countdown.go:38-45 | counting down from 3 writes "3\n2\n1\nGo!" with no trailing newline and sleeps 4 times |
| Countdown.CountdownRun | countdown/countdown.go:38-45 | a run against a fresh recorder writes "3\n2\n1\nGo!" and sleeps 4 times |
| Countdown.ConfigurableSleeper.Sleep | countdown/countdown.go:25-27 | each call hands the configured duration to the sleep function once; the same code is in `learn-go-with-tests/01-go-fundamentals/09-mocking/countdown.go` |
| Countdown.SleeperRun | countdown/countdown.go:20-27 | two sleeps pass the configured duration twice |

## Left out

- Sum.Sum: Go's `int` is 64 bits and wraps on overflow; the model uses unbounded integers, so sums beyond the 64-bit range are not modelled.
- Wallet.Wallet.Deposit: `Bitcoin` is a 64-bit `int`; the balance is unbounded here, so overflow on deposit is not modelled.
- Wallet.Wallet.Withdraw: the balance is unbounded, so a negative amount is simply added back. In Go, `Withdraw(-1)` on a balance of the largest `int` passes the `balance >= amount` guard and wraps to the smallest `int`; the model gives one more than the largest.
- Wallet.ReplayKeepsNonNegative: holds only while no 64-bit wrap-around occurs. In Go, `Deposit(1)` on a balance of the largest `int` wraps to a negative balance, which the unbounded model does not reproduce.
- PlayerServer.InMemoryPlayerStore.RecordWin: the win count is unbounded; 64-bit wrap-around is not modelled.
- LeagueStore.FileSystemPlayerStore.RecordWin: the win count is unbounded; 64-bit wrap-around is not modelled.
- Numeral.Symbols: input is taken as ASCII text, one character per byte. Go's `windowedRoman.Symbols` and `ValueOf` work byte by byte, so a non-ASCII character such as "é" is two one-byte windows in Go and one window here. The decoded total is the same either way, because neither a non-ASCII character nor any of its bytes is a table symbol; the window list differs.
- Numeral16.ConvertToRoman: the uint16 encoder is proved equal to the `int` encoder's spelling; its round trip is stated by the separate lemma `Numeral16.RoundTrip`, not in the method's own contract.
- The scanner works on input already cut into lines. How `bufio.Scanner` finds line ends, including "\r\n" and its token size limit, is not modelled.
- `NewPostsFromFS` and `getPost` walk an `fs.FS` and open files, so they are left out. Only `newPost` and `readBody` are modelled.
- JSON encoding of the league to its file (file_system_store.go:50-53) is left out. So are `NewFileSystemPlayerStore`, the `tape` writer and `NewLeague`, which do file I/O. The store is built from an already-decoded league.
- League sorting by wins appears in file_system_store_test.go:93-115 but is not implemented in file_system_store.go, so it is not modelled.
- `League.Find` is not in the source shown. It is modelled as the first player with the given name.
- The merge-conflict markers at file_system_store.go:46-49 are ignored. The code around them is modelled.
- The `PlayerStore` interface is not modelled. The server is modelled over the in-memory store only.
- The response writer is reduced to a status and a body. Header handling and `net/http` routing are left out.
- The `Game` implementation is not in the source shown, so it is not modelled. The CLI's calls on it become a trace of Start and Finish events. The `os.Stdout` argument to `Start` is dropped.
- The blind alerter (`BlindAlerter`, `Alerter`, CLI.go:31-35) schedules timers, so it is left out.
- Sleeping and wall-clock time are left out. `DefaultSleeper` and the real `time.Sleep` are not modelled. A sleep is a recorded event, and a `ConfigurableSleeper` records the durations it hands to its sleep function.
- The next handler after the path rewrite is outside the model. Only the path it is handed is recorded.
- The `main` functions, and everything that only starts servers or prints, are left out.
- The race coordinator and the other concurrent code in the repository are left out: select-based racing, context cancellation, retrying connections, errgroup batching and condition variables.
- The floating-point, cloud, database, ORM and XML/JSON code in the repository is left out.
- `context/context.go` does not compile, so it is left out.
