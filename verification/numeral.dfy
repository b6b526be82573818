/**
 * The Roman numeral codec over Go's `int` (first/numeral/numeral.go):
 * a greedy encoder over a descending table, a tokenizer that pairs a
 * subtractive character with its successor when the pair is a table
 * symbol, and a decoder that sums the tokens' values.
 */
module Numeral {
  datatype RomanNumeral = RomanNumeral(value: int, symbol: string)

  /** `allRomanNumerals`, largest value first. */
  const AllRomanNumerals: seq<RomanNumeral> := [
    RomanNumeral(1000, "M"),
    RomanNumeral(900, "CM"),
    RomanNumeral(500, "D"),
    RomanNumeral(400, "CD"),
    RomanNumeral(100, "C"),
    RomanNumeral(90, "XC"),
    RomanNumeral(50, "L"),
    RomanNumeral(40, "XL"),
    RomanNumeral(10, "X"),
    RomanNumeral(9, "IX"),
    RomanNumeral(5, "V"),
    RomanNumeral(4, "IV"),
    RomanNumeral(1, "I")
  ]

  /** A position in the table. */
  type Entry = k: nat | k < 13

  predicate IsSubtractive(c: char) {
    c == 'I' || c == 'X' || c == 'C'
  }

  // ---------------------------------------------------------------------
  // Table lookups: the specification of ValueOf and Exists

  /** The value of the first entry at or after `k` whose symbol is `s`, else 0. */
  function ValueFrom(s: string, k: nat): int
    requires k <= 13
    decreases 13 - k
  {
    if k == 13 then 0
    else if AllRomanNumerals[k].symbol == s then AllRomanNumerals[k].value
    else ValueFrom(s, k + 1)
  }

  /** Some entry at or after `k` has symbol `s`. */
  predicate SymbolFrom(s: string, k: nat)
    requires k <= 13
    decreases 13 - k
  {
    k < 13 && (AllRomanNumerals[k].symbol == s || SymbolFrom(s, k + 1))
  }

  function Value(s: string): int {
    ValueFrom(s, 0)
  }

  predicate IsSymbol(s: string) {
    SymbolFrom(s, 0)
  }

  /** `IsSymbol` is membership of the table's symbols. */
  lemma {:induction false} SymbolFromMeaning(s: string, k: nat)
    requires k <= 13
    decreases 13 - k
    ensures SymbolFrom(s, k) <==> exists i :: k <= i < 13 && AllRomanNumerals[i].symbol == s
  {
    if k < 13 {
      SymbolFromMeaning(s, k + 1);
    }
  }

  /** `Value` is the first matching entry's value, and 0 exactly for non-symbols. */
  lemma {:induction false} ValueFromMeaning(s: string, k: nat)
    requires k <= 13
    decreases 13 - k
    ensures SymbolFrom(s, k) ==>
      exists i :: k <= i < 13 && AllRomanNumerals[i].symbol == s
               && ValueFrom(s, k) == AllRomanNumerals[i].value
               && forall j :: k <= j < i ==> AllRomanNumerals[j].symbol != s
    ensures !SymbolFrom(s, k) ==> ValueFrom(s, k) == 0
  {
    if k < 13 {
      ValueFromMeaning(s, k + 1);
    }
  }

  /** The shape of each table symbol: one character, or a subtractive character and one more. */
  lemma TableSymbol(e: Entry)
    ensures 1 <= |AllRomanNumerals[e].symbol| <= 2
    ensures |AllRomanNumerals[e].symbol| == 2 ==> IsSubtractive(AllRomanNumerals[e].symbol[0])
  {
    if e == 0 {} else if e == 1 {} else if e == 2 {} else if e == 3 {}
    else if e == 4 {} else if e == 5 {} else if e == 6 {} else if e == 7 {}
    else if e == 8 {} else if e == 9 {} else if e == 10 {} else if e == 11 {}
    else {}
  }

  /** Looking up an entry's own symbol finds that entry: the table's symbols are distinct. */
  lemma TableLookup(e: Entry)
    ensures IsSymbol(AllRomanNumerals[e].symbol)
    ensures Value(AllRomanNumerals[e].symbol) == AllRomanNumerals[e].value
  {
    if e < 5 {
      LookupFirst(e);
    } else if e < 9 {
      LookupMiddle(e);
    } else if e < 11 {
      LookupLate(e);
    } else {
      LookupLast(e);
    }
  }

  lemma LookupFirst(e: Entry)
    requires e < 5
    ensures IsSymbol(AllRomanNumerals[e].symbol)
    ensures Value(AllRomanNumerals[e].symbol) == AllRomanNumerals[e].value
  {
    if e == 0 {} else if e == 1 {} else if e == 2 {} else if e == 3 {} else {}
  }

  lemma LookupMiddle(e: Entry)
    requires 5 <= e < 9
    ensures IsSymbol(AllRomanNumerals[e].symbol)
    ensures Value(AllRomanNumerals[e].symbol) == AllRomanNumerals[e].value
  {
    if e == 5 {} else if e == 6 {} else if e == 7 {} else {}
  }

  lemma LookupLate(e: Entry)
    requires 9 <= e < 11
    ensures IsSymbol(AllRomanNumerals[e].symbol)
    ensures Value(AllRomanNumerals[e].symbol) == AllRomanNumerals[e].value
  {
    if e == 9 {} else {}
  }

  lemma LookupLast(e: Entry)
    requires 11 <= e
    ensures IsSymbol(AllRomanNumerals[e].symbol)
    ensures Value(AllRomanNumerals[e].symbol) == AllRomanNumerals[e].value
  {
    if e == 11 {} else {}
  }

  /** Every table value is positive, so a symbol never looks up to 0. */
  lemma {:induction false} IsSymbolIffValueNonZero(s: string)
    ensures IsSymbol(s) <==> Value(s) != 0
  {
    ValueFromMeaning(s, 0);
    if IsSymbol(s) {
      var i :| 0 <= i < 13 && AllRomanNumerals[i].symbol == s && Value(s) == AllRomanNumerals[i].value;
      TableValue(i);
    }
  }

  // ---------------------------------------------------------------------
  // The greedy encoder, as the sequence of table entries it emits

  /** The entries ConvertToRoman emits for remainder `n` from table position `k` on. */
  function Greedy(n: int, k: nat): seq<Entry>
    requires k <= 13
    decreases 13 - k, n
  {
    if k == 13 then []
    else if n >= AllRomanNumerals[k].value then
      TableValue(k);
      [k as Entry] + Greedy(n - AllRomanNumerals[k].value, k)
    else Greedy(n, k + 1)
  }

  /** The table values, entry by entry. */
  lemma TableValue(e: Entry)
    ensures 1 <= AllRomanNumerals[e].value <= 1000
  {
    if e == 0 {} else if e == 1 {} else if e == 2 {} else if e == 3 {}
    else if e == 4 {} else if e == 5 {} else if e == 6 {} else if e == 7 {}
    else if e == 8 {} else if e == 9 {} else if e == 10 {} else if e == 11 {}
    else {}
  }

  /** While the remainder reaches entry `k`'s value, the encoder emits `k` and subtracts. */
  lemma GreedyTake(n: int, k: Entry)
    requires n >= AllRomanNumerals[k].value
    ensures Greedy(n, k) == [k] + Greedy(n - AllRomanNumerals[k].value, k)
  {
  }

  /** One turn of the inner loop: emitting `k` keeps the emitted prefix, its spelling and its total in step with the greedy encoder. */
  lemma TakeStep(emitted: seq<Entry>, n: int, k: Entry)
    requires n >= AllRomanNumerals[k].value
    ensures (emitted + [k]) + Greedy(n - AllRomanNumerals[k].value, k) == emitted + Greedy(n, k)
    ensures Spell(emitted + [k]) == Spell(emitted) + AllRomanNumerals[k].symbol
    ensures Total(emitted + [k]) == Total(emitted) + AllRomanNumerals[k].value
  {
    GreedyTake(n, k);
    SpellAppend(emitted, k);
    TotalAppend(emitted, k);
    assert (emitted + [k]) + Greedy(n - AllRomanNumerals[k].value, k) == emitted + ([k] + Greedy(n - AllRomanNumerals[k].value, k));
  }

  /** Once the remainder is below entry `k`'s value, the encoder moves on to the next entry. */
  lemma GreedySkip(n: int, k: Entry)
    requires n < AllRomanNumerals[k].value
    ensures Greedy(n, k) == Greedy(n, k + 1)
  {
  }

  /** The symbols of a sequence of entries, written one after another. */
  function Spell(t: seq<Entry>): string {
    if |t| == 0 then "" else AllRomanNumerals[t[0]].symbol + Spell(t[1..])
  }

  /** The sum of the values of a sequence of entries. */
  function Total(t: seq<Entry>): int {
    if |t| == 0 then 0 else AllRomanNumerals[t[0]].value + Total(t[1..])
  }

  function Roman(n: int): string {
    Spell(Greedy(n, 0))
  }

  /** The entries appear in table order; the table is sorted by descending value (TableDescending). */
  predicate InTableOrder(t: seq<Entry>) {
    forall i, j :: 0 <= i <= j < |t| ==> t[i] <= t[j]
  }

  lemma {:induction false} SpellAppend(t: seq<Entry>, e: Entry)
    ensures Spell(t + [e]) == Spell(t) + AllRomanNumerals[e].symbol
  {
    if |t| > 0 {
      assert (t + [e])[1..] == t[1..] + [e];
      SpellAppend(t[1..], e);
    } else {
      assert t + [e] == [e];
    }
  }

  lemma {:induction false} TotalAppend(t: seq<Entry>, e: Entry)
    ensures Total(t + [e]) == Total(t) + AllRomanNumerals[e].value
  {
    if |t| > 0 {
      assert (t + [e])[1..] == t[1..] + [e];
      TotalAppend(t[1..], e);
    } else {
      assert t + [e] == [e];
    }
  }

  /** The greedy encoder emits entries from position `k` on, in table order. */
  lemma {:induction false} GreedyOrdered(n: int, k: nat)
    requires k <= 13
    decreases 13 - k, n
    ensures forall i :: 0 <= i < |Greedy(n, k)| ==> k <= Greedy(n, k)[i]
    ensures InTableOrder(Greedy(n, k))
  {
    if k < 13 {
      if n >= AllRomanNumerals[k].value {
        TableValue(k);
        GreedyOrdered(n - AllRomanNumerals[k].value, k);
      } else {
        GreedyOrdered(n, k + 1);
      }
    }
  }

  /** The table is sorted by strictly descending value. */
  lemma TableDescending()
    ensures forall i, j :: 0 <= i < j < 13 ==> AllRomanNumerals[i].value > AllRomanNumerals[j].value
  {
  }

  /** The greedy encoder emits its entries largest value first. */
  lemma GreedyDescending(n: int)
    ensures var t := Greedy(n, 0);
            forall i, j :: 0 <= i <= j < |t| ==> AllRomanNumerals[t[i]].value >= AllRomanNumerals[t[j]].value
  {
    GreedyOrdered(n, 0);
    TableDescending();
  }

  /** Greedy emits nothing once the remainder is below 1. */
  lemma {:induction false} GreedyOfNonPositive(n: int, k: nat)
    requires k <= 13 && n <= 0
    decreases 13 - k
    ensures Greedy(n, k) == []
  {
    if k < 13 {
      TableValue(k);
      GreedyOfNonPositive(n, k + 1);
    }
  }

  /** For a non-negative remainder the emitted values add up to it, since the table ends with 1. */
  lemma {:induction false} GreedyTotal(n: int, k: nat)
    requires 0 <= n && k <= 12
    decreases 13 - k, n
    ensures Total(Greedy(n, k)) == n
  {
    TableValue(k);
    if n >= AllRomanNumerals[k].value {
      GreedyTotal(n - AllRomanNumerals[k].value, k);
    } else if k < 12 {
      GreedyTotal(n, k + 1);
    } else {
      assert n == 0;
      GreedyOfNonPositive(n, 13);
    }
  }

  // ---------------------------------------------------------------------
  // The tokenizer and the decoder

  /** `windowedRoman.Symbols` as a function: the tokens of `w`, left to right. */
  function Windows(w: string): seq<string>
    decreases |w|
  {
    if |w| == 0 then []
    else if |w| >= 2 && IsSubtractive(w[0]) && IsSymbol(w[..2]) then [w[..2]] + Windows(w[2..])
    else [w[..1]] + Windows(w[1..])
  }

  function Concat(ws: seq<string>): string {
    if |ws| == 0 then "" else ws[0] + Concat(ws[1..])
  }

  /** The sum of `ValueOf` over some tokens. */
  function SumValues(ws: seq<string>): int {
    if |ws| == 0 then 0 else Value(ws[0]) + SumValues(ws[1..])
  }

  /** What ConvertToArabic computes. */
  function Arabic(roman: string): int {
    SumValues(Windows(roman))
  }

  /** Every token value is 0 or a table value, so sums are never negative. */
  lemma {:induction false} SumValuesNonNegative(ws: seq<string>)
    ensures SumValues(ws) >= 0
  {
    if |ws| > 0 {
      ValueFromMeaning(ws[0], 0);
      if IsSymbol(ws[0]) {
        var i :| 0 <= i < 13 && AllRomanNumerals[i].symbol == ws[0] && Value(ws[0]) == AllRomanNumerals[i].value;
        TableValue(i);
      }
      SumValuesNonNegative(ws[1..]);
    }
  }

  lemma {:induction false} SumValuesAppend(ws: seq<string>, s: string)
    ensures SumValues(ws + [s]) == SumValues(ws) + Value(s)
  {
    if |ws| > 0 {
      assert (ws + [s])[1..] == ws[1..] + [s];
      SumValuesAppend(ws[1..], s);
    } else {
      assert ws + [s] == [s];
    }
  }

  /** The tokens put back together are the input, and each is one or two characters long. */
  lemma {:induction false} WindowsCover(w: string)
    decreases |w|
    ensures Concat(Windows(w)) == w
    ensures forall i :: 0 <= i < |Windows(w)| ==> 1 <= |Windows(w)[i]| <= 2
  {
    if |w| > 0 {
      var n := if |w| >= 2 && IsSubtractive(w[0]) && IsSymbol(w[..2]) then 2 else 1;
      WindowsCover(w[n..]);
      assert Windows(w) == [w[..n]] + Windows(w[n..]);
      assert w == w[..n] + w[n..];
    }
  }

  /** One step of the tokenizer at position `i`. */
  lemma WindowsStep(w: string, i: nat)
    requires i < |w|
    ensures i + 1 < |w| && IsSubtractive(w[i]) && IsSymbol([w[i], w[i + 1]]) ==>
      Windows(w[i..]) == [[w[i], w[i + 1]]] + Windows(w[i + 2..])
    ensures !(i + 1 < |w| && IsSubtractive(w[i]) && IsSymbol([w[i], w[i + 1]])) ==>
      Windows(w[i..]) == [[w[i]]] + Windows(w[i + 1..])
  {
    var rest := w[i..];
    if i + 1 < |w| {
      assert rest[..2] == [w[i], w[i + 1]];
      assert rest[2..] == w[i + 2..];
    }
    assert rest[..1] == [w[i]];
    assert rest[1..] == w[i + 1..];
  }

  /** The two-character symbols are exactly the six subtractive pairs CM, CD, XC, XL, IX and IV. */
  lemma PairSymbols(a: char, b: char)
    ensures IsSymbol([a, b]) <==>
      (a == 'C' && (b == 'M' || b == 'D')) ||
      (a == 'X' && (b == 'C' || b == 'L')) ||
      (a == 'I' && (b == 'X' || b == 'V'))
  {
    SymbolFromMeaning([a, b], 0);
    if IsSymbol([a, b]) {
      var i :| 0 <= i < 13 && AllRomanNumerals[i].symbol == [a, b];
      assert AllRomanNumerals[i].symbol[0] == a && AllRomanNumerals[i].symbol[1] == b;
    } else {
      assert AllRomanNumerals[1].symbol != [a, b];
      assert AllRomanNumerals[3].symbol != [a, b];
      assert AllRomanNumerals[5].symbol != [a, b];
      assert AllRomanNumerals[7].symbol != [a, b];
      assert AllRomanNumerals[9].symbol != [a, b];
      assert AllRomanNumerals[11].symbol != [a, b];
    }
  }

  /** A lone subtractive character is never followed by a character it pairs with. */
  lemma NoFalsePair(e: Entry, f: Entry)
    requires e <= f
    requires |AllRomanNumerals[e].symbol| == 1 && IsSubtractive(AllRomanNumerals[e].symbol[0])
    ensures !IsSymbol([AllRomanNumerals[e].symbol[0], AllRomanNumerals[f].symbol[0]])
  {
    PairSymbols(AllRomanNumerals[e].symbol[0], AllRomanNumerals[f].symbol[0]);
    if f == 4 {} else if f == 5 {} else if f == 6 {} else if f == 7 {}
    else if f == 8 {} else if f == 9 {} else if f == 10 {} else if f == 11 {}
    else if f == 12 {}
    else if e == 0 {} else if e == 1 {} else if e == 2 {} else {}
  }

  /** A two-character symbol in front of anything is read as one token. */
  lemma WindowsOfPairSymbol(pair: string, rest: string)
    requires |pair| == 2 && IsSubtractive(pair[0]) && IsSymbol(pair)
    ensures Windows(pair + rest) == [pair] + Windows(rest)
  {
    var w := pair + rest;
    assert w[..2] == pair;
    assert w[2..] == rest;
  }

  /** A one-character token is read alone unless it is I, X or C and pairs with what follows. */
  lemma WindowsOfSingleSymbol(c: char, rest: string)
    requires |rest| > 0 && IsSubtractive(c) ==> !IsSymbol([c, rest[0]])
    ensures Windows([c] + rest) == [[c]] + Windows(rest)
  {
    var w := [c] + rest;
    if |rest| > 0 {
      assert w[..2] == [c, rest[0]];
    }
    assert w[..1] == [c];
    assert w[1..] == rest;
  }

  /** Tokenizing the spelling of entries in table order gives back exactly their symbols. */
  lemma {:induction false} WindowsSpell(t: seq<Entry>)
    requires InTableOrder(t)
    ensures Windows(Spell(t)) == SymbolsOf(t)
  {
    if |t| > 0 {
      var sym := AllRomanNumerals[t[0]].symbol;
      var rest := Spell(t[1..]);
      assert Spell(t) == sym + rest;
      TableSymbol(t[0]);
      assert InTableOrder(t[1..]);
      WindowsSpell(t[1..]);
      if |sym| == 2 {
        TableLookup(t[0]);
        WindowsOfPairSymbol(sym, rest);
      } else {
        if |t| > 1 {
          TableSymbol(t[1]);
          assert rest == AllRomanNumerals[t[1]].symbol + Spell(t[2..]);
          if IsSubtractive(sym[0]) {
            NoFalsePair(t[0], t[1]);
          }
        }
        assert sym == [sym[0]];
        WindowsOfSingleSymbol(sym[0], rest);
      }
    }
  }

  /** The symbols of a sequence of entries, as separate tokens. */
  function SymbolsOf(t: seq<Entry>): (syms: seq<string>)
    ensures |syms| == |t|
    ensures forall i :: 0 <= i < |t| ==> syms[i] == AllRomanNumerals[t[i]].symbol
  {
    if |t| == 0 then [] else [AllRomanNumerals[t[0]].symbol] + SymbolsOf(t[1..])
  }

  lemma {:induction false} SumValuesOfSymbols(t: seq<Entry>)
    ensures SumValues(SymbolsOf(t)) == Total(t)
  {
    if |t| > 0 {
      TableLookup(t[0]);
      SumValuesOfSymbols(t[1..]);
    }
  }

  /** Decoding what the encoder produced gives the number back, for every n >= 0. */
  lemma RoundTrip(n: int)
    requires n >= 0
    ensures Arabic(Roman(n)) == n
  {
    var t := Greedy(n, 0);
    GreedyOrdered(n, 0);
    WindowsSpell(t);
    SumValuesOfSymbols(t);
    GreedyTotal(n, 0);
  }

  /** Each subtractive character is a symbol on its own. */
  lemma SubtractiveIsSymbol(c: char)
    ensures IsSubtractive(c) ==> IsSymbol([c])
  {
    if c == 'I' { TableLookup(12); } else if c == 'X' { TableLookup(8); } else if c == 'C' { TableLookup(4); }
  }

  /** The empty string and unknown characters decode to 0. */
  lemma ArabicOfNonSymbols(roman: string)
    requires forall i :: 0 <= i < |roman| ==> !IsSymbol([roman[i]])
    ensures Arabic(roman) == 0
  {
    ArabicOfNonSymbolsWindows(roman);
  }

  lemma {:induction false} ArabicOfNonSymbolsWindows(w: string)
    requires forall i :: 0 <= i < |w| ==> !IsSymbol([w[i]])
    decreases |w|
    ensures SumValues(Windows(w)) == 0
  {
    if |w| > 0 {
      SubtractiveIsSymbol(w[0]);
      assert w[..1] == [w[0]];
      assert Windows(w) == [w[..1]] + Windows(w[1..]);
      IsSymbolIffValueNonZero(w[..1]);
      ArabicOfNonSymbolsWindows(w[1..]);
    }
  }

  // ---------------------------------------------------------------------
  // The imperative operations

  /** `RomanNumerals.ValueOf`: a linear search of the table. */
  method ValueOf(symbol: string) returns (v: int)
    ensures v == Value(symbol)
    ensures IsSymbol(symbol) ==>
      exists i :: 0 <= i < 13 && AllRomanNumerals[i].symbol == symbol && v == AllRomanNumerals[i].value
    ensures !IsSymbol(symbol) ==> v == 0
  {
    ValueFromMeaning(symbol, 0);
    for i := 0 to |AllRomanNumerals|
      invariant ValueFrom(symbol, i) == Value(symbol)
    {
      if AllRomanNumerals[i].symbol == symbol {
        return AllRomanNumerals[i].value;
      }
    }
    return 0;
  }

  /** `RomanNumerals.Exists`: a linear search of the table. */
  method Exists(symbol: string) returns (b: bool)
    ensures b == IsSymbol(symbol)
    ensures b <==> exists i :: 0 <= i < 13 && AllRomanNumerals[i].symbol == symbol
  {
    SymbolFromMeaning(symbol, 0);
    for i := 0 to |AllRomanNumerals|
      invariant SymbolFrom(symbol, i) == IsSymbol(symbol)
    {
      if AllRomanNumerals[i].symbol == symbol {
        return true;
      }
    }
    return false;
  }

  /** The inner loop of `ConvertToRoman`: emit entry `k`'s symbol while the remainder reaches its value. */
  method EmitEntry(k: Entry, n: int, result: string, ghost emitted: seq<Entry>)
    returns (rest: int, spelled: string, ghost extended: seq<Entry>)
    requires result == Spell(emitted)
    ensures rest < AllRomanNumerals[k].value
    ensures extended + Greedy(rest, k + 1) == emitted + Greedy(n, k)
    ensures spelled == Spell(extended)
    ensures Total(extended) + rest == Total(emitted) + n
  {
    var numeral := AllRomanNumerals[k];
    TableValue(k);
    rest, spelled, extended := n, result, emitted;
    while rest >= numeral.value
      invariant extended + Greedy(rest, k) == emitted + Greedy(n, k)
      invariant spelled == Spell(extended)
      invariant Total(extended) + rest == Total(emitted) + n
      decreases rest
    {
      TakeStep(extended, rest, k);
      spelled := spelled + numeral.symbol;
      rest := rest - numeral.value;
      extended := extended + [k];
    }
    GreedySkip(rest, k);
  }

  /** `ConvertToRoman`: for each table entry, emit its symbol while the remainder reaches its value. */
  method ConvertToRoman(arabic: int) returns (r: string)
    ensures r == Roman(arabic)
    ensures arabic <= 0 ==> r == ""
    ensures arabic >= 0 ==> Arabic(r) == arabic
  {
    var result := "";
    var n := arabic;
    ghost var emitted: seq<Entry> := [];
    for k := 0 to |AllRomanNumerals|
      invariant emitted + Greedy(n, k) == Greedy(arabic, 0)
      invariant result == Spell(emitted)
      invariant Total(emitted) + n == arabic
    {
      n, result, emitted := EmitEntry(k, n, result, emitted);
    }
    assert emitted == Greedy(arabic, 0);
    if arabic <= 0 {
      GreedyOfNonPositive(arabic, 0);
    } else {
      RoundTrip(arabic);
    }
    return result;
  }

  /** One turn of the `Symbols` loop: appending the next token to those already read keeps them a prefix of the tokens of `w`. */
  lemma TokenStep(done: seq<string>, w: string, i: nat)
    requires i < |w| && done + Windows(w[i..]) == Windows(w)
    ensures i + 1 < |w| && IsSubtractive(w[i]) && IsSymbol([w[i], w[i + 1]]) ==>
      (done + [[w[i], w[i + 1]]]) + Windows(w[i + 2..]) == Windows(w)
    ensures !(i + 1 < |w| && IsSubtractive(w[i]) && IsSymbol([w[i], w[i + 1]])) ==>
      (done + [[w[i]]]) + Windows(w[i + 1..]) == Windows(w)
  {
    WindowsStep(w, i);
    if i + 1 < |w| && IsSubtractive(w[i]) && IsSymbol([w[i], w[i + 1]]) {
      assert (done + [[w[i], w[i + 1]]]) + Windows(w[i + 2..]) == done + ([[w[i], w[i + 1]]] + Windows(w[i + 2..]));
    } else {
      assert (done + [[w[i]]]) + Windows(w[i + 1..]) == done + ([[w[i]]] + Windows(w[i + 1..]));
    }
  }

  /** `windowedRoman.Symbols`: walk the string, pairing I, X or C with a successor that forms a table symbol. */
  method Symbols(w: string) returns (symbols: seq<string>)
    ensures symbols == Windows(w)
    ensures Concat(symbols) == w
    ensures forall i :: 0 <= i < |symbols| ==> 1 <= |symbols[i]| <= 2
  {
    symbols := [];
    var i := 0;
    while i < |w|
      invariant 0 <= i <= |w|
      invariant symbols + Windows(w[i..]) == Windows(w)
    {
      var symbol := w[i];
      var notAtEnd := i + 1 < |w|;
      var pairs := false;
      if notAtEnd && IsSubtractive(symbol) {
        pairs := Exists([symbol, w[i + 1]]);
      }
      TokenStep(symbols, w, i);
      if pairs {
        symbols := symbols + [[symbol, w[i + 1]]];
        i := i + 1;
      } else {
        symbols := symbols + [[symbol]];
      }
      i := i + 1;
    }
    WindowsCover(w);
  }

  /** `ConvertToArabic`: the sum of the values of the tokens. */
  method ConvertToArabic(roman: string) returns (total: int)
    ensures total == Arabic(roman)
  {
    total := 0;
    var windows := Symbols(roman);
    for j := 0 to |windows|
      invariant total == SumValues(windows[..j])
    {
      var v := ValueOf(windows[j]);
      assert windows[..j + 1] == windows[..j] + [windows[j]];
      SumValuesAppend(windows[..j], windows[j]);
      total := total + v;
    }
    assert windows[..|windows|] == windows;
  }
}
