/**
 * The Roman numeral codec over Go's `uint16`
 * (second/15-property-based-test/numeral.go). The table, the tokenizer
 * (`Symbols`) and `Exists` are the same code as the `int` copy and are
 * shared with module Numeral; what differs is the 16-bit arithmetic.
 */
module Numeral16 {
  import N = Numeral

  newtype uint16 = x: int | 0 <= x < 0x1_0000

  /** Go's `uint16` addition, which wraps modulo 2^16: exact when the sum fits, otherwise 65536 less. */
  function Add(a: uint16, b: uint16): (r: uint16)
    ensures a as int + b as int < 0x1_0000 ==> r as int == a as int + b as int
    ensures a as int + b as int >= 0x1_0000 ==> r as int == a as int + b as int - 0x1_0000
  {
    ((a as int + b as int) % 0x1_0000) as uint16
  }

  /** What ConvertToArabic computes: the token sum, wrapped to 16 bits. */
  function Arabic(roman: string): uint16
  {
    (N.Arabic(roman) % 0x1_0000) as uint16
  }

  /** The inner loop of `ConvertToRoman` on `uint16`: `arabic -= numeral.Value` only runs while `arabic >= numeral.Value`, so it never wraps. */
  method EmitEntry(k: N.Entry, n: uint16, result: string, ghost emitted: seq<N.Entry>)
    returns (rest: uint16, spelled: string, ghost extended: seq<N.Entry>)
    requires result == N.Spell(emitted)
    ensures rest <= n && rest as int < N.AllRomanNumerals[k].value
    ensures extended + N.Greedy(rest as int, k + 1) == emitted + N.Greedy(n as int, k)
    ensures spelled == N.Spell(extended)
  {
    N.TableValue(k);
    var numeral := N.AllRomanNumerals[k];
    var value := numeral.value as uint16;
    assert value as int == N.AllRomanNumerals[k].value;
    rest, spelled, extended := n, result, emitted;
    while rest >= value
      invariant extended + N.Greedy(rest as int, k) == emitted + N.Greedy(n as int, k)
      invariant spelled == N.Spell(extended)
      decreases rest
    {
      N.TakeStep(extended, rest as int, k);
      spelled := spelled + numeral.symbol;
      rest := rest - value;
      extended := extended + [k];
    }
    N.GreedySkip(rest as int, k);
  }

  /** `ConvertToRoman`: the greedy encoder over the table. */
  method ConvertToRoman(arabic: uint16) returns (r: string)
    ensures r == N.Roman(arabic as int)
    ensures arabic == 0 ==> r == ""
  {
    var result := "";
    var n := arabic;
    ghost var emitted: seq<N.Entry> := [];
    for k := 0 to |N.AllRomanNumerals|
      invariant emitted + N.Greedy(n as int, k) == N.Greedy(arabic as int, 0)
      invariant result == N.Spell(emitted)
    {
      n, result, emitted := EmitEntry(k, n, result, emitted);
    }
    assert emitted == N.Greedy(arabic as int, 0);
    if arabic == 0 {
      N.GreedyOfNonPositive(0, 0);
    }
    return result;
  }

  /** `RomanNumerals.ValueOf` returning `uint16`: table values fit, so nothing wraps. */
  method ValueOf(roman: string) returns (v: uint16)
    ensures v as int == N.Value(roman)
    ensures v == 0 <==> !N.IsSymbol(roman)
  {
    N.IsSymbolIffValueNonZero(roman);
    for i := 0 to |N.AllRomanNumerals|
      invariant N.ValueFrom(roman, i) == N.Value(roman)
    {
      if N.AllRomanNumerals[i].symbol == roman {
        N.TableValue(i);
        return N.AllRomanNumerals[i].value as uint16;
      }
    }
    return 0;
  }

  lemma AddAfterMod(a: int, b: int)
    ensures (a % 0x1_0000 + b) % 0x1_0000 == (a + b) % 0x1_0000
  {
  }

  /** Adding the next window's value to the wrapped total of the earlier ones gives the wrapped total including it. */
  lemma SumStep(windows: seq<string>, j: nat)
    requires j < |windows|
    ensures (N.SumValues(windows[..j]) % 0x1_0000 + N.Value(windows[j])) % 0x1_0000
         == N.SumValues(windows[..j + 1]) % 0x1_0000
  {
    assert windows[..j + 1] == windows[..j] + [windows[j]];
    N.SumValuesAppend(windows[..j], windows[j]);
    AddAfterMod(N.SumValues(windows[..j]), N.Value(windows[j]));
  }

  /** `ConvertToArabic`: the window values are added into a `uint16`, wrapping past 65535. */
  method ConvertToArabic(roman: string) returns (total: uint16)
    ensures total == Arabic(roman)
    ensures N.Arabic(roman) < 0x1_0000 ==> total as int == N.Arabic(roman)
  {
    total := 0;
    var windows := N.Symbols(roman);
    for j := 0 to |windows|
      invariant total as int == N.SumValues(windows[..j]) % 0x1_0000
    {
      var v := ValueOf(windows[j]);
      SumStep(windows, j);
      total := Add(total, v);
    }
    assert windows[..|windows|] == windows;
    N.SumValuesNonNegative(windows);
  }

  /** For every `uint16` n, decoding the encoding gives n: the sum never reaches 2^16. */
  lemma RoundTrip(n: uint16)
    ensures Arabic(N.Roman(n as int)) == n
  {
    N.RoundTrip(n as int);
  }
}
