/**
 * Decimal rendering and parsing of integers: what `fmt` prints for `%d`
 * (and for `Fprint`/`Fprintln` of an int), and `strconv.Atoi`.
 */
module Strconv {
  import opened Wrappers

  /** Bounds of Go's 64-bit `int`. */
  const MinInt: int := -0x8000_0000_0000_0000
  const MaxInt: int := 0x7fff_ffff_ffff_ffff

  predicate IsDigit(c: char) {
    '0' <= c <= '9'
  }

  predicate AllDigits(s: string) {
    forall i :: 0 <= i < |s| ==> IsDigit(s[i])
  }

  function DigitChar(d: nat): (c: char)
    requires d < 10
    ensures IsDigit(c)
  {
    ('0' as int + d) as char
  }

  function DigitValue(c: char): (d: nat)
    requires IsDigit(c)
    ensures d < 10 && DigitChar(d) == c
  {
    c as int - '0' as int
  }

  /** The decimal digits of `n`, most significant first, without leading zeros. */
  function Digits(n: nat): (s: string)
    decreases n
    ensures |s| > 0 && AllDigits(s)
    ensures |s| > 1 ==> s[0] != '0'
  {
    if n < 10 then [DigitChar(n)] else Digits(n / 10) + [DigitChar(n % 10)]
  }

  /** The number a string of decimal digits denotes. */
  function DecimalValue(s: string): nat
    requires AllDigits(s)
    decreases |s|
  {
    if |s| == 0 then 0 else 10 * DecimalValue(s[..|s| - 1]) + DigitValue(s[|s| - 1])
  }

  /** `fmt.Sprint(n)` for an integer `n`: a minus sign for negatives, then the digits. */
  function Itoa(n: int): (s: string)
    ensures |s| > 0
    ensures (s[0] == '-') == (n < 0)
    ensures forall i :: 0 <= i < |s| ==> IsDigit(s[i]) || (i == 0 && s[i] == '-')
  {
    if n < 0 then "-" + Digits(-n) else Digits(n)
  }

  /**
   * `strconv.Atoi`: an optional sign followed by at least one decimal digit,
   * whose value fits Go's `int`; anything else is an error (None).
   */
  function Atoi(s: string): (r: Option<int>)
    ensures r.Some? ==> MinInt <= r.value <= MaxInt
    ensures |s| == 0 ==> r.None?
  {
    if |s| == 0 then None
    else
      var body := if s[0] == '-' || s[0] == '+' then s[1..] else s;
      if |body| == 0 || !AllDigits(body) then None
      else
        var v: int := if s[0] == '-' then 0 - DecimalValue(body) as int else DecimalValue(body);
        if MinInt <= v <= MaxInt then Some(v) else None
  }

  lemma {:induction false} DecimalValueDigits(n: nat)
    decreases n
    ensures DecimalValue(Digits(n)) == n
  {
    if n >= 10 {
      var s := Digits(n);
      DecimalValueDigits(n / 10);
      assert s[..|s| - 1] == Digits(n / 10);
    }
  }

  /** Parsing what `Itoa` printed gives the number back, for every Go `int`. */
  lemma AtoiItoa(n: int)
    requires MinInt <= n <= MaxInt
    ensures Atoi(Itoa(n)) == Some(n)
  {
    var s := Itoa(n);
    if n < 0 {
      var d := Digits(-n);
      DecimalValueDigits(-n);
      assert s == "-" + d;
      assert s[1..] == d;
      assert 0 - DecimalValue(d) as int == n;
    } else {
      var d := Digits(n);
      DecimalValueDigits(n);
      assert s == d;
      assert s[0] != '-' && s[0] != '+';
    }
  }

  /** `Atoi` refuses any string holding a character that is neither a digit nor a leading sign. */
  lemma AtoiRejectsNonDigit(s: string, i: nat)
    requires 0 < i < |s| && !IsDigit(s[i])
    ensures Atoi(s) == None
  {
    var body := if s[0] == '-' || s[0] == '+' then s[1..] else s;
    if s[0] == '-' || s[0] == '+' {
      assert body[i - 1] == s[i];
    } else {
      assert body[i] == s[i];
    }
  }

  /**
   * A string `strconv.Atoi` refuses whatever its value: empty, a lone sign,
   * or a character other than a digit that is not a leading sign.
   */
  predicate Malformed(s: string) {
    |s| == 0 || s == "+" || s == "-" ||
    exists i :: 0 <= i < |s| && !IsDigit(s[i]) && !(i == 0 && (s[i] == '+' || s[i] == '-'))
  }

  /** The digits of a well-formed string, after its optional sign. */
  function Unsigned(s: string): (body: string)
    requires !Malformed(s)
    ensures |body| > 0 && AllDigits(body)
    ensures s[0] == '-' || s[0] == '+' ==> s == [s[0]] + body
    ensures !(s[0] == '-' || s[0] == '+') ==> body == s
  {
    if s[0] == '-' || s[0] == '+' then
      assert forall j :: 0 <= j < |s| - 1 ==> s[1..][j] == s[j + 1];
      s[1..]
    else s
  }

  /** The value a well-formed string denotes, its sign applied. */
  function SignedValue(s: string): int
    requires !Malformed(s)
  {
    if s[0] == '-' then -(DecimalValue(Unsigned(s)) as int) else DecimalValue(Unsigned(s))
  }

  /** `Atoi` fails exactly on a malformed string or a value outside Go's `int`, and otherwise gives that value. */
  lemma AtoiNoneIff(s: string)
    ensures Atoi(s).None? <==> Malformed(s) || !(MinInt <= SignedValue(s) <= MaxInt)
    ensures !Malformed(s) && MinInt <= SignedValue(s) <= MaxInt ==> Atoi(s) == Some(SignedValue(s))
  {
    if |s| > 0 {
      var body := if s[0] == '-' || s[0] == '+' then s[1..] else s;
      if Malformed(s) {
        if s != "+" && s != "-" {
          var i :| 0 <= i < |s| && !IsDigit(s[i]) && !(i == 0 && (s[i] == '+' || s[i] == '-'));
          if s[0] == '-' || s[0] == '+' {
            assert body[i - 1] == s[i];
          } else {
            assert body[i] == s[i];
          }
        } else {
          assert |body| == 0;
        }
      } else {
        assert body == Unsigned(s);
      }
    }
  }
}
