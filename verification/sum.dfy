/**
 * `Sum`, `SumAll` and `SumAllTails`, written three times in the
 * repository (sum.go, learn-go-with-tests/01-go-fundamentals/04-arrays-and-slices/sum.go
 * and, without SumAllTails, second/04-arrays-and-slices/sum.go) with the
 * same loops; one model serves all three.
 */
module Sum {
  /** The arithmetic sum of a sequence, adding from the left. */
  function Total(numbers: seq<int>): int
    decreases |numbers|
  {
    if |numbers| == 0 then 0 else Total(numbers[..|numbers| - 1]) + numbers[|numbers| - 1]
  }

  /** The sum splits at any point: it is the sum of the parts. */
  lemma {:induction false} TotalConcat(a: seq<int>, b: seq<int>)
    decreases |b|
    ensures Total(a + b) == Total(a) + Total(b)
  {
    if |b| > 0 {
      assert (a + b)[..|a + b| - 1] == a + b[..|b| - 1];
      TotalConcat(a, b[..|b| - 1]);
    } else {
      assert a + b == a;
    }
  }

  /** The sum is the first element plus the sum of the tail. */
  lemma TotalHeadTail(numbers: seq<int>)
    requires |numbers| > 0
    ensures Total(numbers) == numbers[0] + Total(numbers[1..])
  {
    TotalConcat([numbers[0]], numbers[1..]);
    assert [numbers[0]] + numbers[1..] == numbers;
  }

  /** `Sum`: the running total over the slice. */
  method Sum(numbers: seq<int>) returns (sum: int)
    ensures sum == Total(numbers)
    ensures |numbers| == 0 ==> sum == 0
  {
    sum := 0;
    for i := 0 to |numbers|
      invariant sum == Total(numbers[..i])
    {
      assert numbers[..i + 1][..i] == numbers[..i];
      sum := sum + numbers[i];
    }
    assert numbers[..|numbers|] == numbers;
  }

  /** `SumAll`: one sum per argument slice, in argument order. */
  method SumAll(numbersToSum: seq<seq<int>>) returns (sums: seq<int>)
    ensures |sums| == |numbersToSum|
    ensures forall i :: 0 <= i < |numbersToSum| ==> sums[i] == Total(numbersToSum[i])
  {
    sums := [];
    for i := 0 to |numbersToSum|
      invariant |sums| == i
      invariant forall j :: 0 <= j < i ==> sums[j] == Total(numbersToSum[j])
    {
      var s := Sum(numbersToSum[i]);
      sums := sums + [s];
    }
  }

  /** `SumAllTails`: per argument slice, 0 when it is empty, else the sum of all but its first element. */
  method SumAllTails(numbersToSum: seq<seq<int>>) returns (sums: seq<int>)
    ensures |sums| == |numbersToSum|
    ensures forall i :: 0 <= i < |numbersToSum| && |numbersToSum[i]| == 0 ==> sums[i] == 0
    ensures forall i :: 0 <= i < |numbersToSum| && |numbersToSum[i]| > 0 ==>
      numbersToSum[i][0] + sums[i] == Total(numbersToSum[i])
    ensures forall i :: 0 <= i < |numbersToSum| && |numbersToSum[i]| == 1 ==> sums[i] == 0
  {
    sums := [];
    for i := 0 to |numbersToSum|
      invariant |sums| == i
      invariant forall j :: 0 <= j < i && |numbersToSum[j]| == 0 ==> sums[j] == 0
      invariant forall j :: 0 <= j < i && |numbersToSum[j]| > 0 ==> numbersToSum[j][0] + sums[j] == Total(numbersToSum[j])
    {
      var numbers := numbersToSum[i];
      if |numbers| == 0 {
        sums := sums + [0];
      } else {
        var s := Sum(numbers[1..]);
        TotalHeadTail(numbers);
        sums := sums + [s];
      }
    }
  }

  /** The table-driven cases of sum_test.go in both learn-go-with-tests/01-go-fundamentals/04-arrays-and-slices and second/04-arrays-and-slices. */
  method SumCases() returns (three: int, five: int, all2: seq<int>, all3: seq<int>)
    ensures three == 6 && five == 15
    ensures all2 == [3, 9] && all3 == [3, 9, 13]
  {
    assert [1, 2, 3, 4, 5][..4] == [1, 2, 3, 4] && [1, 2, 3, 4][..3] == [1, 2, 3];
    assert [1, 2, 3][..2] == [1, 2] && [1, 2][..1] == [1] && [1][..0] == [];
    assert [0, 10, 3][..2] == [0, 10] && [0, 10][..1] == [0] && [0, 9][..1] == [0] && [0][..0] == [];
    three := Sum([1, 2, 3]);
    five := Sum([1, 2, 3, 4, 5]);
    all2 := SumAll([[1, 2], [0, 9]]);
    all3 := SumAll([[1, 2], [0, 9], [0, 10, 3]]);
  }

  /** The `SumAllTails` cases of learn-go-with-tests/01-go-fundamentals/04-arrays-and-slices/sum_test.go. */
  method SumAllTailsCases() returns (tails: seq<int>, withEmpty: seq<int>)
    ensures tails == [2, 9]
    ensures withEmpty == [0, 9]
  {
    assert [1, 2][..1] == [1] && [1][..0] == [] && [0, 9][..1] == [0] && [0][..0] == [];
    assert [3, 4, 5][..2] == [3, 4] && [3, 4][..1] == [3] && [3][..0] == [];
    tails := SumAllTails([[1, 2], [0, 9]]);
    withEmpty := SumAllTails([[], [3, 4, 5]]);
  }
}
