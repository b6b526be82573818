/**
 * The countdown of countdown/countdown.go and of
 * learn-go-with-tests/01-go-fundamentals/09-mocking/countdown.go: count down
 * from 3, sleeping before each line, then sleep once more and write "Go!".
 * The writer and the sleeper are modelled as one recorder of the calls made
 * on them, so that their interleaving is part of the result.
 */
module Countdown {
  import opened Strconv

  const FinalWord := "Go!"
  const CountDownStart := 3

  /** A call on the sleeper or on the writer. */
  datatype Call = Sleep | Write(text: string)

  /** The calls made while counting down from `i`. */
  function Steps(i: nat): seq<Call>
    decreases i
  {
    if i == 0 then [Sleep, Write(FinalWord)]
    else [Sleep, Write(Itoa(i) + "\n")] + Steps(i - 1)
  }

  /** The text a sequence of calls writes. */
  function Written(calls: seq<Call>): string
    decreases |calls|
  {
    if |calls| == 0 then ""
    else (if calls[0].Write? then calls[0].text else "") + Written(calls[1..])
  }

  /** How many times a sequence of calls sleeps. */
  function Sleeps(calls: seq<Call>): nat
    decreases |calls|
  {
    if |calls| == 0 then 0 else (if calls[0].Sleep? then 1 else 0) + Sleeps(calls[1..])
  }

  /** Writing distributes over concatenation of call sequences. */
  lemma {:induction false} WrittenAppend(a: seq<Call>, b: seq<Call>)
    decreases |a|
    ensures Written(a + b) == Written(a) + Written(b)
  {
    if |a| == 0 {
      assert a + b == b;
    } else {
      assert (a + b)[1..] == a[1..] + b;
      WrittenAppend(a[1..], b);
    }
  }

  /** Counting down from `i` sleeps `i + 1` times. */
  lemma {:induction false} SleepCount(i: nat)
    decreases i
    ensures Sleeps(Steps(i)) == i + 1
  {
    if i == 0 {
      assert Steps(0)[1..][1..] == [];
    } else {
      var s := Steps(i);
      assert s[1..][1..] == Steps(i - 1);
      SleepCount(i - 1);
    }
  }

  /**
   * Sleeping and writing strictly alternate, starting with a sleep, and the
   * last call writes the final word.
   */
  lemma {:induction false} Alternates(i: nat)
    decreases i
    ensures |Steps(i)| == 2 * (i + 1)
    ensures forall k :: 0 <= k < |Steps(i)| ==> (Steps(i)[k].Sleep? <==> k % 2 == 0)
    ensures Steps(i)[|Steps(i)| - 1] == Write(FinalWord)
  {
    if i > 0 {
      Alternates(i - 1);
      var s, t := Steps(i), Steps(i - 1);
      assert s == [Sleep, Write(Itoa(i) + "\n")] + t;
      forall k | 0 <= k < |s|
        ensures s[k].Sleep? <==> k % 2 == 0
      {
        if k >= 2 {
          assert s[k] == t[k - 2];
          assert (k - 2) % 2 == k % 2;
        }
      }
      assert s[|s| - 1] == t[|t| - 1];
    }
  }

  /** A sleep writes nothing, so one step of the countdown writes just its line. */
  lemma WrittenStep(i: nat)
    ensures i == 0 ==> Written(Steps(i)) == FinalWord
    ensures i > 0 ==> Written(Steps(i)) == Itoa(i) + "\n" + Written(Steps(i - 1))
  {
    var t := if i == 0 then FinalWord else Itoa(i) + "\n";
    var head := [Sleep, Write(t)];
    assert head[1..] == [Write(t)] && [Write(t)][1..] == [];
    assert Written([Write(t)]) == t + Written([]);
    assert Written(head) == "" + Written([Write(t)]);
    if i == 0 {
      assert Steps(0) == head;
    } else {
      WrittenAppend(head, Steps(i - 1));
    }
  }

  /** The three numbers the countdown prints. */
  lemma SmallNumerals()
    ensures Itoa(1) == "1" && Itoa(2) == "2" && Itoa(3) == "3"
  {
  }

  /** Counting down from 3 writes "3\n2\n1\nGo!" and sleeps four times. */
  lemma CountdownFromThree()
    ensures Written(Steps(CountDownStart)) == "3\n2\n1\nGo!"
    ensures Sleeps(Steps(CountDownStart)) == 4
  {
    SmallNumerals();
    WrittenStep(0);
    WrittenStep(1);
    WrittenStep(2);
    WrittenStep(3);
    SleepCount(CountDownStart);
  }

  /** The writer and the sleeper the countdown talks to, recording each call. */
  class Recorder {
    var calls: seq<Call>

    constructor ()
      ensures calls == []
    {
      calls := [];
    }

    method Sleep()
      modifies this
      ensures calls == old(calls) + [Call.Sleep]
    {
      calls := calls + [Call.Sleep];
    }

    method Write(text: string)
      modifies this
      ensures calls == old(calls) + [Call.Write(text)]
    {
      calls := calls + [Call.Write(text)];
    }
  }

  /** `Countdown`: the loop from `countDownStart` down to 1, then the final sleep and word. */
  method Countdown(ops: Recorder)
    modifies ops
    ensures ops.calls == old(ops.calls) + Steps(CountDownStart)
  {
    ghost var before := ops.calls;
    var i := CountDownStart;
    while i > 0
      invariant 0 <= i <= CountDownStart
      invariant ops.calls + Steps(i) == before + Steps(CountDownStart)
      decreases i
    {
      ghost var here := ops.calls;
      ops.Sleep();
      ops.Write(Itoa(i) + "\n");
      assert ops.calls + Steps(i - 1) == here + Steps(i);
      i := i - 1;
    }
    ops.Sleep();
    ops.Write(FinalWord);
    assert ops.calls == before + Steps(CountDownStart);
  }

  /** A run of the countdown against a fresh recorder. */
  method CountdownRun() returns (text: string, sleeps: nat)
    ensures text == "3\n2\n1\nGo!"
    ensures sleeps == 4
  {
    var ops := new Recorder();
    Countdown(ops);
    assert ops.calls == Steps(CountDownStart);
    CountdownFromThree();
    text := Written(ops.calls);
    sleeps := Sleeps(ops.calls);
  }

  /** `ConfigurableSleeper`: each `Sleep` hands its configured duration to its sleep function. */
  class ConfigurableSleeper {
    const duration: int
    /** The durations passed to the sleep function, in order. */
    var slept: seq<int>

    constructor (duration: int)
      ensures this.duration == duration && slept == []
    {
      this.duration := duration;
      slept := [];
    }

    method Sleep()
      modifies this
      ensures slept == old(slept) + [duration]
    {
      slept := slept + [duration];
    }
  }

  /** A sleeper configured with a duration sleeps for exactly that duration, once per call. */
  method SleeperRun(duration: int) returns (slept: seq<int>)
    ensures slept == [duration, duration]
  {
    var sleeper := new ConfigurableSleeper(duration);
    sleeper.Sleep();
    sleeper.Sleep();
    slept := sleeper.slept;
  }
}
