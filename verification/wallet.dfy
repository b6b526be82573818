/** The `Wallet` of pointer.go: a Bitcoin balance changed through a pointer receiver. */
module Wallet {
  import opened Wrappers
  import Strconv

  /** `Bitcoin` is an `int`. */
  type Bitcoin = int

  /** `ErrInsufficientFunds`, made with `errors.New`. */
  datatype WalletError = ErrInsufficientFunds {
    function Error(): string {
      "balance is not enough"
    }
  }

  /** `Bitcoin.String`: the amount in decimal followed by " BTC". */
  function BitcoinString(b: Bitcoin): (s: string)
    ensures |s| > 4 && s[|s| - 4..] == " BTC"
  {
    Strconv.Itoa(b) + " BTC"
  }

  /** The text before " BTC" parses back to the amount, for every amount that fits an `int`. */
  lemma BitcoinStringParses(b: Bitcoin)
    requires Strconv.MinInt <= b <= Strconv.MaxInt
    ensures var s := BitcoinString(b); Strconv.Atoi(s[..|s| - 4]) == Some(b)
  {
    var digits := Strconv.Itoa(b);
    Strconv.AtoiItoa(b);
    assert (digits + " BTC")[..|digits|] == digits;
  }

  /** One call on a wallet. */
  datatype Op = Deposit(amount: Bitcoin) | Withdraw(amount: Bitcoin)

  /** The balance after one call. */
  function Apply(balance: Bitcoin, op: Op): Bitcoin {
    match op
    case Deposit(a) => balance + a
    case Withdraw(a) => if balance >= a then balance - a else balance
  }

  /** The balance after a sequence of calls, first call first. */
  function Replay(balance: Bitcoin, ops: seq<Op>): Bitcoin
    decreases |ops|
  {
    if |ops| == 0 then balance else Replay(Apply(balance, ops[0]), ops[1..])
  }

  /** With non-negative amounts a non-negative balance never goes below zero. */
  lemma {:induction false} ReplayKeepsNonNegative(balance: Bitcoin, ops: seq<Op>)
    requires balance >= 0
    requires forall i :: 0 <= i < |ops| ==> ops[i].amount >= 0
    decreases |ops|
    ensures Replay(balance, ops) >= 0
  {
    if |ops| > 0 {
      ReplayKeepsNonNegative(Apply(balance, ops[0]), ops[1..]);
    }
  }

  class Wallet {
    var balance: Bitcoin

    constructor (initial: Bitcoin)
      ensures balance == initial
    {
      balance := initial;
    }

    /** `Balance`: reads the balance. */
    method Balance() returns (b: Bitcoin)
      ensures b == balance
    {
      return balance;
    }

    /** `Deposit`: adds the amount. */
    method Deposit(amount: Bitcoin)
      modifies this
      ensures balance == old(balance) + amount
      ensures balance == Apply(old(balance), Op.Deposit(amount))
    {
      balance := balance + amount;
    }

    /** `Withdraw`: takes the amount out when the balance covers it, else refuses and changes nothing. */
    method Withdraw(amount: Bitcoin) returns (err: Option<WalletError>)
      modifies this
      ensures old(balance) >= amount ==> err == None && balance == old(balance) - amount
      ensures old(balance) < amount ==> err == Some(ErrInsufficientFunds) && balance == old(balance)
      ensures balance == Apply(old(balance), Op.Withdraw(amount))
    {
      if balance >= amount {
        balance := balance - amount;
        return None;
      } else {
        return Some(ErrInsufficientFunds);
      }
    }
  }

  /** The three cases of the wallet's tests. */
  method WalletScenarios() returns (deposited: Bitcoin, withdrawn: Bitcoin, refused: Bitcoin, err: Option<WalletError>)
    ensures deposited == 10 && withdrawn == 10 && refused == 20
    ensures err == Some(ErrInsufficientFunds) && err.value.Error() == "balance is not enough"
  {
    var w1 := new Wallet(0);
    w1.Deposit(10);
    deposited := w1.Balance();
    var w2 := new Wallet(20);
    var _ := w2.Withdraw(10);
    withdrawn := w2.Balance();
    var w3 := new Wallet(20);
    err := w3.Withdraw(100);
    refused := w3.Balance();
  }
}
