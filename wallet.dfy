/**
 The wallet of the `pointer` lesson, as its test fixes it.

 A wallet holds one amount of bitcoin. Deposit adds to it, Withdraw takes from it, and
 a withdrawal larger than the balance is refused with the sentinel error
 ErrInsufficientFunds, leaving the balance as it was. Balance only reads it.
 */
module Wallets {

  /** An amount of bitcoin: a whole number. */
  type Bitcoin = int

  /** A Go `error` value: the sentinel ErrInsufficientFunds, or any other error. */
  datatype WalletError = ErrInsufficientFunds | OtherError(msg: string)

  /** The `error` result of Withdraw: nil, or an error value. */
  datatype Outcome = Pass | Fail(error: WalletError)

  class Wallet {
    var money: Bitcoin

    /** The zero value `Wallet{}`. */
    constructor Zero()
      ensures money == 0
    {
      money := 0;
    }

    /** The literal `Wallet{money: m}`. */
    constructor (m: Bitcoin)
      ensures money == m
    {
      money := m;
    }

    /** What Balance() reads: the amount held. It changes nothing. */
    method Balance() returns (b: Bitcoin)
      ensures b == money
    {
      b := money;
    }

    /** Adds `amount` to the balance. */
    method Deposit(amount: Bitcoin)
      modifies this
      ensures money == old(money) + amount
    {
      money := money + amount;
    }

    /** Takes `amount` from the balance, or refuses with ErrInsufficientFunds when the
        amount exceeds the balance. A refused withdrawal leaves the balance as it was;
        an accepted one never takes more than the balance held. The contract says
        nothing about withdrawing exactly the balance; the body lets it succeed. */
    method Withdraw(amount: Bitcoin) returns (err: Outcome)
      modifies this
      ensures amount < old(money) ==> err == Pass
      ensures amount > old(money) ==> err == Fail(ErrInsufficientFunds)
      ensures err.Fail? ==> err.error == ErrInsufficientFunds && money == old(money)
      ensures err == Pass ==> amount <= old(money) && money == old(money) - amount
      ensures old(money) >= 0 ==> money >= 0
    {
      if amount > money {
        err := Fail(ErrInsufficientFunds);
      } else {
        money := money - amount;
        err := Pass;
      }
    }
  }

  /** The "Deposit" case of the test: a zero wallet that receives 10 holds 10. */
  method DepositCase() returns (balance: Bitcoin)
    ensures balance == 10
  {
    var wallet := new Wallet.Zero();
    wallet.Deposit(10);
    balance := wallet.Balance();
  }

  /** The "Withdraw" case of the test: a wallet of 20 that gives out 10 holds 10. */
  method WithdrawCase() returns (balance: Bitcoin, err: Outcome)
    ensures balance == 10 && err == Pass
  {
    var wallet := new Wallet(20);
    err := wallet.Withdraw(10);
    balance := wallet.Balance();
  }

  /** The "Withdraw insufficient funds" case of the test: asking a wallet of 20 for 100 is
      refused with ErrInsufficientFunds and the balance stays at 20. */
  method InsufficientFundsCase() returns (balance: Bitcoin, err: Outcome)
    ensures err.Fail?
    ensures err.error == ErrInsufficientFunds
    ensures balance == 20
  {
    var startingBalance := 20;
    var wallet := new Wallet(startingBalance);
    err := wallet.Withdraw(100);
    balance := wallet.Balance();
  }

  /** Withdraw undoes Deposit: on a wallet holding a positive balance, depositing an amount
      and withdrawing it again succeeds and gives back the balance started with. */
  method DepositThenWithdraw(start: Bitcoin, amount: Bitcoin) returns (balance: Bitcoin, err: Outcome)
    requires start > 0
    ensures err == Pass && balance == start
  {
    var wallet := new Wallet(start);
    wallet.Deposit(amount);
    err := wallet.Withdraw(amount);
    balance := wallet.Balance();
  }
}
