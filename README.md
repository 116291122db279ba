# Fibonacci producer and wallet, modelled in Dafny

Two small sequential cores of a Go study repository.

**The Fibonacci producer** (`scripts/select/select.go`). The function `fibonacci` keeps a
pair `(x, y)` that starts at `(0, 1)`. Each turn of its endless loop, a `select` does one of
two things. It hands `x` to the consumer over channel `c` and moves to `(y, x + y)`. Or it
receives from channel `quit` and returns. The consumer goroutine in `main` takes ten values
and then sends `quit` once.

This model has no channels. The outcome of each `select` is an `Event` the caller supplies:
`Send` or `Quit`. The producer is the class `Fibonacci.Producer` with fields `x`, `y` and
`stopped`, plus a ghost count `sent` of values handed over. Its invariant `Valid()` says
`x == Fib(sent)` and `y == Fib(sent + 1)`. `Producer.Step` is one turn of the loop.
`Producer.Run` is the loop over a sequence of events. `Collect` is the consumer: `count`
receives, then one quit. `Program` is `main`: a fresh producer runs its loop against the
events the consumer causes. `Demo` is `main` with `count = 10`. The pure function `Outputs`
is the same loop read as a function of the events. The lemmas relate it to the Fibonacci
numbers `Fib` and `FibSeq`.

**The wallet** (`learn-go-with-tests/pointer/wallet_test.go`). The model follows what
`TestWallet` asserts. A `Wallet` holds one `money` field of type
`Bitcoin`. `Deposit` adds to it. `Withdraw` takes from it, or returns the sentinel
`ErrInsufficientFunds` and leaves the balance alone when the amount is larger than the
balance. `Balance` reads the field. Go's `error` is modelled as `WalletError`, which holds
the sentinel `ErrInsufficientFunds` and any other error, so being the sentinel is a
statement separate from being non-nil. `Wallets.Wallet` is a class whose methods change
`money`. The three subtests are the methods `DepositCase`, `WithdrawCase` and
`InsufficientFundsCase`.

Withdrawing exactly the balance is not settled by the test. `Withdraw`'s contract leaves
that case open: it promises success only below the balance and refusal only above it. The
body lets the boundary case succeed. That choice is an assumption of this model, not
known behaviour of the source.

## Model

| member | source | states |
|---|---|---|
| `Fibonacci.Producer.constructor` | scripts/select/select.go:6 | the producer starts at `(x, y) = (0, 1)`, running, with no value sent, and its invariant holds |
| `Fibonacci.Producer.Step` | scripts/select/select.go:11-19 | one turn does exactly one thing. A send delivers the old `x` and moves to `(old y, old x + old y)`. A quit stops the producer and changes nothing else. Once stopped, every event is ignored and the state stays the same. The invariant `x == Fib(sent)`, `y == Fib(sent + 1)` is kept |
| `Fibonacci.Producer.Run` | scripts/select/select.go:5-21 | the loop delivers, in order, exactly `Outputs(x, y, events)`. That is the Fibonacci numbers from index `sent`, one per send before the first quit. Afterwards the producer is stopped if and only if a quit occurred. A stopped producer delivers nothing |
| `Fibonacci.SendsBeforeQuit` | scripts/select/select.go:11-19 | the count `n` of accepted sends: every event before index `n` is `Send`, the event at `n` (if any) is `Quit`, and `n` covers all events exactly when no quit occurs |
| `Fibonacci.Outputs` | scripts/select/select.go:7-20 | the loop as a function of the events: one value per send before the first quit, and the first value is the current `x` |
| `Fibonacci.OutputsAreFib` | scripts/select/select.go:6-14 | from state `(Fib(k), Fib(k+1))`, the values delivered are `Fib(k), Fib(k+1), ...`, one per send before the first quit. So the k-th delivered value, counting from 0, is `Fib(k)` |
| `Fibonacci.QuitIsAbsorbing` | scripts/select/select.go:16-18 | after a quit, any further events change nothing that is delivered |
| `Fibonacci.OutputsDependOnlyOnSendCount` | scripts/select/select.go:8-11 | two event sequences with the same number of sends before the first quit deliver the same values, whatever the `select`'s choices were |
| `Fibonacci.FibMonotone` | scripts/select/select.go:14 | each new `y = x + y` is at least the old `y`, so `Fib` never decreases |
| `Fibonacci.DeliveredNonDecreasing` | scripts/select/select.go:6-14 | for any events, the values a fresh producer delivers are non-negative and in non-decreasing order |
| `Fibonacci.DeliveredRecurrence` | scripts/select/select.go:6-14 | for any events, the values a fresh producer delivers start `0, 1`, and each later one is the sum of the two before it |
| `Fibonacci.ConsumerEvents` | scripts/select/select.go:26-31 | the consumer causes exactly `count` sends and then one quit, which is its last event |
| `Fibonacci.Collect` | scripts/select/select.go:24-32 | the consumer receives exactly `count` values. They are the first `count` Fibonacci numbers, in order, and equal what the producer loop gives for `count` sends then one quit. The producer has stopped at the end |
| `Fibonacci.FirstTen` | scripts/select/select.go:27-30 | the first ten Fibonacci numbers are `[0,1,1,2,3,5,8,13,21,34]` |
| `Fibonacci.Program` | scripts/select/select.go:23-33 | a fresh producer's loop, run against `count` sends and one quit, delivers exactly the first `count` Fibonacci numbers, the same values the consumer receives, and has returned at the end |
| `Fibonacci.Demo` | scripts/select/select.go:23-33 | the program receives exactly `[0,1,1,2,3,5,8,13,21,34]`, and the producer's loop delivers the same list |
| `Wallets.Wallet.Zero` | learn-go-with-tests/pointer/wallet_test.go:28 | the zero-value wallet holds 0 |
| `Wallets.Wallet.constructor` | learn-go-with-tests/pointer/wallet_test.go:34 | a wallet literal holds the amount it is given |
| `Wallets.Wallet.Balance` | learn-go-with-tests/pointer/wallet_test.go:7-9 | returns the amount held and changes nothing (it has no modifies clause) |
| `Wallets.Wallet.Deposit` | learn-go-with-tests/pointer/wallet_test.go:27-31 | the balance rises by exactly the amount deposited |
| `Wallets.Wallet.Withdraw` | learn-go-with-tests/pointer/wallet_test.go:33-46 | below the balance it succeeds and lowers the balance by the amount. Above the balance it returns `ErrInsufficientFunds`, and no other error, and leaves the balance exactly as it was. Any error it returns is that sentinel. A success never takes more than the balance, so a non-negative balance stays non-negative |
| `Wallets.DepositCase` | learn-go-with-tests/pointer/wallet_test.go:27-31 | `Wallet{}` followed by `Deposit(10)` has balance 10 |
| `Wallets.WithdrawCase` | learn-go-with-tests/pointer/wallet_test.go:33-37 | a wallet of 20 after `Withdraw(10)` has balance 10, and the withdrawal succeeds |
| `Wallets.InsufficientFundsCase` | learn-go-with-tests/pointer/wallet_test.go:39-47 | `Withdraw(100)` on a wallet of 20 returns a non-nil error, that error is the sentinel `ErrInsufficientFunds` and not some other error, and the balance stays 20 |
| `Wallets.DepositThenWithdraw` | learn-go-with-tests/pointer/wallet_test.go:27-37 | on a positive balance, withdrawing what was just deposited succeeds and restores the starting balance |

## Left out

- Goroutines, channel rendezvous and the random choice `select` makes when both cases are ready (scripts/select/select.go:8-11, 24-26). The caller's event sequence stands in for them.
- Console output: `fmt.Println("quit")` and the printing of each received value (scripts/select/select.go:17, 28).
- Fibonacci.Producer.Step: any event after the producer has returned, a `Send` or a second `quit`, is treated as an ignored event. In Go either would block, because nobody serves `c` or `quit` any more. The program receives ten values and sends `quit` only once, so this never comes up there.
- Go's `int`, which is 32 or 64 bits wide depending on the platform. On 64-bit platforms it wraps after `Fib(92)`. The model uses unbounded integers, and `Bitcoin` is an unbounded integer too.
- Wallets.Wallet.Withdraw: says nothing about withdrawing exactly the balance. The test does not decide that case. The body lets it succeed, which is an assumption.
- `wallet.go`, which defines `Wallet`, `Deposit`, `Withdraw`, `Balance` and `ErrInsufficientFunds`, is not part of this model. Behaviour comes only from the test's assertions. The `error` message text and the `%s`/`%q` formatting are not modelled.
- Test-harness mechanics: `t.Helper`, `t.Errorf`, `t.Fatal`, `t.Run`.
- `learn-go-with-tests/struct/shapes.go`: `Area` and `Perimeter` are floating-point formulas using `math.Pi`.
