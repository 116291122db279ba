/**
 The Fibonacci producer of the `select` example, with its two channels taken out.

 The producer holds a pair (x, y) that starts at (0, 1). Each turn of its loop does
 exactly one of two things: it hands x to the consumer and moves to (y, x + y), or
 it sees the quit signal and returns. Which of the two happens is decided outside the
 producer (by the consumer and the scheduler), so here the caller supplies it as an
 `Event`: `Send` when the consumer takes a value, `Quit` when the quit signal arrives.
 */
module Fibonacci {

  /** The Fibonacci numbers, 0, 1, 1, 2, 3, 5, ... counted from index 0. */
  function Fib(n: nat): nat
  {
    if n < 2 then n else Fib(n - 1) + Fib(n - 2)
  }

  /** The n consecutive Fibonacci numbers that start at index k. */
  function FibSeq(k: nat, n: nat): (r: seq<int>)
    ensures |r| == n
    ensures forall i :: 0 <= i < n ==> r[i] == Fib(k + i)
  {
    seq(n, i requires 0 <= i < n => Fib(k + i))
  }

  /** What the `select` can see on one turn of the producer's loop. */
  datatype Event = Send | Quit

  /** What one turn of the loop did: handed a value over, returned on quit, or
      nothing at all because the producer had already returned. */
  datatype Action = Delivered(value: int) | Quitted | Ignored

  /** The number of values handed over before the first quit (all of them when no quit comes). */
  function SendsBeforeQuit(events: seq<Event>): (n: nat)
    ensures n <= |events|
    ensures forall i :: 0 <= i < n ==> events[i] == Send
    ensures n < |events| ==> events[n] == Quit
    ensures n == |events| <==> Quit !in events
  {
    if events == [] then 0
    else if events[0] == Quit then 0
    else
      var rest := SendsBeforeQuit(events[1..]);
      assert events[0] == Send;
      assert forall i :: 1 <= i < 1 + rest ==> events[i] == events[1..][i - 1];
      assert Quit in events <==> Quit in events[1..];
      1 + rest
  }

  /** The values the producer, in state (x, y), hands over while it meets `events`:
      the loop of `fibonacci` read as a function of the events. */
  function Outputs(x: int, y: int, events: seq<Event>): (r: seq<int>)
    ensures |r| == SendsBeforeQuit(events)
    ensures |r| > 0 ==> r[0] == x
    decreases |events|
  {
    if events == [] then []
    else if events[0] == Quit then []
    else [x] + Outputs(y, x + y, events[1..])
  }

  /** From a state that lies on the Fibonacci sequence, the values handed over are the
      next Fibonacci numbers, one per send before the first quit. */
  lemma {:induction false} OutputsAreFib(k: nat, events: seq<Event>)
    ensures Outputs(Fib(k), Fib(k + 1), events) == FibSeq(k, SendsBeforeQuit(events))
    decreases |events|
  {
    if events != [] && events[0] == Send {
      OutputsAreFib(k + 1, events[1..]);
      assert Fib(k) + Fib(k + 1) == Fib(k + 2);
      var rest := FibSeq(k + 1, SendsBeforeQuit(events[1..]));
      assert [Fib(k)] + rest == FibSeq(k, SendsBeforeQuit(events));
    }
  }

  /** The first quit, at index i, ends the sends: exactly i values are handed over. */
  lemma SendsBeforeFirstQuit(events: seq<Event>, i: nat)
    requires i < |events| && events[i] == Quit && Quit !in events[..i]
    ensures SendsBeforeQuit(events) == i
  {
  }

  /** Once a quit has been seen the producer is gone: whatever events follow change nothing. */
  lemma {:induction false} QuitIsAbsorbing(x: int, y: int, before: seq<Event>, after: seq<Event>)
    requires Quit in before
    ensures Outputs(x, y, before + after) == Outputs(x, y, before)
    decreases |before|
  {
    assert (before + after)[0] == before[0];
    if before[0] == Send {
      assert (before + after)[1..] == before[1..] + after;
      QuitIsAbsorbing(y, x + y, before[1..], after);
    }
  }

  /** How the sends and the quit interleave with anything else is invisible: two runs of a
      fresh producer that accept the same number of sends deliver the same values. */
  lemma OutputsDependOnlyOnSendCount(e1: seq<Event>, e2: seq<Event>)
    requires SendsBeforeQuit(e1) == SendsBeforeQuit(e2)
    ensures Outputs(0, 1, e1) == Outputs(0, 1, e2)
  {
    OutputsAreFib(0, e1);
    OutputsAreFib(0, e2);
  }

  /** Each Fibonacci number is at least the one before it. */
  lemma {:induction false} FibMonotone(i: nat, j: nat)
    requires i <= j
    ensures Fib(i) <= Fib(j)
    decreases j - i
  {
    if i < j {
      FibMonotone(i, j - 1);
      assert Fib(j - 1) <= Fib(j) by {
        if j >= 2 {
          assert Fib(j) == Fib(j - 1) + Fib(j - 2);
        }
      }
    }
  }

  /** The values a fresh producer delivers are non-negative and in non-decreasing order. */
  lemma DeliveredNonDecreasing(events: seq<Event>)
    ensures forall i :: 0 <= i < |Outputs(0, 1, events)| ==> Outputs(0, 1, events)[i] >= 0
    ensures forall i, j :: 0 <= i <= j < |Outputs(0, 1, events)| ==>
      Outputs(0, 1, events)[i] <= Outputs(0, 1, events)[j]
  {
    OutputsAreFib(0, events);
    forall i, j | 0 <= i <= j < |Outputs(0, 1, events)|
      ensures Outputs(0, 1, events)[i] <= Outputs(0, 1, events)[j]
    {
      FibMonotone(i, j);
    }
  }

  /** The values a fresh producer delivers follow the recurrence: they start 0, 1 and each
      later one is the sum of the two before it. */
  lemma DeliveredRecurrence(events: seq<Event>)
    ensures |Outputs(0, 1, events)| > 0 ==> Outputs(0, 1, events)[0] == 0
    ensures |Outputs(0, 1, events)| > 1 ==> Outputs(0, 1, events)[1] == 1
    ensures forall i :: 2 <= i < |Outputs(0, 1, events)| ==>
      Outputs(0, 1, events)[i] == Outputs(0, 1, events)[i - 1] + Outputs(0, 1, events)[i - 2]
  {
    OutputsAreFib(0, events);
  }

  /** The first ten Fibonacci numbers, which the example program receives. */
  lemma FirstTen()
    ensures FibSeq(0, 10) == [0, 1, 1, 2, 3, 5, 8, 13, 21, 34]
  {
    assert Fib(2) == 1;
    assert Fib(3) == 2;
    assert Fib(4) == 3;
    assert Fib(5) == 5;
    assert Fib(6) == 8;
    assert Fib(7) == 13;
    assert Fib(8) == 21;
    assert Fib(9) == 34;
  }

  /** The events the example's consumer causes: `count` receives, then one quit. */
  function ConsumerEvents(count: nat): (r: seq<Event>)
    ensures |r| == count + 1
    ensures SendsBeforeQuit(r) == count
    ensures Quit !in r[..count] && r[count] == Quit
  {
    var sends := seq(count, _ => Send);
    assert sends + [Quit] == [] + sends + [Quit];
    sends + [Quit]
  }

  /** The producer goroutine: its state (x, y) and whether it has returned. The ghost
      field `sent` counts the values handed over so far. */
  class Producer {
    var x: int
    var y: int
    var stopped: bool
    ghost var sent: nat

    /** The state always lies on the Fibonacci sequence: after k sends, x is Fib(k) and y is Fib(k + 1). */
    ghost predicate Valid()
      reads this
    {
      x == Fib(sent) && y == Fib(sent + 1)
    }

    /** The state `fibonacci` starts in: (x, y) = (0, 1), running. */
    constructor ()
      ensures Valid()
      ensures x == 0 && y == 1 && !stopped && sent == 0
    {
      x, y := 0, 1;
      stopped := false;
      sent := 0;
    }

    /** One turn of the loop: the `select` takes the event it is given. A send hands over x
        and moves to (y, x + y); a quit makes the producer return; after that nothing happens. */
    method Step(e: Event) returns (a: Action)
      requires Valid()
      modifies this
      ensures Valid()
      ensures old(stopped) ==> a == Ignored && stopped && x == old(x) && y == old(y) && sent == old(sent)
      ensures !old(stopped) && e == Send ==>
        a == Delivered(old(x)) && !stopped && x == old(y) && y == old(x) + old(y) && sent == old(sent) + 1
      ensures !old(stopped) && e == Quit ==>
        a == Quitted && stopped && x == old(x) && y == old(y) && sent == old(sent)
    {
      if stopped {
        a := Ignored;
      } else {
        match e
        case Send =>
          a := Delivered(x);
          x, y := y, x + y;
          sent := sent + 1;
        case Quit =>
          a := Quitted;
          stopped := true;
      }
    }

    /** The loop of `fibonacci`: it meets the events one by one and returns on the first
        quit; `out` collects the values handed over, in order. */
    method Run(events: seq<Event>) returns (out: seq<int>)
      requires Valid()
      modifies this
      ensures Valid()
      ensures old(stopped) ==> out == [] && stopped && x == old(x) && y == old(y) && sent == old(sent)
      ensures !old(stopped) ==> out == Outputs(old(x), old(y), events)
      ensures !old(stopped) ==> out == FibSeq(old(sent), SendsBeforeQuit(events))
      ensures !old(stopped) ==> stopped == (Quit in events)
      ensures sent == old(sent) + |out|
    {
      out := [];
      var i := 0;
      ghost var live, s0 := !stopped, sent;
      while i < |events| && !stopped
        invariant 0 <= i <= |events|
        invariant Valid()
        invariant sent == s0 + |out|
        invariant !live ==> i == 0 && out == [] && stopped && x == old(x) && y == old(y)
        invariant live && !stopped ==> Quit !in events[..i] && out == FibSeq(s0, i)
        invariant live && stopped ==> Quit in events && out == FibSeq(s0, SendsBeforeQuit(events))
        decreases |events| - i
      {
        assert events[..i + 1] == events[..i] + [events[i]];
        var a := Step(events[i]);
        if a.Delivered? {
          out := out + [a.value];
          assert out == FibSeq(s0, i + 1);
        } else {
          SendsBeforeFirstQuit(events, i);
        }
        i := i + 1;
      }
      if live {
        if !stopped {
          assert events[..i] == events;
        }
        OutputsAreFib(s0, events);
      }
    }
  }

  /** The consumer of `main`: it receives `count` values one by one and then sends quit
      once. `stopped` reports that the producer has returned. */
  method Collect(count: nat) returns (out: seq<int>, stopped: bool)
    ensures out == FibSeq(0, count)
    ensures out == Outputs(0, 1, ConsumerEvents(count))
    ensures stopped
  {
    var p := new Producer();
    out := [];
    for i := 0 to count
      invariant p.Valid() && !p.stopped && p.sent == i
      invariant out == FibSeq(0, i)
    {
      var a := p.Step(Send);
      out := out + [a.value];
    }
    var q := p.Step(Quit);
    stopped := p.stopped;
    OutputsAreFib(0, ConsumerEvents(count));
  }

  /** `main` as a whole: a fresh producer runs its loop against the events the consumer
      causes. The loop delivers exactly what the consumer receives, and then has returned. */
  method Program(count: nat) returns (out: seq<int>, stopped: bool)
    ensures out == FibSeq(0, count)
    ensures out == Outputs(0, 1, ConsumerEvents(count))
    ensures stopped
  {
    var p := new Producer();
    out := p.Run(ConsumerEvents(count));
    stopped := p.stopped;
  }

  /** The example program: ten values, then quit. Seen from the consumer and from the
      producer's loop, the values are the same. */
  method Demo() returns (received: seq<int>, delivered: seq<int>)
    ensures received == [0, 1, 1, 2, 3, 5, 8, 13, 21, 34]
    ensures delivered == received
  {
    var stopped;
    received, stopped := Collect(10);
    delivered, stopped := Program(10);
    FirstTen();
  }
}
