/** A loop that takes turns from a list until one of them leaves it, noting and
    sending as it goes. */
module Loops {
  datatype Machine<!A, !T, !E> = Machine(start: A, next: (A, T) -> A, emits: (A, T) -> seq<E>, stops: (A, T) -> bool)

  datatype Outcome<A, T, E> = Outcome(state: A, events: seq<E>, stop: nat)

  /** What is noted after the first `n` turns. */
  function StateOf<A, T, E>(m: Machine<A, T, E>, turns: seq<T>, n: nat): A
    requires n <= |turns|
    decreases n
  {
    if n == 0 then m.start else m.next(StateOf(m, turns, n - 1), turns[n - 1])
  }

  /** What the first `n` turns send. */
  function EventsOf<A, T, E>(m: Machine<A, T, E>, turns: seq<T>, n: nat): seq<E>
    requires n <= |turns|
    decreases n
  {
    if n == 0 then [] else EventsOf(m, turns, n - 1) + m.emits(StateOf(m, turns, n - 1), turns[n - 1])
  }

  /** Index of the first turn, from `from` on, that leaves the loop. */
  function StopAt<A, T, E>(m: Machine<A, T, E>, turns: seq<T>, from: nat := 0): (k: nat)
    requires from <= |turns|
    ensures from <= k <= |turns|
    decreases |turns| - from
  {
    if from == |turns| || m.stops(StateOf(m, turns, from), turns[from]) then from else StopAt(m, turns, from + 1)
  }

  lemma {:induction false} StopIsFirst<A, T, E>(m: Machine<A, T, E>, turns: seq<T>, from: nat, i: nat)
    requires from <= i < |turns|
    ensures i < StopAt(m, turns, from) ==> !m.stops(StateOf(m, turns, i), turns[i])
    ensures i == StopAt(m, turns, from) ==> m.stops(StateOf(m, turns, i), turns[i])
    decreases |turns| - from
  {
    if from < i && !m.stops(StateOf(m, turns, from), turns[from]) {
      StopIsFirst(m, turns, from + 1, i);
    }
  }

  /** The loop itself, from turn `i` on. */
  function Run<A, T, E>(m: Machine<A, T, E>, turns: seq<T>, i: nat, state: A, events: seq<E>): Outcome<A, T, E>
    requires i <= |turns|
    decreases |turns| - i
  {
    if i == |turns| || m.stops(state, turns[i]) then Outcome(state, events, i)
    else Run(m, turns, i + 1, m.next(state, turns[i]), events + m.emits(state, turns[i]))
  }

  /** The loop ends at the first turn that leaves it, having noted and sent what
      the turns before amount to. */
  lemma {:induction false} RunStops<A, T, E>(m: Machine<A, T, E>, turns: seq<T>, i: nat)
    requires i <= |turns|
    ensures var stop := StopAt(m, turns, i);
            Run(m, turns, i, StateOf(m, turns, i), EventsOf(m, turns, i))
            == Outcome(StateOf(m, turns, stop), EventsOf(m, turns, stop), stop)
    decreases |turns| - i
  {
    if i < |turns| && !m.stops(StateOf(m, turns, i), turns[i]) {
      RunStops(m, turns, i + 1);
    }
  }

  /** What has been sent stays sent. */
  lemma {:induction false} RunGrows<A, T, E>(m: Machine<A, T, E>, turns: seq<T>, i: nat, state: A, events: seq<E>)
    returns (rest: seq<E>)
    requires i <= |turns|
    ensures Run(m, turns, i, state, events).events == events + rest
    decreases |turns| - i
  {
    if i == |turns| || m.stops(state, turns[i]) {
      rest := [];
    } else {
      var now := m.emits(state, turns[i]);
      var more := RunGrows(m, turns, i + 1, m.next(state, turns[i]), events + now);
      rest := now + more;
      assert events + now + more == events + rest;
    }
  }
}
