/**
 * What the code generated by `brainfuck_operation!` does: each token becomes
 * one instruction call on the state, and a bracketed group becomes
 * `while *state.get_mut() != 0 { body }`. `Op` is that generated code with
 * loops as nested nodes; `Run` executes it.
 *
 * A generated `while` loop need not terminate, so `Run` carries a budget of
 * loop iterations (`fuel`): each iteration of a loop costs one unit from the
 * budget its loop was entered with, and a loop that would need one more
 * iteration than it can pay for ends the run with `OutOfFuel`.
 */
module Semantics {
  import M = Machine

  /** The instruction methods of `BrainfuckState` that a token calls. */
  datatype Call = Plus | Minus | Right | Left | Print | Input

  /** One generated call, or one generated `while` loop over its body. */
  datatype Op = Call(call: Call) | Loop(body: seq<Op>)

  /** Output is append-only: what was printed stays printed. */
  ghost predicate OutputKept(s: M.State, t: M.State)
  {
    s.stdout <= t.stdout
  }

  /** The effect of one instruction call. */
  function Step(c: Call, s: M.State): (r: M.Outcome)
    ensures OutputKept(s, r.state)
  {
    match c
    case Plus => M.Plus(s)
    case Minus => M.Minus(s)
    case Right => M.Right(s)
    case Left => M.Left(s)
    case Print => M.Print(s)
    case Input => M.Input(s)
  }

  /** The statements of a sequence run left to right until one does not return. */
  function Run(ops: seq<Op>, s: M.State, fuel: nat): (r: M.Outcome)
    ensures OutputKept(s, r.state)
    decreases fuel, ops
  {
    if ops == [] then M.Outcome(M.Done, s)
    else
      var o := Exec(ops[0], s, fuel);
      if o.status == M.Done then Run(ops[1..], o.state, fuel) else o
  }

  /** One statement: a call, or a whole loop. */
  function Exec(op: Op, s: M.State, fuel: nat): (r: M.Outcome)
    ensures OutputKept(s, r.state)
    decreases fuel, op
  {
    match op
    case Call(c) => Step(c, s)
    case Loop(body) => RunLoop(body, s, fuel)
  }

  /** `while *state.get_mut() != 0 { body }`, the test panicking out of bounds. */
  function RunLoop(body: seq<Op>, s: M.State, fuel: nat): (r: M.Outcome)
    ensures OutputKept(s, r.state)
    decreases fuel, body
  {
    match M.GetMut(s)
    case Failure(e) => M.Outcome(M.Panicked(e), s)
    case Success(pos) =>
      if s.memory[pos] == 0 then M.Outcome(M.Done, s)
      else if fuel == 0 then M.Outcome(M.OutOfFuel, s)
      else
        var o := Run(body, s, fuel - 1);
        if o.status == M.Done then RunLoop(body, o.state, fuel - 1) else o
  }

  /** Continue with `rest` after `o` when `o` returned normally. */
  function Then(o: M.Outcome, rest: seq<Op>, fuel: nat): M.Outcome
  {
    if o.status == M.Done then Run(rest, o.state, fuel) else o
  }

  /** A one-call sequence has the effect of that call. */
  lemma RunCall(c: Call, s: M.State, fuel: nat)
    ensures Run([Call(c)], s, fuel) == Step(c, s)
  {
  }

  /** A one-loop sequence has the effect of that loop. */
  lemma RunSingleLoop(body: seq<Op>, s: M.State, fuel: nat)
    ensures Run([Loop(body)], s, fuel) == RunLoop(body, s, fuel)
  {
  }

  /** Running `a + b` is running `a`, then `b` from where `a` ended. */
  lemma {:induction false} RunConcat(a: seq<Op>, b: seq<Op>, s: M.State, fuel: nat)
    ensures Run(a + b, s, fuel) == Then(Run(a, s, fuel), b, fuel)
    decreases a
  {
    if a == [] {
      assert a + b == b;
    } else {
      assert (a + b)[0] == a[0];
      assert (a + b)[1..] == a[1..] + b;
      var o := Exec(a[0], s, fuel);
      RunConcat(a[1..], b, o.state, fuel);
    }
  }

  /** A loop whose current cell is 0 on entry runs no body and changes nothing. */
  lemma LoopSkipped(body: seq<Op>, rest: seq<Op>, s: M.State, fuel: nat)
    requires s.index < M.MEMORY_SIZE && s.memory[s.index] == 0
    ensures Run([Loop(body)] + rest, s, fuel) == Run(rest, s, fuel)
  {
    assert ([Loop(body)] + rest)[0] == Loop(body);
    assert ([Loop(body)] + rest)[1..] == rest;
    assert Exec(Loop(body), s, fuel) == M.Outcome(M.Done, s);
  }

  /** A loop test outside the memory panics, whatever the cell values. */
  lemma LoopOutOfBounds(body: seq<Op>, s: M.State, fuel: nat)
    requires s.index >= M.MEMORY_SIZE
    ensures RunLoop(body, s, fuel) == M.Outcome(M.Panicked(M.IndexOutOfBounds), s)
  {
  }

  /** When a loop ends normally, the current cell exists and holds 0. */
  lemma {:induction false} LoopExitsOnZero(body: seq<Op>, s: M.State, fuel: nat)
    requires RunLoop(body, s, fuel).status == M.Done
    ensures var t := RunLoop(body, s, fuel).state;
      t.index < M.MEMORY_SIZE && t.memory[t.index] == 0
    decreases fuel
  {
    if s.index < M.MEMORY_SIZE && s.memory[s.index] != 0 {
      var o := Run(body, s, fuel - 1);
      LoopExitsOnZero(body, o.state, fuel - 1);
    }
  }

  /**
   * A larger budget does not change a run that finished (normally, by a
   * panic, or blocked on input) within a smaller one.
   */
  lemma {:induction false} RunMoreFuel(ops: seq<Op>, s: M.State, fuel: nat, more: nat)
    requires fuel <= more
    requires Run(ops, s, fuel).status != M.OutOfFuel
    ensures Run(ops, s, more) == Run(ops, s, fuel)
    decreases fuel, ops
  {
    if ops != [] {
      var o := Exec(ops[0], s, fuel);
      if ops[0].Loop? {
        RunLoopMoreFuel(ops[0].body, s, fuel, more);
      }
      if o.status == M.Done {
        RunMoreFuel(ops[1..], o.state, fuel, more);
      }
    }
  }

  /** The same for a single loop. */
  lemma {:induction false} RunLoopMoreFuel(body: seq<Op>, s: M.State, fuel: nat, more: nat)
    requires fuel <= more
    requires RunLoop(body, s, fuel).status != M.OutOfFuel
    ensures RunLoop(body, s, more) == RunLoop(body, s, fuel)
    decreases fuel, body
  {
    if s.index < M.MEMORY_SIZE && s.memory[s.index] != 0 {
      var o := Run(body, s, fuel - 1);
      RunMoreFuel(body, s, fuel - 1, more - 1);
      if o.status == M.Done {
        RunLoopMoreFuel(body, o.state, fuel - 1, more - 1);
      }
    }
  }
}
