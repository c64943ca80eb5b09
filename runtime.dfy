/**
 * `BrainfuckState` as the object the generated code mutates in place, and
 * the generated code itself as methods that drive it.
 *
 * Every method is proved against its value-level counterpart in `Machine`
 * or `Semantics`: the status it returns and the state it leaves are those
 * of the function applied to the state before the call.
 */
module Runtime {
  import M = Machine
  import S = Semantics
  import Macros

  class BrainfuckState {
    var index: M.u32
    var memory: array<M.u8>
    /** What successive `input` calls will store. */
    var stdin: seq<M.u8>
    /** What `print` has written. */
    var stdout: seq<M.u8>

    ghost predicate Valid()
      reads this
    {
      memory.Length == M.MEMORY_SIZE
    }

    /** The state as a value. */
    function Abs(): M.State
      reads this, memory
      requires Valid()
    {
      M.State(index, memory[..], stdin, stdout)
    }

    /** `BrainfuckState::default()`. */
    constructor Default(stdin: seq<M.u8>)
      ensures Valid() && fresh(memory)
      ensures Abs() == M.Default(stdin)
    {
      index := 0;
      memory := new M.u8[M.MEMORY_SIZE](_ => 0);
      this.stdin := stdin;
      stdout := [];
      new;
      assert memory[..] == M.Default(stdin).memory;
    }

    /** `get_mut`: the position of the current cell, if there is one. */
    method GetMut() returns (r: M.Result<nat>)
      requires Valid()
      ensures r == M.GetMut(Abs())
      ensures r.Success? ==> r.value < memory.Length
    {
      if index as nat < memory.Length {
        r := M.Success(index as nat);
      } else {
        r := M.Failure(M.IndexOutOfBounds);
      }
    }

    method Plus() returns (status: M.Status)
      requires Valid()
      modifies memory
      ensures Valid()
      ensures M.Outcome(status, Abs()) == M.Plus(old(Abs()))
    {
      var cell := GetMut();
      if cell.Failure? {
        return M.Panicked(cell.error);
      }
      var num := memory[cell.value];
      if num == M.CELL_MAX {
        return M.Panicked(M.ValueOverflow);
      }
      memory[cell.value] := num + 1;
      status := M.Done;
    }

    method Minus() returns (status: M.Status)
      requires Valid()
      modifies memory
      ensures Valid()
      ensures M.Outcome(status, Abs()) == M.Minus(old(Abs()))
    {
      var cell := GetMut();
      if cell.Failure? {
        return M.Panicked(cell.error);
      }
      var num := memory[cell.value];
      if num == 0 {
        return M.Panicked(M.ValueUnderflow);
      }
      memory[cell.value] := num - 1;
      status := M.Done;
    }

    method Right() returns (status: M.Status)
      requires Valid()
      modifies this
      ensures Valid() && memory == old(memory)
      ensures M.Outcome(status, Abs()) == M.Right(old(Abs()))
    {
      if index == M.INDEX_MAX {
        return M.Panicked(M.IndexOverflow);
      }
      index := index + 1;
      status := M.Done;
    }

    method Left() returns (status: M.Status)
      requires Valid()
      modifies this
      ensures Valid() && memory == old(memory)
      ensures M.Outcome(status, Abs()) == M.Left(old(Abs()))
    {
      if index == 0 {
        return M.Panicked(M.IndexUnderflow);
      }
      index := index - 1;
      status := M.Done;
    }

    method Print() returns (status: M.Status)
      requires Valid()
      modifies this
      ensures Valid() && memory == old(memory)
      ensures M.Outcome(status, Abs()) == M.Print(old(Abs()))
    {
      var cell := GetMut();
      if cell.Failure? {
        return M.Panicked(cell.error);
      }
      stdout := stdout + [memory[cell.value]];
      status := M.Done;
    }

    /** `input`: read the value, then look up the cell it goes to. */
    method Input() returns (status: M.Status)
      requires Valid()
      modifies this, memory
      ensures Valid() && memory == old(memory)
      ensures M.Outcome(status, Abs()) == M.Input(old(Abs()))
    {
      if stdin == [] {
        return M.Blocked;
      }
      var num := stdin[0];
      stdin := stdin[1..];
      var cell := GetMut();
      if cell.Failure? {
        return M.Panicked(cell.error);
      }
      memory[cell.value] := num;
      status := M.Done;
    }
  }

  /** The method call one token generates. */
  method ExecuteCall(st: BrainfuckState, c: S.Call) returns (status: M.Status)
    requires st.Valid()
    modifies st, st.memory
    ensures st.Valid() && st.memory == old(st.memory)
    ensures M.Outcome(status, st.Abs()) == S.Step(c, old(st.Abs()))
  {
    match c
    case Plus => status := st.Plus();
    case Minus => status := st.Minus();
    case Right => status := st.Right();
    case Left => status := st.Left();
    case Print => status := st.Print();
    case Input => status := st.Input();
  }

  /** The generated code for a sequence of operations, run on `st`. */
  method Execute(st: BrainfuckState, ops: seq<S.Op>, fuel: nat) returns (status: M.Status)
    requires st.Valid()
    modifies st, st.memory
    ensures st.Valid() && st.memory == old(st.memory)
    ensures M.Outcome(status, st.Abs()) == S.Run(ops, old(st.Abs()), fuel)
    decreases fuel, ops
  {
    ghost var s0 := st.Abs();
    status := M.Done;
    var i := 0;
    while i < |ops| && status == M.Done
      invariant 0 <= i <= |ops|
      invariant st.Valid() && st.memory == old(st.memory)
      invariant S.Run(ops, s0, fuel)
             == if status == M.Done then S.Run(ops[i..], st.Abs(), fuel) else M.Outcome(status, st.Abs())
      decreases |ops| - i
    {
      ghost var before := st.Abs();
      assert ops[i..][0] == ops[i] && ops[i..][1..] == ops[i + 1..];
      match ops[i] {
        case Call(c) =>
          status := ExecuteCall(st, c);
        case Loop(body) =>
          status := ExecuteLoop(st, body, fuel);
      }
      assert M.Outcome(status, st.Abs()) == S.Exec(ops[i], before, fuel);
      i := i + 1;
    }
    if status == M.Done {
      assert ops[i..] == [];
    }
  }

  /** The generated `while *state.get_mut() != 0 { body }`. */
  method ExecuteLoop(st: BrainfuckState, body: seq<S.Op>, fuel: nat) returns (status: M.Status)
    requires st.Valid()
    modifies st, st.memory
    ensures st.Valid() && st.memory == old(st.memory)
    ensures M.Outcome(status, st.Abs()) == S.RunLoop(body, old(st.Abs()), fuel)
    decreases fuel, body
  {
    var f := fuel;
    while true
      invariant st.Valid() && st.memory == old(st.memory)
      invariant S.RunLoop(body, old(st.Abs()), fuel) == S.RunLoop(body, st.Abs(), f)
      decreases f
    {
      var cell := st.GetMut();
      if cell.Failure? {
        return M.Panicked(cell.error);
      }
      if st.memory[cell.value] == 0 {
        return M.Done;
      }
      if f == 0 {
        return M.OutOfFuel;
      }
      f := f - 1;
      status := Execute(st, body, f);
      if status != M.Done {
        return;
      }
    }
  }

  /** `brainfuck_with_state!`: expand the program and run it on `st`. */
  method BrainfuckWithState(st: BrainfuckState, program: seq<Macros.Token>, fuel: nat) returns (status: M.Status)
    requires st.Valid()
    modifies st, st.memory
    ensures st.Valid() && st.memory == old(st.memory)
    ensures M.Outcome(status, st.Abs()) == S.Run(Macros.Expand(program), old(st.Abs()), fuel)
  {
    status := Execute(st, Macros.Expand(program), fuel);
  }

  /** `brainfuck!`: run the program on a fresh default state. */
  method Brainfuck(program: seq<Macros.Token>, stdin: seq<M.u8>, fuel: nat) returns (st: BrainfuckState, status: M.Status)
    ensures fresh(st) && st.Valid()
    ensures M.Outcome(status, st.Abs()) == S.Run(Macros.Expand(program), M.Default(stdin), fuel)
  {
    st := new BrainfuckState.Default(stdin);
    status := BrainfuckWithState(st, program, fuel);
  }
}
