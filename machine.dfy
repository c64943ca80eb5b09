/**
 * The tape machine `BrainfuckState` as values: a fixed-size memory of byte
 * cells, a 32-bit index into it, and the two byte streams the machine talks
 * to (what `input` will be given, what `print` has written).
 *
 * Every instruction method of `BrainfuckState` either updates the state or
 * panics through `expect`. Here each one is a function from a state to an
 * `Outcome`: the status of the call and the state it leaves behind. A panic
 * leaves the state exactly as it was when the failing check ran.
 */
module Machine {

  /** Number of cells in the memory (`BrainfuckState::MEMORY_SIZE`). */
  const MEMORY_SIZE: nat := 30_000

  /** Largest value of a cell (`u8::MAX`). */
  const CELL_MAX: nat := 0xFF

  /** Largest value of the index (`u32::MAX`). */
  const INDEX_MAX: nat := 0xFFFF_FFFF

  type u8 = x: int | 0 <= x <= 0xFF
  type u32 = x: int | 0 <= x <= 0xFFFF_FFFF

  /** The memory is an array of exactly `MEMORY_SIZE` bytes. */
  type Memory = m: seq<u8> | |m| == MEMORY_SIZE witness seq(MEMORY_SIZE, _ => 0)

  /** The five `expect` messages of `BrainfuckState`, one per failing check. */
  datatype Error =
    | ValueOverflow     // `checked_add` on the current cell
    | ValueUnderflow    // `checked_sub` on the current cell
    | IndexOverflow     // `checked_add` on the index
    | IndexUnderflow    // `checked_sub` on the index
    | IndexOutOfBounds  // `memory.get_mut(index)` found no cell

  /**
   * How a call ended: it returned (`Done`), it panicked, it waits forever for
   * a line on standard input (`Blocked`), or an interpreter ran out of its
   * loop budget before the program finished (`OutOfFuel`).
   */
  datatype Status = Done | Panicked(error: Error) | Blocked | OutOfFuel

  datatype Result<T> = Success(value: T) | Failure(error: Error)

  /**
   * `index` and `memory` are the fields of `BrainfuckState`; `stdin` is the
   * sequence of bytes that successive `input` calls will store, `stdout` the
   * bytes `print` has written so far.
   */
  datatype State = State(index: u32, memory: Memory, stdin: seq<u8>, stdout: seq<u8>)

  datatype Outcome = Outcome(status: Status, state: State)

  /** `t` is `s` with the current cell, and nothing else, set to `v`. */
  ghost predicate OnlyCellChanged(s: State, t: State, v: u8)
    requires s.index < MEMORY_SIZE
  {
    && t.index == s.index
    && t.memory[s.index] == v
    && (forall j :: 0 <= j < MEMORY_SIZE && j != s.index ==> t.memory[j] == s.memory[j])
    && t.stdin == s.stdin
    && t.stdout == s.stdout
  }

  /** `BrainfuckState::default()`: index 0 and every cell 0. */
  function Default(stdin: seq<u8>): (s: State)
    ensures s.index == 0 && |s.memory| == MEMORY_SIZE
    ensures forall j :: 0 <= j < MEMORY_SIZE ==> s.memory[j] == 0
    ensures s.stdin == stdin && s.stdout == []
  {
    State(0, seq(MEMORY_SIZE, _ => 0), stdin, [])
  }

  /**
   * `get_mut`: the position of the current cell, or the out-of-bounds panic.
   * The `u32` index widens to `usize` without loss.
   */
  function GetMut(s: State): (r: Result<nat>)
    ensures r.Success? <==> s.index < MEMORY_SIZE
    ensures r.Success? ==> r.value == s.index
    ensures r.Failure? ==> r.error == IndexOutOfBounds
  {
    if s.index < |s.memory| then Success(s.index) else Failure(IndexOutOfBounds)
  }

  function SetCell(s: State, pos: nat, v: u8): State
    requires pos < MEMORY_SIZE
  {
    s.(memory := s.memory[pos := v])
  }

  /** `plus`: the current cell goes up by one, checked. */
  function Plus(s: State): (r: Outcome)
    ensures r.status == Done <==> s.index < MEMORY_SIZE && s.memory[s.index] < CELL_MAX
    ensures r.status == Panicked(IndexOutOfBounds) <==> s.index >= MEMORY_SIZE
    ensures r.status == Panicked(ValueOverflow) <==> s.index < MEMORY_SIZE && s.memory[s.index] == CELL_MAX
    ensures r.status != Done ==> r.state == s
    ensures r.status == Done ==> OnlyCellChanged(s, r.state, s.memory[s.index] + 1)
  {
    match GetMut(s)
    case Failure(e) => Outcome(Panicked(e), s)
    case Success(pos) =>
      var num: int := s.memory[pos];
      if num + 1 > CELL_MAX then Outcome(Panicked(ValueOverflow), s)
      else Outcome(Done, SetCell(s, pos, num + 1))
  }

  /** `minus`: the current cell goes down by one, checked. */
  function Minus(s: State): (r: Outcome)
    ensures r.status == Done <==> s.index < MEMORY_SIZE && s.memory[s.index] > 0
    ensures r.status == Panicked(IndexOutOfBounds) <==> s.index >= MEMORY_SIZE
    ensures r.status == Panicked(ValueUnderflow) <==> s.index < MEMORY_SIZE && s.memory[s.index] == 0
    ensures r.status != Done ==> r.state == s
    ensures r.status == Done ==> OnlyCellChanged(s, r.state, s.memory[s.index] - 1)
  {
    match GetMut(s)
    case Failure(e) => Outcome(Panicked(e), s)
    case Success(pos) =>
      var num: int := s.memory[pos];
      if num - 1 < 0 then Outcome(Panicked(ValueUnderflow), s)
      else Outcome(Done, SetCell(s, pos, num - 1))
  }

  /**
   * `right`: the index goes up by one, checked against `u32::MAX` only. No
   * cell is touched, so the index may leave the memory here.
   */
  function Right(s: State): (r: Outcome)
    ensures r.status == Done <==> s.index < INDEX_MAX
    ensures r.status != Done ==> r.status == Panicked(IndexOverflow) && r.state == s
    ensures r.status == Done ==> r.state.index == s.index + 1
    ensures r.state.memory == s.memory && r.state.stdin == s.stdin && r.state.stdout == s.stdout
  {
    if s.index + 1 > INDEX_MAX then Outcome(Panicked(IndexOverflow), s)
    else Outcome(Done, s.(index := s.index + 1))
  }

  /** `left`: the index goes down by one, checked against 0. */
  function Left(s: State): (r: Outcome)
    ensures r.status == Done <==> s.index > 0
    ensures r.status != Done ==> r.status == Panicked(IndexUnderflow) && r.state == s
    ensures r.status == Done ==> r.state.index == s.index - 1
    ensures r.state.memory == s.memory && r.state.stdin == s.stdin && r.state.stdout == s.stdout
  {
    if s.index - 1 < 0 then Outcome(Panicked(IndexUnderflow), s)
    else Outcome(Done, s.(index := s.index - 1))
  }

  /** `print`: the current cell is written to standard output as one byte. */
  function Print(s: State): (r: Outcome)
    ensures r.status == Done <==> s.index < MEMORY_SIZE
    ensures r.status != Done ==> r.status == Panicked(IndexOutOfBounds) && r.state == s
    ensures r.status == Done ==> r.state.stdout == s.stdout + [s.memory[s.index]]
    ensures r.state.index == s.index && r.state.memory == s.memory && r.state.stdin == s.stdin
  {
    match GetMut(s)
    case Failure(e) => Outcome(Panicked(e), s)
    case Success(pos) => Outcome(Done, s.(stdout := s.stdout + [s.memory[pos]]))
  }

  /**
   * `input`: the value to store is read first and the cell is looked up
   * afterwards (the right-hand side of an assignment is evaluated before its
   * place). With nothing left on standard input the read never returns.
   */
  function Input(s: State): (r: Outcome)
    ensures r.status == Blocked <==> s.stdin == []
    ensures r.status == Blocked ==> r.state == s
    ensures r.status == Done <==> s.stdin != [] && s.index < MEMORY_SIZE
    ensures r.status == Done ==> OnlyCellChanged(s.(stdin := s.stdin[1..]), r.state, s.stdin[0])
    ensures r.status == Panicked(IndexOutOfBounds) <==> s.stdin != [] && s.index >= MEMORY_SIZE
    ensures r.status.Panicked? ==> r.state == s.(stdin := s.stdin[1..])
  {
    if s.stdin == [] then Outcome(Blocked, s)
    else
      var num := s.stdin[0];
      var s' := s.(stdin := s.stdin[1..]);
      match GetMut(s')
      case Failure(e) => Outcome(Panicked(e), s')
      case Success(pos) => Outcome(Done, SetCell(s', pos, num))
  }

  /** `minus` undoes `plus` on an in-bounds cell below 255. */
  lemma PlusThenMinus(s: State)
    requires s.index < MEMORY_SIZE && s.memory[s.index] < CELL_MAX
    ensures Plus(s).status == Done
    ensures Minus(Plus(s).state) == Outcome(Done, s)
  {
  }

  /** `plus` undoes `minus` on an in-bounds cell above 0. */
  lemma MinusThenPlus(s: State)
    requires s.index < MEMORY_SIZE && s.memory[s.index] > 0
    ensures Minus(s).status == Done
    ensures Plus(Minus(s).state) == Outcome(Done, s)
  {
  }

  /** `left` undoes `right` whenever `right` succeeds. */
  lemma RightThenLeft(s: State)
    requires s.index < INDEX_MAX
    ensures Right(s).status == Done
    ensures Left(Right(s).state) == Outcome(Done, s)
  {
  }

  /**
   * From the last cell, `right` succeeds; the index then lies outside the
   * memory and the next cell access of `plus`, `minus` or `print` panics.
   */
  lemma RightPastTheEnd(s: State)
    requires s.index == MEMORY_SIZE - 1
    ensures Right(s).status == Done && Right(s).state.index == MEMORY_SIZE
    ensures Plus(Right(s).state).status == Panicked(IndexOutOfBounds)
    ensures Minus(Right(s).state).status == Panicked(IndexOutOfBounds)
    ensures Print(Right(s).state).status == Panicked(IndexOutOfBounds)
  {
  }
}
