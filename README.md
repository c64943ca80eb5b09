# brainfuck-macro, modelled in Dafny

The repository embeds Brainfuck programs in Rust source. A program is written
as Rust tokens inside `brainfuck! { ... }`. Macros turn each token into a call
on a tape machine, `BrainfuckState`. The machine has 30,000 byte cells and a
`u32` index. Every arithmetic step it takes is checked and panics on overflow
or underflow.

The model has five modules.

- `Machine` (machine.dfy) gives the machine's state as a value. Each instruction
  method is a function from a state to an `Outcome`: a status (`Done`, a
  `Panicked` error, `Blocked` on input, or `OutOfFuel`) and the resulting state.
  A panic leaves the state as it was when the failing check ran. The five
  `Error` kinds match the five `expect` messages of the source.
- `Semantics` (semantics.dfy) gives the code the macros generate. An `Op` is
  either one instruction call or a `Loop` node holding its body. The loop means
  `while *state.get_mut() != 0 { body }`. `Run` executes a sequence of ops left
  to right. A loop may diverge, so `Run` carries a budget of iterations (fuel).
- `Macros` (macros.dfy) gives the expansion rules. A `Token` is one host token
  made only of instruction characters. That includes the glued tokens `<<`,
  `>>`, `->`, `<-`, `..` and `...`, and bracketed groups nest. `Expand` maps a
  token sequence to ops.
- `Runtime` (runtime.dfy) gives `BrainfuckState` as a class. The class holds an
  `array` memory, and its methods mutate it in place. `Execute` and
  `ExecuteLoop` run the generated code on such an object, with a `while` loop
  for each Brainfuck loop. Every method is proved to agree with its function in
  `Machine` or `Semantics`.
- `Programs` (programs.dfy) runs whole programs from the default state.

Standard output is the byte sequence `stdout` that `print` appends to. Standard
input is a parameter. `stdin` is the sequence of values that successive `input`
calls will store.

Two behaviours of the code are modelled as written.

1. `right` checks only for `u32` overflow. Moving past the last cell succeeds.
   The failure comes at the next cell access, in `plus`, `minus`, `print`,
   `input` or a loop test, through `get_mut`.
2. There is no bracket parser and no jump table. Nesting comes from the host's
   token trees, so loops are nested `Loop` nodes.

Some further facts of the code that the model keeps:

- The only program parser is the host's tokenizer, and a bracket mismatch is a
  compile error, not a run-time one.
- `print` can panic, when the index is outside the memory.
- Running out of input is not an error: `input` keeps reading.

## Model

| member | source | states |
|---|---|---|
| `Machine.Default` | src/brainfuck.rs:56-60 | the default state has index 0 and `MEMORY_SIZE` (30,000) cells, all 0 |
| `Machine.GetMut` | src/brainfuck.rs:103-105 | the cell lookup succeeds iff index < `MEMORY_SIZE`, gives the index as the position, and otherwise panics with "Index out of bounds" |
| `Machine.Plus` | src/brainfuck.rs:63-66 | fails iff the index is out of bounds (IndexOutOfBounds) or the cell is 255 (ValueOverflow); otherwise only the current cell changes, rising by 1 |
| `Machine.Minus` | src/brainfuck.rs:68-71 | fails iff the index is out of bounds or the cell is 0 (ValueUnderflow); otherwise only the current cell changes, falling by 1 |
| `Machine.Right` | src/brainfuck.rs:73-75 | fails (IndexOverflow) iff the index is `u32::MAX`; otherwise the index rises by 1, even past the memory; memory and streams are never touched |
| `Machine.Left` | src/brainfuck.rs:77-79 | fails (IndexUnderflow) iff the index is 0; otherwise the index falls by 1; memory and streams are never touched |
| `Machine.Print` | src/brainfuck.rs:81-84 | fails iff the index is out of bounds; otherwise appends exactly the current cell to the output; index, memory and input unchanged |
| `Machine.Input` | src/brainfuck.rs:86-101 | blocks iff no input is left; otherwise consumes one value, then fails iff out of bounds, else stores the value in the current cell only |
| `Machine.PlusThenMinus` | src/brainfuck.rs:63-71 | on an in-bounds cell below 255, `plus` then `minus` restores the original state |
| `Machine.MinusThenPlus` | src/brainfuck.rs:63-71 | on an in-bounds cell above 0, `minus` then `plus` restores the original state |
| `Machine.RightThenLeft` | src/brainfuck.rs:73-79 | below `u32::MAX`, `right` then `left` restores the original state |
| `Machine.RightPastTheEnd` | src/brainfuck.rs:73-75 | `right` at index 29,999 succeeds; `plus`, `minus` and `print` then fail with IndexOutOfBounds |
| `Semantics.Step` | src/brainfuck.rs:22-27 | one instruction call never removes output already printed |
| `Semantics.Run` | src/brainfuck.rs:13-17 | a statement sequence never removes output already printed |
| `Semantics.Exec` | src/brainfuck.rs:20-45 | one generated statement never removes output already printed |
| `Semantics.RunLoop` | src/brainfuck.rs:40-44 | a generated loop never removes output already printed |
| `Semantics.RunConcat` | src/brainfuck.rs:13-17 | running `a + b` is running `a`, then `b` from `a`'s final state if `a` returned normally |
| `Semantics.LoopSkipped` | src/brainfuck.rs:40-44 | a loop whose current cell is 0 on entry runs no body and leaves the state unchanged |
| `Semantics.LoopOutOfBounds` | src/brainfuck.rs:40-41 | with the index outside memory, the loop test panics with IndexOutOfBounds |
| `Semantics.LoopExitsOnZero` | src/brainfuck.rs:40-44 | when a loop ends normally, its index is in bounds and the current cell is 0 |
| `Semantics.RunMoreFuel` | src/brainfuck.rs:40-44 | a run that finished within some budget gives the same outcome with any larger budget |
| `Semantics.RunLoopMoreFuel` | src/brainfuck.rs:40-44 | the same for a single loop |
| `Macros.Expand` | src/brainfuck.rs:11-18 | the corrected `brainfuck_with_state!`: one op per token of the spaced-out program, a bracketed group counting once, so at least one op per token; it also gives `<-`, `..` and `...` a meaning, which the source does not; its properties are in `ExpandConcat`, `UnglueKeepsExpansion`, the four glued-token lemmas and `AsWrittenAgrees` |
| `Macros.ExpandToken` | src/brainfuck.rs:20-45 | the corrected `brainfuck_operation!`: one to three calls, all of them calls, one per character of the token, or exactly one loop for a bracketed group |
| `Macros.ExpandAsWritten` | src/brainfuck.rs:11-18 | the rules as written for a program: when they accept it, one op per token of the spaced-out program, a bracketed group counting once; `AsWrittenAgrees` says which programs they accept |
| `Macros.ExpandTokenAsWritten` | src/brainfuck.rs:20-45 | the rules as written for one token: `<-`, `..` and `...` match no rule, and an accepted token yields one or two ops: one per character, or one loop for a bracketed group |
| `Macros.ExpandConcat` | src/brainfuck.rs:13-17 | the expansion of a token sequence is the concatenation of the tokens' expansions |
| `Macros.ProgramConcat` | src/brainfuck.rs:11-18 | a program runs token by token, left to right, inside loop bodies too |
| `Macros.ShlIsTwoLt` | src/brainfuck.rs:33 | `<<` behaves as `<` then `<` |
| `Macros.ShrIsTwoGt` | src/brainfuck.rs:34 | `>>` behaves as `>` then `>` |
| `Macros.RArrowIsMinusGt` | src/brainfuck.rs:38 | `->` behaves as `-` then `>` |
| `Macros.LArrowIsLtMinus` | src/brainfuck.rs:23-26 | under the corrected rules, `<-` behaves as `<` then `-` |
| `Macros.UnglueIsUnglued` | src/brainfuck.rs:29-38 | rewriting glued tokens as their characters leaves no glued token at any depth |
| `Macros.UnglueKeepsExpansion` | src/brainfuck.rs:20-45 | rewriting every glued token, at any depth, as its characters leaves the expansion unchanged |
| `Macros.UnglueTokenKeepsExpansion` | src/brainfuck.rs:29-38 | each glued token expands as its characters written apart |
| `Macros.AsWrittenAgrees` | src/brainfuck.rs:20-45 | the rules as written accept exactly the programs with no `<-`, `..` or `...` at any depth, and then expand as `Expand` does |
| `Macros.AsWrittenAgreesToken` | src/brainfuck.rs:20-45 | the same for one token |
| `Macros.UngluedIsMatched` | src/brainfuck.rs:20-45 | a program with no glued token at any depth has a rule as written for every token |
| `Macros.UngluedTokenIsMatched` | src/brainfuck.rs:20-45 | the same for one token |
| `Macros.SpacedOutAgrees` | src/brainfuck.rs:20-45 | the rules as written accept every program spaced out, and give it the meaning the corrected rules give the original |
| `Macros.DotDotRejected` | src/brainfuck.rs:22-27 | `. .` is accepted and `..` expands to the same ops under the corrected rules, yet the rules as written reject `..` |
| `Macros.LArrowRejected` | src/brainfuck.rs:22-27 | `< -` is accepted and `<-` expands to the same ops under the corrected rules, yet the rules as written reject `<-` |
| `Programs.ClearLoop` | src/brainfuck.rs:40-44 | given enough budget, `[-]` on an in-bounds cell ends normally with that cell 0 and nothing else changed |
| `Programs.RunPluses` | src/brainfuck.rs:63-66 | `n` calls of `plus` raise an in-bounds cell by `n` when the result stays at most 255 |
| `Programs.MultiplyLoop` | src/brainfuck.rs:40-44 | `[>++++++++< -]` from cell 0 holding `k` adds `8 * k` to cell 1 and ends with cell 0 at 0 |
| `Programs.PrintsSixtyFour` | src/brainfuck.rs:1-9 | `++++++++[>++++++++< -]>.` from a default state ends normally having printed exactly the byte 64 |
| `Programs.EightTimesEightCompiles` | src/brainfuck.rs:20-45 | the rules as written accept `++++++++[>++++++++< -]>.` and expand it as the corrected rules do |
| `Programs.GluedEightTimesEightRejected` | src/brainfuck.rs:20-45 | the rules as written reject `++++++++[>++++++++<-]>.`, whose `<-` is one token |
| `Programs.GluedEightTimesEightAgrees` | src/brainfuck.rs:20-45 | under the corrected rules, the program written `<-` expands as the one written `< -` |
| `Programs.PlusThreeThenClear` | src/brainfuck.rs:1-9 | `+++[-]` from a default state ends normally in the default state: cell 0 is 0, index 0, no output |
| `Runtime.BrainfuckState.Default` | src/brainfuck.rs:56-60 | a fresh object whose state is `Machine.Default` |
| `Runtime.BrainfuckState.GetMut` | src/brainfuck.rs:103-105 | agrees with `Machine.GetMut`, and a position it returns is inside the array |
| `Runtime.BrainfuckState.Plus` | src/brainfuck.rs:63-66 | status and new state in place are those of `Machine.Plus` |
| `Runtime.BrainfuckState.Minus` | src/brainfuck.rs:68-71 | status and new state in place are those of `Machine.Minus` |
| `Runtime.BrainfuckState.Right` | src/brainfuck.rs:73-75 | status and new state in place are those of `Machine.Right` |
| `Runtime.BrainfuckState.Left` | src/brainfuck.rs:77-79 | status and new state in place are those of `Machine.Left` |
| `Runtime.BrainfuckState.Print` | src/brainfuck.rs:81-84 | status and new state in place are those of `Machine.Print` |
| `Runtime.BrainfuckState.Input` | src/brainfuck.rs:86-101 | status and new state in place are those of `Machine.Input` |
| `Runtime.ExecuteCall` | src/brainfuck.rs:22-27 | the call a single token generates has the effect of that instruction |
| `Runtime.Execute` | src/brainfuck.rs:13-17 | executing a statement sequence in place agrees with `Semantics.Run` |
| `Runtime.ExecuteLoop` | src/brainfuck.rs:40-44 | the generated `while` loop in place agrees with `Semantics.RunLoop` |
| `Runtime.BrainfuckWithState` | src/brainfuck.rs:11-18 | running a program on a given object agrees with `Run` of its expansion |
| `Runtime.Brainfuck` | src/brainfuck.rs:1-9 | running a program on a fresh default object agrees with `Run` of its expansion from `Machine.Default` |

## Left out

- Reading standard input is left out. `input` reads a line from standard input, parses it as a `u8`, and retries forever on an I/O or parse error. The model replaces all of this with a sequence of values already parsed. The line buffer is never cleared between retries, and it keeps its newline; neither is modelled. Together they mean that a line with its newline, such as `65\n`, never parses, and the bad buffer is kept for every retry. So `input` returns only when standard input ends in a bare number with no newline, and a line typed at a terminal never parses. The `stdin` sequence therefore allows runs that the program can never have.
- When no value is left, `input` returns `Blocked`. At end of file, the source's retry loop spins forever.
- The error message `input` prints on a parse failure is left out.
- `print` is simplified. The source formats `num as char`, so a cell of 128 or more is written as two UTF-8 bytes. The model appends the raw cell value as one byte.
- The source's `expect` panics end the program. In the model a panic does not abort; it is a typed `Panicked` status, and the state at the failed check is kept. In that state, the output printed before the panic is still visible.
- `Run`, `RunLoop`, `Execute` and `ExecuteLoop` do not model divergence. A loop that needs more iterations than its budget ends with `OutOfFuel`, and such a result says nothing about the real program. `RunMoreFuel` shows that budgets are consistent with each other.
- How `macro_rules!` matches and recurses at compile time is left out, so `brainfuck_operation!` calling itself for a glued token is not modelled. Only the resulting calls are.
- Tokens with a character that is no instruction are not in the token type. The source rejects a program with such a token at compile time.
- Runtime.Brainfuck: runs the corrected rules, so it accepts the glued tokens `<-`, `..` and `...`, which the source refuses to compile. `Macros.AsWrittenAgrees` says which programs the source does compile, and that on them the two agree.
- Runtime.BrainfuckWithState: runs the corrected rules, with the same difference as `Runtime.Brainfuck`.
- `index as usize` is modelled as lossless, which holds when `usize` has at least 32 bits.

## Findings

| source | as written | input that shows it | evidently intended | confidence | as-written member | corrected member |
|---|---|---|---|---|---|---|
| src/brainfuck.rs:29-38 | there are rules for the glued tokens `<<`, `>>` and `->`, but none for `<-`, `..` or `...`, which the host lexer glues too | `brainfuck!(+ ..)` and `brainfuck!(++++++++[>++++++++<-]>.)` match no rule and do not compile, while `brainfuck!(+ . .)` prints twice and `brainfuck!(++++++++[>++++++++< -]>.)` prints the byte 64 | `<-` is `<` then `-`, `..` prints twice and `...` three times, like the other glued tokens | medium, not executed | `Macros.AsWrittenAgrees` | `Macros.SpacedOutAgrees` |

`Macros.ExpandAsWritten` is the rule set as written. `Macros.AsWrittenAgrees`
says exactly which programs it rejects, and `Macros.DotDotRejected`,
`Macros.LArrowRejected` and `Programs.GluedEightTimesEightRejected` show
concrete programs it rejects. `Macros.Expand` is the corrected rule set, and
`Runtime.Brainfuck` and `Runtime.BrainfuckWithState` use it.
