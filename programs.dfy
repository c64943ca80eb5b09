/**
 * Whole programs run through the expansion rules from a default state.
 */
module Programs {
  import M = Machine
  import S = Semantics
  import opened Macros

  /**
   * `[-]` counts the current cell down to 0, one iteration per unit; nothing
   * else changes.
   */
  lemma {:induction false} ClearLoop(s: M.State, fuel: nat)
    requires s.index < M.MEMORY_SIZE && fuel >= s.memory[s.index]
    ensures S.RunLoop([S.Call(S.Minus)], s, fuel) == M.Outcome(M.Done, M.SetCell(s, s.index, 0))
    decreases s.memory[s.index]
  {
    if s.memory[s.index] == 0 {
      assert M.SetCell(s, s.index, 0) == s;
    } else {
      var t := M.Minus(s).state;
      assert S.Run([S.Call(S.Minus)], s, fuel - 1) == M.Outcome(M.Done, t);
      ClearLoop(t, fuel - 1);
      assert M.SetCell(t, t.index, 0) == M.SetCell(s, s.index, 0);
    }
  }

  /**
   * `+++[-]` from a default state ends normally back in the default state:
   * cell 0 holds 0, the index is 0 and nothing was printed.
   */
  lemma PlusThreeThenClear(stdin: seq<M.u8>, fuel: nat)
    requires fuel >= 3
    ensures S.Run(Expand([Plus, Plus, Plus, Bracket([Minus])]), M.Default(stdin), fuel)
         == M.Outcome(M.Done, M.Default(stdin))
  {
    var d := M.Default(stdin);
    var plus := [S.Call(S.Plus)];
    var loop := [S.Loop([S.Call(S.Minus)])];
    assert ExpandToken(Bracket([Minus])) == [S.Loop(Expand([Minus]))];
    assert Expand([Bracket([Minus])]) == ExpandToken(Bracket([Minus])) + Expand([]);
    assert Expand([Minus]) == [S.Call(S.Minus)];
    assert Expand([Bracket([Minus])]) == loop;
    var program := [Plus, Plus, Plus, Bracket([Minus])];
    assert program[3..] == [Bracket([Minus])];
    assert Expand(program[3..]) == loop;
    assert Expand(program[2..]) == plus + loop;
    assert Expand(program[1..]) == plus + (plus + loop);
    assert Expand(program) == plus + (plus + (plus + loop));
    var s1 := M.Plus(d).state;
    var s2 := M.Plus(s1).state;
    var s3 := M.Plus(s2).state;
    assert S.Run(plus, d, fuel) == M.Outcome(M.Done, s1) by {
      assert S.Exec(plus[0], d, fuel) == M.Plus(d);
    }
    assert S.Run(plus, s1, fuel) == M.Outcome(M.Done, s2) by {
      assert S.Exec(plus[0], s1, fuel) == M.Plus(s1);
    }
    assert S.Run(plus, s2, fuel) == M.Outcome(M.Done, s3) by {
      assert S.Exec(plus[0], s2, fuel) == M.Plus(s2);
    }
    S.RunConcat(plus, plus + (plus + loop), d, fuel);
    S.RunConcat(plus, plus + loop, s1, fuel);
    S.RunConcat(plus, loop, s2, fuel);
    assert s3.memory[0] == 3;
    ClearLoop(s3, fuel);
    assert M.SetCell(s3, 0, 0) == d;
    assert S.Run(loop, s3, fuel) == M.Outcome(M.Done, d) by {
      assert S.Exec(loop[0], s3, fuel) == S.RunLoop([S.Call(S.Minus)], s3, fuel);
    }
  }

  /** `n` copies of one token. */
  function Repeat(t: Token, n: nat): seq<Token>
  {
    seq(n, _ => t)
  }

  /** `n` calls of `plus`. */
  function Pluses(n: nat): seq<S.Op>
  {
    seq(n, _ => S.Call(S.Plus))
  }

  lemma {:induction false} ExpandRepeatPlus(n: nat)
    ensures Expand(Repeat(Plus, n)) == Pluses(n)
  {
    if n > 0 {
      assert Repeat(Plus, n)[0] == Plus;
      assert Repeat(Plus, n)[1..] == Repeat(Plus, n - 1);
      ExpandRepeatPlus(n - 1);
      assert Pluses(n) == [S.Call(S.Plus)] + Pluses(n - 1);
    }
  }

  /** `n` calls of `plus` raise the current cell by `n` when it has room. */
  lemma {:induction false} RunPluses(s: M.State, n: nat, fuel: nat)
    requires s.index < M.MEMORY_SIZE && s.memory[s.index] + n <= M.CELL_MAX
    ensures S.Run(Pluses(n), s, fuel) == M.Outcome(M.Done, M.SetCell(s, s.index, s.memory[s.index] + n))
    decreases n
  {
    if n == 0 {
      assert M.SetCell(s, s.index, s.memory[s.index]) == s;
    } else {
      assert Pluses(n) == [S.Call(S.Plus)] + Pluses(n - 1);
      S.RunConcat([S.Call(S.Plus)], Pluses(n - 1), s, fuel);
      S.RunCall(S.Plus, s, fuel);
      var t := M.Plus(s).state;
      RunPluses(t, n - 1, fuel);
      assert M.SetCell(t, t.index, t.memory[t.index] + n - 1) == M.SetCell(s, s.index, s.memory[s.index] + n);
    }
  }

  /** The state `s` with cells 0 and 1 set to `a` and `b`. */
  function WithCells(s: M.State, a: M.u8, b: M.u8): M.State
  {
    s.(memory := s.memory[0 := a][1 := b])
  }

  /** The expansion of the loop body `>++++++++< -`. */
  function MultiplyBody(): seq<S.Op>
  {
    [S.Call(S.Right)] + Pluses(8) + [S.Call(S.Left), S.Call(S.Minus)]
  }

  /** One pass of `>++++++++< -` from cell 0: cell 1 gains 8, cell 0 loses 1. */
  lemma MultiplyStep(s: M.State, fuel: nat)
    requires s.index == 0 && s.memory[0] > 0 && s.memory[1] + 8 <= M.CELL_MAX
    ensures S.Run(MultiplyBody(), s, fuel) == M.Outcome(M.Done, WithCells(s, s.memory[0] - 1, s.memory[1] + 8))
  {
    var right, left, minus := [S.Call(S.Right)], [S.Call(S.Left)], [S.Call(S.Minus)];
    assert MultiplyBody() == right + (Pluses(8) + (left + minus));
    S.RunConcat(right, Pluses(8) + (left + minus), s, fuel);
    S.RunCall(S.Right, s, fuel);
    var s1 := M.Right(s).state;
    S.RunConcat(Pluses(8), left + minus, s1, fuel);
    RunPluses(s1, 8, fuel);
    var s2 := M.SetCell(s1, 1, s1.memory[1] + 8);
    S.RunConcat(left, minus, s2, fuel);
    S.RunCall(S.Left, s2, fuel);
    var s3 := M.Left(s2).state;
    S.RunCall(S.Minus, s3, fuel);
    var s4 := M.Minus(s3).state;
    assert s4 == WithCells(s, s.memory[0] - 1, s.memory[1] + 8);
  }

  /**
   * `[>++++++++< -]` from cell 0 holding `k` adds `8 * k` to cell 1 and
   * leaves cell 0 at 0, in `k` iterations.
   */
  lemma {:induction false} MultiplyLoop(s: M.State, fuel: nat)
    requires s.index == 0 && s.memory[1] + 8 * s.memory[0] <= M.CELL_MAX && fuel >= s.memory[0]
    ensures S.RunLoop(MultiplyBody(), s, fuel)
         == M.Outcome(M.Done, WithCells(s, 0, s.memory[1] + 8 * s.memory[0]))
    decreases s.memory[0]
  {
    if s.memory[0] == 0 {
      assert WithCells(s, 0, s.memory[1]) == s;
    } else {
      MultiplyStep(s, fuel - 1);
      var t := WithCells(s, s.memory[0] - 1, s.memory[1] + 8);
      MultiplyLoop(t, fuel - 1);
      assert WithCells(t, 0, t.memory[1] + 8 * t.memory[0]) == WithCells(s, 0, s.memory[1] + 8 * s.memory[0]);
    }
  }

  /**
   * The tokens of `++++++++[>++++++++< -]>.`. The space keeps `<` and `-`
   * two tokens; written `<-` they are one `LArrow`, which no rule names.
   */
  function EightTimesEight(): seq<Token>
  {
    Repeat(Plus, 8) + [Bracket(SpacedBody()), Gt, Dot]
  }

  /** The same program written `<-`, as the lexer then reads it. */
  function GluedEightTimesEight(): seq<Token>
  {
    Repeat(Plus, 8) + [Bracket(GluedBody()), Gt, Dot]
  }

  /** The loop body `>++++++++< -`, and the same body written `<-`. */
  function SpacedBody(): seq<Token>
  {
    [Gt] + Repeat(Plus, 8) + [Lt, Minus]
  }

  function GluedBody(): seq<Token>
  {
    [Gt] + Repeat(Plus, 8) + [LArrow]
  }

  /** The rules as written compile the program with `< -`. */
  lemma EightTimesEightCompiles()
    ensures ExpandAsWritten(EightTimesEight()) == Some(Expand(EightTimesEight()))
  {
    assert Matched(SpacedBody());
    assert Matched(EightTimesEight());
    AsWrittenAgrees(EightTimesEight());
  }

  /** They refuse the program with `<-`. */
  lemma GluedEightTimesEightRejected()
    ensures ExpandAsWritten(GluedEightTimesEight()) == None
  {
    assert |Repeat(Plus, 8)| == 8;
    assert GluedBody()[9] == LArrow && !MatchedToken(GluedBody()[9]);
    assert !Matched(GluedBody());
    assert GluedEightTimesEight()[8] == Bracket(GluedBody());
    assert !Matched(GluedEightTimesEight());
    AsWrittenAgrees(GluedEightTimesEight());
  }

  /** The corrected rules give both programs the same meaning. */
  lemma GluedEightTimesEightAgrees()
    ensures Expand(GluedEightTimesEight()) == Expand(EightTimesEight())
  {
    ExpandGluedBody();
    ExpandAround(GluedBody());
    ExpandEightTimesEight();
  }

  lemma ExpandSpacedBody()
    ensures Expand(SpacedBody()) == MultiplyBody()
  {
    ExpandRepeatPlus(8);
    ExpandConcat([Gt] + Repeat(Plus, 8), [Lt, Minus]);
    ExpandConcat([Gt], Repeat(Plus, 8));
    assert Expand([Gt]) == [S.Call(S.Right)];
    assert Expand([Lt, Minus]) == [S.Call(S.Left)] + Expand([Minus]);
    assert Expand([Minus]) == [S.Call(S.Minus)];
  }

  lemma ExpandGluedBody()
    ensures Expand(GluedBody()) == MultiplyBody()
  {
    ExpandRepeatPlus(8);
    ExpandConcat([Gt] + Repeat(Plus, 8), [LArrow]);
    ExpandConcat([Gt], Repeat(Plus, 8));
    assert Expand([Gt]) == [S.Call(S.Right)];
    assert Expand([LArrow]) == [S.Call(S.Left), S.Call(S.Minus)];
  }

  /** `[body]>.` for any body. */
  lemma ExpandLoopRightPrint(body: seq<Token>)
    ensures Expand([Bracket(body), Gt, Dot]) == [S.Loop(Expand(body)), S.Call(S.Right), S.Call(S.Print)]
  {
    assert Expand([Dot]) == [S.Call(S.Print)];
    assert Expand([Gt, Dot]) == [S.Call(S.Right)] + Expand([Dot]);
    assert Expand([Bracket(body), Gt, Dot]) == [S.Loop(Expand(body))] + Expand([Gt, Dot]);
  }

  /** `++++++++[body]>.` for a body that expands as `>++++++++< -`. */
  lemma ExpandAround(body: seq<Token>)
    requires Expand(body) == MultiplyBody()
    ensures Expand(Repeat(Plus, 8) + [Bracket(body), Gt, Dot])
         == Pluses(8) + [S.Loop(MultiplyBody()), S.Call(S.Right), S.Call(S.Print)]
  {
    ExpandRepeatPlus(8);
    ExpandLoopRightPrint(body);
    ExpandConcat(Repeat(Plus, 8), [Bracket(body), Gt, Dot]);
  }

  lemma ExpandEightTimesEight()
    ensures Expand(EightTimesEight()) == Pluses(8) + [S.Loop(MultiplyBody()), S.Call(S.Right), S.Call(S.Print)]
  {
    ExpandSpacedBody();
    ExpandAround(SpacedBody());
  }

  /** The ops `++++++++[>++++++++< -]>.` expands to. */
  function EightTimesEightOps(): seq<S.Op>
  {
    Pluses(8) + ([S.Loop(MultiplyBody())] + ([S.Call(S.Right)] + [S.Call(S.Print)]))
  }

  /**
   * `++++++++[>++++++++< -]>.` from a default state prints exactly one byte,
   * 64 (8 times 8), and ends normally, given a budget of 8 iterations.
   */
  lemma PrintsSixtyFour(stdin: seq<M.u8>, fuel: nat)
    requires fuel >= 8
    ensures var o := S.Run(Expand(EightTimesEight()), M.Default(stdin), fuel);
      o.status == M.Done && o.state.stdout == [64]
  {
    ExpandEightTimesEight();
    assert Pluses(8) + [S.Loop(MultiplyBody()), S.Call(S.Right), S.Call(S.Print)] == EightTimesEightOps();
    RunEightTimesEightOps(stdin, fuel);
  }

  lemma RunEightTimesEightOps(stdin: seq<M.u8>, fuel: nat)
    requires fuel >= 8
    ensures var o := S.Run(EightTimesEightOps(), M.Default(stdin), fuel);
      o.status == M.Done && o.state.stdout == [64]
  {
    var d := M.Default(stdin);
    var loop, right, output := [S.Loop(MultiplyBody())], [S.Call(S.Right)], [S.Call(S.Print)];
    var program := EightTimesEightOps();
    var s1 := M.SetCell(d, 0, 8);
    assert S.Run(program, d, fuel) == S.Run(loop + (right + output), s1, fuel) by {
      S.RunConcat(Pluses(8), loop + (right + output), d, fuel);
      RunPluses(d, 8, fuel);
    }
    var s2 := WithCells(s1, 0, 64);
    assert S.Run(loop + (right + output), s1, fuel) == S.Run(right + output, s2, fuel) by {
      S.RunConcat(loop, right + output, s1, fuel);
      S.RunSingleLoop(MultiplyBody(), s1, fuel);
      MultiplyLoop(s1, fuel);
    }
    var s3 := s2.(index := 1);
    assert S.Run(right + output, s2, fuel) == M.Print(s3) by {
      S.RunConcat(right, output, s2, fuel);
      S.RunCall(S.Right, s2, fuel);
      S.RunCall(S.Print, s3, fuel);
    }
    assert s3.memory[1] == 64;
  }
}
