/**
 * The `brainfuck_operation!` and `brainfuck_with_state!` expansion rules.
 *
 * A program is written as host-language tokens. The host lexer glues some
 * character pairs into one token (`<<`, `>>`, `->`, ...), so the rules map
 * a token, not a character, to the calls it stands for; a bracketed group
 * is a token tree whose body the rules expand into a loop.
 */
module Macros {
  import S = Semantics
  import M = Machine

  datatype Option<T> = None | Some(value: T)

  /**
   * The host tokens made only of instruction characters. Besides the six
   * one-character tokens, the lexer glues `<<`, `>>`, `->` and `<-` (`LArrow`),
   * `..` (`DotDot`) and `...` (`DotDotDot`) into single tokens.
   */
  datatype Token =
    | Plus | Minus | Dot | Comma | Lt | Gt
    | Shl | Shr | RArrow | LArrow
    | DotDot | DotDotDot
    | Bracket(body: seq<Token>)

  /** Every op is a call: no loop among them. */
  predicate AllCalls(ops: seq<S.Op>)
  {
    ops == [] || (ops[0].Call? && AllCalls(ops[1..]))
  }

  /**
   * `brainfuck_with_state!`: every token of the program, in order. One op
   * per token of the spaced-out program, a bracketed group counting once, so
   * at least one op per token.
   */
  function Expand(ts: seq<Token>): (r: seq<S.Op>)
    ensures |r| == |Unglue(ts)| && |r| >= |ts|
  {
    if ts == [] then [] else ExpandToken(ts[0]) + Expand(ts[1..])
  }

  /**
   * `brainfuck_operation!` for one token: one call per character of the
   * token, or one loop for a bracketed group.
   */
  function ExpandToken(t: Token): (r: seq<S.Op>)
    ensures |r| == |UnglueToken(t)| && 1 <= |r| <= 3
    ensures r[0].Loop? <==> t.Bracket?
    ensures !t.Bracket? ==> AllCalls(r)
  {
    match t
    case Plus => [S.Call(S.Plus)]
    case Minus => [S.Call(S.Minus)]
    case Dot => [S.Call(S.Print)]
    case Comma => [S.Call(S.Input)]
    case Lt => [S.Call(S.Left)]
    case Gt => [S.Call(S.Right)]
    case Shl => [S.Call(S.Left), S.Call(S.Left)]
    case Shr => [S.Call(S.Right), S.Call(S.Right)]
    case RArrow => [S.Call(S.Minus), S.Call(S.Right)]
    case LArrow => [S.Call(S.Left), S.Call(S.Minus)]
    case DotDot => [S.Call(S.Print), S.Call(S.Print)]
    case DotDotDot => [S.Call(S.Print), S.Call(S.Print), S.Call(S.Print)]
    case Bracket(body) => [S.Loop(Expand(body))]
  }

  /**
   * The rules as written: they name no `<-`, `..` or `...` token, so a
   * program holding one, at any depth, matches no rule and does not compile.
   */
  function ExpandAsWritten(ts: seq<Token>): (r: Option<seq<S.Op>>)
    ensures r.Some? ==> |r.value| == |Unglue(ts)|
  {
    if ts == [] then Some([])
    else
      match ExpandTokenAsWritten(ts[0])
      case None => None
      case Some(first) =>
        match ExpandAsWritten(ts[1..])
        case None => None
        case Some(rest) => Some(first + rest)
  }

  /** No rule as written yields more than two calls for one token. */
  function ExpandTokenAsWritten(t: Token): (r: Option<seq<S.Op>>)
    ensures r.Some? ==> |r.value| == |UnglueToken(t)| && 1 <= |r.value| <= 2
    ensures t.LArrow? || t.DotDot? || t.DotDotDot? ==> r.None?
  {
    match t
    case LArrow | DotDot | DotDotDot => None
    case Bracket(body) =>
      (match ExpandAsWritten(body)
       case None => None
       case Some(b) => Some([S.Loop(b)]))
    case _ => Some(ExpandToken(t))
  }

  /** Every token, at any depth, has a rule: no `<-`, `..` or `...` anywhere. */
  predicate Matched(ts: seq<Token>)
  {
    forall i :: 0 <= i < |ts| ==> MatchedToken(ts[i])
  }

  predicate MatchedToken(t: Token)
  {
    match t
    case LArrow | DotDot | DotDotDot => false
    case Bracket(body) => Matched(body)
    case _ => true
  }

  /** A one-character token: every glued token has been taken apart. */
  predicate Unglued(ts: seq<Token>)
  {
    forall i :: 0 <= i < |ts| ==> UngluedToken(ts[i])
  }

  predicate UngluedToken(t: Token)
  {
    match t
    case Shl | Shr | RArrow | LArrow | DotDot | DotDotDot => false
    case Bracket(body) => Unglued(body)
    case _ => true
  }

  /** The program written one character per token. */
  function Unglue(ts: seq<Token>): seq<Token>
  {
    if ts == [] then [] else UnglueToken(ts[0]) + Unglue(ts[1..])
  }

  function UnglueToken(t: Token): seq<Token>
  {
    match t
    case Shl => [Lt, Lt]
    case Shr => [Gt, Gt]
    case RArrow => [Minus, Gt]
    case LArrow => [Lt, Minus]
    case DotDot => [Dot, Dot]
    case DotDotDot => [Dot, Dot, Dot]
    case Bracket(body) => [Bracket(Unglue(body))]
    case _ => [t]
  }

  /** Tokens expand one after another. */
  lemma {:induction false} ExpandConcat(a: seq<Token>, b: seq<Token>)
    ensures Expand(a + b) == Expand(a) + Expand(b)
  {
    if a == [] {
      assert a + b == b;
    } else {
      assert (a + b)[0] == a[0];
      assert (a + b)[1..] == a[1..] + b;
      ExpandConcat(a[1..], b);
    }
  }

  /**
   * The program executes token by token, left to right: running `a + b` is
   * running `a`, then `b` from where `a` ended. Loop bodies are token
   * sequences too, so this holds inside them.
   */
  lemma ProgramConcat(a: seq<Token>, b: seq<Token>, s: M.State, fuel: nat)
    ensures S.Run(Expand(a + b), s, fuel) == S.Then(S.Run(Expand(a), s, fuel), Expand(b), fuel)
  {
    ExpandConcat(a, b);
    S.RunConcat(Expand(a), Expand(b), s, fuel);
  }

  /** `<<` behaves as `<` then `<`. */
  lemma ShlIsTwoLt(s: M.State, fuel: nat)
    ensures S.Run(Expand([Shl]), s, fuel) == S.Then(S.Run(Expand([Lt]), s, fuel), Expand([Lt]), fuel)
  {
  }

  /** `>>` behaves as `>` then `>`. */
  lemma ShrIsTwoGt(s: M.State, fuel: nat)
    ensures S.Run(Expand([Shr]), s, fuel) == S.Then(S.Run(Expand([Gt]), s, fuel), Expand([Gt]), fuel)
  {
  }

  /** `->` behaves as `-` then `>`. */
  lemma RArrowIsMinusGt(s: M.State, fuel: nat)
    ensures S.Run(Expand([RArrow]), s, fuel) == S.Then(S.Run(Expand([Minus]), s, fuel), Expand([Gt]), fuel)
  {
  }

  /** Under the corrected rules, `<-` behaves as `<` then `-`. */
  lemma LArrowIsLtMinus(s: M.State, fuel: nat)
    ensures S.Run(Expand([LArrow]), s, fuel) == S.Then(S.Run(Expand([Lt]), s, fuel), Expand([Minus]), fuel)
  {
  }

  /** Taking glued tokens apart, at any depth, leaves no glued token. */
  lemma {:induction false} UnglueIsUnglued(ts: seq<Token>)
    ensures Unglued(Unglue(ts))
  {
    if ts != [] {
      UnglueTokenIsUnglued(ts[0]);
      UnglueIsUnglued(ts[1..]);
      UngluedConcat(UnglueToken(ts[0]), Unglue(ts[1..]));
    }
  }

  lemma {:induction false} UnglueTokenIsUnglued(t: Token)
    ensures Unglued(UnglueToken(t))
  {
    if t.Bracket? {
      UnglueIsUnglued(t.body);
    }
  }

  lemma UngluedConcat(a: seq<Token>, b: seq<Token>)
    requires Unglued(a) && Unglued(b)
    ensures Unglued(a + b)
  {
  }

  /**
   * Every glued token expands exactly as its characters written apart, at
   * any depth: the expansion rules give a program the meaning of its text.
   */
  lemma {:induction false} UnglueKeepsExpansion(ts: seq<Token>)
    ensures Expand(Unglue(ts)) == Expand(ts)
  {
    if ts != [] {
      UnglueTokenKeepsExpansion(ts[0]);
      UnglueKeepsExpansion(ts[1..]);
      ExpandConcat(UnglueToken(ts[0]), Unglue(ts[1..]));
    }
  }

  lemma {:induction false} UnglueTokenKeepsExpansion(t: Token)
    ensures Expand(UnglueToken(t)) == ExpandToken(t)
  {
    match t
    case Bracket(body) =>
      UnglueKeepsExpansion(body);
      assert Expand([Bracket(Unglue(body))]) == ExpandToken(Bracket(Unglue(body))) + Expand([]);
    case Shl => assert Expand([Lt, Lt]) == ExpandToken(Lt) + Expand([Lt]);
    case Shr => assert Expand([Gt, Gt]) == ExpandToken(Gt) + Expand([Gt]);
    case RArrow => assert Expand([Minus, Gt]) == ExpandToken(Minus) + Expand([Gt]);
    case LArrow => assert Expand([Lt, Minus]) == ExpandToken(Lt) + Expand([Minus]);
    case DotDot => assert Expand([Dot, Dot]) == ExpandToken(Dot) + Expand([Dot]);
    case DotDotDot =>
      assert Expand([Dot, Dot, Dot]) == ExpandToken(Dot) + Expand([Dot, Dot]);
      assert Expand([Dot, Dot]) == ExpandToken(Dot) + Expand([Dot]);
    case _ => assert Expand([t]) == ExpandToken(t) + Expand([]);
  }

  /**
   * The rules as written accept exactly the programs without `<-`, `..` or
   * `...` at any depth, and on those agree with `Expand`.
   */
  lemma {:induction false} AsWrittenAgrees(ts: seq<Token>)
    ensures ExpandAsWritten(ts) == if Matched(ts) then Some(Expand(ts)) else None
  {
    if ts != [] {
      AsWrittenAgreesToken(ts[0]);
      AsWrittenAgrees(ts[1..]);
      assert Matched(ts) <==> MatchedToken(ts[0]) && Matched(ts[1..]) by {
        if MatchedToken(ts[0]) && Matched(ts[1..]) {
          forall i | 0 <= i < |ts| ensures MatchedToken(ts[i]) {
            if i > 0 {
              assert ts[i] == ts[1..][i - 1];
            }
          }
        }
        if Matched(ts) {
          forall i | 0 <= i < |ts[1..]| ensures MatchedToken(ts[1..][i]) {
            assert ts[1..][i] == ts[i + 1];
          }
        }
      }
    }
  }

  lemma {:induction false} AsWrittenAgreesToken(t: Token)
    ensures ExpandTokenAsWritten(t) == if MatchedToken(t) then Some(ExpandToken(t)) else None
  {
    if t.Bracket? {
      AsWrittenAgrees(t.body);
    }
  }

  /** A program with every glued token taken apart has a rule for each token. */
  lemma {:induction false} UngluedIsMatched(ts: seq<Token>)
    requires Unglued(ts)
    ensures Matched(ts)
  {
    forall i | 0 <= i < |ts| ensures MatchedToken(ts[i]) {
      UngluedTokenIsMatched(ts[i]);
    }
  }

  lemma {:induction false} UngluedTokenIsMatched(t: Token)
    requires UngluedToken(t)
    ensures MatchedToken(t)
  {
    if t.Bracket? {
      UngluedIsMatched(t.body);
    }
  }

  /**
   * The corrected rules are the rules as written applied to the program
   * spaced out: the rules as written accept `Unglue(ts)` and give it the
   * meaning `Expand` gives `ts`.
   */
  lemma SpacedOutAgrees(ts: seq<Token>)
    ensures ExpandAsWritten(Unglue(ts)) == Some(Expand(ts))
  {
    UnglueIsUnglued(ts);
    UngluedIsMatched(Unglue(ts));
    AsWrittenAgrees(Unglue(ts));
    UnglueKeepsExpansion(ts);
  }

  /** `..` is two dots to the expansion, yet the rules as written reject it. */
  lemma DotDotRejected()
    ensures Expand([DotDot]) == Expand([Dot, Dot])
    ensures ExpandAsWritten([Dot, Dot]) == Some(Expand([Dot, Dot]))
    ensures ExpandAsWritten([DotDot]) == None
  {
  }

  /** `<-` is `<` then `-` to the expansion, yet the rules as written reject it. */
  lemma LArrowRejected()
    ensures Expand([LArrow]) == Expand([Lt, Minus])
    ensures ExpandAsWritten([Lt, Minus]) == Some(Expand([Lt, Minus]))
    ensures ExpandAsWritten([LArrow]) == None
  {
  }
}
