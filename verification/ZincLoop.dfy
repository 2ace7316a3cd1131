/** A loop written as a call in tail position: the sum of the numbers up to n, in one frame for all n. */
module ZincLoop {
  import opened Wrappers
  import opened ZincCode
  import opened ZincMachine
  import opened ZincMeaning
  import opened ZincTerms
  import opened ZincPrims

  function Num(n: int): Value {
    Atomic(Number(n))
  }

  /** loop n acc = if n <= 0 then acc else loop (n - 1) (acc + n); the last parameter is variable 0. */
  const BODY := If(Op("<=", [Var(1), Literal(Number(0))]), Var(0), NEXT)
  const NEXT := Call(Global("loop"), [Op("-", [Var(1), Literal(Number(1))]), Op("+", [Var(0), Var(1)])])

  function Start(n: int): Expr {
    Call(Global("loop"), [Literal(Number(n)), Literal(Number(0))])
  }

  function Globals(): map<string, Value> {
    map["loop" := Closure(2, BODY, [])]
  }

  function Sum(n: nat): nat {
    if n == 0 then 0 else n + Sum(n - 1)
  }

  lemma OpMeans(name: string, a: Expr, b: Expr, m: int, n: int, env: seq<Value>, tail: bool,
                globals: map<string, Value>,
                depth: nat, fuel: nat)
    requires name in BINARY
    requires Eval(a, env, false, Standard(globals), depth, fuel) == Some(Num(m))
    requires Eval(b, env, false, Standard(globals), depth, fuel) == Some(Num(n))
    ensures Eval(Op(name, [a, b]), env, tail, Standard(globals), depth, fuel) == Binary(name, Num(m), Num(n))
  {
    hide Binary, BINARY, UNARY;
    var e := Op(name, [a, b]);
    TwoArgs(e, a, b, env, Standard(globals), depth, fuel);
    hide EvalArgs;
    assert Prims(name, [Num(m), Num(n)]) == Binary(name, Num(m), Num(n)) by { OneArity(name); }
  }

  lemma Names()
    ensures "<=" in BINARY && "-" in BINARY && "+" in BINARY
  {
  }

  lemma VarsMean(m: int, n: int, tail: bool, src: Source, depth: nat, fuel: nat)
    ensures Eval(Var(1), [Num(m), Num(n)], tail, src, depth, fuel) == Some(Num(m))
    ensures Eval(Var(0), [Num(m), Num(n)], tail, src, depth, fuel) == Some(Num(n))
  {
  }

  /** A call of the loop, which returns the result and keeps no frame, or waits for it. */
  lemma CallMeans(a: Expr, b: Expr, m: int, n: int, env: seq<Value>, tail: bool, depth: nat, fuel: nat)
    requires Eval(a, env, false, Standard(Globals()), depth, fuel + 1) == Some(Num(m))
    requires Eval(b, env, false, Standard(Globals()), depth, fuel + 1) == Some(Num(n))
    requires !tail ==> depth > 0
    ensures Eval(Call(Global("loop"), [a, b]), env, tail, Standard(Globals()), depth, fuel + 1) ==
      Eval(BODY, [Num(m), Num(n)], true, Standard(Globals()), if tail then depth else depth - 1, fuel)
  {
    var e, src := Call(Global("loop"), [a, b]), Standard(Globals());
    TwoArgs(e, a, b, env, src, depth, fuel + 1);
    hide EvalArgs, BODY, Num;
    assert Eval(Global("loop"), env, false, src, depth, fuel + 1) == Some(Closure(2, BODY, []));
    assert [] + [Num(m), Num(n)] == [Num(m), Num(n)];
  }

  /** No call waits. */
  lemma {:induction false} LoopMeans(n: nat, acc: nat, fuel: nat)
    requires n <= fuel && acc + Sum(n) <= MOST
    ensures Eval(BODY, [Num(n), Num(acc)], true, Standard(Globals()), 0, fuel) == Some(Num(acc + Sum(n)))
    decreases n
  {
    hide BINARY, UNARY, Standard, Globals;
    Names();
    var src, env := Standard(Globals()), [Num(n), Num(acc)];
    VarsMean(n, acc, false, src, 0, fuel);
    VarsMean(n, acc, true, src, 0, fuel);
    OpMeans("<=", Var(1), Literal(Number(0)), n, 0, env, false, Globals(), 0, fuel);
    Branch(n <= 0, env, src, fuel);
    if n > 0 {
      OpMeans("-", Var(1), Literal(Number(1)), n, 1, env, false, Globals(), 0, fuel);
      OpMeans("+", Var(0), Var(1), acc, n, env, false, Globals(), 0, fuel);
      CallMeans(NEXT.args[0], NEXT.args[1], n - 1, acc + n, env, true, 0, fuel - 1);
      LoopMeans(n - 1, acc + n, fuel - 1);
    }
  }

  lemma Branch(b: bool, env: seq<Value>, src: Source, fuel: nat)
    requires Eval(Op("<=", [Var(1), Literal(Number(0))]), env, false, src, 0, fuel) == Some(Atomic(Truth(b)))
    ensures Eval(BODY, env, true, src, 0, fuel) == Eval(if b then Var(0) else NEXT, env, true, src, 0, fuel)
  {
    hide EvalArgs, NEXT;
  }

  /** The machine computes the sum, for all n for which it has 64 bits, with one frame. */
  lemma LoopRuns(n: nat) returns (steps: nat)
    requires n * (n + 1) / 2 <= MOST
    ensures Steps(State(Snippet(Start(n)), 0, [], [], Nil, []), Equipped(Globals()), steps) ==
      Done(Plain(Number(n * (n + 1) / 2)))
  {
    hide Steps, Snippet, Prims, CellPrims, BODY, NEXT, Eval, Globals, Standard, Equipped;
    Gauss(n);
    StandardModels(Globals());
    LiteralsMean(n, Standard(Globals()), n + 1);
    CallMeans(Literal(Number(n)), Literal(Number(0)), n, 0, [], false, 1, n);
    LoopMeans(n, 0, n);
    steps := ProgramRuns(Start(n), 1, n + 1, Equipped(Globals()), Standard(Globals()));
    EmitNum(n * (n + 1) / 2);
  }

  lemma EmitNum(n: int)
    ensures Emit(Num(n)) == Plain(Number(n))
  {
  }

  lemma LiteralsMean(n: int, src: Source, fuel: nat)
    ensures Eval(Literal(Number(n)), [], false, src, 1, fuel) == Some(Num(n))
    ensures Eval(Literal(Number(0)), [], false, src, 1, fuel) == Some(Num(0))
  {
  }

  lemma {:induction false} Gauss(n: nat)
    ensures Sum(n) == n * (n + 1) / 2
  {
    if n > 0 { Gauss(n - 1); }
  }
}
