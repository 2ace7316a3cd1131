/** The laws of expressions: what binding, branching and calling mean, in terms of each other. */
module ZincTerms {
  import opened Wrappers
  import opened ZincCode
  import opened ZincMachine
  import opened ZincMeaning

  /** The innermost variable of a binding is what was bound, and the others are those outside. */
  lemma Variables(a: Expr, i: nat, env: seq<Value>, tail: bool, src: Source, depth: nat, fuel: nat)
    requires Eval(a, env, false, src, depth, fuel).Some?
    ensures Eval(Let(a, Var(0)), env, tail, src, depth, fuel) == Eval(a, env, false, src, depth, fuel)
    ensures Eval(Let(a, Var(i + 1)), env, tail, src, depth, fuel) == Eval(Var(i), env, tail, src, depth, fuel)
  {
    var v := Eval(a, env, false, src, depth, fuel).value;
    assert |env + [v]| == |env| + 1;
  }

  /** A condition chooses, and only a truth value can. */
  lemma Branches(b: bool, c: Expr, yes: Expr, no: Expr, env: seq<Value>, tail: bool, src: Source, depth: nat, fuel: nat)
    ensures Eval(If(Literal(Truth(b)), yes, no), env, tail, src, depth, fuel) ==
      Eval(if b then yes else no, env, tail, src, depth, fuel)
    ensures Eval(If(c, yes, no), env, tail, src, depth, fuel).Some? ==>
      Eval(c, env, false, src, depth, fuel) in {Some(Atomic(Truth(true))), Some(Atomic(Truth(false)))}
  {
    assert Eval(Literal(Truth(b)), env, false, src, depth, fuel) == Some(Atomic(Truth(b)));
  }

  /** Calling a function of one parameter is binding its argument around its body. */
  lemma CallBinds(body: Expr, a: Expr, env: seq<Value>, src: Source, depth: nat, fuel: nat)
    requires Eval(Let(a, body), env, true, src, depth, fuel).Some?
    ensures Eval(Call(Lam(1, body), [a]), env, false, src, depth + 1, fuel + 1) ==
      Eval(Let(a, body), env, true, src, depth, fuel)
    ensures Eval(Call(Lam(1, body), [a]), env, true, src, depth, fuel + 1) ==
      Eval(Let(a, body), env, true, src, depth, fuel)
  {
    var e := Call(Lam(1, body), [a]);
    var v := Eval(a, env, false, src, depth, fuel).value;
    OneArg(e, a, v, env, src, depth, fuel, depth, fuel + 1);
    OneArg(e, a, v, env, src, depth, fuel, depth + 1, fuel + 1);
    hide EvalArgs;
    assert e.args[0] == a && |e.args| == 1;
  }

  lemma OneArg(e: Expr, a: Expr, v: Value, env: seq<Value>, src: Source, depth: nat, fuel: nat, depth': nat,
               fuel': nat)
    requires e.Call? && e.args == [a] && Eval(a, env, false, src, depth, fuel) == Some(v)
    requires depth <= depth' && fuel <= fuel'
    ensures EvalArgs(e, 1, env, src, depth', fuel') == Some([v])
  {
    EvalMore(a, env, false, src, depth, fuel, false, depth', fuel');
    hide Eval;
    assert e.args[0] == a;
    assert EvalArgs(e, 0, env, src, depth', fuel') == Some([]);
    assert [] + [v] == [v];
  }

  /** Calling one of two parameters binds the first argument outside and the second inside; they are found
      from the last to the first, in the environment of the call. */
  lemma CallBindsTwo(body: Expr, a: Expr, b: Expr, v: Value, u: Value, env: seq<Value>, src: Source, depth: nat,
                     fuel: nat)
    requires Eval(a, env, false, src, depth, fuel) == Some(v) && Eval(b, env, false, src, depth, fuel) == Some(u)
    ensures Eval(Call(Lam(2, body), [a, b]), env, true, src, depth, fuel + 1) ==
      Eval(body, env + [v, u], true, src, depth, fuel)
  {
    var e := Call(Lam(2, body), [a, b]);
    EvalMore(a, env, false, src, depth, fuel, false, depth, fuel + 1);
    EvalMore(b, env, false, src, depth, fuel, false, depth, fuel + 1);
    TwoArgs(e, a, b, env, src, depth, fuel + 1);
    hide EvalArgs;
    assert |e.args| == 2;
  }

  lemma TwoArgs(e: Expr, a: Expr, b: Expr, env: seq<Value>, src: Source, depth: nat, fuel: nat)
    requires (e.Op? || e.Call?) && e.args == [a, b]
    requires Eval(a, env, false, src, depth, fuel).Some? && Eval(b, env, false, src, depth, fuel).Some?
    ensures EvalArgs(e, 2, env, src, depth, fuel) ==
      Some([Eval(a, env, false, src, depth, fuel).value, Eval(b, env, false, src, depth, fuel).value])
  {
    hide Eval;
    var va, vb := Eval(a, env, false, src, depth, fuel).value, Eval(b, env, false, src, depth, fuel).value;
    assert e.args[1] == b && e.args[0] == a;
    assert EvalArgs(e, 0, env, src, depth, fuel) == Some([]);
    assert [] + [va] == [va] && [va] + [vb] == [va, vb];
    assert EvalArgs(e, 1, env, src, depth, fuel) == Some([va]);
  }
}
