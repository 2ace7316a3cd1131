/** The source of the machine's code: expressions, the instructions they are laid out as, and the
    values on both sides. */
module ZincCode {

  /** Variables are numbered from the innermost.  Primitives are applied to all their arguments. */
  datatype Expr =
    | Literal(value: Atom)
    | Var(index: nat)
    | Global(name: string)
    | Let(bound: Expr, body: Expr)
    | If(cond: Expr, yes: Expr, no: Expr)
    | Op(name: string, args: seq<Expr>)
    | Lam(arity: nat, body: Expr)
    | Call(fn: Expr, args: seq<Expr>)

  datatype Atom = Number(n: int) | Text(s: string) | Symbol(name: string) | Truth(b: bool)

  /** What expressions mean.  An environment lists its innermost variable last. */
  datatype Value = Atomic(a: Atom) | Empty | Cons(head: Value, tail: Value) | Closure(arity: nat, body: Expr,
    env: seq<Value>)

  /** Jump targets are positions in the list that the jump is in. */
  datatype Instr =
    | LOAD(value: Atom)
    | PRIM(name: string)
    | PUSHMARK
    | GRAB
    | APPLY
    | RETURN
    | ACCESS(index: nat)
    | GLOBAL(name: string)
    | LET
    | ENDLET
    | JMP(target: nat)
    | JMPF(target: nat)
    | CUR(code: seq<Instr>)
    | APPTERM

  datatype Cell = Plain(a: Atom) | Nil | Pair(head: Cell, tail: Cell) | Lambda(code: seq<Instr>, env: seq<Cell>) | Mark

  // ----- the layout -----

  /** The code of an expression at position `base`. */
  function Code(e: Expr, base: nat): seq<Instr>
    decreases e, 1
  {
    match e
    case Literal(a) => [LOAD(a)]
    case Var(i) => [ACCESS(i)]
    case Global(name) => [GLOBAL(name)]
    case Let(bound, body) =>
      var c := Code(bound, base);
      c + [LET] + Code(body, base + |c| + 1) + [ENDLET]
    case If(cond, yes, no) =>
      var c := Code(cond, base);
      var y := Code(yes, base + |c| + 1);
      var n := Code(no, base + |c| + |y| + 2);
      c + [JMPF(base + |c| + |y| + 2)] + y + [JMP(base + |c| + |y| + 2 + |n|)] + n
    case Op(name, args) => Args(e, |args|, base) + [PRIM(name)]
    case Lam(arity, body) => [CUR(LambdaCode(arity, body))]
    case Call(fn, args) =>
      var c := Args(e, |args|, base + 1);
      [PUSHMARK] + c + Code(fn, base + 1 + |c|) + [APPLY]
  }

  /** The arguments from the last to the first. */
  function Args(e: Expr, n: nat, base: nat): seq<Instr>
    requires (e.Op? || e.Call?) && n <= |e.args|
    decreases e, 0, n
  {
    if n == 0 then []
    else
      var c := Code(e.args[n - 1], base);
      c + Args(e, n - 1, base + |c|)
  }

  /** The code of an expression whose value is returned. */
  function TailCode(e: Expr, base: nat): seq<Instr>
    decreases e, 2
  {
    match e
    case Let(bound, body) =>
      var c := Code(bound, base);
      c + [LET] + TailCode(body, base + |c| + 1)
    case If(cond, yes, no) =>
      var c := Code(cond, base);
      var y := TailCode(yes, base + |c| + 1);
      var n := TailCode(no, base + |c| + |y| + 2);
      c + [JMPF(base + |c| + |y| + 2)] + y + [JMP(base + |c| + |y| + 2 + |n|)] + n
    case Call(fn, args) =>
      if args == [] then Code(e, base)
      else
        var c := Args(e, |args|, base + 1);
        [PUSHMARK] + c + Code(fn, base + 1 + |c|) + [APPTERM]
    case _ => Code(e, base)
  }

  function Grabs(n: nat): (s: seq<Instr>)
    ensures |s| == n && forall i :: 0 <= i < n ==> s[i] == GRAB
  {
    seq(n, _ => GRAB)
  }

  /** A function: one grab less than it has parameters, the body, and a return. */
  function LambdaCode(arity: nat, body: Expr): seq<Instr>
    decreases body, 3
  {
    var grabs := if arity == 0 then 0 else arity - 1;
    Grabs(grabs) + TailCode(body, grabs) + [RETURN]
  }

  // ----- values on the machine -----

  function Emit(v: Value): Cell
    decreases v
  {
    match v
    case Atomic(a) => Plain(a)
    case Empty => Nil
    case Cons(h, t) => Pair(Emit(h), Emit(t))
    case Closure(arity, body, env) => Lambda(LambdaCode(arity, body), seq(|env|, i
      requires 0 <= i < |env| => Emit(env[i])))
  }

  function EmitAll(vs: seq<Value>): (cs: seq<Cell>)
    ensures |cs| == |vs| && forall i :: 0 <= i < |vs| ==> cs[i] == Emit(vs[i])
  {
    seq(|vs|, i requires 0 <= i < |vs| => Emit(vs[i]))
  }

  function EmitGlobals(globals: map<string, Value>): (g: map<string, Cell>)
    ensures g.Keys == globals.Keys && forall name :: name in globals ==> g[name] == Emit(globals[name])
  {
    map name | name in globals :: Emit(globals[name])
  }

  lemma EmitPlus(vs: seq<Value>, v: Value)
    ensures EmitAll(vs + [v]) == EmitAll(vs) + [Emit(v)]
  {
  }

  lemma EmitJoin(vs: seq<Value>, ws: seq<Value>)
    ensures EmitAll(vs + ws) == EmitAll(vs) + EmitAll(ws)
  {
  }

  lemma EmitClosure(arity: nat, body: Expr, env: seq<Value>)
    ensures Emit(Closure(arity, body, env)) == Lambda(LambdaCode(arity, body), EmitAll(env))
  {
  }
}
