/** What expressions mean, and that the machine computes it. */
module ZincMeaning {
  import opened Wrappers
  import opened ZincCode
  import opened ZincMachine

  // ----- the meaning -----

  /** Globals, and what primitives compute. */
  datatype Source = Source(globals: map<string, Value>, prims: (string, seq<Value>) -> Option<Value>)

  /** The meaning of an expression, when it has one within `fuel` nested calls and `depth` calls that
      wait for their results; a call whose result is returned does not wait. */
  function Eval(e: Expr, env: seq<Value>, tail: bool, src: Source, depth: nat, fuel: nat): Option<Value>
    decreases fuel, e, 1
  {
    match e
    case Literal(a) => Some(Atomic(a))
    case Var(i) => if i < |env| then Some(env[|env| - 1 - i]) else None
    case Global(name) => if name in src.globals then Some(src.globals[name]) else None
    case Let(bound, body) =>
      var v := Eval(bound, env, false, src, depth, fuel);
      if v.None? then None else Eval(body, env + [v.value], tail, src, depth, fuel)
    case If(cond, yes, no) =>
      var v := Eval(cond, env, false, src, depth, fuel);
      if v.None? then None
      else if v.value == Atomic(Truth(true)) then Eval(yes, env, tail, src, depth, fuel)
      else if v.value == Atomic(Truth(false)) then Eval(no, env, tail, src, depth, fuel)
      else None
    case Op(name, args) =>
      var vs := EvalArgs(e, |args|, env, src, depth, fuel);
      if vs.None? then None else src.prims(name, vs.value)
    case Lam(arity, body) => Some(Closure(arity, body, env))
    case Call(fn, args) =>
      var vs := EvalArgs(e, |args|, env, src, depth, fuel);
      if vs.None? then None
      else
        var f := Eval(fn, env, false, src, depth, fuel);
        var kept := tail && args != [];
        if f.None? || !f.value.Closure? || f.value.arity != |args| || |args| > MAX_ARGS || fuel == 0 then None
        else if kept then Eval(f.value.body, f.value.env + vs.value, true, src, depth, fuel - 1)
        else if depth == 0 then None
        else Eval(f.value.body, f.value.env + vs.value, true, src, depth - 1, fuel - 1)
  }

  /** The values of the last n arguments... are found first; the list is that of the first n. */
  function EvalArgs(e: Expr, n: nat, env: seq<Value>, src: Source, depth: nat, fuel: nat): (vs: Option<seq<Value>>)
    requires (e.Op? || e.Call?) && n <= |e.args|
    ensures vs.Some? ==> |vs.value| == n
    decreases fuel, e, 0, n
  {
    if n == 0 then Some([])
    else
      var v := Eval(e.args[n - 1], env, false, src, depth, fuel);
      if v.None? then None
      else
        var vs := EvalArgs(e, n - 1, env, src, depth, fuel);
        if vs.None? then None else Some(vs.value + [v.value])
  }

  /** The machine's globals and primitives are those of the source; a primitive takes as many cells
      as it has arguments and does not look into functions. */
  ghost predicate Models(w: World, src: Source) {
    && w.globals == EmitGlobals(src.globals)
    && forall name, vs :: src.prims(name, vs).Some? ==>
      w.arity(name) == |vs| && w.prims(name, EmitAll(vs)) == Some(Emit(src.prims(name, vs).value))
  }

  // ----- code in place -----

  ghost predicate Holds(code: seq<Instr>, at: nat, part: seq<Instr>) {
    at + |part| <= |code| && code[at..at + |part|] == part
  }

  lemma HoldsParts(code: seq<Instr>, at: nat, a: seq<Instr>, b: seq<Instr>)
    requires Holds(code, at, a + b)
    ensures Holds(code, at, a) && Holds(code, at + |a|, b)
  {
    assert code[at..at + |a + b|][..|a|] == a && code[at..at + |a + b|][|a|..] == b;
  }

  lemma HoldsOne(code: seq<Instr>, at: nat, i: Instr)
    requires Holds(code, at, [i])
    ensures at < |code| && code[at] == i
  {
    assert code[at..at + 1][0] == i;
  }

  /** From here the machine returns: at a return, or at a jump forward to such a place. */
  ghost predicate Ends(code: seq<Instr>, at: nat)
    decreases |code| - at
  {
    at < |code| && (code[at] == RETURN || (code[at].JMP? && code[at].target > at && Ends(code, code[at].target)))
  }

  /** The state after a value has been computed. */
  function After(s: State, n: nat, v: Cell): State {
    State(s.code, s.pc + n, s.env, s.stack + [v], v, s.frames)
  }

  /** The state after a value has been returned. */
  function Returned(s: State, v: Cell): State
    requires s.frames != []
  {
    var f := s.frames[|s.frames| - 1];
    State(f.code, f.pc, f.env, f.stack + [v], v, s.frames[..|s.frames| - 1])
  }

  ghost predicate Ready(s: State, env: seq<Value>, depth: nat, w: World, src: Source) {
    Models(w, src) && s.env == EmitAll(env) && |s.frames| + depth <= CALL_STACK_DEPTH
  }

  lemma {:induction false} EndsReturns(s: State, v: Cell, w: World)
    requires Ends(s.code, s.pc) && s.acc == v && s.frames != []
    ensures Reaches(s, Returned(s, v), w)
    decreases |s.code| - s.pc
  {
    if s.code[s.pc] == RETURN {
      ReachesStep(s, Returned(s, v), w);
    } else {
      var t := State(s.code, s.code[s.pc].target, s.env, s.stack, s.acc, s.frames);
      ReachesStep(s, t, w);
      EndsReturns(t, v, w);
      ReachesThen(s, t, Returned(s, v), w);
    }
  }

  // ----- what code and meaning are made of -----

  lemma LetIs(e: Expr, base: nat, env: seq<Value>, tail: bool, src: Source, depth: nat, fuel: nat)
    requires e.Let? && Eval(e, env, tail, src, depth, fuel).Some?
    ensures var c := Code(e.bound, base);
      Code(e, base) == c + [LET] + Code(e.body, base + |c| + 1) + [ENDLET] &&
      TailCode(e, base) == c + [LET] + TailCode(e.body, base + |c| + 1)
    ensures var v := Eval(e.bound, env, false, src, depth, fuel);
      v.Some? && Eval(e, env, tail, src, depth, fuel) == Eval(e.body, env + [v.value], tail, src, depth, fuel)
  {
  }

  lemma IfIs(e: Expr, base: nat, env: seq<Value>, tail: bool, src: Source, depth: nat, fuel: nat) returns (b: bool)
    requires e.If? && Eval(e, env, tail, src, depth, fuel).Some?
    ensures var c := Code(e.cond, base);
      var y := Code(e.yes, base + |c| + 1);
      var no := base + |c| + |y| + 2;
      var n := Code(e.no, no);
      Code(e, base) == c + [JMPF(no)] + y + [JMP(no + |n|)] + n
    ensures var c := Code(e.cond, base);
      var y := TailCode(e.yes, base + |c| + 1);
      var no := base + |c| + |y| + 2;
      var n := TailCode(e.no, no);
      TailCode(e, base) == c + [JMPF(no)] + y + [JMP(no + |n|)] + n
    ensures Eval(e.cond, env, false, src, depth, fuel) == Some(Atomic(Truth(b)))
    ensures Eval(e, env, tail, src, depth, fuel) == Eval(if b then e.yes else e.no, env, tail, src, depth, fuel)
  {
    IfLaidOut(e, base);
    IfReturned(e, base);
    hide Code, TailCode;
    b := Eval(e.cond, env, false, src, depth, fuel).value == Atomic(Truth(true));
  }

  lemma IfLaidOut(e: Expr, base: nat)
    requires e.If?
    ensures var c := Code(e.cond, base);
      var y := Code(e.yes, base + |c| + 1);
      var no := base + |c| + |y| + 2;
      var n := Code(e.no, no);
      Code(e, base) == c + [JMPF(no)] + y + [JMP(no + |n|)] + n
  {
  }

  lemma IfReturned(e: Expr, base: nat)
    requires e.If?
    ensures var c := Code(e.cond, base);
      var y := TailCode(e.yes, base + |c| + 1);
      var no := base + |c| + |y| + 2;
      var n := TailCode(e.no, no);
      TailCode(e, base) == c + [JMPF(no)] + y + [JMP(no + |n|)] + n
  {
    hide Code;
  }

  lemma CallIs(e: Expr, base: nat, env: seq<Value>, tail: bool, src: Source, depth: nat, fuel: nat)
    requires e.Call? && Eval(e, env, tail, src, depth, fuel).Some?
    ensures var c := Args(e, |e.args|, base + 1);
      && Code(e, base) == [PUSHMARK] + c + Code(e.fn, base + 1 + |c|) + [APPLY]
      && (e.args != [] ==> TailCode(e, base) == [PUSHMARK] + c + Code(e.fn, base + 1 + |c|) + [APPTERM])
    ensures var vs, f := EvalArgs(e, |e.args|, env, src, depth, fuel), Eval(e.fn, env, false, src, depth, fuel);
      && vs.Some? && f.Some? && f.value.Closure? && f.value.arity == |e.args| <= MAX_ARGS && fuel > 0
      && var kept := tail && e.args != [];
      (!kept ==> depth > 0) &&
      Eval(e, env, tail, src, depth, fuel) ==
        Eval(f.value.body, f.value.env + vs.value, true, src, if kept then depth else depth - 1, fuel - 1)
  {
  }

  lemma ArgsAre(e: Expr, n: nat, base: nat, env: seq<Value>, src: Source, depth: nat, fuel: nat)
    requires (e.Op? || e.Call?) && 0 < n <= |e.args| && EvalArgs(e, n, env, src, depth, fuel).Some?
    ensures var c := Code(e.args[n - 1], base); Args(e, n, base) == c + Args(e, n - 1, base + |c|)
    ensures var v, vs := Eval(e.args[n - 1], env, false, src, depth, fuel), EvalArgs(e, n - 1, env, src, depth, fuel);
      v.Some? && vs.Some? && EvalArgs(e, n, env, src, depth, fuel).value == vs.value + [v.value]
  {
  }

  // ----- the machine computes the meaning -----

  /** Code of an expression pushes its value; environment and frames are as before. */
  lemma {:induction false} CodeRuns(e: Expr, s: State, env: seq<Value>, depth: nat, fuel: nat, w: World, src: Source)
    requires Ready(s, env, depth, w, src) && Holds(s.code, s.pc, Code(e, s.pc))
    requires Eval(e, env, false, src, depth, fuel).Some?
    ensures Reaches(s, After(s, |Code(e, s.pc)|, Emit(Eval(e, env, false, src, depth, fuel).value)), w)
    decreases fuel, e, 2
  {
    hide Reaches, Models, LambdaCode, TailCode;
    match e
    case Literal(_) => HoldsOne(s.code, s.pc, Code(e, s.pc)[0]); ReachesStep(s, After(s, 1, Emit(Atomic(e.value))), w);
    case Var(i) =>
      HoldsOne(s.code, s.pc, ACCESS(i));
      ReachesStep(s, After(s, 1, Emit(env[|env| - 1 - i])), w);
    case Global(name) =>
      HoldsOne(s.code, s.pc, GLOBAL(name));
      GlobalIs(w, src, name);
      ReachesStep(s, After(s, 1, Emit(src.globals[name])), w);
    case Let(_, _) => LetRuns(e, s, env, depth, fuel, w, src);
    case If(_, _, _) => IfRuns(e, s, env, depth, fuel, w, src);
    case Op(_, _) => OpRuns(e, s, env, depth, fuel, w, src);
    case Lam(arity, body) =>
      HoldsOne(s.code, s.pc, CUR(LambdaCode(arity, body)));
      EmitClosure(arity, body, env);
      ReachesStep(s, After(s, 1, Emit(Closure(arity, body, env))), w);
    case Call(_, _) => CallRuns(e, s, env, depth, fuel, w, src);
  }

  lemma GlobalIs(w: World, src: Source, name: string)
    requires Models(w, src) && name in src.globals
    ensures name in w.globals && w.globals[name] == Emit(src.globals[name])
  {
  }

  /** A let pushes its value on the environment. */
  lemma {:induction false} BoundRuns(e: Expr, s: State, env: seq<Value>, depth: nat, fuel: nat, w: World, src: Source)
    returns (t: State)
    requires Ready(s, env, depth, w, src) && e.Let? && Holds(s.code, s.pc, Code(e.bound, s.pc) + [LET])
    requires Eval(e.bound, env, false, src, depth, fuel).Some?
    ensures var v := Eval(e.bound, env, false, src, depth, fuel).value;
      Reaches(s, t, w) && Ready(t, env + [v], depth, w, src) &&
      t == State(s.code, s.pc + |Code(e.bound, s.pc)| + 1, s.env + [Emit(v)], s.stack, Emit(v), s.frames)
    decreases fuel, e, 0
  {
    hide Step, Reaches, Models, Code, Eval;
    var c := Code(e.bound, s.pc);
    var v := Eval(e.bound, env, false, src, depth, fuel).value;
    HoldsParts(s.code, s.pc, c, [LET]);
    CodeRuns(e.bound, s, env, depth, fuel, w, src);
    var u := After(s, |c|, Emit(v));
    HoldsOne(s.code, u.pc, LET);
    t := State(s.code, s.pc + |c| + 1, s.env + [Emit(v)], s.stack, Emit(v), s.frames);
    assert Pop(u.stack) == s.stack;
    LetReaches(u, w);
    ReachesThen(s, u, t, w);
    EmitPlus(env, v);
  }

  lemma {:induction false} LetRuns(e: Expr, s: State, env: seq<Value>, depth: nat, fuel: nat, w: World, src: Source)
    requires Ready(s, env, depth, w, src) && e.Let? && Holds(s.code, s.pc, Code(e, s.pc))
    requires Eval(e, env, false, src, depth, fuel).Some?
    ensures Reaches(s, After(s, |Code(e, s.pc)|, Emit(Eval(e, env, false, src, depth, fuel).value)), w)
    decreases fuel, e, 1
  {
    hide Step, Reaches, Models, Code, TailCode, Eval;
    LetIs(e, s.pc, env, false, src, depth, fuel);
    var c := Code(e.bound, s.pc);
    var b := Code(e.body, s.pc + |c| + 1);
    HoldsParts(s.code, s.pc, c + [LET] + b, [ENDLET]);
    HoldsParts(s.code, s.pc, c + [LET], b);
    var v := Eval(e.bound, env, false, src, depth, fuel).value;
    var r := Eval(e.body, env + [v], false, src, depth, fuel).value;
    var t := BoundRuns(e, s, env, depth, fuel, w, src);
    CodeRuns(e.body, t, env + [v], depth, fuel, w, src);
    var u := After(t, |b|, Emit(r));
    HoldsOne(s.code, u.pc, ENDLET);
    var z := After(s, |c| + 1 + |b| + 1, Emit(r));
    assert Pop(u.env) == s.env;
    EndLetReaches(u, w);
    ReachesThen(s, t, u, w);
    ReachesThen(s, u, z, w);
  }

  /** A condition jumps to the branch that it selects. */
  lemma {:induction false} CondRuns(e: Expr, s: State, env: seq<Value>, depth: nat, fuel: nat, w: World, src: Source,
                                    target: nat, b: bool)
    returns (t: State)
    requires Ready(s, env, depth, w, src) && e.If? && Holds(s.code, s.pc, Code(e.cond, s.pc) + [JMPF(target)])
    requires Eval(e.cond, env, false, src, depth, fuel) == Some(Atomic(Truth(b)))
    ensures Reaches(s, t, w) && Ready(t, env, depth, w, src)
    ensures t.code == s.code && t.env == s.env && t.stack == s.stack && t.frames == s.frames
    ensures t.pc == if b then s.pc + |Code(e.cond, s.pc)| + 1 else target
    decreases fuel, e, 0
  {
    hide Step, Reaches, Models, Code, Eval;
    var c := Code(e.cond, s.pc);
    HoldsParts(s.code, s.pc, c, [JMPF(target)]);
    CodeRuns(e.cond, s, env, depth, fuel, w, src);
    var u := After(s, |c|, Plain(Truth(b)));
    HoldsOne(s.code, u.pc, JMPF(target));
    t := State(s.code, if b then s.pc + |c| + 1 else target, s.env, s.stack, Plain(Truth(b)), s.frames);
    assert Pop(u.stack) == s.stack;
    BranchReaches(u, target, b, w);
    ReachesThen(s, u, t, w);
  }

  lemma {:induction false} IfRuns(e: Expr, s: State, env: seq<Value>, depth: nat, fuel: nat, w: World, src: Source)
    requires Ready(s, env, depth, w, src) && e.If? && Holds(s.code, s.pc, Code(e, s.pc))
    requires Eval(e, env, false, src, depth, fuel).Some?
    ensures Reaches(s, After(s, |Code(e, s.pc)|, Emit(Eval(e, env, false, src, depth, fuel).value)), w)
    decreases fuel, e, 1
  {
    hide Step, Reaches, Models, Code, TailCode, Eval, Holds, Emit;
    var b := IfIs(e, s.pc, env, false, src, depth, fuel);
    var c := Code(e.cond, s.pc);
    var y := Code(e.yes, s.pc + |c| + 1);
    var no := s.pc + |c| + |y| + 2;
    var n := Code(e.no, no);
    var end := no + |n|;
    HoldsParts(s.code, s.pc, c + [JMPF(no)] + y + [JMP(end)], n);
    HoldsParts(s.code, s.pc, c + [JMPF(no)] + y, [JMP(end)]);
    HoldsParts(s.code, s.pc, c + [JMPF(no)], y);
    var r := Eval(e, env, false, src, depth, fuel).value;
    var t := CondRuns(e, s, env, depth, fuel, w, src, no, b);
    var z := After(s, |c| + |y| + 2 + |n|, Emit(r));
    if b {
      CodeRuns(e.yes, t, env, depth, fuel, w, src);
      var u := After(t, |y|, Emit(r));
      HoldsOne(s.code, u.pc, JMP(end));
      JumpReaches(u, end, w);
      ReachesThen(s, t, u, w);
      ReachesThen(s, u, z, w);
    } else {
      CodeRuns(e.no, t, env, depth, fuel, w, src);
      ReachesThen(s, t, z, w);
    }
  }

  // ----- arguments -----

  /** Cells pushed from the last to the first. */
  function Pushed(cs: seq<Cell>): (r: seq<Cell>)
    ensures |r| == |cs| && forall i :: 0 <= i < |cs| ==> r[i] == cs[|cs| - 1 - i]
  {
    seq(|cs|, i requires 0 <= i < |cs| => cs[|cs| - 1 - i])
  }

  lemma {:induction false} ArgsRun(e: Expr, n: nat, s: State, env: seq<Value>, depth: nat, fuel: nat, w: World,
                                   src: Source)
    returns (acc: Cell)
    requires Ready(s, env, depth, w, src) && (e.Op? || e.Call?) && n <= |e.args| &&
      Holds(s.code, s.pc, Args(e, n, s.pc))
    requires EvalArgs(e, n, env, src, depth, fuel).Some?
    ensures Reaches(s, State(s.code, s.pc + |Args(e, n, s.pc)|, s.env,
      s.stack + Pushed(EmitAll(EvalArgs(e, n, env, src, depth, fuel).value)), acc, s.frames), w)
    decreases fuel, e, 0, n
  {
    hide Step, Reaches, Models, Code, Eval;
    if n == 0 {
      acc := s.acc;
      assert s.stack + Pushed([]) == s.stack;
      ReachesSelf(s, w);
    } else {
      ArgsAre(e, n, s.pc, env, src, depth, fuel);
      hide Args, EvalArgs;
      var c := Code(e.args[n - 1], s.pc);
      HoldsParts(s.code, s.pc, c, Args(e, n - 1, s.pc + |c|));
      var v := Eval(e.args[n - 1], env, false, src, depth, fuel).value;
      var vs := EvalArgs(e, n - 1, env, src, depth, fuel).value;
      var all := EvalArgs(e, n, env, src, depth, fuel).value;
      CodeRuns(e.args[n - 1], s, env, depth, fuel, w, src);
      var t := After(s, |c|, Emit(v));
      acc := ArgsRun(e, n - 1, t, env, depth, fuel, w, src);
      assert s.stack + [Emit(v)] + Pushed(EmitAll(vs)) == s.stack + Pushed(EmitAll(all));
      ReachesThen(s, t, State(s.code, s.pc + |Args(e, n, s.pc)|, s.env, s.stack + Pushed(EmitAll(all)), acc,
        s.frames), w);
    }
  }

  lemma TopmostPushed(stack: seq<Cell>, cs: seq<Cell>)
    ensures Topmost(stack + Pushed(cs), |cs|) == cs && (stack + Pushed(cs))[..|stack|] == stack
  {
  }

  lemma {:induction false} OpRuns(e: Expr, s: State, env: seq<Value>, depth: nat, fuel: nat, w: World, src: Source)
    requires Ready(s, env, depth, w, src) && e.Op? && Holds(s.code, s.pc, Code(e, s.pc))
    requires Eval(e, env, false, src, depth, fuel).Some?
    ensures Reaches(s, After(s, |Code(e, s.pc)|, Emit(Eval(e, env, false, src, depth, fuel).value)), w)
    decreases fuel, e, 1
  {
    hide Reaches, Holds, Emit;
    var c := Args(e, |e.args|, s.pc);
    HoldsParts(s.code, s.pc, c, [PRIM(e.name)]);
    var vs := EvalArgs(e, |e.args|, env, src, depth, fuel).value;
    assert Eval(e, env, false, src, depth, fuel) == src.prims(e.name, vs);
    hide Eval, EvalArgs, Args;
    var acc := ArgsRun(e, |e.args|, s, env, depth, fuel, w, src);
    var t := State(s.code, s.pc + |c|, s.env, s.stack + Pushed(EmitAll(vs)), acc, s.frames);
    HoldsOne(s.code, t.pc, PRIM(e.name));
    TopmostPushed(s.stack, EmitAll(vs));
    var z := After(s, |c| + 1, Emit(src.prims(e.name, vs).value));
    ReachesStep(t, z, w);
    ReachesThen(s, t, z, w);
  }

  // ----- calls -----

  /** No value is a mark. */
  lemma NoMark(v: Value)
    ensures Emit(v) != Mark
  {
  }

  lemma {:induction false} AboveMark(stack: seq<Cell>, cs: seq<Cell>)
    requires forall i :: 0 <= i < |cs| ==> cs[i] != Mark
    ensures Above(stack + [Mark] + Pushed(cs)) == cs
  {
    var all := stack + [Mark] + Pushed(cs);
    if cs == [] {
      assert all == stack + [Mark];
    } else {
      assert Top(all) == cs[0];
      assert Pop(all) == stack + [Mark] + Pushed(cs[1..]);
      AboveMark(stack, cs[1..]);
      assert [cs[0]] + cs[1..] == cs;
    }
  }

  /** Up to the call: mark, arguments and function are on the stack. */
  lemma {:induction false} CalleeRuns(e: Expr, s: State, env: seq<Value>, depth: nat, fuel: nat, w: World, src: Source,
                                      last: Instr)
    returns (t: State)
    requires Ready(s, env, depth, w, src) && e.Call?
    requires var c := Args(e, |e.args|, s.pc + 1);
      Holds(s.code, s.pc, [PUSHMARK] + c + Code(e.fn, s.pc + 1 + |c|) + [last])
    requires EvalArgs(e, |e.args|, env, src, depth, fuel).Some? && Eval(e.fn, env, false, src, depth, fuel).Some?
    ensures var vs := EvalArgs(e, |e.args|, env, src, depth, fuel).value;
      var f := Eval(e.fn, env, false, src, depth, fuel).value;
      var c := Args(e, |e.args|, s.pc + 1);
      && Reaches(s, t, w) && t.pc == s.pc + 1 + |c| + |Code(e.fn, s.pc + 1 + |c|)| && t.pc < |s.code| &&
        s.code[t.pc] == last
      && t == State(s.code, t.pc, s.env, s.stack + [Mark] + Pushed(EmitAll(vs)) + [Emit(f)], Emit(f), s.frames)
    decreases fuel, e, 0, |e.args| + 1
  {
    hide Step, Reaches, Models, Code, Args, Eval, EvalArgs;
    var c := Args(e, |e.args|, s.pc + 1);
    var d := Code(e.fn, s.pc + 1 + |c|);
    HoldsParts(s.code, s.pc, [PUSHMARK] + c + d, [last]);
    HoldsParts(s.code, s.pc, [PUSHMARK] + c, d);
    HoldsParts(s.code, s.pc, [PUSHMARK], c);
    HoldsOne(s.code, s.pc, PUSHMARK);
    HoldsOne(s.code, s.pc + 1 + |c| + |d|, last);
    var vs := EvalArgs(e, |e.args|, env, src, depth, fuel).value;
    var f := Eval(e.fn, env, false, src, depth, fuel).value;
    var s1 := State(s.code, s.pc + 1, s.env, s.stack + [Mark], s.acc, s.frames);
    MarkReaches(s, w);
    var acc := ArgsRun(e, |e.args|, s1, env, depth, fuel, w, src);
    var s2 := State(s.code, s.pc + 1 + |c|, s.env, s.stack + [Mark] + Pushed(EmitAll(vs)), acc, s.frames);
    CodeRuns(e.fn, s2, env, depth, fuel, w, src);
    t := After(s2, |d|, Emit(f));
    ReachesThen(s, s1, s2, w);
    ReachesThen(s, s2, t, w);
  }

  /** The call: a new frame, or none when the result is returned. */
  lemma CallSteps(t: State, stack: seq<Cell>, vs: seq<Value>, f: Value, term: bool, w: World)
    requires t.stack == stack + [Mark] + Pushed(EmitAll(vs)) + [Emit(f)] && f.Closure? && |vs| <= MAX_ARGS
    requires t.pc < |t.code| && t.code[t.pc] == if term then APPTERM else APPLY
    requires if term then vs != [] else |t.frames| < CALL_STACK_DEPTH
    ensures var u := State(LambdaCode(f.arity, f.body), 0, EmitAll(f.env + vs), if term then stack else [], Emit(f),
        if term then t.frames else t.frames + [Frame(t.code, t.pc + 1, t.env, stack)]);
      Step(t, w) == Next(u)
  {
    hide LambdaCode;
    var cs := EmitAll(vs);
    forall i | 0 <= i < |cs| ensures cs[i] != Mark { NoMark(vs[i]); }
    AboveMark(stack, cs);
    EmitClosure(f.arity, f.body, f.env);
    EmitJoin(f.env, vs);
    var under := stack + [Mark] + Pushed(cs);
    assert Top(t.stack) == Emit(f) && Pop(t.stack) == under;
    assert under[..|under| - |cs| - 1] == stack;
  }

  /** The grabs at the beginning of a function do nothing: the call has taken all arguments. */
  lemma {:induction false} GrabsRun(s: State, n: nat, w: World)
    requires s.stack == [] && s.pc <= n <= |s.code| && forall i :: s.pc <= i < n ==> s.code[i] == GRAB
    ensures Reaches(s, State(s.code, n, s.env, [], s.acc, s.frames), w)
    decreases n - s.pc
  {
    hide Reaches;
    if s.pc == n {
      ReachesSelf(s, w);
    } else {
      var t := State(s.code, s.pc + 1, s.env, [], s.acc, s.frames);
      ReachesStep(s, t, w);
      GrabsRun(t, n, w);
      ReachesThen(s, t, State(s.code, n, s.env, [], s.acc, s.frames), w);
    }
  }

  /** A function called with all its arguments returns what its body means. */
  lemma {:induction false} BodyRuns(f: Value, vs: seq<Value>, s: State, depth: nat, fuel: nat, w: World, src: Source)
    requires f.Closure? && s.code == LambdaCode(f.arity, f.body) && s.pc == 0 && s.stack == [] && s.frames != []
    requires Ready(s, f.env + vs, depth, w, src)
    requires Eval(f.body, f.env + vs, true, src, depth, fuel).Some?
    ensures Reaches(s, Returned(s, Emit(Eval(f.body, f.env + vs, true, src, depth, fuel).value)), w)
    decreases fuel, f.body, 5
  {
    hide Step, Reaches, Models, Eval, TailCode;
    var n := if f.arity == 0 then 0 else f.arity - 1;
    var c := TailCode(f.body, n);
    assert s.code == Grabs(n) + c + [RETURN];
    assert s.code[n..n + |c|] == c && s.code[n + |c|] == RETURN;
    GrabsRun(s, n, w);
    var t := State(s.code, n, s.env, [], s.acc, s.frames);
    TailRuns(f.body, t, f.env + vs, depth, fuel, w, src);
    ReachesThen(s, t, Returned(s, Emit(Eval(f.body, f.env + vs, true, src, depth, fuel).value)), w);
  }

  lemma {:induction false} CallRuns(e: Expr, s: State, env: seq<Value>, depth: nat, fuel: nat, w: World, src: Source)
    requires Ready(s, env, depth, w, src) && e.Call? && Holds(s.code, s.pc, Code(e, s.pc))
    requires Eval(e, env, false, src, depth, fuel).Some?
    ensures Reaches(s, After(s, |Code(e, s.pc)|, Emit(Eval(e, env, false, src, depth, fuel).value)), w)
    decreases fuel, e, 1
  {
    hide Step, Reaches, Models, LambdaCode, Code, TailCode, Args, Eval, EvalArgs;
    CallIs(e, s.pc, env, false, src, depth, fuel);
    var vs := EvalArgs(e, |e.args|, env, src, depth, fuel).value;
    var f := Eval(e.fn, env, false, src, depth, fuel).value;
    var r := Eval(e, env, false, src, depth, fuel).value;
    var c := Args(e, |e.args|, s.pc + 1);
    var d := Code(e.fn, s.pc + 1 + |c|);
    var t := CalleeRuns(e, s, env, depth, fuel, w, src, APPLY);
    CallSteps(t, s.stack, vs, f, false, w);
    var u := State(LambdaCode(f.arity, f.body), 0, EmitAll(f.env + vs), [], Emit(f),
                   t.frames + [Frame(t.code, t.pc + 1, t.env, s.stack)]);
    ReachesStep(t, u, w);
    BodyRuns(f, vs, u, depth - 1, fuel - 1, w, src);
    var z := After(s, 1 + |c| + |d| + 1, Emit(r));
    assert u.frames[..|u.frames| - 1] == s.frames;
    assert Returned(u, Emit(r)) == z;
    ReachesThen(s, t, u, w);
    ReachesThen(s, u, z, w);
  }

  // ----- results that are returned -----

  /** Code of an expression in tail position returns its value to the caller. */
  lemma {:induction false} TailRuns(e: Expr, s: State, env: seq<Value>, depth: nat, fuel: nat, w: World, src: Source)
    requires Ready(s, env, depth, w, src) && s.stack == [] && s.frames != []
    requires Holds(s.code, s.pc, TailCode(e, s.pc)) && Ends(s.code, s.pc + |TailCode(e, s.pc)|)
    requires Eval(e, env, true, src, depth, fuel).Some?
    ensures Reaches(s, Returned(s, Emit(Eval(e, env, true, src, depth, fuel).value)), w)
    decreases fuel, e, 4
  {
    hide Step, Reaches, Models, LambdaCode;
    match e {
      case Let(_, _) => LetReturns(e, s, env, depth, fuel, w, src);
      case If(_, _, _) => IfReturns(e, s, env, depth, fuel, w, src);
      case Call(_, args) =>
        if args == [] {
          PlainReturns(e, s, env, depth, fuel, w, src);
        } else {
          CallReturns(e, s, env, depth, fuel, w, src);
        }
      case _ => PlainReturns(e, s, env, depth, fuel, w, src);
    }
  }

  lemma {:induction false} PlainReturns(e: Expr, s: State, env: seq<Value>, depth: nat, fuel: nat, w: World,
                                        src: Source)
    requires Ready(s, env, depth, w, src) && s.stack == [] && s.frames != []
    requires Holds(s.code, s.pc, Code(e, s.pc)) && Ends(s.code, s.pc + |Code(e, s.pc)|)
    requires Eval(e, env, false, src, depth, fuel).Some?
    ensures Reaches(s, Returned(s, Emit(Eval(e, env, false, src, depth, fuel).value)), w)
    decreases fuel, e, 3
  {
    hide Step, Reaches, Models, Code, Eval, Ends;
    CodeRuns(e, s, env, depth, fuel, w, src);
    var v := Emit(Eval(e, env, false, src, depth, fuel).value);
    var t := After(s, |Code(e, s.pc)|, v);
    EndsReturns(t, v, w);
    ReachesThen(s, t, Returned(s, v), w);
  }

  lemma {:induction false} LetReturns(e: Expr, s: State, env: seq<Value>, depth: nat, fuel: nat, w: World, src: Source)
    requires Ready(s, env, depth, w, src) && e.Let? && s.stack == [] && s.frames != []
    requires Holds(s.code, s.pc, TailCode(e, s.pc)) && Ends(s.code, s.pc + |TailCode(e, s.pc)|)
    requires Eval(e, env, true, src, depth, fuel).Some?
    ensures Reaches(s, Returned(s, Emit(Eval(e, env, true, src, depth, fuel).value)), w)
    decreases fuel, e, 3
  {
    hide Step, Reaches, Models, Ends, Code, TailCode, Eval;
    LetIs(e, s.pc, env, true, src, depth, fuel);
    var c := Code(e.bound, s.pc);
    var b := TailCode(e.body, s.pc + |c| + 1);
    HoldsParts(s.code, s.pc, c + [LET], b);
    var v := Eval(e.bound, env, false, src, depth, fuel).value;
    var r := Eval(e.body, env + [v], true, src, depth, fuel).value;
    var t := BoundRuns(e, s, env, depth, fuel, w, src);
    TailRuns(e.body, t, env + [v], depth, fuel, w, src);
    ReachesThen(s, t, Returned(s, Emit(r)), w);
  }

  lemma {:induction false} IfReturns(e: Expr, s: State, env: seq<Value>, depth: nat, fuel: nat, w: World, src: Source)
    requires Ready(s, env, depth, w, src) && e.If? && s.stack == [] && s.frames != []
    requires Holds(s.code, s.pc, TailCode(e, s.pc)) && Ends(s.code, s.pc + |TailCode(e, s.pc)|)
    requires Eval(e, env, true, src, depth, fuel).Some?
    ensures Reaches(s, Returned(s, Emit(Eval(e, env, true, src, depth, fuel).value)), w)
    decreases fuel, e, 3
  {
    hide Step, Reaches, Models, Code, TailCode, Eval, Holds, Emit;
    var b := IfIs(e, s.pc, env, true, src, depth, fuel);
    var c := Code(e.cond, s.pc);
    var y := TailCode(e.yes, s.pc + |c| + 1);
    var no := s.pc + |c| + |y| + 2;
    var n := TailCode(e.no, no);
    var end := no + |n|;
    HoldsParts(s.code, s.pc, c + [JMPF(no)] + y + [JMP(end)], n);
    HoldsParts(s.code, s.pc, c + [JMPF(no)] + y, [JMP(end)]);
    HoldsParts(s.code, s.pc, c + [JMPF(no)], y);
    HoldsOne(s.code, s.pc + |c| + 1 + |y|, JMP(end));
    assert Ends(s.code, s.pc + |c| + 1 + |y|);
    var r := Eval(e, env, true, src, depth, fuel).value;
    hide Ends;
    var t := CondRuns(e, s, env, depth, fuel, w, src, no, b);
    if b { TailRuns(e.yes, t, env, depth, fuel, w, src); } else { TailRuns(e.no, t, env, depth, fuel, w, src); }
    ReachesThen(s, t, Returned(s, Emit(r)), w);
  }

  /** A call in tail position leaves the frames as they are: the function called returns to the caller
      of the one that calls. */
  lemma {:induction false} CallReturns(e: Expr, s: State, env: seq<Value>, depth: nat, fuel: nat, w: World, src: Source)
    requires Ready(s, env, depth, w, src) && e.Call? && e.args != [] && s.stack == [] && s.frames != []
    requires Holds(s.code, s.pc, TailCode(e, s.pc))
    requires Eval(e, env, true, src, depth, fuel).Some?
    ensures Reaches(s, Returned(s, Emit(Eval(e, env, true, src, depth, fuel).value)), w)
    decreases fuel, e, 3
  {
    hide Step, Reaches, Models, LambdaCode, Code, TailCode, Args, Eval, EvalArgs;
    CallIs(e, s.pc, env, true, src, depth, fuel);
    var vs := EvalArgs(e, |e.args|, env, src, depth, fuel).value;
    var f := Eval(e.fn, env, false, src, depth, fuel).value;
    var r := Eval(e, env, true, src, depth, fuel).value;
    var c := Args(e, |e.args|, s.pc + 1);
    var t := CalleeRuns(e, s, env, depth, fuel, w, src, APPTERM);
    CallSteps(t, s.stack, vs, f, true, w);
    var u := State(LambdaCode(f.arity, f.body), 0, EmitAll(f.env + vs), [], Emit(f), t.frames);
    ReachesStep(t, u, w);
    BodyRuns(f, vs, u, depth, fuel - 1, w, src);
    ReachesThen(s, t, u, w);
    ReachesThen(s, u, Returned(s, Emit(r)), w);
  }

  // ----- a program -----

  /** The call snippet of the driver: a call at top level, and a return. */
  function Snippet(e: Expr): seq<Instr> {
    Code(e, 0) + [RETURN]
  }

  /** Run from the beginning, the machine gives the value of the expression. */
  lemma ProgramRuns(e: Expr, depth: nat, fuel: nat, w: World, src: Source) returns (n: nat)
    requires Models(w, src) && depth <= CALL_STACK_DEPTH && Eval(e, [], false, src, depth, fuel).Some?
    ensures Steps(State(Snippet(e), 0, [], [], Nil, []), w, n) == Done(Emit(Eval(e, [], false, src, depth, fuel).value))
  {
    hide Models, Code, Eval;
    var s := State(Snippet(e), 0, [], [], Nil, []);
    var c := Code(e, 0);
    assert s.code[0..|c|] == c && s.code[|c|] == RETURN;
    assert EmitAll([]) == [];
    CodeRuns(e, s, [], depth, fuel, w, src);
    var t := After(s, |c|, Emit(Eval(e, [], false, src, depth, fuel).value));
    var m: nat :| Steps(s, w, m) == Next(t);
    StepsPlus(s, w, m, 1);
    assert Step(t, w) == Done(t.acc);
    n := m + 1;
  }

  // ----- how much is needed does not change the meaning -----

  /** With more calls allowed, an expression means the same, and as a returned result it needs no more. */
  lemma {:induction false} EvalMore(e: Expr, env: seq<Value>, tail: bool, src: Source, depth: nat, fuel: nat,
                                    tail': bool, depth': nat, fuel': nat)
    requires Eval(e, env, tail, src, depth, fuel).Some? && depth <= depth' && fuel <= fuel' && (tail ==> tail')
    ensures Eval(e, env, tail', src, depth', fuel') == Eval(e, env, tail, src, depth, fuel)
    decreases fuel, e, 1
  {
    match e
    case Let(bound, body) =>
      EvalMore(bound, env, false, src, depth, fuel, false, depth', fuel');
      EvalMore(body, env + [Eval(bound, env, false, src, depth, fuel).value], tail, src, depth, fuel, tail', depth',
        fuel');
    case If(cond, yes, no) =>
      EvalMore(cond, env, false, src, depth, fuel, false, depth', fuel');
      if Eval(cond, env, false, src, depth, fuel).value == Atomic(Truth(true)) {
        EvalMore(yes, env, tail, src, depth, fuel, tail', depth', fuel');
      } else {
        EvalMore(no, env, tail, src, depth, fuel, tail', depth', fuel');
      }
    case Op(_, args) => ArgsMore(e, |args|, env, src, depth, fuel, depth', fuel');
    case Call(fn, args) =>
      ArgsMore(e, |args|, env, src, depth, fuel, depth', fuel');
      EvalMore(fn, env, false, src, depth, fuel, false, depth', fuel');
      var vs := EvalArgs(e, |args|, env, src, depth, fuel).value;
      var f := Eval(fn, env, false, src, depth, fuel).value;
      var d := if tail && args != [] then depth else depth - 1;
      var d' := if tail' && args != [] then depth' else depth' - 1;
      EvalMore(f.body, f.env + vs, true, src, d, fuel - 1, true, d', fuel' - 1);
    case _ =>
  }

  lemma {:induction false} ArgsMore(e: Expr, n: nat, env: seq<Value>, src: Source, depth: nat, fuel: nat,
                                    depth': nat, fuel': nat)
    requires (e.Op? || e.Call?) && n <= |e.args| && EvalArgs(e, n, env, src, depth, fuel).Some? && depth <= depth' &&
      fuel <= fuel'
    ensures EvalArgs(e, n, env, src, depth', fuel') == EvalArgs(e, n, env, src, depth, fuel)
    decreases fuel, e, 0, n
  {
    if n > 0 {
      EvalMore(e.args[n - 1], env, false, src, depth, fuel, false, depth', fuel');
      ArgsMore(e, n - 1, env, src, depth, fuel, depth', fuel');
    }
  }
}
