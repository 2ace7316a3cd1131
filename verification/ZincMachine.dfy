/** The machine: one step of its loop as a function, and the loop with its registers. */
module ZincMachine {
  import opened Wrappers
  import opened ZincCode

  const CALL_STACK_DEPTH := 65536
  const MAX_ARGS := 64

  /** What a call keeps of its caller. */
  datatype Frame = Frame(code: seq<Instr>, pc: nat, env: seq<Cell>, stack: seq<Cell>)

  /** The top of a stack is its last element. */
  datatype State = State(code: seq<Instr>, pc: nat, env: seq<Cell>, stack: seq<Cell>, acc: Cell, frames: seq<Frame>)

  datatype Outcome = Next(s: State) | Done(acc: Cell) | Failed

  /** The globals, how many arguments a primitive takes, and what it computes of them, or fails. */
  datatype World = World(globals: map<string, Cell>, arity: string -> nat, prims: (string, seq<Cell>) -> Option<Cell>)

  // ----- one step -----

  function Top(stack: seq<Cell>): Cell
    requires stack != []
  {
    stack[|stack| - 1]
  }

  function Pop(stack: seq<Cell>): seq<Cell>
    requires stack != []
  {
    stack[..|stack| - 1]
  }

  /** The cells above the last mark, from the top down. */
  function Above(stack: seq<Cell>): (r: seq<Cell>)
    ensures |r| <= |stack|
  {
    if stack == [] || Top(stack) == Mark then [] else [Top(stack)] + Above(Pop(stack))
  }

  /** The n cells at the top, from the top down. */
  function Topmost(stack: seq<Cell>, n: nat): (r: seq<Cell>)
    requires n <= |stack|
    ensures |r| == n && forall i :: 0 <= i < n ==> r[i] == stack[|stack| - 1 - i]
  {
    seq(n, i requires 0 <= i < n => stack[|stack| - 1 - i])
  }

  function Lookup(env: seq<Cell>, n: nat): Cell {
    if n < |env| then env[|env| - 1 - n] else Plain(Number(0))
  }

  /** The caller goes on; `pushed` is on its stack. */
  function Resume(s: State, pushed: seq<Cell>): Outcome {
    if s.frames == [] then Done(s.acc)
    else
      var f := s.frames[|s.frames| - 1];
      Next(State(f.code, f.pc, f.env, f.stack + pushed, s.acc, s.frames[..|s.frames| - 1]))
  }

  function Push(s: State, v: Cell): Outcome {
    Next(State(s.code, s.pc + 1, s.env, s.stack + [v], v, s.frames))
  }

  function StepPrim(s: State, name: string, w: World): Outcome {
    if |s.stack| < w.arity(name) then Failed
    else
      var r := w.prims(name, Topmost(s.stack, w.arity(name)));
      if r.None? then Failed
      else Push(State(s.code, s.pc, s.env, s.stack[..|s.stack| - w.arity(name)], s.acc, s.frames), r.value)
  }

  /** A function has been taken off the stack: its arguments are those above the mark. */
  function StepCall(s: State, fn: Cell, stack: seq<Cell>, term: bool): Outcome {
    var args := Above(stack);
    if !fn.Lambda? then Failed
    else if |args| > MAX_ARGS || |args| == |stack| then Failed
    else if term then
      if args == [] then Failed
      else Next(State(fn.code, 0, fn.env + args, stack[..|stack| - |args| - 1], fn, s.frames))
    else if |s.frames| >= CALL_STACK_DEPTH then Done(fn)
    else
      Next(State(fn.code, 0, fn.env + args, [], fn,
                 s.frames + [Frame(s.code, s.pc + 1, s.env, stack[..|stack| - |args| - 1])]))
  }

  function Step(s: State, w: World): Outcome {
    if s.pc >= |s.code| then Resume(s, [])
    else
      match s.code[s.pc]
      case LOAD(a) => Push(s, Plain(a))
      case PRIM(name) => StepPrim(s, name, w)
      case PUSHMARK => Next(State(s.code, s.pc + 1, s.env, s.stack + [Mark], s.acc, s.frames))
      case GRAB =>
        if s.stack != [] && Top(s.stack) == Mark then Resume(s, [s.acc])
        else if s.stack != [] then
          Next(State(s.code, s.pc + 1, s.env + [Top(s.stack)], Pop(s.stack), s.acc, s.frames))
        else Next(State(s.code, s.pc + 1, s.env, s.stack, s.acc, s.frames))
      case APPLY =>
        if s.stack == [] then StepCall(s, s.acc, [], false) else StepCall(s, Top(s.stack), Pop(s.stack), false)
      case RETURN => Resume(s, [s.acc])
      case ACCESS(i) => Push(s, Lookup(s.env, i))
      case GLOBAL(name) => if name in w.globals then Push(s, w.globals[name]) else Failed
      case LET =>
        if s.stack == [] then Next(State(s.code, s.pc + 1, s.env + [s.acc], s.stack, s.acc, s.frames))
        else Next(State(s.code, s.pc + 1, s.env + [Top(s.stack)], Pop(s.stack), s.acc, s.frames))
      case ENDLET =>
        Next(State(s.code, s.pc + 1, if s.env == [] then [] else s.env[..|s.env| - 1], s.stack, s.acc, s.frames))
      case JMP(target) => Next(State(s.code, target, s.env, s.stack, s.acc, s.frames))
      case JMPF(target) =>
        var cond := if s.stack == [] then s.acc else Top(s.stack);
        var stack := if s.stack == [] then [] else Pop(s.stack);
        Next(State(s.code, if cond == Plain(Truth(false)) then target else s.pc + 1, s.env, stack, s.acc, s.frames))
      case CUR(code) => Push(s, Lambda(code, s.env))
      case APPTERM =>
        if s.stack == [] then StepCall(s, s.acc, [], true) else StepCall(s, Top(s.stack), Pop(s.stack), true)
  }

  /** At most n steps. */
  function Steps(s: State, w: World, n: nat): Outcome
    decreases n
  {
    if n == 0 then Next(s)
    else
      var r := Step(s, w);
      if r.Next? then Steps(r.s, w, n - 1) else r
  }

  ghost predicate Reaches(s: State, t: State, w: World) {
    exists n: nat :: Steps(s, w, n) == Next(t)
  }

  lemma {:induction false} StepsPlus(s: State, w: World, m: nat, n: nat)
    requires Steps(s, w, m).Next?
    ensures Steps(s, w, m + n) == Steps(Steps(s, w, m).s, w, n)
    decreases m
  {
    hide Step;
    if m > 0 { StepsPlus(Step(s, w).s, w, m - 1, n); }
  }

  lemma ReachesThen(s: State, t: State, u: State, w: World)
    requires Reaches(s, t, w) && Reaches(t, u, w)
    ensures Reaches(s, u, w)
  {
    var m: nat :| Steps(s, w, m) == Next(t);
    var n: nat :| Steps(t, w, n) == Next(u);
    StepsPlus(s, w, m, n);
  }

  lemma ReachesStep(s: State, t: State, w: World)
    requires Step(s, w) == Next(t)
    ensures Reaches(s, t, w)
  {
    assert Steps(s, w, 1) == Next(t);
  }

  lemma ReachesSelf(s: State, w: World)
    ensures Reaches(s, s, w)
  {
    assert Steps(s, w, 0) == Next(s);
  }

  // ----- instructions as steps -----

  lemma JumpReaches(s: State, target: nat, w: World)
    requires s.pc < |s.code| && s.code[s.pc] == JMP(target)
    ensures Reaches(s, State(s.code, target, s.env, s.stack, s.acc, s.frames), w)
  {
    ReachesStep(s, State(s.code, target, s.env, s.stack, s.acc, s.frames), w);
  }

  lemma BranchReaches(s: State, target: nat, b: bool, w: World)
    requires s.pc < |s.code| && s.code[s.pc] == JMPF(target) && s.stack != [] && Top(s.stack) == Plain(Truth(b))
    ensures Reaches(s, State(s.code, if b then s.pc + 1 else target, s.env, Pop(s.stack), s.acc, s.frames), w)
  {
    ReachesStep(s, State(s.code, if b then s.pc + 1 else target, s.env, Pop(s.stack), s.acc, s.frames), w);
  }

  lemma LetReaches(s: State, w: World)
    requires s.pc < |s.code| && s.code[s.pc] == LET && s.stack != []
    ensures Reaches(s, State(s.code, s.pc + 1, s.env + [Top(s.stack)], Pop(s.stack), s.acc, s.frames), w)
  {
    ReachesStep(s, State(s.code, s.pc + 1, s.env + [Top(s.stack)], Pop(s.stack), s.acc, s.frames), w);
  }

  lemma EndLetReaches(s: State, w: World)
    requires s.pc < |s.code| && s.code[s.pc] == ENDLET && s.env != []
    ensures Reaches(s, State(s.code, s.pc + 1, Pop(s.env), s.stack, s.acc, s.frames), w)
  {
    ReachesStep(s, State(s.code, s.pc + 1, Pop(s.env), s.stack, s.acc, s.frames), w);
  }

  lemma MarkReaches(s: State, w: World)
    requires s.pc < |s.code| && s.code[s.pc] == PUSHMARK
    ensures Reaches(s, State(s.code, s.pc + 1, s.env, s.stack + [Mark], s.acc, s.frames), w)
  {
    ReachesStep(s, State(s.code, s.pc + 1, s.env, s.stack + [Mark], s.acc, s.frames), w);
  }

  // ----- the loop -----

  /** The registers of vm_exec_env. */
  class Machine {
    var code: seq<Instr>
    var pc: nat
    var env: seq<Cell>
    var stack: seq<Cell>
    var acc: Cell
    var frames: seq<Frame>
    const w: World

    constructor (code: seq<Instr>, env: seq<Cell>, w: World)
      ensures Now() == State(code, 0, env, [], Nil, []) && this.w == w
    {
      this.code, pc, this.env, stack, acc, frames, this.w := code, 0, env, [], Nil, [], w;
    }

    ghost function Now(): State
      reads this
    {
      State(code, pc, env, stack, acc, frames)
    }

    method PushValue(v: Cell)
      modifies this`stack, this`acc, this`pc
      ensures Next(Now()) == Push(old(Now()), v)
    {
      acc := v;
      stack := stack + [v];
      pc := pc + 1;
    }

    /** The frame of the caller is popped. */
    method PopFrame()
      requires frames != []
      modifies this`code, this`pc, this`env, this`stack, this`frames
      ensures Next(Now()) == Resume(old(Now()), [])
    {
      var f := frames[|frames| - 1];
      frames := frames[..|frames| - 1];
      code, pc, env, stack := f.code, f.pc, f.env, f.stack;
      assert f.stack + [] == f.stack;
    }

    method Return() returns (more: bool)
      modifies this`code, this`pc, this`env, this`stack, this`frames
      ensures Resume(old(Now()), [old(acc)]) == if more then Next(Now()) else Done(acc)
      ensures acc == old(acc)
    {
      more := frames != [];
      if more {
        ghost var f := frames[|frames| - 1];
        PopFrame();
        assert stack == f.stack + [] == f.stack;
        stack := stack + [acc];
      }
    }

    /** The cells above the mark, popped one by one. */
    method CollectArgs() returns (ok: bool, args: seq<Cell>)
      modifies this`stack
      ensures ok <==> |Above(old(stack))| <= MAX_ARGS && |Above(old(stack))| < |old(stack)|
      ensures ok ==> args == Above(old(stack)) && stack == old(stack)[..|old(stack)| - |args| - 1]
    {
      args := [];
      while stack != [] && Top(stack) != Mark && |args| < MAX_ARGS
        invariant |args| <= MAX_ARGS && |args| + |stack| == |old(stack)| && stack == old(stack)[..|stack|]
        invariant args + Above(stack) == Above(old(stack))
        decreases |stack|
      {
        args := args + [Top(stack)];
        stack := Pop(stack);
      }
      ok := stack != [] && Top(stack) == Mark;
      if ok { stack := Pop(stack); }
    }

    /** The arguments of a primitive are popped one by one. */
    method ExecPrim(name: string) returns (ok: bool)
      modifies this`stack, this`acc, this`pc
      ensures StepPrim(old(Now()), name, w) == if ok then Next(Now()) else Failed
    {
      var n := w.arity(name);
      if |stack| < n { return false; }
      var args: seq<Cell> := [];
      while |args| < n
        invariant |args| <= n && |args| + |stack| == |old(stack)| && stack == old(stack)[..|stack|]
        invariant args == Topmost(old(stack), |args|) && acc == old(acc) && pc == old(pc)
        decreases n - |args|
      {
        args := args + [Top(stack)];
        stack := Pop(stack);
      }
      var r := w.prims(name, args);
      ok := r.Some?;
      if ok { PushValue(r.value); }
    }

    method ExecCall(term: bool) returns (more: bool, ghost r: Outcome)
      modifies this`code, this`pc, this`env, this`stack, this`frames, this`acc
      ensures r == (if old(stack) == [] then StepCall(old(Now()), old(acc), [], term)
                    else StepCall(old(Now()), Top(old(stack)), Pop(old(stack)), term))
      ensures more ==> r == Next(Now())
      ensures !more ==> !r.Next? && (r.Done? ==> r.acc == acc)
    {
      if stack != [] {
        acc := Top(stack);
        stack := Pop(stack);
      }
      ghost var s, stack0 := old(Now()), stack;
      r := StepCall(s, acc, stack0, term);
      if !acc.Lambda? { return false, r; }
      var ok, args := CollectArgs();
      if !ok { return false, r; }
      if term {
        if args == [] { return false, r; }
      } else {
        if |frames| >= CALL_STACK_DEPTH { return false, r; }
        frames := frames + [Frame(code, pc + 1, env, stack)];
        stack := [];
      }
      env := acc.env + args;
      code := acc.code;
      pc := 0;
      more := true;
    }

    /** One round of the loop. */
    method Round() returns (more: bool, ghost r: Outcome)
      modifies this`code, this`pc, this`env, this`stack, this`frames, this`acc
      ensures r == Step(old(Now()), w)
      ensures more ==> r == Next(Now())
      ensures !more ==> !r.Next? && (r.Done? ==> r.acc == acc)
    {
      more, r := true, Step(Now(), w);
      if pc >= |code| {
        if frames == [] { return false, r; }
        PopFrame();
        return;
      }
      match code[pc]
      case LOAD(a) => PushValue(Plain(a));
      case PRIM(name) => more := ExecPrim(name);
      case PUSHMARK => stack, pc := stack + [Mark], pc + 1;
      case GRAB =>
        if stack != [] && Top(stack) == Mark {
          more := Return();
        } else {
          if stack != [] { env, stack := env + [Top(stack)], Pop(stack); }
          pc := pc + 1;
        }
      case APPLY => more, r := ExecCall(false);
      case RETURN => more := Return();
      case ACCESS(i) => PushValue(Lookup(env, i));
      case GLOBAL(name) => if name in w.globals { PushValue(w.globals[name]); } else { more := false; }
      case LET =>
        if stack != [] { env, stack := env + [Top(stack)], Pop(stack); } else { env := env + [acc]; }
        pc := pc + 1;
      case ENDLET =>
        if env != [] { env := env[..|env| - 1]; }
        pc := pc + 1;
      case JMP(target) => pc := target;
      case JMPF(target) =>
        var cond := acc;
        if stack != [] { cond, stack := Top(stack), Pop(stack); }
        pc := if cond == Plain(Truth(false)) then target else pc + 1;
      case CUR(body) => PushValue(Lambda(body, env));
      case APPTERM => more, r := ExecCall(true);
    }

    /** The loop of vm_exec_env, which stops after `limit` rounds. */
    method Run(limit: nat) returns (result: Cell, more: bool, ghost r: Outcome)
      modifies this
      ensures r == Steps(old(Now()), w, limit)
      ensures more ==> r == Next(Now())
      ensures !more ==> !r.Next? && (r.Done? ==> r.acc == result)
    {
      more, r := true, Next(Now());
      var count := 0;
      while more && count < limit
        invariant count <= limit
        invariant more ==> r == Next(Now()) && Steps(old(Now()), w, limit) == Steps(Now(), w, limit - count)
        invariant !more ==> r == Steps(old(Now()), w, limit) && !r.Next? && (r.Done? ==> r.acc == acc)
        decreases limit - count, more
      {
        more, r := Round();
        count := count + 1;
      }
      result := acc;
    }
  }
}
