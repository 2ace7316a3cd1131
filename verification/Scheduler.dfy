/** The scheduler of Elm's kernel: one process stepped through its task. */
module Scheduler {
  import opened Wrappers
  import opened Tasks

  datatype Stack = Null | Cell(kind: Kind, callback: Value, rest: Stack)

  function Frames(s: Stack): seq<Frame> {
    if s.Null? then [] else Frames(s.rest) + [Frame(s.kind, s.callback)]
  }

  /** What the types of Elm give: callbacks return tasks, and tasks hold tasks. */
  predicate Typed(t: Value)
    decreases t
  {
    t.TaskOf? && (t.task.AndThen? || t.task.OnError? ==> Typed(t.task.task))
  }

  ghost predicate TypedWorld(w: World) {
    forall f, vs :: Typed(w.apply(f, vs))
  }

  /** The result that a finished task holds. */
  function Final(t: Value): Result {
    if t.TaskOf? && t.task.Succeed? then Ok(t.task.value)
    else if t.TaskOf? && t.task.Fail? then Err(t.task.error)
    else Bad
  }

  class Process {
    var root: Value
    var stack: Stack

    /** _Scheduler_rawSpawn. */
    constructor (task: Value)
      ensures Now() == Config(task, [])
    {
      root, stack := task, Null;
    }

    ghost function Now(): Config
      reads this
    {
      Config(root, Frames(stack))
    }

    /** A result drops the frames of the other kind and goes to the callback of the next, if any. */
    method Return(kind: Kind, w: World, ghost rest: seq<Result>) returns (ended: bool)
      requires root.TaskOf? && (if kind == ANDTHEN then root.task.Succeed? else root.task.Fail?)
      modifies this
      ensures Step(old(Now()), rest, w, None) == if ended then Ended(Final(root), rest) else Next(Now(), rest)
      ensures ended ==> root == old(root)
      ensures !ended ==> exists f, vs :: root == w.apply(f, vs)
    {
      hide Step, Complete, Unwind;
      ghost var c := Now();
      ResultStep(c, rest, w);
      while stack.Cell? && stack.kind != kind
        invariant root == old(root) && Unwind(Final(root), Frames(stack)) == Unwind(Final(root), Frames(old(stack)))
        decreases stack
      {
        UnwindTop(Final(root), Frames(stack.rest), Frame(stack.kind, stack.callback));
        stack := stack.rest;
      }
      ended := stack.Null?;
      Unwound(stack, Final(root), c.frames, rest, w);
      if !ended {
        root := w.apply(stack.callback, [if kind == ANDTHEN then root.task.value else root.task.error]);
        stack := stack.rest;
      }
    }

    /** _Scheduler_step, which stops when the task has its result, or waits, or after `rounds`. */
    method Run(w: World, rounds: nat, ghost rest: seq<Result>) returns (ended: bool, n: nat)
      requires TypedWorld(w) && Typed(root)
      modifies this
      ensures n <= rounds && Typed(root) && (n > 0 || rounds == 0 || old(root).task.Leaf?)
      ensures Onward(Next(old(Now()), rest), w, None, n) == if ended then Ended(Final(root), rest)
        else Next(Now(), rest)
      ensures !ended ==> n == rounds || root.task.Leaf?
    {
      hide Step, TypedWorld;
      ended, n := false, 0;
      while !ended && n < rounds && !root.task.Leaf?
        invariant n <= rounds && Typed(root) && (n > 0 || (!ended && root == old(root)))
        invariant Onward(Next(old(Now()), rest), w, None, n) ==
          if ended then Ended(Final(root), rest) else Next(Now(), rest)
        decreases rounds - n
      {
        ghost var c := Now();
        OnwardPlus(Next(old(Now()), rest), w, None, n, 1);
        OneRound(c, rest, w);
        if root.task.Succeed? || root.task.Fail? {
          ended := Return(if root.task.Succeed? then ANDTHEN else ONERROR, w, rest);
          TypedResults(w);
        } else {
          Descend(c, rest, w);
          stack := Cell(if root.task.AndThen? then ANDTHEN else ONERROR, root.task.callback, stack);
          root := root.task.task;
        }
        n := n + 1;
      }
    }

    lemma TypedResults(w: World)
      requires TypedWorld(w)
      ensures forall f, vs :: Typed(w.apply(f, vs))
    {
    }

    /** The callback of a binding gives the process its result as a task. */
    method Resume(r: Result, ghost rest: seq<Result>, w: World)
      requires root.TaskOf? && root.task.Leaf? && (r.Ok? || r.Err?)
      modifies this`root
      ensures Typed(root) && !root.task.Leaf? && Step(Now(), rest, w, None) == Step(old(Now()), [r] + rest, w, None)
    {
      hide Complete, Unwind;
      assert ([r] + rest)[1..] == rest;
      root := TaskOf(if r.Ok? then Succeed(r.value) else Fail(r.error));
    }

    /** A process whose bindings are answered one after the other: rounds of the machine with these
        answers. */
    method RunAll(w: World, answers: seq<Result>, rounds: nat) returns (ended: bool, used: nat, n: nat)
      requires TypedWorld(w) && Typed(root) && forall k :: 0 <= k < |answers| ==> answers[k].Ok? || answers[k].Err?
      modifies this
      ensures used <= |answers| && n <= rounds && Typed(root)
      ensures Onward(Next(old(Now()), answers), w, None, n) ==
        if ended then Ended(Final(root), answers[used..]) else Next(Now(), answers[used..])
      ensures !ended ==> n == rounds || (root.task.Leaf? && used == |answers|)
    {
      hide Step, TypedWorld, Onward;
      used := 0;
      ended, n := Run(w, rounds, answers);
      while !ended && n < rounds && used < |answers|
        invariant used <= |answers| && n <= rounds && Typed(root)
        invariant Onward(Next(old(Now()), answers), w, None, n) ==
          if ended then Ended(Final(root), answers[used..]) else Next(Now(), answers[used..])
        invariant !ended ==> n == rounds || root.task.Leaf?
      {
        ghost var c, rest := Now(), answers[used + 1..];
        assert answers[used..] == [answers[used]] + rest;
        Resume(answers[used], rest, w);
        ghost var c1 := Now();
        var more;
        ended, more := Run(w, rounds - n, rest);
        OnwardStep(Next(c, answers[used..]), w, None, more);
        OnwardStep(Next(c1, rest), w, None, more);
        OnwardPlus(Next(old(Now()), answers), w, None, n, more);
        used, n := used + 1, n + more;
      }
    }
  }

  lemma ResultStep(c: Config, rest: seq<Result>, w: World)
    requires c.task.TaskOf? && (c.task.task.Succeed? || c.task.task.Fail?)
    ensures Step(c, rest, w, None) == Complete(Final(c.task), c.frames, rest, w)
  {
    hide Complete;
  }

  /** The frames have been dropped down to this stack, whose top takes the result. */
  lemma Unwound(s: Stack, r: Result, frames: seq<Frame>, rest: seq<Result>, w: World)
    requires (r.Ok? || r.Err?) && Unwind(r, frames) == Unwind(r, Frames(s)) && (s.Cell? ==> Takes(s.kind, r))
    ensures Complete(r, frames, rest, w) ==
      if s.Null? then Ended(r, rest) else Next(Config(w.apply(s.callback, [Payload(r)]), Frames(s.rest)), rest)
  {
    if s.Cell? {
      var below, f := Frames(s.rest), Frame(s.kind, s.callback);
      UnwindTop(r, below, f);
      hide Unwind;
      assert (below + [f])[..|below|] == below;
    }
  }

  lemma OneRound(c: Config, rest: seq<Result>, w: World)
    ensures Onward(Next(c, rest), w, None, 1) == Step(c, rest, w, None)
  {
    hide Step;
    assert Onward(Step(c, rest, w, None), w, None, 0) == Step(c, rest, w, None);
  }

  lemma Descend(c: Config, rest: seq<Result>, w: World)
    requires c.task.TaskOf? && (c.task.task.AndThen? || c.task.task.OnError?)
    ensures Step(c, rest, w, None) ==
      Next(Config(c.task.task.task, c.frames +
        [Frame(if c.task.task.AndThen? then ANDTHEN else ONERROR, c.task.task.callback)]), rest)
  {
  }

  /** What ends under a limit of frames ends without one, with the same result; and no other. */
  lemma SameResult(t: Value, w: World, limit: nat, answers: seq<Result>, r: Result)
    requires Ends(t, w, Some(limit), answers, r)
    ensures Ends(t, w, None, answers, r) && forall s :: Ends(t, w, None, answers, s) ==> s == r
  {
    hide Ends, Means;
    Exactly(t, w, Some(limit), answers, r);
    Exactly(t, w, None, answers, r);
    assert Means(t, w, None, answers, r) by { Unlimited(t, w, limit, answers, r); }
    forall s | Ends(t, w, None, answers, s) ensures s == r {
      Exactly(t, w, None, answers, s);
      OneMeaning(t, w, None, None, answers, answers, s, r);
    }
  }

  lemma Unlimited(t: Value, w: World, limit: nat, answers: seq<Result>, r: Result)
    requires Means(t, w, Some(limit), answers, r)
    ensures Means(t, w, None, answers, r)
  {
  }
}
