/** The laws of tasks: what a task means is made up of what its parts mean. */
module TaskLaws {
  import opened Wrappers
  import opened Tasks

  lemma Succeeds(v: Value, w: World, limit: Option<nat>, answers: seq<Result>, r: Result)
    ensures Means(TaskOf(Succeed(v)), w, limit, answers, r) <==> answers == [] && r == Ok(v)
  {
    assert Run(TaskOf(Succeed(v)), 0, [], w, 0) == Some(Got(Ok(v), []));
  }

  lemma Fails(e: Value, w: World, limit: Option<nat>, answers: seq<Result>, r: Result)
    ensures Means(TaskOf(Fail(e)), w, limit, answers, r) <==> answers == [] && r == Err(e)
  {
    assert Run(TaskOf(Fail(e)), 0, [], w, 0) == Some(Got(Err(e), []));
  }

  /** What is not a task is dropped. */
  lemma NotATask(t: Value, w: World, limit: Option<nat>, answers: seq<Result>, r: Result)
    requires !t.TaskOf?
    ensures Means(t, w, limit, answers, r) <==> answers == [] && r == Bad
  {
    assert Run(t, 0, [], w, 0) == Some(Got(Bad, []));
  }

  /** An effect means the one answer that it gets. */
  lemma Effects(op: Value, w: World, limit: Option<nat>, answers: seq<Result>, r: Result)
    ensures Means(TaskOf(Leaf(op)), w, limit, answers, r) <==> answers == [r]
  {
    assert [r][1..] == [];
    assert Run(TaskOf(Leaf(op)), 0, [r], w, 0) == Some(Got(r, []));
  }

  /** A result uses the first of the answers. */
  lemma {:induction false} Used(t: Value, room: nat, answers: seq<Result>, w: World, fuel: nat) returns (k: nat)
    requires Run(t, room, answers, w, fuel).Some?
    ensures var g := Run(t, room, answers, w, fuel).value;
      k <= |answers| && g.rest == answers[k..] && Run(t, room, answers[..k], w, fuel) == Some(Got(g.result, []))
    decreases fuel, t
  {
    if t.TaskOf? && (t.task.AndThen? || t.task.OnError?) {
      var u := t.task.task;
      var g := Run(u, room - 1, answers, w, fuel).value;
      var i := Used(u, room - 1, answers, w, fuel);
      if t.task.AndThen? && g.result.Ok? {
        k := UsedThen(u, w.apply(t.task.callback, [g.result.value]), room, answers, i, w, fuel);
      } else if t.task.OnError? && g.result.Err? {
        k := UsedThen(u, w.apply(t.task.callback, [g.result.error]), room, answers, i, w, fuel);
      } else {
        k := i;
        assert Run(t, room, answers[..k], w, fuel) == Run(u, room - 1, answers[..i], w, fuel);
      }
    } else if t.TaskOf? && t.task.Leaf? {
      k := 1;
      assert answers[..1] == [answers[0]] && [answers[0]][1..] == [];
    } else {
      k := 0;
    }
  }

  /** So does one that comes after another. */
  lemma {:induction false} UsedThen(u: Value, next: Value, room: nat, answers: seq<Result>, i: nat, w: World, fuel: nat)
    returns (k: nat)
    requires room > 0 && fuel > 0 && i <= |answers| && Run(next, room, answers[i..], w, fuel - 1).Some?
    requires Run(u, room - 1, answers[..i], w, fuel).Some? && Run(u, room - 1, answers[..i], w, fuel).value.rest == []
    ensures var g := Run(next, room, answers[i..], w, fuel - 1).value;
      i <= k <= |answers| && g.rest == answers[k..]
      && Run(u, room - 1, answers[..k], w, fuel) == Some(Got(Run(u, room - 1, answers[..i], w, fuel).value.result,
                                                            answers[i..k]))
      && Run(next, room, answers[i..k], w, fuel - 1) == Some(Got(g.result, []))
    decreases fuel, u, next, 0
  {
    hide Run;
    var j := Used(next, room, answers[i..], w, fuel - 1);
    k := i + j;
    assert answers[i..][..j] == answers[i..k] && answers[i..][j..] == answers[k..];
    RunMore(u, room - 1, answers[..i], w, fuel, room - 1, fuel, answers[i..k]);
    assert answers[..i] + answers[i..k] == answers[..k] && [] + answers[i..k] == answers[i..k];
  }

  // ----- one after another -----

  /** What is left of the frames inside another task. */
  function Inside(limit: Option<nat>): Option<nat> {
    if limit.Some? && limit.value > 0 then Some(limit.value - 1) else limit
  }

  /** The first task uses the first k answers; when its result is of the kind that the frame takes, the
      callback makes a task of it that uses the others; any other result is the result. */
  ghost predicate Chained(kind: Kind, f: Value, t: Value, w: World, limit: Option<nat>, answers: seq<Result>,
                          r: Result, k: nat, first: Result)
  {
    && k <= |answers| && Means(t, w, Inside(limit), answers[..k], first)
    && match (kind, first)
       case (ANDTHEN, Ok(v)) => Means(w.apply(f, [v]), w, limit, answers[k..], r)
       case (ONERROR, Err(e)) => Means(w.apply(f, [e]), w, limit, answers[k..], r)
       case _ => k == |answers| && r == first
  }

  function Chain(kind: Kind, f: Value, t: Value): Value {
    TaskOf(if kind == ANDTHEN then AndThen(f, t) else OnError(f, t))
  }

  lemma RunMeans(t: Value, room: nat, answers: seq<Result>, w: World, limit: Option<nat>, fuel: nat, r: Result)
    requires (limit.Some? ==> room <= limit.value) && Run(t, room, answers, w, fuel) == Some(Got(r, []))
    ensures Means(t, w, limit, answers, r)
  {
    hide Run;
  }

  lemma MeansRun(t: Value, w: World, limit: Option<nat>, answers: seq<Result>, r: Result) returns (room: nat, fuel: nat)
    requires Means(t, w, limit, answers, r)
    ensures (limit.Some? ==> room <= limit.value) && Run(t, room, answers, w, fuel) == Some(Got(r, []))
  {
    hide Run;
    room, fuel :| (limit.Some? ==> room <= limit.value) && Run(t, room, answers, w, fuel) == Some(Got(r, []));
  }

  predicate Carries(kind: Kind, r: Result) {
    if kind == ANDTHEN then r.Ok? else r.Err?
  }

  function Carried(r: Result): Value
    requires r.Ok? || r.Err?
  {
    if r.Ok? then r.value else r.error
  }

  lemma ChainRun(kind: Kind, f: Value, t: Value, room: nat, answers: seq<Result>, w: World, fuel: nat)
    ensures var g := Run(t, if room > 0 then room - 1 else 0, answers, w, fuel);
      Run(Chain(kind, f, t), room, answers, w, fuel) ==
        if room == 0 then None
        else if g.None? || !Carries(kind, g.value.result) then g
        else if fuel == 0 then None
        else Run(w.apply(f, [Carried(g.value.result)]), room, g.value.rest, w, fuel - 1)
  {
  }

  lemma ChainParts(kind: Kind, f: Value, t: Value, w: World, limit: Option<nat>, answers: seq<Result>, r: Result)
    returns (k: nat, first: Result)
    requires Means(Chain(kind, f, t), w, limit, answers, r)
    ensures limit != Some(0) && Chained(kind, f, t, w, limit, answers, r, k, first)
  {
    hide Run, Means;
    var room, fuel := MeansRun(Chain(kind, f, t), w, limit, answers, r);
    ChainRun(kind, f, t, room, answers, w, fuel);
    var g := Run(t, room - 1, answers, w, fuel).value;
    first := g.result;
    k := Used(t, room - 1, answers, w, fuel);
    RunMeans(t, room - 1, answers[..k], w, Inside(limit), fuel, first);
    if Carries(kind, first) {
      RunMeans(w.apply(f, [Carried(first)]), room, answers[k..], w, limit, fuel - 1, r);
    } else {
      assert answers[k..] == [];
    }
  }

  lemma ChainOf(kind: Kind, f: Value, t: Value, w: World, limit: Option<nat>, answers: seq<Result>, r: Result, k: nat,
                first: Result)
    requires limit != Some(0) && Chained(kind, f, t, w, limit, answers, r, k, first)
    ensures Means(Chain(kind, f, t), w, limit, answers, r)
  {
    hide Run, Means;
    var room1, fuel1 := MeansRun(t, w, Inside(limit), answers[..k], first);
    if Carries(kind, first) {
      var next := w.apply(f, [Carried(first)]);
      var room2, fuel2 := MeansRun(next, w, limit, answers[k..], r);
      var room, fuel := if room1 + 1 > room2 then room1 + 1 else room2, fuel1 + fuel2 + 1;
      RunMore(t, room1, answers[..k], w, fuel1, room - 1, fuel, answers[k..]);
      assert answers[..k] + answers[k..] == answers && [] + answers[k..] == answers[k..];
      RunAgain(next, room2, answers[k..], w, fuel2, room, fuel - 1);
      ChainRun(kind, f, t, room, answers, w, fuel);
      RunMeans(Chain(kind, f, t), room, answers, w, limit, fuel, r);
    } else {
      assert answers[..k] == answers;
      ChainRun(kind, f, t, room1 + 1, answers, w, fuel1);
      RunMeans(Chain(kind, f, t), room1 + 1, answers, w, limit, fuel1, r);
    }
  }

  /** A task that goes on after another, on its success or on its error, means what the two mean, one with
      the first answers and one with the others. */
  lemma Chains(kind: Kind, f: Value, t: Value, w: World, limit: Option<nat>, answers: seq<Result>, r: Result)
    ensures Means(Chain(kind, f, t), w, limit, answers, r) <==>
      limit != Some(0) && exists k, first :: Chained(kind, f, t, w, limit, answers, r, k, first)
  {
    hide Means, Chained;
    if Means(Chain(kind, f, t), w, limit, answers, r) {
      var k, first := ChainParts(kind, f, t, w, limit, answers, r);
    }
    if limit != Some(0) && exists k, first :: Chained(kind, f, t, w, limit, answers, r, k, first) {
      var k, first :| Chained(kind, f, t, w, limit, answers, r, k, first);
      ChainOf(kind, f, t, w, limit, answers, r, k, first);
    }
  }

  /** Going on with f and then with g is going on with what does both. */
  lemma Associative(f: Value, g: Value, both: Value, t: Value, w: World, answers: seq<Result>, r: Result)
    requires forall v :: w.apply(both, [v]) == TaskOf(AndThen(g, w.apply(f, [v])))
    ensures Means(TaskOf(AndThen(g, TaskOf(AndThen(f, t)))), w, None, answers, r) <==>
      Means(TaskOf(AndThen(both, t)), w, None, answers, r)
  {
    hide Means;
    if Means(TaskOf(AndThen(g, TaskOf(AndThen(f, t)))), w, None, answers, r) {
      LeftToRight(f, g, both, t, w, answers, r);
    }
    if Means(TaskOf(AndThen(both, t)), w, None, answers, r) { RightToLeft(f, g, both, t, w, answers, r); }
  }

  lemma LeftToRight(f: Value, g: Value, both: Value, t: Value, w: World, answers: seq<Result>, r: Result)
    requires forall v :: w.apply(both, [v]) == TaskOf(AndThen(g, w.apply(f, [v])))
    requires Means(TaskOf(AndThen(g, TaskOf(AndThen(f, t)))), w, None, answers, r)
    ensures Means(TaskOf(AndThen(both, t)), w, None, answers, r)
  {
    hide Means;
    var k, second := ChainParts(ANDTHEN, g, TaskOf(AndThen(f, t)), w, None, answers, r);
    var i, first := ChainParts(ANDTHEN, f, t, w, None, answers[..k], second);
    assert answers[..k][..i] == answers[..i];
    if first.Ok? {
      assert answers[i..][..k - i] == answers[..k][i..] && answers[i..][k - i..] == answers[k..];
      assert k == |answers| ==> k - i == |answers[i..]|;
      ChainOf(ANDTHEN, g, w.apply(f, [first.value]), w, None, answers[i..], r, k - i, second);
    }
    ChainOf(ANDTHEN, both, t, w, None, answers, r, i, first);
  }

  lemma RightToLeft(f: Value, g: Value, both: Value, t: Value, w: World, answers: seq<Result>, r: Result)
    requires forall v :: w.apply(both, [v]) == TaskOf(AndThen(g, w.apply(f, [v])))
    requires Means(TaskOf(AndThen(both, t)), w, None, answers, r)
    ensures Means(TaskOf(AndThen(g, TaskOf(AndThen(f, t)))), w, None, answers, r)
  {
    hide Means;
    var i, first := ChainParts(ANDTHEN, both, t, w, None, answers, r);
    if first.Ok? {
      var j, second := ChainParts(ANDTHEN, g, w.apply(f, [first.value]), w, None, answers[i..], r);
      var k := i + j;
      assert answers[..k][..i] == answers[..i] && answers[..k][i..] == answers[i..][..j];
      assert answers[i..][j..] == answers[k..];
      ChainOf(ANDTHEN, f, t, w, None, answers[..k], second, i, first);
      ChainOf(ANDTHEN, g, TaskOf(AndThen(f, t)), w, None, answers, r, k, second);
    } else {
      assert answers[..i] == answers;
      ChainOf(ANDTHEN, f, t, w, None, answers, first, i, first);
      ChainOf(ANDTHEN, g, TaskOf(AndThen(f, t)), w, None, answers, r, i, first);
    }
  }
}
