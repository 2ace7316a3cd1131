/** What every run of the loop keeps: no task is lost, none is evaluated twice, and the model is the
    fold of update over the messages. */
module HostRuns {
  import opened Wrappers
  import opened Tasks
  import opened HostState

  // ----- the books of a run -----

  /** The tasks of a command. */
  function CmdTasks(cmd: Value): seq<Value>
    decreases cmd
  {
    if !cmd.Pair? then [] else [cmd.first] + CmdTasks(cmd.second)
  }

  /** The model after the messages of these evaluations: update is applied to each in turn, and one for
      which it gives no pair changes nothing. */
  function Fold(p: Program, model: Value, log: seq<Ending>): Value {
    if log == [] then model
    else
      var m := Fold(p, model, log[..|log| - 1]);
      var r := log[|log| - 1].result;
      if !r.Ok? then m
      else match p.w.apply(p.update, [r.value, m])
        case Pair(next, _) => next
        case _ => m
  }

  /** The tasks of the first command, and of those that update returned for the messages, in order. */
  function Ordered(p: Program, cmd: Value, model: Value, log: seq<Ending>): seq<Value> {
    if log == [] then CmdTasks(cmd)
    else
      var r := log[|log| - 1].result;
      Ordered(p, cmd, model, log[..|log| - 1]) +
      if !r.Ok? then []
      else match p.w.apply(p.update, [r.value, Fold(p, model, log[..|log| - 1])])
        case Pair(_, next) => CmdTasks(next)
        case _ => []
  }

  function TasksOf(births: seq<Birth>): (ts: seq<Value>)
    ensures |ts| == |births| && forall k :: 0 <= k < |ts| ==> ts[k] == births[k].task
  {
    seq(|births|, k requires 0 <= k < |births| => births[k].task)
  }

  /** The machine has come from the task with the answers so far. */
  ghost predicate FromTask(c: Config, task: Value, heard: seq<Result>, w: World) {
    exists n: nat :: Onward(Next(Config(task, []), heard), w, LIMIT, n) == Next(c, [])
  }

  /** The evaluation at place i is that of a task spawned there in this generation. */
  ghost predicate EvaluationOk(h: Host, i: nat, p: Program)
    requires Sized(h) && i < MAX_EVALS && h.threads[i].Some?
  {
    var t := h.threads[i].value;
    && h.ids[i] < |h.spawned| && h.spawned[h.ids[i]].place == i && h.spawned[h.ids[i]].gen == h.gens[i]
    && FromTask(t.config, h.spawned[h.ids[i]].task, h.heard[i], p.w) && (t.waiting ==> IsLeaf(t.config))
  }

  ghost predicate Evaluations(h: Host, p: Program) {
    Sized(h) && forall i :: 0 <= i < MAX_EVALS && h.threads[i].Some? ==> EvaluationOk(h, i, p)
  }

  ghost predicate BirthOk(h: Host, a: nat)
    requires Sized(h) && a < |h.spawned|
  {
    h.spawned[a].place < MAX_EVALS && h.spawned[a].gen <= h.gens[h.spawned[a].place]
  }

  /** Each task spawned has a generation of its own. */
  ghost predicate Births(h: Host)
    requires Sized(h)
  {
    && (forall a :: 0 <= a < |h.spawned| ==> BirthOk(h, a))
    && forall a, b :: 0 <= a < b < |h.spawned| ==>
      h.spawned[a].place != h.spawned[b].place || h.spawned[a].gen != h.spawned[b].gen
  }

  ghost predicate Active(h: Host, a: nat)
    requires Sized(h) && a < |h.spawned|
  {
    var i := h.spawned[a].place;
    i < MAX_EVALS && h.threads[i].Some? && h.ids[i] == a
  }

  ghost predicate Logged(log: seq<Ending>, a: nat) {
    exists k :: 0 <= k < |log| && log[k].id == a
  }

  /** What an evaluation ended with is what its task means with the answers that it got. */
  ghost predicate EndingOk(h: Host, e: Ending, p: Program)
    requires Sized(h)
  {
    e.id < |h.spawned| && !Active(h, e.id) && Means(h.spawned[e.id].task, p.w, LIMIT, e.heard, e.result)
  }

  /** No task has ended twice, and none is lost: it is being evaluated or has ended. */
  ghost predicate Endings(h: Host, p: Program)
    requires Sized(h)
  {
    && (forall k :: 0 <= k < |h.log| ==> EndingOk(h, h.log[k], p))
    && (forall j, k :: 0 <= j < k < |h.log| ==> h.log[j].id != h.log[k].id)
    && (forall a :: 0 <= a < |h.spawned| ==> Active(h, a) || Logged(h.log, a))
    && (h.quit <==> exists k :: 0 <= k < |h.log| && h.log[k].result.Quit?)
  }

  ghost predicate Kept(h: Host, p: Program) {
    Evaluations(h, p) && Births(h) && Endings(h, p)
  }

  /** The model and the tasks spawned are what the messages have made of the first model and command. */
  ghost predicate Honest(h: Host, cmd: Value, model: Value, p: Program) {
    && Kept(h, p) && h.model == Fold(p, model, h.log)
    && TasksOf(h.spawned) == Ordered(p, cmd, model, h.log)
  }

  // ----- each change keeps the books -----

  lemma FreshTask(task: Value, w: World)
    ensures FromTask(Config(task, []), task, [], w)
  {
    assert Onward(Next(Config(task, []), []), w, LIMIT, 0) == Next(Config(task, []), []);
  }

  lemma PlaceKept(h: Host, task: Value, p: Program)
    requires Kept(h, p) && Place(h, task).Some?
    ensures Kept(Place(h, task).value, p)
  {
    hide Means, Onward, FromTask;
    var h' := Place(h, task).value;
    var i := FirstFree(h.threads, 0);
    FreshTask(task, p.w);
    PlaceEvaluations(h, task, p);
    PlaceEndings(h, task, p);
    assert Births(h') by {
      forall a | 0 <= a < |h'.spawned| ensures BirthOk(h', a) {
        if a < |h.spawned| { assert BirthOk(h, a); }
      }
      forall a | 0 <= a < |h.spawned| ensures h.spawned[a].place != i || h.spawned[a].gen != h.gens[i] + 1 {
        assert BirthOk(h, a);
      }
    }
  }

  lemma PlaceEvaluations(h: Host, task: Value, p: Program)
    requires Evaluations(h, p) && Place(h, task).Some?
    ensures Evaluations(Place(h, task).value, p)
  {
    hide Means, Onward, FromTask;
    var h' := Place(h, task).value;
    FreshTask(task, p.w);
    forall j | 0 <= j < MAX_EVALS && h'.threads[j].Some? ensures EvaluationOk(h', j, p) {
      if j != FirstFree(h.threads, 0) { assert EvaluationOk(h, j, p); }
    }
  }

  lemma PlaceEndings(h: Host, task: Value, p: Program)
    requires Sized(h) && Births(h) && Endings(h, p) && Place(h, task).Some?
    ensures Endings(Place(h, task).value, p)
  {
    hide Means, Evaluations;
    var h' := Place(h, task).value;
    forall k | 0 <= k < |h.log| ensures EndingOk(h', h.log[k], p) {
      assert EndingOk(h, h.log[k], p);
    }
    forall a | 0 <= a < |h'.spawned| ensures Active(h', a) || Logged(h'.log, a) {
      if a < |h.spawned| { assert Active(h, a) || Logged(h.log, a); }
    }
  }

  lemma {:induction false} PlaceAllKept(h: Host, cmd: Value, p: Program)
    requires Kept(h, p) && PlaceAll(h, cmd).Some?
    ensures var h' := PlaceAll(h, cmd).value;
      && Kept(h', p) && h'.model == h.model && h'.log == h.log
      && TasksOf(h'.spawned) == TasksOf(h.spawned) + CmdTasks(cmd)
    decreases cmd
  {
    assert Sized(h);
    hide Kept, Place;
    if cmd.Pair? {
      PlaceKept(h, cmd.first, p);
      PlaceTask(h, cmd.first);
      PlaceAllKept(Place(h, cmd.first).value, cmd.second, p);
    }
  }

  lemma PlaceTask(h: Host, task: Value)
    requires Sized(h) && Place(h, task).Some?
    ensures var h' := Place(h, task).value;
      h'.model == h.model && h'.log == h.log && TasksOf(h'.spawned) == TasksOf(h.spawned) + [task]
  {
  }

  /** The evaluation at place i has ended, having heard these answers. */
  lemma DropKept(h: Host, i: nat, heard: seq<Result>, r: Result, p: Program)
    requires Kept(h, p) && i < MAX_EVALS && h.threads[i].Some? && h.ids[i] < |h.spawned|
    requires Means(h.spawned[h.ids[i]].task, p.w, LIMIT, heard, r)
    ensures Kept(Drop(h.(heard := h.heard[i := heard]), i, r), p)
  {
    hide Means, FromTask;
    var h' := Drop(h.(heard := h.heard[i := heard]), i, r);
    assert EvaluationOk(h, i, p);
    forall j | 0 <= j < MAX_EVALS && h'.threads[j].Some? ensures EvaluationOk(h', j, p) {
      assert EvaluationOk(h, j, p);
    }
    SameBirths(h, h');
    DropEndings(h, i, heard, r, p);
  }

  lemma DropEndings(h: Host, i: nat, heard: seq<Result>, r: Result, p: Program)
    requires Sized(h) && Endings(h, p) && i < MAX_EVALS && h.threads[i].Some? && EvaluationOk(h, i, p)
    requires Means(h.spawned[h.ids[i]].task, p.w, LIMIT, heard, r)
    ensures Endings(Drop(h.(heard := h.heard[i := heard]), i, r), p)
  {
    hide Means, FromTask;
    var h' := Drop(h.(heard := h.heard[i := heard]), i, r);
    forall k | 0 <= k < |h'.log| ensures EndingOk(h', h'.log[k], p) {
      if k < |h.log| { assert EndingOk(h, h.log[k], p); }
    }
    assert Active(h, h.ids[i]);
    forall k | 0 <= k < |h.log| ensures h.log[k].id != h.ids[i] { assert EndingOk(h, h.log[k], p); }
    forall a | 0 <= a < |h'.spawned| ensures Active(h', a) || Logged(h'.log, a) {
      if Active(h, a) {
        assert h'.log[|h.log|].id == h.ids[i];
      } else {
        var k :| 0 <= k < |h.log| && h.log[k].id == a;
        assert h'.log[k].id == a;
      }
    }
    assert h'.quit <==> exists k :: 0 <= k < |h'.log| && h'.log[k].result.Quit? by {
      if h.quit {
        var k :| 0 <= k < |h.log| && h.log[k].result.Quit?;
        assert h'.log[k].result.Quit?;
      }
      assert h'.log[|h.log|].result == r;
    }
  }

  /** The evaluation at place i goes on to where its task leads, with what it has heard. */
  lemma ContinueKept(h: Host, i: nat, t: Thread, heard: seq<Result>, p: Program)
    requires Kept(h, p) && i < MAX_EVALS && h.threads[i].Some?
    requires FromTask(t.config, h.spawned[h.ids[i]].task, heard, p.w) && (t.waiting ==> IsLeaf(t.config))
    ensures Kept(Continue(h.(heard := h.heard[i := heard]), i, t), p)
  {
    hide Means, FromTask;
    var h' := Continue(h.(heard := h.heard[i := heard]), i, t);
    assert EvaluationOk(h, i, p);
    forall j | 0 <= j < MAX_EVALS && h'.threads[j].Some? ensures EvaluationOk(h', j, p) {
      assert EvaluationOk(h, j, p);
    }
    assert Births(h') by {
      forall a | 0 <= a < |h'.spawned| ensures BirthOk(h', a) { assert BirthOk(h, a); }
    }
    forall k | 0 <= k < |h'.log| ensures EndingOk(h', h'.log[k], p) { assert EndingOk(h, h.log[k], p); }
    forall a | 0 <= a < |h'.spawned| ensures Active(h', a) || Logged(h'.log, a) {
      assert Active(h, a) || Logged(h.log, a);
    }
  }

  lemma LogPlus(p: Program, cmd: Value, model: Value, log: seq<Ending>, e: Ending)
    ensures Fold(p, model, log + [e]) ==
      if e.result.Ok? then NewModel(p, e.result.value, Fold(p, model, log)) else Fold(p, model, log)
    ensures Ordered(p, cmd, model, log + [e]) == Ordered(p, cmd, model, log) +
      if e.result.Ok? then CmdTasks(NewCommand(p, e.result.value, Fold(p, model, log))) else []
  {
    assert (log + [e])[..|log|] == log;
  }

  /** The message of the evaluation at place i, which has heard these answers, reaches update. */
  lemma DeliverHonest(h: Host, i: nat, heard: seq<Result>, msg: Value, cmd: Value, model: Value, p: Program)
    requires Honest(h, cmd, model, p) && i < MAX_EVALS && h.threads[i].Some? && h.ids[i] < |h.spawned|
    requires Means(h.spawned[h.ids[i]].task, p.w, LIMIT, heard, Ok(msg))
    requires Deliver(h.(heard := h.heard[i := heard]), i, msg, p).Some?
    ensures Honest(Deliver(h.(heard := h.heard[i := heard]), i, msg, p).value, cmd, model, p)
  {
    assert Sized(h);
    hide Means, Kept, Place, NewModel, NewCommand, Fold, Ordered;
    var h1 := h.(heard := h.heard[i := heard]);
    DropKept(h, i, heard, Ok(msg), p);
    ModelKept(Drop(h1, i, Ok(msg)), NewModel(p, msg, h.model), p);
    var done := Drop(h1.(model := NewModel(p, msg, h.model)), i, Ok(msg));
    assert done == Drop(h1, i, Ok(msg)).(model := NewModel(p, msg, h.model));
    PlaceAllKept(done, NewCommand(p, msg, h.model), p);
    LogPlus(p, cmd, model, h.log, Ending(h.ids[i], heard, Ok(msg)));
  }

  lemma ModelKept(h: Host, model: Value, p: Program)
    requires Kept(h, p)
    ensures Kept(h.(model := model), p)
  {
    hide Means, FromTask;
    var h' := h.(model := model);
    forall j | 0 <= j < MAX_EVALS && h'.threads[j].Some? ensures EvaluationOk(h', j, p) {
      assert EvaluationOk(h, j, p);
    }
    SameBirths(h, h');
    SameEndings(h, h', p);
  }

  lemma SameBirths(h: Host, h': Host)
    requires Sized(h) && Sized(h') && Births(h) && h'.spawned == h.spawned && h'.gens == h.gens
    ensures Births(h')
  {
    forall a | 0 <= a < |h'.spawned| ensures BirthOk(h', a) { assert BirthOk(h, a); }
  }

  lemma SameEndings(h: Host, h': Host, p: Program)
    requires Sized(h) && Sized(h') && Endings(h, p)
    requires h'.spawned == h.spawned && h'.log == h.log && h'.quit == h.quit && h'.threads == h.threads
    requires h'.ids == h.ids
    ensures Endings(h', p)
  {
    hide Means;
    forall k | 0 <= k < |h'.log| ensures EndingOk(h', h'.log[k], p) { assert EndingOk(h, h.log[k], p); }
    forall a | 0 <= a < |h'.spawned| ensures Active(h', a) || Logged(h'.log, a) {
      assert Active(h, a) || Logged(h.log, a);
    }
  }

  lemma CountersHonest(h: Host, starts: nat, batches: nat, cmd: Value, model: Value, p: Program)
    requires Honest(h, cmd, model, p)
    ensures Honest(h.(starts := starts, batches := batches), cmd, model, p)
  {
    hide Means, FromTask, Fold, Ordered;
    var h' := h.(starts := starts, batches := batches);
    forall j | 0 <= j < MAX_EVALS && h'.threads[j].Some? ensures EvaluationOk(h', j, p) {
      assert EvaluationOk(h, j, p);
    }
    SameBirths(h, h');
    SameEndings(h, h', p);
  }

  // ----- a round of an evaluation -----

  /** Where a round leads with further answers. */
  lemma Led(c: Config, task: Value, heard: seq<Result>, answers: seq<Result>, w: World) returns (n: nat)
    requires FromTask(c, task, heard, w)
    ensures Onward(Next(Config(task, []), heard + answers), w, LIMIT, n) == Step(c, answers, w, LIMIT)
  {
    hide Step;
    var m: nat :| Onward(Next(Config(task, []), heard), w, LIMIT, m) == Next(c, []);
    OnwardWith(Next(Config(task, []), heard), w, LIMIT, m, answers);
    assert [] + answers == answers;
    OnwardPlus(Next(Config(task, []), heard + answers), w, LIMIT, m, 1);
    assert Onward(Next(c, answers), w, LIMIT, 1) == Onward(Step(c, answers, w, LIMIT), w, LIMIT, 0);
    n := m + 1;
  }

  /** All answers have been used in a round: it had one only for a leaf. */
  lemma UsedUp(c: Config, answers: seq<Result>, w: World)
    requires |answers| <= 1 && (answers != [] ==> IsLeaf(c))
    ensures var o := Step(c, answers, w, LIMIT); (o.Next? || o.Ended? ==> o.rest == [])
    ensures var o := Step(c, answers, w, LIMIT); o.Waiting? ==> o.c == c && IsLeaf(c) && answers == []
  {
    hide Unwind;
  }

  lemma PlaceIs(h: Host, i: nat, p: Program)
    requires Kept(h, p) && i < MAX_EVALS && h.threads[i].Some?
    ensures h.ids[i] < |h.spawned| && FromTask(h.threads[i].value.config, h.spawned[h.ids[i]].task, h.heard[i], p.w)
    ensures h.threads[i].value.waiting ==> IsLeaf(h.threads[i].value.config)
  {
    hide FromTask;
    assert EvaluationOk(h, i, p);
  }

  /** Following the round of the evaluation at place i, with the answer of its leaf if it got one, keeps
      the books. */
  lemma FollowHonest(h: Host, i: nat, answers: seq<Result>, cmd: Value, model: Value, p: Program)
    requires Honest(h, cmd, model, p) && i < MAX_EVALS && h.threads[i].Some? && |answers| <= 1
    requires answers != [] ==> IsLeaf(h.threads[i].value.config)
    requires Follow(Hear(h, i, answers), i, Step(h.threads[i].value.config, answers, p.w, LIMIT), p).Some?
    ensures Honest(Follow(Hear(h, i, answers), i, Step(h.threads[i].value.config, answers, p.w, LIMIT), p).value, cmd,
      model, p)
  {
    PlaceIs(h, i, p);
    hide Honest, Step, FromTask, Follow;
    var c := h.threads[i].value.config;
    var task := h.spawned[h.ids[i]].task;
    var n := Led(c, task, h.heard[i], answers, p.w);
    UsedUp(c, answers, p.w);
    if answers == [] { assert h.heard[i] + answers == h.heard[i]; }
    FollowCase(h, i, Step(c, answers, p.w, LIMIT), h.heard[i] + answers, n, cmd, model, p);
  }

  lemma FollowCase(h: Host, i: nat, o: Outcome, heard: seq<Result>, n: nat, cmd: Value, model: Value, p: Program)
    requires Honest(h, cmd, model, p) && i < MAX_EVALS && h.threads[i].Some? && h.ids[i] < |h.spawned|
    requires Onward(Next(Config(h.spawned[h.ids[i]].task, []), heard), p.w, LIMIT, n) == o
    requires o.Next? || o.Ended? ==> o.rest == []
    requires o.Waiting? ==> IsLeaf(o.c) && FromTask(o.c, h.spawned[h.ids[i]].task, heard, p.w)
    requires Follow(h.(heard := h.heard[i := heard]), i, o, p).Some?
    ensures Honest(Follow(h.(heard := h.heard[i := heard]), i, o, p).value, cmd, model, p)
  {
    assert Sized(h);
    hide Onward, Means, Fold, Ordered, Kept;
    var task := h.spawned[h.ids[i]].task;
    match o {
      case Next(c, _) =>
        assert FromTask(c, task, heard, p.w);
        ContinueKept(h, i, Thread(c, false), heard, p);
      case Waiting(c) => ContinueKept(h, i, Thread(c, true), heard, p);
      case Ended(r, _) =>
        assert Ends(task, p.w, LIMIT, heard, r);
        Exactly(task, p.w, LIMIT, heard, r);
        hide Ends;
        if r.Ok? {
          DeliverHonest(h, i, heard, r.value, cmd, model, p);
        } else {
          DropKept(h, i, heard, r, p);
          LogPlus(p, cmd, model, h.log, Ending(h.ids[i], heard, r));
        }
    }
  }

  lemma RoundHonest(h: Host, i: nat, cmd: Value, model: Value, p: Program)
    requires Honest(h, cmd, model, p) && i < MAX_EVALS && h.threads[i].Some? && Round(h, i, p).Some?
    ensures Honest(Round(h, i, p).value, cmd, model, p)
  {
    hide Honest, Step, Follow, CmdTasks;
    HonestSized(h, cmd, model, p);
    var c := h.threads[i].value.config;
    if IsLeaf(c) {
      var h1 := h.(starts := h.starts + 1);
      CountersHonest(h, h.starts + 1, h.batches, cmd, model, p);
      assert h1 == h.(starts := h.starts + 1, batches := h.batches);
      assert Hear(h, i, Asked(h, p)).(starts := h.starts + 1) == Hear(h1, i, Asked(h, p));
      FollowHonest(h1, i, Asked(h, p), cmd, model, p);
    } else {
      HearNothing(h, i);
      FollowHonest(h, i, [], cmd, model, p);
    }
  }

  lemma HonestSized(h: Host, cmd: Value, model: Value, p: Program)
    requires Honest(h, cmd, model, p)
    ensures Sized(h)
  {
  }

  lemma HearNothing(h: Host, i: nat)
    requires Sized(h) && i < MAX_EVALS
    ensures Hear(h, i, []) == h
  {
    assert h.heard[i] + [] == h.heard[i];
    assert h.heard[i := h.heard[i] + []] == h.heard;
  }

  lemma FinishHonest(h: Host, i: nat, r: Result, cmd: Value, model: Value, p: Program)
    requires Honest(h, cmd, model, p) && i < MAX_EVALS && h.threads[i].Some? && h.threads[i].value.waiting
    requires Finish(h, i, r, p).Some?
    ensures Honest(Finish(h, i, r, p).value, cmd, model, p)
  {
    PlaceIs(h, i, p);
    hide Honest, FromTask, Complete;
    FollowHonest(h, i, [r], cmd, model, p);
  }

  // ----- a whole run -----

  lemma {:induction false} RunEvalHonest(h: Host, i: nat, gen: nat, n: nat, cmd: Value, model: Value, p: Program)
    requires Sized(h) && Honest(h, cmd, model, p) && i < MAX_EVALS && !RunEval(h, i, gen, n, p).Panicked?
    ensures Honest(RunEval(h, i, gen, n, p).h, cmd, model, p)
    decreases n
  {
    hide Honest, Round;
    if Runnable(h, i) && h.gens[i] == gen && n > 0 {
      RoundHonest(h, i, cmd, model, p);
      RunEvalHonest(Round(h, i, p).value, i, gen, n - 1, cmd, model, p);
    }
  }

  lemma {:induction false} SweepHonest(h: Host, i: nat, n: nat, cmd: Value, model: Value, p: Program)
    requires Sized(h) && Honest(h, cmd, model, p) && i <= MAX_EVALS && !Sweep(h, i, n, p).Panicked?
    ensures Honest(Sweep(h, i, n, p).h, cmd, model, p)
    decreases MAX_EVALS - i
  {
    hide Honest, RunEval;
    if i < MAX_EVALS {
      RunEvalHonest(h, i, h.gens[i], n, cmd, model, p);
      var r := RunEval(h, i, h.gens[i], n, p);
      if r.At? { SweepHonest(r.h, i + 1, n, cmd, model, p); }
    }
  }

  lemma {:induction false} CompleteAllHonest(h: Host, events: seq<Event>, cmd: Value, model: Value, p: Program)
    requires Sized(h) && Honest(h, cmd, model, p) && !CompleteAll(h, events, p).Panicked?
    ensures Honest(CompleteAll(h, events, p).h, cmd, model, p)
    decreases events
  {
    hide Honest, Finish;
    if events != [] {
      var e := events[0];
      if e.place < MAX_EVALS && h.threads[e.place].Some? && h.threads[e.place].value.waiting {
        FinishHonest(h, e.place, Outcomes(e), cmd, model, p);
        CompleteAllHonest(Finish(h, e.place, Outcomes(e), p).value, events[1..], cmd, model, p);
      } else {
        CompleteAllHonest(h, events[1..], cmd, model, p);
      }
    }
  }

  lemma BatchHonest(h: Host, events: seq<Event>, cmd: Value, model: Value, p: Program)
    requires Sized(h) && Honest(h, cmd, model, p) && !CompleteAll(h.(batches := h.batches + 1), events, p).Panicked?
    ensures Honest(CompleteAll(h.(batches := h.batches + 1), events, p).h, cmd, model, p)
  {
    CountersHonest(h, h.starts, h.batches + 1, cmd, model, p);
    hide Honest;
    assert h.(starts := h.starts, batches := h.batches + 1) == h.(batches := h.batches + 1);
    CompleteAllHonest(h.(batches := h.batches + 1), events, cmd, model, p);
  }

  lemma {:induction false} SettleHonest(h: Host, n: nat, m: nat, cmd: Value, model: Value, p: Program)
    requires Sized(h) && Honest(h, cmd, model, p) && !Settle(h, n, m, p).Panicked?
    ensures Honest(Settle(h, n, m, p).h, cmd, model, p)
    decreases m
  {
    hide Honest, Sweep, CompleteAll, HasRunnable;
    if HasRunnable(h) && m > 0 {
      SweepHonest(h, 0, n, cmd, model, p);
      var h1 := Sweep(h, 0, n, p).h;
      if Sweep(h, 0, n, p).At? && !h1.quit {
        BatchHonest(h1, p.sys.ready(h1.batches), cmd, model, p);
        if Batch(h1, p).At? { SettleHonest(Batch(h1, p).h, n, m - 1, cmd, model, p); }
      }
    }
  }

  lemma TurnHonest(h: Host, n: nat, cmd: Value, model: Value, p: Program)
    requires Sized(h) && Honest(h, cmd, model, p) && !Turn(h, n, p).Panicked?
    ensures Honest(Turn(h, n, p).h, cmd, model, p)
  {
    hide Honest, Sweep, CompleteAll, Settle, NoneActive;
    SweepHonest(h, 0, n, cmd, model, p);
    var h1 := Sweep(h, 0, n, p).h;
    if Sweep(h, 0, n, p).At? && !Over(h1) {
      BatchHonest(h1, p.sys.ready(h1.batches), cmd, model, p);
      var h2 := Batch(h1, p).h;
      if Batch(h1, p).At? && !NoneActive(h2) { SettleHonest(h2, n, n, cmd, model, p); }
    }
  }

  lemma AroundHonest(h: Host, n: nat, cmd: Value, model: Value, p: Program)
    requires Sized(h) && Honest(h, cmd, model, p)
    ensures var a := Around(h, n, p); Honest(if a.Again? then a.h else a.r.h, cmd, model, p)
  {
    hide Honest, Turn, CompleteAll, NoneActive;
    var t := Turn(h, n, p);
    if !t.Panicked? {
      TurnHonest(h, n, cmd, model, p);
      var events := p.sys.poll(t.h.batches);
      if t.At? && !Over(t.h) && events.Some? {
        var c := CompleteAll(t.h.(batches := t.h.batches + 1), events.value, p);
        if c.At? { BatchHonest(t.h, events.value, cmd, model, p); }
      }
    }
  }

  /** A run keeps the books, whatever the system does. */
  lemma {:induction false} DriveHonest(h: Host, turns: nat, n: nat, cmd: Value, model: Value, p: Program)
    requires Sized(h) && Honest(h, cmd, model, p)
    ensures Honest(Drive(h, turns, n, p).h, cmd, model, p)
    decreases turns
  {
    hide Honest, Around, NoneActive;
    if !Over(h) && turns > 0 {
      AroundHonest(h, n, cmd, model, p);
      var a := Around(h, n, p);
      if a.Again? { DriveHonest(a.h, turns - 1, n, cmd, model, p); }
    }
  }

  ghost predicate Empty(h: Host, model: Value) {
    Sized(h) && h.model == model && h.log == [] && h.spawned == [] && !h.quit && NoneActive(h)
  }

  lemma StartEmpty(model: Value)
    ensures Empty(Start(model), model)
  {
  }

  lemma BeginHonest(h: Host, cmd: Value, model: Value, p: Program)
    requires Empty(h, model) && PlaceAll(h, cmd).Some?
    ensures Honest(PlaceAll(h, cmd).value, cmd, model, p)
  {
    assert Kept(h, p);
    PlaceAllKept(h, cmd, p);
    assert TasksOf(h.spawned) + CmdTasks(cmd) == CmdTasks(cmd);
  }

  /** When a run has finished without a quit, every task that the first command or update asked for has
      been evaluated, once, to what it means, and every message has reached update. */
  lemma AllEnded(h: Host, turns: nat, n: nat, cmd: Value, model: Value, p: Program)
    requires Sized(h) && Honest(h, cmd, model, p)
    ensures var r := Drive(h, turns, n, p);
      r.end.Finished? && !r.h.quit ==>
        forall a :: 0 <= a < |r.h.spawned| ==> Logged(r.h.log, a) && !Active(r.h, a)
  {
    hide Turn, CompleteAll, Means, Fold, Ordered;
    DriveHonest(h, turns, n, cmd, model, p);
    FinishedOver(h, turns, n, p);
    var r := Drive(h, turns, n, p);
    hide Drive;
    if r.end.Finished? && !r.h.quit {
      forall a | 0 <= a < |r.h.spawned| ensures Logged(r.h.log, a) && !Active(r.h, a) {
        assert Active(r.h, a) || Logged(r.h.log, a);
      }
    }
  }

  lemma {:induction false} FinishedOver(h: Host, turns: nat, n: nat, p: Program)
    requires Sized(h)
    ensures var r := Drive(h, turns, n, p); r.end.Finished? ==> Over(r.h)
    decreases turns
  {
    hide Turn, CompleteAll, NoneActive;
    if !Over(h) && turns > 0 {
      var a := Around(h, n, p);
      if a.Again? { FinishedOver(a.h, turns - 1, n, p); }
    }
  }
}
