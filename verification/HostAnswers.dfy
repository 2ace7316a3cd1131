/** What becomes of answers and messages: an answer reaches the evaluation that waits for it and no other,
    a message changes the model as update says, and what is spawned meanwhile is not touched. */
module HostAnswers {
  import opened Wrappers
  import opened Tasks
  import opened HostState
  import opened HostRuns

  // ----- places -----

  predicate SamePlace(h: Host, h': Host, j: nat)
    requires Sized(h) && Sized(h') && j < MAX_EVALS
  {
    h'.threads[j] == h.threads[j] && h'.gens[j] == h.gens[j] && h'.ids[j] == h.ids[j] && h'.heard[j] == h.heard[j]
  }

  /** A task has been spawned at place j, of which no round has been made. */
  predicate Newborn(h: Host, h': Host, j: nat)
    requires Sized(h) && Sized(h') && j < MAX_EVALS
  {
    && h.gens[j] < h'.gens[j] && |h.spawned| <= h'.ids[j] < |h'.spawned| && h'.heard[j] == []
    && h'.threads[j] == Some(Thread(Config(h'.spawned[h'.ids[j]].task, []), false))
  }

  predicate Untouched(h: Host, h': Host, j: nat)
    requires Sized(h) && Sized(h') && j < MAX_EVALS
  {
    SamePlace(h, h', j) || (h.threads[j].None? && Newborn(h, h', j))
  }

  /** The books grow, and generations. */
  predicate Grows(h: Host, h': Host)
    requires Sized(h) && Sized(h')
  {
    h.spawned <= h'.spawned && h.log <= h'.log && forall j :: 0 <= j < MAX_EVALS ==> h.gens[j] <= h'.gens[j]
  }

  ghost predicate AllUntouched(h: Host, h': Host)
    requires Sized(h) && Sized(h')
  {
    Grows(h, h') && forall j :: 0 <= j < MAX_EVALS ==> Untouched(h, h', j)
  }

  /** Nothing else is touched than place i. */
  ghost predicate OnlyAt(h: Host, h': Host, i: nat)
    requires Sized(h) && Sized(h')
  {
    Grows(h, h') && forall j :: 0 <= j < MAX_EVALS && j != i ==> Untouched(h, h', j)
  }

  lemma GrowsThen(h: Host, h1: Host, h2: Host)
    requires Sized(h) && Sized(h1) && Sized(h2) && Grows(h, h1) && Grows(h1, h2)
    ensures Grows(h, h2)
  {
  }

  lemma UntouchedThen(h: Host, h1: Host, h2: Host, j: nat)
    requires Sized(h) && Sized(h1) && Sized(h2) && j < MAX_EVALS && Grows(h, h1) && Grows(h1, h2)
    requires Untouched(h, h1, j) && Untouched(h1, h2, j)
    ensures Untouched(h, h2, j)
  {
  }

  lemma NewbornThen(h: Host, h1: Host, h2: Host, j: nat)
    requires Sized(h) && Sized(h1) && Sized(h2) && j < MAX_EVALS && Grows(h, h1) && Grows(h1, h2)
    ensures Newborn(h, h1, j) && Untouched(h1, h2, j) ==> Newborn(h, h2, j)
    ensures Newborn(h1, h2, j) ==> Newborn(h, h2, j)
  {
  }

  // ----- spawning -----

  lemma PlaceUntouched(h: Host, task: Value)
    requires Sized(h) && Place(h, task).Some?
    ensures AllUntouched(h, Place(h, task).value)
  {
  }

  lemma {:induction false} PlaceAllUntouched(h: Host, cmd: Value)
    requires Sized(h) && PlaceAll(h, cmd).Some?
    ensures var h' := PlaceAll(h, cmd).value;
      && AllUntouched(h, h') && h'.model == h.model && h'.log == h.log && h'.quit == h.quit
      && h'.starts == h.starts && h'.batches == h.batches
      && TasksOf(h'.spawned) == TasksOf(h.spawned) + CmdTasks(cmd)
    decreases cmd
  {
    hide Newborn, SamePlace;
    if cmd.Pair? {
      var h1 := Place(h, cmd.first).value;
      PlaceUntouched(h, cmd.first);
      PlaceTask(h, cmd.first);
      PlaceCounters(h, cmd.first);
      PlaceAllUntouched(h1, cmd.second);
      hide Place, Untouched, Grows;
      AllUntouchedThen(h, h1, PlaceAll(h, cmd).value);
    } else {
      AllUntouchedSelf(h);
    }
  }

  lemma PlaceCounters(h: Host, task: Value)
    requires Sized(h) && Place(h, task).Some?
    ensures var h' := Place(h, task).value; h'.quit == h.quit && h'.starts == h.starts && h'.batches == h.batches
  {
  }

  lemma AllUntouchedSelf(h: Host)
    requires Sized(h)
    ensures AllUntouched(h, h)
  {
  }

  lemma AllUntouchedThen(h: Host, h1: Host, h2: Host)
    requires Sized(h) && Sized(h1) && Sized(h2) && AllUntouched(h, h1) && AllUntouched(h1, h2)
    ensures AllUntouched(h, h2)
  {
    hide Untouched, Grows;
    GrowsThen(h, h1, h2);
    forall j | 0 <= j < MAX_EVALS ensures Untouched(h, h2, j) { UntouchedThen(h, h1, h2, j); }
  }

  /** A command with these tasks. */
  function CmdOf(tasks: seq<Value>): Value {
    if tasks == [] then Nil else Pair(tasks[0], CmdOf(tasks[1..]))
  }

  lemma {:induction false} TasksOfCmd(tasks: seq<Value>)
    ensures CmdTasks(CmdOf(tasks)) == tasks
  {
    if tasks != [] { TasksOfCmd(tasks[1..]); }
  }

  function FreePlaces(threads: seq<Option<Thread>>): nat {
    if threads == [] then 0
    else FreePlaces(threads[..|threads| - 1]) + if threads[|threads| - 1].None? then 1 else 0
  }

  lemma {:induction false} FreeTaken(threads: seq<Option<Thread>>, i: nat, t: Thread)
    requires i < |threads| && threads[i].None?
    ensures FreePlaces(threads[i := Some(t)]) == FreePlaces(threads) - 1
  {
    var n := |threads| - 1;
    if i < n {
      FreeTaken(threads[..n], i, t);
      assert threads[i := Some(t)][..n] == threads[..n][i := Some(t)];
    } else {
      assert threads[i := Some(t)][..n] == threads[..n];
    }
  }

  lemma {:induction false} NoneFree(threads: seq<Option<Thread>>)
    ensures FreePlaces(threads) == 0 <==> forall i :: 0 <= i < |threads| ==> threads[i].Some?
  {
    if threads != [] {
      var n := |threads| - 1;
      NoneFree(threads[..n]);
      assert threads == threads[..n] + [threads[n]];
    }
  }

  /** Spawning panics exactly when there are more tasks than free places. */
  lemma {:induction false} SpawnFits(h: Host, cmd: Value)
    requires Sized(h)
    ensures PlaceAll(h, cmd).Some? <==> |CmdTasks(cmd)| <= FreePlaces(h.threads)
    decreases cmd
  {
    hide FreePlaces;
    if cmd.Pair? {
      NoneFree(h.threads);
      var i := FirstFree(h.threads, 0);
      if i < MAX_EVALS {
        FreeTaken(h.threads, i, Thread(Config(cmd.first, []), false));
        SpawnFits(Place(h, cmd.first).value, cmd.second);
      }
    }
  }

  // ----- messages -----

  /** Update gives a pair: its first is the model, and the tasks of its second are spawned. */
  lemma Delivered(h: Host, i: nat, msg: Value, m: Value, c: Value, p: Program)
    requires Sized(h) && i < MAX_EVALS && p.w.apply(p.update, [msg, h.model]) == Pair(m, c)
    requires Deliver(h, i, msg, p).Some?
    ensures var h' := Deliver(h, i, msg, p).value;
      && h'.model == m && TasksOf(h'.spawned) == TasksOf(h.spawned) + CmdTasks(c)
      && h'.log == h.log + [Ending(h.ids[i], h.heard[i], Ok(msg))] && OnlyAt(h, h', i)
  {
    var d := Drop(h.(model := m), i, Ok(msg));
    PlaceAllUntouched(d, c);
    DroppedOnly(h, m, i, Ok(msg));
    hide Untouched, Grows, Drop, PlaceAll;
    OnlyThen(h, d, Deliver(h, i, msg, p).value, i);
  }

  /** Update gives no pair: nothing comes of the message. */
  lemma Undelivered(h: Host, i: nat, msg: Value, p: Program)
    requires Sized(h) && i < MAX_EVALS && !p.w.apply(p.update, [msg, h.model]).Pair?
    ensures Deliver(h, i, msg, p).Some?
    ensures var h' := Deliver(h, i, msg, p).value;
      && h'.model == h.model && h'.spawned == h.spawned && h'.threads == h.threads[i := None]
      && h'.log == h.log + [Ending(h.ids[i], h.heard[i], Ok(msg))] && OnlyAt(h, h', i)
  {
    DroppedOnly(h, h.model, i, Ok(msg));
    assert h.(model := h.model) == h;
  }

  /** The questions to the system are not asked again. */
  lemma FollowCounters(h: Host, i: nat, o: Outcome, p: Program)
    requires Sized(h) && i < MAX_EVALS && Follow(h, i, o, p).Some?
    ensures var h' := Follow(h, i, o, p).value; h'.starts == h.starts && h'.batches == h.batches
  {
    hide NewModel, NewCommand, PlaceAll;
    if o.Ended? && o.r.Ok? {
      PlaceAllUntouched(Drop(h.(model := NewModel(p, o.r.value, h.model)), i, o.r), NewCommand(p, o.r.value, h.model));
    }
  }

  lemma DroppedOnly(h: Host, m: Value, i: nat, r: Result)
    requires Sized(h) && i < MAX_EVALS
    ensures OnlyAt(h, Drop(h.(model := m), i, r), i)
  {
  }

  lemma OnlyThen(h: Host, h1: Host, h2: Host, i: nat)
    requires Sized(h) && Sized(h1) && Sized(h2) && OnlyAt(h, h1, i) && (OnlyAt(h1, h2, i) || AllUntouched(h1, h2))
    ensures OnlyAt(h, h2, i)
  {
    hide Untouched, Grows;
    GrowsThen(h, h1, h2);
    forall j | 0 <= j < MAX_EVALS && j != i ensures Untouched(h, h2, j) { UntouchedThen(h, h1, h2, j); }
  }

  lemma DeliverOnly(h: Host, i: nat, msg: Value, p: Program)
    requires Sized(h) && i < MAX_EVALS && Deliver(h, i, msg, p).Some?
    ensures var h' := Deliver(h, i, msg, p).value;
      && h'.log == h.log + [Ending(h.ids[i], h.heard[i], Ok(msg))] && OnlyAt(h, h', i)
      && (h'.threads[i].None? || Newborn(h, h', i))
  {
    var d := Drop(h.(model := NewModel(p, msg, h.model)), i, Ok(msg));
    PlaceAllUntouched(d, NewCommand(p, msg, h.model));
    DroppedOnly(h, NewModel(p, msg, h.model), i, Ok(msg));
    hide NewModel, NewCommand, PlaceAll;
    OnlyThen(h, d, Deliver(h, i, msg, p).value, i);
    assert Untouched(d, Deliver(h, i, msg, p).value, i);
  }

  // ----- rounds -----

  /** The evaluation at place i has got further: to this machine, or to its end. */
  ghost predicate Went(h: Host, h': Host, i: nat, heard: seq<Result>, o: Outcome)
    requires Sized(h) && Sized(h') && i < MAX_EVALS
  {
    match o
    case Next(c, _) => InPlace(h, h', i, heard, Thread(c, false))
    case Waiting(c) => InPlace(h, h', i, heard, Thread(c, true))
    case Ended(r, _) => EndedWith(h, h', i, heard, r) && (h'.threads[i].None? || Newborn(h, h', i))
    case Overflow => false
  }

  predicate InPlace(h: Host, h': Host, i: nat, heard: seq<Result>, t: Thread)
    requires Sized(h) && Sized(h') && i < MAX_EVALS
  {
    h'.threads[i] == Some(t) && h'.gens[i] == h.gens[i] && h'.ids[i] == h.ids[i] && h'.heard[i] == heard
  }

  ghost predicate EndedWith(h: Host, h': Host, i: nat, heard: seq<Result>, r: Result)
    requires Sized(h) && i < MAX_EVALS
  {
    exists k :: |h.log| <= k < |h'.log| && h'.log[k] == Ending(h.ids[i], heard, r)
  }

  lemma FollowWent(h: Host, i: nat, answers: seq<Result>, o: Outcome, p: Program)
    requires Sized(h) && i < MAX_EVALS && h.threads[i].Some? && Follow(Hear(h, i, answers), i, o, p).Some?
    ensures var h' := Follow(Hear(h, i, answers), i, o, p).value;
      OnlyAt(h, h', i) && Went(h, h', i, h.heard[i] + answers, o)
  {
    hide NewModel, NewCommand, PlaceAll;
    var h1 := Hear(h, i, answers);
    var h' := Follow(h1, i, o, p).value;
    assert OnlyAt(h, h1, i);
    if o.Ended? {
      if o.r.Ok? {
        DeliverOnly(h1, i, o.r.value, p);
        hide Deliver;
        OnlyThen(h, h1, h', i);
        assert Newborn(h1, h', i) ==> Newborn(h, h', i);
      } else {
        DroppedOnly(h1, h1.model, i, o.r);
        assert h1.(model := h1.model) == h1;
        OnlyThen(h, h1, h', i);
      }
      assert h'.log[|h.log|] == Ending(h.ids[i], h.heard[i] + answers, o.r);
    }
  }

  /** A leaf that starts is answered at once or waits; any other evaluation makes a round of its machine. */
  lemma RoundWent(h: Host, i: nat, p: Program)
    requires Sized(h) && i < MAX_EVALS && h.threads[i].Some? && Round(h, i, p).Some?
    ensures var h', c := Round(h, i, p).value, h.threads[i].value.config;
      && OnlyAt(h, h', i)
      && (IsLeaf(c) && p.sys.start(h.starts) == None ==> Went(h, h', i, h.heard[i], Waiting(c)))
      && (IsLeaf(c) && p.sys.start(h.starts).Some? ==>
        var r := p.sys.start(h.starts).value; Went(h, h', i, h.heard[i] + [r], Complete(r, c.frames, [], p.w)))
      && (!IsLeaf(c) ==> Went(h, h', i, h.heard[i], Step(c, [], p.w, LIMIT)))
      && h'.starts == h.starts + (if IsLeaf(c) then 1 else 0) && h'.batches == h.batches
  {
    hide Complete, Follow, OnlyAt, Went;
    var c := h.threads[i].value.config;
    if IsLeaf(c) {
      var h1 := h.(starts := h.starts + 1);
      FollowCounters(Hear(h1, i, Asked(h, p)), i, Step(c, Asked(h, p), p.w, LIMIT), p);
      assert Hear(h, i, Asked(h, p)).(starts := h.starts + 1) == Hear(h1, i, Asked(h, p));
      FollowWent(h1, i, Asked(h, p), Step(c, Asked(h, p), p.w, LIMIT), p);
      assert h.heard[i] + [] == h.heard[i];
      LeafStep(c, Asked(h, p), p.w);
      WentFrom(h, h1, Round(h, i, p).value, i, h.heard[i] + Asked(h, p), Step(c, Asked(h, p), p.w, LIMIT));
    } else {
      HearNothing(h, i);
      FollowCounters(h, i, Step(c, [], p.w, LIMIT), p);
      FollowWent(h, i, [], Step(c, [], p.w, LIMIT), p);
      assert h.heard[i] + [] == h.heard[i];
    }
  }

  lemma LeafStep(c: Config, answers: seq<Result>, w: World)
    requires IsLeaf(c) && |answers| <= 1
    ensures Step(c, answers, w, LIMIT) == if answers == [] then Waiting(c) else Complete(answers[0], c.frames, [], w)
  {
    if answers != [] { assert answers[1..] == []; }
  }

  /** Counters do not matter. */
  lemma WentFrom(h: Host, h1: Host, h': Host, i: nat, heard: seq<Result>, o: Outcome)
    requires Sized(h) && Sized(h') && i < MAX_EVALS
    requires h1 == h.(starts := h1.starts, batches := h1.batches)
    requires OnlyAt(h1, h', i) && Went(h1, h', i, heard, o)
    ensures OnlyAt(h, h', i) && Went(h, h', i, heard, o)
  {
    assert forall j :: 0 <= j < MAX_EVALS && Untouched(h1, h', j) ==> Untouched(h, h', j);
  }

  // ----- sweeps -----

  /** When an evaluation stops it is over or waits; what is at its place and could be stepped has just been
      spawned there, and has made no round yet. */
  lemma {:induction false} RunEvalEnds(h: Host, i: nat, n: nat, p: Program)
    requires Sized(h) && i < MAX_EVALS && RunEval(h, i, h.gens[i], n, p).At?
    ensures var h' := RunEval(h, i, h.gens[i], n, p).h;
      OnlyAt(h, h', i) && (Runnable(h', i) ==> Newborn(h, h', i))
    decreases n
  {
    hide Round, Step, Complete, Newborn, Grows, Untouched;
    if Runnable(h, i) {
      RoundWent(h, i, p);
      var h1 := Round(h, i, p).value;
      WentCase(h, h1, i, p);
      if Runnable(h1, i) && h1.gens[i] == h.gens[i] {
        RunEvalEnds(h1, i, n - 1, p);
        var h' := RunEval(h, i, h.gens[i], n, p).h;
        OnlyThen(h, h1, h', i);
        NewbornThen(h, h1, h', i);
      }
    } else {
      GrowsSelf(h);
    }
  }

  lemma GrowsSelf(h: Host)
    requires Sized(h)
    ensures Grows(h, h) && forall j :: 0 <= j < MAX_EVALS ==> Untouched(h, h, j)
  {
  }

  lemma WentCase(h: Host, h': Host, i: nat, p: Program)
    requires Sized(h) && Sized(h') && i < MAX_EVALS
    requires exists heard, o :: Went(h, h', i, heard, o)
    ensures h'.threads[i].None? || h'.gens[i] == h.gens[i] || Newborn(h, h', i)
  {
  }

  /** After a sweep, what could be stepped at all has been spawned during the sweep, at a place that had
      been passed, and has made no round. */
  lemma {:induction false} SweepEnds(h: Host, i: nat, n: nat, p: Program)
    requires Sized(h) && i <= MAX_EVALS && Sweep(h, i, n, p).At?
    ensures var h' := Sweep(h, i, n, p).h;
      && Grows(h, h') && (forall j :: 0 <= j < i ==> Untouched(h, h', j))
      && forall j :: i <= j < MAX_EVALS && Runnable(h', j) ==> Newborn(h, h', j)
    decreases MAX_EVALS - i
  {
    hide RunEval, Newborn, Grows, Untouched, Runnable;
    GrowsSelf(h);
    if i < MAX_EVALS {
      RunEvalEnds(h, i, n, p);
      var h1 := RunEval(h, i, h.gens[i], n, p).h;
      SweepEnds(h1, i + 1, n, p);
      var h' := Sweep(h, i, n, p).h;
      GrowsThen(h, h1, h');
      forall j | 0 <= j < i ensures Untouched(h, h', j) { UntouchedThen(h, h1, h', j); }
      forall j | i <= j < MAX_EVALS && Runnable(h', j) ensures Newborn(h, h', j) {
        NewbornThen(h, h1, h', j);
        if j == i { StillRunnable(h1, h', i); }
      }
    }
  }

  lemma StillRunnable(h: Host, h': Host, i: nat)
    requires Sized(h) && Sized(h') && i < MAX_EVALS && Untouched(h, h', i) && Runnable(h', i)
    ensures Runnable(h, i) || Newborn(h, h', i)
  {
  }

  // ----- answers -----

  /** The first of the events for place i. */
  function First(events: seq<Event>, i: nat): (e: Option<Event>)
    ensures e.None? ==> forall k :: 0 <= k < |events| ==> events[k].place != i
    ensures e.Some? ==> e.value in events && e.value.place == i
  {
    if events == [] then None else if events[0].place == i then Some(events[0]) else First(events[1..], i)
  }

  predicate Awaited(h: Host, events: seq<Event>, i: nat)
    requires Sized(h) && i < MAX_EVALS
  {
    h.threads[i].Some? && h.threads[i].value.waiting && First(events, i).Some?
  }

  function AnswerOf(events: seq<Event>, i: nat): Result
    requires First(events, i).Some?
  {
    var e := First(events, i).value;
    if e.ok then Ok(e.value) else Err(e.value)
  }

  /** The evaluation at place i has been given this answer. */
  ghost predicate Given(h: Host, h': Host, i: nat, r: Result, p: Program)
    requires Sized(h) && Sized(h') && i < MAX_EVALS && h.threads[i].Some?
  {
    Went(h, h', i, h.heard[i] + [r], Complete(r, h.threads[i].value.config.frames, [], p.w))
  }

  lemma GivenThen(h: Host, h1: Host, h': Host, i: nat, r: Result, p: Program)
    requires Sized(h) && Sized(h1) && Sized(h') && i < MAX_EVALS && h.threads[i].Some?
    requires Grows(h, h1) && Grows(h1, h') && Given(h, h1, i, r, p) && Untouched(h1, h', i)
    ensures Given(h, h', i, r, p)
  {
    hide Complete;
  }

  lemma SameThenGiven(h: Host, h1: Host, h': Host, i: nat, r: Result, p: Program)
    requires Sized(h) && Sized(h1) && Sized(h') && i < MAX_EVALS && h.threads[i].Some?
    requires Grows(h, h1) && Grows(h1, h') && SamePlace(h, h1, i) && Given(h1, h', i, r, p)
    ensures Given(h, h', i, r, p)
  {
    hide Complete;
  }

  lemma GivenNotWaiting(h: Host, h': Host, i: nat, r: Result, p: Program)
    requires Sized(h) && Sized(h') && i < MAX_EVALS && h.threads[i].Some? && Given(h, h', i, r, p)
    ensures h'.threads[i].None? || !h'.threads[i].value.waiting
  {
    hide Unwind;
  }

  lemma FinishGiven(h: Host, i: nat, r: Result, p: Program)
    requires Sized(h) && i < MAX_EVALS && h.threads[i].Some? && Finish(h, i, r, p).Some?
    ensures var h' := Finish(h, i, r, p).value; OnlyAt(h, h', i) && Given(h, h', i, r, p)
  {
    hide Complete, Follow, OnlyAt, Went;
    FollowWent(h, i, [r], Complete(r, h.threads[i].value.config.frames, [], p.w), p);
  }

  lemma EventAnswer(events: seq<Event>, i: nat)
    requires First(events, i).Some?
    ensures AnswerOf(events, i) == Outcomes(First(events, i).value)
  {
  }

  /** Every evaluation that waits is given the answer of the first event for its place, and one without an
      event is left as it is, as is any that does not wait. */
  lemma {:induction false} AllGiven(h: Host, events: seq<Event>, p: Program, i: nat)
    requires Sized(h) && i < MAX_EVALS && CompleteAll(h, events, p).At?
    ensures var h' := CompleteAll(h, events, p).h;
      Grows(h, h') && if Awaited(h, events, i) then Given(h, h', i, AnswerOf(events, i), p) else Untouched(h, h', i)
    decreases events
  {
    hide Finish, Given, Grows, Untouched, Outcomes, AnswerOf;
    GrowsSelf(h);
    if events != [] {
      var e, rest := events[0], events[1..];
      var h' := CompleteAll(h, events, p).h;
      if e.place < MAX_EVALS && h.threads[e.place].Some? && h.threads[e.place].value.waiting {
        var h1 := Finish(h, e.place, Outcomes(e), p).value;
        FinishGiven(h, e.place, Outcomes(e), p);
        AllGiven(h1, rest, p, i);
        GrowsThen(h, h1, h');
        if e.place == i {
          EventAnswer(events, i);
          GivenNotWaiting(h, h1, i, Outcomes(e), p);
          GivenThen(h, h1, h', i, Outcomes(e), p);
        } else {
          OtherEvent(h, h1, h', events, p, i);
        }
      } else {
        AllGiven(h, rest, p, i);
        if e.place != i { LaterEvent(events, i); }
      }
    }
  }

  lemma LaterEvent(events: seq<Event>, i: nat)
    requires events != [] && events[0].place != i
    ensures First(events, i) == First(events[1..], i)
    ensures First(events, i).Some? ==> AnswerOf(events, i) == AnswerOf(events[1..], i)
  {
  }

  lemma OtherEvent(h: Host, h1: Host, h': Host, events: seq<Event>, p: Program, i: nat)
    requires Sized(h) && Sized(h1) && Sized(h') && i < MAX_EVALS && events != [] && events[0].place != i
    requires Grows(h, h1) && Grows(h1, h') && Untouched(h, h1, i)
    requires if Awaited(h1, events[1..], i) then Given(h1, h', i, AnswerOf(events[1..], i), p) else Untouched(h1, h', i)
    ensures if Awaited(h, events, i) then Given(h, h', i, AnswerOf(events, i), p) else Untouched(h, h', i)
  {
    hide Given, Grows, AnswerOf;
    LaterEvent(events, i);
    if Awaited(h, events, i) {
      SameThenGiven(h, h1, h', i, AnswerOf(events, i), p);
    } else {
      UntouchedThen(h, h1, h', i);
    }
  }

  // ----- over whole runs -----

  /** The evaluation at place i of h is still there, or over, and has heard at least this. */
  ghost predicate Known(h: Host, h': Host, i: nat, heard: seq<Result>)
    requires Sized(h) && Sized(h') && i < MAX_EVALS
  {
    || (h'.threads[i].Some? && h'.gens[i] == h.gens[i] && h'.ids[i] == h.ids[i] && heard <= h'.heard[i])
    || exists k :: |h.log| <= k < |h'.log| && h'.log[k].id == h.ids[i] && heard <= h'.log[k].heard
  }

  /** No evaluation is lost or has forgotten what it heard. */
  ghost predicate Later(h: Host, h': Host)
    requires Sized(h) && Sized(h')
  {
    Grows(h, h') && forall i :: 0 <= i < MAX_EVALS && h.threads[i].Some? ==> Known(h, h', i, h.heard[i])
  }

  lemma KnownThen(h: Host, h1: Host, h': Host, i: nat, heard: seq<Result>)
    requires Sized(h) && Sized(h1) && Sized(h') && i < MAX_EVALS && Grows(h, h1) && Later(h1, h')
    requires Known(h, h1, i, heard)
    ensures Known(h, h', i, heard)
  {
    if h1.threads[i].Some? && h1.gens[i] == h.gens[i] && h1.ids[i] == h.ids[i] && heard <= h1.heard[i] {
      assert Known(h1, h', i, h1.heard[i]);
    } else {
      var k :| |h.log| <= k < |h1.log| && h1.log[k].id == h.ids[i] && heard <= h1.log[k].heard;
      assert h'.log[k] == h1.log[k];
    }
  }

  lemma LaterThen(h: Host, h1: Host, h': Host)
    requires Sized(h) && Sized(h1) && Sized(h') && Later(h, h1) && Later(h1, h')
    ensures Later(h, h')
  {
    hide Known, Grows;
    GrowsThen(h, h1, h');
    forall i | 0 <= i < MAX_EVALS && h.threads[i].Some? ensures Known(h, h', i, h.heard[i]) {
      KnownThen(h, h1, h', i, h.heard[i]);
    }
  }

  lemma LaterSelf(h: Host)
    requires Sized(h)
    ensures Later(h, h)
  {
  }

  lemma WentKnown(h: Host, h': Host, i: nat, heard: seq<Result>, o: Outcome)
    requires Sized(h) && Sized(h') && i < MAX_EVALS && Went(h, h', i, heard, o)
    ensures Known(h, h', i, heard)
  {
    if o.Ended? {
      var k :| |h.log| <= k < |h'.log| && h'.log[k] == Ending(h.ids[i], heard, o.r);
      assert h'.log[k].id == h.ids[i] && heard <= h'.log[k].heard;
    }
  }

  lemma UntouchedKnown(h: Host, h': Host, i: nat)
    requires Sized(h) && Sized(h') && i < MAX_EVALS && h.threads[i].Some? && Untouched(h, h', i)
    ensures Known(h, h', i, h.heard[i])
  {
  }

  lemma KnownLess(h: Host, h': Host, i: nat, heard: seq<Result>, more: seq<Result>)
    requires Sized(h) && Sized(h') && i < MAX_EVALS && Known(h, h', i, heard + more)
    ensures Known(h, h', i, heard)
  {
    if exists k :: |h.log| <= k < |h'.log| && h'.log[k].id == h.ids[i] && heard + more <= h'.log[k].heard {
      var k :| |h.log| <= k < |h'.log| && h'.log[k].id == h.ids[i] && heard + more <= h'.log[k].heard;
      assert heard <= heard + more <= h'.log[k].heard;
    }
  }

  lemma RoundLater(h: Host, i: nat, p: Program)
    requires Sized(h) && i < MAX_EVALS && h.threads[i].Some? && Round(h, i, p).Some?
    ensures Later(h, Round(h, i, p).value)
  {
    hide Round, Step, Complete, Went, Known, Grows, Untouched;
    RoundWent(h, i, p);
    var h', c := Round(h, i, p).value, h.threads[i].value.config;
    if !IsLeaf(c) {
      WentKnown(h, h', i, h.heard[i], Step(c, [], p.w, LIMIT));
    } else if p.sys.start(h.starts) == None {
      WentKnown(h, h', i, h.heard[i], Waiting(c));
    } else {
      var r := p.sys.start(h.starts).value;
      WentKnown(h, h', i, h.heard[i] + [r], Complete(r, c.frames, [], p.w));
      KnownLess(h, h', i, h.heard[i], [r]);
    }
    forall j | 0 <= j < MAX_EVALS && j != i && h.threads[j].Some? ensures Known(h, h', j, h.heard[j]) {
      UntouchedKnown(h, h', j);
    }
  }

  lemma {:induction false} RunEvalLater(h: Host, i: nat, gen: nat, n: nat, p: Program)
    requires Sized(h) && i < MAX_EVALS && !RunEval(h, i, gen, n, p).Panicked?
    ensures Later(h, RunEval(h, i, gen, n, p).h)
    decreases n
  {
    hide Round, Later;
    LaterSelf(h);
    if Runnable(h, i) && h.gens[i] == gen && n > 0 {
      var h1 := Round(h, i, p).value;
      RoundLater(h, i, p);
      RunEvalLater(h1, i, gen, n - 1, p);
      LaterThen(h, h1, RunEval(h, i, gen, n, p).h);
    }
  }

  lemma {:induction false} SweepLater(h: Host, i: nat, n: nat, p: Program)
    requires Sized(h) && i <= MAX_EVALS && !Sweep(h, i, n, p).Panicked?
    ensures Later(h, Sweep(h, i, n, p).h)
    decreases MAX_EVALS - i
  {
    hide RunEval, Later;
    LaterSelf(h);
    if i < MAX_EVALS {
      RunEvalLater(h, i, h.gens[i], n, p);
      var r := RunEval(h, i, h.gens[i], n, p);
      if r.At? {
        SweepLater(r.h, i + 1, n, p);
        LaterThen(h, r.h, Sweep(h, i, n, p).h);
      }
    }
  }

  lemma CompleteAllLater(h: Host, events: seq<Event>, p: Program)
    requires Sized(h) && CompleteAll(h, events, p).At?
    ensures Later(h, CompleteAll(h, events, p).h)
  {
    hide CompleteAll, Complete, Went, Known, Grows, Untouched;
    var h' := CompleteAll(h, events, p).h;
    AllGiven(h, events, p, 0);
    forall i | 0 <= i < MAX_EVALS && h.threads[i].Some? ensures Known(h, h', i, h.heard[i]) {
      AllGiven(h, events, p, i);
      if Awaited(h, events, i) {
        var r := AnswerOf(events, i);
        WentKnown(h, h', i, h.heard[i] + [r], Complete(r, h.threads[i].value.config.frames, [], p.w));
        KnownLess(h, h', i, h.heard[i], [r]);
      } else {
        UntouchedKnown(h, h', i);
      }
    }
  }

  /** Completing is At or a panic, and asks nothing. */
  lemma {:induction false} NeverCut(h: Host, events: seq<Event>, p: Program)
    requires Sized(h)
    ensures var r := CompleteAll(h, events, p);
      !r.Cut? && (r.At? ==> r.h.starts == h.starts && r.h.batches == h.batches)
    decreases events
  {
    hide Follow, Complete;
    if events != [] {
      var e := events[0];
      if e.place < MAX_EVALS && h.threads[e.place].Some? && h.threads[e.place].value.waiting {
        var r := Finish(h, e.place, Outcomes(e), p);
        if r.Some? {
          FollowCounters(Hear(h, e.place, [Outcomes(e)]), e.place,
            Complete(Outcomes(e), h.threads[e.place].value.config.frames, [], p.w), p);
          NeverCut(r.value, events[1..], p);
        }
      } else {
        NeverCut(h, events[1..], p);
      }
    }
  }

  lemma BatchLater(h: Host, events: seq<Event>, p: Program)
    requires Sized(h) && !CompleteAll(h.(batches := h.batches + 1), events, p).Panicked?
    ensures Later(h, CompleteAll(h.(batches := h.batches + 1), events, p).h)
  {
    hide CompleteAll;
    var h1 := h.(batches := h.batches + 1);
    NeverCut(h1, events, p);
    CompleteAllLater(h1, events, p);
    LaterThen(h, h1, CompleteAll(h1, events, p).h);
  }

  lemma {:induction false} SettleLater(h: Host, n: nat, m: nat, p: Program)
    requires Sized(h) && !Settle(h, n, m, p).Panicked?
    ensures Later(h, Settle(h, n, m, p).h)
    decreases m
  {
    hide Sweep, CompleteAll, Later, HasRunnable;
    LaterSelf(h);
    if HasRunnable(h) && m > 0 {
      SweepLater(h, 0, n, p);
      var r := Sweep(h, 0, n, p);
      if r.At? && !r.h.quit {
        BatchLater(r.h, p.sys.ready(r.h.batches), p);
        var r' := Batch(r.h, p);
        LaterThen(h, r.h, r'.h);
        if r'.At? {
          SettleLater(r'.h, n, m - 1, p);
          LaterThen(h, r'.h, Settle(h, n, m, p).h);
        }
      }
    }
  }

  lemma TurnLater(h: Host, n: nat, p: Program)
    requires Sized(h) && !Turn(h, n, p).Panicked?
    ensures Later(h, Turn(h, n, p).h)
  {
    hide Sweep, CompleteAll, Settle, Later, NoneActive;
    SweepLater(h, 0, n, p);
    var r := Sweep(h, 0, n, p);
    if r.At? && !Over(r.h) {
      BatchLater(r.h, p.sys.ready(r.h.batches), p);
      var r' := Batch(r.h, p);
      LaterThen(h, r.h, r'.h);
      if r'.At? && !NoneActive(r'.h) {
        SettleLater(r'.h, n, n, p);
        LaterThen(h, r'.h, Turn(h, n, p).h);
      }
    }
  }

  lemma AroundLater(h: Host, n: nat, p: Program)
    requires Sized(h)
    ensures var a := Around(h, n, p);
      if a.Again? then Later(h, a.h) && Later(a.polled, a.h) else !a.r.end.Panic? ==> Later(h, a.r.h)
  {
    hide Turn, CompleteAll, Later, NoneActive;
    var t := Turn(h, n, p);
    if !t.Panicked? {
      TurnLater(h, n, p);
      var a := Around(h, n, p);
      if a.Again? {
        BatchLater(t.h, p.sys.poll(t.h.batches).value, p);
        LaterThen(h, t.h, a.h);
      }
    }
  }

  lemma {:induction false} DriveLater(h: Host, turns: nat, n: nat, p: Program)
    requires Sized(h) && !Drive(h, turns, n, p).end.Panic?
    ensures Later(h, Drive(h, turns, n, p).h)
    decreases turns
  {
    hide Around, Later, NoneActive;
    LaterSelf(h);
    if !Over(h) && turns > 0 {
      AroundLater(h, n, p);
      var a := Around(h, n, p);
      if a.Again? {
        DriveLater(a.h, turns - 1, n, p);
        LaterThen(h, a.h, Drive(h, turns, n, p).h);
      }
    }
  }

  /** The poll in state h has reported something, and what it reported for evaluations that wait in h has
      reached them by h'. */
  ghost predicate Answered(h: Host, h': Host, p: Program)
    requires Sized(h) && Sized(h')
  {
    p.sys.poll(h.batches).Some? && forall i :: 0 <= i < MAX_EVALS && Awaited(h, p.sys.poll(h.batches).value, i) ==>
      Known(h, h', i, h.heard[i] + [AnswerOf(p.sys.poll(h.batches).value, i)])
  }

  lemma PollAnswered(h: Host, n: nat, p: Program)
    requires Sized(h) && Around(h, n, p).Again?
    ensures var a := Around(h, n, p); Answered(a.polled, a.h, p) && a.h.batches == a.polled.batches + 1
  {
    hide Turn, CompleteAll, Known, Went, Complete;
    var a := Around(h, n, p);
    var q, h' := a.polled, a.h;
    var events := p.sys.poll(q.batches).value;
    var q1 := q.(batches := q.batches + 1);
    NeverCut(q1, events, p);
    forall i | 0 <= i < MAX_EVALS && Awaited(q, events, i)
      ensures Known(q, h', i, q.heard[i] + [AnswerOf(events, i)])
    {
      AllGiven(q1, events, p, i);
      var r := AnswerOf(events, i);
      WentKnown(q1, h', i, q.heard[i] + [r], Complete(r, q.threads[i].value.config.frames, [], p.w));
      KnownFrom(q, q1, h', i, q.heard[i] + [r]);
    }
  }

  lemma KnownFrom(h: Host, h1: Host, h': Host, i: nat, heard: seq<Result>)
    requires Sized(h) && Sized(h') && i < MAX_EVALS && h1 == h.(batches := h1.batches) && Known(h1, h', i, heard)
    ensures Known(h, h', i, heard)
  {
  }

  lemma AnsweredThen(h: Host, h1: Host, h': Host, p: Program)
    requires Sized(h) && Sized(h1) && Sized(h') && Later(h, h1) && Later(h1, h') && Answered(h, h1, p)
    ensures Answered(h, h', p)
  {
    hide Known, Grows, AnswerOf;
    var events := p.sys.poll(h.batches).value;
    forall i | 0 <= i < MAX_EVALS && Awaited(h, events, i)
      ensures Known(h, h', i, h.heard[i] + [AnswerOf(events, i)])
    {
      KnownThen(h, h1, h', i, h.heard[i] + [AnswerOf(events, i)]);
    }
  }

  /** Over a whole run that does not panic, every answer that a poll has reported for an evaluation that
      waits has reached it: it is among what the evaluation had heard when it ended, or has heard so far. */
  lemma {:induction false} AllAnswered(h: Host, turns: nat, n: nat, p: Program)
    requires Sized(h) && !Drive(h, turns, n, p).end.Panic?
    ensures var r := Drive(h, turns, n, p);
      forall k :: 0 <= k < |r.polls| ==> Answered(r.polls[k], r.h, p)
    decreases turns
  {
    hide Answered, Later, NoneActive, Turn, CompleteAll;
    if !Over(h) && turns > 0 {
      var a := Around(h, n, p);
      if a.Again? {
        PollAnswered(h, n, p);
        AroundLater(h, n, p);
        DriveLater(a.h, turns - 1, n, p);
        var rest := Drive(a.h, turns - 1, n, p);
        AnsweredThen(a.polled, a.h, rest.h, p);
        AllAnswered(a.h, turns - 1, n, p);
      }
    }
  }

  /** When the loop looks for effects that are complete, each evaluation that waits is given its answer. */
  lemma BatchGiven(h: Host, p: Program, i: nat)
    requires Sized(h) && i < MAX_EVALS && Batch(h, p).At?
    ensures Batch(h, p).h.batches == h.batches + 1
    ensures var events, h' := p.sys.ready(h.batches), Batch(h, p).h;
      if Awaited(h, events, i) then Given(h, h', i, AnswerOf(events, i), p) else Untouched(h, h', i)
  {
    hide CompleteAll, Given;
    NeverCut(h.(batches := h.batches + 1), p.sys.ready(h.batches), p);
    AllGiven(h.(batches := h.batches + 1), p.sys.ready(h.batches), p, i);
    if Awaited(h, p.sys.ready(h.batches), i) {
      GivenFrom(h, h.(batches := h.batches + 1), Batch(h, p).h, i, AnswerOf(p.sys.ready(h.batches), i), p);
    }
  }

  lemma GivenFrom(h: Host, h1: Host, h': Host, i: nat, r: Result, p: Program)
    requires Sized(h) && Sized(h') && i < MAX_EVALS && h.threads[i].Some? && h1 == h.(batches := h1.batches)
    requires Given(h1, h', i, r, p)
    ensures Given(h, h', i, r, p)
  {
    hide Complete;
  }

  /** In every turn the loop looks, after its first sweep, for effects that are complete. */
  lemma TurnGiven(h: Host, n: nat, p: Program, i: nat)
    requires Sized(h) && i < MAX_EVALS && Turn(h, n, p).At? && !Over(Sweep(h, 0, n, p).h)
    ensures var h1 := Sweep(h, 0, n, p).h; var events := p.sys.ready(h1.batches);
      Awaited(h1, events, i) ==> Known(h1, Turn(h, n, p).h, i, h1.heard[i] + [AnswerOf(events, i)])
  {
    hide Sweep, CompleteAll, Settle, Later, NoneActive, Given, Known;
    var h1 := Sweep(h, 0, n, p).h;
    var events := p.sys.ready(h1.batches);
    BatchGiven(h1, p, i);
    var h2 := Batch(h1, p).h;
    if Awaited(h1, events, i) {
      GivenKnown(h1, h2, i, AnswerOf(events, i), p);
      BatchLater(h1, events, p);
      LaterGrows(h1, h2);
      if !NoneActive(h2) {
        SettleLater(h2, n, n, p);
        KnownThen(h1, h2, Turn(h, n, p).h, i, h1.heard[i] + [AnswerOf(events, i)]);
      }
    }
  }

  /** And after every further one. */
  lemma SettleGiven(h: Host, n: nat, m: nat, p: Program, i: nat)
    requires Sized(h) && i < MAX_EVALS && Settle(h, n, m, p).At? && HasRunnable(h) && !Sweep(h, 0, n, p).h.quit
    ensures var h1 := Sweep(h, 0, n, p).h; var events := p.sys.ready(h1.batches);
      Awaited(h1, events, i) ==> Known(h1, Settle(h, n, m, p).h, i, h1.heard[i] + [AnswerOf(events, i)])
  {
    hide Sweep, CompleteAll, Later, HasRunnable, Given, Known;
    var h1 := Sweep(h, 0, n, p).h;
    var events := p.sys.ready(h1.batches);
    BatchGiven(h1, p, i);
    var h2 := Batch(h1, p).h;
    if Awaited(h1, events, i) {
      GivenKnown(h1, h2, i, AnswerOf(events, i), p);
      BatchLater(h1, events, p);
      LaterGrows(h1, h2);
      SettleLater(h2, n, m - 1, p);
      KnownThen(h1, h2, Settle(h, n, m, p).h, i, h1.heard[i] + [AnswerOf(events, i)]);
    }
  }

  lemma LaterGrows(h: Host, h': Host)
    requires Sized(h) && Sized(h') && Later(h, h')
    ensures Grows(h, h')
  {
  }

  lemma GivenKnown(h: Host, h': Host, i: nat, r: Result, p: Program)
    requires Sized(h) && Sized(h') && i < MAX_EVALS && h.threads[i].Some? && Given(h, h', i, r, p)
    ensures Known(h, h', i, h.heard[i] + [r])
  {
    hide Complete, Went;
    WentKnown(h, h', i, h.heard[i] + [r], Complete(r, h.threads[i].value.config.frames, [], p.w));
  }

  // ----- quitting -----

  /** Answers of the system end no run: only a leaf that is answered at once can. */
  lemma FinishQuit(h: Host, i: nat, r: Result, p: Program)
    requires Sized(h) && i < MAX_EVALS && h.threads[i].Some? && (r.Ok? || r.Err?) && Finish(h, i, r, p).Some?
    ensures Finish(h, i, r, p).value.quit == h.quit
  {
    hide NewModel, NewCommand, PlaceAll, Unwind;
    var h1 := Hear(h, i, [r]);
    if r.Ok? && Complete(r, h.threads[i].value.config.frames, [], p.w).Ended? {
      PlaceAllUntouched(Drop(h1.(model := NewModel(p, r.value, h1.model)), i, r), NewCommand(p, r.value, h1.model));
    }
  }

  lemma {:induction false} CompleteAllQuit(h: Host, events: seq<Event>, p: Program)
    requires Sized(h) && CompleteAll(h, events, p).At?
    ensures CompleteAll(h, events, p).h.quit == h.quit
    decreases events
  {
    hide Finish;
    if events != [] {
      var e := events[0];
      if e.place < MAX_EVALS && h.threads[e.place].Some? && h.threads[e.place].value.waiting {
        FinishQuit(h, e.place, Outcomes(e), p);
        CompleteAllQuit(Finish(h, e.place, Outcomes(e), p).value, events[1..], p);
      } else {
        CompleteAllQuit(h, events[1..], p);
      }
    }
  }

  lemma {:induction false} RunEvalAsks(h: Host, i: nat, gen: nat, n: nat, p: Program)
    requires Sized(h) && i < MAX_EVALS && !RunEval(h, i, gen, n, p).Panicked?
    ensures RunEval(h, i, gen, n, p).h.batches == h.batches
    decreases n
  {
    hide Round, Went, Complete, Step;
    if Runnable(h, i) && h.gens[i] == gen && n > 0 {
      RoundWent(h, i, p);
      RunEvalAsks(Round(h, i, p).value, i, gen, n - 1, p);
    }
  }

  lemma {:induction false} SweepAsks(h: Host, i: nat, n: nat, p: Program)
    requires Sized(h) && i <= MAX_EVALS && !Sweep(h, i, n, p).Panicked?
    ensures Sweep(h, i, n, p).h.batches == h.batches
    decreases MAX_EVALS - i
  {
    hide RunEval;
    if i < MAX_EVALS {
      RunEvalAsks(h, i, h.gens[i], n, p);
      var r := RunEval(h, i, h.gens[i], n, p);
      if r.At? { SweepAsks(r.h, i + 1, n, p); }
    }
  }

  /** The last thing done was a sweep, which began without a quit. */
  ghost predicate EndsSweep(h1: Host, h: Host, n: nat, p: Program) {
    Sized(h1) && !h1.quit && !Sweep(h1, 0, n, p).Panicked? && Sweep(h1, 0, n, p).h == h && h1.batches == h.batches
  }

  lemma {:induction false} SettleQuit(h: Host, n: nat, m: nat, p: Program) returns (h1: Host)
    requires Sized(h) && !h.quit && !Settle(h, n, m, p).Panicked? && Settle(h, n, m, p).h.quit
    ensures EndsSweep(h1, Settle(h, n, m, p).h, n, p)
    decreases m
  {
    hide Sweep, CompleteAll, HasRunnable;
    h1 := h;
    var r := Sweep(h, 0, n, p);
    if HasRunnable(h) && m > 0 {
      SweepAsks(h, 0, n, p);
      if r.At? && !r.h.quit {
        NeverCut(r.h.(batches := r.h.batches + 1), p.sys.ready(r.h.batches), p);
        CompleteAllQuit(r.h.(batches := r.h.batches + 1), p.sys.ready(r.h.batches), p);
        h1 := SettleQuit(Batch(r.h, p).h, n, m - 1, p);
      }
    }
  }

  lemma TurnQuit(h: Host, n: nat, p: Program) returns (h1: Host)
    requires Sized(h) && !h.quit && !Turn(h, n, p).Panicked? && Turn(h, n, p).h.quit
    ensures EndsSweep(h1, Turn(h, n, p).h, n, p)
  {
    hide Sweep, CompleteAll, Settle, NoneActive;
    h1 := h;
    SweepAsks(h, 0, n, p);
    var r := Sweep(h, 0, n, p);
    if r.At? && !Over(r.h) {
      NeverCut(r.h.(batches := r.h.batches + 1), p.sys.ready(r.h.batches), p);
      CompleteAllQuit(r.h.(batches := r.h.batches + 1), p.sys.ready(r.h.batches), p);
      h1 := SettleQuit(Batch(r.h, p).h, n, n, p);
    }
  }

  /** After a quit the sweep is finished, and nothing else: no effect is looked for, and no poll made. */
  lemma {:induction false} QuitLast(h: Host, turns: nat, n: nat, p: Program) returns (h1: Host)
    requires Sized(h) && !h.quit && !Drive(h, turns, n, p).end.Panic? && Drive(h, turns, n, p).h.quit
    ensures EndsSweep(h1, Drive(h, turns, n, p).h, n, p)
    decreases turns
  {
    hide Turn, CompleteAll, NoneActive, EndsSweep;
    h1 := h;
    if !Over(h) && turns > 0 {
      var t := Turn(h, n, p);
      var a := Around(h, n, p);
      if a.Again? {
        AgainQuit(h, n, p);
        h1 := QuitLast(a.h, turns - 1, n, p);
      } else {
        h1 := TurnQuit(h, n, p);
      }
    }
  }

  lemma AgainQuit(h: Host, n: nat, p: Program)
    requires Sized(h) && Around(h, n, p).Again?
    ensures !Around(h, n, p).h.quit
  {
    hide Turn, CompleteAll, NoneActive;
    var q := Around(h, n, p).polled;
    CompleteAllQuit(q.(batches := q.batches + 1), p.sys.poll(q.batches).value, p);
  }

  // ----- a whole program -----

  /** A program of one effect, which a poll reports: its message is delivered, and the run is over. */
  lemma OneEffect(model: Value, op: Value, v: Value, m: Value, turns: nat, n: nat, p: Program)
    requires p.w.apply(p.update, [v, model]) == Pair(m, Nil) && turns >= 2 && n >= 1
    requires p.sys.start(0) == None && p.sys.ready(0) == [] && p.sys.poll(1) == Some([Event(0, true, v)])
    ensures var r := Whole(model, Pair(TaskOf(Leaf(op)), Nil), turns, n, p);
      r.end.Finished? && r.h.model == m && r.h.log == [Ending(0, [Ok(v)], Ok(v))]
  {
    hide Sweep, CompleteAll, OneWaiting, Turn, Around, Drive, NoneActive, PlaceAll;
    var h0 := OneWaiting(model, op, false, 0, 0);
    var h1 := OneWaiting(model, op, true, 1, 0);
    var h2 := OneWaiting(model, op, true, 1, 1);
    Begun(model, op);
    Asks(model, op, n, p);
    OneWaits(model, op);
    QuietTurn(h0, h1, h2, n, p);
    Arrives(model, op, v, m, p);
    var h3 := CompleteAll(h2.(batches := 2), [Event(0, true, v)], p).h;
    OnePass(h0, h2, h3, turns, n, p);
  }

  lemma OneWaits(model: Value, op: Value)
    ensures var h1, h2 := OneWaiting(model, op, true, 1, 0), OneWaiting(model, op, true, 1, 1);
      && h2 == h1.(batches := 1) && h1.batches == 0 && !h1.quit && !HasRunnable(h2)
      && !OneWaiting(model, op, false, 0, 0).quit
  {
  }

  /** A turn in which nothing has come. */
  lemma QuietTurn(h: Host, h1: Host, h2: Host, n: nat, p: Program)
    requires Sized(h) && Sized(h1) && Sweep(h, 0, n, p) == At(h1) && !Over(h1) && p.sys.ready(h1.batches) == []
    requires h2 == h1.(batches := h1.batches + 1) && !HasRunnable(h2)
    ensures Turn(h, n, p) == At(h2)
  {
    hide Sweep, HasRunnable;
    assert !NoneActive(h2);
  }

  /** A turn whose poll ends the run. */
  lemma OnePass(h: Host, h2: Host, h3: Host, turns: nat, n: nat, p: Program)
    requires Sized(h) && Sized(h2) && Sized(h3) && Turn(h, n, p) == At(h2) && !Over(h) && !Over(h2) && Over(h3)
    requires p.sys.poll(h2.batches).Some? && turns >= 2
    requires CompleteAll(h2.(batches := h2.batches + 1), p.sys.poll(h2.batches).value, p) == At(h3)
    ensures Drive(h, turns, n, p) == Run(h3, [h2], Finished)
  {
    hide Turn, CompleteAll, Over;
    assert Around(h, n, p) == Again(h3, h2);
    assert Drive(h3, turns - 1, n, p) == Run(h3, [], Finished);
    assert [h2] + [] == [h2];
  }

  /** The first place has a leaf. */
  function OneWaiting(model: Value, op: Value, waiting: bool, starts: nat, batches: nat): (h: Host)
    ensures Sized(h) && !NoneActive(h)
  {
    var task := TaskOf(Leaf(op));
    var h := Start(model);
    var i: nat := 0;
    var h' := h.(threads := h.threads[0 := Some(Thread(Config(task, []), waiting))], gens := h.gens[0 := 1],
                 spawned := [Birth(task, 0, 1)], starts := starts, batches := batches);
    assert h'.threads[i].Some?;
    h'
  }

  lemma Begun(model: Value, op: Value)
    ensures PlaceAll(Start(model), Pair(TaskOf(Leaf(op)), Nil)) == Some(OneWaiting(model, op, false, 0, 0))
  {
    var h, task := Start(model), TaskOf(Leaf(op));
    assert FirstFree(h.threads, 0) == 0;
    assert h.ids[0 := 0] == h.ids;
    assert h.heard[0 := []] == h.heard;
    assert h.spawned + [Birth(task, 0, 1)] == [Birth(task, 0, 1)];
    assert Place(h, task) == Some(OneWaiting(model, op, false, 0, 0));
  }

  lemma Asks(model: Value, op: Value, n: nat, p: Program)
    requires p.sys.start(0) == None && n >= 1
    ensures Sweep(OneWaiting(model, op, false, 0, 0), 0, n, p) == At(OneWaiting(model, op, true, 1, 0))
  {
    var h0, h1 := OneWaiting(model, op, false, 0, 0), OneWaiting(model, op, true, 1, 0);
    assert h0.heard[0] + [] == h0.heard[0] && h0.heard[0 := h0.heard[0]] == h0.heard;
    assert Hear(h0, 0, []) == h0;
    assert h0.threads[0 := Some(Thread(Config(TaskOf(Leaf(op)), []), true))] == h1.threads;
    assert Round(h0, 0, p) == Some(h1);
    hide Round;
    assert RunEval(h0, 0, h0.gens[0], n, p) == RunEval(h1, 0, h0.gens[0], n - 1, p) == At(h1);
    SweepNone(h1, 1, n, p);
  }

  lemma Arrives(model: Value, op: Value, v: Value, m: Value, p: Program)
    requires p.w.apply(p.update, [v, model]) == Pair(m, Nil)
    ensures var r := CompleteAll(OneWaiting(model, op, true, 1, 1).(batches := 2), [Event(0, true, v)], p);
      r.At? && r.h.model == m && r.h.log == [Ending(0, [Ok(v)], Ok(v))] && !r.h.quit && NoneActive(r.h)
  {
    var h := OneWaiting(model, op, true, 1, 1).(batches := 2);
    var e := Event(0, true, v);
    assert h.heard[0] + [Ok(v)] == [Ok(v)];
    var h' := Finish(h, 0, Ok(v), p).value;
    assert [e][1..] == [];
    assert CompleteAll(h, [e], p) == CompleteAll(h', [], p);
  }
}
