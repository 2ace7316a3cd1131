/** The evaluations in flight and the model, how a run changes them, and what every run keeps. */
module HostState {
  import opened Wrappers
  import opened Tasks

  const MAX_EVALS := 128
  const MAX_FRAMES := 256
  const LIMIT: Option<nat> := Some(MAX_FRAMES)

  /** An evaluation; one that waits has started the effect of a leaf. */
  datatype Thread = Thread(config: Config, waiting: bool)

  /** A task that was spawned, and the place and generation that it got. */
  datatype Birth = Birth(task: Value, place: nat, gen: nat)

  /** An evaluation that is over: which, the answers that its leaves got, and its result. */
  datatype Ending = Ending(id: nat, heard: seq<Result>, result: Result)

  /** `ids` says which evaluation is at a place, in the order of spawning, and `heard` what its leaves have
      been answered; `starts` and `batches` count the questions to the system. */
  datatype Host = Host(model: Value, threads: seq<Option<Thread>>, gens: seq<nat>, quit: bool, starts: nat,
    batches: nat, ids: seq<nat>, heard: seq<seq<Result>>, spawned: seq<Birth>, log: seq<Ending>)

  /** The effect at a place is complete. */
  datatype Event = Event(place: nat, ok: bool, value: Value)

  /** What the system does: whether the next leaf that starts is answered at once, and how; which effects
      are complete when the loop looks; and what the next poll reports, None when nothing can be waited for. */
  datatype System = System(start: nat -> Option<Result>, ready: nat -> seq<Event>, poll: nat -> Option<seq<Event>>)

  datatype Program = Program(update: Value, w: World, sys: System)

  predicate Sized(h: Host) {
    |h.threads| == |h.gens| == |h.ids| == |h.heard| == MAX_EVALS
  }

  /** The first place from i on without an evaluation. */
  function FirstFree(threads: seq<Option<Thread>>, i: nat): (k: nat)
    requires i <= |threads|
    ensures i <= k <= |threads| && (k < |threads| ==> threads[k].None?)
    ensures forall j :: i <= j < k ==> threads[j].Some?
    decreases |threads| - i
  {
    if i == |threads| || threads[i].None? then i else FirstFree(threads, i + 1)
  }

  /** A task is spawned; None is a panic. */
  function Place(h: Host, task: Value): (r: Option<Host>)
    requires Sized(h)
    ensures r.Some? ==> Sized(r.value)
  {
    var i := FirstFree(h.threads, 0);
    if i == MAX_EVALS then None
    else Some(h.(threads := h.threads[i := Some(Thread(Config(task, []), false))], gens := h.gens[i := h.gens[i] + 1],
                 ids := h.ids[i := |h.spawned|], heard := h.heard[i := []],
                 spawned := h.spawned + [Birth(task, i, h.gens[i] + 1)]))
  }

  /** A command: a list of tasks. */
  function PlaceAll(h: Host, cmd: Value): (r: Option<Host>)
    requires Sized(h)
    ensures r.Some? ==> Sized(r.value)
    decreases cmd
  {
    if !cmd.Pair? then Some(h)
    else
      var r := Place(h, cmd.first);
      if r.None? then None else PlaceAll(r.value, cmd.second)
  }

  /** The evaluation at place i is over. */
  function Drop(h: Host, i: nat, r: Result): (h': Host)
    requires Sized(h) && i < MAX_EVALS
    ensures Sized(h')
  {
    h.(threads := h.threads[i := None], quit := h.quit || r.Quit?, log := h.log + [Ending(h.ids[i], h.heard[i], r)])
  }

  function Continue(h: Host, i: nat, t: Thread): (h': Host)
    requires Sized(h) && i < MAX_EVALS
    ensures Sized(h')
  {
    h.(threads := h.threads[i := Some(t)])
  }

  function Hear(h: Host, i: nat, answers: seq<Result>): (h': Host)
    requires Sized(h) && i < MAX_EVALS
    ensures Sized(h')
  {
    h.(heard := h.heard[i := h.heard[i] + answers])
  }

  /** What update gives is a pair of model and command, or else nothing comes of the message. */
  function NewModel(p: Program, msg: Value, model: Value): Value {
    var pair := p.w.apply(p.update, [msg, model]);
    if pair.Pair? then pair.first else model
  }

  function NewCommand(p: Program, msg: Value, model: Value): Value {
    var pair := p.w.apply(p.update, [msg, model]);
    if pair.Pair? then pair.second else Nil
  }

  function Deliver(h: Host, i: nat, msg: Value, p: Program): (r: Option<Host>)
    requires Sized(h) && i < MAX_EVALS
    ensures r.Some? ==> Sized(r.value)
  {
    PlaceAll(Drop(h.(model := NewModel(p, msg, h.model)), i, Ok(msg)), NewCommand(p, msg, h.model))
  }

  /** What the outcome of a round makes of the evaluation at place i. */
  function Follow(h: Host, i: nat, o: Outcome, p: Program): (r: Option<Host>)
    requires Sized(h) && i < MAX_EVALS
    ensures r.Some? ==> Sized(r.value)
  {
    match o
    case Next(c, _) => Some(Continue(h, i, Thread(c, false)))
    case Waiting(c) => Some(Continue(h, i, Thread(c, true)))
    case Ended(r, _) => if r.Ok? then Deliver(h, i, r.value, p) else Some(Drop(h, i, r))
    case Overflow => None
  }

  predicate IsLeaf(c: Config) {
    c.task.TaskOf? && c.task.task.Leaf?
  }

  predicate Runnable(h: Host, i: nat)
    requires Sized(h) && i < MAX_EVALS
  {
    h.threads[i].Some? && !h.threads[i].value.waiting
  }

  /** A leaf starts, and is answered at once or waits. */
  function Asked(h: Host, p: Program): seq<Result> {
    var r := p.sys.start(h.starts);
    if r.None? then [] else [r.value]
  }

  /** One round of the evaluation at place i. */
  function Round(h: Host, i: nat, p: Program): (r: Option<Host>)
    requires Sized(h) && i < MAX_EVALS && h.threads[i].Some?
    ensures r.Some? ==> Sized(r.value)
  {
    var c := h.threads[i].value.config;
    if IsLeaf(c) then
      Follow(Hear(h, i, Asked(h, p)).(starts := h.starts + 1), i, Step(c, Asked(h, p), p.w, LIMIT), p)
    else Follow(h, i, Step(c, [], p.w, LIMIT), p)
  }

  /** Cut: a bound on rounds was met. */
  datatype Progress = At(h: Host) | Cut(h: Host) | Panicked

  /** The evaluation at place i goes on while the place has the generation that it had. */
  function RunEval(h: Host, i: nat, gen: nat, n: nat, p: Program): (r: Progress)
    requires Sized(h) && i < MAX_EVALS
    ensures !r.Panicked? ==> Sized(r.h)
    decreases n
  {
    if !Runnable(h, i) || h.gens[i] != gen then At(h)
    else if n == 0 then Cut(h)
    else
      var r := Round(h, i, p);
      if r.None? then Panicked else RunEval(r.value, i, gen, n - 1, p)
  }

  /** All evaluations from place i on, one after the other. */
  function Sweep(h: Host, i: nat, n: nat, p: Program): (r: Progress)
    requires Sized(h) && i <= MAX_EVALS
    ensures !r.Panicked? ==> Sized(r.h)
    decreases MAX_EVALS - i
  {
    if i == MAX_EVALS then At(h)
    else
      var r := RunEval(h, i, h.gens[i], n, p);
      if r.At? then Sweep(r.h, i + 1, n, p) else r
  }

  /** The answer for the leaf at place i has come. */
  function Finish(h: Host, i: nat, r: Result, p: Program): (h': Option<Host>)
    requires Sized(h) && i < MAX_EVALS && h.threads[i].Some?
    ensures h'.Some? ==> Sized(h'.value)
  {
    Follow(Hear(h, i, [r]), i, Complete(r, h.threads[i].value.config.frames, [], p.w), p)
  }

  function Outcomes(e: Event): Result {
    if e.ok then Ok(e.value) else Err(e.value)
  }

  /** Effects that are complete, in this order. */
  function CompleteAll(h: Host, events: seq<Event>, p: Program): (r: Progress)
    requires Sized(h)
    ensures !r.Panicked? ==> Sized(r.h)
    decreases events
  {
    if events == [] then At(h)
    else
      var e := events[0];
      if e.place < MAX_EVALS && h.threads[e.place].Some? && h.threads[e.place].value.waiting then
        var r := Finish(h, e.place, Outcomes(e), p);
        if r.None? then Panicked else CompleteAll(r.value, events[1..], p)
      else CompleteAll(h, events[1..], p)
  }

  function Batch(h: Host, p: Program): (r: Progress)
    requires Sized(h)
    ensures !r.Panicked? ==> Sized(r.h)
  {
    CompleteAll(h.(batches := h.batches + 1), p.sys.ready(h.batches), p)
  }

  predicate HasRunnable(h: Host)
    requires Sized(h)
  {
    exists i :: 0 <= i < MAX_EVALS && Runnable(h, i)
  }

  predicate NoneActive(h: Host)
    requires Sized(h)
  {
    forall i :: 0 <= i < MAX_EVALS ==> h.threads[i].None?
  }

  /** Sweeps until nothing is runnable. */
  function Settle(h: Host, n: nat, m: nat, p: Program): (r: Progress)
    requires Sized(h)
    ensures !r.Panicked? ==> Sized(r.h)
    decreases m
  {
    if !HasRunnable(h) then At(h)
    else if m == 0 then Cut(h)
    else
      var r := Sweep(h, 0, n, p);
      if !r.At? || r.h.quit then r
      else
        var r' := Batch(r.h, p);
        if r'.At? then Settle(r'.h, n, m - 1, p) else r'
  }

  predicate Over(h: Host)
    requires Sized(h)
  {
    h.quit || NoneActive(h)
  }

  /** One turn of the loop up to its poll. */
  function Turn(h: Host, n: nat, p: Program): (r: Progress)
    requires Sized(h)
    ensures !r.Panicked? ==> Sized(r.h)
  {
    var r := Sweep(h, 0, n, p);
    if !r.At? || Over(r.h) then r
    else
      var r' := Batch(r.h, p);
      if !r'.At? || NoneActive(r'.h) then r' else Settle(r'.h, n, n, p)
  }

  /** How a run ends: nothing left or a quit; nothing to wait for; a panic; or a bound was met. */
  datatype End = Finished | Stuck | Panic | CutOff

  /** The state in the end, or before what ended it, and the states in which the loop polled. */
  datatype Run = Run(h: Host, polls: seq<Host>, end: End)

  /** A turn with its poll: the run goes on after a poll, or ends. */
  datatype Pass = Again(h: Host, polled: Host) | Last(r: Run)

  function Around(h: Host, n: nat, p: Program): (a: Pass)
    requires Sized(h)
    ensures if a.Again? then Sized(a.h) && Sized(a.polled)
            else Sized(a.r.h) && forall q :: q in a.r.polls ==> Sized(q)
  {
    match Turn(h, n, p)
    case Panicked => Last(Run(h, [], Panic))
    case Cut(h1) => Last(Run(h1, [], CutOff))
    case At(h1) =>
      if Over(h1) then Last(Run(h1, [], Finished))
      else
        var events := p.sys.poll(h1.batches);
        if events.None? then Last(Run(h1, [], Stuck))
        else
          var r := CompleteAll(h1.(batches := h1.batches + 1), events.value, p);
          if r.At? then Again(r.h, h1) else Last(Run(h1, [h1], Panic))
  }

  function Drive(h: Host, turns: nat, n: nat, p: Program): (r: Run)
    requires Sized(h)
    ensures Sized(r.h) && forall q :: q in r.polls ==> Sized(q)
    decreases turns
  {
    if Over(h) then Run(h, [], Finished)
    else if turns == 0 then Run(h, [], CutOff)
    else
      match Around(h, n, p)
      case Last(r) => r
      case Again(h', polled) =>
        var rest := Drive(h', turns - 1, n, p);
        Run(rest.h, [polled] + rest.polls, rest.end)
  }

  /** Before the first command. */
  function Start(model: Value): (h: Host)
    ensures Sized(h)
  {
    Host(model, seq(MAX_EVALS, _ => None), seq(MAX_EVALS, _ => 0), false, 0, 0, seq(MAX_EVALS, _ => 0),
         seq(MAX_EVALS, _ => []), [], [])
  }

  /** The run of a program. */
  function Whole(model: Value, cmd: Value, turns: nat, n: nat, p: Program): (r: Run)
    ensures Sized(r.h) && forall q :: q in r.polls ==> Sized(q)
  {
    var h := PlaceAll(Start(model), cmd);
    if h.None? then Run(Start(model), [], Panic) else Drive(h.value, turns, n, p)
  }

  // ----- no poll while something is runnable -----

  lemma {:induction false} SettleIdle(h: Host, n: nat, m: nat, p: Program)
    requires Sized(h) && Settle(h, n, m, p).At?
    ensures var h' := Settle(h, n, m, p).h; h'.quit || !HasRunnable(h')
    decreases m
  {
    hide Sweep, Batch;
    if HasRunnable(h) {
      var r := Sweep(h, 0, n, p);
      if !r.h.quit { SettleIdle(Batch(r.h, p).h, n, m - 1, p); }
    }
  }

  lemma TurnIdle(h: Host, n: nat, p: Program)
    requires Sized(h) && Turn(h, n, p).At? && !Over(Turn(h, n, p).h)
    ensures !HasRunnable(Turn(h, n, p).h)
  {
    hide Sweep, Batch, Settle, HasRunnable, NoneActive;
    SettleIdle(Batch(Sweep(h, 0, n, p).h, p).h, n, n, p);
  }

  /** Whenever the loop polls or stops for want of something to wait for, no evaluation is runnable, and
      some are waiting. */
  lemma {:induction false} PollsIdle(h: Host, turns: nat, n: nat, p: Program)
    requires Sized(h)
    ensures var r := Drive(h, turns, n, p);
      && (forall k :: 0 <= k < |r.polls| ==> !HasRunnable(r.polls[k]) && !Over(r.polls[k]))
      && (r.end.Stuck? ==> !HasRunnable(r.h) && !Over(r.h))
    decreases turns
  {
    hide Turn, CompleteAll, HasRunnable, NoneActive;
    if !Over(h) && turns > 0 {
      var t := Turn(h, n, p);
      if t.At? && !Over(t.h) { TurnIdle(h, n, p); }
      var a := Around(h, n, p);
      if a.Again? { PollsIdle(a.h, turns - 1, n, p); }
    }
  }

  /** One sweep is not enough for that: an evaluation can be spawned at a place that has been passed. */
  lemma SweepLeaves(h: Host, n: nat, v: Value, model: Value, task: Value, p: Program)
    requires Sized(h) && n > 0 && p.w.apply(p.update, [v, h.model]) == Pair(model, Pair(task, Nil))
    requires h.threads[0].None? && h.threads[1] == Some(Thread(Config(TaskOf(Succeed(v)), []), false))
    requires forall i :: 2 <= i < MAX_EVALS ==> h.threads[i].None?
    ensures Sweep(h, 0, n, p).At? && Runnable(Sweep(h, 0, n, p).h, 0)
  {
    assert Sweep(h, 0, n, p) == Sweep(h, 1, n, p);
    var d := Drop(h.(model := model), 1, Ok(v));
    var h1 := Place(d, task).value;
    assert FirstFree(d.threads, 0) == 0;
    assert PlaceAll(d, Pair(task, Nil)) == PlaceAll(h1, Nil) == Some(h1);
    assert Round(h, 1, p) == Deliver(h, 1, v, p) == Some(h1);
    hide Round, Place;
    assert RunEval(h, 1, h.gens[1], n, p) == RunEval(h1, 1, h.gens[1], n - 1, p) == At(h1);
    SweepNone(h1, 2, n, p);
  }

  /** Places without evaluations are passed over. */
  lemma {:induction false} SweepNone(h: Host, i: nat, n: nat, p: Program)
    requires Sized(h) && i <= MAX_EVALS && forall j :: i <= j < MAX_EVALS ==> h.threads[j].None?
    ensures Sweep(h, i, n, p) == At(h)
    decreases MAX_EVALS - i
  {
    if i < MAX_EVALS { SweepNone(h, i + 1, n, p); }
  }

  // ----- bounds do not matter unless they are met -----

  lemma {:induction false} RunEvalMore(h: Host, i: nat, gen: nat, n: nat, n': nat, p: Program)
    requires Sized(h) && i < MAX_EVALS && n <= n' && !RunEval(h, i, gen, n, p).Cut?
    ensures RunEval(h, i, gen, n', p) == RunEval(h, i, gen, n, p)
    decreases n
  {
    hide Round;
    if Runnable(h, i) && h.gens[i] == gen {
      var r := Round(h, i, p);
      if r.Some? { RunEvalMore(r.value, i, gen, n - 1, n' - 1, p); }
    }
  }

  lemma {:induction false} SweepMore(h: Host, i: nat, n: nat, n': nat, p: Program)
    requires Sized(h) && i <= MAX_EVALS && n <= n' && !Sweep(h, i, n, p).Cut?
    ensures Sweep(h, i, n', p) == Sweep(h, i, n, p)
    decreases MAX_EVALS - i
  {
    hide RunEval;
    if i < MAX_EVALS {
      RunEvalMore(h, i, h.gens[i], n, n', p);
      var r := RunEval(h, i, h.gens[i], n, p);
      if r.At? { SweepMore(r.h, i + 1, n, n', p); }
    }
  }

  lemma {:induction false} SettleMore(h: Host, n: nat, m: nat, n': nat, m': nat, p: Program)
    requires Sized(h) && n <= n' && m <= m' && !Settle(h, n, m, p).Cut?
    ensures Settle(h, n', m', p) == Settle(h, n, m, p)
    decreases m
  {
    hide Sweep, CompleteAll, HasRunnable;
    if HasRunnable(h) {
      SweepMore(h, 0, n, n', p);
      var r := Sweep(h, 0, n, p);
      if r.At? && !r.h.quit {
        var r' := Batch(r.h, p);
        if r'.At? { SettleMore(r'.h, n, m - 1, n', m' - 1, p); }
      }
    }
  }

  lemma TurnMore(h: Host, n: nat, n': nat, p: Program)
    requires Sized(h) && n <= n' && !Turn(h, n, p).Cut?
    ensures Turn(h, n', p) == Turn(h, n, p)
  {
    hide Sweep, Settle, CompleteAll, NoneActive;
    SweepMore(h, 0, n, n', p);
    var r := Sweep(h, 0, n, p);
    if r.At? && !Over(r.h) {
      var r' := Batch(r.h, p);
      if r'.At? && !NoneActive(r'.h) { SettleMore(r'.h, n, n, n', n', p); }
    }
  }

  /** A run that has not met its bounds is the run under all greater ones. */
  lemma {:induction false} DriveMore(h: Host, turns: nat, n: nat, turns': nat, n': nat, p: Program)
    requires Sized(h) && turns <= turns' && n <= n' && !Drive(h, turns, n, p).end.CutOff?
    ensures Drive(h, turns', n', p) == Drive(h, turns, n, p)
    decreases turns
  {
    hide Turn, CompleteAll, NoneActive;
    if !Over(h) {
      TurnMore(h, n, n', p);
      var a := Around(h, n, p);
      if a.Again? { DriveMore(a.h, turns - 1, n, turns' - 1, n', p); }
    }
  }
}
