/** Tasks: what they mean, and the machine of frames that evaluates them. */
module Tasks {
  import opened Wrappers

  /** Functions and other data are named by numbers; lists of commands are pairs ended by Nil. */
  datatype Value = Nil | Datum(id: int) | Pair(first: Value, second: Value) | TaskOf(task: Task)

  datatype Task =
    | Succeed(value: Value)
    | Fail(error: Value)
    | AndThen(callback: Value, task: Value)
    | OnError(callback: Value, task: Value)
    | Leaf(op: Value)

  /** Bad: something that is not a task was to be evaluated.  Quit: the program is to end. */
  datatype Result = Ok(value: Value) | Err(error: Value) | Bad | Quit

  /** What functions give. */
  datatype World = World(apply: (Value, seq<Value>) -> Value)

  /** A result, and the answers that are left. */
  datatype Got = Got(result: Result, rest: seq<Result>)

  // ----- the meaning -----

  /** The result of a task whose leaves get these answers, one after the other, when it has one within
      `fuel` callbacks and `room` nested ones. */
  function Run(t: Value, room: nat, answers: seq<Result>, w: World, fuel: nat): Option<Got>
    decreases fuel, t
  {
    if !t.TaskOf? then Some(Got(Bad, answers))
    else match t.task
      case Succeed(v) => Some(Got(Ok(v), answers))
      case Fail(e) => Some(Got(Err(e), answers))
      case Leaf(_) => if answers == [] then None else Some(Got(answers[0], answers[1..]))
      case AndThen(f, u) =>
        if room == 0 then None
        else
          var g := Run(u, room - 1, answers, w, fuel);
          if g.None? || !g.value.result.Ok? then g
          else if fuel == 0 then None
          else Run(w.apply(f, [g.value.result.value]), room, g.value.rest, w, fuel - 1)
      case OnError(f, u) =>
        if room == 0 then None
        else
          var g := Run(u, room - 1, answers, w, fuel);
          if g.None? || !g.value.result.Err? then g
          else if fuel == 0 then None
          else Run(w.apply(f, [g.value.result.error]), room, g.value.rest, w, fuel - 1)
  }

  /** More room, fuel and answers do not change a result. */
  lemma {:induction false} RunMore(t: Value, room: nat, answers: seq<Result>, w: World, fuel: nat, room': nat,
                                   fuel': nat, more: seq<Result>)
    requires Run(t, room, answers, w, fuel).Some? && room <= room' && fuel <= fuel'
    ensures var g := Run(t, room, answers, w, fuel).value;
      Run(t, room', answers + more, w, fuel') == Some(Got(g.result, g.rest + more))
    decreases fuel, t
  {
    if t.TaskOf? && (t.task.AndThen? || t.task.OnError?) {
      RunMore(t.task.task, room - 1, answers, w, fuel, room' - 1, fuel', more);
      var g := Run(t.task.task, room - 1, answers, w, fuel).value;
      if t.task.AndThen? && g.result.Ok? {
        RunMore(w.apply(t.task.callback, [g.result.value]), room, g.rest, w, fuel - 1, room', fuel' - 1, more);
      } else if t.task.OnError? && g.result.Err? {
        RunMore(w.apply(t.task.callback, [g.result.error]), room, g.rest, w, fuel - 1, room', fuel' - 1, more);
      }
    } else if t.TaskOf? && t.task.Leaf? {
      assert (answers + more)[1..] == answers[1..] + more;
    }
  }

  // ----- the machine -----

  /** A frame waits for a success or for an error. */
  datatype Kind = ANDTHEN | ONERROR

  datatype Frame = Frame(kind: Kind, callback: Value)

  /** The top frame is the last. */
  datatype Config = Config(task: Value, frames: seq<Frame>)

  /** Waiting: the answer for a leaf has not come. */
  datatype Outcome =
    | Next(c: Config, rest: seq<Result>)
    | Ended(r: Result, rest: seq<Result>)
    | Waiting(c: Config)
    | Overflow

  predicate Takes(kind: Kind, r: Result) {
    (r.Ok? && kind == ANDTHEN) || (r.Err? && kind == ONERROR)
  }

  function Payload(r: Result): Value {
    match r
    case Ok(v) => v
    case Err(e) => e
    case _ => Nil
  }

  /** The frames below those that let the result pass. */
  function Unwind(r: Result, frames: seq<Frame>): (fs: seq<Frame>)
    ensures |fs| <= |frames| && fs == frames[..|fs|]
    ensures fs != [] ==> Takes(fs[|fs| - 1].kind, r)
  {
    if frames == [] || Takes(frames[|frames| - 1].kind, r) then frames
    else Unwind(r, frames[..|frames| - 1])
  }

  /** A result goes to the first frame that takes it. */
  function Complete(r: Result, frames: seq<Frame>, rest: seq<Result>, w: World): Outcome {
    if !r.Ok? && !r.Err? then Ended(r, rest)
    else
      var fs := Unwind(r, frames);
      if fs == [] then Ended(r, rest)
      else Next(Config(w.apply(fs[|fs| - 1].callback, [Payload(r)]), fs[..|fs| - 1]), rest)
  }

  /** One round; `limit` is how many frames there may be. */
  function Step(c: Config, answers: seq<Result>, w: World, limit: Option<nat>): Outcome {
    if !c.task.TaskOf? then Ended(Bad, answers)
    else match c.task.task
      case Succeed(v) => Complete(Ok(v), c.frames, answers, w)
      case Fail(e) => Complete(Err(e), c.frames, answers, w)
      case Leaf(_) => if answers == [] then Waiting(c) else Complete(answers[0], c.frames, answers[1..], w)
      case AndThen(f, u) =>
        if limit.Some? && |c.frames| >= limit.value then Overflow
        else Next(Config(u, c.frames + [Frame(ANDTHEN, f)]), answers)
      case OnError(f, u) =>
        if limit.Some? && |c.frames| >= limit.value then Overflow
        else Next(Config(u, c.frames + [Frame(ONERROR, f)]), answers)
  }

  /** At most n rounds from an outcome on. */
  function Onward(o: Outcome, w: World, limit: Option<nat>, n: nat): Outcome
    decreases n
  {
    if n == 0 || !o.Next? then o else Onward(Step(o.c, o.rest, w, limit), w, limit, n - 1)
  }

  lemma {:induction false} OnwardPlus(o: Outcome, w: World, limit: Option<nat>, m: nat, n: nat)
    ensures Onward(o, w, limit, m + n) == Onward(Onward(o, w, limit, m), w, limit, n)
    decreases m
  {
    hide Step;
    if m > 0 && o.Next? {
      OnwardPlus(Step(o.c, o.rest, w, limit), w, limit, m - 1, n);
    } else if !o.Next? {
      EndedStays(o, w, limit, n);
      EndedStays(o, w, limit, m + n);
    }
  }

  lemma EndedStays(o: Outcome, w: World, limit: Option<nat>, n: nat)
    requires !o.Next?
    ensures Onward(o, w, limit, n) == o
  {
  }

  /** More answers at the end are left. */
  function With(o: Outcome, more: seq<Result>): Outcome
    requires o.Next? || o.Ended?
  {
    if o.Next? then Next(o.c, o.rest + more) else Ended(o.r, o.rest + more)
  }

  lemma StepWith(c: Config, answers: seq<Result>, w: World, limit: Option<nat>, more: seq<Result>)
    requires var o := Step(c, answers, w, limit); o.Next? || o.Ended?
    ensures Step(c, answers + more, w, limit) == With(Step(c, answers, w, limit), more)
  {
    hide Unwind;
    if answers != [] { assert (answers + more)[1..] == answers[1..] + more; }
  }

  lemma NotStuck(o: Outcome, w: World, limit: Option<nat>, n: nat)
    requires var p := Onward(o, w, limit, n); p.Next? || p.Ended?
    ensures o.Next? || o.Ended?
  {
    if !o.Next? { EndedStays(o, w, limit, n); }
  }

  lemma {:induction false} OnwardWith(o: Outcome, w: World, limit: Option<nat>, n: nat, more: seq<Result>)
    requires o.Next? || o.Ended?
    requires var p := Onward(o, w, limit, n); p.Next? || p.Ended?
    ensures Onward(With(o, more), w, limit, n) == With(Onward(o, w, limit, n), more)
    decreases n
  {
    hide Step;
    if n > 0 && o.Next? {
      var p := Step(o.c, o.rest, w, limit);
      NotStuck(p, w, limit, n - 1);
      StepWith(o.c, o.rest, w, limit, more);
      OnwardWith(p, w, limit, n - 1, more);
    }
  }

  // ----- the machine computes the meaning -----

  ghost predicate Fits(frames: nat, room: nat, limit: Option<nat>) {
    limit.Some? ==> frames + room <= limit.value
  }

  lemma UnwindTop(r: Result, frames: seq<Frame>, f: Frame)
    ensures Takes(f.kind, r) ==> Unwind(r, frames + [f]) == frames + [f]
    ensures !Takes(f.kind, r) ==> Unwind(r, frames + [f]) == Unwind(r, frames)
  {
    assert (frames + [f])[..|frames|] == frames;
  }

  lemma CompleteTop(r: Result, frames: seq<Frame>, f: Frame, rest: seq<Result>, w: World)
    ensures Takes(f.kind, r) ==>
      Complete(r, frames + [f], rest, w) == Next(Config(w.apply(f.callback, [Payload(r)]), frames), rest)
    ensures !Takes(f.kind, r) ==> Complete(r, frames + [f], rest, w) == Complete(r, frames, rest, w)
  {
    UnwindTop(r, frames, f);
    hide Unwind;
    assert (frames + [f])[..|frames|] == frames;
  }

  /** A task with a result gets it to the frames that were there before. */
  lemma {:induction false} Reaches(t: Value, frames: seq<Frame>, room: nat, answers: seq<Result>, w: World,
                                   limit: Option<nat>, fuel: nat) returns (n: nat)
    requires Run(t, room, answers, w, fuel).Some? && Fits(|frames|, room, limit)
    ensures n >= 1
    ensures var g := Run(t, room, answers, w, fuel).value;
      Onward(Next(Config(t, frames), answers), w, limit, n) == Complete(g.result, frames, g.rest, w)
    decreases fuel, t
  {
    hide Complete, Unwind;
    var g := Run(t, room, answers, w, fuel).value;
    if t.TaskOf? && (t.task.AndThen? || t.task.OnError?) {
      var f := Frame(if t.task.AndThen? then ANDTHEN else ONERROR, t.task.callback);
      var u := Config(t.task.task, frames + [f]);
      assert Step(Config(t, frames), answers, w, limit) == Next(u, answers);
      var g1 := Run(t.task.task, room - 1, answers, w, fuel).value;
      var m := Reaches(t.task.task, frames + [f], room - 1, answers, w, limit, fuel);
      assert Onward(Next(Config(t, frames), answers), w, limit, m + 1) ==
        Complete(g1.result, frames + [f], g1.rest, w);
      CompleteTop(g1.result, frames, f, g1.rest, w);
      if Takes(f.kind, g1.result) {
        var next := w.apply(f.callback, [Payload(g1.result)]);
        assert Run(next, room, g1.rest, w, fuel - 1) == Some(g);
        var k := Reaches(next, frames, room, g1.rest, w, limit, fuel - 1);
        OnwardPlus(Next(Config(t, frames), answers), w, limit, m + 1, k);
        n := m + 1 + k;
      } else {
        n := m + 1;
      }
    } else {
      BadEnds(frames, answers, w);
      n := 1;
    }
  }

  lemma BadEnds(frames: seq<Frame>, rest: seq<Result>, w: World)
    ensures Complete(Bad, frames, rest, w) == Ended(Bad, rest) && Complete(Quit, frames, rest, w) == Ended(Quit, rest)
  {
  }

  lemma StepInto(c: Config, answers: seq<Result>, w: World, limit: Option<nat>)
    requires c.task.TaskOf? && (c.task.task.AndThen? || c.task.task.OnError?)
    ensures var f := Frame(if c.task.task.AndThen? then ANDTHEN else ONERROR, c.task.task.callback);
      Step(c, answers, w, limit) == if limit.Some? && |c.frames| >= limit.value then Overflow
                                    else Next(Config(c.task.task.task, c.frames + [f]), answers)
  {
  }

  /** A task without one inside has its result in one round, unless it waits. */
  lemma StepResult(t: Value, frames: seq<Frame>, room: nat, answers: seq<Result>, w: World, limit: Option<nat>,
                   fuel: nat)
    requires t.TaskOf? ==> !t.task.AndThen? && !t.task.OnError?
    requires !Step(Config(t, frames), answers, w, limit).Waiting?
    ensures var g := Run(t, room, answers, w, fuel);
      g.Some? && Step(Config(t, frames), answers, w, limit) == Complete(g.value.result, frames, g.value.rest, w)
  {
    hide Unwind;
  }

  /** How much room is left below a limit; without one, as many as there are rounds. */
  function RoomFor(frames: nat, limit: Option<nat>, n: nat): nat {
    if limit.None? then n else if limit.value >= frames then limit.value - frames else 0
  }

  /** And a machine that ends has found the result of the task on the way. */
  lemma {:induction false} Found(t: Value, frames: seq<Frame>, answers: seq<Result>, w: World, limit: Option<nat>,
                                 n: nat, r: Result, rest: seq<Result>) returns (g: Got, m: nat)
    requires Onward(Next(Config(t, frames), answers), w, limit, n) == Ended(r, rest)
    ensures m < n && Run(t, RoomFor(|frames|, limit, n), answers, w, n) == Some(g)
    ensures Onward(Complete(g.result, frames, g.rest, w), w, limit, m) == Ended(r, rest)
    decreases n
  {
    hide Complete, Unwind, Onward, Step;
    OnwardStep(Next(Config(t, frames), answers), w, limit, n);
    var o := Step(Config(t, frames), answers, w, limit);
    assert n >= 1 && Onward(o, w, limit, n - 1) == Ended(r, rest);
    if o.Overflow? || o.Waiting? { StuckStays(o, w, limit, n - 1); }
    if t.TaskOf? && (t.task.AndThen? || t.task.OnError?) {
      StepInto(Config(t, frames), answers, w, limit);
      var f := Frame(if t.task.AndThen? then ANDTHEN else ONERROR, t.task.callback);
      var room := RoomFor(|frames|, limit, n);
      var g1, m1 := Found(t.task.task, frames + [f], answers, w, limit, n - 1, r, rest);
      RunAgain(t.task.task, RoomFor(|frames| + 1, limit, n - 1), answers, w, n - 1, room - 1, n);
      CompleteTop(g1.result, frames, f, g1.rest, w);
      if Takes(f.kind, g1.result) {
        var next := w.apply(f.callback, [Payload(g1.result)]);
        g, m := Found(next, frames, g1.rest, w, limit, m1, r, rest);
        RunAgain(next, RoomFor(|frames|, limit, m1), g1.rest, w, m1, room, n - 1);
      } else {
        g, m := g1, m1;
      }
    } else {
      StepResult(t, frames, RoomFor(|frames|, limit, n), answers, w, limit, n);
      g, m := Run(t, RoomFor(|frames|, limit, n), answers, w, n).value, n - 1;
    }
  }

  lemma RunAgain(t: Value, room: nat, answers: seq<Result>, w: World, fuel: nat, room': nat, fuel': nat)
    requires Run(t, room, answers, w, fuel).Some? && room <= room' && fuel <= fuel'
    ensures Run(t, room', answers, w, fuel') == Run(t, room, answers, w, fuel)
  {
    var g := Run(t, room, answers, w, fuel).value;
    RunMore(t, room, answers, w, fuel, room', fuel', []);
    assert answers + [] == answers && g.rest + [] == g.rest;
  }

  lemma OnwardStep(o: Outcome, w: World, limit: Option<nat>, n: nat)
    ensures if n == 0 || !o.Next? then Onward(o, w, limit, n) == o
      else Onward(o, w, limit, n) == Onward(Step(o.c, o.rest, w, limit), w, limit, n - 1)
  {
    hide Step;
  }

  lemma StuckStays(o: Outcome, w: World, limit: Option<nat>, n: nat)
    requires o.Overflow? || o.Waiting?
    ensures Onward(o, w, limit, n) == o
  {
  }

  /** The machine ends having used up the answers. */
  ghost predicate Ends(t: Value, w: World, limit: Option<nat>, answers: seq<Result>, r: Result) {
    exists n: nat :: Onward(Next(Config(t, []), answers), w, limit, n) == Ended(r, [])
  }

  /** Some room within the limit, and some fuel, give this result with these answers. */
  ghost predicate Means(t: Value, w: World, limit: Option<nat>, answers: seq<Result>, r: Result) {
    exists room: nat, fuel: nat ::
      (limit.Some? ==> room <= limit.value) && Run(t, room, answers, w, fuel) == Some(Got(r, []))
  }

  /** The machine ends with a result if and only if the task means it. */
  lemma Exactly(t: Value, w: World, limit: Option<nat>, answers: seq<Result>, r: Result)
    ensures Ends(t, w, limit, answers, r) <==> Means(t, w, limit, answers, r)
  {
    hide Run;
    if Ends(t, w, limit, answers, r) {
      var n: nat :| Onward(Next(Config(t, []), answers), w, limit, n) == Ended(r, []);
      var g, m := Found(t, [], answers, w, limit, n, r, []);
      EndedStays(Complete(g.result, [], g.rest, w), w, limit, m);
      assert Run(t, RoomFor(0, limit, n), answers, w, n) == Some(Got(r, []));
    }
    if Means(t, w, limit, answers, r) {
      var room: nat, fuel: nat :|
        (limit.Some? ==> room <= limit.value) && Run(t, room, answers, w, fuel) == Some(Got(r, []));
      var n := Reaches(t, [], room, answers, w, limit, fuel);
      assert Onward(Next(Config(t, []), answers), w, limit, n) == Ended(r, []);
    }
  }

  /** A task means one thing with the answers that it gets, and knows when it has got enough. */
  lemma OneMeaning(t: Value, w: World, limit: Option<nat>, limit': Option<nat>, answers: seq<Result>,
                   answers': seq<Result>, r: Result, r': Result)
    requires Means(t, w, limit, answers, r) && Means(t, w, limit', answers', r') && answers <= answers'
    ensures r == r' && answers == answers'
  {
    hide Run;
    var room: nat, fuel: nat :|
      (limit.Some? ==> room <= limit.value) && Run(t, room, answers, w, fuel) == Some(Got(r, []));
    var room': nat, fuel': nat :|
      (limit'.Some? ==> room' <= limit'.value) && Run(t, room', answers', w, fuel') == Some(Got(r', []));
    RunMore(t, room, answers, w, fuel, room + room', fuel + fuel', answers'[|answers|..]);
    RunAgain(t, room', answers', w, fuel', room + room', fuel + fuel');
    assert answers + answers'[|answers|..] == answers';
  }
}
