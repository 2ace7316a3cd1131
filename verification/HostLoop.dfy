/** The loop, each method against the function that specifies it. */
module HostLoop {
  import opened Wrappers
  import opened Tasks
  import opened HostState
  import opened HostRuns
  import opened HostTables

  datatype Pause = DONE | BOUND | PANIC

  class HostLoop {
    const slots: array<Value>
    const evals: array<Eval>
    const w: World
    const sys: System
    var nevals: nat
    var nactive: nat
    var quit: bool
    var starts: nat
    var batches: nat
    ghost var ids: seq<nat>
    ghost var heard: seq<seq<Result>>
    ghost var spawned: seq<Birth>
    ghost var log: seq<Ending>

    ghost predicate Valid()
      reads this, slots, evals
    {
      && AllOk(slots[..], evals[..]) && nevals <= MAX_EVALS && |ids| == |heard| == MAX_EVALS
      && (forall i :: nevals <= i < MAX_EVALS ==> !evals[..][i].active)
      && nactive == Count(evals[..], MAX_EVALS)
    }

    ghost function Now(): (h: Host)
      requires Valid()
      reads this, slots, evals
      ensures Sized(h)
    {
      Host(slots[..][MODEL_SLOT], Threads(slots[..], evals[..]), Gens(evals[..]), quit, starts, batches, ids, heard,
           spawned, log)
    }

    /** The program that runs. */
    ghost function Setting(): Program
      requires slots.Length == MAX_SLOTS
      reads slots
    {
      Program(Update(), w, sys)
    }

    function Update(): Value
      requires slots.Length == MAX_SLOTS
      reads slots
    {
      slots[UPDATE_SLOT]
    }

    /** The loop before its first command. */
    constructor (model: Value, update: Value, w: World, sys: System)
      ensures Valid() && fresh(slots) && fresh(evals) && Setting() == Program(update, w, sys)
      ensures Now() == Start(model)
    {
      slots := new Value[MAX_SLOTS](i => if i == MODEL_SLOT then model else if i == UPDATE_SLOT then update else Nil);
      evals := new Eval[MAX_EVALS](_ => Eval(false, 0, 0, [], false));
      nevals, nactive, quit, starts, batches := 0, 0, false, 0, 0;
      ids, heard, spawned, log := seq(MAX_EVALS, _ => 0), seq(MAX_EVALS, _ => []), [], [];
      this.w, this.sys := w, sys;
      new;
      StartsOk(slots[..], evals[..]);
      assert Gens(evals[..]) == seq(MAX_EVALS, _ => 0);
      assert Threads(slots[..], evals[..]) == seq(MAX_EVALS, _ => None);
    }

    /** The slots of a block are set to nil. */
    method ClearBlock(i: nat)
      requires slots.Length == MAX_SLOTS && i < MAX_EVALS
      modifies slots
      ensures Apart(old(slots[..]), slots[..], i) && forall s: nat :: InBlock(i, s) ==>
        s < MAX_SLOTS && slots[..][s] == Nil
    {
      BlockInside(i);
      var j := 0;
      while j < BLOCK
        invariant j <= BLOCK && forall s: nat :: s < MAX_SLOTS ==>
          slots[s] == if Base(i) <= s < Base(i) + j then Nil else old(slots[..])[s]
      {
        slots[Base(i) + j] := Nil;
        j := j + 1;
      }
    }

    /** The search of spawn. */
    method FindFree() returns (i: nat)
      requires Valid()
      ensures i <= nevals && i == FirstFree(Now().threads, 0) && (i < MAX_EVALS ==> !evals[..][i].active)
    {
      hide EvalOk, ThreadOf, Count;
      i := 0;
      while i < nevals && evals[i].active
        invariant i <= nevals && forall j :: 0 <= j < i ==> evals[..][j].active
      {
        i := i + 1;
      }
      ActiveIs(slots[..], evals[..]);
      FirstFreeIs(Now().threads, i, 0);
    }

    /** A place that is free gets an evaluation of the task. */
    method Occupy(i: nat, task: Value)
      requires AllOk(slots[..], evals[..]) && i < MAX_EVALS && !evals[..][i].active
      modifies slots, evals
      ensures var e := old(evals[..])[i]; evals[..] == old(evals[..])[i := Eval(true, Base(i), e.gen + 1, [], false)]
      ensures AllOk(slots[..], evals[..]) && Update() == old(Update()) && slots[MODEL_SLOT] == old(slots[MODEL_SLOT])
      ensures Threads(slots[..], evals[..]) ==
        old(Threads(slots[..], evals[..]))[i := Some(Thread(Config(task, []), false))]
      ensures Gens(evals[..]) == old(Gens(evals[..]))[i := old(evals[..])[i].gen + 1]
      ensures Count(evals[..], MAX_EVALS) == Count(old(evals[..]), MAX_EVALS) + 1
    {
      hide EvalOk, ThreadOf, Count;
      ghost var slots0, evals0 := slots[..], evals[..];
      NewThread(slots0, i, evals0[i], task, evals0[i].gen + 1);
      BlockInside(i);
      ClearBlock(i);
      AlreadyNil(slots0, slots[..], evals0[i], i);
      evals[i] := Eval(true, Base(i), evals[i].gen + 1, [], false);
      slots[Base(i)] := task;
      assert slots[..] == slots0[Base(i) := task];
      assert evals[..] == evals0[i := evals[i]];
      PutThread(slots0, evals0, slots[..], i, evals[i]);
      CountUpdate(evals0, i, evals[i], MAX_EVALS);
    }

    /** spawn: the first place without an evaluation gets the task, and a new generation. */
    method Spawn(task: Value) returns (ok: bool)
      requires Valid()
      modifies this, slots, evals
      ensures ok <==> old(Place(Now(), task)).Some?
      ensures ok ==> Valid() && Some(Now()) == old(Place(Now(), task)) && Setting() == old(Setting())
    {
      hide EvalOk, ThreadOf, Count;
      var i := FindFree();
      if i == MAX_EVALS { return false; }
      if i == nevals { nevals := nevals + 1; }
      Occupy(i, task);
      nactive := nactive + 1;
      ids, heard := ids[i := |spawned|], heard[i := []];
      spawned := spawned + [Birth(task, i, evals[i].gen)];
      ok := true;
    }

    /** spawnFromCmd */
    method SpawnFromCmd(cmd: Value) returns (ok: bool)
      requires Valid()
      modifies this, slots, evals
      ensures ok <==> old(PlaceAll(Now(), cmd)).Some?
      ensures ok ==> Valid() && Some(Now()) == old(PlaceAll(Now(), cmd)) && Setting() == old(Setting())
    {
      hide Place;
      ok := true;
      var cur := cmd;
      while cur.Pair?
        invariant Valid() && Setting() == old(Setting()) && PlaceAll(Now(), cur) == old(PlaceAll(Now(), cmd))
        decreases cur
      {
        ok := Spawn(cur.first);
        if !ok { return; }
        cur := cur.second;
      }
    }

    /** deactivate: the place is free again, and nil. */
    method Deactivate(i: nat, ghost r: Result)
      requires Valid() && i < MAX_EVALS && evals[..][i].active && (r.Quit? ==> quit)
      modifies this`nactive, this`log, slots, evals
      ensures Valid() && Now() == old(Drop(Now(), i, r)) && Setting() == old(Setting())
    {
      hide EvalOk, ThreadOf, Count;
      ghost var slots0, evals0 := slots[..], evals[..];
      CountSome(evals0, i, MAX_EVALS);
      evals[i] := Eval(false, evals[i].base, evals[i].gen, [], false);
      nactive := nactive - 1;
      log := log + [Ending(ids[i], heard[i], r)];
      ClearBlock(i);
      BlockInside(i);
      assert evals[..] == evals0[i := evals[i]];
      NoThread(slots[..], i, evals[i]);
      PutThread(slots0, evals0, slots[..], i, evals[i]);
      CountUpdate(evals0, i, evals[i], MAX_EVALS);
    }

    /** Slots of block i and its entry have been changed, and it is still active. */
    lemma Changed(slots0: seq<Value>, evals0: seq<Eval>, nevals0: nat, i: nat, h0: Host)
      requires AllOk(slots0, evals0) && i < MAX_EVALS && evals0[i].active && |ids| == |heard| == MAX_EVALS
      requires h0 == Host(slots0[MODEL_SLOT], Threads(slots0, evals0), Gens(evals0), quit, starts, batches, ids, heard,
        spawned, log)
      requires nevals == nevals0 <= MAX_EVALS && (forall j :: nevals <= j < MAX_EVALS ==> !evals0[j].active)
      requires nactive == Count(evals0, MAX_EVALS) && slots.Length == MAX_SLOTS && evals.Length == MAX_EVALS
      requires Apart(slots0, slots[..], i) && evals[..] == evals0[i := evals[i]] && EvalOk(evals[i], i, slots[..])
      requires evals[i].active && evals[i].gen == evals0[i].gen
      ensures Valid() && Update() == slots0[UPDATE_SLOT] && Setting() == Program(slots0[UPDATE_SLOT], w, sys)
      ensures Now() == Continue(h0, i, ThreadOf(evals[i], i, slots[..]).value)
    {
      hide EvalOk, Count;
      BlockInside(i);
      PutThread(slots0, evals0, slots[..], i, evals[i]);
      CountUpdate(evals0, i, evals[i], MAX_EVALS);
      assert Gens(evals0)[i := evals[i].gen] == Gens(evals0);
    }

    /** The state of an evaluation, read off its slots. */
    ghost function ConfigAt(i: nat): Config
      requires Valid() && i < MAX_EVALS && evals[..][i].active
      reads this, slots, evals
    {
      Now().threads[i].value.config
    }

    /** pushFrame, and the task inside. */
    method Descend(i: nat, kind: Kind, callback: Value, task: Value) returns (ok: bool)
      requires Valid() && i < MAX_EVALS && evals[..][i].active && !evals[..][i].waiting
      modifies slots, evals
      ensures ok <==> |old(ConfigAt(i).frames)| < MAX_FRAMES
      ensures ok ==> Valid() && Setting() == old(Setting())
      ensures ok ==>
        Now() == old(Continue(Now(), i, Thread(Config(task, ConfigAt(i).frames + [Frame(kind, callback)]), false)))
    {
      hide EvalOk, Count, Threads;
      ghost var slots0, evals0, h0 := slots[..], evals[..], Now();
      ThreadIs(slots0, evals0, i);
      var e := evals[i];
      if |e.frames| >= MAX_FRAMES { return false; }
      FramePushed(slots0, i, e, kind, callback);
      EntryIs(e, i, slots0);
      var s := e.base + 2 + |e.frames|;
      slots[s] := callback;
      evals[i] := Eval(true, e.base, e.gen, e.frames + [FrameSlot(kind, s)], e.waiting);
      ghost var slots1 := slots[..];
      assert slots1 == slots0[s := callback];
      TaskSet(slots1, i, evals[i], 0, task);
      slots[e.base] := task;
      assert slots[..] == slots1[Base(i) := task];
      assert evals[..] == evals0[i := evals[i]];
      Changed(slots0, evals0, nevals, i, h0);
      ok := true;
    }

    /** The top frame is popped, and its slot set to nil. */
    method PopTop(i: nat) returns (callback: Value)
      requires Valid() && i < MAX_EVALS && evals[..][i].active && evals[..][i].frames != []
      modifies slots, evals
      ensures Valid() && Setting() == old(Setting()) && evals[..][i].active &&
        ResultKept(old(slots[..]), old(evals[..])[i], i)
      ensures |old(ConfigAt(i).frames)| > 0 &&
        evals[..][i].frames == old(evals[..][i].frames)[..|old(evals[..][i].frames)| - 1]
      ensures var fs := old(ConfigAt(i).frames); var n := |fs| - 1;
        && callback == fs[n].callback && fs[n].kind == old(evals[..][i].frames[n].kind)
        && Now() == old(Continue(Now(), i,
          Thread(Config(ConfigAt(i).task, ConfigAt(i).frames[..|ConfigAt(i).frames| - 1]), evals[..][i].waiting)))
    {
      hide EvalOk, Count, Threads;
      ghost var slots0, evals0, h0 := slots[..], evals[..], Now();
      ThreadIs(slots0, evals0, i);
      var e := evals[i];
      var n := |e.frames| - 1;
      FramePopped(slots0, i, e);
      BlockInside(i);
      var s := e.frames[n].slot;
      callback := slots[s];
      evals[i] := Eval(true, e.base, e.gen, e.frames[..n], e.waiting);
      slots[s] := Nil;
      EntryIs(e, i, slots0);
      assert slots[..] == slots0[s := Nil];
      assert evals[..] == evals0[i := evals[i]];
      ghost var fs := FramesOf(e, i, slots0);
      assert fs[..n] == FramesOf(evals[i], i, slots[..]);
      Changed(slots0, evals0, nevals, i, h0);
    }

    /** The result and what is not a frame. */
    ghost predicate ResultKept(slots0: seq<Value>, e0: Eval, i: nat)
      requires i < MAX_EVALS && |slots0| == MAX_SLOTS && slots.Length == MAX_SLOTS && evals.Length == MAX_EVALS
      reads slots, evals
    {
      BlockInside(i);
      slots[Base(i) + 1] == slots0[Base(i) + 1] && evals[i].waiting == e0.waiting && evals[i].gen == e0.gen
    }

    /** Some frames that let the result pass have been popped since h0. */
    ghost predicate Popped(h0: Host, slots0: seq<Value>, e0: Eval, i: nat, r: Result)
      reads this, slots, evals
    {
      && Valid() && i < MAX_EVALS && |slots0| == MAX_SLOTS && Sized(h0) && h0.threads[i].Some?
      && evals[..][i].active && ResultKept(slots0, e0, i)
      && ConfigAt(i).task == h0.threads[i].value.config.task
      && Unwind(r, ConfigAt(i).frames) == Unwind(r, h0.threads[i].value.config.frames)
      && Now() == Continue(h0, i, Thread(ConfigAt(i), e0.waiting))
    }

    /** A frame that lets the result pass is popped. */
    method PopThrough(i: nat, ghost r: Result, ghost kind: Kind, ghost h0: Host, ghost slots0: seq<Value>,
                      ghost e0: Eval)
      requires (r.Ok? || r.Err?) && kind == (if r.Ok? then ANDTHEN else ONERROR) && Popped(h0, slots0, e0, i, r)
      requires evals[..][i].frames != [] && evals[..][i].frames[|evals[..][i].frames| - 1].kind != kind
      modifies slots, evals
      ensures Popped(h0, slots0, e0, i, r) && Setting() == old(Setting())
      ensures |evals[..][i].frames| < |old(evals[..][i].frames)|
    {
      hide EvalOk, Count, Threads, Unwind, Popped;
      PoppedNow(h0, slots0, e0, i, r);
      PoppedIs(h0, slots0, e0, i, r);
      FramesMatch(i);
      ghost var c, h1 := ConfigAt(i), Now();
      UnwindTop(r, c.frames[..|c.frames| - 1], c.frames[|c.frames| - 1]);
      assert c.frames[..|c.frames| - 1] + [c.frames[|c.frames| - 1]] == c.frames;
      var _ := PopTop(i);
      PoppedAgain(h0, slots0, e0, i, r, c);
    }

    /** Frames that let the result pass are popped. */
    method PopFrames(i: nat, ghost r: Result, kind: Kind) returns (found: bool)
      requires Valid() && i < MAX_EVALS && evals[..][i].active && (r.Ok? || r.Err?) && kind == if r.Ok? then ANDTHEN
        else ONERROR
      modifies slots, evals
      ensures Popped(old(Now()), old(slots[..]), old(evals[..][i]), i, r) && Setting() == old(Setting())
      ensures ConfigAt(i).frames == Unwind(r, old(ConfigAt(i).frames)) && (found <==> evals[..][i].frames != [])
    {
      hide EvalOk, Count, Threads, Unwind, Popped;
      ghost var h0, slots0, e0, p0 := Now(), slots[..], evals[..][i], Setting();
      ghost var config0 := ConfigAt(i);
      NonePopped(i, r);
      PoppedIs(h0, slots0, e0, i, r);
      while evals[i].frames != [] && evals[i].frames[|evals[i].frames| - 1].kind != kind
        invariant Popped(h0, slots0, e0, i, r) && evals.Length == MAX_EVALS && slots.Length == MAX_SLOTS &&
          Setting() == p0
        decreases |evals[i].frames|
      {
        PopThrough(i, r, kind, h0, slots0, e0);
      }
      PoppedIs(h0, slots0, e0, i, r);
      FramesMatch(i);
      UnwindDone(r, ConfigAt(i).frames, kind);
      found := evals[i].frames != [];
    }

    lemma PoppedAgain(h0: Host, slots0: seq<Value>, e0: Eval, i: nat, r: Result, c: Config)
      requires Valid() && i < MAX_EVALS && |slots0| == MAX_SLOTS && Sized(h0) && h0.threads[i].Some? && c.frames != []
      requires evals[..][i].active && ResultKept(slots0, e0, i) && c.task == h0.threads[i].value.config.task
      requires Unwind(r, c.frames[..|c.frames| - 1]) == Unwind(r, h0.threads[i].value.config.frames)
      requires Now() == Continue(Continue(h0, i, Thread(c, e0.waiting)), i,
        Thread(Config(c.task, c.frames[..|c.frames| - 1]), e0.waiting))
      ensures Popped(h0, slots0, e0, i, r)
    {
      hide Count, Unwind, Threads, EvalOk;
      ContinueTwice(h0, i);
    }

    lemma NonePopped(i: nat, r: Result)
      requires Valid() && i < MAX_EVALS && evals[..][i].active
      ensures Popped(Now(), slots[..], evals[..][i], i, r)
    {
      hide Count, Unwind;
      ThreadIs(slots[..], evals[..], i);
      ThreadSame(i);
      BlockInside(i);
    }

    lemma PoppedIs(h0: Host, slots0: seq<Value>, e0: Eval, i: nat, r: Result)
      requires Popped(h0, slots0, e0, i, r)
      ensures Valid() && evals[..][i].active && slots.Length == MAX_SLOTS && evals.Length == MAX_EVALS
      ensures |slots0| == MAX_SLOTS && Sized(h0) && h0.threads[i].Some? && ResultKept(slots0, e0, i)
      ensures Unwind(r, ConfigAt(i).frames) == Unwind(r, h0.threads[i].value.config.frames)
    {
      hide Count, Unwind;
    }

    /** The task or the result of an evaluation is set. */
    method SetSlot(i: nat, o: nat, v: Value)
      requires Valid() && i < MAX_EVALS && evals[..][i].active && o < 2
      modifies slots
      ensures Valid() && Setting() == old(Setting()) && slots[..][Base(i) + o] == v
      ensures o == 0 ==> Now() == old(Continue(Now(), i, Thread(Config(v, ConfigAt(i).frames), evals[..][i].waiting)))
      ensures o == 1 ==> Now() == old(Now())
      ensures o == 0 ==> slots[..][Base(i) + 1] == old(slots[..])[Base(i) + 1]
    {
      hide EvalOk, Count, Threads;
      ghost var slots0, evals0, h0 := slots[..], evals[..], Now();
      BlockInside(i);
      ThreadSame(i);
      ThreadIs(slots0, evals0, i);
      TaskSet(slots0, i, evals[i], o, v);
      slots[Base(i) + o] := v;
      assert slots[..] == slots0[Base(i) + o := v];
      assert evals0 == evals0[i := evals[i]];
      Changed(slots0, evals0, nevals, i, h0);
    }

    /** The loops of completeSuccess and completeError: the result goes to the first frame that takes
        it, whose callback gives the next task; `more` is false when there is none. */
    method PassOn(i: nat, ghost r: Result, kind: Kind) returns (more: bool)
      requires Valid() && i < MAX_EVALS && evals[..][i].active && !evals[..][i].waiting
      requires (r.Ok? || r.Err?) && kind == (if r.Ok? then ANDTHEN else ONERROR) && slots[..][Base(i) + 1] == Payload(r)
      modifies slots, evals
      ensures Valid() && Setting() == old(Setting()) && evals[..][i].active && slots[..][Base(i) + 1] == Payload(r)
      ensures var o := old(Complete(r, ConfigAt(i).frames, [], w));
        if more then o.Next? && Now() == Continue(old(Now()), i, Thread(o.c, false))
        else o == Ended(r, []) && Now() == old(Continue(Now(), i, Thread(Config(ConfigAt(i).task, []), false)))
    {
      hide EvalOk, Count, Threads, Unwind, Popped, Complete, Continue;
      ghost var h0, slots0, e0 := Now(), slots[..], evals[..][i];
      CompleteUnwound(r, ConfigAt(i).frames, w);
      more := PopFrames(i, r, kind);
      PoppedNow(h0, slots0, e0, i, r);
      FramesMatch(i);
      ghost var fs := ConfigAt(i).frames;
      if more {
        CallBack(i);
        ContinueTwice(h0, i);
      }
    }

    /** The top frame is popped, and its callback gives the next task for the result. */
    method CallBack(i: nat)
      requires Valid() && i < MAX_EVALS && evals[..][i].active && evals[..][i].frames != []
      modifies slots, evals
      ensures Valid() && Setting() == old(Setting()) && evals[..][i].active
      ensures Base(i) + 1 < MAX_SLOTS && slots[..][Base(i) + 1] == old(slots[..])[Base(i) + 1]
      ensures var fs := old(ConfigAt(i).frames); var n := |fs| - 1;
        && n >= 0 && Now() == Continue(old(Now()), i,
          Thread(Config(w.apply(fs[n].callback, [old(slots[..])[Base(i) + 1]]), fs[..n]), old(evals[..][i].waiting)))
    {
      hide EvalOk, Count, Threads;
      ghost var h0 := Now();
      var callback := PopTop(i);
      BlockInside(i);
      SetSlot(i, 0, w.apply(callback, [slots[Base(i) + 1]]));
      ContinueTwice(h0, i);
    }

    lemma PoppedNow(h0: Host, slots0: seq<Value>, e0: Eval, i: nat, r: Result)
      requires Popped(h0, slots0, e0, i, r)
      ensures Valid() && evals[..][i].active && Base(i) + 1 < MAX_SLOTS && slots[..][Base(i) + 1] == slots0[Base(i) + 1]
      ensures evals[..][i].waiting == e0.waiting && Now() == Continue(h0, i, Thread(ConfigAt(i), e0.waiting))
      ensures ConfigAt(i).task == h0.threads[i].value.config.task
    {
      hide Count, Unwind;
      BlockInside(i);
    }

    /** deliver: the message goes to update, the evaluation is over, and the tasks of the command are
        spawned. */
    method Send(i: nat, msg: Value) returns (ok: bool)
      requires Valid() && i < MAX_EVALS && evals[..][i].active
      modifies this, slots, evals
      ensures var r := old(Deliver(Now(), i, msg, Setting()));
        (ok <==> r.Some?) && (ok ==> Valid() && Some(Now()) == r && Setting() == old(Setting()))
    {
      hide EvalOk, Count, PlaceAll, Threads;
      ghost var h0 := Now();
      var pair := w.apply(slots[UPDATE_SLOT], [msg, slots[MODEL_SLOT]]);
      if pair.Pair? { SetModel(pair.first); }
      assert Now() == h0.(model := NewModel(Setting(), msg, h0.model));
      Deactivate(i, Ok(msg));
      ok := true;
      if pair.Pair? { ok := SpawnFromCmd(pair.second); } else { NoCommand(Now()); }
    }

    method SetModel(model: Value)
      requires Valid()
      modifies slots
      ensures Valid() && Setting() == old(Setting()) && Now() == old(Now()).(model := model)
    {
      hide EvalOk, Count, ThreadOf;
      ghost var slots0 := slots[..];
      slots[MODEL_SLOT] := model;
      assert slots[..] == slots0[MODEL_SLOT := model];
      ModelApart(slots0, evals[..], model);
    }

    /** completeSuccess */
    method CompleteSuccess(i: nat) returns (ok: bool)
      requires Valid() && i < MAX_EVALS && evals[..][i].active && !evals[..][i].waiting && Base(i) + 1 < MAX_SLOTS
      modifies this, slots, evals
      ensures var o := old(Complete(Ok(slots[..][Base(i) + 1]), ConfigAt(i).frames, [], w));
        var r := Follow(old(Now()), i, o, old(Setting()));
        (ok <==> r.Some?) && (ok ==> Valid() && Some(Now()) == r && Setting() == old(Setting()))
    {
      hide EvalOk, Count, Complete, Deliver;
      ghost var h0 := Now();
      var v := slots[Base(i) + 1];
      ok := true;
      var more := PassOn(i, Ok(v), ANDTHEN);
      if !more {
        GoneEither(h0, i, Now().threads[i].value, Ok(v), Setting());
        ok := Send(i, v);
      }
    }

    /** completeError */
    method CompleteError(i: nat)
      requires Valid() && i < MAX_EVALS && evals[..][i].active && !evals[..][i].waiting && Base(i) + 1 < MAX_SLOTS
      modifies this`nactive, this`log, slots, evals
      ensures Valid() && Setting() == old(Setting())
      ensures var o := old(Complete(Err(slots[..][Base(i) + 1]), ConfigAt(i).frames, [], w));
        Some(Now()) == Follow(old(Now()), i, o, old(Setting()))
    {
      hide EvalOk, Count, Complete, Deliver;
      ghost var h0 := Now();
      var e := slots[Base(i) + 1];
      var more := PassOn(i, Err(e), ONERROR);
      if !more {
        GoneEither(h0, i, Now().threads[i].value, Err(e), Setting());
        Deactivate(i, Err(e));
      }
    }

    /** The leaf of an evaluation has this answer, which goes on to its frames. */
    method Give(i: nat, r: Result) returns (ok: bool)
      requires Valid() && i < MAX_EVALS && evals[..][i].active && !evals[..][i].waiting
      modifies this, slots, evals
      ensures var o := old(Follow(Hear(Now(), i, [r]), i, Complete(r, ConfigAt(i).frames, [], w), Setting()));
        (ok <==> o.Some?) && (ok ==> Valid() && Some(Now()) == o && Setting() == old(Setting()))
    {
      hide EvalOk, Count, Complete, Deliver, Threads;
      ghost var fs := ConfigAt(i).frames;
      heard := heard[i := heard[i] + [r]];
      assert Now() == old(Hear(Now(), i, [r]));
      ok := true;
      match r
      case Ok(v) =>
        SetSlot(i, 1, v);
        ok := CompleteSuccess(i);
      case Err(e) =>
        SetSlot(i, 1, e);
        CompleteError(i);
      case Bad =>
        BadEnds(fs, [], w);
        Deactivate(i, Bad);
      case Quit =>
        BadEnds(fs, [], w);
        ghost var h1 := Now();
        quit := true;
        Deactivate(i, Quit);
        QuitDrops(h1, i);
    }

    /** A leaf starts its effect: it is answered at once, or waits. */
    method Begin(i: nat) returns (ok: bool)
      requires Valid() && i < MAX_EVALS && evals[..][i].active && !evals[..][i].waiting && IsLeaf(ConfigAt(i))
      modifies this, slots, evals
      ensures var r := old(Round(Now(), i, Setting()));
        (ok <==> r.Some?) && (ok ==> Valid() && Some(Now()) == r && Setting() == old(Setting()))
    {
      hide EvalOk, Count, Complete, Deliver, Threads;
      ghost var h0, c, p := Now(), ConfigAt(i), Setting();
      var r := sys.start(starts);
      starts := starts + 1;
      LeafRound(h0, i, p);
      assert ConfigAt(i) == c;
      if r.Some? {
        ok := Give(i, r.value);
      } else {
        SetWaiting(i, true);
        ok := true;
      }
    }

    /** One round of stepEval. */
    method RoundOf(i: nat) returns (ok: bool)
      requires Valid() && i < MAX_EVALS && evals[..][i].active && !evals[..][i].waiting
      modifies this, slots, evals
      ensures var r := old(Round(Now(), i, Setting()));
        (ok <==> r.Some?) && (ok ==> Valid() && Some(Now()) == r && Setting() == old(Setting()))
    {
      hide EvalOk, Count, Complete, Deliver, Threads;
      ThreadIs(slots[..], evals[..], i);
      BlockInside(i);
      FramesMatch(i);
      ghost var c := ConfigAt(i);
      var task := slots[Base(i)];
      assert task == c.task && Now().threads[i] == Some(Thread(c, false));
      ok := true;
      if !task.TaskOf? {
        Deactivate(i, Bad);
        return;
      }
      match task.task
      case Succeed(v) =>
        SetSlot(i, 1, v);
        ok := CompleteSuccess(i);
      case Fail(e) =>
        SetSlot(i, 1, e);
        CompleteError(i);
      case AndThen(f, u) => ok := Descend(i, ANDTHEN, f, u);
      case OnError(f, u) => ok := Descend(i, ONERROR, f, u);
      case Leaf(_) => ok := Begin(i);
    }

    method SetWaiting(i: nat, waiting: bool)
      requires Valid() && i < MAX_EVALS && evals[..][i].active
      modifies evals
      ensures Valid() && Setting() == old(Setting()) && evals[..][i].active && evals[..][i].waiting == waiting
      ensures Now() == old(Continue(Now(), i, Thread(ConfigAt(i), waiting)))
    {
      hide EvalOk, Count, Threads;
      ghost var slots0, evals0, h0 := slots[..], evals[..], Now();
      ThreadIs(slots0, evals0, i);
      var e := evals[i];
      evals[i] := Eval(e.active, e.base, e.gen, e.frames, waiting);
      WaitingOk(slots0, i, e, waiting);
      assert evals[..] == evals0[i := evals[i]];
      Changed(slots0, evals0, nevals, i, h0);
    }

    /** stepEval: rounds of the evaluation that is at place i at the start; one that is spawned there
        meanwhile is not stepped. */
    method StepEval(i: nat, rounds: nat) returns (end: Pause)
      requires Valid() && i < MAX_EVALS
      modifies this, slots, evals
      ensures Paused(end, old(RunEval(Now(), i, Now().gens[i], rounds, Setting())), old(Setting()))
    {
      hide EvalOk, Count, Round, Threads;
      var startGen := evals[i].gen;
      var count := 0;
      PlaceIs(i);
      while evals[i].active && evals[i].gen == startGen && !evals[i].waiting
        invariant count <= rounds && Valid() && Setting() == old(Setting())
        invariant RunEval(Now(), i, startGen, rounds - count, Setting()) ==
          old(RunEval(Now(), i, Now().gens[i], rounds, Setting()))
        decreases rounds - count
      {
        PlaceIs(i);
        if count == rounds { return BOUND; }
        var ok := RoundOf(i);
        if !ok { return PANIC; }
        count := count + 1;
      }
      PlaceIs(i);
      end := DONE;
    }

    /** How a method has ended, as its specification says; the state is that of the specification unless
        it panicked. */
    ghost predicate Paused(end: Pause, r: Progress, p: Program)
      reads this, slots, evals
    {
      && (end == DONE <==> r.At?) && (end == BOUND <==> r.Cut?) && (end == PANIC <==> r.Panicked?)
      && (end != PANIC ==> Valid() && Now() == r.h && Setting() == p)
    }

    lemma PlaceIs(i: nat)
      requires Valid() && i < MAX_EVALS
      ensures slots.Length == MAX_SLOTS && evals.Length == MAX_EVALS && Now().gens[i] == evals[i].gen
      ensures Now().threads[i].Some? <==> evals[i].active
      ensures evals[i].active ==> Now().threads[i].value.waiting == evals[i].waiting
    {
      hide Count;
      ActiveIs(slots[..], evals[..]);
      if evals[..][i].active { ThreadIs(slots[..], evals[..], i); }
    }

    /** stepAll: every evaluation that does not wait, also at places that fill up meanwhile. */
    method StepAll(rounds: nat) returns (end: Pause)
      requires Valid()
      modifies this, slots, evals
      ensures Paused(end, old(Sweep(Now(), 0, rounds, Setting())), old(Setting()))
    {
      hide EvalOk, Count, RunEval, Threads;
      var i := 0;
      while i < nevals
        invariant i <= MAX_EVALS && Valid() && Setting() == old(Setting())
        invariant Sweep(Now(), i, rounds, Setting()) == old(Sweep(Now(), 0, rounds, Setting()))
        decreases MAX_EVALS - i
      {
        PlaceIs(i);
        if evals[i].active && !evals[i].waiting {
          end := StepEval(i, rounds);
          if end != DONE { return; }
        } else {
          NotStepped(Now(), i, rounds, Setting());
        }
        i := i + 1;
      }
      forall j | i <= j < MAX_EVALS ensures Now().threads[j].None? { PlaceIs(j); }
      SweepNone(Now(), i, rounds, Setting());
      end := DONE;
    }

    /** Effects that are complete give their evaluations the answers. */
    method CompleteReady(events: seq<Event>) returns (end: Pause)
      requires Valid()
      modifies this, slots, evals
      ensures Paused(end, old(CompleteAll(Now(), events, Setting())), old(Setting()))
    {
      hide EvalOk, Count, Finish, Threads;
      var k := 0;
      assert events[0..] == events;
      while k < |events|
        invariant k <= |events| && Valid() && Setting() == old(Setting())
        invariant CompleteAll(Now(), events[k..], Setting()) == old(CompleteAll(Now(), events, Setting()))
      {
        var e := events[k];
        assert events[k..][1..] == events[k + 1..];
        if e.place < MAX_EVALS {
          PlaceIs(e.place);
          if evals[e.place].active && evals[e.place].waiting {
            var ok := Answer(e.place, Outcomes(e));
            if !ok { return PANIC; }
          }
        }
        k := k + 1;
      }
      end := DONE;
    }

    /** The effect of a leaf is complete. */
    method Answer(i: nat, r: Result) returns (ok: bool)
      requires Valid() && i < MAX_EVALS && evals[..][i].active && evals[..][i].waiting
      modifies this, slots, evals
      ensures var o := old(Finish(Now(), i, r, Setting()));
        (ok <==> o.Some?) && (ok ==> Valid() && Some(Now()) == o && Setting() == old(Setting()))
    {
      hide EvalOk, Count, Complete, Follow, Threads;
      ghost var h0, c := Now(), ConfigAt(i);
      SetWaiting(i, false);
      HearSame(h0, i, Thread(c, false), r, Complete(r, c.frames, [], w), Setting());
      ok := Give(i, r);
    }

    /** hasRunnable */
    method LookRunnable() returns (found: bool)
      requires Valid()
      ensures found <==> HasRunnable(Now())
    {
      hide EvalOk, Count, Threads;
      var i := 0;
      while i < nevals
        invariant i <= nevals && forall j :: 0 <= j < i ==> !Runnable(Now(), j)
      {
        PlaceIs(i);
        if evals[i].active && !evals[i].waiting {
          assert Runnable(Now(), i);
          return true;
        }
        i := i + 1;
      }
      forall j | nevals <= j < MAX_EVALS ensures !Runnable(Now(), j) { PlaceIs(j); }
      found := false;
    }

    /** The loop looks for effects that are complete. */
    method LookReady() returns (end: Pause)
      requires Valid()
      modifies this, slots, evals
      ensures Paused(end, old(Batch(Now(), Setting())), old(Setting()))
    {
      hide EvalOk, Count, CompleteAll, Threads;
      var events := sys.ready(batches);
      batches := batches + 1;
      end := CompleteReady(events);
    }

    /** The loop that runs all pure work, with what it has spawned, before the poll. */
    method SettleAll(rounds: nat) returns (end: Pause)
      requires Valid()
      modifies this, slots, evals
      ensures Paused(end, old(Settle(Now(), rounds, rounds, Setting())), old(Setting()))
    {
      hide EvalOk, Count, Sweep, Batch, HasRunnable, Threads;
      var count := 0;
      var more := LookRunnable();
      while more
        invariant count <= rounds && Valid() && Setting() == old(Setting()) && (more <==> HasRunnable(Now()))
        invariant Settle(Now(), rounds, rounds - count, Setting()) ==
          old(Settle(Now(), rounds, rounds, Setting()))
        decreases rounds - count
      {
        if count == rounds { return BOUND; }
        end := StepAll(rounds);
        if end != DONE || quit { return; }
        end := LookReady();
        if end != DONE { return; }
        count := count + 1;
        more := LookRunnable();
      }
      end := DONE;
    }

    lemma OverIs()
      requires Valid()
      ensures Over(Now()) <==> quit || nactive == 0
      ensures NoneActive(Now()) <==> nactive == 0
    {
      hide EvalOk, Count, Threads;
      NoneLeft();
    }

    /** A turn of the loop up to its poll. */
    method TakeTurn(rounds: nat) returns (end: Pause)
      requires Valid()
      modifies this, slots, evals
      ensures Paused(end, old(HostState.Turn(Now(), rounds, Setting())), old(Setting()))
    {
      hide EvalOk, Count, Sweep, Batch, Settle, NoneActive, Threads;
      end := StepAll(rounds);
      if end != DONE { return; }
      OverIs();
      if quit || nactive == 0 { return; }
      end := LookReady();
      if end != DONE { return; }
      OverIs();
      if nactive == 0 { return; }
      end := SettleAll(rounds);
    }

    /** poll, and the effects that it reports; nothing is runnable then. */
    method Poll(events: seq<Event>) returns (end: Pause)
      requires Valid() && !HasRunnable(Now()) && !Over(Now())
      requires sys.poll(batches) == Some(events)
      modifies this, slots, evals
      ensures Paused(end, old(CompleteAll(Now().(batches := batches + 1), events, Setting())), old(Setting()))
    {
      hide EvalOk, Count, CompleteAll, Threads;
      batches := batches + 1;
      end := CompleteReady(events);
    }

    /** A turn with its poll; without an end the run goes on. */
    method GoAround(rounds: nat) returns (end: Option<End>, ghost polled: seq<Host>)
      requires Valid()
      modifies this, slots, evals
      ensures match old(Around(Now(), rounds, Setting()))
              case Again(h, q) => end == None && polled == [q] && Valid() && Now() == h && Setting() == old(Setting())
              case Last(r) =>
                && end == Some(r.end) && polled == r.polls
                && (r.end != Panic ==> Valid() && Now() == r.h && Setting() == old(Setting()))
    {
      hide EvalOk, Count, HostState.Turn, CompleteAll, HasRunnable, NoneActive, Threads;
      ghost var h0 := Now();
      polled := [];
      var pause := TakeTurn(rounds);
      if pause == PANIC { return Some(Panic), polled; }
      if pause == BOUND { return Some(CutOff), polled; }
      OverIs();
      if quit || nactive == 0 { return Some(Finished), polled; }
      TurnIdle(h0, rounds, Setting());
      var events := sys.poll(batches);
      if events.None? { return Some(Stuck), polled; }
      ghost var h1 := Now();
      pause := Poll(events.value);
      polled := [h1];
      NoCut(h1.(batches := h1.batches + 1), events.value, Program(Update(), w, sys));
      end := if pause == PANIC then Some(Panic) else None;
    }

    /** The loop: the run that its specification says, whatever the system does. */
    method Drive(turns: nat, rounds: nat) returns (end: End, ghost polls: seq<Host>)
      requires Valid()
      modifies this, slots, evals
      ensures var r := old(HostState.Drive(Now(), turns, rounds, Setting()));
        && end == r.end && polls == r.polls
        && (end != Panic ==> Valid() && Now() == r.h && Setting() == old(Setting()))
    {
      hide EvalOk, Count, Around, NoneActive, Threads;
      var count := 0;
      polls := [];
      OverIs();
      while !quit && nactive > 0
        invariant count <= turns && Valid() && Setting() == old(Setting()) && (Over(Now()) <==> quit || nactive == 0)
        invariant Onto(polls, HostState.Drive(Now(), turns - count, rounds, Setting())) ==
          old(HostState.Drive(Now(), turns, rounds, Setting()))
        decreases turns - count
      {
        if count == turns { return CutOff, polls; }
        var last;
        ghost var polled;
        last, polled := GoAround(rounds);
        polls := polls + polled;
        if last.Some? { return last.value, polls; }
        OverIs();
        count := count + 1;
      }
      end := Finished;
    }

    lemma NoneLeft()
      requires Valid()
      ensures nactive == 0 <==> forall i :: 0 <= i < MAX_EVALS ==> Now().threads[i].None?
    {
      hide EvalOk, Count, Threads;
      CountZero(evals[..], MAX_EVALS);
      forall i | 0 <= i < MAX_EVALS ensures Now().threads[i].None? <==> !evals[..][i].active { PlaceIs(i); }
    }

    lemma FramesMatch(i: nat)
      requires Valid() && i < MAX_EVALS && evals[..][i].active
      ensures |ConfigAt(i).frames| == |evals[..][i].frames|
      ensures forall k :: 0 <= k < |evals[..][i].frames| ==> ConfigAt(i).frames[k].kind == evals[..][i].frames[k].kind
    {
      hide Count;
      ThreadIs(slots[..], evals[..], i);
    }

    lemma ThreadSame(i: nat)
      requires Valid() && i < MAX_EVALS && evals[..][i].active
      ensures Now() == Continue(Now(), i, Thread(ConfigAt(i), evals[..][i].waiting))
    {
      hide Count;
      ThreadIs(slots[..], evals[..], i);
      var h := Now();
      assert h.threads[i := h.threads[i]] == h.threads;
    }
  }

  /** A program: its first command, and the loop.  It is the run that the specification says, and keeps
      the books: see DriveHonest for what they hold. */
  method RunProgram(model: Value, update: Value, cmd: Value, w: World, sys: System, turns: nat, rounds: nat)
    returns (end: End, loop: HostLoop, ghost polls: seq<Host>)
    ensures fresh(loop) && fresh(loop.slots) && fresh(loop.evals)
    ensures var p := Program(update, w, sys); var r := Whole(model, cmd, turns, rounds, p);
      && end == r.end && polls == r.polls
      && (end != Panic ==> loop.Valid() && loop.Now() == r.h && Honest(loop.Now(), cmd, model, p))
  {
    hide Honest, PlaceAll, Empty;
    loop := new HostLoop(model, update, w, sys);
    StartEmpty(model);
    var ok := loop.SpawnFromCmd(cmd);
    if !ok { return Panic, loop, []; }
    BeginHonest(Start(model), cmd, model, Program(update, w, sys));
    DriveHonest(loop.Now(), turns, rounds, cmd, model, Program(update, w, sys));
    end, polls := loop.Drive(turns, rounds);
  }
}
