/** The tables of the loop: evaluations in a fixed array, and every value they hold in an array of slots. */
module HostTables {
  import opened Wrappers
  import opened Tasks
  import opened HostState
  import opened HostRuns

  const BLOCK := MAX_FRAMES + 2
  const MAX_SLOTS := 2 + MAX_EVALS * BLOCK
  const MODEL_SLOT := 0
  const UPDATE_SLOT := 1

  /** The callback of a frame is in a slot. */
  datatype FrameSlot = FrameSlot(kind: Kind, slot: nat)

  datatype Eval = Eval(active: bool, base: nat, gen: nat, frames: seq<FrameSlot>, waiting: bool)

  function Base(i: nat): nat {
    2 + i * BLOCK
  }

  /** Slots of evaluation i: its task, its result, and its frames. */
  predicate InBlock(i: nat, s: nat) {
    Base(i) <= s < Base(i) + BLOCK
  }

  lemma BlocksApart(i: nat, j: nat, s: nat)
    requires InBlock(i, s) && InBlock(j, s)
    ensures i == j
  {
  }

  lemma BlockInside(i: nat)
    requires i < MAX_EVALS
    ensures 2 <= Base(i) && Base(i) + BLOCK <= MAX_SLOTS
  {
  }

  /** The frames of an evaluation are in its slots in order; slots that it does not use are nil, and so
      are all slots of a place without one. */
  ghost predicate EvalOk(e: Eval, i: nat, slots: seq<Value>) {
    && |slots| == MAX_SLOTS && i < MAX_EVALS && |e.frames| <= MAX_FRAMES
    && (forall k :: 0 <= k < |e.frames| ==> e.frames[k].slot == Base(i) + 2 + k)
    && (e.active ==> e.base == Base(i))
    && (!e.active ==> e.frames == [] && !e.waiting)
    && forall s: nat :: InBlock(i, s) && (s >= Base(i) + 2 + |e.frames| || !e.active) ==> slots[s] == Nil
  }

  ghost function FramesOf(e: Eval, i: nat, slots: seq<Value>): (fs: seq<Frame>)
    requires EvalOk(e, i, slots)
    ensures |fs| == |e.frames|
    ensures forall k :: 0 <= k < |fs| ==> fs[k] == Frame(e.frames[k].kind, slots[Base(i) + 2 + k])
  {
    seq(|e.frames|, k requires 0 <= k < |e.frames| => Frame(e.frames[k].kind, slots[Base(i) + 2 + k]))
  }

  ghost function ThreadOf(e: Eval, i: nat, slots: seq<Value>): Option<Thread>
    requires EvalOk(e, i, slots)
  {
    if e.active then Some(Thread(Config(slots[Base(i)], FramesOf(e, i, slots)), e.waiting)) else None
  }

  /** Only the slots of its block matter to an evaluation. */
  lemma ThreadFrame(e: Eval, i: nat, slots: seq<Value>, slots': seq<Value>)
    requires EvalOk(e, i, slots) && |slots'| == MAX_SLOTS && forall s: nat :: InBlock(i, s) ==> slots'[s] == slots[s]
    ensures EvalOk(e, i, slots') && ThreadOf(e, i, slots') == ThreadOf(e, i, slots)
  {
    BlockInside(i);
    assert FramesOf(e, i, slots) == FramesOf(e, i, slots') by {
      forall k | 0 <= k < |e.frames| ensures FramesOf(e, i, slots')[k] == FramesOf(e, i, slots)[k] {
        assert InBlock(i, Base(i) + 2 + k);
      }
    }
    assert InBlock(i, Base(i));
  }

  function Count(evals: seq<Eval>, n: nat): nat
    requires n <= |evals|
  {
    if n == 0 then 0 else Count(evals, n - 1) + if evals[n - 1].active then 1 else 0
  }

  lemma {:induction false} CountUpdate(evals: seq<Eval>, i: nat, e: Eval, n: nat)
    requires n <= |evals| && i < |evals|
    ensures Count(evals[i := e], n) ==
      Count(evals, n) + if i < n && e.active && !evals[i].active then 1 else if i < n && !e.active && evals[i].active
        then -1 else 0
  {
    if n > 0 { CountUpdate(evals, i, e, n - 1); }
  }

  lemma {:induction false} CountSome(evals: seq<Eval>, i: nat, n: nat)
    requires i < n <= |evals| && evals[i].active
    ensures Count(evals, n) > 0
  {
    if i < n - 1 { CountSome(evals, i, n - 1); }
  }

  lemma {:induction false} NoneCounted(evals: seq<Eval>, n: nat)
    requires n <= |evals| && forall i :: 0 <= i < n ==> !evals[i].active
    ensures Count(evals, n) == 0
  {
    if n > 0 { NoneCounted(evals, n - 1); }
  }

  lemma {:induction false} CountZero(evals: seq<Eval>, n: nat)
    requires n <= |evals|
    ensures Count(evals, n) == 0 <==> forall i :: 0 <= i < n ==> !evals[i].active
  {
    if n > 0 { CountZero(evals, n - 1); }
  }

  // ----- the tables as a whole -----

  ghost predicate AllOk(slots: seq<Value>, evals: seq<Eval>) {
    |slots| == MAX_SLOTS && |evals| == MAX_EVALS && forall i :: 0 <= i < MAX_EVALS ==> EvalOk(evals[i], i, slots)
  }

  ghost function Threads(slots: seq<Value>, evals: seq<Eval>): (ts: seq<Option<Thread>>)
    requires AllOk(slots, evals)
    ensures |ts| == MAX_EVALS && forall i :: 0 <= i < MAX_EVALS ==> ts[i] == ThreadOf(evals[i], i, slots)
  {
    seq(MAX_EVALS, i requires 0 <= i < MAX_EVALS => ThreadOf(evals[i], i, slots))
  }

  function Gens(evals: seq<Eval>): (gs: seq<nat>)
    ensures |gs| == |evals| && forall i :: 0 <= i < |evals| ==> gs[i] == evals[i].gen
  {
    seq(|evals|, i requires 0 <= i < |evals| => evals[i].gen)
  }

  /** Outside block i nothing changes. */
  ghost predicate Apart(slots: seq<Value>, slots': seq<Value>, i: nat) {
    |slots| == |slots'| == MAX_SLOTS && forall s: nat :: s < MAX_SLOTS && !InBlock(i, s) ==> slots'[s] == slots[s]
  }

  /** Place i gets another evaluation or state. */
  lemma PutThread(slots: seq<Value>, evals: seq<Eval>, slots': seq<Value>, i: nat, e: Eval)
    requires AllOk(slots, evals) && i < MAX_EVALS && Apart(slots, slots', i) && EvalOk(e, i, slots')
    ensures AllOk(slots', evals[i := e])
    ensures Threads(slots', evals[i := e]) == Threads(slots, evals)[i := ThreadOf(e, i, slots')]
    ensures Gens(evals[i := e]) == Gens(evals)[i := e.gen]
  {
    hide EvalOk, ThreadOf;
    forall j | 0 <= j < MAX_EVALS && j != i
      ensures EvalOk(evals[j], j, slots') && ThreadOf(evals[j], j, slots') == ThreadOf(evals[j], j, slots)
    {
      forall s: nat | InBlock(j, s) ensures slots'[s] == slots[s] {
        BlockInside(j);
        if InBlock(i, s) { BlocksApart(i, j, s); }
      }
      ThreadFrame(evals[j], j, slots, slots');
    }
  }

  /** A task without frames in a place that was free. */
  lemma NewThread(slots: seq<Value>, i: nat, e: Eval, task: Value, gen: nat)
    requires i < MAX_EVALS && EvalOk(e, i, slots) && !e.active
    ensures var e' := Eval(true, Base(i), gen, [], false); var slots' := slots[Base(i) := task];
      && Base(i) < |slots| && Apart(slots, slots', i) && EvalOk(e', i, slots')
      && ThreadOf(e', i, slots') == Some(Thread(Config(task, []), false))
  {
    BlockInside(i);
    var e' := Eval(true, Base(i), gen, [], false);
    assert FramesOf(e', i, slots[Base(i) := task]) == [];
  }

  /** One frame more. */
  lemma FramePushed(slots: seq<Value>, i: nat, e: Eval, kind: Kind, callback: Value)
    requires i < MAX_EVALS && EvalOk(e, i, slots) && e.active && |e.frames| < MAX_FRAMES
    ensures var s := Base(i) + 2 + |e.frames|;
      var e' := Eval(true, e.base, e.gen, e.frames + [FrameSlot(kind, s)], e.waiting);
      && s < |slots| && InBlock(i, s) && EvalOk(e', i, slots[s := callback])
      && FramesOf(e', i, slots[s := callback]) == FramesOf(e, i, slots) + [Frame(kind, callback)]
  {
    BlockInside(i);
  }

  /** The top frame is in the slot behind the others. */
  lemma FramePopped(slots: seq<Value>, i: nat, e: Eval)
    requires i < MAX_EVALS && EvalOk(e, i, slots) && e.active && e.frames != []
    ensures var n := |e.frames| - 1; var s := Base(i) + 2 + n;
      var e' := Eval(true, e.base, e.gen, e.frames[..n], e.waiting);
      && s < |slots| && InBlock(i, s) && e.frames[n].slot == s && EvalOk(e', i, slots[s := Nil])
      && FramesOf(e, i, slots) == FramesOf(e', i, slots[s := Nil]) + [Frame(e.frames[n].kind, slots[s])]
  {
    BlockInside(i);
  }

  /** Another task, or another result, for the same frames. */
  lemma TaskSet(slots: seq<Value>, i: nat, e: Eval, o: nat, v: Value)
    requires i < MAX_EVALS && EvalOk(e, i, slots) && e.active && o < 2
    ensures Base(i) + o < |slots| && InBlock(i, Base(i) + o) && EvalOk(e, i, slots[Base(i) + o := v])
    ensures FramesOf(e, i, slots[Base(i) + o := v]) == FramesOf(e, i, slots)
  {
    BlockInside(i);
  }

  lemma FirstFreeIs(threads: seq<Option<Thread>>, i: nat, k: nat)
    requires k <= i <= |threads| && (forall j :: k <= j < i ==> threads[j].Some?) &&
      (i < |threads| ==> threads[i].None?)
    ensures FirstFree(threads, k) == i
    decreases i - k
  {
  }

  lemma ModelApart(slots: seq<Value>, evals: seq<Eval>, model: Value)
    requires AllOk(slots, evals)
    ensures AllOk(slots[MODEL_SLOT := model], evals)
    ensures Threads(slots[MODEL_SLOT := model], evals) == Threads(slots, evals)
  {
    hide EvalOk, ThreadOf;
    forall j | 0 <= j < MAX_EVALS
      ensures EvalOk(evals[j], j, slots[MODEL_SLOT := model])
      ensures ThreadOf(evals[j], j, slots[MODEL_SLOT := model]) == ThreadOf(evals[j], j, slots)
    {
      ThreadFrame(evals[j], j, slots, slots[MODEL_SLOT := model]);
    }
  }

  lemma WaitingOk(slots: seq<Value>, i: nat, e: Eval, waiting: bool)
    requires EvalOk(e, i, slots) && e.active
    ensures var e' := Eval(e.active, e.base, e.gen, e.frames, waiting);
      EvalOk(e', i, slots) && FramesOf(e', i, slots) == FramesOf(e, i, slots)
  {
  }

  lemma ContinueTwice(h: Host, i: nat)
    requires Sized(h) && i < MAX_EVALS
    ensures forall t, u :: Continue(Continue(h, i, t), i, u) == Continue(h, i, u)
    ensures forall t, r :: Drop(Continue(h, i, t), i, r) == Drop(h, i, r)
  {
  }

  /** An evaluation that is over leaves no trace of its last state. */
  lemma GoneEither(h: Host, i: nat, t: Thread, r: Result, p: Program)
    requires Sized(h) && i < MAX_EVALS
    ensures r.Ok? ==> Deliver(Continue(h, i, t), i, r.value, p) == Deliver(h, i, r.value, p)
    ensures Drop(Continue(h, i, t), i, r) == Drop(h, i, r)
  {
    hide PlaceAll, NewModel, NewCommand;
    assert Continue(h, i, t).threads[i := None] == h.threads[i := None];
  }

  lemma FollowSame(h: Host, i: nat, t: Thread, o: Outcome, p: Program)
    requires Sized(h) && i < MAX_EVALS
    ensures Follow(Continue(h, i, t), i, o, p) == Follow(h, i, o, p)
  {
    hide Deliver;
    ContinueTwice(h, i);
    if o.Ended? { GoneEither(h, i, t, o.r, p); }
  }

  lemma CompleteUnwound(r: Result, frames: seq<Frame>, w: World)
    requires r.Ok? || r.Err?
    ensures var fs := Unwind(r, frames);
      && (fs == [] ==> Complete(r, frames, [], w) == Ended(r, []))
      && (fs != [] ==>
        Complete(r, frames, [], w) == Next(Config(w.apply(fs[|fs| - 1].callback, [Payload(r)]), fs[..|fs| - 1]), []))
  {
    hide Unwind;
  }

  lemma HearSame(h: Host, i: nat, t: Thread, r: Result, o: Outcome, p: Program)
    requires Sized(h) && i < MAX_EVALS
    ensures Follow(Hear(Continue(h, i, t), i, [r]), i, o, p) == Follow(Hear(h, i, [r]), i, o, p)
  {
    hide Follow;
    FollowSame(Hear(h, i, [r]), i, t, o, p);
    assert Hear(Continue(h, i, t), i, [r]) == Continue(Hear(h, i, [r]), i, t);
  }

  /** A leaf that starts: the round with its answer, or its wait. */
  lemma LeafRound(h: Host, i: nat, p: Program)
    requires Sized(h) && i < MAX_EVALS && h.threads[i].Some? && IsLeaf(h.threads[i].value.config)
    ensures var h1 := h.(starts := h.starts + 1); var c := h.threads[i].value.config; var r := p.sys.start(h.starts);
      Round(h, i, p) == if r.Some? then Follow(Hear(h1, i, [r.value]), i, Complete(r.value, c.frames, [], p.w), p)
                        else Some(Continue(h1, i, Thread(c, true)))
  {
    hide Complete, Deliver;
    HearNothing(h, i);
    var r := p.sys.start(h.starts);
    if r.Some? { assert [r.value][1..] == []; }
  }

  lemma QuitDrops(h: Host, i: nat)
    requires Sized(h) && i < MAX_EVALS
    ensures Drop(h.(quit := true), i, Quit) == Drop(h, i, Quit)
  {
  }

  lemma NoCommand(h: Host)
    requires Sized(h)
    ensures PlaceAll(h, Nil) == Some(h)
  {
  }

  /** Polls before. */
  function Onto(polls: seq<Host>, r: Run): Run {
    Run(r.h, polls + r.polls, r.end)
  }

  lemma {:induction false} NoCut(h: Host, events: seq<Event>, p: Program)
    requires Sized(h)
    ensures !CompleteAll(h, events, p).Cut?
    decreases events
  {
    hide Finish;
    if events != [] {
      var e := events[0];
      if e.place < MAX_EVALS && h.threads[e.place].Some? && h.threads[e.place].value.waiting {
        var r := Finish(h, e.place, Outcomes(e), p);
        if r.Some? { NoCut(r.value, events[1..], p); }
      } else {
        NoCut(h, events[1..], p);
      }
    }
  }

  lemma NotStepped(h: Host, i: nat, n: nat, p: Program)
    requires Sized(h) && i < MAX_EVALS && !Runnable(h, i)
    ensures RunEval(h, i, h.gens[i], n, p) == At(h)
  {
  }

  /** An active entry has its base, and its thread. */
  lemma EntryIs(e: Eval, i: nat, slots: seq<Value>)
    requires EvalOk(e, i, slots) && e.active
    ensures e.base == Base(i)
  {
  }

  lemma NoThread(slots: seq<Value>, i: nat, e: Eval)
    requires |slots| == MAX_SLOTS && i < MAX_EVALS && forall s: nat :: InBlock(i, s) ==>
      s < MAX_SLOTS && slots[s] == Nil
    requires !e.active && !e.waiting && |e.frames| == 0
    ensures EvalOk(e, i, slots) && ThreadOf(e, i, slots) == None
  {
  }

  lemma ThreadIs(slots: seq<Value>, evals: seq<Eval>, i: nat)
    requires AllOk(slots, evals) && i < MAX_EVALS && evals[i].active
    ensures EvalOk(evals[i], i, slots) && Base(i) < |slots|
    ensures Threads(slots, evals)[i] ==
      Some(Thread(Config(slots[Base(i)], FramesOf(evals[i], i, slots)), evals[i].waiting))
  {
    BlockInside(i);
  }

  lemma UnwindDone(r: Result, frames: seq<Frame>, kind: Kind)
    requires (r.Ok? || r.Err?) && kind == if r.Ok? then ANDTHEN else ONERROR
    requires frames == [] || frames[|frames| - 1].kind == kind
    ensures Unwind(r, frames) == frames
  {
  }

  lemma StartsOk(slots: seq<Value>, evals: seq<Eval>)
    requires |slots| == MAX_SLOTS && (forall s :: 2 <= s < MAX_SLOTS ==> slots[s] == Nil)
    requires |evals| == MAX_EVALS
    requires forall i :: 0 <= i < MAX_EVALS ==> !evals[i].active && |evals[i].frames| == 0 && !evals[i].waiting
    ensures AllOk(slots, evals) && Count(evals, MAX_EVALS) == 0
    ensures forall i :: 0 <= i < MAX_EVALS ==> Threads(slots, evals)[i].None?
  {
    forall i | 0 <= i < MAX_EVALS ensures EvalOk(evals[i], i, slots) { BlockInside(i); }
    NoneCounted(evals, MAX_EVALS);
  }

  lemma ActiveIs(slots: seq<Value>, evals: seq<Eval>)
    requires AllOk(slots, evals)
    ensures forall i :: 0 <= i < MAX_EVALS ==> (evals[i].active <==> Threads(slots, evals)[i].Some?)
  {
    hide EvalOk;
  }

  lemma AlreadyNil(slots: seq<Value>, slots': seq<Value>, e: Eval, i: nat)
    requires i < MAX_EVALS && EvalOk(e, i, slots) && !e.active && Apart(slots, slots', i)
    requires forall s: nat :: InBlock(i, s) ==> s < MAX_SLOTS && slots'[s] == Nil
    ensures slots' == slots
  {
    BlockInside(i);
    forall s: nat | s < MAX_SLOTS ensures slots'[s] == slots[s] {
      if InBlock(i, s) { assert slots[s] == Nil; }
    }
  }
}
