/** The drain as a run of steps: what each page walked leaves, and when it ends. */
module GcTrace {
  import opened GcWords
  import opened GcSpec
  import opened GcDraining
  import opened GcPlacing
  import opened GcTracing

  /** The copies, the frontier, and the page put off, or 0, with the word at which its walk stands. */
  datatype State = State(m: Made, freep: nat, page: nat, cp: nat, p: Progress)

  /** What scanned words point to has been copied. */
  ghost predicate AllSettled(w: Old, m: Made) {
    |m.scanned| == |m.copies| && forall k: nat, i: nat :: PassedSlot(w, m, k, i) ==>
      Settled(w, m.fwd, Cell(w, m.copies[k].src, i))
  }

  ghost predicate PassedSlot(w: Old, m: Made, k: nat, i: nat) {
    && k < |m.copies| && k < |m.scanned| && InMemory(w, m.copies[k].src) && i < Words(w, m.copies[k].src) - 1
    && i < m.scanned[k] && IsSlot(w, m.copies[k].src, i)
  }

  /** What holds between two steps. */
  ghost predicate Sound(w: Old, f0: nat, roots: set<nat>, s: State) {
    && FwdOk(w, s.m.fwd, s.m.copies) && RunsOk(s.m.copies, s.m.runs) && AllSettled(w, s.m) && Justified(w, roots, s.m)
    && w.first <= w.last && Orders(w, Srcs(s.m.copies)) && LaySeq(w, f0, Srcs(s.m.copies)).Some?
    && LaySeq(w, f0, Srcs(s.m.copies)).value.runs == s.m.runs
    && (s.m.runs != [] ==> s.freep == EndOf(s.m.copies, s.m.runs[|s.m.runs| - 1]))
    && Going(s.m, s.page, s.cp, s.p)
  }

  /** The next page of the queue is walked.  It is put off if the frontier is its first word and pages
      are waiting behind it; otherwise the page put off before stays. */
  ghost predicate PageStep(s: State, s': State) {
    var r := |s.p.stop|;
    && r < |s.m.runs| && Grown(s.m, s'.m) && |s'.p.stop| == r + 1 && s'.p.behind == s.p.behind
    && (s.freep != PAGE_WORDS * s.m.runs[r].page ==>
          s'.page == s.page && s'.cp == s.cp && s'.p.run == s.p.run && s'.p.at == s.p.at)
    && (s.freep == PAGE_WORDS * s.m.runs[r].page && s.page == 0 && r + 1 < |s.m.runs| ==>
          s'.m == s.m && s'.freep == s.freep && s'.page == s.m.runs[r].page && s'.cp == s.freep && s'.p.run == r)
  }

  /** The queue is empty and the page put off has not been caught up with: it is walked on. */
  ghost predicate TailStep(s: State, s': State) {
    && |s.p.stop| == |s.m.runs| && s.page != 0 && !Caught(s) && Grown(s.m, s'.m) && s'.page == 0
    && s.p.run < |s.p.stop| == |s'.p.stop| && s'.p.stop == s.p.stop[s.p.run := s'.p.stop[s.p.run]]
    && s'.p.behind == (s.p.behind || LateCopies(s.m, s'.m, s.p.stop))
  }

  /** The frontier is where the walk of the page put off stands. */
  predicate Caught(s: State) {
    s.freep / PAGE_WORDS == s.page && s.freep == s.cp
  }

  ghost predicate Ended(s: State) {
    |s.p.stop| == |s.m.runs| && (s.page == 0 || Caught(s))
  }

  ghost predicate Steps(w: Old, f0: nat, roots: set<nat>, ss: seq<State>) {
    && ss != [] && (forall i :: 0 <= i < |ss| ==> Sound(w, f0, roots, ss[i]))
    && forall i :: 0 <= i < |ss| - 1 ==> PageStep(ss[i], ss[i + 1]) || TailStep(ss[i], ss[i + 1])
  }

  function Last(ss: seq<State>): State
    requires ss != []
  {
    ss[|ss| - 1]
  }

  function Start(m: Made, freep: nat): State {
    State(m, freep, 0, 0, Progress([], 0, 0, false))
  }

  /** A drain from this state on, to its end. */
  ghost predicate Drained(w: Old, f0: nat, roots: set<nat>, m: Made, freep: nat, ss: seq<State>) {
    Steps(w, f0, roots, ss) && ss[0] == Start(m, freep) && Ended(Last(ss))
  }

  /** The steps so far, of which the last led to s. */
  ghost predicate Following(w: Old, f0: nat, roots: set<nat>, ss: seq<State>, s: State, m: Made, freep: nat) {
    Steps(w, f0, roots, ss) && Last(ss) == s && ss[0] == Start(m, freep)
  }

  lemma FollowStart(w: Old, f0: nat, roots: set<nat>, m: Made, freep: nat)
    requires Sound(w, f0, roots, Start(m, freep))
    ensures Following(w, f0, roots, [Start(m, freep)], Start(m, freep), m, freep)
  {
  }

  lemma Follow(w: Old, f0: nat, roots: set<nat>, ss: seq<State>, s: State, s': State, m: Made, freep: nat)
    requires Following(w, f0, roots, ss, s, m, freep) && Sound(w, f0, roots, s')
    requires PageStep(s, s') || TailStep(s, s')
    ensures Following(w, f0, roots, ss + [s'], s', m, freep)
  {
    hide Sound, PageStep, TailStep, Steps;
    StepsNotEmpty(w, f0, roots, ss);
    StepsPlus(w, f0, roots, ss, s');
  }

  lemma StepsNotEmpty(w: Old, f0: nat, roots: set<nat>, ss: seq<State>)
    requires Steps(w, f0, roots, ss)
    ensures ss != []
  {
  }

  lemma FollowEnd(w: Old, f0: nat, roots: set<nat>, ss: seq<State>, s: State, m: Made, freep: nat)
    requires Following(w, f0, roots, ss, s, m, freep) && Ended(s)
    ensures Drained(w, f0, roots, m, freep, ss) && ss != [] && Last(ss) == s
  {
    hide Steps;
    StepsNotEmpty(w, f0, roots, ss);
  }

  lemma StepsPlus(w: Old, f0: nat, roots: set<nat>, ss: seq<State>, s: State)
    requires Steps(w, f0, roots, ss) && Sound(w, f0, roots, s) && (PageStep(Last(ss), s) || TailStep(Last(ss), s))
    ensures Steps(w, f0, roots, ss + [s]) && Last(ss + [s]) == s && (ss + [s])[0] == ss[0]
  {
    hide Sound, PageStep, TailStep;
    var t := ss + [s];
    forall i | 0 <= i < |t| - 1 ensures PageStep(t[i], t[i + 1]) || TailStep(t[i], t[i + 1]) {
      if i == |ss| - 1 { assert t[i] == Last(ss); }
    }
  }

  /** A drain that has not ended takes a further step. */
  lemma NextStep(w: Old, f0: nat, roots: set<nat>, ss: seq<State>, i: nat)
    requires Steps(w, f0, roots, ss) && Ended(Last(ss)) && i < |ss| && !Ended(ss[i])
    requires |ss[i].p.stop| <= |ss[i].m.runs|
    ensures i + 1 < |ss| && Sound(w, f0, roots, ss[i]) && Sound(w, f0, roots, ss[i + 1])
    ensures |ss[i].p.stop| < |ss[i].m.runs| ==> PageStep(ss[i], ss[i + 1])
    ensures |ss[i].p.stop| == |ss[i].m.runs| ==> TailStep(ss[i], ss[i + 1])
  {
    hide Sound;
    assert i != |ss| - 1;
  }

  /** And one that has ended stops. */
  lemma NoStep(w: Old, f0: nat, roots: set<nat>, ss: seq<State>, i: nat)
    requires Steps(w, f0, roots, ss) && i < |ss| && Ended(ss[i])
    ensures ss[i] == Last(ss)
  {
    hide Sound;
    assert i < |ss| - 1 ==> PageStep(ss[i], ss[i + 1]) || TailStep(ss[i], ss[i + 1]);
  }

  lemma SettledNow(w: Old, mem: seq<nat>, m: Made)
    requires OldOk(w) && FwdOk(w, m.fwd, m.copies) && CopiesOk(w, mem, m)
    ensures AllSettled(w, m)
  {
    hide OldOk, FwdOk, IsSlot, InMemory, Settled, Image, Cell, Words;
    forall k: nat, i: nat | PassedSlot(w, m, k, i) ensures Settled(w, m.fwd, Cell(w, m.copies[k].src, i)) {
      assert CopyOk(w, mem, m.fwd, m.copies[k], m.scanned[k]);
      assert CellOk(w, mem, m.fwd, m.copies[k], m.scanned[k], i);
    }
  }
}
