/** Two collections that lose a reachable object: one whose drain gets stuck, and one whose drain falls
    behind. */
module GcLostCopy {
  import opened Wrappers
  import opened GcWords
  import opened GcSpec
  import opened GcPages
  import opened GcLayout
  import opened GcScanning
  import opened GcDraining
  import opened GcPlacing
  import opened GcTracing
  import opened GcTrace
  import opened GcHeap
  import opened GcCollector
  import opened GcBegun
  import opened GcLostHeap

  const ROOTS: seq<Root> := [PtrRoot(BodyAddress(A)), PtrRoot(BodyAddress(L))]

  // ----- who can have been copied -----

  /** A copy of h has been scanned beyond its first word. */
  ghost predicate Begins(m: Made, h: nat) {
    exists k :: 0 <= k < |m.copies| && k < |m.scanned| && m.copies[k].src == h && m.scanned[k] >= 1
  }

  lemma RootTargets(v: nat)
    requires v in RootSet(ROOTS)
    ensures v == BodyAddress(A) || v == BodyAddress(L)
  {
  }

  lemma OnlyOne(w: Old, h: nat, t: Option<nat>, i: nat)
    requires Points(w, h, t) && i < Words(w, h) - 1 && IsSlot(w, h, i)
    ensures i >= 1 && (IsObject(w, Cell(w, h, i)) ==> t == Some(ObjectOf(Cell(w, h, i))))
  {
  }

  /** What object h points to. */
  function TargetAt(h: nat, linked: bool): Option<nat> {
    if h == A then Some(X) else if h == X then Some(Z) else if h == L && linked then Some(Y) else None
  }

  lemma PointsTo(w: Old, linked: bool, h: nat)
    requires Shape(w, linked) && h in w.objects
    ensures Points(w, h, TargetAt(h, linked))
  {
    hide Points, Sizes;
  }

  /** The object that a pointer in a copy leads to. */
  lemma CausedAt(w: Old, linked: bool, m: Made, h: nat, k: nat, i: nat)
    requires Shape(w, linked) && FwdOk(w, m.fwd, m.copies) && CausedBy(w, m, h, k, i)
    ensures k < |m.copies| && m.copies[k].src in w.objects && Begins(m, m.copies[k].src)
    ensures TargetAt(m.copies[k].src, linked) == Some(h)
  {
    hide Shape, Points, IsSlot, IsObject, Cell, InMemory, Words, TargetAt, FwdOk;
    SizeOf(w, m, k);
    PointsTo(w, linked, m.copies[k].src);
    OnlyOne(w, m.copies[k].src, TargetAt(m.copies[k].src, linked), i);
  }

  /** An object that is no root has been copied because of the one that points to it. */
  lemma CopiedFor(w: Old, linked: bool, m: Made, h: nat)
    requires Shape(w, linked) && Justified(w, RootSet(ROOTS), m) && FwdOk(w, m.fwd, m.copies) && h in m.fwd
    ensures h == A || h == L || exists g :: g in w.objects && TargetAt(g, linked) == Some(h) && Begins(m, g)
  {
    hide Shape, TargetAt, FwdOk, CausedBy, IsObject, RootSet, Begins;
    assert Caused(w, RootSet(ROOTS), m, h);
    if v :| v in RootSet(ROOTS) && IsObject(w, v) && ObjectOf(v) == h {
      RootTargets(v);
      AddressObject(A);
      AddressObject(L);
    } else {
      var k: nat, i: nat :| CausedBy(w, m, h, k, i);
      CausedAt(w, linked, m, h, k, i);
    }
  }

  lemma AddressObject(h: nat)
    ensures ObjectOf(BodyAddress(h)) == h
  {
  }

  /** A copy that has been scanned has what it points to copied. */
  lemma ScannedTarget(w: Old, linked: bool, m: Made, k: nat, t: nat)
    requires Shape(w, linked) && AllSettled(w, m) && FwdOk(w, m.fwd, m.copies) && k < |m.copies|
    requires TargetAt(m.copies[k].src, linked) == Some(t) && m.scanned[k] == m.copies[k].words - 1
    ensures t in m.fwd
  {
    hide Shape, IsSlot, IsObject, Cell, TargetAt;
    var h := m.copies[k].src;
    PointsTo(w, linked, h);
    var i: nat :| i < Words(w, h) - 1 && PointsAt(w, h, i, t);
    assert PassedSlot(w, m, k, i);
  }

  // ----- how far pages have been scanned -----

  lemma ExactOf(m: Made, page: nat, cp: nat, p: Progress)
    requires Going(m, page, cp, p)
    ensures Exact(m, p.stop) && |p.stop| <= |m.runs|
    ensures page != 0 ==> p.run < |p.stop| && p.stop[p.run] == p.at && BackAt(m, p.run, p.at, page, cp)
    ensures !p.behind ==> forall r :: 0 <= r < |p.stop| && r !in Open(page, p) ==> p.stop[r] == m.runs[r].end
    ensures p.behind ==> exists r :: 0 <= r < |p.stop| && r !in Open(page, p) && p.stop[r] < m.runs[r].end
  {
    hide Exact, BackAt, NoAbut;
    GoingParts(m, page, cp, p);
    ExactSizes(m, p.stop);
  }

  /** Of a run that has not been walked nothing has been scanned. */
  lemma NotWalked(m: Made, stop: seq<nat>, r: nat, k: nat)
    requires Exact(m, stop) && |stop| <= r < |m.runs| && m.runs[r].start <= k < m.runs[r].end && k < |m.copies|
    ensures m.scanned[k] == 0
  {
    assert RunAt(m, r, m.runs[r].start);
  }

  lemma WalkedTo(m: Made, stop: seq<nat>, r: nat, k: nat)
    requires Exact(m, stop) && r < |stop| && m.runs[r].start <= k < m.runs[r].end && k < |m.copies|
    ensures m.scanned[k] == if k < stop[r] then m.copies[k].words - 1 else 0
  {
    assert RunAt(m, r, stop[r]);
  }

  // ----- the copies of the order -----

  /** The sources are those of the objects copied, each once. */
  lemma SourcesAre(w: Old, m: Made, srcs: seq<nat>, rest: set<nat>)
    requires FwdOk(w, m.fwd, m.copies) && Orders(w, Srcs(m.copies)) && srcs <= Srcs(m.copies)
    requires forall h :: h in m.fwd ==> h in srcs || h in rest
    ensures |Srcs(m.copies)| <= |srcs| + |rest|
    ensures forall k :: |srcs| <= k < |m.copies| ==> Srcs(m.copies)[k] in rest
  {
    hide FwdOk;
    var all := Srcs(m.copies);
    forall k | |srcs| <= k < |all| ensures all[k] in rest {
      SourceOf(w, m, all[k]);
      NotInFront(w, all, |srcs|, k);
    }
    OrdersTail(w, all, |srcs|);
    OrdersSize(w, all[|srcs|..], rest);
  }

  lemma NotInFront(w: Old, all: seq<nat>, n: nat, k: nat)
    requires Orders(w, all) && n <= k < |all|
    ensures all[k] !in all[..n]
  {
  }

  lemma OrdersTail(w: Old, all: seq<nat>, n: nat)
    requires Orders(w, all) && n <= |all|
    ensures Orders(w, all[n..])
  {
  }

  // ----- the state after the roots -----

  lemma RootsInOrder(w: Old)
    requires Tables(w)
    ensures Targets(w, ROOTS) == [A, L]
  {
    AddressObject(A);
    AddressObject(L);
    assert ROOTS[..1] == [PtrRoot(BodyAddress(A))] && ROOTS[..0] == [];
    assert IsObject(w, BodyAddress(A)) && IsObject(w, BodyAddress(L));
    assert Targets(w, ROOTS[..0]) == [];
    TargetsPlus(w, ROOTS, 0);
    TargetsPlus(w, ROOTS, 1);
    assert ROOTS[..2] == ROOTS;
  }

  /** Where A and L have been copied to, and where the frontier is: the first word of A's page. */
  lemma TwoCopies(w: Old, m: Made)
    requires Tables(w) && Sizes(w) && FwdOk(w, m.fwd, m.copies) && RunsOk(m.copies, m.runs)
    requires Srcs(m.copies) == [A, L] && LaySeq(w, LAST, [A, L]).Some?
    requires LaySeq(w, LAST, [A, L]).value.runs == m.runs
    ensures m.runs == FIRST_TWO && |m.copies| == 2 && EndOf(m.copies, m.runs[1]) == PAGE_WORDS * LAST
    ensures m.copies[0].src == A && m.copies[1].src == L
  {
    hide LaySeq, FwdOk, Words;
    LayTwo(w);
    assert |m.copies| == |Srcs(m.copies)| == 2;
    assert m.copies[0].src == Srcs(m.copies)[0] && m.copies[1].src == Srcs(m.copies)[1];
    SizeOf(w, m, 1);
    assert RunOk(m.copies, m.runs[1]);
  }

  lemma SizeOf(w: Old, m: Made, k: nat)
    requires FwdOk(w, m.fwd, m.copies) && k < |m.copies|
    ensures m.copies[k].words == Words(w, m.copies[k].src) && m.copies[k].src in m.fwd && m.copies[k].src in w.objects
  {
    hide Words;
  }

  // ----- the first two pages -----

  /** A state of the drain, after the roots have copied A and L. */
  ghost predicate Later(w: Old, linked: bool, m0: Made, s: State) {
    && Shape(w, linked) && Sound(w, LAST, RootSet(ROOTS), s) && Grown(m0, s.m) && Srcs(m0.copies) == [A, L]
    && m0.runs == FIRST_TWO
  }

  lemma LaterSources(w: Old, linked: bool, m0: Made, s: State)
    requires Later(w, linked, m0, s)
    ensures FwdOk(w, s.m.fwd, s.m.copies) && RunsOk(s.m.copies, s.m.runs) && AllSettled(w, s.m)
    ensures Justified(w, RootSet(ROOTS), s.m) && Orders(w, Srcs(s.m.copies)) && [A, L] <= Srcs(s.m.copies)
    ensures Shape(w, linked) && Tables(w) && Sizes(w) && Going(s.m, s.page, s.cp, s.p)
    ensures LaySeq(w, LAST, Srcs(s.m.copies)).Some? && LaySeq(w, LAST, Srcs(s.m.copies)).value.runs == s.m.runs
    ensures s.m.runs != [] ==> s.freep == EndOf(s.m.copies, s.m.runs[|s.m.runs| - 1])
    ensures |s.m.runs| >= 2 && s.m.runs[0] == FIRST_TWO[0] && s.m.runs[1].page == HOLE && s.m.runs[1].start == 1
    ensures |s.m.copies| >= 2 && s.m.copies[0].src == A && s.m.copies[1].src == L
  {
    hide Points, Sizes, Tables, FwdOk, RunsOk, AllSettled, Justified, Orders, LaySeq, Going;
    SrcsPrefix(m0, s.m);
    assert Srcs(s.m.copies)[0] == A && Srcs(s.m.copies)[1] == L;
  }

  /** As long as the page of A is put off at its first word, A has not been scanned. */
  lemma ANotScanned(w: Old, linked: bool, m0: Made, s: State)
    requires Later(w, linked, m0, s) && s.page == LAST && s.cp == PAGE_WORDS * LAST && s.p.run == 0
    ensures |s.m.scanned| == |s.m.copies| > 0 && s.m.scanned[0] == 0
  {
    hide Later, FwdOk, Shape, Justified, Orders, LaySeq, Exact, AllSettled, RunsOk;
    LaterSources(w, linked, m0, s);
    ExactOf(s.m, s.page, s.cp, s.p);
    FirstWord(s.m, 0, s.p.at);
    RunIs(s.m.copies, s.m.runs, 0);
    ExactSizes(s.m, s.p.stop);
    WalkedTo(s.m, s.p.stop, 0, 0);
  }

  /** An object has one copy. */
  lemma OneCopy(w: Old, m: Made, j: nat, k: nat)
    requires Orders(w, Srcs(m.copies)) && j < |m.copies| && k < |m.copies| && m.copies[j].src == m.copies[k].src
    ensures j == k
  {
    var s := Srcs(m.copies);
    assert s[j] == s[k];
  }

  lemma NotBegun(w: Old, m: Made, k: nat)
    requires Orders(w, Srcs(m.copies)) && k < |m.copies| && k < |m.scanned| && m.scanned[k] == 0
    ensures !Begins(m, m.copies[k].src)
  {
    if Begins(m, m.copies[k].src) {
      var j :| 0 <= j < |m.copies| && j < |m.scanned| && m.copies[j].src == m.copies[k].src && m.scanned[j] >= 1;
      OneCopy(w, m, j, k);
    }
  }

  lemma NeverBegun(w: Old, m: Made, h: nat)
    requires FwdOk(w, m.fwd, m.copies) && h !in m.fwd
    ensures !Begins(m, h)
  {
    hide FwdOk;
    forall k | 0 <= k < |m.copies| ensures m.copies[k].src != h { SizeOf(w, m, k); }
  }

  /** While A has not been scanned, neither X nor Z is copied. */
  lemma NeitherYet(w: Old, linked: bool, m0: Made, s: State)
    requires Later(w, linked, m0, s) && |s.m.scanned| > 0 && s.m.scanned[0] == 0
    ensures X !in s.m.fwd && Z !in s.m.fwd && (!linked ==> Y !in s.m.fwd)
    ensures forall h :: h in s.m.fwd ==> h in [A, L] || (linked && h == Y)
  {
    hide Later, FwdOk, Shape, Justified, Orders, LaySeq, AllSettled, RunsOk, Going;
    LaterSources(w, linked, m0, s);
    NotBegun(w, s.m, 0);
    if X in s.m.fwd { CopiedFor(w, linked, s.m, X); }
    NeverBegun(w, s.m, X);
    if Z in s.m.fwd { CopiedFor(w, linked, s.m, Z); }
    if Y in s.m.fwd { CopiedFor(w, linked, s.m, Y); }
    forall h | h in s.m.fwd ensures h in [A, L] || (linked && h == Y) {
      SourceOf(w, s.m, h);
      var k :| 0 <= k < |Srcs(s.m.copies)| && Srcs(s.m.copies)[k] == h;
      SizeOf(w, s.m, k);
      ObjectsAre(w, linked);
    }
  }

  lemma ObjectsAre(w: Old, linked: bool)
    requires Shape(w, linked)
    ensures w.objects == ALL
  {
    hide Points, Sizes;
  }

  /** The first page is put off at once; the walk of the second leaves it put off. */
  lemma FirstSteps(w: Old, linked: bool, m0: Made, freep0: nat, ss: seq<State>)
    requires Shape(w, linked) && Begun(w, LAST, ROOTS, m0, freep0)
    requires Drained(w, LAST, RootSet(ROOTS), m0, freep0, ss)
    ensures |ss| >= 3 && Later(w, linked, m0, ss[2]) && |ss[2].p.stop| == 2 && !ss[2].p.behind
    ensures ss[2].page == LAST && ss[2].cp == PAGE_WORDS * LAST && ss[2].p.run == 0
  {
    hide Points, Sizes, Tables, Sound, PageStep, TailStep, LaySeq, FwdOk, RunsOk, Steps, Grown, Justified, EndOf;
    RootsNow(w, m0, freep0);
    DrainedParts(w, m0, freep0, ss);
    var roots := RootSet(ROOTS);
    assert |ss[0].p.stop| == 0 && |ss[0].m.runs| == 2;
    NextStep(w, LAST, roots, ss, 0);
    StepOff(ss[0], ss[1]);
    NextStep(w, LAST, roots, ss, 1);
    StepPast(ss[1], ss[2]);
  }

  lemma DrainedParts(w: Old, m0: Made, freep0: nat, ss: seq<State>)
    requires Drained(w, LAST, RootSet(ROOTS), m0, freep0, ss)
    ensures ss != [] && ss[0] == Start(m0, freep0) && Ended(Last(ss)) && Steps(w, LAST, RootSet(ROOTS), ss)
  {
    hide Sound, PageStep, TailStep;
  }

  lemma RootsNow(w: Old, m0: Made, freep0: nat)
    requires Tables(w) && Sizes(w) && Begun(w, LAST, ROOTS, m0, freep0)
    ensures m0.runs == FIRST_TWO && Srcs(m0.copies) == [A, L] && freep0 == PAGE_WORDS * LAST
  {
    hide LaySeq, FwdOk, RunsOk, Tables, Sizes;
    RootsInOrder(w);
    TwoCopies(w, m0);
  }

  lemma StepOff(s: State, s': State)
    requires PageStep(s, s') && s.p.stop == [] && |s.m.runs| == 2 && s.page == 0
    requires s.freep == PAGE_WORDS * s.m.runs[0].page
    ensures s'.m == s.m && s'.freep == s.freep && s'.page == s.m.runs[0].page && s'.cp == s.freep && s'.p.run == 0
    ensures |s'.p.stop| == 1 && s'.p.behind == s.p.behind
  {
  }

  lemma StepPast(s: State, s': State)
    requires PageStep(s, s') && |s.p.stop| < |s.m.runs| && s.freep != PAGE_WORDS * s.m.runs[|s.p.stop|].page
    ensures s'.page == s.page && s'.cp == s.cp && s'.p.run == s.p.run && |s'.p.stop| == |s.p.stop| + 1
    ensures s'.p.behind == s.p.behind && Grown(s.m, s'.m)
  {
  }

  // ----- the drain that gets stuck -----

  /** L without pointers: the drain ends with the page of A put off, and X has not been copied. */
  lemma GetsStuck(w: Old, m0: Made, freep0: nat, ss: seq<State>)
    requires Shape(w, false) && Begun(w, LAST, ROOTS, m0, freep0)
    requires Drained(w, LAST, RootSet(ROOTS), m0, freep0, ss)
    ensures var m := Last(ss).m; Last(ss).page != 0 && A in m.fwd && X !in m.fwd && m.scanned[0] == 0
    ensures var m := Last(ss).m; |m.copies| == |m.scanned| == 2 && m.copies[0].src == A
  {
    hide Shape, Begun, Sound, Steps, Justified, LaySeq, FwdOk, RunsOk, Orders, Later, AllSettled, Going, EndOf;
    FirstSteps(w, false, m0, freep0, ss);
    var s := ss[2];
    LaterSources(w, false, m0, s);
    ANotScanned(w, false, m0, s);
    NeitherYet(w, false, m0, s);
    SourcesAre(w, s.m, [A, L], {});
    assert Srcs(s.m.copies) == [A, L];
    TwoCopies(w, s.m);
    NoStep(w, LAST, RootSet(ROOTS), ss, 2);
    SizeOf(w, s.m, 0);
  }

  // ----- the drain that falls behind -----

  lemma ThreeCopies(w: Old, m: Made, freep: nat)
    requires Tables(w) && Sizes(w) && FwdOk(w, m.fwd, m.copies) && RunsOk(m.copies, m.runs)
    requires Srcs(m.copies) == [A, L, Y] && LaySeq(w, LAST, [A, L, Y]).Some?
    requires LaySeq(w, LAST, [A, L, Y]).value.runs == m.runs && freep == EndOf(m.copies, m.runs[|m.runs| - 1])
    requires m.runs != []
    ensures m.runs == FIRST_TWO + [Run(SINGLE, 1, 2, 3)] && freep == PAGE_WORDS * SINGLE + 2
  {
    hide LaySeq, FwdOk, Words;
    LayThree(w);
    assert |m.copies| == |Srcs(m.copies)| == 3;
    assert m.copies[2].src == Srcs(m.copies)[2];
    SizeOf(w, m, 2);
    assert RunOk(m.copies, m.runs[2]);
  }

  /** While A has not been scanned and Y is copied. */
  lemma ThreeNow(w: Old, m0: Made, s: State)
    requires Later(w, true, m0, s) && s.page == LAST && s.cp == PAGE_WORDS * LAST && s.p.run == 0 && Y in s.m.fwd
    ensures Srcs(s.m.copies) == [A, L, Y] && s.freep == PAGE_WORDS * SINGLE + 2
    ensures s.m.runs == FIRST_TWO + [Run(SINGLE, 1, 2, 3)]
  {
    hide Shape, Justified, LaySeq, FwdOk, RunsOk, Orders, Later, AllSettled, Going, EndOf, Tables, Sizes;
    LaterSources(w, true, m0, s);
    ANotScanned(w, true, m0, s);
    NeitherYet(w, true, m0, s);
    SourcesAre(w, s.m, [A, L], {Y});
    SourceOf(w, s.m, Y);
    var all := Srcs(s.m.copies);
    assert |all| == 3 && all[2] == Y by {
      var k :| 0 <= k < |all| && all[k] == Y;
    }
    assert all == [A, L, Y];
    ThreeCopies(w, s.m, s.freep);
  }

  /** The walk of the page of L has copied Y. */
  lemma YCopied(w: Old, m0: Made, s: State)
    requires Later(w, true, m0, s) && |s.p.stop| >= 2 && s.page == LAST && s.p.run == 0 && !s.p.behind
    ensures Y in s.m.fwd
  {
    hide Shape, Justified, LaySeq, FwdOk, RunsOk, Orders, Later, AllSettled, Tables, Sizes, Exact;
    LaterSources(w, true, m0, s);
    ExactOf(s.m, s.page, s.cp, s.p);
    RunIs(s.m.copies, s.m.runs, 1);
    assert RunOk(s.m.copies, s.m.runs[1]);
    WalkedTo(s.m, s.p.stop, 1, 1);
    ScannedTarget(w, true, s.m, 1, Y);
  }

  /** The page of A is walked on when all others have been walked: X is copied, and not scanned. */
  lemma TailWalk(w: Old, m0: Made, s: State, s': State)
    requires Later(w, true, m0, s) && Later(w, true, m0, s') && TailStep(s, s')
    requires Srcs(s.m.copies) == [A, L, Y] && s.m.runs == FIRST_TWO + [Run(SINGLE, 1, 2, 3)] && !s.p.behind
    requires |s.p.stop| == 3 && s.p.run == 0 && s.p.stop[2] == 3
    ensures s'.p.behind && Srcs(s'.m.copies) == [A, L, Y, X] && |s'.m.runs| == 3
    ensures |s'.m.scanned| == 4 && s'.m.scanned[3] == 0 && Z !in s'.m.fwd
  {
    hide Shape, Justified, LaySeq, FwdOk, RunsOk, Orders, Later, AllSettled, Tables, Sizes, Exact, Grown, Going;
    LaterSources(w, true, m0, s');
    SrcsPrefix(s.m, s'.m);
    ExactOf(s'.m, s'.page, s'.cp, s'.p);
    ExactSizes(s'.m, s'.p.stop);
    assert s'.p.stop[2] == 3;
    NotYetZ(w, m0, s');
    SourcesAre(w, s'.m, [A, L, Y], {X});
    var all := Srcs(s'.m.copies);
    if |all| == 3 {
      assert all == [A, L, Y];
      LayThree(w);
      NotLateCopies(s, s');
      ADone(w, m0, s');
      SourceOf(w, s'.m, X);
      assert false;
    }
    assert all == [A, L, Y, X];
    LayFour(w, X);
    assert s'.m.runs[2].end == 4;
    WalkedTo(s'.m, s'.p.stop, 2, 3);
  }

  lemma NotLateCopies(s: State, s': State)
    requires TailStep(s, s') && !s.p.behind && |s.m.runs| == 3 && |s'.m.runs| == 3
    requires s'.m.runs[2].end == s.m.runs[2].end
    ensures !s'.p.behind
  {
  }

  /** Nothing was copied too late, so A has been scanned. */
  lemma ADone(w: Old, m0: Made, s: State)
    requires Later(w, true, m0, s) && s.page == 0 && !s.p.behind && |s.p.stop| >= 1
    ensures X in s.m.fwd
  {
    hide Shape, Justified, LaySeq, FwdOk, RunsOk, Orders, Later, AllSettled, Tables, Sizes, Exact;
    LaterSources(w, true, m0, s);
    ExactOf(s.m, s.page, s.cp, s.p);
    ExactSizes(s.m, s.p.stop);
    WalkedTo(s.m, s.p.stop, 0, 0);
    ScannedTarget(w, true, s.m, 0, X);
  }

  /** X would have to be scanned before Z is copied; it lies behind the third copy, where nothing is. */
  lemma NotYetZ(w: Old, m0: Made, s: State)
    requires Later(w, true, m0, s) && |s.p.stop| == 3 && s.p.stop[2] == 3 && Exact(s.m, s.p.stop)
    requires [A, L, Y] <= Srcs(s.m.copies)
    ensures Z !in s.m.fwd && forall h :: h in s.m.fwd ==> h in [A, L, Y] || h == X
  {
    hide Shape, Justified, LaySeq, FwdOk, RunsOk, Orders, AllSettled, Tables, Sizes, Going, Later, Exact;
    LaterSources(w, true, m0, s);
    ExactSizes(s.m, s.p.stop);
    var all := Srcs(s.m.copies);
    if Z in s.m.fwd {
      CopiedFor(w, true, s.m, Z);
      var k :| 0 <= k < |s.m.copies| && k < |s.m.scanned| && s.m.copies[k].src == X && s.m.scanned[k] >= 1;
      assert all[k] == X && all[0] == A && all[1] == L && all[2] == Y;
      BehindThree(w, m0, s, k);
      assert false;
    }
    forall h | h in s.m.fwd ensures h in [A, L, Y] || h == X {
      SourceOf(w, s.m, h);
      var k :| 0 <= k < |all| && all[k] == h;
      SizeOf(w, s.m, k);
      ObjectsAre(w, true);
    }
  }

  lemma BehindThree(w: Old, m0: Made, s: State, k: nat)
    requires Later(w, true, m0, s) && |s.p.stop| == 3 && s.p.stop[2] == 3 && Exact(s.m, s.p.stop)
    requires 3 <= k < |s.m.copies|
    ensures k < |s.m.scanned| && s.m.scanned[k] == 0
  {
    hide Shape, Justified, LaySeq, FwdOk, Orders, AllSettled, Tables, Sizes, Going, Later, RunAt;
    LaterSources(w, true, m0, s);
    ExactSizes(s.m, s.p.stop);
    var r := CopyOnPages(s.m.copies, s.m.runs, k);
    ExactAt(s.m, s.p.stop, r);
    if r < 2 { RunsBefore(s.m.copies, s.m.runs, r, 2); }
    if r > 2 { NotWalked(s.m, s.p.stop, r, k); } else { WalkedTo(s.m, s.p.stop, r, k); }
  }

  /** L with a pointer to Y: the drain ends, X has been copied and not scanned, and Z has not been copied. */
  lemma FallsBehind(w: Old, m0: Made, freep0: nat, ss: seq<State>)
    requires Shape(w, true) && Begun(w, LAST, ROOTS, m0, freep0)
    requires Drained(w, LAST, RootSet(ROOTS), m0, freep0, ss)
    ensures var m := Last(ss).m; Last(ss).page == 0 && Last(ss).p.behind && X in m.fwd && Z !in m.fwd
    ensures var m := Last(ss).m; |m.copies| == |m.scanned| == 4 && m.copies[3].src == X && m.scanned[3] == 0
  {
    hide Shape, Begun, Sound, Steps, Justified, LaySeq, FwdOk, RunsOk, Orders, Later, AllSettled, Going, EndOf, Grown,
      PageStep, TailStep;
    var roots := RootSet(ROOTS);
    FirstSteps(w, true, m0, freep0, ss);
    YCopied(w, m0, ss[2]);
    ThreeNow(w, m0, ss[2]);
    NextStep(w, LAST, roots, ss, 2);
    StepPast(ss[2], ss[3]);
    StillLater(w, m0, ss[2], ss[3]);
    YCopied(w, m0, ss[3]);
    ThreeNow(w, m0, ss[3]);
    NextStep(w, LAST, roots, ss, 3);
    TailGrown(ss[3], ss[4]);
    StillLater(w, m0, ss[3], ss[4]);
    ThirdWalked(w, m0, ss[3]);
    TailWalk(w, m0, ss[3], ss[4]);
    TailOver(ss[3], ss[4]);
    NoStep(w, LAST, roots, ss, 4);
    LaterSources(w, true, m0, ss[4]);
    SizeOf(w, ss[4].m, 3);
    assert Srcs(ss[4].m.copies)[3] == X;
  }

  lemma StillLater(w: Old, m0: Made, s: State, s': State)
    requires Later(w, true, m0, s) && Sound(w, LAST, RootSet(ROOTS), s') && Grown(s.m, s'.m)
    ensures Later(w, true, m0, s')
  {
    hide Shape, Sound, Grown;
    GrownThen(m0, s.m, s'.m);
  }

  lemma TailGrown(s: State, s': State)
    requires TailStep(s, s')
    ensures Grown(s.m, s'.m)
  {
  }

  lemma TailOver(s: State, s': State)
    requires TailStep(s, s') && |s'.m.runs| == 3 && |s.p.stop| == 3
    ensures Ended(s') && s'.page == 0
  {
  }

  /** The page of Y has been walked to its end. */
  lemma ThirdWalked(w: Old, m0: Made, s: State)
    requires Later(w, true, m0, s) && |s.p.stop| == 3 && s.page == LAST && s.p.run == 0 && !s.p.behind
    requires s.m.runs == FIRST_TWO + [Run(SINGLE, 1, 2, 3)]
    ensures s.p.stop[2] == 3
  {
    hide Shape, Justified, LaySeq, FwdOk, RunsOk, Orders, Later, AllSettled, Exact;
    LaterSources(w, true, m0, s);
    ExactOf(s.m, s.page, s.cp, s.p);
  }
}
