/** The drain's account of the pages: how far each page that has left the queue was walked, and
    when every copy has been scanned. */
module GcDraining {
  import opened GcWords
  import opened GcSpec
  import opened GcLayout
  import opened GcScanning

  // ----- a page put off -----

  ghost predicate BackAt(m: Made, r: nat, j: nat, page: nat, cp: nat) {
    At(m, r, j, cp) && m.runs[r].page == page && cp / PAGE_WORDS == page
  }

  lemma BackParts(m: Made, r: nat, j: nat, page: nat, cp: nat)
    requires BackAt(m, r, j, page, cp)
    ensures At(m, r, j, cp) && r < |m.runs| && m.runs[r].page == page && cp / PAGE_WORDS == page
  {
  }

  lemma BackIs(m: Made, r: nat, j: nat, page: nat, cp: nat)
    requires At(m, r, j, cp) && m.runs[r].page == page
    ensures cp / PAGE_WORDS == page ==> BackAt(m, r, j, page, cp)
  {
  }

  lemma BackGrown(m: Made, m': Made, r: nat, j: nat, page: nat, cp: nat)
    requires BackAt(m, r, j, page, cp) && Grown(m, m') && RunsOk(m.copies, m.runs) && RunsOk(m'.copies, m'.runs)
    ensures BackAt(m', r, j, page, cp)
  {
    AtGrown(m, m', r, j, cp);
  }

  lemma StillAbuts(m: Made, m': Made)
    requires Grown(m, m')
    ensures !NoAbut(m.runs) ==> !NoAbut(m'.runs)
  {
    if NoAbut(m'.runs) { NoAbutBefore(m, m'); }
  }

  /** What earlier states knew after more copies have been made. */
  lemma GrownOn(m0: Made, m1: Made, m2: Made, m: Made)
    requires Grown(m0, m2) && Grown(m1, m2) && Grown(m2, m) && RunsOk(m2.copies, m2.runs) && RunsOk(m.copies, m.runs)
    ensures Grown(m0, m) && Grown(m1, m)
    ensures |m2.copies| <= |m.copies| && |m2.runs| <= |m.runs| && (|m.copies| == |m2.copies| ==> |m.runs| == |m2.runs|)
  {
    hide Grown, RunsOk;
    GrownThen(m0, m2, m);
    GrownThen(m1, m2, m);
    NewRunsNewCopies(m2, m);
  }

  // ----- how far pages were walked -----

  lemma {:induction false} RunsBefore(copies: seq<Copy>, runs: seq<Run>, r: nat, q: nat)
    requires RunsOk(copies, runs) && r < q < |runs|
    ensures runs[r].end <= runs[q].start
  {
    assert StartOk(runs, q);
    if r + 1 < q {
      RunsBefore(copies, runs, r, q - 1);
      assert RunOk(copies, runs[q - 1]);
    }
  }

  /** Exactly the copies of run r before copy j are scanned. */
  ghost predicate RunAt(m: Made, r: nat, j: nat) {
    r < |m.runs| && |m.scanned| == |m.copies| &&
    forall k :: m.runs[r].start <= k < m.runs[r].end && k < |m.copies| ==>
      m.scanned[k] == if k < j then m.copies[k].words - 1 else 0
  }

  /** The first runs have been walked up to these copies, the others not at all. */
  ghost predicate Exact(m: Made, stop: seq<nat>) {
    && |m.scanned| == |m.copies| && |stop| <= |m.runs|
    && (forall r :: 0 <= r < |stop| ==> m.runs[r].start <= stop[r] <= m.runs[r].end && RunAt(m, r, stop[r]))
    && (forall r :: |stop| <= r < |m.runs| ==> RunAt(m, r, m.runs[r].start))
  }

  lemma RunAtStays(m: Made, m': Made, r: nat, j: nat, i0: nat, j0: nat)
    requires RunAt(m, r, j) && Grown(m, m') && RunsOk(m.copies, m.runs) && Untouched(m, m', i0, j0) &&
      j <= m.runs[r].end
    requires j0 <= m.runs[r].start || m'.runs[r].end <= i0
    ensures RunAt(m', r, j)
  {
    RunsEnd(m.copies, m.runs, r);
    forall k | m'.runs[r].start <= k < m'.runs[r].end && k < |m'.copies|
      ensures m'.scanned[k] == if k < j then m'.copies[k].words - 1 else 0 {
      if k < |m.copies| { CopyStays(m, m', k); }
      if k >= m.runs[r].end { LastOnly(m, m', r, k); }
    }
  }

  /** Only the last run grows, by new copies. */
  lemma LastOnly(m: Made, m': Made, r: nat, k: nat)
    requires Grown(m, m') && RunsOk(m.copies, m.runs) && r < |m.runs| && m.runs[r].end <= k < m'.runs[r].end
    ensures r + 1 == |m.runs| && k >= |m.copies|
  {
  }

  lemma RunAtWalked(m: Made, m': Made, r: nat, i: nat, j: nat)
    requires RunAt(m, r, i) && Grown(m, m') && RunsOk(m.copies, m.runs) && Untouched(m, m', i, j) && Passed(m', i, j)
    requires m.runs[r].start <= i <= m.runs[r].end && i <= j
    ensures RunAt(m', r, j)
  {
    RunsEnd(m.copies, m.runs, r);
    forall k | m'.runs[r].start <= k < m'.runs[r].end && k < |m'.copies|
      ensures m'.scanned[k] == if k < j then m'.copies[k].words - 1 else 0 {
      if k < |m.copies| { CopyStays(m, m', k); }
      if k >= m.runs[r].end { LastOnly(m, m', r, k); }
    }
  }

  lemma NewRunAt(m: Made, m': Made, r: nat, i0: nat, j0: nat)
    requires Grown(m, m') && RunsOk(m.copies, m.runs) && RunsOk(m'.copies, m'.runs) && Untouched(m, m', i0, j0) &&
      |m'.scanned| == |m'.copies|
    requires |m.scanned| == |m.copies| && |m.runs| <= r < |m'.runs| && j0 <= m'.runs[r].start
    ensures RunAt(m', r, m'.runs[r].start)
  {
    if m.runs != [] {
      RunsBefore(m'.copies, m'.runs, |m.runs| - 1, r);
      RunsEnd(m.copies, m.runs, |m.runs| - 1);
    }
    AllInRuns(m, m', r);
  }

  lemma AllInRuns(m: Made, m': Made, r: nat)
    requires Grown(m, m') && RunsOk(m.copies, m.runs) && |m.runs| <= r < |m'.runs|
    requires m.runs == [] || m'.runs[|m.runs| - 1].end <= m'.runs[r].start
    ensures |m.copies| <= m'.runs[r].start
  {
  }

  /** Where run r stands. */
  function Standing(m: Made, stop: seq<nat>, r: nat): nat
    requires r < |m.runs|
  {
    if r < |stop| then stop[r] else m.runs[r].start
  }

  lemma ExactAt(m: Made, stop: seq<nat>, r: nat)
    requires Exact(m, stop) && r < |m.runs| && RunsOk(m.copies, m.runs)
    ensures RunAt(m, r, Standing(m, stop, r)) && m.runs[r].start <= Standing(m, stop, r) <= m.runs[r].end
  {
    assert RunOk(m.copies, m.runs[r]);
  }

  /** Run r has been walked on from copy i to copy j. */
  ghost predicate WalkedOn(m: Made, m': Made, r: nat, i: nat, j: nat) {
    && Grown(m, m') && RunsOk(m.copies, m.runs) && RunsOk(m'.copies, m'.runs) && Untouched(m, m', i, j) &&
      Passed(m', i, j)
    && r < |m.runs| && m.runs[r].start <= i <= m.runs[r].end && i <= j <= m'.runs[r].end
  }

  lemma OtherRunAt(m: Made, m': Made, stop: seq<nat>, r: nat, i: nat, j: nat, q: nat)
    requires WalkedOn(m, m', r, i, j) && Exact(m, stop) && q != r && q < |m'.runs|
    ensures q < |m.runs| ==>
      RunAt(m', q, Standing(m, stop, q)) && m'.runs[q].start <= Standing(m, stop, q) <= m'.runs[q].end
    ensures q >= |m.runs| ==> RunAt(m', q, m'.runs[q].start)
  {
    hide RunAt, Exact;
    RunIs(m.copies, m.runs, r);
    if q < r { RunsBefore(m'.copies, m'.runs, q, r); } else { RunsBefore(m'.copies, m'.runs, r, q); }
    if q < |m.runs| {
      ExactAt(m, stop, q);
      RunAtStays(m, m', q, Standing(m, stop, q), i, j);
    } else {
      ExactSizes(m, stop);
      NewRunAt(m, m', q, i, j);
    }
  }

  lemma ExactSizes(m: Made, stop: seq<nat>)
    requires Exact(m, stop)
    ensures |m.scanned| == |m.copies| && |stop| <= |m.runs|
  {
  }

  lemma WalkExact(m: Made, m': Made, stop: seq<nat>, r: nat, j: nat)
    requires Exact(m, stop) && r <= |stop| && r < |m.runs| && WalkedOn(m, m', r, Standing(m, stop, r), j)
    ensures Exact(m', if r < |stop| then stop[r := j] else stop + [j])
  {
    hide RunAt, RunsOk, Untouched;
    var i := Standing(m, stop, r);
    var stop' := if r < |stop| then stop[r := j] else stop + [j];
    ExactAt(m, stop, r);
    RunAtWalked(m, m', r, i, j);
    forall q | 0 <= q < |stop'| ensures m'.runs[q].start <= stop'[q] <= m'.runs[q].end && RunAt(m', q, stop'[q]) {
      if q != r { OtherRunAt(m, m', stop, r, i, j, q); }
    }
    forall q | |stop'| <= q < |m'.runs| ensures RunAt(m', q, m'.runs[q].start) {
      OtherRunAt(m, m', stop, r, i, j, q);
    }
  }

  // ----- pages that are not walked to their end -----

  /** Of the pages walked, those of the runs `open` are to be walked on; `behind` says that another
      one got copies after its walk had ended.  Neither happens when pages are taken upwards. */
  ghost predicate Account(m: Made, stop: seq<nat>, open: set<nat>, behind: bool) {
    && Exact(m, stop)
    && (forall r :: r in open ==> r < |stop| && r + 1 < |m.runs| && stop[r] < m.runs[r].end)
    && (!behind ==> forall r :: 0 <= r < |stop| && r !in open ==> stop[r] == m.runs[r].end)
    && (behind ==> exists r :: 0 <= r < |stop| && r !in open && stop[r] < m.runs[r].end)
    && (open != {} || behind ==> !NoAbut(m.runs))
  }

  lemma AccountStart(m: Made)
    requires |m.scanned| == |m.copies| && forall k :: 0 <= k < |m.scanned| ==> m.scanned[k] == 0
    ensures Account(m, [], {}, false)
  {
  }

  /** The page at the head of the queue has been walked, to its end unless it is put off. */
  lemma AccountNext(m: Made, m': Made, stop: seq<nat>, open: set<nat>, behind: bool, j: nat)
    requires Account(m, stop, open, behind) && |stop| < |m.runs| && WalkedOn(m, m', |stop|, m.runs[|stop|].start, j)
    requires j < m'.runs[|stop|].end ==> |stop| + 1 < |m'.runs| && !NoAbut(m'.runs)
    ensures Account(m', stop + [j], if j < m'.runs[|stop|].end then open + {|stop|} else open, behind)
  {
    hide RunAt, RunsOk, Untouched, Exact, NoAbut;
    ExactSizes(m, stop);
    WalkExact(m, m', stop, |stop|, j);
    StillAbuts(m, m');
    if behind {
      var r :| 0 <= r < |stop| && r !in open && stop[r] < m.runs[r].end;
      assert r < |stop + [j]| && (stop + [j])[r] < m'.runs[r].end;
    }
  }

  /** All pages had been walked, and the last of them has got new copies. */
  ghost predicate LateCopies(m: Made, m': Made, stop: seq<nat>) {
    0 < |stop| == |m.runs| <= |m'.runs| && m'.runs[|stop| - 1].end > m.runs[|stop| - 1].end
  }

  lemma NotLate(m: Made, m': Made, stop: seq<nat>)
    requires |stop| < |m.runs|
    ensures !LateCopies(m, m', stop)
  {
  }

  /** A page put off has been walked to its end; if all others had been walked, the last of them may
      have got new copies. */
  lemma AccountBack(m: Made, m': Made, stop: seq<nat>, open: set<nat>, behind: bool, r: nat, j: nat)
    requires Account(m, stop, open, behind) && r in open && WalkedOn(m, m', r, stop[r], j) && j == m'.runs[r].end
    ensures Account(m', stop[r := j], open - {r},
                    behind || LateCopies(m, m', stop))
  {
    hide RunAt, RunsOk, Untouched, Exact, NoAbut;
    ExactSizes(m, stop);
    WalkExact(m, m', stop, r, j);
    StillAbuts(m, m');
    var stop' := stop[r := j];
    if behind {
      var q :| 0 <= q < |stop| && q !in open && stop[q] < m.runs[q].end;
      assert stop'[q] < m'.runs[q].end && q !in open - {r};
    } else if LateCopies(m, m', stop) {
      ExactPart(m, stop, |stop| - 1);
      assert stop'[|stop| - 1] < m'.runs[|stop| - 1].end && |stop| - 1 !in open;
    }
  }

  lemma ExactPart(m: Made, stop: seq<nat>, r: nat)
    requires Exact(m, stop) && r < |stop|
    ensures r < |m.runs| && stop[r] <= m.runs[r].end
  {
  }

  /** When the queue is empty, all copies are scanned exactly if no page is to be walked on and none
      got copies too late. */
  lemma AccountEnd(m: Made, stop: seq<nat>, open: set<nat>, behind: bool)
    requires Account(m, stop, open, behind) && |stop| == |m.runs| && RunsOk(m.copies, m.runs)
    ensures AllDone(m) <==> open == {} && !behind
  {
    hide RunAt, RunsOk, Exact, AllDone, NoAbut;
    if open == {} && !behind {
      WalkedAll(m, stop);
    } else if behind {
      var r :| 0 <= r < |stop| && r !in open && stop[r] < m.runs[r].end;
      NotWalkedAll(m, stop, r);
    } else {
      var r :| r in open;
      NotWalkedAll(m, stop, r);
    }
  }

  lemma WalkedAll(m: Made, stop: seq<nat>)
    requires Exact(m, stop) && |stop| == |m.runs| && RunsOk(m.copies, m.runs) && forall r :: 0 <= r < |stop| ==>
      stop[r] == m.runs[r].end
    ensures AllDone(m)
  {
    hide RunsOk;
    forall k | 0 <= k < |m.copies| ensures m.scanned[k] == m.copies[k].words - 1 {
      var r := CopyOnPages(m.copies, m.runs, k);
      assert RunAt(m, r, stop[r]);
    }
  }

  lemma NotWalkedAll(m: Made, stop: seq<nat>, r: nat)
    requires Exact(m, stop) && RunsOk(m.copies, m.runs) && r < |stop| && r < |m.runs| && stop[r] < m.runs[r].end
    ensures !AllDone(m)
  {
    hide RunsOk;
    RunIs(m.copies, m.runs, r);
    assert RunAt(m, r, stop[r]);
    assert m.scanned[stop[r]] == 0 && m.copies[stop[r]].words >= 2;
  }
  // ----- the state of the drain -----

  /** How far the pages that have left the queue were walked; the run that is put off and the copy
      that its walk stands at; and whether another walk has been overtaken. */
  datatype Progress = Progress(stop: seq<nat>, run: nat, at: nat, behind: bool)

  function Open(page: nat, p: Progress): set<nat> {
    if page == 0 then {} else {p.run}
  }

  /** Page `page` is put off at word cp, or none if it is 0. */
  ghost predicate Going(m: Made, page: nat, cp: nat, p: Progress) {
    && Account(m, p.stop, Open(page, p), p.behind)
    && (page != 0 ==> BackAt(m, p.run, p.at, page, cp) && p.run < |p.stop| && p.stop[p.run] == p.at)
  }

  lemma GoingParts(m: Made, page: nat, cp: nat, p: Progress)
    requires Going(m, page, cp, p)
    ensures Account(m, p.stop, Open(page, p), p.behind)
    ensures page != 0 ==>
      BackAt(m, p.run, p.at, page, cp) && p.run < |p.stop| && p.stop[p.run] == p.at && Open(page, p) == {p.run}
    ensures page == 0 ==> Open(page, p) == {}
  {
  }

  /** Nothing has been copied. */
  ghost predicate Quiet(m: Made, m': Made) {
    m' == m.(scanned := m'.scanned)
  }

  /** The page at the head of the queue, of run |stop|, has been walked up to copy j and word `end`; not at
      all, if its first word was the frontier. */
  ghost predicate HeadWalked(m0: Made, m: Made, freep0: nat, freep: nat, stop: seq<nat>, open: set<nat>,
                             behind: bool, j: nat, end: nat) {
    var r := |stop|;
    && r < |m0.runs| && r < |m.runs| && m.runs[r].page == m0.runs[r].page && RunsOk(m.copies, m.runs)
    && At(m, r, j, end)
    && Account(m, stop + [j],
               if end / PAGE_WORDS != m.runs[r].page || r + 1 == |m.runs| then open else open + {r}, behind)
    && (freep0 == PAGE_WORDS * m0.runs[r].page ==> m == m0 && freep == freep0 && end == freep)
    && (freep0 != PAGE_WORDS * m0.runs[r].page && r + 1 < |m.runs| ==> end / PAGE_WORDS != m.runs[r].page)
  }

  lemma HeadParts(m0: Made, m: Made, freep0: nat, freep: nat, stop: seq<nat>, open: set<nat>, behind: bool, j: nat,
                  end: nat)
    requires HeadWalked(m0, m, freep0, freep, stop, open, behind, j, end)
    ensures var r := |stop|;
      && r < |m0.runs| && r < |m.runs| && m.runs[r].page == m0.runs[r].page && At(m, r, j, end)
      && Account(m, stop + [j],
                 if end / PAGE_WORDS != m.runs[r].page || r + 1 == |m.runs| then open else open + {r}, behind)
      && (freep0 == PAGE_WORDS * m0.runs[r].page ==> m == m0 && freep == freep0 && end == freep)
      && (freep0 != PAGE_WORDS * m0.runs[r].page && r + 1 < |m.runs| ==> end / PAGE_WORDS != m.runs[r].page)
  {
  }
}
