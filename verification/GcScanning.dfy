/** Scanning the copies: what the words of a copy hold, and where a walk over a page of copies
    stands. */
module GcScanning {
  import opened GcWords
  import opened GcSpec
  import opened GcLayout
  import opened GcCopying

  // ----- the words of a copy -----

  lemma InvParts(w: Old, mem: seq<nat>, space: seq<nat>, last: nat, freep: nat, freewords: nat, m: Made)
    requires Inv(w, mem, space, last, freep, freewords, m)
    ensures OldOk(w) && FromOk(w, mem, m.fwd) && FwdOk(w, m.fwd, m.copies) && CopiesOk(w, mem, m)
    ensures LayoutOk(w, mem, space, last, m.copies, m.runs, freep, freewords)
    ensures RunsOk(m.copies, m.runs) && PagesOk(w, space, last, m.runs) &&
      FrontierOk(mem, m.copies, m.runs, freep, freewords)
    ensures |mem| == |w.mem| && |m.scanned| == |m.copies|
  {
  }

  lemma CopyIs(w: Old, mem: seq<nat>, m: Made, k: nat)
    requires OldOk(w) && FwdOk(w, m.fwd, m.copies) && CopiesOk(w, mem, m) && k < |m.copies|
    ensures var c := m.copies[k];
      && c.src in w.objects && c.src in m.fwd && m.fwd[c.src] == c.dst && InMemory(w, c.src) &&
        c.words == Words(w, c.src)
      && c.dst + c.words <= |mem| && mem[c.dst] == w.mem[c.src] && k < |m.scanned| && m.scanned[k] < c.words
      && CopyOk(w, mem, m.fwd, c, m.scanned[k])
      && HeaderWords(mem[c.dst]) == c.words && HeaderType(mem[c.dst]) == Type(w, c.src)
  {
    assert CopyOk(w, mem, m.fwd, m.copies[k], m.scanned[k]);
  }

  /** What may stand in a pointer slot of a copy, or in a root: a pointer of the old heap, or one
      that has been rewritten. */
  ghost predicate Movable(w: Old, m: Made, v: nat) {
    PointerOk(w, v) || ToCopy(m, v)
  }

  lemma SlotPointer(w: Old, h: nat, i: nat)
    requires OldOk(w) && h in w.objects && InMemory(w, h) && i < Words(w, h) - 1 && IsSlot(w, h, i)
    ensures PointerOk(w, Cell(w, h, i))
  {
  }

  lemma CopyCell(w: Old, mem: seq<nat>, fwd: map<nat, nat>, c: Copy, s: nat, i: nat)
    requires CopyOk(w, mem, fwd, c, s) && i < c.words - 1
    ensures InMemory(w, c.src) && i < Words(w, c.src) - 1 && c.dst + 1 + i < |mem| && CellOk(w, mem, fwd, c, s, i)
  {
  }

  /** What word i of a copy scanned up to s holds. */
  lemma CellNow(w: Old, mem: seq<nat>, m: Made, k: nat, i: nat)
    requires OldOk(w) && FwdOk(w, m.fwd, m.copies) && CopiesOk(w, mem, m) && k < |m.copies| && i < m.copies[k].words - 1
    ensures var c := m.copies[k];
      && InMemory(w, c.src) && c.words == Words(w, c.src) && c.dst + c.words <= |mem| && |m.scanned| == |m.copies|
      && (!IsSlot(w, c.src, i) ==> mem[c.dst + 1 + i] == Cell(w, c.src, i))
      && (IsSlot(w, c.src, i) ==>
            && PointerOk(w, Cell(w, c.src, i)) && Movable(w, m, mem[c.dst + 1 + i])
            && (mem[c.dst + 1 + i] == Cell(w, c.src, i) ||
                (i < m.scanned[k] && Settled(w, m.fwd, Cell(w, c.src, i)) &&
                  mem[c.dst + 1 + i] == Image(w, m.fwd, Cell(w, c.src, i)) && ToCopy(m, mem[c.dst + 1 + i]))))
  {
    hide OldOk, FwdOk, CopiesOk, CopyOk, IsSlot, Cell, Settled, Image, PointerOk, InMemory, Words, Grown;
    CopyIs(w, mem, m, k);
    var c, s := m.copies[k], m.scanned[k];
    CopyCell(w, mem, m.fwd, c, s, i);
    CopiesBounded(w, mem, m);
    if IsSlot(w, c.src, i) {
      SlotPointer(w, c.src, i);
      if i < s {
        GrownSelf(m);
        ImageKept(w, m, m, Cell(w, c.src, i));
      }
    }
  }

  /** Moving what a slot holds gives the image of the old pointer, whether the slot had been
      rewritten before or not. */
  lemma EvacImage(w: Old, m: Made, m': Made, space: seq<nat>, last: nat, cell: nat, v: nat, q: nat)
    requires Grown(m, m') && OldOk(w) && FwdOk(w, m.fwd, m.copies) && RunsOk(m.copies, m.runs) &&
      PagesOk(w, space, last, m.runs)
    requires PointerOk(w, cell) &&
      (v == cell || (Settled(w, m.fwd, cell) && v == Image(w, m.fwd, cell) && ToCopy(m, v)))
    requires Settled(w, m'.fwd, v) && q == Image(w, m'.fwd, v)
    ensures Settled(w, m'.fwd, cell) && q == Image(w, m'.fwd, cell)
  {
    if v != cell {
      ImageKept(w, m, m', cell);
      ToCopyPage(w, space, last, m, v);
    }
  }

  // ----- a walk -----

  /** Where copy j of a run begins, or where the run ends. */
  function Pos(copies: seq<Copy>, r: Run, j: nat): nat {
    if j < r.end && j < |copies| then copies[j].dst else EndOf(copies, r)
  }

  /** A walk over the first page of run r stands at copy j, at its end or behind its filler. */
  ghost predicate At(m: Made, r: nat, j: nat, cp: nat) {
    && r < |m.runs| && m.runs[r].start <= j <= m.runs[r].end
    && (cp == Pos(m.copies, m.runs[r], j) ||
      (j == m.runs[r].end && r + 1 < |m.runs| && cp == PAGE_WORDS * (m.runs[r].page + 1)))
  }

  lemma AtStart(m: Made, r: nat)
    requires RunsOk(m.copies, m.runs) && r < |m.runs|
    ensures At(m, r, m.runs[r].start, PAGE_WORDS * m.runs[r].page) && m.runs[r].start < m.runs[r].end
  {
    assert RunOk(m.copies, m.runs[r]);
  }

  lemma CopyStays(m: Made, m': Made, k: nat)
    requires Grown(m, m') && k < |m.copies|
    ensures k < |m'.copies| && m'.copies[k] == m.copies[k]
  {
    assert m'.copies[..|m.copies|][k] == m.copies[k];
  }

  /** The end of a run is its end in later states, or where its next copy begins. */
  lemma EndGrown(m: Made, m': Made, r: nat)
    requires Grown(m, m') && r < |m.runs| && RunOk(m.copies, m.runs[r]) && RunOk(m'.copies, m'.runs[r])
    ensures Pos(m'.copies, m'.runs[r], m.runs[r].end) == EndOf(m.copies, m.runs[r])
  {
    var a, b := m.runs[r], m'.runs[r];
    CopyStays(m, m', a.end - 1);
    if a.end < b.end { assert m'.copies[a.end].dst == m'.copies[a.end - 1].dst + m'.copies[a.end - 1].words; }
  }

  /** The position is kept when copies are added. */
  lemma AtGrown(m: Made, m': Made, r: nat, j: nat, cp: nat)
    requires At(m, r, j, cp) && Grown(m, m') && RunsOk(m.copies, m.runs) && RunsOk(m'.copies, m'.runs)
    ensures At(m', r, j, cp) && m'.runs[r].page == m.runs[r].page
  {
    RunIs(m.copies, m.runs, r);
    RunIs(m'.copies, m'.runs, r);
    hide RunsOk, RunOk;
    if j < m.runs[r].end {
      CopyStays(m, m', j);
    } else if cp == Pos(m.copies, m.runs[r], j) {
      EndGrown(m, m', r);
    }
  }

  lemma RunIs(copies: seq<Copy>, runs: seq<Run>, r: nat)
    requires RunsOk(copies, runs) && r < |runs|
    ensures RunOk(copies, runs[r]) && runs[r].end <= |copies|
  {
    assert RunOk(copies, runs[r]);
  }

  /** At a copy on the page, or at the filler of a finished page. */
  lemma WalkHere(w: Old, mem: seq<nat>, space: seq<nat>, last: nat, freep: nat, freewords: nat, m: Made, r: nat,
                 j: nat, cp: nat)
    requires LayoutOk(w, mem, space, last, m.copies, m.runs, freep, freewords) && At(m, r, j, cp)
    requires cp / PAGE_WORDS == m.runs[r].page && cp != freep
    ensures if j < m.runs[r].end then j < |m.copies| && m.copies[j].dst == cp
      else r + 1 < |m.runs| && cp < |mem| && 1 <= PAGE_WORDS * (m.runs[r].page + 1) - cp <= MAX_WORDS
           && mem[cp] == MakeHeader(PAGE_WORDS * (m.runs[r].page + 1) - cp, RAW)
  {
    var run := m.runs[r];
    assert RunOk(m.copies, run);
    if j == run.end {
      if r + 1 == |m.runs| {
        LastRun(mem, m.copies, m.runs, freep, freewords);
      } else {
        assert FillerOk(mem, m.copies, run);
      }
    }
  }

  /** Past a copy, the walk is at the next one or at the end of the run. */
  lemma WalkNext(m: Made, r: nat, j: nat)
    requires RunsOk(m.copies, m.runs) && r < |m.runs| && m.runs[r].start <= j < m.runs[r].end && j < |m.copies|
    ensures At(m, r, j + 1, m.copies[j].dst + m.copies[j].words)
  {
    assert RunOk(m.copies, m.runs[r]);
  }

  /** A walk that has left the page has passed every copy of the run. */
  lemma WalkLeft(m: Made, r: nat, j: nat, cp: nat)
    requires RunsOk(m.copies, m.runs) && At(m, r, j, cp) && cp / PAGE_WORDS != m.runs[r].page
    ensures j == m.runs[r].end
  {
    assert RunOk(m.copies, m.runs[r]);
  }

  lemma CaughtOnLast(mem: seq<nat>, freep: nat, freewords: nat, m: Made, j: nat)
    requires RunsOk(m.copies, m.runs) && FrontierOk(mem, m.copies, m.runs, freep, freewords) && m.runs != [] &&
      At(m, |m.runs| - 1, j, freep)
    ensures j == m.runs[|m.runs| - 1].end
  {
    hide RunsOk, FrontierOk, RunOk;
    LastRun(mem, m.copies, m.runs, freep, freewords);
    var run := m.runs[|m.runs| - 1];
    if j < run.end { RunOrder(m.copies, run, j, j); NotEmpty(m.copies, run, j); }
  }

  lemma NotEmpty(copies: seq<Copy>, run: Run, j: nat)
    requires RunOk(copies, run) && run.start <= j < run.end
    ensures j < |copies| && copies[j].words >= 2
  {
  }

  /** The first word of a page is not behind a copy. */
  lemma FirstWord(m: Made, r: nat, j: nat)
    requires RunsOk(m.copies, m.runs) && r < |m.runs| && At(m, r, j, PAGE_WORDS * m.runs[r].page)
    ensures j < m.runs[r].end
  {
    assert RunOk(m.copies, m.runs[r]);
  }

  /** A walk that stops at the frontier has passed every copy, or is at the first word of a page
      that the last pages taken end at. */
  lemma WalkCaught(w: Old, mem: seq<nat>, space: seq<nat>, last: nat, freep: nat, freewords: nat, m: Made, r: nat,
                   j: nat, cp: nat)
    requires LayoutOk(w, mem, space, last, m.copies, m.runs, freep, freewords) && At(m, r, j, cp)
    requires cp / PAGE_WORDS == m.runs[r].page && cp == freep
    ensures if r + 1 == |m.runs| then j == m.runs[r].end
      else cp == PAGE_WORDS * m.runs[r].page && !NoAbut(m.runs)
  {
    hide OldOk, FillerOk, RunsOk, FrontierOk, RunOk;
    if r + 1 == |m.runs| {
      CaughtOnLast(mem, freep, freewords, m, j);
    } else {
      LastRun(mem, m.copies, m.runs, freep, freewords);
      LastEnd(m.copies, m.runs[|m.runs| - 1]);
      RunPages(m.copies, m.runs, r);
      assert Separate(m.runs[r], m.runs[|m.runs| - 1]);
    }
  }

  lemma RunPages(copies: seq<Copy>, runs: seq<Run>, r: nat)
    requires RunsOk(copies, runs) && r < |runs|
    ensures runs[r].pages >= 1
  {
    assert RunOk(copies, runs[r]);
  }

  lemma LastEnd(copies: seq<Copy>, l: Run)
    requires RunOk(copies, l)
    ensures EndOf(copies, l) <= PAGE_WORDS * (l.page + l.pages)
  {
  }

  lemma AtRange(m: Made, r: nat, j: nat, cp: nat)
    requires RunsOk(m.copies, m.runs) && At(m, r, j, cp)
    ensures r < |m.runs| && m.runs[r].start <= j <= m.runs[r].end <= |m.copies|
  {
    RunsEnd(m.copies, m.runs, r);
  }

  /** One copy on. */
  lemma StepCopied(m: Made, m': Made, r: nat, j: nat, cp: nat, n: nat)
    requires Grown(m, m') && RunsOk(m.copies, m.runs) && RunsOk(m'.copies, m'.runs) && At(m, r, j, cp)
    requires j < m.runs[r].end && j < |m.copies| && m.copies[j].dst == cp && m.copies[j].words == n
    ensures At(m', r, j + 1, cp + n) && m'.runs[r].page == m.runs[r].page
  {
    assert m'.copies[j] == m'.copies[..|m.copies|][j];
    RunsEnd(m.copies, m.runs, r);
    WalkNext(m', r, j);
  }

  /** Over the filler. */
  lemma StepFiller(m: Made, m': Made, r: nat, j: nat, cp: nat)
    requires Grown(m, m') && At(m, r, j, cp) && r + 1 < |m.runs| && j == m.runs[r].end
    ensures At(m', r, j, PAGE_WORDS * (m.runs[r].page + 1)) && m'.runs[r].page == m.runs[r].page
  {
  }

  // ----- what has been scanned -----

  /** Only copies i up to j have been scanned on; copies that are new have not been scanned. */
  ghost predicate Untouched(m: Made, m': Made, i: nat, j: nat) {
    |m.scanned| <= |m'.scanned| &&
    forall l :: 0 <= l < |m'.scanned| && !(i <= l < j) ==> m'.scanned[l] == if l < |m.scanned| then m.scanned[l] else 0
  }

  lemma UntouchedThen(a: Made, b: Made, c: Made, i: nat, j: nat, k: nat)
    requires Untouched(a, b, i, j) && Untouched(b, c, j, k) && i <= j <= k
    ensures Untouched(a, c, i, k)
  {
  }

  lemma UntouchedSelf(m: Made, i: nat)
    ensures Untouched(m, m, i, i)
  {
  }

  /** Copies i up to j are scanned. */
  ghost predicate Passed(m: Made, i: nat, j: nat) {
    |m.scanned| == |m.copies| && forall k :: i <= k < j && k < |m.copies| ==> m.scanned[k] == m.copies[k].words - 1
  }

  lemma PassedKept(m: Made, m': Made, i: nat, j: nat)
    requires Passed(m, i, j) && Grown(m, m') && Bounded(m') && j <= |m.copies|
    ensures Passed(m', i, j)
  {
    forall k | i <= k < j && k < |m'.copies| ensures m'.scanned[k] == m'.copies[k].words - 1 {
      assert m'.copies[k] == m'.copies[..|m.copies|][k];
    }
  }

  lemma PassedPlus(m: Made, m': Made, i: nat, j: nat)
    requires Passed(m, i, j) && Grown(m, m') && Bounded(m') && j < |m.copies| && m'.scanned[j] >= m.copies[j].words - 1
    ensures Passed(m', i, j + 1)
  {
    PassedKept(m, m', i, j);
    assert m'.copies[j] == m'.copies[..|m.copies|][j];
  }

  ghost predicate Bounded(m: Made) {
    |m.scanned| == |m.copies| && forall k :: 0 <= k < |m.copies| ==> m.scanned[k] < m.copies[k].words
  }

  lemma CopiesBounded(w: Old, mem: seq<nat>, m: Made)
    requires CopiesOk(w, mem, m)
    ensures Bounded(m)
  {
    forall k | 0 <= k < |m.copies| ensures m.scanned[k] < m.copies[k].words {
      assert CopyOk(w, mem, m.fwd, m.copies[k], m.scanned[k]);
    }
  }

  /** Every copy is scanned. */
  ghost predicate AllDone(m: Made) {
    |m.scanned| == |m.copies| && forall k :: 0 <= k < |m.copies| ==> m.scanned[k] == m.copies[k].words - 1
  }

  // ----- termination -----

  /** No more copies than objects, no more runs than copies; new runs come with new copies. */
  lemma FewCopies(w: Old, mem: seq<nat>, m: Made)
    requires OldOk(w) && FwdOk(w, m.fwd, m.copies)
    ensures |m.copies| <= |w.objects|
  {
    assert m.fwd.Keys <= w.objects;
    SubsetSize(m.fwd.Keys, w.objects);
  }

  lemma {:induction false} SubsetSize(a: set<nat>, b: set<nat>)
    requires a <= b
    ensures |a| <= |b|
  {
    if a != {} {
      var x :| x in a;
      SubsetSize(a - {x}, b - {x});
    }
  }

  lemma NewRunsNewCopies(m: Made, m': Made)
    requires RunsOk(m.copies, m.runs) && RunsOk(m'.copies, m'.runs) && Grown(m, m')
    ensures |m.copies| <= |m'.copies| && |m.runs| <= |m'.runs| && (|m'.copies| == |m.copies| ==> |m'.runs| == |m.runs|)
  {
    if |m'.runs| > |m.runs| {
      assert RunOk(m'.copies, m'.runs[|m.runs|]) && StartOk(m'.runs, |m.runs|);
      if m.runs != [] { RunsEnd(m.copies, m.runs, |m.runs| - 1); }
      RunsEnd(m'.copies, m'.runs, |m.runs|);
    }
  }

  /** No run ends where an earlier one begins. */
  ghost predicate NoAbut(runs: seq<Run>) {
    forall r, q :: 0 <= r < q < |runs| ==> runs[q].page + runs[q].pages != runs[r].page
  }

  lemma NoAbutBefore(m: Made, m': Made)
    requires Grown(m, m') && NoAbut(m'.runs)
    ensures NoAbut(m.runs)
  {
    forall r, q | 0 <= r < q < |m.runs| ensures m.runs[q].page + m.runs[q].pages != m.runs[r].page {
      assert m'.runs[q].page + m'.runs[q].pages != m'.runs[r].page;
    }
  }
}
