/** No object begins on a page that is the tail of another: the roots that stop a collection do not come
    about. */
module GcHeads {
  import opened GcWords
  import opened GcSpec
  import opened GcPages
  import opened GcLayout
  import opened GcCopying
  import opened GcScanning
  import opened GcCollector
  import opened GcHeap
  import opened GcBegun
  import opened GcAllocating

  predicate HeadAt(types: seq<nat>, i: nat) {
    i / PAGE_WORDS < |types| && types[i / PAGE_WORDS] == OBJECT
  }

  /** Bodies begin on pages that begin an object, and so will those at the frontier. */
  ghost predicate Headed(types: seq<nat>, objects: set<nat>, freep: nat, freewords: nat) {
    (forall h :: h in objects ==> HeadAt(types, h + 1)) && (freewords > 0 ==> HeadAt(types, freep))
  }

  lemma NoTailAt(w: Old, types: seq<nat>, r: Root)
    requires RootOk(w, r) && |types| == |w.space| && forall h :: h in w.objects ==> HeadAt(types, h + 1)
    requires forall p :: 0 <= p < |types| && InNursery(w, p) ==> types[p] != CONTINUED
    ensures !TailAt(w, types, r)
  {
    if r.PtrRoot? && IsObject(w, r.pointer) {
      AddressPage(ObjectOf(r.pointer));
      assert HeadAt(types, ObjectOf(r.pointer) + 1);
    }
  }

  /** Then no root is a pointer into the tail of an object. */
  lemma NoTails(w: Old, types: seq<nat>, freep: nat, freewords: nat, roots: seq<Root>)
    requires OldOk(w) && (forall i :: 0 <= i < |roots| ==> RootOk(w, roots[i])) && |types| == |w.space|
    requires Headed(types, w.objects, freep, freewords)
    requires forall p :: 0 <= p < |types| && w.space[p] == NURSERY ==> types[p] != CONTINUED
    ensures !Tails(w, types, roots)
  {
    NurseryTags(w);
    hide OldOk, RootOk, TailAt, HeadAt;
    forall i | 0 <= i < |roots| ensures !TailAt(w, types, roots[i]) { NoTailAt(w, types, roots[i]); }
  }

  lemma NurseryTags(w: Old)
    requires OldOk(w)
    ensures forall p :: 0 <= p < |w.space| && InNursery(w, p) ==> w.space[p] == NURSERY
  {
  }

  /** Copies begin on the first page of their run. */
  lemma CopyHead(types: seq<nat>, copies: seq<Copy>, runs: seq<Run>, k: nat)
    requires RunsOk(copies, runs) && k < |copies|
    requires forall r :: 0 <= r < |runs| ==> runs[r].page < |types| && types[runs[r].page] == OBJECT
    ensures HeadAt(types, copies[k].dst + 1)
  {
    var r := CopyOnPages(copies, runs, k);
    assert RunOk(copies, runs[r]);
    assert copies[k].dst + 1 < PAGE_WORDS * (runs[r].page + 1);
  }

  lemma CopyTo(w: Old, fwd: map<nat, nat>, copies: seq<Copy>, d: nat) returns (k: nat)
    requires FwdOk(w, fwd, copies) && d in fwd.Values
    ensures k < |copies| && copies[k].dst == d
  {
    var h :| h in fwd && fwd[h] == d;
    k :| 0 <= k < |copies| && copies[k].src == h;
  }

  /** The frontier is on the page of the last run, when there is room behind it. */
  lemma FrontierPage(mem: seq<nat>, copies: seq<Copy>, runs: seq<Run>, freep: nat, freewords: nat)
    requires RunsOk(copies, runs) && FrontierOk(mem, copies, runs, freep, freewords) && freewords > 0
    ensures runs != [] && freep / PAGE_WORDS == runs[|runs| - 1].page && runs[|runs| - 1].pages >= 1
  {
    LastRun(mem, copies, runs, freep, freewords);
  }

  lemma CopiesHeaded(w: Old, types: seq<nat>, mem: seq<nat>, m: Made, freep: nat, freewords: nat)
    requires FwdOk(w, m.fwd, m.copies) && RunsOk(m.copies, m.runs)
    requires FrontierOk(mem, m.copies, m.runs, freep, freewords)
    requires forall r :: 0 <= r < |m.runs| ==> m.runs[r].page < |types| && types[m.runs[r].page] == OBJECT
    ensures Headed(types, m.fwd.Values, freep, freewords)
  {
    hide FwdOk, RunsOk, FrontierOk;
    forall d | d in m.fwd.Values ensures HeadAt(types, d + 1) {
      var k := CopyTo(w, m.fwd, m.copies, d);
      CopyHead(types, m.copies, m.runs, k);
    }
    if freewords > 0 { FrontierPage(mem, m.copies, m.runs, freep, freewords); }
  }

  lemma CopiesIn(w: Old, space: seq<nat>, last: nat, mem: seq<nat>, m: Made, freep: nat, freewords: nat)
    requires FwdOk(w, m.fwd, m.copies) && RunsOk(m.copies, m.runs) && PagesOk(w, space, last, m.runs)
    requires FrontierOk(mem, m.copies, m.runs, freep, freewords)
    ensures forall d :: d in m.fwd.Values ==> InSpace(space, d + 1, w.into)
    ensures freewords > 0 ==> InSpace(space, freep, w.into)
  {
    hide FwdOk, RunsOk, FrontierOk, PagesOk;
    forall d | d in m.fwd.Values ensures InSpace(space, d + 1, w.into) {
      var k := CopyTo(w, m.fwd, m.copies, d);
      var r := CopyOnPages(m.copies, m.runs, k);
      TagOfRun(w, space, last, m.runs, r, (d + 1) / PAGE_WORDS);
    }
    if freewords > 0 {
      FrontierPage(mem, m.copies, m.runs, freep, freewords);
      TagOfRun(w, space, last, m.runs, |m.runs| - 1, freep / PAGE_WORDS);
    }
  }

  /** Pages of runs are queued. */
  lemma RunHeads(pages: Pages, w: Old, copies: seq<Copy>, runs: seq<Run>)
    requires pages.Valid() && PageOrder(pages.order, runs) && PagesOk(w, pages.space, pages.last, runs)
    requires RunsOk(copies, runs)
    ensures forall r :: 0 <= r < |runs| ==>
      runs[r].page < |pages.typePage| && pages.typePage[runs[r].page] == OBJECT
  {
    hide QueueOk, OrderOk, Counted;
    forall r | 0 <= r < |runs|
      ensures runs[r].page < |pages.typePage| && pages.typePage[runs[r].page] == OBJECT {
      assert RunOk(copies, runs[r]);
      hide RunOk, RunsOk;
      TagOfRun(w, pages.space, pages.last, runs, r, runs[r].page);
      assert pages.order[r] == runs[r].page;
    }
  }

  /** During a collection. */
  lemma HeadsNow(gc: Collector)
    requires gc.Ready()
    ensures Headed(gc.pages.typePage, gc.m.fwd.Values, gc.freep, gc.freewords)
    ensures forall d :: d in gc.m.fwd.Values ==> InSpace(gc.pages.space, d + 1, gc.w.into)
    ensures gc.freewords > 0 ==> InSpace(gc.pages.space, gc.freep, gc.w.into)
  {
    hide Pages.Valid, TypesKept, OldOk, CopiesOk, FromOk, OnlyReachable, RunsOk, PagesOk, FrontierOk, FwdOk, PageOrder,
      Headed;
    RunHeads(gc.pages, gc.w, gc.m.copies, gc.m.runs);
    CopiesHeaded(gc.w, gc.pages.typePage, gc.mem[..], gc.m, gc.freep, gc.freewords);
    CopiesIn(gc.w, gc.pages.space, gc.pages.last, gc.mem[..], gc.m, gc.freep, gc.freewords);
  }

  predicate InSpace(space: seq<nat>, i: nat, tag: nat) {
    i / PAGE_WORDS < |space| && space[i / PAGE_WORDS] == tag
  }

  /** Types of pages in use are kept. */
  lemma HeadedKept(space: seq<nat>, types: seq<nat>, types': seq<nat>, objects: set<nat>, freep: nat, freewords: nat,
                   tag: nat)
    requires |types| == |types'| == |space| && forall p :: 0 <= p < |space| && space[p] == tag ==> types'[p] == types[p]
    requires Headed(types, objects, freep, freewords)
    requires forall h :: h in objects ==> InSpace(space, h + 1, tag)
    requires freewords > 0 ==> InSpace(space, freep, tag)
    ensures Headed(types', objects, freep, freewords)
  {
    forall h | h in objects ensures HeadAt(types', h + 1) {
      assert HeadAt(types, h + 1) && InSpace(space, h + 1, tag);
    }
  }

  lemma ObjectsInSpace(w: Old)
    requires OldOk(w)
    ensures forall h :: h in w.objects ==> InSpace(w.space, h + 1, w.from)
  {
    forall h | h in w.objects ensures InSpace(w.space, h + 1, w.from) {
      assert InMemory(w, h);
      TagOfOld(w, h, (h + 1) / PAGE_WORDS);
    }
  }

  /** A new object at the frontier, and the frontier behind it. */
  lemma HeadedPlus(w: Old, types: seq<nat>, objects: set<nat>, h: nat, n: nat, freewords: nat)
    requires Headed(types, objects, h, freewords) && RoomFor(w, h, n, freewords) && 2 <= n <= freewords
    ensures Headed(types, objects + {h}, h + n, if n < PAGE_WORDS then freewords - n else 0)
  {
    assert (h + 1) / PAGE_WORDS == h / PAGE_WORDS by { SamePage(w, h, n, freewords, 1); }
    if n < PAGE_WORDS && freewords - n > 0 { SamePage(w, h, n, freewords, n); }
  }

  lemma SamePage(w: Old, h: nat, n: nat, freewords: nat, k: nat)
    requires RoomFor(w, h, n, freewords) && k < PAGE_WORDS && k < freewords
    ensures (h + k) / PAGE_WORDS == h / PAGE_WORDS
  {
  }

  /** Pages have been taken, and the frontier is at their beginning. */
  lemma HeadedTaken(w: Old, types: seq<nat>, types': seq<nat>, objects: set<nat>, freep: nat, freewords: nat, next: nat,
                    page: nat, freewords': nat)
    requires OldOk(w) && w.objects == objects && TypesKept(w.space, types, types', w.from, next)
    requires Headed(types, objects, freep, freewords) && page < |types'| && types'[page] == OBJECT
    ensures Headed(types', objects, PAGE_WORDS * page, freewords')
  {
    hide OldOk;
    ObjectsInSpace(w);
    HeadedKept(w.space, types, types', objects, 0, 0, w.from);
  }
}
