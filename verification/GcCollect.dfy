/** The full collection: roots, drain, and the release of the space that was left. */
module GcCollect {
  import opened Wrappers
  import opened GcWords
  import opened GcSpec
  import opened GcPages
  import opened GcLayout
  import opened GcCopying
  import opened GcScanning
  import opened GcPlacing
  import opened GcTracing
  import opened GcRoom
  import opened GcReserve
  import opened GcReading
  import opened GcHeads
  import opened GcTrace
  import opened GcCollector
  import opened GcBegun
  import opened GcHeap
  import opened GcAllocating

  /** Roots up to n have been scanned, the others are as they were. */
  ghost predicate RootsDone(w: Old, fwd: map<nat, nat>, roots0: seq<Root>, roots: seq<Root>, n: nat) {
    |roots| == |roots0| && n <= |roots0| && (forall i :: 0 <= i < n ==> RootDone(w, fwd, roots0[i], roots[i])) &&
      forall i :: n <= i < |roots0| ==> roots[i] == roots0[i]
  }

  ghost predicate RootsOk(w: Old, roots: seq<Root>) {
    forall i :: 0 <= i < |roots| ==> RootOk(w, roots[i])
  }

  lemma RootsStart(w: Old, fwd: map<nat, nat>, roots: seq<Root>)
    ensures RootsDone(w, fwd, roots, roots, 0)
  {
  }

  lemma RootHere(w: Old, fwd: map<nat, nat>, roots0: seq<Root>, roots: seq<Root>, i: nat)
    requires RootsDone(w, fwd, roots0, roots, i) && i < |roots0| && RootsOk(w, roots0)
    ensures |roots| == |roots0| && roots[i] == roots0[i] && RootOk(w, roots0[i])
  {
  }

  lemma PointerWord(p: nat)
    ensures p in RootWords(PtrRoot(p))
  {
  }

  lemma PointerDone(w: Old, fwd: map<nat, nat>, p: nat, q: nat)
    requires Settled(w, fwd, p) && q == Image(w, fwd, p)
    ensures RootDone(w, fwd, PtrRoot(p), PtrRoot(q))
  {
  }

  lemma ValueWords(w: Old, v: seq<nat>)
    requires RootOk(w, ValueRoot(v))
    ensures |v| == VALUE_WORDS
  {
  }

  lemma RootsPlus(w: Old, m: Made, m': Made, roots0: seq<Root>, roots: seq<Root>, n: nat, r: Root)
    requires RootsDone(w, m.fwd, roots0, roots, n) && RootsOk(w, roots0) && Grown(m, m') &&
      FwdOk(w, m.fwd, m.copies) && n < |roots0|
    requires RootDone(w, m'.fwd, roots0[n], r)
    ensures RootsDone(w, m'.fwd, roots0, roots[n := r], n + 1)
  {
    hide RootDone, RootOk, FwdOk, Grown;
    forall i | 0 <= i < n ensures RootDone(w, m'.fwd, roots0[i], roots[i]) { RootKept(w, m, m', roots0[i], roots[i]); }
  }

  lemma RootsGrown(w: Old, m: Made, m': Made, roots0: seq<Root>, roots: seq<Root>)
    requires RootsDone(w, m.fwd, roots0, roots, |roots0|) && RootsOk(w, roots0) && Grown(m, m') &&
      FwdOk(w, m.fwd, m.copies)
    ensures RootsDone(w, m'.fwd, roots0, roots, |roots0|)
  {
    hide RootDone, RootOk, FwdOk, Grown;
    forall i | 0 <= i < |roots0| ensures RootDone(w, m'.fwd, roots0[i], roots[i]) {
      RootKept(w, m, m', roots0[i], roots[i]);
    }
  }

  predicate NoPointers(tagWord: nat, lo: nat, hi: nat) {
    forall i :: lo <= i < hi ==> !ValueSlot(tagWord, i)
  }

  lemma TagSlots(tagWord: nat)
    ensures var tag := Tag(tagWord);
      && (tag == VAL_CONS ==>
        NoPointers(tagWord, 0, 1) && ValueSlot(tagWord, 1) && NoPointers(tagWord, 2, 2) && ValueSlot(tagWord, 2) &&
        NoPointers(tagWord, 3, 5))
      && (tag == VAL_LAMBDA ==>
        NoPointers(tagWord, 0, 1) && ValueSlot(tagWord, 1) && NoPointers(tagWord, 2, 3) && ValueSlot(tagWord, 3) &&
        NoPointers(tagWord, 4, 5))
      && (tag == VAL_VECTOR || tag == VAL_STRING || tag == VAL_ERROR ==>
        NoPointers(tagWord, 0, 1) && ValueSlot(tagWord, 1) && NoPointers(tagWord, 2, 5))
      && (tag != VAL_CONS && tag != VAL_LAMBDA && tag != VAL_VECTOR && tag != VAL_STRING && tag != VAL_ERROR ==>
        NoPointers(tagWord, 0, 5))
  {
  }

  lemma RootMovable(w: Old, m: Made, r: Root, p: nat)
    requires RootOk(w, r) && p in RootWords(r)
    ensures Movable(w, m, p)
  {
  }

  lemma RootWord(v: seq<nat>, o: nat)
    requires o < |v| && ValueSlot(v[0], o)
    ensures v[o] in RootWords(ValueRoot(v))
  {
  }

  lemma FwdNow(gc: Collector)
    requires gc.Ready()
    ensures FwdOk(gc.w, gc.m.fwd, gc.m.copies)
  {
    hide TypesKept, Traced, Pages.Valid, OldOk, FwdOk;
  }

  /** Part of a root value has been scanned: pointers before word n. */
  ghost predicate PartDone(w: Old, fwd: map<nat, nat>, v: seq<nat>, v': seq<nat>, n: nat) {
    |v'| == |v| == VALUE_WORDS && forall i :: 0 <= i < |v| ==>
      if i < n && ValueSlot(v[0], i) then Settled(w, fwd, v[i]) && v'[i] == Image(w, fwd, v[i]) else v'[i] == v[i]
  }

  lemma PartStart(w: Old, fwd: map<nat, nat>, v: seq<nat>)
    requires |v| == VALUE_WORDS
    ensures PartDone(w, fwd, v, v, 0)
  {
  }

  lemma PartHere(w: Old, fwd: map<nat, nat>, v: seq<nat>, v': seq<nat>, n: nat, o: nat)
    requires PartDone(w, fwd, v, v', n) && n <= o < VALUE_WORDS
    ensures |v| == |v'| == VALUE_WORDS && v'[o] == v[o]
  {
  }

  lemma PartGrown(w: Old, m: Made, m': Made, v: seq<nat>, v': seq<nat>, n: nat)
    requires PartDone(w, m.fwd, v, v', n) && RootOk(w, ValueRoot(v)) && Grown(m, m') && FwdOk(w, m.fwd, m.copies)
    ensures PartDone(w, m'.fwd, v, v', n)
  {
    forall i | 0 <= i < |v|
      ensures if i < n && ValueSlot(v[0], i) then Settled(w, m'.fwd, v[i]) && v'[i] == Image(w, m'.fwd, v[i])
        else v'[i] == v[i]
    {
      if i < n && ValueSlot(v[0], i) { ImageKept(w, m, m', v[i]); }
    }
  }

  lemma PartPlus(w: Old, m: Made, m': Made, v: seq<nat>, v': seq<nat>, n: nat, o: nat, q: nat)
    requires PartDone(w, m.fwd, v, v', n) && RootOk(w, ValueRoot(v)) && Grown(m, m') && FwdOk(w, m.fwd, m.copies)
    requires n <= o < VALUE_WORDS && ValueSlot(v[0], o) && NoPointers(v[0], n, o)
    requires Settled(w, m'.fwd, v[o]) && q == Image(w, m'.fwd, v[o])
    ensures PartDone(w, m'.fwd, v, v'[o := q], o + 1)
  {
    hide ValueSlot, Settled, Image, FwdOk, Grown, RootOk;
    PartGrown(w, m, m', v, v', n);
  }

  lemma PartEnd(w: Old, fwd: map<nat, nat>, v: seq<nat>, v': seq<nat>, n: nat)
    requires PartDone(w, fwd, v, v', n) && |v| > 0 && NoPointers(v[0], n, VALUE_WORDS)
    ensures RootDone(w, fwd, ValueRoot(v), ValueRoot(v'))
  {
    hide ValueSlot, Settled, Image;
  }

  lemma AllSettled(w: Old, fwd: map<nat, nat>, roots0: seq<Root>, roots: seq<Root>, v: nat)
    requires RootsDone(w, fwd, roots0, roots, |roots0|) && v in RootSet(roots0)
    ensures Settled(w, fwd, v)
  {
    var i :| 0 <= i < |roots0| && v in RootWords(roots0[i]);
    assert RootDone(w, fwd, roots0[i], roots[i]);
  }

  /** The roots are good in the new heap. */
  lemma RootAfter(w: Old, mem: seq<nat>, space: seq<nat>, last: nat, m: Made, r: Root, r': Root)
    requires FwdOk(w, m.fwd, m.copies) && |m.scanned| == |m.copies| && |space| == |w.space| && RootOk(w, r) &&
      RootDone(w, m.fwd, r, r')
    ensures RootOk(NewHeap(w, mem, space, last, m), r')
  {
    match r
    case PtrRoot(p) => PointerAfter(w, mem, space, last, m, p);
    case ValueRoot(v) =>
      forall i | 0 <= i < |v| && ValueSlot(r'.value[0], i)
        ensures PointerOk(NewHeap(w, mem, space, last, m), r'.value[i]) {
        PointerAfter(w, mem, space, last, m, v[i]);
      }
  }

  lemma PointerAfter(w: Old, mem: seq<nat>, space: seq<nat>, last: nat, m: Made, v: nat)
    requires FwdOk(w, m.fwd, m.copies) && |m.scanned| == |m.copies| && |space| == |w.space| && PointerOk(w, v) &&
      Settled(w, m.fwd, v)
    ensures PointerOk(NewHeap(w, mem, space, last, m), Image(w, m.fwd, v))
  {
    GrownSelf(m);
    ImageKept(w, m, m, v);
    var q := Image(w, m.fwd, v);
    if ToCopy(m, q) {
      var l :| 0 <= l < |m.copies| && q == BodyAddress(m.copies[l].dst);
      AddressPage(m.copies[l].dst);
      assert m.copies[l].src in m.fwd && m.fwd[m.copies[l].src] == m.copies[l].dst;
    }
  }
  lemma NoneScanned(m: Made)
    requires Untouched(Made([], [], map[], []), m, 0, 0)
    ensures forall k :: 0 <= k < |m.scanned| ==> m.scanned[k] == 0
  {
  }

  lemma FrontierIs(w: Old, freep: nat, freewords: nat)
    requires FrontierFree(w, freep, freewords)
    ensures freewords <= MAX_WORDS && (freewords > 0 ==> freep < |w.mem|)
  {
  }

  lemma NoneOfOther(w: Old)
    requires OldOk(w)
    ensures forall p :: 0 <= p < |w.space| ==> w.space[p] != w.into
  {
  }

  lemma RootsSame(w: Old, w': Old, roots: seq<Root>)
    requires RootsOk(w, roots) && w' == w.(mem := w'.mem)
    ensures RootsOk(w', roots)
  {
    forall i | 0 <= i < |roots| ensures RootOk(w', roots[i]) {
      assert RootOk(w, roots[i]);
    }
  }

  lemma SettledRoots(w: Old, fwd: map<nat, nat>, roots0: seq<Root>, roots: seq<Root>)
    requires RootsDone(w, fwd, roots0, roots, |roots0|)
    ensures forall v :: v in RootSet(roots0) ==> Settled(w, fwd, v)
  {
    forall v | v in RootSet(roots0) ensures Settled(w, fwd, v) { AllSettled(w, fwd, roots0, roots, v); }
  }

  lemma RootsAfter(w: Old, mem: seq<nat>, space: seq<nat>, last: nat, m: Made, roots0: seq<Root>, roots: seq<Root>)
    requires FwdOk(w, m.fwd, m.copies) && |m.scanned| == |m.copies| && |space| == |w.space|
    requires RootsOk(w, roots0) && RootsDone(w, m.fwd, roots0, roots, |roots0|)
    ensures RootsOk(NewHeap(w, mem, space, last, m), roots)
  {
    hide FwdOk, RootOk, RootDone;
    forall i | 0 <= i < |roots| ensures RootOk(NewHeap(w, mem, space, last, m), roots[i]) {
      RootAfter(w, mem, space, last, m, roots0[i], roots[i]);
    }
  }

  /** Everything about the heap after a collection: it is a faithful copy exactly when no pointer to
      an old object is left, and then it is a proper heap. */
  lemma HeapAfter(w: Old, mem: seq<nat>, space: seq<nat>, last: nat, freep: nat, freewords: nat, m: Made,
                  roots0: seq<Root>, roots: seq<Root>)
    requires Inv(w, mem, space, last, freep, freewords, m) && OnlyReachable(w, RootSet(roots0), m.fwd)
    requires RootsOk(w, roots0) && RootsDone(w, m.fwd, roots0, roots, |roots0|)
    requires forall p :: 0 <= p < |space| && space[p] != 0 ==> p <= last
    ensures Isomorphic(w, NewHeap(w, mem, space, last, m), m.fwd, RootSet(roots0)) <==> Clean(w, m)
    ensures Clean(w, m) ==> var w' := NewHeap(w, mem, space, last, m);
      OldOk(w') && FrontierFree(w', freep, freewords) && RootsOk(w', roots)
  {
    hide OldOk, FromOk, FwdOk, CopiesOk, RunsOk, PagesOk, FrontierOk, AllDone, Isomorphic, FrontierFree, RootsOk,
      RootsDone, NewHeap, OnlyReachable, RootSet,
      Settled, Clean;
    InvParts(w, mem, space, last, freep, freewords, m);
    if Clean(w, m) {
      CleanThrough(w, mem, m);
      SameHeap(w, mem, space, last, m);
      SettledRoots(w, m.fwd, roots0, roots);
      Complete(w, mem, space, last, freep, freewords, Through(m), RootSet(roots0));
      ProperAgain(w, mem, space, last, freep, freewords, Through(m));
      FrontierAfter(w, mem, space, last, freep, freewords, Through(m));
      PagesSizes(w, space, last, m.runs);
      RootsAfter(w, mem, space, last, m, roots0, roots);
    } else {
      NotClean(w, mem, space, last, freep, freewords, m, RootSet(roots0));
    }
  }

  lemma SameHeap(w: Old, mem: seq<nat>, space: seq<nat>, last: nat, m: Made)
    ensures NewHeap(w, mem, space, last, Through(m)) == NewHeap(w, mem, space, last, m)
  {
  }

  lemma QueuedNext(w: Old, space: seq<nat>, last: nat, copies: seq<Copy>, runs: seq<Run>, order: seq<nat>)
    requires PagesOk(w, space, last, runs) && RunsOk(copies, runs) && PageOrder(order, runs)
    ensures forall i :: 0 <= i < |order| ==> order[i] < |space| && space[order[i]] == w.into
  {
    forall i | 0 <= i < |order| ensures order[i] < |space| && space[order[i]] == w.into {
      RunPages(copies, runs, i);
      TagOfRun(w, space, last, runs, i, order[i]);
    }
  }

  lemma NewHeapIs(w: Old, mem: seq<nat>, space: seq<nat>, last: nat, m: Made, w': Old)
    requires w'.mem == mem && w'.objects == m.fwd.Values && |w'.space| == |space| && w'.from == w.into &&
      w'.into == w.from && w'.first == w.first && w'.last == last
    requires w'.nurseryFirst == w.nurseryFirst && w'.nurseryLast == w.nurseryLast
    requires forall p :: 0 <= p < |space| ==> w'.space[p] == if space[p] == w.from then 0 else space[p]
    ensures w' == NewHeap(w, mem, space, last, m)
  {
    assert w'.space == Released(space, w.from);
  }

  /** The conditions on the heap are those on the heap whose last page has been finished. */
  lemma Conditions(w: Old, w': Old, f0: nat)
    requires OldOk(w) && SameObjects(w, w')
    ensures Roomy(w, f0) ==> Fits(w', f0) && Orderly(w', f0)
    ensures Fits(w, f0) ==> Fits(w', f0)
    ensures Orderly(w, f0) ==> Orderly(w', f0)
  {
    forall h | h in w.objects ensures Words(w', h) == Words(w, h) >= 1 {
      assert InMemory(w, h);
      assert w'.mem[h] == w.mem[h];
    }
    OrdersSame(w, w', f0);
    hide Words, SameObjects, OldOk, Fits, Orderly;
    if Roomy(w, f0) {
      RoomySame(w, w', f0);
      TagsOfOld(w);
      RoomyOrders(w', f0);
    }
  }

  lemma TraceFirst(w: Old, f0: nat, roots: set<nat>, m: Made, freep: nat, ss: seq<State>)
    requires Drained(w, f0, roots, m, freep, ss)
    ensures ss != [] && ss[0].m == m && ss[0].freep == freep
  {
  }

  lemma TailsSame(w: Old, w': Old, types: seq<nat>, roots: seq<Root>)
    requires w'.first == w.first && w'.last == w.last
    ensures Tails(w', types, roots) == Tails(w, types, roots)
  {
    assert forall r :: TailAt(w', types, r) == TailAt(w, types, r);
  }

  lemma TagsOfOld(w: Old)
    requires OldOk(w)
    ensures w.from != w.into && w.into != NURSERY && w.from != 0 && w.into != 0
  {
  }

  /** Where the search stands when all has been copied. */
  lemma FollowsNow(gc: Collector)
    requires gc.Ready()
    ensures var pages := gc.pages;
      || pages.freepage <= pages.first || pages.allocatedPages == 0
      || (pages.freepage <= |pages.space| && pages.space[pages.freepage - 1] == pages.nextSpace)
  {
    hide TypesKept, Traced, Laid, LaySeq, Pages.Valid, OldOk, Inv, OnlyReachable, Orders, LayoutOk, Follows;
    gc.Parts();
    LaidNow(gc);
    var pages := gc.pages;
    FollowsLaid(gc.w, gc.f0, pages.space, pages.last, pages.freepage, gc.freewords, pages.allocatedPages, gc.m);
    if pages.space == gc.w.space { NoneCounted(gc); }
  }

  lemma NoneCounted(gc: Collector)
    requires gc.Ready() && gc.pages.space == gc.w.space
    ensures gc.pages.allocatedPages == 0
  {
    hide TypesKept, Traced, Inv, OnlyReachable, LayoutOk, QueueOk, OrderOk;
    gc.Parts();
    NoneOfOther(gc.w);
    CountNone(gc.pages.space, gc.w.into);
  }

  lemma FollowsLaid(w: Old, f0: nat, space: seq<nat>, last: nat, freepage: nat, freewords: nat, taken: nat, m: Made)
    requires OldOk(w) && Laid(w, f0, space, last, freepage, freewords, taken, m.copies, m.runs)
    ensures freepage <= w.first || (freepage <= |space| && space[freepage - 1] == w.into) || space == w.space
  {
    forall h | h in w.objects ensures Words(w, h) >= 1 { ObjectSize(w, h); }
    FollowsAll(w, f0, Srcs(m.copies));
  }

  lemma OrderlyNow(gc: Collector)
    requires Orderly(gc.w, gc.f0)
    requires Laid(gc.w, gc.f0, gc.pages.space, gc.pages.last, gc.pages.freepage, gc.freewords, gc.pages.allocatedPages,
      gc.m.copies, gc.m.runs)
    ensures NoAbut(gc.m.runs)
  {
    hide LaySeq, NoAbut;
    LaidOrderly(gc.w, gc.f0, gc.pages.space, gc.pages.last, gc.pages.freepage, gc.freewords, gc.pages.allocatedPages,
                gc.m.copies, gc.m.runs);
  }

  lemma RootPointer(w: Old, r: Root, p: nat)
    requires RootOk(w, r) && r == PtrRoot(p)
    ensures PointerOk(w, p)
  {
  }

  lemma TailNow(gc: Collector, p: nat)
    requires gc.Ready() && PointerOk(gc.w, p)
    ensures var pages := gc.pages;
      TailAt(gc.w, gc.types0, PtrRoot(p)) <==>
      (pages.first <= PageOf(p) <= pages.last && PageOf(p) < |pages.typePage| && pages.typePage[PageOf(p)] == CONTINUED)
  {
    hide TypesKept, Traced, Pages.Valid, OldOk, FwdOk, FromOk, CopiesOk, RunsOk, FrontierOk, PointerOk, TailAt;
    gc.Parts();
    gc.pages.Sizes();
    InvParts(gc.w, gc.mem[..], gc.pages.space, gc.pages.last, gc.freep, gc.freewords, gc.m);
    TailSeen(gc.w, gc.types0, gc.pages.typePage, gc.pages.last, p);
  }

  lemma OrderNext(gc: Collector, m1: Made, roots: seq<Root>, i: nat, p: nat)
    requires gc.Ready() && Grown(m1, gc.m) && FwdOk(gc.w, m1.fwd, m1.copies) && InOrder(gc.w, m1, roots, i)
    requires Added(m1.fwd, gc.m.fwd, Target(gc.w, p)) && i < |roots| && roots[i] == PtrRoot(p)
    ensures InOrder(gc.w, gc.m, roots, i + 1)
  {
    FwdNow(gc);
    LaidNow(gc);
    LaidParts(gc.w, gc.f0, gc.pages.space, gc.pages.last, gc.pages.freepage, gc.freewords, gc.pages.allocatedPages,
              gc.m);
    hide Collector.Ready, FwdOk, Grown, Added, Laid, LaySeq, Orders, Targets;
    SrcsAdded(gc.w, m1, gc.m, p);
    TargetsPlus(gc.w, roots, i);
  }

  lemma OrderOther(w: Old, m: Made, roots: seq<Root>, i: nat)
    requires i < |roots| && !roots[i].PtrRoot?
    ensures InOrder(w, m, roots, i + 1)
  {
  }

  lemma AllClean(gc: Collector)
    requires gc.Ready()
    ensures AllDone(gc.m) ==> Clean(gc.w, gc.m)
  {
    hide TypesKept, Traced, Pages.Valid, OldOk, FwdOk, FromOk, CopiesOk, RunsOk, PagesOk, FrontierOk, AllDone, Clean;
    if AllDone(gc.m) { DoneClean(gc.w, gc.mem[..], gc.m); }
  }

  lemma FilledIs(mem: seq<nat>, mem': seq<nat>, freep: nat, freewords: nat)
    requires freewords > 0 ==>
      freep < |mem| && freewords <= MAX_WORDS && mem' == mem[freep := MakeHeader(freewords, RAW)]
    requires freewords == 0 ==> mem' == mem
    ensures mem' == Finalized(mem, freep, freewords)
  {
  }

  lemma PagesForIs(words: nat)
    requires words >= 1
    ensures (words + PAGE_WORDS - 1) / PAGE_WORDS == PagesFor(words) >= 1
  {
  }

  lemma RoomFits(w: Old, h: nat, n: nat, freewords: nat)
    requires RoomFor(w, h, n, freewords)
    ensures n <= freewords && h + freewords <= |w.mem|
  {
  }

  lemma FreshIs(mem: seq<nat>, mem': seq<nat>, h: nat, n: nat, ty: nat)
    requires h < |mem| && 1 <= n <= MAX_WORDS && mem' == Cleared(mem[h := MakeHeader(n, ty)], h + 1, n - 1)
    ensures mem' == Fresh(mem, h, n, ty)
  {
  }

  lemma RootsMoved(w: Old, w': Old, roots: seq<Root>)
    requires RootsOk(w, roots) && w' == w.(space := w'.space, last := w'.last) && |w'.space| == |w.space|
    ensures RootsOk(w', roots)
  {
    RootsKept(w, w', roots);
  }

  lemma RootsGrew(w: Old, w': Old, roots: seq<Root>)
    requires RootsOk(w, roots) && w' == w.(mem := w'.mem, objects := w'.objects) && w.objects <= w'.objects
    ensures RootsOk(w', roots)
  {
    RootsKept(w, w', roots);
  }

  class Heap {
    const gc: Collector
    var roots: seq<Root>

    /** gc_init: an empty heap. */
    constructor (first: nat, heappages: nat, limit: nat)
      requires 1 <= first && NURSERY_PAGES < heappages && first + heappages <= limit
      ensures Proper({}) && Trailing() && WellHeaded({}) && roots == []
      ensures fresh(gc) && fresh(gc.pages) && fresh(gc.mem) && gc.freewords == 0
      ensures gc.pages.first == first && gc.pages.limit == limit && gc.pages.last == first + heappages - 1
      ensures gc.pages.currentSpace == 1 && gc.pages.order == [] && gc.pages.q == 0
      ensures gc.pages.nurseryFirst == first && gc.pages.nurseryLast == first + NURSERY_PAGES - 1
      ensures forall p :: 0 <= p < limit ==>
        gc.pages.space[p] == if first <= p < first + NURSERY_PAGES then NURSERY else 0
    {
      var pages := new Pages(first, heappages, limit);
      var mem := new nat[PAGE_WORDS * limit];
      var gc := new Collector(pages, mem);
      this.gc, roots := gc, [];
      new;
      pages.Sizes();
    }

    /** The heap with these objects. */
    ghost function Now(objects: set<nat>): Old
      reads gc, gc.pages, gc.mem
    {
      Old(gc.mem[..], objects, gc.pages.space, gc.pages.currentSpace, if gc.pages.currentSpace == 1 then 2 else 1,
          gc.pages.first, gc.pages.last, gc.pages.nurseryFirst, gc.pages.nurseryLast)
    }

    /** Between collections: proper tables, objects and roots, and no page of the other space. */
    ghost predicate Proper(objects: set<nat>)
      reads this, gc, gc.pages, gc.mem
    {
      && gc.pages.Valid() && gc.mem.Length == PAGE_WORDS * gc.pages.limit &&
        gc.pages.currentSpace == gc.pages.nextSpace && !gc.pages.inScavenge
      && (gc.pages.currentSpace == 1 || gc.pages.currentSpace == 2)
      && OldOk(Now(objects)) && FrontierFree(Now(objects), gc.freep, gc.freewords) && RootsOk(Now(objects), roots)
    }

    /** gc_evacuate of a root. */
    method Root(p: nat, ghost i: nat, ghost roots0: seq<GcHeap.Root>) returns (ok: bool, q: nat)
      requires gc.Ready() && i < |roots0| && RootOk(gc.w, roots0[i]) && p in RootWords(roots0[i]) &&
        gc.rootSet == RootSet(roots0)
      modifies gc`freep, gc`freewords, gc`m, gc.mem, gc.pages`last, gc.pages`freepage, gc.pages`space,
        gc.pages`typePage, gc.pages`allocatedPages,
        gc.pages`queued, gc.pages`link, gc.pages`head, gc.pages`tail, gc.pages`order
      ensures Fits(gc.w, gc.f0) ==> ok
      ensures ok ==>
        gc.Ready() && Grown(old(gc.m), gc.m) && Untouched(old(gc.m), gc.m, 0, 0) && Settled(gc.w, gc.m.fwd, p) &&
        q == Image(gc.w, gc.m.fwd, p) && Added(old(gc.m.fwd), gc.m.fwd, Target(gc.w, p))
    {
      hide TypesKept, Traced, Pages.Valid, Inv, PageOrder, OnlyReachable, OldOk, Grown, Collector.Ready,
        Collector.Tied, LayoutOk,
        FromOk, FwdOk, CopiesOk, RunsOk, PagesOk, FrontierOk,
        RootDone, RootOk, PartDone, Movable, Settled, Image, IsObject, ObjectOf, Reachable, PointerOk, RootSet,
          RootWords, ValueSlot, NoPointers, Untouched;
      RootReached(gc.w, roots0, i, p);
      RootMovable(gc.w, gc.m, roots0[i], p);
      RootCaused(gc.w, gc.m, roots0, i, p);
      ok, q := gc.Move(p);
    }

    /** Pointer o of a root value becomes its image. */
    method Part(v: seq<nat>, v0: seq<nat>, ghost lo: nat, o: nat, ghost i: nat, ghost roots0: seq<GcHeap.Root>,
                ghost m0: Made) returns (ok: bool, v': seq<nat>)
      requires gc.Ready() && i < |roots0| && roots0[i] == ValueRoot(v) && RootOk(gc.w, roots0[i]) &&
        gc.rootSet == RootSet(roots0)
      requires PartDone(gc.w, gc.m.fwd, v, v0, lo) && |v| == |v0| == VALUE_WORDS && lo <= o < VALUE_WORDS &&
        ValueSlot(v[0], o) && NoPointers(v[0], lo, o)
      requires Grown(m0, gc.m) && Untouched(m0, gc.m, 0, 0)
      modifies gc`freep, gc`freewords, gc`m, gc.mem, gc.pages`last, gc.pages`freepage, gc.pages`space,
        gc.pages`typePage, gc.pages`allocatedPages,
        gc.pages`queued, gc.pages`link, gc.pages`head, gc.pages`tail, gc.pages`order
      ensures Fits(gc.w, gc.f0) ==> ok
      ensures ok ==>
        gc.Ready() && Grown(m0, gc.m) && Untouched(m0, gc.m, 0, 0) && PartDone(gc.w, gc.m.fwd, v, v', o + 1) &&
        |v'| == VALUE_WORDS
    {
      hide TypesKept, Traced, Pages.Valid, Inv, PageOrder, OnlyReachable, OldOk, Grown, Collector.Ready,
        Collector.Tied, LayoutOk,
        FromOk, FwdOk, CopiesOk, RunsOk, PagesOk, FrontierOk,
        RootDone, RootOk, PartDone, Movable, Settled, Image, IsObject, ObjectOf, Reachable, PointerOk, RootSet,
          RootWords, ValueSlot, NoPointers, Untouched;
      v' := v0;
      PartHere(gc.w, gc.m.fwd, v, v0, lo, o);
      RootWord(v, o);
      FwdNow(gc);
      ghost var m1 := gc.m;
      var q;
      ok, q := Root(v0[o], i, roots0);
      if !ok { return; }
      GrownThen(m0, m1, gc.m);
      UntouchedThen(m0, m1, gc.m, 0, 0, 0);
      PartPlus(gc.w, m1, gc.m, v, v0, lo, o, q);
      v' := v0[o := q];
    }

    /** gc_scan_value of a root value. */
    method ScanRootValue(v: seq<nat>, ghost i: nat, ghost roots0: seq<GcHeap.Root>) returns (ok: bool, v': seq<nat>)
      requires gc.Ready() && i < |roots0| && roots0[i] == ValueRoot(v) && RootOk(gc.w, roots0[i]) &&
        gc.rootSet == RootSet(roots0) && |v| == VALUE_WORDS
      modifies gc`freep, gc`freewords, gc`m, gc.mem, gc.pages`last, gc.pages`freepage, gc.pages`space,
        gc.pages`typePage, gc.pages`allocatedPages,
        gc.pages`queued, gc.pages`link, gc.pages`head, gc.pages`tail, gc.pages`order
      ensures Fits(gc.w, gc.f0) ==> ok
      ensures ok ==>
        gc.Ready() && Grown(old(gc.m), gc.m) && Untouched(old(gc.m), gc.m, 0, 0) &&
        RootDone(gc.w, gc.m.fwd, ValueRoot(v), ValueRoot(v'))
    {
      hide TypesKept, Traced, Pages.Valid, Inv, PageOrder, OnlyReachable, OldOk, Grown, Collector.Ready,
        Collector.Tied, LayoutOk,
        FromOk, FwdOk, CopiesOk, RunsOk, PagesOk, FrontierOk,
        RootDone, RootOk, PartDone, Movable, Settled, Image, IsObject, ObjectOf, Reachable, PointerOk, RootSet,
          RootWords, ValueSlot, NoPointers, Untouched;
      gc.Parts();
      GrownSelf(gc.m);
      UntouchedSelf(gc.m, 0);
      ghost var m0 := gc.m;
      v', ok := v, true;
      TagSlots(v[0]);
      PartStart(gc.w, gc.m.fwd, v);
      var tag := Tag(v[0]);
      if tag == VAL_CONS {
        ok, v' := Part(v, v', 0, 1, i, roots0, m0);
        if !ok { return; }
        ok, v' := Part(v, v', 2, 2, i, roots0, m0);
        if !ok { return; }
        PartEnd(gc.w, gc.m.fwd, v, v', 3);
      } else if tag == VAL_LAMBDA {
        ok, v' := Part(v, v', 0, 1, i, roots0, m0);
        if !ok { return; }
        ok, v' := Part(v, v', 2, 3, i, roots0, m0);
        if !ok { return; }
        PartEnd(gc.w, gc.m.fwd, v, v', 4);
      } else if tag == VAL_VECTOR || tag == VAL_STRING || tag == VAL_ERROR {
        ok, v' := Part(v, v', 0, 1, i, roots0, m0);
        if !ok { return; }
        PartEnd(gc.w, gc.m.fwd, v, v', 2);
      } else {
        PartEnd(gc.w, gc.m.fwd, v, v', 0);
      }
    }

    /** gc_scan_roots: every root is replaced by its image.  A root that points into the tail of an
        object of several pages stops the program. */
    method ScanRoots() returns (ok: bool)
      requires gc.Ready() && RootsOk(gc.w, roots) && gc.rootSet == RootSet(roots)
      modifies this`roots, gc`freep, gc`freewords, gc`m, gc.mem, gc.pages`last, gc.pages`freepage, gc.pages`space,
        gc.pages`typePage, gc.pages`allocatedPages,
        gc.pages`queued, gc.pages`link, gc.pages`head, gc.pages`tail, gc.pages`order
      ensures Fits(gc.w, gc.f0) && !ok ==> Tails(gc.w, gc.types0, old(roots))
      ensures ok ==> !Tails(gc.w, gc.types0, old(roots))
      ensures ok ==>
        gc.Ready() && Grown(old(gc.m), gc.m) && Untouched(old(gc.m), gc.m, 0, 0) &&
        RootsDone(gc.w, gc.m.fwd, old(roots), roots, |old(roots)|)
      ensures ok && old(gc.m) == Made([], [], map[], []) ==> InOrder(gc.w, gc.m, old(roots), |old(roots)|)
    {
      hide TypesKept, Traced, Pages.Valid, Inv, PageOrder, OnlyReachable, OldOk, Grown, Collector.Ready,
        Collector.Tied, LayoutOk,
        FromOk, FwdOk, CopiesOk, RunsOk, PagesOk, FrontierOk,
        RootDone, RootOk, PartDone, Movable, Settled, Image, IsObject, ObjectOf, Reachable, PointerOk, RootSet,
          RootWords, ValueSlot, NoPointers, RootsDone, RootsOk, Untouched;
      ghost var roots0, m0 := roots, gc.m;
      gc.Parts();
      GrownSelf(gc.m);
      UntouchedSelf(gc.m, 0);
      RootsStart(gc.w, gc.m.fwd, roots);
      InOrderStart(gc.w, roots);
      var i := 0;
      while i < |roots|
        invariant i <= |roots| == |roots0| && gc.Ready() && Grown(m0, gc.m) && Untouched(m0, gc.m, 0, 0) &&
          RootsDone(gc.w, gc.m.fwd, roots0, roots, i)
        invariant m0 == Made([], [], map[], []) ==> InOrder(gc.w, gc.m, roots0, i)
        invariant forall k :: 0 <= k < i ==> !TailAt(gc.w, gc.types0, roots0[k])
      {
        RootHere(gc.w, gc.m.fwd, roots0, roots, i);
        FwdNow(gc);
        ghost var m1 := gc.m;
        var r;
        match roots[i] {
        case PtrRoot(p) =>
          gc.Parts();
          gc.pages.Sizes();
          var page := p / PAGE_BYTES;
          RootPointer(gc.w, roots0[i], p);
          TailNow(gc, p);
          if p != 0 && gc.pages.first <= page <= gc.pages.last && gc.pages.typePage[page] == CONTINUED { return false; }
          PointerWord(p);
          var q;
          ok, q := Root(p, i, roots0);
          if !ok { return; }
          PointerDone(gc.w, gc.m.fwd, p, q);
          if InOrder(gc.w, m1, roots0, i) { OrderNext(gc, m1, roots0, i, p); }
          r := PtrRoot(q);
        case ValueRoot(v) =>
          ValueWords(gc.w, v);
          var v';
          ok, v' := ScanRootValue(v, i, roots0);
          if !ok { return; }
          r := ValueRoot(v');
          OrderOther(gc.w, gc.m, roots0, i);
        }
        GrownThen(m0, m1, gc.m);
        UntouchedThen(m0, m1, gc.m, 0, 0, 0);
        RootsPlus(gc.w, m1, gc.m, roots0, roots, i, r);
        roots := roots[i := r];
        i := i + 1;
      }
      ok := true;
    }

    /** The spaces are swapped and nothing has been copied. */
    ghost method Begin(was: Old)
      requires gc.pages.Valid() && gc.mem.Length == PAGE_WORDS * gc.pages.limit && !gc.pages.inScavenge &&
        gc.freewords == 0 && gc.pages.order == []
      requires OldOk(was) && was.mem == gc.mem[..] && was.space == gc.pages.space &&
        was.from == gc.pages.currentSpace && was.into == gc.pages.nextSpace
      requires was.first == gc.pages.first && was.last == gc.pages.last &&
        was.nurseryFirst == gc.pages.nurseryFirst && was.nurseryLast == gc.pages.nurseryLast
      requires |was.space| == gc.pages.limit
      requires gc.pages.allocatedPages == 0
      modifies gc`w, gc`m, gc`rootSet, gc`f0, gc`types0
      ensures gc.f0 == gc.pages.freepage && gc.types0 == gc.pages.typePage
      ensures gc.Ready() && gc.w == was && gc.m == Made([], [], map[], []) && gc.rootSet == RootSet(roots)
    {
      hide TypesKept, Traced, Pages.Valid, Inv, OldOk, OnlyReachable, Traced;
      gc.w, gc.m, gc.rootSet, gc.f0 := was, Made([], [], map[], []), RootSet(roots), gc.pages.freepage;
      gc.types0 := gc.pages.typePage;
      gc.pages.Sizes();
      TypesSame(was.space, gc.types0, was.from, was.into);
      TracedStart(was, gc.f0, gc.rootSet);
      InvStart(was, gc.freep, gc.rootSet);
      gc.TiedIs([]);
      gc.ReadyIs();
    }

    /** Objects do not begin in the tails of others. */
    ghost predicate WellHeaded(objects: set<nat>)
      reads gc, gc.pages
    {
      Headed(gc.pages.typePage, objects, gc.freep, gc.freewords)
    }

    /** Then no root stops a collection. */
    lemma NoTailRoot(objects: set<nat>)
      requires Proper(objects) && WellHeaded(objects)
      ensures !TailRoot()
    {
      hide OldOk, Headed, QueueOk, OrderOk, Counted, FrontierFree;
      NoTails(Now(objects), gc.pages.typePage, gc.freep, gc.freewords, roots);
    }

    /** The reservation has room for twice the heap, six times the pages in use, and 1024 pages. */
    ghost predicate Reserved()
      reads gc.pages
    {
      var pages := gc.pages;
      pages.first <= pages.last &&
      pages.first + 2 * (pages.last + 1 - pages.first + 3 * pages.allocatedPages + 512) <= |pages.space|
    }

    lemma Reserving(objects: set<nat>)
      requires Proper(objects) && Reserved()
      ensures Fits(Now(objects), gc.pages.freepage)
    {
      hide OldOk, RootsOk, FrontierFree, Fits, QueueOk, OrderOk, Counted;
      ReservedFits(Now(objects), gc.pages.freepage, gc.pages.allocatedPages);
    }

    /** From the page where the search for pages goes on all pages are free, and they are enough for
        all objects. */
    ghost predicate Spacious(objects: set<nat>)
      reads gc, gc.pages, gc.mem
    {
      Roomy(Now(objects), gc.pages.freepage)
    }

    /** The page before the one where the search goes on is in use, or there is none, or no page is in
        use: so the search leaves it. */
    ghost predicate Trailing()
      reads gc.pages
    {
      var pages := gc.pages;
      || pages.freepage <= pages.first || pages.allocatedPages == 0 || pages.freepage > |pages.space|
      || pages.space[pages.freepage - 1] == pages.currentSpace || pages.space[pages.freepage - 1] == NURSERY
    }

    /** The beginning of collect: the last page is finished, and the spaces are swapped. */
    method Flip(ghost objects: set<nat>)
      requires Proper(objects)
      modifies gc, gc.mem, gc.pages
      ensures gc.Ready() && gc.m == Made([], [], map[], []) && gc.rootSet == RootSet(roots) && gc.pages.q == 0
      ensures SameObjects(old(Now(objects)), gc.w) && RootsOk(gc.w, roots)
      ensures gc.f0 == old(gc.pages.freepage) && Tails(gc.w, gc.types0, roots) == old(TailRoot())
      ensures (gc.w.from == 1 && gc.w.into == 2) || (gc.w.from == 2 && gc.w.into == 1)
      ensures old(Trailing()) || old(Orderly(Now(objects), gc.pages.freepage)) ==> Orderly(gc.w, gc.f0)
      ensures old(Spacious(objects)) || old(Reserved()) || old(Fits(Now(objects), gc.pages.freepage)) ==>
        Fits(gc.w, gc.f0)
    {
      hide TypesKept, Traced, Pages.Valid, Inv, PageOrder, OldOk, Collector.Ready, Collector.Tied, LayoutOk, RootOk,
        RootSet, RootsOk, FrontierFree, SameObjects, NewHeap, Roomy, Reserved, Trailing, Fits, Orderly, Words, Tails;
      ghost var before := Now(objects);
      if Trailing() { TrailingNow(before); }
      if Reserved() { Reserving(objects); }
      FilledHeap(before, gc.freep, gc.freewords);
      FrontierIs(before, gc.freep, gc.freewords);
      if gc.freewords != 0 {
        gc.Write(gc.freep, MakeHeader(gc.freewords, RAW));
        gc.freewords := 0;
      }
      gc.pages.Sizes();
      ghost var was := before.(mem := gc.mem[..]);
      NoneOfOther(was);
      gc.pages.Flip();
      Conditions(before, was, gc.pages.freepage);
      Begin(was);
      RootsSame(before, was, roots);
      TailsSame(was, old(Now({})), gc.types0, roots);
    }

    lemma PlacesNow()
      requires gc.Ready()
      ensures SamePlaces(gc.w, Now({}))
    {
      hide Inv, QueueOk, OrderOk, Counted;
    }

    /** The spaces are swapped, and what the roots reach is copied. */
    method CopyAll(ghost objects: set<nat>)
      returns (ok: bool, ghost stuck: bool, ghost behind: bool, ghost trace: seq<State>)
      requires Proper(objects)
      modifies this`roots, gc, gc.mem, gc.pages
      ensures ok ==> gc.Ready() && gc.rootSet == RootSet(old(roots)) && RootsOk(gc.w, old(roots))
      ensures ok ==> (gc.w.from == 1 && gc.w.into == 2) || (gc.w.from == 2 && gc.w.into == 1)
      ensures ok ==> SameObjects(old(Now(objects)), gc.w) && RootsDone(gc.w, gc.m.fwd, old(roots), roots, |old(roots)|)
      ensures ok ==> (AllDone(gc.m) <==> !stuck && !behind) && (!stuck && !behind ==> Clean(gc.w, gc.m))
      ensures old(Trailing()) || old(Orderly(Now(objects), gc.pages.freepage)) ==> !stuck && !behind
      ensures old(Spacious(objects)) || old(Reserved()) || old(Fits(Now(objects), gc.pages.freepage)) ==>
        (ok <==> !old(TailRoot()))
      ensures ok ==> trace != [] && Begun(gc.w, old(gc.pages.freepage), old(roots), trace[0].m, trace[0].freep)
      ensures ok ==> var s := Last(trace); s.m == gc.m && stuck == (s.page != 0) && behind == s.p.behind
      ensures ok ==>
        Drained(gc.w, old(gc.pages.freepage), RootSet(old(roots)), trace[0].m, trace[0].freep, trace)
    {
      hide TypesKept, Traced, Pages.Valid, Inv, PageOrder, OnlyReachable, OldOk, Grown, Collector.Ready,
        Collector.Tied, LayoutOk,
        FromOk, FwdOk, CopiesOk, RunsOk, PagesOk, FrontierOk,
        RootDone, RootOk, Reachable, RootSet, RootsDone, RootsOk, FrontierFree, SameObjects, Isomorphic, AllDone,
          NewHeap, NoAbut, Untouched, Clean, Roomy, Reserved, Tails, Trailing, Fits, Orderly, Begun, InOrder, Laid,
            Drained,
        Words;
      ok, stuck, behind := false, false, false;
      ghost var roots0 := roots;
      Flip(objects);
      ghost var was := gc.w;
      trace := [];
      ok := ScanRoots();
      if !ok { return; }
      ghost var m1 := gc.m;
      FwdNow(gc);
      NoneScanned(gc.m);
      BegunIs(gc, roots0);
      ghost var freep1 := gc.freep;
      ok, stuck, behind, trace := gc.Drain();
      if !ok {
        stuck, behind := false, false;
        return;
      }
      TraceFirst(gc.w, gc.f0, gc.rootSet, m1, freep1, trace);
      LaidNow(gc);
      if Orderly(was, gc.f0) { OrderlyNow(gc); }
      AllClean(gc);
      RootsGrown(was, m1, gc.m, roots0, roots);
    }

    /** collect, from the flip on: the roots are scanned, the copies drained, and the space that was
        left is released.  The new heap is a copy of what the roots reached, sharing and cycles
        included, exactly when no copy is left that points to an old object; then it is a proper heap
        again.  Every copy has been scanned exactly when the drain was not cut short in one of its two
        ways, which cannot be when the search was trailing, as it is in every heap that has come about by
        allocations and collections.  A spacious heap has room for every order of copying; then the
        collection fails only for a root that points into the tail of an object. */
    method Collect(ghost objects: set<nat>)
      returns (ok: bool, ghost stuck: bool, ghost behind: bool, ghost trace: seq<State>)
      requires Proper(objects)
      modifies this`roots, gc, gc.mem, gc.pages
      ensures ok ==> SameObjects(old(Now(objects)), gc.w) && RootsDone(gc.w, gc.m.fwd, old(roots), roots, |old(roots)|)
      ensures ok ==> (Isomorphic(gc.w, Now(gc.m.fwd.Values), gc.m.fwd, RootSet(old(roots))) <==> Clean(gc.w, gc.m))
      ensures ok && Clean(gc.w, gc.m) ==> Proper(gc.m.fwd.Values)
      ensures ok ==> (AllDone(gc.m) <==> !stuck && !behind) && (!stuck && !behind ==> Clean(gc.w, gc.m))
      ensures old(Trailing()) ==> !stuck && !behind
      ensures old(Trailing()) && ok ==>
        && Isomorphic(gc.w, Now(gc.m.fwd.Values), gc.m.fwd, RootSet(old(roots))) && Proper(gc.m.fwd.Values)
      ensures ok ==> Trailing() && WellHeaded(gc.m.fwd.Values) && SamePlaces(gc.w, Now(gc.m.fwd.Values))
      ensures old(Spacious(objects)) || old(Reserved()) || old(Fits(Now(objects), gc.pages.freepage)) ==>
        (ok <==> !old(TailRoot()))
      ensures old(Reserved()) && old(WellHeaded(objects)) ==> ok
      ensures old(Orderly(Now(objects), gc.pages.freepage)) ==> !stuck && !behind
      ensures ok ==> trace != [] && Begun(gc.w, old(gc.pages.freepage), old(roots), trace[0].m, trace[0].freep)
      ensures ok ==> var s := Last(trace); s.m == gc.m && stuck == (s.page != 0) && behind == s.p.behind
      ensures ok ==>
        Drained(gc.w, old(gc.pages.freepage), RootSet(old(roots)), trace[0].m, trace[0].freep, trace)
    {
      hide TypesKept, Traced, Pages.Valid, Inv, PageOrder, OnlyReachable, OldOk, Collector.Ready, Collector.Tied,
        RootSet, RootsDone, RootsOk, FrontierFree, SameObjects, Isomorphic, AllDone, NewHeap, Clean, Roomy, Reserved,
          WellHeaded, Tails, Trailing, Fits, Orderly, Begun, Drained, Heap.Proper;
      ghost var roots0 := roots;
      if WellHeaded(objects) { NoTailRoot(objects); }
      ok, stuck, behind, trace := CopyAll(objects);
      if !ok { return; }
      FollowsNow(gc);
      PlacesNow();
      Finish(roots0);
      TrailingIs();
    }

    /** Pages have just been taken. */
    lemma TrailingTaken(space0: seq<nat>, page: nat, n: nat)
      requires gc.pages.space == Tagged(space0, page, n, gc.pages.nextSpace) && page + n <= |space0| && n >= 1
      requires gc.pages.currentSpace == gc.pages.nextSpace
      requires gc.pages.freepage == After(page, n, gc.pages.first, gc.pages.last)
      ensures Trailing()
    {
    }

    lemma TrailingIs()
      requires var pages := gc.pages;
        || pages.freepage <= pages.first || pages.allocatedPages == 0
        || (pages.freepage <= |pages.space| && pages.space[pages.freepage - 1] == pages.currentSpace)
      ensures Trailing()
    {
    }

    lemma TrailingNow(w: Old)
      requires gc.pages.Valid() && OldOk(w) && w.space == gc.pages.space && w.from == gc.pages.currentSpace
      requires gc.pages.currentSpace == gc.pages.nextSpace && Trailing()
      requires w.first == gc.pages.first && w.last == gc.pages.last
      ensures Orderly(w, gc.pages.freepage)
    {
      hide OldOk, Orderly, QueueOk, OrderOk;
      TrailingOrders(w, gc.pages.freepage, gc.pages.allocatedPages);
    }

    /** Some root points into the tail of an object. */
    ghost predicate TailRoot()
      reads this, gc, gc.pages, gc.mem
    {
      Tails(Now({}), gc.pages.typePage, roots)
    }

    /** A proper heap, up to the frontier. */
    ghost predicate Loose(objects: set<nat>)
      reads this, gc, gc.pages, gc.mem
    {
      && gc.pages.Valid() && gc.mem.Length == PAGE_WORDS * gc.pages.limit &&
        gc.pages.currentSpace == gc.pages.nextSpace && !gc.pages.inScavenge
      && (gc.pages.currentSpace == 1 || gc.pages.currentSpace == 2) && OldOk(Now(objects)) &&
        RootsOk(Now(objects), roots)
    }

    /** Half of the pages would be in use: a collection is due first. */
    ghost predicate Due(words: nat)
      reads gc, gc.pages
    {
      words > gc.freewords && gc.pages.allocatedPages + PagesFor(words) >= (gc.pages.last + 1 - gc.pages.first) / 2
    }

    lemma DueHalf(words: nat)
      ensures Due(words) ==>
        words > gc.freewords &&
        2 * (gc.pages.allocatedPages + PagesFor(words)) >= gc.pages.last - gc.pages.first
    {
    }

    /** Where so many words are put: behind the frontier or on the pages that the search finds. */
    ghost function PlaceFor(words: nat): Option<nat>
      requires gc.pages.first <= gc.pages.last
      reads gc, gc.pages
    {
      if words <= gc.freewords then Some(gc.freep)
      else
        var f := gc.pages.Allocated(PagesFor(words));
        if f.None? then None else Some(PAGE_WORDS * f.value.page)
    }

    /** Between collections an allocation within the reservation finds room. */
    lemma PlaceFound(words: nat, objects: set<nat>)
      requires Proper(objects) && words >= 1
      requires gc.pages.first <= gc.pages.last
      requires MayGrow(gc.pages.first, gc.pages.last, |gc.pages.space|, gc.pages.allocatedPages, PagesFor(words))
      ensures PlaceFor(words).Some?
    {
      hide OldOk, RootsOk, FrontierFree, QueueOk, OrderOk, Counted, Allocates, MayGrow, PagesFor;
      var pages := gc.pages;
      PagesForIs(words);
      Finds(pages.space, pages.freepage, pages.first, pages.last, pages.allocatedPages, PagesFor(words),
        pages.currentSpace, pages.nextSpace, pages.last + 1);
    }

    lemma HeadedLess(objects: set<nat>, freewords: nat)
      requires gc.freewords == 0
      ensures Headed(gc.pages.typePage, objects, gc.freep, freewords) ==> WellHeaded(objects)
    {
    }

    lemma PagesInUse(objects: set<nat>)
      requires Proper(objects)
      ensures gc.pages.first <= gc.pages.last
    {
    }

    /** The loop of gcalloc_internal, which goes round once at most: room at the frontier or on pages
        that were free. */
    method MakeRoom(words: nat, ghost objects: set<nat>) returns (ok: bool, due: bool)
      requires Proper(objects) && 1 <= words
      modifies gc`freep, gc`freewords, gc.mem, gc.pages
      ensures gc.pages.first <= old(gc.pages.last)
      ensures old(Trailing()) && (ok || due) ==> Trailing()
      ensures old(WellHeaded(objects)) && (ok || due) ==> WellHeaded(objects)
      ensures due <==> old(Due(words))
      ensures ok <==> !old(Due(words)) && old(PlaceFor(words)).Some?
      ensures ok ==> Some(gc.freep) == old(PlaceFor(words))
      ensures due ==> !ok && Proper(objects) && SameObjects(old(Now(objects)), Now(objects))
      ensures ok ==> Loose(objects) && RoomFor(Now(objects), gc.freep, words, gc.freewords) && gc.freep < gc.mem.Length
      ensures ok ==> SameObjects(old(Now(objects)).(space := gc.pages.space, last := gc.pages.last), Now(objects))
      ensures ok && gc.pages.allocatedPages != old(gc.pages.allocatedPages) ==>
        2 * gc.pages.allocatedPages < old(gc.pages.last) + 1 - gc.pages.first
    {
      hide TypesKept, Traced, Pages.Valid, Inv, PageOrder, OnlyReachable, OldOk, Collector.Ready, Collector.Tied,
        RootOk, RootsOk,
        FrontierFree, SameObjects, Isomorphic, Clean, Tagged,
        ApartFromAll, Agree, Words, Type, MakeHeader, FreeTag, PagesFor, Finalized,
          Fresh, OpenPage, RoomFor, AllInMemory, Trailing, After, Headed;
      ok, due := false, false;
      gc.pages.Sizes();
      if words > gc.freewords { PagesForIs(words); }
      ghost var before := Now(objects);
      SameSelf(before);
      FrontierIs(before, gc.freep, gc.freewords);
      if words > gc.freewords {
        FilledHeap(before, gc.freep, gc.freewords);
        if gc.freewords != 0 { gc.Write(gc.freep, MakeHeader(gc.freewords, RAW)); }
        gc.freewords := 0;
        ghost var w := before.(mem := gc.mem[..]);
        FilledIs(before.mem, gc.mem[..], gc.freep, old(gc.freewords));
        RootsSame(before, w, roots);
        var n := (words + PAGE_WORDS - 1) / PAGE_WORDS;
        PagesForIs(words);
        var heappages := gc.pages.last + 1 - gc.pages.first;
        if gc.pages.allocatedPages + n >= heappages / 2 {
          due := true;
          HeadedLess(objects, old(gc.freewords));
          NoRoom(w, gc.freep);
          return;
        }
        var page;
        ghost var space0, types0 := gc.pages.space, gc.pages.typePage;
        ok, page := gc.pages.AllocatePage(n);
        if !ok { return; }
        TrailingTaken(space0, page, n);
        gc.pages.Sizes();
        if old(WellHeaded(objects)) {
          HeadedTaken(w, types0, gc.pages.typePage, objects, old(gc.freep), old(gc.freewords), gc.pages.nextSpace, page,
            PAGE_WORDS * n);
        }
        RoomTaken(w, page, words, gc.pages.last);
        RootsMoved(w, w.(space := gc.pages.space, last := gc.pages.last), roots);
        SameTagged(before, w, gc.pages.space, gc.pages.last);
        gc.freep, gc.freewords := PAGE_WORDS * page, PAGE_WORDS * n;
      } else {
        RoomLeft(before, gc.freep, words, gc.freewords);
      }
      ok := true;
    }

    /** The words of an object with a body of so many bytes. */
    function NeededWords(bytes: nat): nat {
      (bytes + WORD_BYTES - 1) / WORD_BYTES + 1
    }

    /** The words behind the header hold the bytes, and one less would not. */
    lemma BytesHeld(bytes: nat)
      requires bytes >= 1
      ensures (bytes + WORD_BYTES - 1) / WORD_BYTES + 1 == NeededWords(bytes) >= 2
      ensures WORD_BYTES * (NeededWords(bytes) - 2) < bytes <= WORD_BYTES * (NeededWords(bytes) - 1)
    {
    }

    /** gcalloc_internal between collections: a cleared object of this type in room that was free, and
        the heap stays proper.  When half of the pages would be in use, a collection is due first. */
    method Allocate(bytes: nat, ty: nat, ghost objects: set<nat>) returns (ok: bool, due: bool, body: nat)
      requires Proper(objects) && bytes >= 1 && ty <= CALLFRAME_ARRAY &&
        (ty == VALUE ==> bytes >= VALUE_WORDS * WORD_BYTES)
      modifies gc`freep, gc`freewords, gc.mem, gc.pages
      ensures gc.pages.first <= old(gc.pages.last)
      ensures old(Trailing()) && (ok || due) ==> Trailing()
      ensures old(WellHeaded(objects)) && due ==> WellHeaded(objects)
      ensures var n := NeededWords(bytes);
        && (due <==> n <= MAX_WORDS && old(Due(n)))
        && (ok <==> n <= MAX_WORDS && !old(Due(n)) && old(PlaceFor(n)).Some?)
        && (ok ==> Some(body - 1) == old(PlaceFor(n)) && body + n - 1 <= gc.mem.Length)
      ensures ok ==> forall i :: body <= i < body + NeededWords(bytes) - 1 ==> gc.mem[i] == 0
      ensures due ==> !ok && Proper(objects) && SameObjects(old(Now(objects)), Now(objects))
      ensures ok ==> body >= 1 && body - 1 !in objects && Proper(objects + {body - 1})
      ensures ok && old(WellHeaded(objects)) ==> WellHeaded(objects + {body - 1})
      ensures ok ==> SameObjects(old(Now(objects)).(space := gc.pages.space, last := gc.pages.last), Now(objects))
      ensures ok ==>
        Type(Now(objects), body - 1) == ty && Words(Now(objects), body - 1) == NeededWords(bytes)
      ensures due ==> NeededWords(bytes) > old(gc.freewords)
      ensures due ==>
        2 * (old(gc.pages.allocatedPages) + PagesFor(NeededWords(bytes))) >= old(gc.pages.last) - gc.pages.first
      ensures WORD_BYTES * (NeededWords(bytes) - 2) < bytes <= WORD_BYTES * (NeededWords(bytes) - 1)
      ensures ok && gc.pages.allocatedPages != old(gc.pages.allocatedPages) ==>
        2 * gc.pages.allocatedPages < old(gc.pages.last) + 1 - gc.pages.first
    {
      hide TypesKept, Traced, Pages.Valid, Inv, PageOrder, OnlyReachable, OldOk, Collector.Ready, Collector.Tied,
        RootOk, RootsOk,
        FrontierFree, SameObjects, Isomorphic, Clean, Tagged,
        ApartFromAll, Agree, Words, Type, MakeHeader, FreeTag, PagesFor, Finalized,
          Fresh, OpenPage, RoomFor, AllInMemory, Headed, NeededWords, Heap.Due, Heap.PlaceFor;
      ok, due, body := false, false, 0;
      var words := (bytes + WORD_BYTES - 1) / WORD_BYTES + 1;
      BytesHeld(bytes);
      DueHalf(words);
      PagesInUse(objects);
      if words > MAX_WORDS { return; }
      ghost var before := Now(objects);
      ok, due := MakeRoom(words, objects);
      if !ok { return; }
      ghost var w, h := Now(objects), gc.freep;
      RoomFits(w, h, words, gc.freewords);
      body := gc.freep + 1;
      ghost var freewords0 := gc.freewords;
      if WellHeaded(objects) { HeadedPlus(w, gc.pages.typePage, objects, h, words, freewords0); }
      gc.Bump(words, ty);
      FreshIs(w.mem, gc.mem[..], h, words, ty);
      Bumped(w, h, words, ty, freewords0, gc.mem[..]);
      ObjectsInMemory(before, gc.pages.space, gc.pages.last);
      SameThen(before.(space := gc.pages.space, last := gc.pages.last), w, w.(mem := gc.mem[..]));
      RootsGrew(w, w.(mem := gc.mem[..], objects := objects + {h}), roots);
      WordsOnly(w.(mem := gc.mem[..]), objects + {h});
    }

    /** The end of collect: the pages of the space that was left are free again. */
    method Finish(ghost roots0: seq<GcHeap.Root>)
      requires gc.Ready() && gc.rootSet == RootSet(roots0) && RootsOk(gc.w, roots0) &&
        RootsDone(gc.w, gc.m.fwd, roots0, roots, |roots0|)
      requires (gc.w.from == 1 && gc.w.into == 2) || (gc.w.from == 2 && gc.w.into == 1)
      modifies gc.pages`space, gc.pages`typePage, gc.pages`currentSpace
      ensures gc.pages.currentSpace == gc.pages.nextSpace && |gc.pages.space| == |old(gc.pages.space)|
      ensures forall p :: 0 <= p < |gc.pages.space| && old(gc.pages.space)[p] == gc.pages.nextSpace ==>
        gc.pages.space[p] == gc.pages.nextSpace
      ensures Isomorphic(gc.w, Now(gc.m.fwd.Values), gc.m.fwd, RootSet(roots0)) <==> Clean(gc.w, gc.m)
      ensures Clean(gc.w, gc.m) ==> Proper(gc.m.fwd.Values)
      ensures WellHeaded(gc.m.fwd.Values)
    {
      hide TypesKept, Traced, Pages.Valid, Inv, PageOrder, OnlyReachable, OldOk, Grown, Collector.Ready,
        Collector.Tied, LayoutOk,
        FromOk, FwdOk, CopiesOk, RunsOk, PagesOk, FrontierOk,
        RootDone, RootOk, Reachable, RootSet, RootsDone, RootsOk, FrontierFree, SameObjects, Isomorphic, AllDone,
          NewHeap, NoAbut, Untouched, Headed;
      gc.Parts();
      gc.pages.Sizes();
      ghost var w, m, space0, last0 := gc.w, gc.m, gc.pages.space, gc.pages.last;
      InvParts(w, gc.mem[..], space0, last0, gc.freep, gc.freewords, m);
      QueuedNext(w, space0, last0, m.copies, m.runs, gc.pages.order);
      HeapAfter(w, gc.mem[..], space0, last0, gc.freep, gc.freewords, m, roots0, roots);
      HeadsNow(gc);
      ghost var types0 := gc.pages.typePage;
      gc.pages.Release();
      gc.pages.Sizes();
      HeadedKept(space0, types0, gc.pages.typePage, m.fwd.Values, gc.freep, gc.freewords, w.into);
      NewHeapIs(w, gc.mem[..], space0, last0, m, Now(m.fwd.Values));
    }
  }
}
