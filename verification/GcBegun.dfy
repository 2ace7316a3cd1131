/** What the roots have copied: their objects, in the order of the roots. */
module GcBegun {
  import opened GcWords
  import opened GcSpec
  import opened GcPages
  import opened GcLayout
  import opened GcScanning
  import opened GcPlacing
  import opened GcTracing
  import opened GcHeap
  import opened GcCollector

  predicate AllPointers(roots: seq<Root>) {
    forall i :: 0 <= i < |roots| ==> roots[i].PtrRoot?
  }

  function With(w: Old, srcs: seq<nat>, p: nat): seq<nat> {
    if IsObject(w, p) && ObjectOf(p) !in srcs then srcs + [ObjectOf(p)] else srcs
  }

  /** The old objects that these roots point to, each once, in their order. */
  function Targets(w: Old, roots: seq<Root>): seq<nat> {
    if roots == [] then []
    else
      var t := Targets(w, roots[..|roots| - 1]);
      if roots[|roots| - 1].PtrRoot? then With(w, t, roots[|roots| - 1].pointer) else t
  }

  lemma TargetsPlus(w: Old, roots: seq<Root>, i: nat)
    requires i < |roots| && roots[i].PtrRoot?
    ensures Targets(w, roots[..i + 1]) == With(w, Targets(w, roots[..i]), roots[i].pointer)
  {
    assert roots[..i + 1][..i] == roots[..i];
  }

  /** Copies so far are those of the objects of the first n roots. */
  ghost predicate InOrder(w: Old, m: Made, roots: seq<Root>, n: nat) {
    n <= |roots| && (AllPointers(roots) ==> Srcs(m.copies) == Targets(w, roots[..n]))
  }

  lemma InOrderStart(w: Old, roots: seq<Root>)
    ensures InOrder(w, Made([], [], map[], []), roots, 0)
  {
  }

  lemma SourceOf(w: Old, m: Made, h: nat)
    requires FwdOk(w, m.fwd, m.copies)
    ensures |m.fwd| == |m.copies| && (h in m.fwd <==> h in Srcs(m.copies))
  {
    if h in m.fwd {
      var k :| 0 <= k < |m.copies| && m.copies[k].src == h;
      assert Srcs(m.copies)[k] == h;
    }
    if h in Srcs(m.copies) {
      var k :| 0 <= k < |m.copies| && Srcs(m.copies)[k] == h;
      assert m.copies[k].src in m.fwd;
    }
  }

  lemma SrcsPrefix(m: Made, m': Made)
    requires Grown(m, m')
    ensures |m.copies| <= |m'.copies| && Srcs(m'.copies)[..|m.copies|] == Srcs(m.copies)
  {
    forall k | 0 <= k < |m.copies| ensures m'.copies[k] == m.copies[k] { CopyStays(m, m', k); }
  }

  /** A move that may add just one object. */
  lemma SrcsAdded(w: Old, m: Made, m': Made, p: nat)
    requires FwdOk(w, m.fwd, m.copies) && FwdOk(w, m'.fwd, m'.copies) && Grown(m, m') && Orders(w, Srcs(m'.copies))
    requires Added(m.fwd, m'.fwd, Target(w, p))
    ensures Srcs(m'.copies) == With(w, Srcs(m.copies), p)
  {
    hide FwdOk, Grown, IsObject, ObjectOf;
    SrcsPrefix(m, m');
    SourceOf(w, m, ObjectOf(p));
    SourceOf(w, m', ObjectOf(p));
    var n := |m.copies|;
    if IsObject(w, p) && ObjectOf(p) !in m.fwd {
      KeysPlus(m.fwd, m'.fwd, ObjectOf(p));
      var h := Srcs(m'.copies)[n];
      SourceOf(w, m', h);
      SourceOf(w, m, h);
      NotBefore(w, Srcs(m'.copies), n);
      assert h == ObjectOf(p);
      assert Srcs(m'.copies) == Srcs(m'.copies)[..n] + [h];
    } else {
      assert m'.fwd.Keys == m.fwd.Keys;
      KeysSame(m.fwd, m'.fwd);
      assert Srcs(m'.copies) == Srcs(m'.copies)[..n];
    }
  }

  lemma NotBefore(w: Old, srcs: seq<nat>, n: nat)
    requires Orders(w, srcs) && n < |srcs|
    ensures srcs[n] !in srcs[..n]
  {
  }

  lemma KeysPlus(fwd: map<nat, nat>, fwd': map<nat, nat>, h: nat)
    requires fwd'.Keys == fwd.Keys + {h} && h !in fwd
    ensures |fwd'| == |fwd| + 1
  {
    assert |fwd'.Keys| == |fwd'| && |fwd.Keys| == |fwd|;
  }

  lemma KeysSame(fwd: map<nat, nat>, fwd': map<nat, nat>)
    requires fwd'.Keys == fwd.Keys
    ensures |fwd'| == |fwd|
  {
    assert |fwd'.Keys| == |fwd'| && |fwd.Keys| == |fwd|;
  }

  /** A root is a cause. */
  lemma RootCaused(w: Old, m: Made, roots: seq<Root>, i: nat, p: nat)
    requires i < |roots| && p in RootWords(roots[i])
    ensures IsObject(w, p) ==> Caused(w, RootSet(roots), m, ObjectOf(p))
  {
    hide IsObject, ObjectOf;
    RootReached(w, roots, i, p);
  }

  /** The collection when the roots have been scanned: their objects have been copied to where their
      order puts them, and no copy has been scanned. */
  ghost predicate Begun(w: Old, f0: nat, roots: seq<Root>, m: Made, freep: nat) {
    && RunsOk(m.copies, m.runs) && FwdOk(w, m.fwd, m.copies) && |m.scanned| == |m.copies|
    && w.first <= w.last && LaySeq(w, f0, Srcs(m.copies)).Some? && LaySeq(w, f0, Srcs(m.copies)).value.runs == m.runs
    && (m.runs != [] ==> freep == EndOf(m.copies, m.runs[|m.runs| - 1]))
    && (AllPointers(roots) ==> Srcs(m.copies) == Targets(w, roots))
    && forall k :: 0 <= k < |m.scanned| ==> m.scanned[k] == 0
  }

  lemma LaidNow(gc: Collector)
    requires gc.Ready()
    ensures Laid(gc.w, gc.f0, gc.pages.space, gc.pages.last, gc.pages.freepage, gc.freewords, gc.pages.allocatedPages,
      gc.m.copies, gc.m.runs)
  {
    hide Pages.Valid, OldOk, Inv, OnlyReachable, Traced;
    gc.Parts();
    TracedParts(gc.w, gc.f0, gc.rootSet, gc.pages.space, gc.pages.last, gc.pages.freepage, gc.freewords,
                gc.pages.allocatedPages, gc.m);
  }

  lemma BegunIs(gc: Collector, roots: seq<Root>)
    requires gc.Ready() && InOrder(gc.w, gc.m, roots, |roots|)
    requires forall k :: 0 <= k < |gc.m.scanned| ==> gc.m.scanned[k] == 0
    ensures Begun(gc.w, gc.f0, roots, gc.m, gc.freep)
  {
    hide Pages.Valid, OldOk, Inv, OnlyReachable, Traced, Laid, LaySeq, FwdOk, RunsOk, PagesOk, FrontierOk, FromOk,
      CopiesOk, Orders, Targets, Collector.Ready, LayoutOk, RunOk;
    assert roots[..|roots|] == roots;
    gc.Parts();
    InvParts(gc.w, gc.mem[..], gc.pages.space, gc.pages.last, gc.freep, gc.freewords, gc.m);
    LaidNow(gc);
    LaidParts(gc.w, gc.f0, gc.pages.space, gc.pages.last, gc.pages.freepage, gc.freewords, gc.pages.allocatedPages,
              gc.m);
    if gc.m.runs != [] { LastRun(gc.mem[..], gc.m.copies, gc.m.runs, gc.freep, gc.freewords); }
  }

  // ----- roots that stop the program -----

  /** A pointer into the tail of an object of several pages. */
  predicate TailAt(w: Old, types: seq<nat>, r: Root) {
    r.PtrRoot? && w.first <= PageOf(r.pointer) <= w.last && PageOf(r.pointer) < |types| &&
      types[PageOf(r.pointer)] == CONTINUED
  }

  ghost predicate Tails(w: Old, types: seq<nat>, roots: seq<Root>) {
    exists i :: 0 <= i < |roots| && TailAt(w, types, roots[i])
  }

  /** A root in the pages points to a page that was not free. */
  lemma RootPage(w: Old, p: nat)
    requires OldOk(w) && PointerOk(w, p) && w.first <= PageOf(p) < |w.space|
    ensures !FreeTag(w.space[PageOf(p)], w.from, w.into) && PageOf(p) <= w.last
  {
    if IsObject(w, p) {
      var h := ObjectOf(p);
      assert InMemory(w, h);
      AddressPage(h);
      TagOfOld(w, h, PageOf(p));
    }
  }

  /** The test sees the types that there were before. */
  lemma TailSeen(w: Old, types: seq<nat>, types': seq<nat>, last: nat, p: nat)
    requires OldOk(w) && PointerOk(w, p) && TypesKept(w.space, types, types', w.from, w.into)
    requires w.last <= last < |w.space|
    ensures TailAt(w, types, PtrRoot(p)) <==>
      w.first <= PageOf(p) <= last && PageOf(p) < |types'| && types'[PageOf(p)] == CONTINUED
  {
    hide OldOk, PointerOk;
    if w.first <= PageOf(p) < |w.space| { RootPage(w, p); }
  }
}
