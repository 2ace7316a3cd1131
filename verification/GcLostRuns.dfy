/** The two collections themselves: the heap is built, it is proper, and its collection loses an object.
    It is not trailing: no heap is like it that has come about by allocations and collections. */
module GcLostRuns {
  import opened Wrappers
  import opened GcWords
  import opened GcSpec
  import opened GcPages
  import opened GcLayout
  import opened GcPlacing
  import opened GcTrace
  import opened GcHeap
  import opened GcCollector
  import opened GcBegun
  import opened GcCollect
  import opened GcLostHeap
  import opened GcLostCopy

  ghost predicate FilledSmall(mem: seq<nat>) {
    && |mem| > PAGE_WORDS * LAST
    && mem[A] == MakeHeader(6, VALUE) && mem[A + 1] == VAL_CONS && mem[A + 2] == BodyAddress(X)
    && mem[A + 3] == 0 && mem[A + 4] == 0 && mem[A + 5] == 0
    && mem[X] == MakeHeader(6, VALUE) && mem[X + 1] == VAL_CONS && mem[X + 2] == BodyAddress(Z)
    && mem[X + 3] == 0 && mem[X + 4] == 0 && mem[X + 5] == 0
    && mem[Y] == MakeHeader(2, RAW) && mem[Z] == MakeHeader(2, RAW)
  }

  ghost predicate FilledLarge(mem: seq<nat>, linked: bool) {
    && |mem| > PAGE_WORDS * LAST
    && mem[L] == MakeHeader(2 * PAGE_WORDS, if linked then VALUE_ARRAY else RAW)
    && mem[L + 1] == VAL_CONS && mem[L + 2] == BodyAddress(Y)
    && forall i :: L + 3 <= i < L + 2 * PAGE_WORDS ==> mem[i] == 0
  }

  /** The words of the objects. */
  ghost predicate Filled(mem: seq<nat>, linked: bool) {
    FilledSmall(mem) && FilledLarge(mem, linked)
  }

  lemma Headers(w: Old, linked: bool)
    requires Filled(w.mem, linked) && |w.mem| >= PAGE_WORDS * (LAST + 1)
    ensures Sizes(w) && Type(w, A) == Type(w, X) == VALUE && Type(w, Y) == Type(w, Z) == RAW
    ensures Type(w, L) == if linked then VALUE_ARRAY else RAW
    ensures InMemory(w, A) && InMemory(w, X) && InMemory(w, Y) && InMemory(w, Z) && InMemory(w, L)
    ensures forall h :: h in ALL ==> h < |w.mem| && !Forwarded(w.mem[h])
  {
    HeaderRead(6, VALUE);
    HeaderRead(2, RAW);
    HeaderRead(2 * PAGE_WORDS, VALUE_ARRAY);
    HeaderRead(2 * PAGE_WORDS, RAW);
    hide HeaderWords, HeaderType, MakeHeader;
  }

  /** A cons cell with a head and an empty tail. */
  lemma ConsPoints(w: Old, h: nat, t: nat)
    requires InMemory(w, h) && Words(w, h) == 6 && Type(w, h) == VALUE && w.mem[h + 1] == VAL_CONS
    requires w.mem[h + 2] == BodyAddress(t) && w.mem[h + 3] == 0 && t in w.objects
    ensures Points(w, h, Some(t))
    ensures forall i :: 0 <= i < 5 && IsSlot(w, h, i) ==> PointerOk(w, Cell(w, h, i)) || Cell(w, h, i) == 0
  {
    AddressObject(t);
    assert Body(w, h)[0] == VAL_CONS;
    assert forall i :: 0 <= i < 5 ==> (IsSlot(w, h, i) <==> i == 1 || i == 2);
    assert Cell(w, h, 1) == BodyAddress(t) && Cell(w, h, 2) == 0;
    assert IsObject(w, BodyAddress(t));
    assert PointsAt(w, h, 1, t);
  }

  lemma RawPoints(w: Old, h: nat)
    requires InMemory(w, h) && Type(w, h) == RAW
    ensures Points(w, h, None) && forall i :: 0 <= i < Words(w, h) - 1 ==> !IsSlot(w, h, i)
  {
  }

  /** An array of values of which only the first is not empty. */
  lemma ArraySlot(w: Old, i: nat)
    requires InMemory(w, L) && Words(w, L) == 2 * PAGE_WORDS && Type(w, L) == VALUE_ARRAY
    requires w.mem[L + 1] == VAL_CONS && forall i :: L + 3 <= i < L + 2 * PAGE_WORDS ==> w.mem[i] == 0
    requires i < Words(w, L) - 1
    ensures IsSlot(w, L, i) <==> i == 1 || i == 2
  {
    hide Words, Type;
    var b := i / VALUE_WORDS * VALUE_WORDS;
    assert Body(w, L)[b] == w.mem[L + 1 + b];
    assert i >= VALUE_WORDS ==> b >= VALUE_WORDS;
  }

  lemma ArrayPoints(w: Old)
    requires InMemory(w, L) && Words(w, L) == 2 * PAGE_WORDS && Type(w, L) == VALUE_ARRAY
    requires w.mem[L + 1] == VAL_CONS && w.mem[L + 2] == BodyAddress(Y) && Y in w.objects
    requires forall i :: L + 3 <= i < L + 2 * PAGE_WORDS ==> w.mem[i] == 0
    ensures Points(w, L, Some(Y))
    ensures forall i :: 0 <= i < Words(w, L) - 1 && IsSlot(w, L, i) ==> i == 1 || i == 2
    ensures Cell(w, L, 1) == BodyAddress(Y) && Cell(w, L, 2) == 0
  {
    hide Words, Type, IsSlot;
    AddressObject(Y);
    forall i: nat | i < Words(w, L) - 1 ensures IsSlot(w, L, i) <==> i == 1 || i == 2 { ArraySlot(w, i); }
    assert Cell(w, L, 1) == BodyAddress(Y) && Cell(w, L, 2) == 0;
    assert IsObject(w, BodyAddress(Y)) && !IsObject(w, 0);
    assert PointsAt(w, L, 1, Y);
  }

  lemma ShapeIs(w: Old, linked: bool)
    requires Tables(w) && Filled(w.mem, linked) && |w.mem| == PAGE_WORDS * |w.space|
    ensures Shape(w, linked)
  {
    hide IsSlot, HeaderWords, HeaderType, MakeHeader, Words, Type, Points;
    Headers(w, linked);
    ConsPoints(w, A, X);
    ConsPoints(w, X, Z);
    RawPoints(w, Y);
    RawPoints(w, Z);
    if linked { ArrayPoints(w); } else { RawPoints(w, L); }
  }

  /** Pointers of the objects are good. */
  lemma GoodPointers(w: Old, linked: bool, h: nat, i: nat)
    requires Tables(w) && Filled(w.mem, linked) && |w.mem| == PAGE_WORDS * |w.space| && h in ALL
    requires InMemory(w, h) && i < Words(w, h) - 1 && IsSlot(w, h, i)
    ensures PointerOk(w, Cell(w, h, i))
  {
    hide IsSlot, HeaderWords, HeaderType, MakeHeader, Points, Words, Type;
    Headers(w, linked);
    assert Outside(w, 0);
    if h == A {
      ConsPoints(w, A, X);
    } else if h == X {
      ConsPoints(w, X, Z);
    } else if h == L && linked {
      ArrayPoints(w);
      AddressObject(Y);
      assert IsObject(w, BodyAddress(Y));
    } else {
      RawPoints(w, h);
    }
  }

  lemma GoodHeap(w: Old, linked: bool)
    requires Tables(w) && Filled(w.mem, linked) && |w.mem| == PAGE_WORDS * |w.space|
    requires w.nurseryFirst == 1 && w.nurseryLast == 4096
    ensures OldOk(w) && RootsOk(w, ROOTS)
  {
    hide IsSlot, HeaderWords, HeaderType, MakeHeader, Words, Type, Cell;
    Headers(w, linked);
    forall h, i | h in w.objects && InMemory(w, h) && 0 <= i < Words(w, h) - 1 && IsSlot(w, h, i)
      ensures PointerOk(w, Cell(w, h, i)) {
      GoodPointers(w, linked, h, i);
    }
    AddressObject(A);
    AddressObject(L);
    assert IsObject(w, BodyAddress(A)) && IsObject(w, BodyAddress(L));
  }

  /** What is said of the objects holds when the words between them change. */
  lemma SameShape(w: Old, w': Old, linked: bool)
    requires Tables(w) && Filled(w.mem, linked) && |w.mem| == PAGE_WORDS * |w.space| && SameObjects(w, w')
    ensures Shape(w', linked)
  {
    hide HeaderWords, HeaderType, MakeHeader, Words, Type, Points;
    Headers(w, linked);
    assert forall h, i :: h in ALL && h <= i < h + Words(w, h) && i < |w.mem| ==> w'.mem[i] == w.mem[i];
    assert w'.mem[A] == w.mem[A] && w'.mem[X] == w.mem[X] && w'.mem[Y] == w.mem[Y] && w'.mem[Z] == w.mem[Z];
    assert forall i :: L <= i < L + 2 * PAGE_WORDS ==> w'.mem[i] == w.mem[i];
    ShapeIs(w', linked);
  }

  lemma NoTails(w: Old, types: seq<nat>)
    requires |types| > LAST && types[OBJECTS] != CONTINUED && types[OBJECTS + 1] != CONTINUED
    ensures !Tails(w, types, ROOTS)
  {
    assert PageOf(BodyAddress(A)) == OBJECTS && PageOf(BodyAddress(L)) == OBJECTS + 1;
  }

  method FillLarge(mem: array<nat>, linked: bool)
    requires mem.Length > PAGE_WORDS * LAST
    modifies mem
    ensures FilledLarge(mem[..], linked) && Agree(old(mem[..]), mem[..], L, L + 2 * PAGE_WORDS)
  {
    hide MakeHeader;
    mem[L] := MakeHeader(2 * PAGE_WORDS, if linked then VALUE_ARRAY else RAW);
    mem[L + 1], mem[L + 2] := VAL_CONS, BodyAddress(Y);
    forall i | L + 3 <= i < L + 2 * PAGE_WORDS { mem[i] := 0; }
  }

  method FillSmall(mem: array<nat>)
    requires mem.Length > PAGE_WORDS * LAST
    modifies mem
    ensures FilledSmall(mem[..])
  {
    hide MakeHeader;
    mem[A], mem[A + 1], mem[A + 2] := MakeHeader(6, VALUE), VAL_CONS, BodyAddress(X);
    mem[A + 3], mem[A + 4], mem[A + 5] := 0, 0, 0;
    mem[X], mem[X + 1], mem[X + 2] := MakeHeader(6, VALUE), VAL_CONS, BodyAddress(Z);
    mem[X + 3], mem[X + 4], mem[X + 5] := 0, 0, 0;
    mem[Y], mem[Z] := MakeHeader(2, RAW), MakeHeader(2, RAW);
  }

  lemma SmallStays(mem: seq<nat>, mem': seq<nat>)
    requires FilledSmall(mem) && Agree(mem, mem', L, L + 2 * PAGE_WORDS)
    ensures FilledSmall(mem')
  {
    hide MakeHeader;
  }

  /** The words are written. */
  method Fill(mem: array<nat>, linked: bool)
    requires mem.Length > PAGE_WORDS * LAST
    modifies mem
    ensures Filled(mem[..], linked)
  {
    hide FilledSmall, FilledLarge, Agree;
    FillSmall(mem);
    ghost var mem0 := mem[..];
    FillLarge(mem, linked);
    SmallStays(mem0, mem[..]);
  }

  method SetSearch(pages: Pages, page: nat)
    requires pages.Valid() && pages.first <= page <= pages.last
    modifies pages`freepage
    ensures pages.Valid() && pages.freepage == page
  {
    hide QueueOk, OrderOk, Counted;
    pages.freepage := page;
  }

  /** The tables: pages for the objects are taken, and the search is put on the last page. */
  method TakeTables(pages: Pages)
    requires pages.Valid() && pages.first == 1 && pages.last == LAST && pages.limit == |pages.space|
    requires pages.currentSpace == 1 && pages.nextSpace == 1 && !pages.inScavenge
    requires forall p :: 0 <= p < |pages.space| ==> pages.space[p] == if 1 <= p < 4097 then NURSERY else 0
    modifies pages
    ensures pages.Valid() && pages.last == LAST && pages.freepage == LAST && pages.allocatedPages > 0
    ensures pages.currentSpace == 1 && pages.nextSpace == 1 && !pages.inScavenge
    ensures |pages.space| == |old(pages.space)| && forall p: nat :: p < |pages.space| ==> pages.space[p] == TagAt(p)
    ensures |pages.typePage| == |pages.space| && pages.typePage[OBJECTS] == OBJECT
    ensures pages.typePage[OBJECTS + 1] == OBJECT
  {
    hide Pages.Valid, TypesKept;
    pages.Sizes();
    pages.TakePages(OBJECTS, 1);
    pages.Sizes();
    pages.TakePages(OBJECTS + 1, 2);
    pages.Sizes();
    SetSearch(pages, LAST);
  }

  /** The heap. */
  method Build(limit: nat, linked: bool) returns (heap: Heap)
    requires LAST < limit
    ensures fresh(heap) && fresh(heap.gc) && fresh(heap.gc.pages) && fresh(heap.gc.mem)
    ensures heap.Proper(ALL) && heap.roots == ROOTS && heap.gc.pages.freepage == LAST && !heap.Trailing()
    ensures Tables(heap.Now(ALL)) && Filled(heap.Now(ALL).mem, linked) && !heap.TailRoot()
    ensures |heap.Now(ALL).mem| == PAGE_WORDS * |heap.Now(ALL).space|
  {
    hide Pages.Valid, OldOk, Filled, Tails, RootsOk;
    heap := new Heap(1, LAST, limit);
    heap.gc.pages.Sizes();
    TakeTables(heap.gc.pages);
    heap.gc.pages.Sizes();
    Fill(heap.gc.mem, linked);
    heap.roots := ROOTS;
    GoodHeap(heap.Now(ALL), linked);
    NoTails(heap.Now({}), heap.gc.pages.typePage);
  }

  // ----- the collections -----

  lemma ReachNext(w: Old, roots: set<nat>, h: nat, t: nat)
    requires Points(w, h, Some(t)) && h in w.objects && Reachable(w, roots, h)
    ensures Reachable(w, roots, t)
  {
    hide Reachable, IsSlot, IsObject, Cell, InMemory, Words;
    var i: nat :| i < Words(w, h) - 1 && PointsAt(w, h, i, t);
    ReachableSlot(w, roots, h, i);
  }

  lemma ReachAll(w: Old, linked: bool)
    requires Shape(w, linked)
    ensures Reachable(w, RootSet(ROOTS), X) && Reachable(w, RootSet(ROOTS), Z)
  {
    hide Reachable, Points, Sizes;
    AddressObject(A);
    assert BodyAddress(A) in RootWords(ROOTS[0]) && IsObject(w, BodyAddress(A));
    RootReached(w, ROOTS, 0, BodyAddress(A));
    ReachNext(w, RootSet(ROOTS), A, X);
    ReachNext(w, RootSet(ROOTS), X, Z);
  }

  /** A copy that has not been scanned points to an old object. */
  lemma StalePointer(w: Old, m: Made, k: nat, t: nat)
    requires k < |m.copies| && |m.scanned| == |m.copies| && Points(w, m.copies[k].src, Some(t)) && m.scanned[k] == 0
    ensures !Clean(w, m)
  {
    hide IsSlot, IsObject, Cell, InMemory, Words;
    var c := m.copies[k];
    var i: nat :| i < Words(w, c.src) - 1 && PointsAt(w, c.src, i, t);
    assert !CopyClean(w, c, 0);
  }

  /** L without pointers: the drain gets stuck, and X is lost, although there is room for everything. */
  method LoseStuck(limit: nat) returns (heap: Heap, ok: bool, ghost stuck: bool, ghost behind: bool)
    requires LAST < limit
    ensures fresh(heap) && fresh(heap.gc) && ok && stuck && Shape(heap.gc.w, false)
    ensures var m := heap.gc.m; A in m.fwd && X !in m.fwd && Reachable(heap.gc.w, RootSet(ROOTS), X)
    ensures !Isomorphic(heap.gc.w, heap.Now(heap.gc.m.fwd.Values), heap.gc.m.fwd, RootSet(ROOTS))
  {
    hide Filled, Shape, Tables, Begun, Drained, SameObjects, Isomorphic, Reachable, Clean, Heap.Proper, Fits, Orderly,
      Heap.TailRoot, Heap.Trailing, Heap.Spacious, RootsDone;
    heap := Build(limit, false);
    ghost var was := heap.Now(ALL);
    RoomNow(was, false);
    ghost var trace;
    ok, stuck, behind, trace := heap.Collect(ALL);
    SameShape(was, heap.gc.w, false);
    GetsStuck(heap.gc.w, trace[0].m, trace[0].freep, trace);
    ReachAll(heap.gc.w, false);
    PointsNow(heap.gc.w, false);
    StalePointer(heap.gc.w, heap.gc.m, 0, X);
  }

  lemma RoomNow(w: Old, linked: bool)
    requires Tables(w) && Filled(w.mem, linked) && |w.mem| == PAGE_WORDS * |w.space|
    ensures Fits(w, LAST)
  {
    hide Fits, HeaderWords, HeaderType, MakeHeader, Words, Type;
    Headers(w, linked);
    RoomForAll(w);
  }

  lemma PointsNow(w: Old, linked: bool)
    requires Shape(w, linked)
    ensures Points(w, A, Some(X)) && Points(w, X, Some(Z))
  {
    hide Points, Tables, Sizes;
  }

  /** L with a pointer to Y: the drain falls behind, and Z is lost. */
  method LoseBehind(limit: nat) returns (heap: Heap, ok: bool, ghost stuck: bool, ghost behind: bool)
    requires LAST < limit
    ensures fresh(heap) && fresh(heap.gc) && ok && !stuck && behind && Shape(heap.gc.w, true)
    ensures var m := heap.gc.m; X in m.fwd && Z !in m.fwd && Reachable(heap.gc.w, RootSet(ROOTS), Z)
    ensures !Isomorphic(heap.gc.w, heap.Now(heap.gc.m.fwd.Values), heap.gc.m.fwd, RootSet(ROOTS))
  {
    hide Filled, Shape, Tables, Begun, Drained, SameObjects, Isomorphic, Reachable, Clean, Heap.Proper, Fits, Orderly,
      Heap.TailRoot, Heap.Trailing, Heap.Spacious, RootsDone;
    heap := Build(limit, true);
    ghost var was := heap.Now(ALL);
    RoomNow(was, true);
    ghost var trace;
    ok, stuck, behind, trace := heap.Collect(ALL);
    SameShape(was, heap.gc.w, true);
    FallsBehind(heap.gc.w, trace[0].m, trace[0].freep, trace);
    ReachAll(heap.gc.w, true);
    PointsNow(heap.gc.w, true);
    StalePointer(heap.gc.w, heap.gc.m, 3, Z);
  }
}
