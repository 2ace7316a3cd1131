/** A heap on which a collection goes wrong.  The search for pages stands on the last page; the other free
    pages are one behind the nursery, and two in a row below the last.  Two roots point to a cons cell A,
    whose head is a cons cell X, whose head is Z; and to a large object L of exactly two pages. */
module GcLostHeap {
  import opened Wrappers
  import opened GcWords
  import opened GcSpec
  import opened GcPages
  import opened GcPlacing

  const SINGLE := 4097
  const OBJECTS := 4098
  const HOLE := 4101
  const LAST := 4103

  const A := PAGE_WORDS * OBJECTS
  const X := A + 6
  const Y := A + 12
  const Z := A + 14
  const L := PAGE_WORDS * (OBJECTS + 1)

  const ALL: set<nat> := {A, X, Y, Z, L}

  function TagAt(p: nat): nat {
    if 1 <= p <= 4096 then NURSERY else if OBJECTS <= p < HOLE then 1 else 0
  }

  /** What object h points to: nothing or one object, and not by the first word of its body. */
  ghost predicate Points(w: Old, h: nat, t: Option<nat>) {
    && InMemory(w, h)
    && (forall i: nat :: i < Words(w, h) - 1 && IsSlot(w, h, i) ==>
          i >= 1 && (IsObject(w, Cell(w, h, i)) ==> t == Some(ObjectOf(Cell(w, h, i)))))
    && (t.Some? ==> exists i: nat :: i < Words(w, h) - 1 && PointsAt(w, h, i, t.value))
  }

  predicate PointsAt(w: Old, h: nat, i: nat, t: nat)
    requires InMemory(w, h) && i < Words(w, h) - 1
  {
    IsSlot(w, h, i) && IsObject(w, Cell(w, h, i)) && ObjectOf(Cell(w, h, i)) == t
  }

  predicate Tables(w: Old) {
    && w.first == 1 && w.last == LAST && w.from == 1 && w.into == 2 && LAST < |w.space|
    && (forall p: nat :: p < |w.space| ==> w.space[p] == TagAt(p)) && w.objects == ALL
  }

  predicate Sizes(w: Old) {
    Words(w, A) == Words(w, X) == 6 && Words(w, Y) == Words(w, Z) == 2 && Words(w, L) == 2 * PAGE_WORDS
  }

  /** The objects and their pointers; with `linked`, L is an array of values whose first points to Y. */
  ghost predicate Shape(w: Old, linked: bool) {
    && Tables(w) && Sizes(w)
    && Points(w, A, Some(X)) && Points(w, X, Some(Z)) && Points(w, Y, None) && Points(w, Z, None)
    && Points(w, L, if linked then Some(Y) else None)
  }

  // ----- where copies go -----

  /** Where a search for n pages ends. */
  lemma FirstFitIs(space: seq<nat>, lo: nat, hi: nat, n: nat, page: nat)
    requires lo <= page && page + n <= hi && AllFree(space, page, n, 1, 2)
    requires forall p :: lo <= p < page ==> !AllFree(space, p, n, 1, 2)
    ensures FirstFit(space, lo, hi, n, 1, 2) == Some(page)
  {
  }

  lemma NoFit(space: seq<nat>, lo: nat, hi: nat, n: nat)
    requires forall p :: lo <= p && p + n <= hi ==> !AllFree(space, p, n, 1, 2)
    ensures FirstFit(space, lo, hi, n, 1, 2) == None
  {
  }

  /** Which of the free pages have been taken: the last, the two, the single one. */
  predicate TakenPages(space: seq<nat>, last: bool, hole: bool, single: bool) {
    && LAST < |space|
    && forall p: nat :: p < |space| ==>
      space[p] == if (last && p == LAST) || (hole && HOLE <= p < LAST) || (single && p == SINGLE) then 2 else TagAt(p)
  }

  lemma PagesStart(w: Old)
    requires Tables(w)
    ensures TakenPages(w.space, false, false, false)
  {
  }

  lemma TakeLast(space: seq<nat>, hole: bool, single: bool)
    requires TakenPages(space, false, hole, single)
    ensures Search(space, LAST, 1, LAST, 1, 1, 2) == Some(LAST)
    ensures TakenPages(Tagged(space, LAST, 1, 2), true, hole, single)
  {
    FirstFitIs(space, LAST, LAST + 1, 1, LAST);
  }

  /** Two pages in a row, from the first page on. */
  lemma TakeHole(space: seq<nat>, last: bool)
    requires TakenPages(space, last, false, false)
    ensures FirstFit(space, 1, if last then LAST + 1 else LAST, 2, 1, 2) == Some(HOLE)
    ensures TakenPages(Tagged(space, HOLE, 2, 2), last, true, false)
  {
    hide FirstFit;
    forall p | 1 <= p < HOLE ensures !AllFree(space, p, 2, 1, 2) {
      if p == SINGLE { assert !FreeTag(space[p + 1], 1, 2); } else { assert !FreeTag(space[p], 1, 2); }
    }
    FirstFitIs(space, 1, if last then LAST + 1 else LAST, 2, HOLE);
  }

  lemma TakeSingle(space: seq<nat>)
    requires TakenPages(space, true, true, false)
    ensures Search(space, LAST, 1, LAST, 1, 1, 2) == Some(SINGLE)
    ensures TakenPages(Tagged(space, SINGLE, 1, 2), true, true, true)
  {
    hide FirstFit;
    forall p | LAST <= p && p + 1 <= LAST + 1 ensures !AllFree(space, p, 1, 1, 2) {
      assert !FreeTag(space[p], 1, 2);
    }
    NoFit(space, LAST, LAST + 1, 1);
    forall p | 1 <= p < SINGLE ensures !AllFree(space, p, 1, 1, 2) { assert !FreeTag(space[p], 1, 2); }
    FirstFitIs(space, 1, LAST, 1, SINGLE);
  }

  // ----- every order fits -----

  /** Where the copying stands: nothing copied; small objects on the last page; then L; then small objects
      on the single page; L alone; then small objects on the last page. */
  datatype Stage = Nothing | Small | SmallLarge | SmallLargeSmall | Large | LargeSmall

  predicate IsStage(s: Stage, room: Room, n: nat, large: bool) {
    && room.last == LAST && n <= 5
    && match s
       case Nothing =>
         && n == 0 && !large && TakenPages(room.space, false, false, false) && room.freepage == LAST
         && room.freewords == 0
       case Small =>
         && !large && TakenPages(room.space, true, false, false) && room.freepage == 1
         && room.freewords + 6 * n >= PAGE_WORDS > room.freewords
       case SmallLarge =>
         large && TakenPages(room.space, true, true, false) && room.freepage == LAST && room.freewords == 0
       case SmallLargeSmall =>
         && large && TakenPages(room.space, true, true, true)
         && room.freewords + 6 * n >= PAGE_WORDS > room.freewords
       case Large =>
         large && TakenPages(room.space, false, true, false) && room.freepage == LAST && room.freewords == 0
       case LargeSmall =>
         && large && TakenPages(room.space, true, true, false)
         && room.freewords + 6 * n >= PAGE_WORDS > room.freewords
  }

  lemma SmallNext(w: Old, s: Stage, room: Room, n: nat, large: bool, words: nat, k: nat) returns (t: Stage)
    requires Tables(w) && IsStage(s, room, n, large) && n < 5 && 2 <= words <= 6
    ensures var r := LayOne(w, room, words, k); r.Some? && IsStage(t, r.value, n + 1, large)
  {
    hide Tagged, Search, TakenPages, Tables;
    TablesAre(w);
    match s {
      case Nothing => TakeLast(room.space, false, false); t := Small;
      case SmallLarge => TakeSingle(room.space); t := SmallLargeSmall;
      case Large => TakeLast(room.space, true, false); t := LargeSmall;
      case _ => t := s;
    }
  }

  lemma TablesAre(w: Old)
    requires Tables(w)
    ensures w.first == 1 && w.last == LAST && w.from == 1 && w.into == 2
  {
  }

  lemma LargeNext(w: Old, s: Stage, room: Room, n: nat, k: nat) returns (t: Stage)
    requires Tables(w) && IsStage(s, room, n, false) && n < 5
    ensures var r := LayOne(w, room, 2 * PAGE_WORDS, k); r.Some? && IsStage(t, r.value, n + 1, true)
  {
    hide Tagged, FirstFit, TakenPages, Tables;
    TablesAre(w);
    if s.Nothing? {
      TakeHole(room.space, false);
      NoFit(room.space, LAST, LAST + 1, 2);
      t := Large;
    } else {
      TakeHole(room.space, true);
      t := SmallLarge;
    }
  }

  /** There are no more different objects than there are objects. */
  lemma {:induction false} OrdersSize(w: Old, srcs: seq<nat>, s: set<nat>)
    requires Orders(w, srcs) && (forall k :: 0 <= k < |srcs| ==> srcs[k] in s)
    ensures |srcs| <= |s|
  {
    if srcs != [] {
      var n := |srcs| - 1;
      OrdersSize(w, srcs[..n], s - {srcs[n]});
    }
  }

  lemma {:induction false} StageOf(w: Old, srcs: seq<nat>) returns (s: Stage)
    requires Tables(w) && Sizes(w) && Orders(w, srcs) && |srcs| <= 5
    ensures var r := LaySeq(w, LAST, srcs); r.Some? && IsStage(s, r.value, |srcs|, L in srcs)
  {
    hide LayOne, IsStage, Words, TakenPages;
    if srcs == [] {
      PagesStart(w);
      NothingYet(w);
      s := Nothing;
    } else {
      var n := |srcs| - 1;
      var short, h := srcs[..n], srcs[n];
      var t := StageOf(w, short);
      var room := LaySeq(w, LAST, short).value;
      assert srcs == short + [h];
      if h == L {
        s := LargeNext(w, t, room, n, n);
      } else {
        s := SmallNext(w, t, room, n, L in short, Words(w, h), n);
      }
    }
  }

  lemma NothingYet(w: Old)
    requires Tables(w) && TakenPages(w.space, false, false, false)
    ensures IsStage(Nothing, Room(w.space, w.last, LAST, 0, 0, []), 0, false)
  {
  }

  /** So a collection of this heap does not run out of room. */
  lemma RoomForAll(w: Old)
    requires Tables(w) && Sizes(w)
    ensures Fits(w, LAST)
  {
    hide LaySeq, Words;
    forall srcs | Orders(w, srcs) ensures LaySeq(w, LAST, srcs).Some? {
      OrdersSize(w, srcs, ALL);
      assert |ALL| <= 5;
      var s := StageOf(w, srcs);
    }
  }

  // ----- the order of the roots -----

  const FIRST_TWO: seq<Run> := [Run(LAST, 1, 0, 1), Run(HOLE, 2, 1, 2)]

  lemma LayTwo(w: Old)
    requires Tables(w) && Sizes(w)
    ensures var r := LaySeq(w, LAST, [A, L]); r.Some? && r.value.runs == FIRST_TWO && r.value.last == LAST
    ensures var r := LaySeq(w, LAST, [A, L]).value;
      TakenPages(r.space, true, true, false) && r.freepage == LAST && r.freewords == 0
  {
    hide Words, Tables, Tagged, TakenPages, LayOne, LaySeq;
    TablesAre(w);
    PagesStart(w);
    LayA(w);
    var one := LaySeq(w, LAST, [A]).value;
    assert [A] + [L] == [A, L];
    LayPlus(w, LAST, [A], L);
    LayL(w, one);
  }

  lemma LayA(w: Old)
    requires Tables(w) && Words(w, A) == 6 && TakenPages(w.space, false, false, false)
    ensures var r := LaySeq(w, LAST, [A]);
      && r.Some? && r.value.runs == [Run(LAST, 1, 0, 1)] && r.value.last == LAST && r.value.freepage == 1
      && r.value.freewords == 58 && TakenPages(r.value.space, true, false, false)
  {
    hide Words, Tagged, Search, TakenPages;
    assert [] + [A] == [A];
    LayPlus(w, LAST, [], A);
    TakeLast(w.space, false, false);
  }

  lemma LayL(w: Old, room: Room)
    requires Tables(w) && room.runs == [Run(LAST, 1, 0, 1)] && room.last == LAST && room.freepage == 1
    requires room.freewords == 58 && TakenPages(room.space, true, false, false)
    ensures var r := LayOne(w, room, 2 * PAGE_WORDS, 1);
      && r.Some? && r.value.runs == FIRST_TWO && r.value.last == LAST && r.value.freepage == LAST
      && r.value.freewords == 0 && TakenPages(r.value.space, true, true, false)
  {
    hide Tagged, FirstFit, TakenPages;
    TakeHole(room.space, true);
  }

  /** Y goes to the single page, and what is small behind it. */
  lemma LayThree(w: Old)
    requires Tables(w) && Sizes(w)
    ensures var r := LaySeq(w, LAST, [A, L, Y]);
      && r.Some? && r.value.last == LAST && r.value.runs == FIRST_TWO + [Run(SINGLE, 1, 2, 3)]
      && r.value.freewords == 62
  {
    hide Words, Tagged, Search, TakenPages, LaySeq;
    LayTwo(w);
    assert [A, L] + [Y] == [A, L, Y];
    LayPlus(w, LAST, [A, L], Y);
    TakeSingle(LaySeq(w, LAST, [A, L]).value.space);
  }

  lemma LayFour(w: Old, h: nat)
    requires Tables(w) && Sizes(w) && (h == X || h == Z)
    ensures var r := LaySeq(w, LAST, [A, L, Y, h]);
      && r.Some? && r.value.last == LAST && r.value.runs == FIRST_TWO + [Run(SINGLE, 1, 2, 4)]
      && r.value.freewords == 62 - Words(w, h)
  {
    hide Words, LaySeq;
    LayThree(w);
    assert [A, L, Y] + [h] == [A, L, Y, h];
    LayPlus(w, LAST, [A, L, Y], h);
    var room := LaySeq(w, LAST, [A, L, Y]).value;
    assert room.runs[2 := room.runs[2].(end := 4)] == FIRST_TWO + [Run(SINGLE, 1, 2, 4)];
  }
}
