/** When copying cannot go wrong: enough free pages in a row ahead, or objects that fit on a page. */
module GcRoom {
  import opened Wrappers
  import opened GcWords
  import opened GcSpec
  import opened GcPages
  import opened GcLayout
  import opened GcScanning
  import opened GcPlacing

  // ----- enough room ahead -----

  /** What an object may take of the room: twice its words, as pages are left before they are full, or
      its pages and one more. */
  function Weight(w: Old, h: nat): nat {
    if Words(w, h) <= PAGE_WORDS then 2 * Words(w, h) else PAGE_WORDS * (PagesFor(Words(w, h)) + 1)
  }

  ghost function Need(w: Old, s: set<nat>): nat {
    if s == {} then 0
    else
      var h :| h in s;
      Weight(w, h) + Need(w, s - {h})
  }

  lemma {:induction false} NeedMinus(w: Old, s: set<nat>, h: nat)
    requires h in s
    ensures Need(w, s) == Weight(w, h) + Need(w, s - {h})
  {
    var g :| g in s && Need(w, s) == Weight(w, g) + Need(w, s - {g});
    if g != h {
      NeedMinus(w, s - {g}, h);
      NeedMinus(w, s - {h}, g);
      assert s - {g} - {h} == s - {h} - {g};
    }
  }

  /** From page f0 on all pages are free, and they are enough for all objects. */
  ghost predicate Roomy(w: Old, f0: nat) {
    && w.first <= f0 <= w.last < |w.space| && w.from != w.into
    && (forall p :: f0 <= p <= w.last ==> FreeTag(w.space[p], w.from, w.into))
    && PAGE_WORDS * (w.last + 1 - f0) >= Need(w, w.objects) + PAGE_WORDS
  }

  lemma {:induction false} NeedSame(w: Old, w': Old, s: set<nat>)
    requires forall h :: h in s ==> Words(w', h) == Words(w, h)
    ensures Need(w', s) == Need(w, s)
  {
    if s != {} {
      var h :| h in s;
      NeedSame(w, w', s - {h});
      NeedMinus(w, s, h);
      NeedMinus(w', s, h);
    }
  }

  lemma RoomySame(w: Old, w': Old, f0: nat)
    requires w' == w.(mem := w'.mem) && forall h :: h in w.objects ==> Words(w', h) == Words(w, h)
    ensures Roomy(w', f0) == Roomy(w, f0)
  {
    NeedSame(w, w', w.objects);
  }

  /** Pages have been taken one after the other from f0 on, up to `top`. */
  ghost predicate Stacked(w: Old, f0: nat, room: Room, top: nat, left: set<nat>) {
    && room.last == w.last < |room.space| && w.first <= f0 <= top <= w.last + 1 && room.freewords < PAGE_WORDS
    && room.freepage == (if top == w.last + 1 then w.first else top)
    && (forall p :: top <= p <= w.last ==> FreeTag(room.space[p], w.from, w.into))
    && (forall r :: 0 <= r < |room.runs| ==>
          room.runs[r].pages >= 1 && f0 <= room.runs[r].page && room.runs[r].page + room.runs[r].pages <= top)
    && (forall r, q :: 0 <= r < q < |room.runs| ==> room.runs[r].page + room.runs[r].pages <= room.runs[q].page)
    && PAGE_WORDS * (w.last + 1 - top) + room.freewords >= Need(w, left) + PAGE_WORDS
  }

  lemma FitsAt(space: seq<nat>, page: nat, first: nat, last: nat, taken: nat, n: nat, current: nat, next: nat)
    requires first <= page <= last && page + n <= last + 1 <= |space| && n >= 1
    requires forall p :: page <= p < page + n ==> FreeTag(space[p], current, next)
    ensures Allocates(space, page, first, last, taken, n, current, next) == Some(Found(page, last))
  {
    assert AllFree(space, page, n, current, next);
  }

  lemma StackedNext(w: Old, f0: nat, room: Room, top: nat, left: set<nat>, h: nat, k: nat) returns (top': nat)
    requires Stacked(w, f0, room, top, left) && h in left && Words(w, h) >= 1 && w.from != w.into && w.into != NURSERY
    ensures var r := LayOne(w, room, Words(w, h), k); r.Some? && Stacked(w, f0, r.value, top', left - {h})
  {
    NeedMinus(w, left, h);
    var words, n := Words(w, h), PagesFor(Words(w, h));
    hide Need, Words, Allocates, Search;
    if words <= room.freewords {
      top' := top;
    } else {
      assert words <= PAGE_WORDS ==> n == 1;
      assert top + n <= w.last + 1;
      FitsAt(room.space, top, w.first, w.last, room.taken, n, w.from, w.into);
      top' := top + n;
    }
  }

  lemma {:induction false} StackedAll(w: Old, f0: nat, srcs: seq<nat>) returns (top: nat)
    requires Roomy(w, f0) && Orders(w, srcs) && w.into != NURSERY && forall h :: h in w.objects ==> Words(w, h) >= 1
    ensures var r := LaySeq(w, f0, srcs); r.Some? && Stacked(w, f0, r.value, top, w.objects - (set h | h in srcs))
  {
    hide Words, LayOne;
    if srcs == [] {
      top := f0;
      assert w.objects - (set h | h in srcs) == w.objects;
    } else {
      var short, h := srcs[..|srcs| - 1], srcs[|srcs| - 1];
      var t := StackedAll(w, f0, short);
      var left := w.objects - (set g | g in short);
      assert left - {h} == w.objects - (set g | g in srcs);
      top := StackedNext(w, f0, LaySeq(w, f0, short).value, t, left, h, |short|);
    }
  }

  /** With enough room ahead every order fits, and no run ends where an earlier one begins. */
  lemma RoomyOrders(w: Old, f0: nat)
    requires Roomy(w, f0) && w.into != NURSERY && forall h :: h in w.objects ==> Words(w, h) >= 1
    ensures Fits(w, f0) && Orderly(w, f0)
  {
    hide LaySeq, Words, Need;
    forall srcs | Orders(w, srcs) ensures LaySeq(w, f0, srcs).Some? && NoAbut(LaySeq(w, f0, srcs).value.runs) {
      var top := StackedAll(w, f0, srcs);
    }
  }

  // ----- the page where the search goes on -----

  /** The search does not stand between two free pages. */
  predicate Guarded(w: Old, f0: nat) {
    && w.first <= f0 <= w.last < |w.space|
    && !(w.first < f0 && FreeTag(w.space[f0 - 1], w.from, w.into) && FreeTag(w.space[f0], w.from, w.into))
  }

  predicate Taken(w: Old, space: seq<nat>, page: nat) {
    page <= w.first || (page <= |space| && !FreeTag(space[page - 1], w.from, w.into))
  }

  /** Before each run there is a page that is not free, or none; and so it is before the page where the
      search goes on. */
  ghost predicate Backed(w: Old, f0: nat, room: Room) {
    && w.first <= room.freepage <= room.last < |room.space|
    && (forall r :: 0 <= r < |room.runs| ==> room.runs[r].pages >= 1 && Taken(w, room.space, room.runs[r].page))
    && NoAbut(room.runs)
    && (Taken(w, room.space, room.freepage) || (room.freepage == f0 && room.space == w.space))
  }

  lemma AllFreeBack(space: seq<nat>, p: nat, n: nat, current: nat, next: nat)
    requires p < |space| && FreeTag(space[p], current, next) && AllFree(space, p + 1, n, current, next)
    ensures AllFree(space, p, n, current, next)
  {
  }

  /** A search for pages finds pages behind a page that is not free. */
  lemma FirstFitBacked(space: seq<nat>, lo: nat, hi: nat, n: nat, current: nat, next: nat)
    requires n >= 1
    ensures var r := FirstFit(space, lo, hi, n, current, next);
      r.Some? && r.value > lo ==> r.value <= |space| && !FreeTag(space[r.value - 1], current, next)
  {
    var r := FirstFit(space, lo, hi, n, current, next);
    if r.Some? && r.value > lo {
      hide FirstFit;
      var p := r.value - 1;
      assert !AllFree(space, p, n, current, next);
      if FreeTag(space[p], current, next) {
        AllFreeBack(space, p, n, current, next);
        assert false;
      }
    }
  }

  lemma SearchBacked(w: Old, f0: nat, room: Room, last: nat, n: nat, page: nat)
    requires Guarded(w, f0) && Backed(w, f0, room) && n >= 1 && room.last <= last < |room.space|
    requires Search(room.space, room.freepage, w.first, last, n, w.from, w.into) == Some(page)
    ensures Taken(w, room.space, page) && AllFree(room.space, page, n, w.from, w.into)
    ensures w.first <= page && page + n <= last + 1
  {
    FirstFitBacked(room.space, room.freepage, last + 1, n, w.from, w.into);
    FirstFitBacked(room.space, w.first, room.freepage, n, w.from, w.into);
    hide FirstFit;
  }

  /** New pages keep it: they are free, and so do not end where a run begins. */
  lemma BackedNext(w: Old, f0: nat, room: Room, page: nat, n: nat, last: nat, freewords: nat, k: nat)
    requires Backed(w, f0, room) && Taken(w, room.space, page) && AllFree(room.space, page, n, w.from, w.into)
    requires n >= 1 && w.first <= page && page + n <= last + 1 && room.last <= last < |room.space|
    ensures Backed(w, f0, Room(Tagged(room.space, page, n, w.into), last, After(page, n, w.first, last), freewords,
                               room.taken + n, room.runs + [Run(page, n, k, k + 1)]))
  {
    hide NoAbut;
    forall r | 0 <= r < |room.runs| ensures page + n != room.runs[r].page {
      assert Taken(w, room.space, room.runs[r].page);
      assert FreeTag(room.space[page + n - 1], w.from, w.into);
    }
    NoAbutPlus(room.runs, Run(page, n, k, k + 1));
  }

  lemma NoAbutPlus(runs: seq<Run>, run: Run)
    requires NoAbut(runs) && forall r :: 0 <= r < |runs| ==> run.page + run.pages != runs[r].page
    ensures NoAbut(runs + [run])
  {
  }

  /** An object put in the room left changes no page. */
  lemma BackedInRoom(w: Old, f0: nat, room: Room, freewords: nat, k: nat)
    requires Backed(w, f0, room)
    ensures Backed(w, f0, room.(freewords := freewords,
                                runs := if room.runs == [] then []
                                        else room.runs[|room.runs| - 1 := room.runs[|room.runs| - 1].(end := k + 1)]))
  {
    hide NoAbut;
    var runs := if room.runs == [] then []
                else room.runs[|room.runs| - 1 := room.runs[|room.runs| - 1].(end := k + 1)];
    NoAbutSame(room.runs, runs);
  }

  lemma NoAbutSame(runs: seq<Run>, runs': seq<Run>)
    requires NoAbut(runs) && |runs'| == |runs|
    requires forall r :: 0 <= r < |runs| ==> runs'[r].page == runs[r].page && runs'[r].pages == runs[r].pages
    ensures NoAbut(runs')
  {
    forall r, q | 0 <= r < q < |runs'| ensures runs'[q].page + runs'[q].pages != runs'[r].page {
      assert runs[q].page + runs[q].pages != runs[r].page;
    }
  }

  lemma BackedOne(w: Old, f0: nat, room: Room, words: nat, k: nat)
    requires Guarded(w, f0) && Backed(w, f0, room) && words >= 1
    ensures w.first <= room.last
    ensures var r := LayOne(w, room, words, k); r.Some? ==> Backed(w, f0, r.value)
  {
    hide Search, NoAbut, Guarded, Taken, Tagged, After;
    if words > room.freewords {
      var n := PagesFor(words);
      var f := Allocates(room.space, room.freepage, w.first, room.last, room.taken, n, w.from, w.into);
      if f.Some? {
        SearchBacked(w, f0, room, f.value.last, n, f.value.page);
        BackedNext(w, f0, room, f.value.page, n, f.value.last, if words < PAGE_WORDS then PAGE_WORDS - words else 0, k);
      }
    } else {
      BackedInRoom(w, f0, room, room.freewords - words, k);
    }
  }

  lemma {:induction false} BackedAll(w: Old, f0: nat, srcs: seq<nat>)
    requires Guarded(w, f0) && Orders(w, srcs) && LaySeq(w, f0, srcs).Some?
    requires forall h :: h in w.objects ==> Words(w, h) >= 1
    ensures Backed(w, f0, LaySeq(w, f0, srcs).value)
  {
    hide LayOne, Words, NoAbut, Taken;
    if srcs != [] {
      BackedAll(w, f0, srcs[..|srcs| - 1]);
      BackedOne(w, f0, LaySeq(w, f0, srcs[..|srcs| - 1]).value, Words(w, srcs[|srcs| - 1]), |srcs| - 1);
    } else {
      NoRuns(w, f0);
    }
  }

  lemma NoRuns(w: Old, f0: nat)
    requires Guarded(w, f0)
    ensures Backed(w, f0, Room(w.space, w.last, f0, 0, 0, []))
  {
  }

  /** When the search does not stand between two free pages, no run ends where an earlier one begins,
      however large the objects, however often the search comes round and the heap grows. */
  lemma GuardedOrders(w: Old, f0: nat)
    requires Guarded(w, f0) && forall h :: h in w.objects ==> Words(w, h) >= 1
    ensures Orderly(w, f0)
  {
    hide LaySeq, Words, NoAbut;
    forall srcs | Orders(w, srcs) && LaySeq(w, f0, srcs).Some? ensures NoAbut(LaySeq(w, f0, srcs).value.runs) {
      BackedAll(w, f0, srcs);
    }
  }

  // ----- what the search leaves behind -----

  /** The search stands behind pages just taken, or at the first page, or where it was. */
  predicate Follows(w: Old, f0: nat, room: Room) {
    || room.freepage <= w.first
    || (room.freepage <= |room.space| && room.space[room.freepage - 1] == w.into)
    || (room.freepage == f0 && room.space == w.space)
  }

  lemma {:induction false} FollowsAll(w: Old, f0: nat, srcs: seq<nat>)
    requires w.first <= w.last < |w.space| && (forall h :: h in w.objects ==> Words(w, h) >= 1) && Orders(w, srcs)
    ensures var r := LaySeq(w, f0, srcs);
      r.Some? ==> Follows(w, f0, r.value) && r.value.last < |r.value.space| == |w.space|
  {
    hide Words, Search, PagesFor;
    if srcs != [] {
      FollowsAll(w, f0, srcs[..|srcs| - 1]);
      var r := LaySeq(w, f0, srcs[..|srcs| - 1]);
      if r.Some? {
        hide LaySeq;
        FollowsOne(w, f0, r.value, Words(w, srcs[|srcs| - 1]), |srcs| - 1);
      }
    }
  }

  lemma FollowsOne(w: Old, f0: nat, room: Room, words: nat, k: nat)
    requires w.first <= room.last < |room.space| && Follows(w, f0, room) && words >= 1
    ensures var r := LayOne(w, room, words, k);
      r.Some? ==> Follows(w, f0, r.value) && r.value.last < |r.value.space| == |room.space|
  {
    if words > room.freewords {
      var n := PagesFor(words);
      assert n >= 1;
      hide PagesFor, FirstFit;
    }
  }

  /** No pages in use, so no objects; or a page before the search that is in use: the condition under which
      no order of copying goes wrong. */
  lemma TrailingOrders(w: Old, f0: nat, pages: nat)
    requires OldOk(w) && w.first <= f0 <= w.last && Counted(pages, w.space, w.from)
    requires f0 == w.first || pages == 0 || w.space[f0 - 1] == w.from || w.space[f0 - 1] == NURSERY
    ensures Orderly(w, f0)
  {
    forall h | h in w.objects ensures Words(w, h) >= 1 && pages > 0 {
      assert InMemory(w, h) && OnPages(w, h);
      TagOfOld(w, h, h / PAGE_WORDS);
      CountSome(w.space, h / PAGE_WORDS, w.from);
    }
    hide OldOk, Words, LaySeq;
    if pages > 0 {
      GuardedOrders(w, f0);
    } else {
      forall srcs | Orders(w, srcs) && LaySeq(w, f0, srcs).Some? ensures NoAbut(LaySeq(w, f0, srcs).value.runs) {
        NothingLaid(w, f0, srcs);
      }
    }
  }

  lemma NothingLaid(w: Old, f0: nat, srcs: seq<nat>)
    requires w.first <= w.last && Orders(w, srcs) && forall h :: h !in w.objects
    ensures LaySeq(w, f0, srcs).Some? && LaySeq(w, f0, srcs).value.runs == []
  {
    if srcs != [] {
      OneOrder(w, srcs, 0);
      assert false;
    }
  }

  lemma OneOrder(w: Old, srcs: seq<nat>, k: nat)
    requires Orders(w, srcs) && k < |srcs|
    ensures srcs[k] in w.objects
  {
  }

  lemma {:induction false} CountSome(tags: seq<nat>, p: nat, tag: nat)
    requires p < |tags| && tags[p] == tag
    ensures Count(tags, tag) > 0
  {
    if p < |tags| - 1 { CountSome(tags[..|tags| - 1], p, tag); }
  }
}
