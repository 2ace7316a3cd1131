/** When the reservation is large enough, a collection does not fail for want of pages: growing makes room,
    and how much is needed is bounded by the pages in use. */
module GcReserve {
  import opened Wrappers
  import opened GcWords
  import opened GcSpec
  import opened GcPages
  import opened GcLayout
  import opened GcPlacing
  import opened GcRoom

  // ----- growing -----

  /** All pages from top on are free, up to the end of the reservation. */
  ghost predicate FreeFrom(space: seq<nat>, top: nat, current: nat, next: nat) {
    forall p :: top <= p < |space| ==> FreeTag(space[p], current, next)
  }

  /** Growing is within the reservation. */
  predicate MayGrow(first: nat, last: nat, limit: nat, inUse: nat, n: nat) {
    first + 2 * (last + 1 - first) <= limit && first + 2 * (inUse + n + 512) <= limit
  }

  /** Growing at least doubles the heap, and makes more room than is asked for, but no more than that. */
  lemma GrownIs(first: nat, last: nat, limit: nat, inUse: nat, n: nat)
    requires first <= last
    ensures var last' := GrownLast(first, last, limit, inUse, n);
      && (last < last' <==> MayGrow(first, last, limit, inUse, n))
      && (last < last' ==> last' < limit && 2 * (last + 1 - first) <= last' + 1 - first
                           && 2 * (inUse + n + 512) <= last' + 1 - first
                           && (last' + 1 - first == 2 * (last + 1 - first) ||
                             last' + 1 - first == 2 * (inUse + n + 512)))
  {
  }

  /** When there is room at the end, or the heap may grow, pages are found: there, or further down. */
  lemma Finds(space: seq<nat>, freepage: nat, first: nat, last: nat, inUse: nat, n: nat, current: nat, next: nat,
              top: nat)
    requires first <= freepage <= last < |space| && freepage <= top <= last + 1 && n >= 1
    requires FreeFrom(space, top, current, next)
    requires top + n <= last + 1 || MayGrow(first, last, |space|, inUse, n)
    ensures var r := Allocates(space, freepage, first, last, inUse, n, current, next);
      && r.Some? && first <= r.value.page <= top && last <= r.value.last < |space|
      && r.value.page + n <= r.value.last + 1 && AllFree(space, r.value.page, n, current, next)
  {
    hide FirstFit, GrownLast;
    assert top + n <= |space| ==> AllFree(space, top, n, current, next);
    if top + n > last + 1 { GrownIs(first, last, |space|, inUse, n); }
  }

  /** With all pages behind the heap free, growing gives what the heap does not have. */
  lemma GrowthFinds(space: seq<nat>, freepage: nat, first: nat, last: nat, inUse: nat, n: nat, current: nat, next: nat)
    requires first <= freepage <= last < |space| && n >= 1 && FreeFrom(space, last + 1, current, next)
    requires first + 2 * (last + 1 - first) <= |space| && first + 2 * (inUse + n + 512) <= |space|
    ensures Allocates(space, freepage, first, last, inUse, n, current, next).Some?
  {
    Finds(space, freepage, first, last, inUse, n, current, next, last + 1);
  }

  // ----- a collection -----

  /** Pages have been taken up to `top` at most, no more than there have been taken behind the heap as it
      was; and they are not more than the objects copied need. */
  ghost predicate Topped(w: Old, room: Room, top: nat, left: set<nat>) {
    && |room.space| == |w.space| && w.first <= room.freepage <= room.last < |w.space| && room.freepage <= top
    && top <= room.last + 1 && top <= w.last + 1 + room.taken && w.last <= room.last
    && FreeFrom(room.space, top, w.from, w.into) && room.freewords < PAGE_WORDS
    && PAGE_WORDS * room.taken + Need(w, left) <= room.freewords + Need(w, w.objects)
  }

  /** The reservation has room for twice the heap and what its objects may need. */
  ghost predicate Reserve(w: Old) {
    PAGE_WORDS * (|w.space| - w.first) >= 2 * (PAGE_WORDS * (w.last + 1 - w.first + 512) + Need(w, w.objects))
  }

  lemma ToppedNext(w: Old, room: Room, top: nat, left: set<nat>, h: nat, k: nat) returns (top': nat)
    requires Topped(w, room, top, left) && h in left && left <= w.objects && Words(w, h) >= 1 && Reserve(w)
    requires w.from != w.into && w.into != NURSERY && w.first <= w.last
    ensures var r := LayOne(w, room, Words(w, h), k); r.Some? && Topped(w, r.value, top', left - {h})
  {
    hide Need, Words, Allocates;
    NeedMinus(w, left, h);
    var words, n := Words(w, h), PagesFor(Words(w, h));
    if words <= room.freewords {
      top' := top;
    } else {
      assert words <= PAGE_WORDS ==> n == 1;
      assert n >= 1;
      TakenBound(w, room, left, h, n);
      if top + n > room.last + 1 { assert MayGrow(w.first, room.last, |w.space|, room.taken, n); }
      Finds(room.space, room.freepage, w.first, room.last, room.taken, n, w.from, w.into, top);
      var f := Allocates(room.space, room.freepage, w.first, room.last, room.taken, n, w.from, w.into).value;
      top' := if f.page + n > top then f.page + n else top;
    }
  }

  /** The pages for one object more are within what the objects need. */
  lemma TakenBound(w: Old, room: Room, left: set<nat>, h: nat, n: nat)
    requires h in left && PAGE_WORDS * room.taken + Need(w, left) <= room.freewords + Need(w, w.objects)
    requires room.freewords < Words(w, h) && n == PagesFor(Words(w, h)) && room.freewords < PAGE_WORDS
    ensures PAGE_WORDS * (room.taken + n) <= Need(w, w.objects) + PAGE_WORDS
  {
    hide Words;
    NeedMinus(w, left, h);
    hide Need;
    assert Words(w, h) <= PAGE_WORDS ==> n == 1;
  }

  lemma {:induction false} ToppedAll(w: Old, f0: nat, srcs: seq<nat>) returns (top: nat)
    requires OldOk(w) && w.first <= f0 <= w.last && Reserve(w) && Orders(w, srcs)
    requires forall h :: h in w.objects ==> Words(w, h) >= 1
    ensures var r := LaySeq(w, f0, srcs); r.Some? && Topped(w, r.value, top, w.objects - (set h | h in srcs))
  {
    hide Words, LayOne, Need, Reserve;
    if srcs == [] {
      top := w.last + 1;
      assert w.objects - (set h | h in srcs) == w.objects;
    } else {
      var short, h := srcs[..|srcs| - 1], srcs[|srcs| - 1];
      var t := ToppedAll(w, f0, short);
      var left := w.objects - (set g | g in short);
      assert left - {h} == w.objects - (set g | g in srcs);
      hide OldOk;
      top := ToppedNext(w, LaySeq(w, f0, short).value, t, left, h, |short|);
    }
  }

  // ----- what objects need is bounded by the pages in use -----

  /** The words of these objects. */
  ghost function Covered(w: Old, s: set<nat>): set<nat> {
    set h, i | h in s && i in Interval(h, Words(w, h)) :: i
  }

  function Interval(lo: nat, n: nat): (r: set<nat>)
    ensures |r| == n && forall i :: i in r <==> lo <= i < lo + n
  {
    if n == 0 then {} else Interval(lo, n - 1) + {lo + n - 1}
  }

  lemma ThriceWords(w: Old, h: nat)
    requires Words(w, h) >= 1
    ensures Weight(w, h) <= 3 * Words(w, h)
  {
    hide Words;
  }

  lemma {:induction false} NeedCovered(w: Old, s: set<nat>)
    requires s <= w.objects && OldOk(w)
    ensures Need(w, s) <= 3 * |Covered(w, s)|
  {
    if s == {} {
      assert Covered(w, s) == {};
    } else {
      var h :| h in s;
      assert InMemory(w, h);
      assert forall k :: k in w.objects && k != h ==> k + Words(w, k) <= h || h + Words(w, h) <= k;
      NeedCovered(w, s - {h});
      hide OldOk, Words;
      NeedMinus(w, s, h);
      ThriceWords(w, h);
      CoveredMinus(w, s, h);
    }
  }

  lemma CoveredMinus(w: Old, s: set<nat>, h: nat)
    requires h in s && forall k :: k in s && k != h ==> k + Words(w, k) <= h || h + Words(w, h) <= k
    ensures |Covered(w, s)| == |Covered(w, s - {h})| + Words(w, h)
  {
    hide Words, Interval;
    var own, rest := Interval(h, Words(w, h)), Covered(w, s - {h});
    forall i ensures i in Covered(w, s) <==> i in rest || i in own {
      if i in Covered(w, s) {
        var k :| k in s && i in Interval(k, Words(w, k));
        assert k == h || k in s - {h};
      }
    }
    assert Covered(w, s) == rest + own;
    assert rest !! own;
  }

  /** The words of the pages with a tag, among the first n pages. */
  function Tagged64(tags: seq<nat>, tag: nat, n: nat): (r: set<nat>)
    requires n <= |tags|
    ensures forall i: nat :: i in r <==> 0 <= i / PAGE_WORDS < n && tags[i / PAGE_WORDS] == tag
  {
    if n == 0 then {}
    else
      var r := Tagged64(tags, tag, n - 1);
      if tags[n - 1] == tag then r + Interval(PAGE_WORDS * (n - 1), PAGE_WORDS) else r
  }

  lemma {:induction false} TaggedSize(tags: seq<nat>, tag: nat, n: nat)
    requires n <= |tags|
    ensures |Tagged64(tags, tag, n)| == PAGE_WORDS * Count(tags[..n], tag)
  {
    if n > 0 {
      TaggedSize(tags, tag, n - 1);
      assert tags[..n][..n - 1] == tags[..n - 1];
      assert Tagged64(tags, tag, n - 1) !! Interval(PAGE_WORDS * (n - 1), PAGE_WORDS);
    }
  }

  lemma {:induction false} SubsetSize(a: set<nat>, b: set<nat>)
    requires a <= b
    ensures |a| <= |b|
  {
    if a != {} {
      var x :| x in a;
      SubsetSize(a - {x}, b - {x});
    }
  }

  /** Objects are on pages of their space. */
  lemma OnTheirPages(w: Old)
    requires OldOk(w)
    ensures Covered(w, w.objects) <= Tagged64(w.space, w.from, |w.space|)
  {
    hide Words;
    forall i | i in Covered(w, w.objects) ensures i in Tagged64(w.space, w.from, |w.space|) {
      var h :| h in w.objects && i in Interval(h, Words(w, h));
      assert InMemory(w, h);
      TagOfOld(w, h, i / PAGE_WORDS);
    }
  }

  lemma NeedPages(w: Old)
    requires OldOk(w)
    ensures Need(w, w.objects) <= 3 * PAGE_WORDS * Count(w.space, w.from)
  {
    hide OldOk, Need;
    NeedCovered(w, w.objects);
    OnTheirPages(w);
    SubsetSize(Covered(w, w.objects), Tagged64(w.space, w.from, |w.space|));
    TaggedSize(w.space, w.from, |w.space|);
    assert w.space[..|w.space|] == w.space;
  }

  /** When the reservation has room for twice the heap and six times the pages in use, and 1024 more, every
      order of copying finds room, whatever the objects. */
  lemma ReservedFits(w: Old, f0: nat, pages: nat)
    requires OldOk(w) && w.first <= f0 <= w.last && Counted(pages, w.space, w.from)
    requires w.first + 2 * (w.last + 1 - w.first + 3 * pages + 512) <= |w.space|
    ensures Fits(w, f0)
  {
    hide Words, Need, LaySeq;
    NeedPages(w);
    forall h | h in w.objects ensures Words(w, h) >= 1 { assert InMemory(w, h); }
    forall srcs | Orders(w, srcs) ensures LaySeq(w, f0, srcs).Some? { var top := ToppedAll(w, f0, srcs); }
  }
}
