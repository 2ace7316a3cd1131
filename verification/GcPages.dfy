/** Pages of the collected heap: tags, the queue of pages to be scanned, and the search for free
    pages, which moves on cyclically. */
module GcPages {
  import opened Wrappers
  import opened GcWords
  import opened GcSpec

  const OBJECT := 0
  const CONTINUED := 1
  const NURSERY_PAGES := 4096

  // ----- the queue -----

  /** The pages queued so far, of which q have left the queue: the others are linked in order, and
      every one is marked. */
  ghost predicate QueueOk(order: seq<nat>, q: nat, head: nat, tail: nat, link: seq<nat>, queued: seq<nat>) {
    && q <= |order| && |link| == |queued|
    && (forall i :: 0 <= i < |order| ==> 0 < order[i] < |link| && queued[order[i]] == 1)
    && (forall i, j :: 0 <= i < j < |order| ==> order[i] != order[j])
    && head == (if q < |order| then order[q] else 0)
    && (q < |order| ==> tail == order[|order| - 1])
    && (forall i :: q <= i < |order| ==> link[order[i]] == if i + 1 < |order| then order[i + 1] else 0)
    && (forall p :: 0 <= p < |queued| && queued[p] != 0 ==> p in order)
  }

  // ----- runs of free pages -----

  /** The tags with pages [page, page + n) set. */
  function Tagged(tags: seq<nat>, page: nat, n: nat, tag: nat): (r: seq<nat>)
    ensures |r| == |tags| && forall p :: 0 <= p < |tags| ==> r[p] == if page <= p < page + n then tag else tags[p]
  {
    seq(|tags|, p requires 0 <= p < |tags| => if page <= p < page + n then tag else tags[p])
  }

  function Count(tags: seq<nat>, tag: nat): nat {
    if tags == [] then 0 else Count(tags[..|tags| - 1], tag) + (if tags[|tags| - 1] == tag then 1 else 0)
  }

  lemma {:induction false} CountSame(a: seq<nat>, b: seq<nat>, tag: nat)
    requires |a| == |b| && forall p :: 0 <= p < |a| ==> (a[p] == tag <==> b[p] == tag)
    ensures Count(a, tag) == Count(b, tag)
  {
    if a != [] { CountSame(a[..|a| - 1], b[..|b| - 1], tag); }
  }

  lemma {:induction false} CountNone(a: seq<nat>, tag: nat)
    requires forall p :: 0 <= p < |a| ==> a[p] != tag
    ensures Count(a, tag) == 0
  {
    if a != [] { CountNone(a[..|a| - 1], tag); }
  }

  /** Tagging n pages that did not have the tag adds n to their count. */
  lemma {:induction false} CountTagged(tags: seq<nat>, page: nat, n: nat, tag: nat)
    requires page + n <= |tags| && forall p :: page <= p < page + n ==> tags[p] != tag
    ensures Count(Tagged(tags, page, n, tag), tag) == Count(tags, tag) + n
  {
    var r := Tagged(tags, page, n, tag);
    if n == 0 {
      assert r == tags;
    } else if page + n == |tags| {
      var short := tags[..|tags| - 1];
      CountTagged(short, page, n - 1, tag);
      assert r[..|r| - 1] == Tagged(short, page, n - 1, tag);
    } else {
      var short := tags[..|tags| - 1];
      CountTagged(short, page, n, tag);
      assert r[..|r| - 1] == Tagged(short, page, n, tag);
    }
  }

  predicate Counted(n: nat, tags: seq<nat>, tag: nat) {
    n == Count(tags, tag)
  }

  lemma CountedTagged(count: nat, tags: seq<nat>, page: nat, n: nat, tag: nat)
    requires Counted(count, tags, tag) && page + n <= |tags| && forall p :: page <= p < page + n ==> tags[p] != tag
    ensures Counted(count + n, Tagged(tags, page, n, tag), tag)
  {
    CountTagged(tags, page, n, tag);
  }

  /** Whether the search takes a page with this tag: of neither space and not of the nursery. */
  predicate FreeTag(tag: nat, current: nat, next: nat) {
    tag != current && tag != next && tag != NURSERY
  }

  predicate AllFree(space: seq<nat>, page: nat, n: nat, current: nat, next: nat) {
    page + n <= |space| && forall p :: page <= p < page + n ==> FreeTag(space[p], current, next)
  }

  /** The first n free pages in a row between lo and hi. */
  function FirstFit(space: seq<nat>, lo: nat, hi: nat, n: nat, current: nat, next: nat): (r: Option<nat>)
    ensures r.Some? ==> lo <= r.value && r.value + n <= hi && AllFree(space, r.value, n, current, next)
    ensures forall p :: lo <= p && p + n <= hi && (r.None? || p < r.value) ==> !AllFree(space, p, n, current, next)
    decreases hi - lo
  {
    if lo >= hi || lo + n > hi then
      if lo + n <= hi && AllFree(space, lo, n, current, next) then Some(lo) else None
    else if AllFree(space, lo, n, current, next) then Some(lo)
    else FirstFit(space, lo + 1, hi, n, current, next)
  }

  /** The pages that the search takes: the first ones from freepage on, or else the first ones before. */
  function Search(space: seq<nat>, freepage: nat, first: nat, last: nat, n: nat, current: nat, next: nat): Option<nat> {
    var r := FirstFit(space, freepage, last + 1, n, current, next);
    if r.Some? then r else FirstFit(space, first, freepage, n, current, next)
  }

  /** A page that is not free is in no fit. */
  lemma {:induction false} SkipPage(space: seq<nat>, lo: nat, p: nat, hi: nat, n: nat, current: nat, next: nat)
    requires lo <= p < lo + n && p < hi && p < |space| && !FreeTag(space[p], current, next)
    ensures FirstFit(space, lo, hi, n, current, next) == FirstFit(space, p + 1, hi, n, current, next)
    decreases p - lo
  {
    if lo < p { SkipPage(space, lo + 1, p, hi, n, current, next); }
    assert !AllFree(space, lo, n, current, next);
    if lo + n > hi { TooFew(space, p + 1, hi, n, current, next); }
  }

  /** What a search that began at `start` will find, when the free pages that it is on begin at `at`. */
  function Left(space: seq<nat>, round: bool, at: nat, start: nat, first: nat, last: nat, n: nat, current: nat,
                next: nat): Option<nat>
  {
    if round then FirstFit(space, at, start, n, current, next)
    else
      var r := FirstFit(space, at, last + 1, n, current, next);
      if r.Some? then r else FirstFit(space, first, start, n, current, next)
  }

  /** Nothing is left when the search has come to where it began. */
  lemma LeftNone(space: seq<nat>, at: nat, start: nat, first: nat, last: nat, n: nat, current: nat, next: nat)
    requires at + n > start
    ensures Left(space, true, at, start, first, last, n, current, next) == None
  {
  }

  lemma LeftSkip(space: seq<nat>, round: bool, at: nat, p: nat, start: nat, first: nat, last: nat, n: nat,
                 current: nat, next: nat)
    requires at <= p < at + n && p < (if round then start else last + 1) && p < |space|
    requires !FreeTag(space[p], current, next)
    ensures Left(space, round, at, start, first, last, n, current, next) ==
      Left(space, round, p + 1, start, first, last, n, current, next)
  {
    hide FirstFit;
    SkipPage(space, at, p, if round then start else last + 1, n, current, next);
  }

  lemma LeftFound(space: seq<nat>, round: bool, at: nat, start: nat, first: nat, last: nat, n: nat, current: nat,
                  next: nat)
    requires at + n <= (if round then start else last + 1) && AllFree(space, at, n, current, next)
    ensures Left(space, round, at, start, first, last, n, current, next) == Some(at)
  {
  }

  /** At the end of the pages the search goes on with the first, and counts anew. */
  lemma LeftWrap(space: seq<nat>, at: nat, start: nat, first: nat, last: nat, n: nat, current: nat, next: nat)
    requires at + n > last + 1
    ensures Left(space, false, at, start, first, last, n, current, next) ==
      Left(space, true, first, start, first, last, n, current, next)
  {
  }

  /** A search that began at `start` is at page `here`, the last `free` pages before being free, with
      `left` pages to be looked at. */
  ghost predicate Seeking(space: seq<nat>, round: bool, start: nat, first: nat, last: nat, n: nat, current: nat,
                          next: nat, here: nat, free: nat, left: nat) {
    && first <= start <= last < |space| && first <= here <= last && free < n && free <= here - first
    && AllFree(space, here - free, free, current, next)
    && (if round then here <= start && left == start - here
        else left == last + 1 - here + (start - first) && start <= here - free)
    && Left(space, round, here - free, start, first, last, n, current, next) ==
      Search(space, start, first, last, n, current, next)
  }

  function NextPage(page: nat, first: nat, last: nat): nat {
    if page == last then first else page + 1
  }

  lemma SeekStart(space: seq<nat>, start: nat, first: nat, last: nat, n: nat, current: nat, next: nat)
    requires first <= start <= last < |space| && n >= 1
    ensures Seeking(space, false, start, first, last, n, current, next, start, 0, last + 1 - first)
  {
    hide FirstFit;
  }

  lemma SeekSizes(space: seq<nat>, round: bool, start: nat, first: nat, last: nat, n: nat, current: nat, next: nat,
                  here: nat, free: nat, left: nat)
    requires Seeking(space, round, start, first, last, n, current, next, here, free, left)
    ensures first <= here <= last < |space| && free < n && free <= here - first
  {
    hide FirstFit, Search, Left;
  }

  /** A page that is free completes a row, or is one more. */
  lemma SeekFound(space: seq<nat>, round: bool, start: nat, first: nat, last: nat, n: nat, current: nat, next: nat,
                  here: nat, free: nat, left: nat)
    requires Seeking(space, round, start, first, last, n, current, next, here, free, left) && left > 0
    requires FreeTag(space[here], current, next) && free + 1 == n
    ensures Search(space, start, first, last, n, current, next) == Some(here - free)
    ensures AllFree(space, here - free, n, current, next)
  {
    hide FirstFit, Search, Left;
    LeftFound(space, round, here - free, start, first, last, n, current, next);
  }

  lemma SeekOn(space: seq<nat>, round: bool, start: nat, first: nat, last: nat, n: nat, current: nat, next: nat,
               here: nat, free: nat, left: nat)
    requires Seeking(space, round, start, first, last, n, current, next, here, free, left) && left > 0
    requires FreeTag(space[here], current, next) && free + 1 < n
    ensures Seeking(space, round || here == last, start, first, last, n, current, next, NextPage(here, first, last),
                    if here == last then 0 else free + 1, left - 1)
  {
    hide FirstFit, Search, Left;
    if here == last && !round { LeftWrap(space, here - free, start, first, last, n, current, next); }
  }

  lemma SeekOff(space: seq<nat>, round: bool, start: nat, first: nat, last: nat, n: nat, current: nat, next: nat,
                here: nat, free: nat, left: nat)
    requires Seeking(space, round, start, first, last, n, current, next, here, free, left) && left > 0
    requires !FreeTag(space[here], current, next)
    ensures Seeking(space, round || here == last, start, first, last, n, current, next, NextPage(here, first, last), 0,
                    left - 1)
  {
    hide FirstFit, Search, Left;
    LeftSkip(space, round, here - free, here, start, first, last, n, current, next);
    if here == last && !round { LeftWrap(space, here + 1, start, first, last, n, current, next); }
  }

  lemma SeekEnd(space: seq<nat>, round: bool, start: nat, first: nat, last: nat, n: nat, current: nat, next: nat,
                here: nat, free: nat, left: nat)
    requires Seeking(space, round, start, first, last, n, current, next, here, free, left) && left == 0
    ensures Search(space, start, first, last, n, current, next) == None && here == start
  {
    hide FirstFit, Search, Left;
    LeftNone(space, here - free, start, first, last, n, current, next);
  }

  lemma TooFew(space: seq<nat>, lo: nat, hi: nat, n: nat, current: nat, next: nat)
    requires lo + n > hi
    ensures FirstFit(space, lo, hi, n, current, next) == None
  {
  }

  /** Where the heap ends after growing, if the reservation allows. */
  function GrownLast(first: nat, last: nat, limit: nat, inUse: nat, pages: nat): (r: nat)
    requires first <= last
    ensures r >= last && (r > last ==> r < limit)
  {
    var wanted := if 2 * (last + 1 - first) < 2 * (inUse + pages + 512) then 2 * (inUse + pages + 512)
                  else 2 * (last + 1 - first);
    if first + wanted > limit then last else first + wanted - 1
  }

  /** Pages that are taken, and the last page in use then. */
  datatype Found = Found(page: nat, last: nat)

  /** allocatepage: the pages that the search finds, if need be after growing once. */
  function Allocates(space: seq<nat>, freepage: nat, first: nat, last: nat, inUse: nat, n: nat, current: nat,
                     next: nat): Option<Found>
    requires first <= last
  {
    var r := Search(space, freepage, first, last, n, current, next);
    if r.Some? then Some(Found(r.value, last))
    else
      var last' := GrownLast(first, last, |space|, inUse, n);
      var r' := Search(space, freepage, first, last', n, current, next);
      if last' == last || r'.None? then None else Some(Found(r'.value, last'))
  }

  /** The page after these, cyclically. */
  function After(page: nat, n: nat, first: nat, last: nat): nat {
    if page + n == last + 1 then first else page + n
  }

  /** Queued pages are of one of the spaces. */
  ghost predicate OrderOk(order: seq<nat>, space: seq<nat>, current: nat, next: nat) {
    forall i :: 0 <= i < |order| ==> order[i] < |space| && (space[order[i]] == next || space[order[i]] == current)
  }

  lemma OrderPlus(order: seq<nat>, space: seq<nat>, current: nat, next: nat, page: nat, pages: nat)
    requires OrderOk(order, space, current, next) && page + pages <= |space| && pages >= 1
    ensures OrderOk(order, Tagged(space, page, pages, next), current, next)
    ensures OrderOk(order + [page], Tagged(space, page, pages, next), current, next)
  {
  }

  lemma NotQueued(order: seq<nat>, space: seq<nat>, current: nat, next: nat, page: nat)
    requires OrderOk(order, space, current, next) && page < |space| && FreeTag(space[page], current, next)
    ensures page !in order
  {
  }

  /** Tagging free pages leaves the tags of the nursery, and tags only pages in use. */
  lemma RangesTagged(space: seq<nat>, page: nat, pages: nat, current: nat, next: nat, nurseryFirst: nat,
                     nurseryLast: nat, first: nat, last: nat)
    requires 1 <= first <= page && page + pages <= last + 1 && last < |space|
    requires forall p :: page <= p < page + pages ==> FreeTag(space[p], current, next)
    requires forall p :: 0 <= p < |space| && space[p] != 0 ==> first <= p <= last
    requires forall p :: first <= p <= last && nurseryFirst <= p <= nurseryLast ==> space[p] == NURSERY
    ensures forall p :: 0 <= p < |space| && Tagged(space, page, pages, next)[p] != 0 ==> first <= p <= last
    ensures forall p :: first <= p <= last && nurseryFirst <= p <= nurseryLast ==>
      Tagged(space, page, pages, next)[p] == NURSERY
  {
    forall p | first <= p <= last && nurseryFirst <= p <= nurseryLast
      ensures Tagged(space, page, pages, next)[p] == NURSERY {
      assert space[p] == NURSERY;
      assert !(page <= p < page + pages);
    }
  }

  /** Pages that were not free have the types that they had. */
  ghost predicate TypesKept(space: seq<nat>, types: seq<nat>, types': seq<nat>, current: nat, next: nat) {
    |types| == |types'| == |space| &&
    forall p :: 0 <= p < |space| && !FreeTag(space[p], current, next) ==> types'[p] == types[p]
  }

  lemma TypesTaken(space: seq<nat>, types: seq<nat>, page: nat, n: nat, current: nat, next: nat)
    requires |types| == |space| && page + n <= |space| && n >= 1
    requires forall p :: page <= p < page + n ==> FreeTag(space[p], current, next)
    ensures TypesKept(space, types, Tagged(types, page, n, CONTINUED)[page := OBJECT], current, next)
  {
  }

  /** Queued pages begin an object, and no page of the nursery is the tail of one. */
  ghost predicate HeadsOk(order: seq<nat>, types: seq<nat>, space: seq<nat>) {
    |types| == |space| && (forall i :: 0 <= i < |order| && order[i] < |types| ==> types[order[i]] == OBJECT)
    && forall p :: 0 <= p < |types| && space[p] == NURSERY ==> types[p] != CONTINUED
  }

  lemma HeadsTaken(order: seq<nat>, types: seq<nat>, space: seq<nat>, page: nat, n: nat, current: nat, next: nat)
    requires HeadsOk(order, types, space) && OrderOk(order, space, current, next) && next != NURSERY
    requires page + n <= |space| && n >= 1 && forall p :: page <= p < page + n ==> FreeTag(space[p], current, next)
    ensures var types', space' := Tagged(types, page, n, CONTINUED)[page := OBJECT], Tagged(space, page, n, next);
      HeadsOk(order, types', space') && HeadsOk(order + [page], types', space')
  {
    forall i | 0 <= i < |order| ensures !(page <= order[i] < page + n) {
      assert order[i] < |space|;
    }
  }

  lemma TypesSame(space: seq<nat>, types: seq<nat>, current: nat, next: nat)
    ensures |types| == |space| ==> TypesKept(space, types, types, current, next)
  {
  }

  lemma TypesThen(space: seq<nat>, a: seq<nat>, b: seq<nat>, c: seq<nat>, current: nat, next: nat)
    requires TypesKept(space, a, b, current, next) && TypesKept(space, b, c, current, next)
    ensures TypesKept(space, a, c, current, next)
  {
  }

  class Pages {
    const first: nat
    const limit: nat
    const nurseryFirst: nat
    const nurseryLast: nat
    var last: nat
    var space: seq<nat>
    var typePage: seq<nat>
    var link: seq<nat>
    var queued: seq<nat>
    var head: nat
    var tail: nat
    var freepage: nat
    var allocatedPages: nat
    var currentSpace: nat
    var nextSpace: nat
    var inScavenge: bool
    ghost var order: seq<nat>
    ghost var q: nat

    /** The tables cover the reservation, of which the pages up to `last` are in use; the pages of
        the nursery keep their tag, and the other pages in use are free or of one of the spaces;
        the pages of the space that is allocated in are counted. */
    ghost predicate Valid()
      reads this
    {
      && |space| == |typePage| == |link| == |queued| == limit && 1 <= first <= last < limit &&
        first <= freepage <= last && nurseryLast <= last
      && currentSpace != 0 && nextSpace != 0 && currentSpace != NURSERY && nextSpace != NURSERY
      && (forall p :: 0 <= p < limit && space[p] != 0 ==> first <= p <= last)
      && (forall p :: first <= p <= last && nurseryFirst <= p <= nurseryLast ==> space[p] == NURSERY)
      && QueueOk(order, q, head, tail, link, queued)
      && OrderOk(order, space, currentSpace, nextSpace)
      && Counted(allocatedPages, space, nextSpace)
      && HeadsOk(order, typePage, space)
    }

    /** gc_init: all pages are free but those of the nursery, which come first. */
    constructor (first: nat, heappages: nat, limit: nat)
      requires 1 <= first && NURSERY_PAGES < heappages && first + heappages <= limit
      ensures Valid() && fresh(this) && currentSpace == 1 && nextSpace == 1 && !inScavenge && order == [] && q == 0
      ensures this.first == first && this.limit == limit && last == first + heappages - 1
      ensures nurseryFirst == first && nurseryLast == first + NURSERY_PAGES - 1 && freepage == first + NURSERY_PAGES
      ensures forall p :: 0 <= p < limit ==> space[p] == if nurseryFirst <= p <= nurseryLast then NURSERY else 0
    {
      var zeros: seq<nat> := seq(limit, _ => 0);
      this.first, this.limit, last := first, limit, first + heappages - 1;
      nurseryFirst, nurseryLast := first, first + NURSERY_PAGES - 1;
      space, typePage, link, queued := Tagged(zeros, first, NURSERY_PAGES, NURSERY), zeros, zeros, zeros;
      head, tail, freepage, allocatedPages := 0, 0, first + NURSERY_PAGES, 0;
      currentSpace, nextSpace, inScavenge, order, q := 1, 1, false, [], 0;
      new;
      CountNone(space, 1);
    }

    lemma Sizes()
      requires Valid()
      ensures |space| == |typePage| == |link| == |queued| == limit && 1 <= first <= last < limit
      ensures forall p :: 0 <= p < limit && space[p] != 0 ==> p <= last
    {
    }

    lemma HeadIs()
      requires Valid()
      ensures q <= |order| && (head != 0 <==> q < |order|) && (head != 0 ==> head == order[q])
    {
    }

    /** queue_reset */
    method QueueReset()
      requires Valid()
      modifies this`head, this`tail, this`queued, this`order, this`q
      ensures Valid() && order == [] && q == 0
    {
      head, tail := 0, 0;
      queued := Tagged(queued, 0, |queued|, 0);
      order, q := [], 0;
    }

    /** queue: a page enters the queue once. */
    method Queue(page: nat)
      requires QueueOk(order, q, head, tail, link, queued) && 0 < page < |link|
      modifies this`head, this`tail, this`queued, this`link, this`order
      ensures QueueOk(order, q, head, tail, link, queued) && |link| == |old(link)| && |queued| == |old(queued)|
      ensures order == if page in old(order) then old(order) else old(order) + [page]
    {
      if queued[page] == 1 { return; }
      assert page !in order;
      queued := queued[page := 1];
      if head != 0 {
        link := link[tail := page];
        link := link[page := 0];
        tail := page;
      } else {
        head := page;
        link := link[page := 0];
        tail := page;
      }
      order := order + [page];
    }

    /** The page at the head of the queue leaves it. */
    method Dequeue()
      requires Valid() && head != 0
      modifies this`head, this`q
      ensures Valid() && q == old(q) + 1
    {
      head := link[head];
      q := q + 1;
    }

    /** What the search finds. */
    function Sought(n: nat): Option<nat>
      reads this
    {
      Search(space, freepage, first, last, n, currentSpace, nextSpace)
    }

    function Allocated(n: nat): Option<Found>
      requires first <= last
      reads this
    {
      Allocates(space, freepage, first, last, allocatedPages, n, currentSpace, nextSpace)
    }

    /** The search of allocatepage: scans cyclically from freepage for free pages in a row, and takes
        the first.  A row that freepage is in the middle of is not found as one. */
    method FindPages(pages: nat) returns (found: bool, page: nat)
      requires Valid() && pages >= 1
      modifies this`freepage
      ensures Valid() && (found <==> old(Sought(pages)).Some?)
      ensures if found then
          && Some(page) == old(Sought(pages)) && freepage == After(page, pages, first, last)
          && first <= page && page + pages <= last + 1 && AllFree(space, page, pages, currentSpace, nextSpace)
        else freepage == old(freepage)
    {
      hide QueueOk, OrderOk, Counted, FirstFit, Search, Seeking, AllFree, HeadsOk;
      ghost var start, round := freepage, false;
      SeekStart(space, start, first, last, pages, currentSpace, nextSpace);
      var free: nat, firstpage: nat := 0, freepage;
      var allpages: nat := last + 1 - first;
      while allpages > 0
        invariant Valid() && free <= freepage - first && (free > 0 ==> firstpage + free == freepage)
        invariant Seeking(space, round, start, first, last, pages, currentSpace, nextSpace, freepage, free, allpages)
      {
        SeekSizes(space, round, start, first, last, pages, currentSpace, nextSpace, freepage, free, allpages);
        ghost var left, round0 := allpages, round;
        allpages := allpages - 1;
        round := round0 || freepage == last;
        if FreeTag(space[freepage], currentSpace, nextSpace) {
          if free == 0 { firstpage := freepage; }
          free := free + 1;
          if free == pages {
            SeekFound(space, round0, start, first, last, pages, currentSpace, nextSpace, freepage, free - 1, left);
            freepage := if freepage == last then first else freepage + 1;
            return true, firstpage;
          }
          SeekOn(space, round0, start, first, last, pages, currentSpace, nextSpace, freepage, free - 1, left);
        } else {
          SeekOff(space, round0, start, first, last, pages, currentSpace, nextSpace, freepage, free, left);
          free := 0;
        }
        freepage := if freepage == last then first else freepage + 1;
        if freepage == first { free := 0; }
      }
      SeekEnd(space, round, start, first, last, pages, currentSpace, nextSpace, freepage, free, allpages);
      return false, 0;
    }

    /** grow_heap: doubles the pages in use, within the reservation. */
    method Grow(pages: nat) returns (ok: bool)
      requires Valid()
      modifies this`last, this`space, this`typePage
      ensures Valid() && last == GrownLast(first, old(last), limit, allocatedPages, pages) && space == old(space)
      ensures ok <==> last > old(last)
      ensures TypesKept(old(space), old(typePage), typePage, currentSpace, nextSpace)
    {
      hide QueueOk, OrderOk, Counted;
      var heappages := last + 1 - first;
      var wanted := 2 * heappages;
      var least := 2 * (allocatedPages + pages + 512);
      if wanted < least { wanted := least; }
      if first + wanted > limit { return false; }
      var oldLast := last;
      last := first + wanted - 1;
      space := Tagged(space, oldLast + 1, last - oldLast, 0);
      typePage := Tagged(typePage, oldLast + 1, last - oldLast, 0);
      assert space == old(space);
      ok := true;
    }

    /** A run of free pages is tagged, counted and, during a collection, queued. */
    method TakePages(page: nat, pages: nat)
      requires Valid() && pages >= 1 && first <= page && page + pages <= last + 1
      requires forall p :: page <= p < page + pages ==> FreeTag(space[p], currentSpace, nextSpace)
      modifies this`space, this`typePage, this`allocatedPages, this`queued, this`link, this`head, this`tail, this`order
      ensures Valid() && space == Tagged(old(space), page, pages, nextSpace) &&
        allocatedPages == old(allocatedPages) + pages
      ensures typePage == Tagged(old(typePage), page, pages, CONTINUED)[page := OBJECT]
      ensures TypesKept(old(space), old(typePage), typePage, currentSpace, nextSpace)
      ensures order == (if currentSpace != nextSpace || inScavenge then old(order) + [page] else old(order))
    {
      hide QueueOk, OrderOk, Counted, TypesKept, HeadsOk;
      TypesTaken(space, typePage, page, pages, currentSpace, nextSpace);
      NotQueued(order, space, currentSpace, nextSpace, page);
      OrderPlus(order, space, currentSpace, nextSpace, page, pages);
      RangesTagged(space, page, pages, currentSpace, nextSpace, nurseryFirst, nurseryLast, first, last);
      HeadsTaken(order, typePage, space, page, pages, currentSpace, nextSpace);
      CountedTagged(allocatedPages, space, page, pages, nextSpace);
      if currentSpace != nextSpace || inScavenge { Queue(page); }
      allocatedPages := allocatedPages + pages;
      typePage := Tagged(typePage, page, pages, CONTINUED)[page := OBJECT];
      space := Tagged(space, page, pages, nextSpace);
    }

    /** allocatepage, once no collection is due: a run of pages that were free is tagged with the
        next space, as one object page and its continuation, and counted; during a collection its
        first page is queued.  It fails when the heap cannot grow. */
    method AllocatePage(pages: nat) returns (ok: bool, page: nat)
      requires Valid() && pages >= 1
      modifies this`last, this`freepage, this`space, this`typePage, this`allocatedPages, this`queued, this`link,
        this`head, this`tail, this`order
      ensures Valid() && old(last) <= last && (ok <==> old(Allocated(pages)).Some?)
      ensures ok ==>
        && Some(Found(page, last)) == old(Allocated(pages)) && freepage == After(page, pages, first, last)
        && first <= page && page + pages <= last + 1
        && (forall p :: page <= p < page + pages ==> FreeTag(old(space)[p], currentSpace, nextSpace))
        && space == Tagged(old(space), page, pages, nextSpace) && allocatedPages == old(allocatedPages) + pages
        && order == (if currentSpace != nextSpace || inScavenge then old(order) + [page] else old(order))
        && typePage[page] == OBJECT && forall p :: page < p < page + pages ==> typePage[p] == CONTINUED
      ensures !ok ==> space == old(space) && allocatedPages == old(allocatedPages) && order == old(order)
      ensures TypesKept(old(space), old(typePage), typePage, currentSpace, nextSpace)
    {
      hide QueueOk, OrderOk, Counted, Search, GrownLast, TypesKept, HeadsOk;
      TypesSame(space, typePage, currentSpace, nextSpace);
      ghost var space0, types0 := space, typePage;
      var found;
      found, page := FindPages(pages);
      if !found {
        var grown := Grow(pages);
        if grown { found, page := FindPages(pages); }
      }
      ok := found;
      if found {
        ghost var types1 := typePage;
        TakePages(page, pages);
        TypesThen(space0, types0, types1, typePage, currentSpace, nextSpace);
      }
    }

    /** The spaces are swapped: nothing is allocated in the next space yet. */
    method Flip()
      requires Valid() && forall p :: 0 <= p < |space| ==> space[p] != (if currentSpace == 1 then 2 else 1)
      modifies this`nextSpace, this`allocatedPages, this`head, this`tail, this`queued, this`order, this`q
      ensures Valid() && nextSpace == (if currentSpace == 1 then 2 else 1) && allocatedPages == 0 && order == [] &&
        q == 0
    {
      hide Count;
      QueueReset();
      nextSpace := if currentSpace == 1 then 2 else 1;
      allocatedPages := 0;
      CountNone(space, nextSpace);
    }

    /** Every page of the space that was left is free again. */
    method Release()
      requires Valid() && currentSpace != nextSpace && forall i :: 0 <= i < |order| ==> space[order[i]] == nextSpace
      modifies this`space, this`typePage, this`currentSpace
      ensures Valid() && currentSpace == nextSpace && |space| == |old(space)|
      ensures forall p :: 0 <= p < |space| ==>
        space[p] == if old(space)[p] == old(currentSpace) then 0 else old(space)[p]
      ensures forall p :: 0 <= p < |space| && old(space)[p] != old(currentSpace) ==> typePage[p] == old(typePage)[p]
    {
      hide Count, QueueOk;
      ghost var space0, types0 := space, typePage;
      var pg := first;
      while pg <= last
        invariant first <= pg <= last + 1 && |space| == |space0| && |typePage| == limit &&
          currentSpace == old(currentSpace)
        invariant forall p :: 0 <= p < |space| ==>
          space[p] == if first <= p < pg && space0[p] == currentSpace then 0 else space0[p]
        invariant forall p :: 0 <= p < |space| ==>
          typePage[p] == if first <= p < pg && space0[p] == currentSpace then 0 else types0[p]
      {
        if space[pg] == currentSpace {
          space := space[pg := 0];
          typePage := typePage[pg := 0];
        }
        pg := pg + 1;
      }
      assert forall p :: 0 <= p < |space0| ==> (space0[p] == nextSpace <==> space[p] == nextSpace);
      CountSame(space0, space, nextSpace);
      currentSpace := nextSpace;
    }
  }
}
