/** Why objects are copied, and where to: what the order of copying and the scanned words account for. */
module GcTracing {
  import opened Wrappers
  import opened GcWords
  import opened GcSpec
  import opened GcPages
  import opened GcLayout
  import opened GcScanning
  import opened GcPlacing

  /** A root points to the object, or a word of a copy that has been scanned or is being scanned. */
  ghost predicate Caused(w: Old, roots: set<nat>, m: Made, h: nat) {
    || (exists v :: v in roots && IsObject(w, v) && ObjectOf(v) == h)
    || exists k, i :: CausedBy(w, m, h, k, i)
  }

  ghost predicate CausedBy(w: Old, m: Made, h: nat, k: nat, i: nat) {
    && k < |m.copies| && k < |m.scanned| && InMemory(w, m.copies[k].src) && i < Words(w, m.copies[k].src) - 1
    && i <= m.scanned[k] && IsSlot(w, m.copies[k].src, i)
    && IsObject(w, Cell(w, m.copies[k].src, i)) && ObjectOf(Cell(w, m.copies[k].src, i)) == h
  }

  /** Nothing is copied without a cause. */
  ghost predicate Justified(w: Old, roots: set<nat>, m: Made) {
    forall h :: h in m.fwd ==> Caused(w, roots, m, h)
  }

  lemma CausedGrown(w: Old, roots: set<nat>, m: Made, m': Made, h: nat)
    requires Caused(w, roots, m, h) && Grown(m, m')
    ensures Caused(w, roots, m', h)
  {
    hide IsSlot, IsObject, Cell, InMemory, ObjectOf, Words;
    if !(exists v :: v in roots && IsObject(w, v) && ObjectOf(v) == h) {
      var k, i :| CausedBy(w, m, h, k, i);
      CopyStays(m, m', k);
      assert CausedBy(w, m', h, k, i);
    }
  }

  lemma JustifiedGrown(w: Old, roots: set<nat>, m: Made, m': Made)
    requires Justified(w, roots, m) && Grown(m, m') && m'.fwd == m.fwd
    ensures Justified(w, roots, m')
  {
    hide Caused, Grown;
    forall h | h in m'.fwd ensures Caused(w, roots, m', h) { CausedGrown(w, roots, m, m', h); }
  }

  lemma JustifiedPlus(w: Old, roots: set<nat>, m: Made, m': Made, h: nat, d: nat)
    requires Justified(w, roots, m) && Grown(m, m') && m'.fwd == m.fwd[h := d] && Caused(w, roots, m, h)
    ensures Justified(w, roots, m')
  {
    hide Caused, Grown;
    forall g | g in m'.fwd ensures Caused(w, roots, m', g) { CausedGrown(w, roots, m, m', g); }
  }

  /** The account of what has been copied. */
  ghost predicate Traced(w: Old, f0: nat, roots: set<nat>, space: seq<nat>, last: nat, freepage: nat, freewords: nat,
                         taken: nat, m: Made) {
    Laid(w, f0, space, last, freepage, freewords, taken, m.copies, m.runs) && Justified(w, roots, m)
  }

  /** Scanning on keeps it. */
  lemma TracedScanned(w: Old, f0: nat, roots: set<nat>, space: seq<nat>, last: nat, freepage: nat, freewords: nat,
                      taken: nat, m: Made, m': Made)
    requires Traced(w, f0, roots, space, last, freepage, freewords, taken, m) && Grown(m, m')
    requires m' == m.(scanned := m'.scanned)
    ensures Traced(w, f0, roots, space, last, freepage, freewords, taken, m')
  {
    hide Laid, Justified, Grown;
    JustifiedGrown(w, roots, m, m');
  }

  /** A copy is put where the order puts it. */
  lemma TracedPlus(w: Old, f0: nat, roots: set<nat>, m: Made, m': Made, h: nat, d: nat, space: seq<nat>, last: nat,
                   freepage: nat, freewords: nat, taken: nat)
    requires Justified(w, roots, m) && Grown(m, m') && m'.fwd == m.fwd[h := d] && Caused(w, roots, m, h)
    requires Laid(w, f0, space, last, freepage, freewords, taken, m'.copies, m'.runs)
    ensures Traced(w, f0, roots, space, last, freepage, freewords, taken, m')
  {
    hide Laid, Grown, Justified, Caused;
    JustifiedPlus(w, roots, m, m', h, d);
  }

  lemma TracedStart(w: Old, f0: nat, roots: set<nat>)
    requires w.first <= w.last
    ensures Traced(w, f0, roots, w.space, w.last, f0, 0, 0, Made([], [], map[], []))
  {
    LaidStart(w, f0);
  }

  lemma TracedParts(w: Old, f0: nat, roots: set<nat>, space: seq<nat>, last: nat, freepage: nat, freewords: nat,
                    taken: nat, m: Made)
    requires Traced(w, f0, roots, space, last, freepage, freewords, taken, m)
    ensures Laid(w, f0, space, last, freepage, freewords, taken, m.copies, m.runs) && Justified(w, roots, m)
  {
  }

  lemma LaidParts(w: Old, f0: nat, space: seq<nat>, last: nat, freepage: nat, freewords: nat, taken: nat, m: Made)
    requires Laid(w, f0, space, last, freepage, freewords, taken, m.copies, m.runs)
    ensures Orders(w, Srcs(m.copies)) && w.first <= w.last && LaySeq(w, f0, Srcs(m.copies)).Some?
    ensures LaySeq(w, f0, Srcs(m.copies)).value.runs == m.runs
  {
  }

  // ----- the next object -----

  /** The object that is to be copied next is a further one of the order. */
  lemma NextOrder(w: Old, f0: nat, space: seq<nat>, last: nat, freepage: nat, freewords: nat, taken: nat, m: Made,
                  h: nat, d: nat)
    requires Laid(w, f0, space, last, freepage, freewords, taken, m.copies, m.runs) && FwdOk(w, m.fwd, m.copies)
    requires h in w.objects && h !in m.fwd
    ensures var copies' := m.copies + [Copy(h, d, Words(w, h))];
      && Orders(w, Srcs(copies')) && Srcs(copies') == Srcs(m.copies) + [h] && w.first <= last
      && LaySeq(w, f0, Srcs(copies')) ==
        LayOne(w, Room(space, last, freepage, freewords, taken, m.runs), Words(w, h), |m.copies|)
  {
    hide LaySeq, LayOne, Words;
    var c := Copy(h, d, Words(w, h));
    forall k | 0 <= k < |m.copies| ensures m.copies[k].src != h { }
    OrdersPlus(w, m.copies, c);
    LayPlus(w, f0, Srcs(m.copies), h);
  }

  lemma FitsNext(w: Old, f0: nat, srcs: seq<nat>)
    requires Fits(w, f0) && Orders(w, srcs)
    ensures LaySeq(w, f0, srcs).Some?
  {
  }

  /** The copy has been put in the room left. */
  lemma LaidInRoom(w: Old, f0: nat, space: seq<nat>, last: nat, freepage: nat, freewords: nat, taken: nat, m: Made,
                   h: nat, d: nat, runs: seq<Run>)
    requires Laid(w, f0, space, last, freepage, freewords, taken, m.copies, m.runs) && FwdOk(w, m.fwd, m.copies)
    requires h in w.objects && h !in m.fwd && Words(w, h) <= freewords && m.runs != []
    requires runs == m.runs[|m.runs| - 1 := m.runs[|m.runs| - 1].(end := |m.copies| + 1)]
    ensures Laid(w, f0, space, last, freepage, freewords - Words(w, h), taken, m.copies + [Copy(h, d, Words(w, h))],
      runs)
  {
    hide LaySeq, Words, Orders;
    NextOrder(w, f0, space, last, freepage, freewords, taken, m, h, d);
  }

  /** The copy has been put on new pages. */
  lemma LaidOnPages(w: Old, f0: nat, space: seq<nat>, last: nat, freepage: nat, freewords: nat, taken: nat, m: Made,
                    h: nat, d: nat, page: nat, last': nat)
    requires Laid(w, f0, space, last, freepage, freewords, taken, m.copies, m.runs) && FwdOk(w, m.fwd, m.copies)
    requires h in w.objects && h !in m.fwd && Words(w, h) > freewords && w.first <= last
    requires Allocates(space, freepage, w.first, last, taken, PagesFor(Words(w, h)), w.from, w.into) ==
      Some(Found(page, last'))
    ensures var words := Words(w, h); var n := PagesFor(words);
      Laid(w, f0, Tagged(space, page, n, w.into), last', After(page, n, w.first, last'),
           if words < PAGE_WORDS then PAGE_WORDS - words else 0, taken + n, m.copies + [Copy(h, d, words)],
           m.runs + [Run(page, n, |m.copies|, |m.copies| + 1)])
  {
    hide LaySeq, Words, Orders, Allocates, Tagged;
    NextOrder(w, f0, space, last, freepage, freewords, taken, m, h, d);
  }

  /** There was no room in this order. */
  lemma NoRoomNext(w: Old, f0: nat, space: seq<nat>, last: nat, freepage: nat, freewords: nat, taken: nat, m: Made,
                   h: nat)
    requires Laid(w, f0, space, last, freepage, freewords, taken, m.copies, m.runs) && FwdOk(w, m.fwd, m.copies)
    requires h in w.objects && h !in m.fwd && Words(w, h) > freewords && w.first <= last
    requires Allocates(space, freepage, w.first, last, taken, PagesFor(Words(w, h)), w.from, w.into) == None
    ensures !Fits(w, f0)
  {
    hide LaySeq, Words, Allocates;
    NextOrder(w, f0, space, last, freepage, freewords, taken, m, h, 0);
    if Fits(w, f0) { FitsNext(w, f0, Srcs(m.copies + [Copy(h, 0, Words(w, h))])); }
  }
}
