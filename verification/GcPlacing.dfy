/** Where copies are put is settled by the order in which objects are copied. */
module GcPlacing {
  import opened Wrappers
  import opened GcWords
  import opened GcSpec
  import opened GcPages
  import opened GcLayout
  import opened GcScanning

  /** What the allocator goes by, and the runs that it has made. */
  datatype Room = Room(space: seq<nat>, last: nat, freepage: nat, freewords: nat, taken: nat, runs: seq<Run>)

  /** Room for the copy of number k, of so many words: what is left on the last page, or new pages. */
  function LayOne(w: Old, room: Room, words: nat, k: nat): (r: Option<Room>)
    requires w.first <= room.last
    ensures r.Some? ==> room.last <= r.value.last
  {
    if words <= room.freewords then
      Some(room.(freewords := room.freewords - words,
                 runs := if room.runs == [] then []
                         else room.runs[|room.runs| - 1 := room.runs[|room.runs| - 1].(end := k + 1)]))
    else
      var n := PagesFor(words);
      var f := Allocates(room.space, room.freepage, w.first, room.last, room.taken, n, w.from, w.into);
      if f.None? then None
      else Some(Room(Tagged(room.space, f.value.page, n, w.into), f.value.last,
                     After(f.value.page, n, w.first, f.value.last), if words < PAGE_WORDS then PAGE_WORDS - words
                       else 0,
                     room.taken + n, room.runs + [Run(f.value.page, n, k, k + 1)]))
  }

  /** The room after copying these objects in this order, in a collection that begins with the search for
      pages at page f0. */
  function LaySeq(w: Old, f0: nat, srcs: seq<nat>): (r: Option<Room>)
    requires w.first <= w.last
    ensures r.Some? ==> w.last <= r.value.last
  {
    if srcs == [] then Some(Room(w.space, w.last, f0, 0, 0, []))
    else
      var r := LaySeq(w, f0, srcs[..|srcs| - 1]);
      if r.None? then None else LayOne(w, r.value, Words(w, srcs[|srcs| - 1]), |srcs| - 1)
  }

  lemma LayPlus(w: Old, f0: nat, srcs: seq<nat>, h: nat)
    requires w.first <= w.last
    ensures LaySeq(w, f0, srcs + [h]) ==
      var r := LaySeq(w, f0, srcs);
      if r.None? then None else LayOne(w, r.value, Words(w, h), |srcs|)
  {
    assert (srcs + [h])[..|srcs|] == srcs;
  }

  function Srcs(copies: seq<Copy>): (r: seq<nat>)
    ensures |r| == |copies| && forall k :: 0 <= k < |r| ==> r[k] == copies[k].src
  {
    seq(|copies|, k requires 0 <= k < |copies| => copies[k].src)
  }

  /** An order in which objects may be copied. */
  ghost predicate Orders(w: Old, srcs: seq<nat>) {
    (forall k :: 0 <= k < |srcs| ==> srcs[k] in w.objects) && forall j, k :: 0 <= j < k < |srcs| ==> srcs[j] != srcs[k]
  }

  /** The copies made so far lie where this order puts them. */
  ghost predicate Laid(w: Old, f0: nat, space: seq<nat>, last: nat, freepage: nat, freewords: nat, taken: nat,
                       copies: seq<Copy>, runs: seq<Run>) {
    && w.first <= w.last && Orders(w, Srcs(copies))
    && LaySeq(w, f0, Srcs(copies)) == Some(Room(space, last, freepage, freewords, taken, runs))
  }

  /** In every order there is room for all. */
  ghost predicate Fits(w: Old, f0: nat) {
    w.first <= w.last && forall srcs :: Orders(w, srcs) ==> LaySeq(w, f0, srcs).Some?
  }

  /** In no order are pages taken that end where an earlier run begins. */
  ghost predicate Orderly(w: Old, f0: nat) {
    w.first <= w.last &&
    forall srcs :: Orders(w, srcs) && LaySeq(w, f0, srcs).Some? ==> NoAbut(LaySeq(w, f0, srcs).value.runs)
  }

  lemma LaidStart(w: Old, f0: nat)
    requires w.first <= w.last
    ensures Laid(w, f0, w.space, w.last, f0, 0, 0, [], [])
  {
  }

  lemma OrdersPlus(w: Old, copies: seq<Copy>, c: Copy)
    requires Orders(w, Srcs(copies)) && c.src in w.objects && forall k :: 0 <= k < |copies| ==> copies[k].src != c.src
    ensures Orders(w, Srcs(copies + [c])) && Srcs(copies + [c]) == Srcs(copies) + [c.src]
  {
    assert Srcs(copies + [c]) == Srcs(copies) + [c.src];
  }

  lemma LaidOrderly(w: Old, f0: nat, space: seq<nat>, last: nat, freepage: nat, freewords: nat, taken: nat,
                    copies: seq<Copy>, runs: seq<Run>)
    requires Laid(w, f0, space, last, freepage, freewords, taken, copies, runs) && Orderly(w, f0)
    ensures NoAbut(runs)
  {
  }

  /** Where copies lie depends on the sizes of objects only. */
  lemma {:induction false} LaySame(w: Old, w': Old, f0: nat, srcs: seq<nat>)
    requires w.first <= w.last && w' == w.(mem := w'.mem) && Orders(w, srcs)
    requires forall h :: h in w.objects ==> Words(w', h) == Words(w, h)
    ensures LaySeq(w', f0, srcs) == LaySeq(w, f0, srcs)
  {
    hide Words, Allocates, Tagged;
    if srcs != [] { LaySame(w, w', f0, srcs[..|srcs| - 1]); }
  }

  lemma OrdersSame(w: Old, w': Old, f0: nat)
    requires w' == w.(mem := w'.mem) && forall h :: h in w.objects ==> Words(w', h) == Words(w, h)
    ensures Fits(w', f0) == Fits(w, f0) && Orderly(w', f0) == Orderly(w, f0)
  {
    hide LaySeq, Words, NoAbut;
    if w.first <= w.last {
      forall srcs | Orders(w, srcs) ensures Orders(w', srcs) && LaySeq(w', f0, srcs) == LaySeq(w, f0, srcs) {
        LaySame(w, w', f0, srcs);
      }
      assert forall srcs :: Orders(w', srcs) ==> Orders(w, srcs);
    }
  }
}
