/** How copies lie in the new space: a new copy is put at the frontier or on new pages, apart from
    everything that is in use. */
module GcLayout {
  import opened GcWords
  import opened GcSpec
  import opened GcPages

  /** Everything about the layout. */
  ghost predicate LayoutOk(w: Old, mem: seq<nat>, space: seq<nat>, last: nat, copies: seq<Copy>, runs: seq<Run>,
                           freep: nat, freewords: nat) {
    && OldOk(w) && |mem| == |w.mem| && RunsOk(copies, runs) && PagesOk(w, space, last, runs) &&
      FrontierOk(mem, copies, runs, freep, freewords)
  }

  lemma {:induction false} RunsEnd(copies: seq<Copy>, runs: seq<Run>, r: nat)
    requires RunsOk(copies, runs) && r < |runs|
    ensures runs[r].end <= |copies| && (r + 1 < |runs| ==> runs[r].end < runs[r + 1].end)
  {
    assert RunOk(copies, runs[r]);
    if r + 1 < |runs| { assert RunOk(copies, runs[r + 1]) && StartOk(runs, r + 1); }
  }

  /** The run that a copy lies in. */
  lemma {:induction false} CopyRun(copies: seq<Copy>, runs: seq<Run>, k: nat, n: nat) returns (r: nat)
    requires RunsOk(copies, runs) && n <= |runs| && k < (if n == 0 then 0 else runs[n - 1].end)
    ensures r < n && runs[r].start <= k < runs[r].end
  {
    assert RunOk(copies, runs[n - 1]) && StartOk(runs, n - 1);
    if runs[n - 1].start <= k { r := n - 1; } else { r := CopyRun(copies, runs, k, n - 1); }
  }

  predicate ApartFrom(c: Copy, lo: nat, hi: nat) {
    c.dst + c.words <= lo || hi <= c.dst
  }

  /** Every copy is on its own run's pages. */
  lemma CopyOnPages(copies: seq<Copy>, runs: seq<Run>, k: nat) returns (r: nat)
    requires RunsOk(copies, runs) && k < |copies|
    ensures r < |runs| && runs[r].start <= k < runs[r].end && copies[k].words >= 2
    ensures PAGE_WORDS * runs[r].page <= copies[k].dst &&
      copies[k].dst + copies[k].words <= PAGE_WORDS * (runs[r].page + runs[r].pages)
  {
    r := CopyRun(copies, runs, k, |runs|);
    assert RunOk(copies, runs[r]);
  }

  /** In a run, later copies lie after earlier ones, and all before its end. */
  lemma {:induction false} RunOrder(copies: seq<Copy>, run: Run, k: nat, l: nat)
    requires RunOk(copies, run) && run.start <= k <= l < run.end
    ensures k < l ==> copies[k].dst + copies[k].words <= copies[l].dst
    ensures copies[k].dst + copies[k].words <= EndOf(copies, run)
    decreases run.end - k
  {
    if k < l {
      assert copies[k + 1].dst == copies[k].dst + copies[k].words;
      RunOrder(copies, run, k + 1, l);
    } else if k + 1 < run.end {
      assert copies[k + 1].dst == copies[k].dst + copies[k].words;
      RunOrder(copies, run, k + 1, k + 1);
    }
  }

  /** Words from the end of the last run on are in no copy. */
  lemma FreeInRun(w: Old, space: seq<nat>, last: nat, copies: seq<Copy>, runs: seq<Run>, lo: nat, hi: nat, k: nat)
    requires RunsOk(copies, runs) && PagesOk(w, space, last, runs) && runs != [] && k < |copies|
    requires var l := runs[|runs| - 1];
      EndOf(copies, l) <= lo && hi <= PAGE_WORDS * (l.page + l.pages) && PAGE_WORDS * l.page <= lo
    ensures ApartFrom(copies[k], lo, hi)
  {
    var r := CopyOnPages(copies, runs, k);
    var l := |runs| - 1;
    if r == l {
      RunOrder(copies, runs[l], k, k);
    } else {
      assert Separate(runs[r], runs[l]);
    }
  }

  /** Words of new pages are in no copy. */
  lemma FreeOnNewPages(w: Old, space: seq<nat>, last: nat, copies: seq<Copy>, runs: seq<Run>, page: nat, pages: nat,
                       k: nat)
    requires RunsOk(copies, runs) && PagesOk(w, space, last, runs) && k < |copies|
    requires 1 <= pages && page + pages <= |space| && forall p :: page <= p < page + pages ==> space[p] != w.into
    ensures ApartFrom(copies[k], PAGE_WORDS * page, PAGE_WORDS * (page + pages))
  {
    var r := CopyOnPages(copies, runs, k);
    assert RunOk(copies, runs[r]);
    OtherPages(w, space, last, runs, page, pages, r);
  }

  lemma TagOfRun(w: Old, space: seq<nat>, last: nat, runs: seq<Run>, r: nat, p: nat)
    requires PagesOk(w, space, last, runs) && r < |runs| && runs[r].page <= p < runs[r].page + runs[r].pages
    ensures p < |space| && space[p] == w.into
  {
  }

  lemma TagOfOld(w: Old, h: nat, p: nat)
    requires OldOk(w) && h in w.objects && h / PAGE_WORDS <= p <= (h + Words(w, h) - 1) / PAGE_WORDS
    ensures p < |w.space| && w.space[p] == w.from
  {
    assert OnPages(w, h) && InMemory(w, h);
  }

  lemma OtherPages(w: Old, space: seq<nat>, last: nat, runs: seq<Run>, page: nat, pages: nat, r: nat)
    requires PagesOk(w, space, last, runs) && r < |runs|
    requires 1 <= pages && page + pages <= |space| && forall p :: page <= p < page + pages ==> space[p] != w.into
    ensures runs[r].pages >= 1 ==> Separate(runs[r], Run(page, pages, 0, 0))
  {
    var start := runs[r].page;
    if start <= page < start + runs[r].pages { TagOfRun(w, space, last, runs, r, page); }
    if page <= start < page + pages && runs[r].pages >= 1 { TagOfRun(w, space, last, runs, r, start); }
  }

  /** Old objects are not on pages of the new space. */
  lemma FreeOfOld(w: Old, space: seq<nat>, last: nat, runs: seq<Run>, lo: nat, hi: nat, h: nat)
    requires OldOk(w) && PagesOk(w, space, last, runs) && h in w.objects && lo < hi <= PAGE_WORDS * |space|
    requires forall p :: lo / PAGE_WORDS <= p <= (hi - 1) / PAGE_WORDS && p < |space| ==> w.space[p] != w.from
    ensures h + Words(w, h) <= lo || hi <= h
  {
    assert OnPages(w, h) && InMemory(w, h);
    var p, q := lo / PAGE_WORDS, h / PAGE_WORDS;
    if h <= lo < h + Words(w, h) { TagOfOld(w, h, p); }
    if lo <= h < hi { TagOfOld(w, h, q); }
  }

  /** Memory that differs only in words from lo to hi. */
  ghost predicate Agree(m: seq<nat>, m': seq<nat>, lo: nat, hi: nat) {
    |m'| == |m| && forall i :: 0 <= i < |m| && !(lo <= i < hi) ==> m'[i] == m[i]
  }

  /** Everything in use is as it was: all copies, and all old objects with their headers. */
  ghost predicate KeepsUsed(w: Old, copies: seq<Copy>, mem: seq<nat>, mem': seq<nat>) {
    && |mem'| == |mem|
    && (forall k, i :: 0 <= k < |copies| && copies[k].dst <= i < copies[k].dst + copies[k].words && i < |mem| ==>
      mem'[i] == mem[i])
    && (forall h, i :: h in w.objects && h <= i < h + Words(w, h) && i < |mem| ==> mem'[i] == mem[i])
  }

  /** Where a new copy may be put: in no copy and in no old object. */
  ghost predicate Unused(w: Old, copies: seq<Copy>, lo: nat, hi: nat) {
    && (forall k :: 0 <= k < |copies| ==> ApartFrom(copies[k], lo, hi))
    && (forall h :: h in w.objects ==> h + Words(w, h) <= lo || hi <= h)
  }

  lemma AgreeKeeps(w: Old, copies: seq<Copy>, mem: seq<nat>, mem': seq<nat>, lo: nat, hi: nat)
    requires Unused(w, copies, lo, hi) && Agree(mem, mem', lo, hi)
    ensures KeepsUsed(w, copies, mem, mem')
  {
    forall k, i | 0 <= k < |copies| && copies[k].dst <= i < copies[k].dst + copies[k].words && i < |mem|
      ensures mem'[i] == mem[i] {
      assert ApartFrom(copies[k], lo, hi);
    }
  }

  lemma KeepsThen(w: Old, copies: seq<Copy>, a: seq<nat>, b: seq<nat>, c: seq<nat>)
    requires KeepsUsed(w, copies, a, b) && KeepsUsed(w, copies, b, c)
    ensures KeepsUsed(w, copies, a, c)
  {
  }

  /** The room left on the last page. */
  lemma RoomUnused(w: Old, mem: seq<nat>, space: seq<nat>, last: nat, copies: seq<Copy>, runs: seq<Run>, freep: nat,
                   freewords: nat)
    requires LayoutOk(w, mem, space, last, copies, runs, freep, freewords) && freewords > 0
    ensures runs != [] && runs[|runs| - 1].pages == 1 && freep + freewords <= |mem| && freewords < PAGE_WORDS
    ensures Unused(w, copies, freep, freep + freewords)
  {
    var l := runs[|runs| - 1];
    assert RunOk(copies, l);
    assert freep + freewords == PAGE_WORDS * (l.page + 1);
    assert copies[l.end - 1].words >= 2;
    forall k | 0 <= k < |copies| ensures ApartFrom(copies[k], freep, freep + freewords) {
      FreeInRun(w, space, last, copies, runs, freep, freep + freewords, k);
    }
    assert space[l.page] == w.into;
    forall h | h in w.objects ensures h + Words(w, h) <= freep || freep + freewords <= h {
      assert freep / PAGE_WORDS == l.page;
      FreeOfOld(w, space, last, runs, freep, freep + freewords, h);
    }
  }

  // ----- a new copy -----

  lemma EndOfGrown(copies: seq<Copy>, c: Copy, r: Run)
    requires r.end <= |copies|
    ensures EndOf(copies + [c], r) == EndOf(copies, r)
  {
  }

  lemma RunGrown(copies: seq<Copy>, c: Copy, r: Run)
    requires RunOk(copies, r)
    ensures RunOk(copies + [c], r)
  {
  }

  lemma RunsGrown(copies: seq<Copy>, c: Copy, runs: seq<Run>)
    requires RunsOk(copies, runs)
    ensures forall r :: 0 <= r < |runs| ==>
      RunOk(copies + [c], runs[r]) && EndOf(copies + [c], runs[r]) == EndOf(copies, runs[r])
  {
    forall r | 0 <= r < |runs| ensures RunOk(copies + [c], runs[r]) && EndOf(copies + [c], runs[r]) ==
      EndOf(copies, runs[r]) {
      RunGrown(copies, c, runs[r]);
      EndOfGrown(copies, c, runs[r]);
    }
  }

  lemma StartsKept(copies: seq<Copy>, runs: seq<Run>, runs': seq<Run>)
    requires RunsOk(copies, runs) && runs != [] && runs' == runs[|runs| - 1 := runs[|runs| - 1].(end := |copies| + 1)]
    ensures forall r :: 0 <= r < |runs'| ==> StartOk(runs', r)
  {
    forall r | 0 <= r < |runs'| ensures StartOk(runs', r) { assert StartOk(runs, r); }
  }

  lemma StartsPlus(copies: seq<Copy>, runs: seq<Run>, run: Run)
    requires RunsOk(copies, runs) && run.start == |copies|
    ensures forall r :: 0 <= r < |runs| + 1 ==> StartOk(runs + [run], r)
  {
    forall r | 0 <= r < |runs| + 1 ensures StartOk(runs + [run], r) {
      if r < |runs| { assert StartOk(runs, r); }
    }
  }

  /** The new copy fits in the room left. */
  lemma PutInRoom(w: Old, mem: seq<nat>, space: seq<nat>, last: nat, copies: seq<Copy>, runs: seq<Run>, freep: nat,
                  freewords: nat,
                  src: nat, n: nat, mem': seq<nat>) returns (runs': seq<Run>)
    requires LayoutOk(w, mem, space, last, copies, runs, freep, freewords) && 2 <= n <= freewords &&
      Agree(mem, mem', freep, freep + n)
    ensures LayoutOk(w, mem', space, last, copies + [Copy(src, freep, n)], runs', freep + n, freewords - n)
    ensures runs != [] && runs' == runs[|runs| - 1 := runs[|runs| - 1].(end := |copies| + 1)] && n < PAGE_WORDS
    ensures Unused(w, copies, freep, freep + n) && freep + n <= |mem|
  {
    hide OldOk, Unused, FillerOk, RunOk, Agree;
    RoomUnused(w, mem, space, last, copies, runs, freep, freewords);
    UnusedPart(w, copies, freep, freep + freewords, freep, freep + n);
    var c := Copy(src, freep, n);
    var l := |runs| - 1;
    runs' := runs[l := runs[l].(end := |copies| + 1)];
    RunsGrown(copies, c, runs);
    LastRun(mem, copies, runs, freep, freewords);
    RunExtended(copies, c, runs[l]);
    forall r | 0 <= r < l ensures FillerOk(mem', copies + [c], runs'[r]) {
      FillerKept(w, mem, space, last, copies, runs, freep, freewords, r, mem', freep, freep + n, c);
    }
    PagesExtended(w, space, last, runs, runs');
    AgreeLength(mem, mem', freep, freep + n);
    hide PagesOk;
    StartsKept(copies, runs, runs');
    assert FrontierOk(mem', copies + [c], runs', freep + n, freewords - n);
  }

  lemma AgreeLength(m: seq<nat>, m': seq<nat>, lo: nat, hi: nat)
    requires Agree(m, m', lo, hi)
    ensures |m'| == |m|
  {
  }

  lemma UnusedPart(w: Old, copies: seq<Copy>, lo: nat, hi: nat, lo': nat, hi': nat)
    requires Unused(w, copies, lo, hi) && lo <= lo' <= hi' <= hi
    ensures Unused(w, copies, lo', hi')
  {
  }

  lemma LastRun(mem: seq<nat>, copies: seq<Copy>, runs: seq<Run>, freep: nat, freewords: nat)
    requires RunsOk(copies, runs) && FrontierOk(mem, copies, runs, freep, freewords) && runs != []
    ensures var l := runs[|runs| - 1];
      && RunOk(copies, l) && l.end == |copies| && freep == EndOf(copies, l) && PAGE_WORDS * l.page < freep
      && (if l.pages == 1 then freep + freewords == PAGE_WORDS * (l.page + 1) else freewords == 0)
  {
  }

  lemma RunExtended(copies: seq<Copy>, c: Copy, l: Run)
    requires RunOk(copies, l) && l.end == |copies| && l.pages == 1 && c.words >= 2
    requires c.dst == EndOf(copies, l) && c.dst + c.words <= PAGE_WORDS * (l.page + 1)
    ensures RunOk(copies + [c], l.(end := |copies| + 1)) && EndOf(copies + [c], l.(end := |copies| + 1)) == c.dst +
      c.words
  {
    assert PAGE_WORDS * l.page <= copies[l.end - 1].dst;
  }

  lemma PagesExtended(w: Old, space: seq<nat>, last: nat, runs: seq<Run>, runs': seq<Run>)
    requires PagesOk(w, space, last, runs) && |runs'| == |runs|
    requires forall r :: 0 <= r < |runs| ==> runs'[r].page == runs[r].page && runs'[r].pages == runs[r].pages
    ensures PagesOk(w, space, last, runs')
  {
    forall r, q | 0 <= r < q < |runs'| ensures Separate(runs'[r], runs'[q]) {
      assert Separate(runs[r], runs[q]);
    }
  }

  /** The filler at the end of an earlier run stays. */
  lemma FillerKept(w: Old, mem: seq<nat>, space: seq<nat>, last: nat, copies: seq<Copy>, runs: seq<Run>, freep: nat,
                   freewords: nat, r: nat,
                   mem': seq<nat>, lo: nat, hi: nat, c: Copy)
    requires LayoutOk(w, mem, space, last, copies, runs, freep, freewords) && r < |runs| - 1 && Agree(mem, mem', lo, hi)
    requires var l := runs[|runs| - 1]; PAGE_WORDS * l.page <= lo && hi <= PAGE_WORDS * (l.page + l.pages)
    ensures FillerOk(mem', copies + [c], runs[r])
  {
    assert FillerOk(mem, copies, runs[r]) && RunOk(copies, runs[r]);
    EndOfGrown(copies, c, runs[r]);
    assert Separate(runs[r], runs[|runs| - 1]);
    var e := EndOf(copies, runs[r]);
    assert PAGE_WORDS * runs[r].page <= e;
  }

  /** The memory with the room left on the last page filled. */
  function Finalized(mem: seq<nat>, freep: nat, freewords: nat): seq<nat> {
    if 0 < freewords <= MAX_WORDS && freep < |mem| then mem[freep := MakeHeader(freewords, RAW)] else mem
  }

  /** Filling the room left changes nothing in use. */
  lemma FinalizedKeeps(w: Old, mem: seq<nat>, space: seq<nat>, last: nat, copies: seq<Copy>, runs: seq<Run>,
                       freep: nat, freewords: nat)
    requires LayoutOk(w, mem, space, last, copies, runs, freep, freewords)
    ensures KeepsUsed(w, copies, mem, Finalized(mem, freep, freewords))
    ensures forall r :: 0 <= r < |runs| ==> FillerOk(Finalized(mem, freep, freewords), copies, runs[r])
  {
    hide OldOk, RunsOk, PagesOk, FillerOk, KeepsUsed, Unused, RunOk;
    var mem' := Finalized(mem, freep, freewords);
    if freewords > 0 {
      RoomUnused(w, mem, space, last, copies, runs, freep, freewords);
      AgreeKeeps(w, copies, mem, mem', freep, freep + freewords);
      LastRun(mem, copies, runs, freep, freewords);
      LastFilled(mem, copies, runs[|runs| - 1], freep, freewords);
      forall r | 0 <= r < |runs| - 1 ensures FillerOk(mem', copies, runs[r]) {
        FillerKept(w, mem, space, last, copies, runs, freep, freewords, r, mem', freep, freep + 1, Copy(0, 0, 0));
        FillerBack(mem', copies, runs, r);
      }
    } else {
      NothingFilled(w, mem, copies, runs, freep, freewords);
    }
  }

  lemma LastFilled(mem: seq<nat>, copies: seq<Copy>, l: Run, freep: nat, freewords: nat)
    requires 0 < freewords < PAGE_WORDS && freep + freewords <= |mem| && l.pages == 1 && freep == EndOf(copies, l)
    requires freep + freewords == PAGE_WORDS * (l.page + 1)
    ensures FillerOk(Finalized(mem, freep, freewords), copies, l)
  {
  }

  lemma FillerBack(mem: seq<nat>, copies: seq<Copy>, runs: seq<Run>, r: nat)
    requires RunsOk(copies, runs) && r < |runs| && FillerOk(mem, copies + [Copy(0, 0, 0)], runs[r])
    ensures FillerOk(mem, copies, runs[r])
  {
    RunsEnd(copies, runs, r);
    EndOfGrown(copies, Copy(0, 0, 0), runs[r]);
  }

  lemma NothingFilled(w: Old, mem: seq<nat>, copies: seq<Copy>, runs: seq<Run>, freep: nat, freewords: nat)
    requires RunsOk(copies, runs) && FrontierOk(mem, copies, runs, freep, freewords) && freewords == 0
    ensures KeepsUsed(w, copies, mem, mem) && forall r :: 0 <= r < |runs| ==> FillerOk(mem, copies, runs[r])
  {
    if runs != [] { LastRun(mem, copies, runs, freep, freewords); }
  }

  /** How many pages an object of n words takes. */
  function PagesFor(n: nat): (p: nat)
    ensures PAGE_WORDS * p >= n && (p > 0 ==> PAGE_WORDS * (p - 1) < n)
  {
    (n + PAGE_WORDS - 1) / PAGE_WORDS
  }

  /** New pages are in no copy and in no old object. */
  lemma PagesUnused(w: Old, mem: seq<nat>, space: seq<nat>, last: nat, copies: seq<Copy>, runs: seq<Run>, freep: nat,
                    freewords: nat,
                    page: nat, pages: nat)
    requires LayoutOk(w, mem, space, last, copies, runs, freep, freewords) && 1 <= pages && page + pages <= |space|
    requires forall p :: page <= p < page + pages ==> FreeTag(space[p], w.from, w.into)
    ensures Unused(w, copies, PAGE_WORDS * page, PAGE_WORDS * (page + pages))
  {
    forall k | 0 <= k < |copies| ensures ApartFrom(copies[k], PAGE_WORDS * page, PAGE_WORDS * (page + pages)) {
      FreeOnNewPages(w, space, last, copies, runs, page, pages, k);
    }
    forall h | h in w.objects ensures h + Words(w, h) <= PAGE_WORDS * page || PAGE_WORDS * (page + pages) <= h {
      forall p | page <= p < page + pages ensures w.space[p] != w.from {
        assert space[p] != w.from;
      }
      FreeOfOld(w, space, last, runs, PAGE_WORDS * page, PAGE_WORDS * (page + pages), h);
    }
  }

  lemma PagesAdded(w: Old, space: seq<nat>, last: nat, runs: seq<Run>, last': nat, run: Run)
    requires PagesOk(w, space, last, runs) && last <= last' < |space| && 1 <= run.pages
    requires w.first <= run.page && run.page + run.pages <= last' + 1
    requires forall p :: run.page <= p < run.page + run.pages ==> FreeTag(space[p], w.from, w.into)
    requires forall r :: 0 <= r < |runs| ==> runs[r].pages >= 1
    ensures PagesOk(w, Tagged(space, run.page, run.pages, w.into), last', runs + [run])
  {
    forall r | 0 <= r < |runs| ensures Separate(runs[r], run) {
      OtherPages(w, space, last, runs, run.page, run.pages, r);
    }
  }

  /** The new copy goes on new pages; the room left before is filled. */
  lemma PutOnPages(w: Old, mem: seq<nat>, space: seq<nat>, last: nat, copies: seq<Copy>, runs: seq<Run>, freep: nat,
                   freewords: nat,
                   src: nat, n: nat, last': nat, page: nat, mem': seq<nat>) returns (runs': seq<Run>)
    requires LayoutOk(w, mem, space, last, copies, runs, freep, freewords) && 2 <= n && last <= last' < |space|
    requires w.first <= page && page + PagesFor(n) <= last' + 1
    requires forall p :: page <= p < page + PagesFor(n) ==> FreeTag(space[p], w.from, w.into)
    requires Agree(Finalized(mem, freep, freewords), mem', PAGE_WORDS * page, PAGE_WORDS * page + n)
    ensures runs' == runs + [Run(page, PagesFor(n), |copies|, |copies| + 1)]
    ensures LayoutOk(w, mem', Tagged(space, page, PagesFor(n), w.into), last',
      copies + [Copy(src, PAGE_WORDS * page, n)], runs',
                     PAGE_WORDS * page + n, if n < PAGE_WORDS then PAGE_WORDS - n else 0)
    ensures Unused(w, copies, PAGE_WORDS * page, PAGE_WORDS * page + n) && PAGE_WORDS * page + n <= |mem|
    ensures KeepsUsed(w, copies, mem, mem')
  {
    hide OldOk, Unused, FillerOk, RunOk, PagesOk, Tagged, KeepsUsed, Agree, Finalized;
    var c := Copy(src, PAGE_WORDS * page, n);
    var run := Run(page, PagesFor(n), |copies|, |copies| + 1);
    var mem1 := Finalized(mem, freep, freewords);
    runs' := runs + [run];
    SizesOk(w, space, last, runs, copies);
    PagesUnused(w, mem, space, last, copies, runs, freep, freewords, page, PagesFor(n));
    UnusedPart(w, copies, PAGE_WORDS * page, PAGE_WORDS * (page + PagesFor(n)), PAGE_WORDS * page,
      PAGE_WORDS * page + n);
    FinalizedKeeps(w, mem, space, last, copies, runs, freep, freewords);
    AgreeKeeps(w, copies, mem1, mem', PAGE_WORDS * page, PAGE_WORDS * page + n);
    KeepsThen(w, copies, mem, mem1, mem');
    KeepsLength(w, copies, mem, mem');
    RunsGrown(copies, c, runs);
    NewRunOk(copies, c, run);
    StartsPlus(copies, runs, run);
    PagesAdded(w, space, last, runs, last', run);
    forall r | 0 <= r < |runs| ensures FillerOk(mem', copies + [c], runs[r]) {
      FillerElsewhere(w, space, last, copies, runs, mem1, mem', c, r, page, PagesFor(n));
    }
    NewFrontier(mem', copies + [c], runs, run, n);
  }

  lemma NewFrontier(mem: seq<nat>, copies: seq<Copy>, runs: seq<Run>, run: Run, n: nat)
    requires forall r :: 0 <= r < |runs| ==> FillerOk(mem, copies, runs[r])
    requires EndOf(copies, run) == PAGE_WORDS * run.page + n && (run.pages == 1 <==> n <= PAGE_WORDS)
    ensures FrontierOk(mem, copies, runs + [run], PAGE_WORDS * run.page + n, if n < PAGE_WORDS then PAGE_WORDS - n
      else 0)
  {
    hide FillerOk, EndOf;
  }

  lemma KeepsLength(w: Old, copies: seq<Copy>, mem: seq<nat>, mem': seq<nat>)
    requires KeepsUsed(w, copies, mem, mem')
    ensures |mem'| == |mem|
  {
  }

  lemma SizesOk(w: Old, space: seq<nat>, last: nat, runs: seq<Run>, copies: seq<Copy>)
    requires OldOk(w) && RunsOk(copies, runs) && PagesOk(w, space, last, runs)
    ensures |space| == |w.space| && |w.mem| == PAGE_WORDS * |space| && forall r :: 0 <= r < |runs| ==>
      runs[r].pages >= 1
  {
    forall r | 0 <= r < |runs| ensures runs[r].pages >= 1 { assert RunOk(copies, runs[r]); }
  }

  lemma NewRunOk(copies: seq<Copy>, c: Copy, run: Run)
    requires c.words >= 2 && run == Run(run.page, PagesFor(c.words), |copies|, |copies| + 1) &&
      c.dst == PAGE_WORDS * run.page
    ensures RunOk(copies + [c], run) && EndOf(copies + [c], run) == c.dst + c.words
    ensures run.pages == 1 <==> c.words <= PAGE_WORDS
  {
  }

  lemma FillerElsewhere(w: Old, space: seq<nat>, last: nat, copies: seq<Copy>, runs: seq<Run>, mem: seq<nat>,
                        mem': seq<nat>,
                        c: Copy, r: nat, page: nat, pages: nat)
    requires RunsOk(copies, runs) && PagesOk(w, space, last, runs) && r < |runs| && FillerOk(mem, copies, runs[r])
    requires 1 <= pages && page + pages <= |space| && forall p :: page <= p < page + pages ==>
      FreeTag(space[p], w.from, w.into)
    requires c.dst == PAGE_WORDS * page && c.words <= PAGE_WORDS * pages && Agree(mem, mem', c.dst, c.dst + c.words)
    ensures FillerOk(mem', copies + [c], runs[r])
  {
    assert RunOk(copies, runs[r]);
    EndOfGrown(copies, c, runs[r]);
    OtherPages(w, space, last, runs, page, pages, r);
    assert PAGE_WORDS * runs[r].page <= EndOf(copies, runs[r]);
  }
}
