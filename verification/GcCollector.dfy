/** The collector: the bump allocator, the moving of objects, and the scan of the copies. */
module GcCollector {
  import opened Wrappers
  import opened GcWords
  import opened GcSpec
  import opened GcPages
  import opened GcLayout
  import opened GcCopying
  import opened GcScanning
  import opened GcDraining
  import opened GcPlacing
  import opened GcTracing
  import opened GcTrace

  ghost predicate PageOrder(order: seq<nat>, runs: seq<Run>) {
    |order| == |runs| && forall r :: 0 <= r < |runs| ==> order[r] == runs[r].page
  }

  /** The memory with words from lo on set to zero. */
  function Cleared(mem: seq<nat>, lo: nat, n: nat): (r: seq<nat>)
    ensures |r| == |mem| && forall i :: 0 <= i < |mem| ==> r[i] == if lo <= i < lo + n then 0 else mem[i]
  {
    seq(|mem|, i requires 0 <= i < |mem| => if lo <= i < lo + n then 0 else mem[i])
  }

  /** Room has been found for object h at d, and nothing in use has changed. */
  ghost predicate Placed(w: Old, m: Made, mem0: seq<nat>, mem: seq<nat>, space: seq<nat>, last: nat, freep: nat,
                         freewords: nat,
                         runs: seq<Run>, h: nat, d: nat) {
    && LayoutOk(w, mem, space, last, m.copies + [Copy(h, d, Words(w, h))], runs, freep, freewords)
    && KeepsUsed(w, m.copies, mem0, mem) && Unused(w, m.copies, d, d + Words(w, h)) && d + Words(w, h) <= |mem|
    && RunsGrew(m.runs, runs, |m.copies|)
  }

  lemma OrderSame(order: seq<nat>, runs: seq<Run>, runs': seq<Run>)
    requires PageOrder(order, runs) && |runs'| == |runs| && forall r :: 0 <= r < |runs| ==>
      runs'[r].page == runs[r].page
    ensures PageOrder(order, runs')
  {
  }

  lemma OrderPlusRun(order: seq<nat>, runs: seq<Run>, run: Run)
    requires PageOrder(order, runs)
    ensures PageOrder(order + [run.page], runs + [run])
  {
  }

  /** The header is written and the body cleared in the room left. */
  lemma PlacedInRoom(w: Old, m: Made, mem: seq<nat>, space: seq<nat>, last: nat, freep: nat, freewords: nat, h: nat,
                     mem': seq<nat>,
                     order: seq<nat>) returns (runs: seq<Run>)
    requires LayoutOk(w, mem, space, last, m.copies, m.runs, freep, freewords) && 2 <= Words(w, h) <= freewords
    requires Agree(mem, mem', freep, freep + Words(w, h)) && PageOrder(order, m.runs)
    ensures Placed(w, m, mem, mem', space, last, freep + Words(w, h), freewords - Words(w, h), runs, h, freep)
    ensures Words(w, h) < PAGE_WORDS && PageOrder(order, runs) && m.runs != []
    ensures runs == m.runs[|m.runs| - 1 := m.runs[|m.runs| - 1].(end := |m.copies| + 1)]
  {
    hide LayoutOk, Agree, Unused, KeepsUsed;
    runs := PutInRoom(w, mem, space, last, m.copies, m.runs, freep, freewords, h, Words(w, h), mem');
    AgreeKeeps(w, m.copies, mem, mem', freep, freep + Words(w, h));
    AgreeLength(mem, mem', freep, freep + Words(w, h));
    OrderSame(order, m.runs, runs);
  }

  /** The header is written and the body cleared on new pages. */
  lemma PlacedOnPages(w: Old, m: Made, mem: seq<nat>, space: seq<nat>, last: nat, freep: nat, freewords: nat, h: nat,
                      mem': seq<nat>,
                      last': nat, page: nat, order: seq<nat>) returns (runs: seq<Run>)
    requires LayoutOk(w, mem, space, last, m.copies, m.runs, freep, freewords) && 2 <= Words(w, h) &&
      last <= last' < |space|
    requires w.first <= page && page + PagesFor(Words(w, h)) <= last' + 1 && PageOrder(order, m.runs)
    requires forall p :: page <= p < page + PagesFor(Words(w, h)) ==> FreeTag(space[p], w.from, w.into)
    requires Agree(Finalized(mem, freep, freewords), mem', PAGE_WORDS * page, PAGE_WORDS * page + Words(w, h))
    ensures var n := Words(w, h);
      Placed(w, m, mem, mem', Tagged(space, page, PagesFor(n), w.into), last', PAGE_WORDS * page + n,
        if n < PAGE_WORDS then PAGE_WORDS - n else 0,
             runs, h, PAGE_WORDS * page)
    ensures PageOrder(order + [page], runs) &&
      runs == m.runs + [Run(page, PagesFor(Words(w, h)), |m.copies|, |m.copies| + 1)]
  {
    hide LayoutOk, Agree, Unused, KeepsUsed, Finalized, Tagged;
    runs := PutOnPages(w, mem, space, last, m.copies, m.runs, freep, freewords, h, Words(w, h), last', page, mem');
    KeepsLength(w, m.copies, mem, mem');
    assert runs[..|m.runs|] == m.runs;
    OrderPlusRun(order, m.runs, runs[|m.runs|]);
  }

  /** Both at once: where the copy lies, and that it lies where the order puts it. */
  lemma PutBehind(w: Old, f0: nat, m: Made, mem: seq<nat>, space: seq<nat>, last: nat, freep: nat, freewords: nat,
                  freepage: nat, taken: nat, h: nat, mem': seq<nat>, order: seq<nat>) returns (runs: seq<Run>)
    requires LayoutOk(w, mem, space, last, m.copies, m.runs, freep, freewords) && 2 <= Words(w, h) <= freewords
    requires Agree(mem, mem', freep, freep + Words(w, h)) && PageOrder(order, m.runs)
    requires Laid(w, f0, space, last, freepage, freewords, taken, m.copies, m.runs) && FwdOk(w, m.fwd, m.copies)
    requires h in w.objects && h !in m.fwd
    ensures Placed(w, m, mem, mem', space, last, freep + Words(w, h), freewords - Words(w, h), runs, h, freep)
    ensures Words(w, h) < PAGE_WORDS && PageOrder(order, runs)
    ensures Laid(w, f0, space, last, freepage, freewords - Words(w, h), taken,
                 m.copies + [Copy(h, freep, Words(w, h))], runs)
  {
    hide LayoutOk, Agree, Laid, FwdOk, Placed, PageOrder, Words;
    runs := PlacedInRoom(w, m, mem, space, last, freep, freewords, h, mem', order);
    LaidInRoom(w, f0, space, last, freepage, freewords, taken, m, h, freep, runs);
  }

  lemma PutAhead(w: Old, f0: nat, m: Made, mem: seq<nat>, space: seq<nat>, last: nat, freep: nat, freewords: nat,
                   freepage: nat, taken: nat, h: nat, mem': seq<nat>, last': nat, page: nat, order: seq<nat>)
    returns (runs: seq<Run>)
    requires LayoutOk(w, mem, space, last, m.copies, m.runs, freep, freewords) && 2 <= Words(w, h) &&
      last <= last' < |space|
    requires w.first <= page && page + PagesFor(Words(w, h)) <= last' + 1 && PageOrder(order, m.runs)
    requires forall p :: page <= p < page + PagesFor(Words(w, h)) ==> FreeTag(space[p], w.from, w.into)
    requires Agree(Finalized(mem, freep, freewords), mem', PAGE_WORDS * page, PAGE_WORDS * page + Words(w, h))
    requires Laid(w, f0, space, last, freepage, freewords, taken, m.copies, m.runs) && FwdOk(w, m.fwd, m.copies)
    requires h in w.objects && h !in m.fwd && Words(w, h) > freewords && w.first <= last
    requires Allocates(space, freepage, w.first, last, taken, PagesFor(Words(w, h)), w.from, w.into) ==
      Some(Found(page, last'))
    ensures var n := Words(w, h);
      && Placed(w, m, mem, mem', Tagged(space, page, PagesFor(n), w.into), last', PAGE_WORDS * page + n,
                if n < PAGE_WORDS then PAGE_WORDS - n else 0, runs, h, PAGE_WORDS * page)
      && PageOrder(order + [page], runs)
      && Laid(w, f0, Tagged(space, page, PagesFor(n), w.into), last', After(page, PagesFor(n), w.first, last'),
              if n < PAGE_WORDS then PAGE_WORDS - n else 0, taken + PagesFor(n),
              m.copies + [Copy(h, PAGE_WORDS * page, n)], runs)
  {
    hide LayoutOk, Agree, Laid, FwdOk, Placed, PageOrder, Words, Tagged, Allocates, Finalized, After;
    runs := PlacedOnPages(w, m, mem, space, last, freep, freewords, h, mem', last', page, order);
    LaidOnPages(w, f0, space, last, freepage, freewords, taken, m, h, PAGE_WORDS * page, page, last');
  }

  lemma FrontierFits(w: Old, mem: seq<nat>, space: seq<nat>, last: nat, copies: seq<Copy>, runs: seq<Run>,
                     freep: nat, freewords: nat)
    requires LayoutOk(w, mem, space, last, copies, runs, freep, freewords)
    ensures |mem| == PAGE_WORDS * |w.space| && freewords <= MAX_WORDS && (freewords > 0 ==> freep + freewords <= |mem|)
    ensures w.from != w.into
  {
    if freewords > 0 { RoomUnused(w, mem, space, last, copies, runs, freep, freewords); }
  }

  lemma AgreeFresh(mem: seq<nat>, d: nat, n: nat, header: nat)
    requires 1 <= n && d + n <= |mem|
    ensures Agree(mem, Cleared(mem[d := header], d + 1, n - 1), d, d + n)
  {
  }

  /** The header of an object that has not been copied is as it was. */
  lemma HeaderNow(w: Old, mem: seq<nat>, fwd: map<nat, nat>, h: nat)
    requires OldOk(w) && FromOk(w, mem, fwd) && h in w.objects
    ensures InMemory(w, h) && h + Words(w, h) <= |mem| && 2 <= Words(w, h) <= MAX_WORDS
    ensures
      if h in fwd then mem[h] == BodyAddress(fwd[h]) && Forwarded(mem[h])
      else mem[h] == w.mem[h] && !Forwarded(mem[h]) && HeaderWords(mem[h]) == Words(w, h)
  {
    ObjectSize(w, h);
    if h in fwd { AddressPage(fwd[h]); }
  }

  lemma PlacedFits(w: Old, m: Made, mem0: seq<nat>, mem: seq<nat>, space: seq<nat>, last: nat, freep: nat,
                   freewords: nat, runs: seq<Run>, h: nat, d: nat)
    requires Placed(w, m, mem0, mem, space, last, freep, freewords, runs, h, d) && h in w.objects
    ensures d + Words(w, h) <= |mem| && |mem| == |mem0| && (h + Words(w, h) <= d || d + Words(w, h) <= h)
  {
  }

  /** The words of h have been copied to d and the address of the copy left in the header. */
  ghost predicate Carried(mem1: seq<nat>, mem3: seq<nat>, h: nat, d: nat, n: nat) {
    exists mem2 :: CarriedVia(mem1, mem2, mem3, h, d, n)
  }

  ghost predicate CarriedVia(mem1: seq<nat>, mem2: seq<nat>, mem3: seq<nat>, h: nat, d: nat, n: nat) {
    Agree(mem1, mem2, d, d + n) && h + n <= |mem2| == |mem1| && d + n <= |mem2| &&
      mem2[d..d + n] == mem1[h..h + n] && 1 <= n &&
    mem3 == mem2[h := BodyAddress(d)]
  }

  lemma CarriedParts(mem1: seq<nat>, mem2: seq<nat>, mem3: seq<nat>, h: nat, d: nat, n: nat)
    requires CarriedVia(mem1, mem2, mem3, h, d, n)
    ensures Agree(mem1, mem2, d, d + n) && h + n <= |mem2| == |mem1| && d + n <= |mem2| &&
      mem2[d..d + n] == mem1[h..h + n] && 1 <= n
    ensures mem3 == mem2[h := BodyAddress(d)]
  {
  }

  /** Once room is found, copying and forwarding the object keeps everything. */
  lemma MovePlaced(w: Old, mem0: seq<nat>, space0: seq<nat>, last0: nat, freep0: nat, freewords0: nat, m: Made,
                   mem1: seq<nat>, mem3: seq<nat>, space: seq<nat>, last: nat, freep: nat, freewords: nat,
                     runs: seq<Run>, h: nat, d: nat)
    requires Inv(w, mem0, space0, last0, freep0, freewords0, m) && h in w.objects && h !in m.fwd
    requires Placed(w, m, mem0, mem1, space, last, freep, freewords, runs, h, d)
    requires Carried(mem1, mem3, h, d, Words(w, h))
    ensures var m' := WithCopy(m, runs, Copy(h, d, Words(w, h)));
      && Inv(w, mem3, space, last, freep, freewords, m') && Grown(m, m') && Untouched(m, m', 0, 0)
      && m'.runs == runs && m'.fwd == m.fwd[h := d]
  {
    hide Inv, LayoutOk, KeepsUsed, Unused, RunsGrew, OldOk, FromOk, FwdOk, CopiesOk, RunsOk, PagesOk, FrontierOk,
      Agree, Grown, Words, BodyAddress, CarriedVia;
    InvParts(w, mem0, space0, last0, freep0, freewords0, m);
    var n := Words(w, h);
    var mem2 :| CarriedVia(mem1, mem2, mem3, h, d, n);
    CarriedParts(mem1, mem2, mem3, h, d, n);
    forall k | 0 <= k < |m.copies| ensures ApartFrom(m.copies[k], h, h + Words(w, h)) {
      CopyNotOld(w, space0, last0, m.copies, m.runs, k, h);
    }
    MoveKeeps(w, mem0, m, mem1, mem2, space, last, freep, freewords, runs, h, d);
    WithCopyGrown(w, m, runs, Copy(h, d, Words(w, h)));
  }

  lemma CopiedIs(mem1: seq<nat>, mem2: seq<nat>, h: nat, d: nat, n: nat)
    requires Agree(mem1, mem2, d, d + n) && h + n <= |mem2| == |mem1| && d + n <= |mem2| &&
      mem2[d..d + n] == mem1[h..h + n] && 1 <= n
    ensures Carried(mem1, mem2[h := BodyAddress(d)], h, d, n)
  {
    assert CarriedVia(mem1, mem2, mem2[h := BodyAddress(d)], h, d, n);
  }

  lemma OnlyReachablePlus(w: Old, roots: set<nat>, fwd: map<nat, nat>, h: nat, d: nat)
    requires OnlyReachable(w, roots, fwd) && Reachable(w, roots, h)
    ensures OnlyReachable(w, roots, fwd[h := d])
  {
    hide Reachable;
  }

  lemma TagsNow(w: Old, space: seq<nat>, last: nat, runs: seq<Run>, mem: seq<nat>, copies: seq<Copy>, freep: nat,
                freewords: nat)
    requires LayoutOk(w, mem, space, last, copies, runs, freep, freewords)
    ensures PagesOk(w, space, last, runs) && w.into != 0
  {
    hide PagesOk, RunsOk, FrontierOk;
  }

  /** Pages that were not free when the collection began have not been free since. */
  lemma TypesOn(w: Old, space: seq<nat>, last: nat, runs: seq<Run>, types0: seq<nat>, types1: seq<nat>,
                types2: seq<nat>)
    requires PagesOk(w, space, last, runs)
    requires TypesKept(w.space, types0, types1, w.from, w.into) && TypesKept(space, types1, types2, w.from, w.into)
    ensures TypesKept(w.space, types0, types2, w.from, w.into)
  {
    forall p | 0 <= p < |w.space| && !FreeTag(w.space[p], w.from, w.into) ensures !FreeTag(space[p], w.from, w.into) {
    }
  }

  lemma CopiesOf(m: Made, runs: seq<Run>, c: Copy)
    ensures WithCopy(m, runs, c).copies == m.copies + [c]
  {
  }

  /** The old object that a pointer points to. */
  function Target(w: Old, p: nat): set<nat> {
    if IsObject(w, p) then {ObjectOf(p)} else {}
  }

  /** Just these objects may be new. */
  ghost predicate Added(fwd: map<nat, nat>, fwd': map<nat, nat>, s: set<nat>) {
    fwd'.Keys == fwd.Keys + s
  }

  /** The object is forwarded to this address. */
  ghost predicate Forwards(fwd: map<nat, nat>, fwd': map<nat, nat>, h: nat, address: nat) {
    Added(fwd, fwd', {h}) && h in fwd' && address == BodyAddress(fwd'[h])
  }

  lemma ForwardsIs(fwd: map<nat, nat>, fwd': map<nat, nat>, h: nat, address: nat)
    requires Added(fwd, fwd', {h}) && h in fwd' && address == BodyAddress(fwd'[h])
    ensures Forwards(fwd, fwd', h, address)
  {
  }

  lemma ForwardsParts(fwd: map<nat, nat>, fwd': map<nat, nat>, h: nat, address: nat)
    requires Forwards(fwd, fwd', h, address)
    ensures Added(fwd, fwd', {h}) && h in fwd' && address == BodyAddress(fwd'[h])
  {
  }

  lemma AddedNone(fwd: map<nat, nat>, s: set<nat>)
    requires forall h :: h in s ==> h in fwd
    ensures Added(fwd, fwd, s)
  {
  }

  lemma AddedOne(fwd: map<nat, nat>, h: nat, d: nat)
    ensures Added(fwd, fwd[h := d], {h}) && h in fwd[h := d] && fwd[h := d][h] == d
  {
  }

  lemma TargetOf(w: Old, p: nat)
    ensures IsObject(w, p) ==> Target(w, p) == {ObjectOf(p)}
    ensures !IsObject(w, p) ==> Target(w, p) == {}
  {
  }

  lemma WordsFor(words: nat, bytes: nat)
    requires words >= 1 && bytes == (words - 1) * WORD_BYTES
    ensures (bytes + WORD_BYTES - 1) / WORD_BYTES + 1 == words
  {
  }

  lemma BodyAddressIs(d: nat, np: nat)
    requires np == d + 1
    ensures WORD_BYTES * np == BodyAddress(d)
  {
  }

  lemma OnePage(words: nat)
    requires words >= 1
    ensures words < PAGE_WORDS ==> PagesFor(words) == 1
  {
  }

  /** What a full collection leaves alone: pointers to pages out of the heap, to pages of the new
      space and to the nursery are no pointers to old objects. */
  predicate Stays(w: Old, space: seq<nat>, last: nat, page: nat) {
    page < w.first || page > last || page >= |space| || space[page] == w.into || InNursery(w, page)
  }

  lemma MoveStays(w: Old, m: Made, space: seq<nat>, last: nat, p: nat)
    requires OldOk(w) && PagesOk(w, space, last, m.runs) && (p == 0 || Stays(w, space, last, PageOf(p)))
    ensures Settled(w, m.fwd, p) && Image(w, m.fwd, p) == p && !IsObject(w, p)
  {
    if IsObject(w, p) { ObjectPage(w, space, last, m.runs, p); }
  }

  lemma MoveGoes(w: Old, m: Made, space: seq<nat>, last: nat, p: nat)
    requires OldOk(w) && RunsOk(m.copies, m.runs) && PagesOk(w, space, last, m.runs) && Movable(w, m, p) &&
      !Stays(w, space, last, PageOf(p))
    ensures IsObject(w, p) && p / WORD_BYTES >= 1 && ObjectOf(p) == p / WORD_BYTES - 1 && InMemory(w, ObjectOf(p))
    ensures p / WORD_BYTES <= |w.mem| && ObjectOf(p) in w.objects
    ensures ObjectOf(p) in m.fwd ==> Settled(w, m.fwd, p) && Image(w, m.fwd, p) == BodyAddress(m.fwd[ObjectOf(p)])
  {
    hide OldOk, RunsOk, PagesOk, InMemory;
    if ToCopy(m, p) { ToCopyPage(w, space, last, m, p); }
    PagesSize(w, space, last, m.runs);
    ObjectSize(w, ObjectOf(p));
  }

  lemma PagesSize(w: Old, space: seq<nat>, last: nat, runs: seq<Run>)
    requires PagesOk(w, space, last, runs)
    ensures |space| == |w.space| && last < |space|
  {
  }

  lemma MovedImage(w: Old, m: Made, p: nat)
    requires IsObject(w, p) && ObjectOf(p) in m.fwd
    ensures Settled(w, m.fwd, p) && Image(w, m.fwd, p) == BodyAddress(m.fwd[ObjectOf(p)])
  {
  }

  /** Copy k is scanned up to word n of its body, and no other copy has been scanned on. */
  ghost predicate ScannedOn(m: Made, m': Made, k: nat, n: nat) {
    && Grown(m, m') && k < |m.copies| && m'.scanned[k] == (if m.scanned[k] < n then n else m.scanned[k])
    && Untouched(m, m', k, k + 1)
  }

  lemma ScannedOnThen(a: Made, b: Made, c: Made, k: nat, i: nat, n: nat)
    requires ScannedOn(a, b, k, i) && ScannedOn(b, c, k, n) && i <= n
    ensures ScannedOn(a, c, k, n)
  {
    GrownThen(a, b, c);
  }

  /** No word from the first one not scanned up to word i is a pointer. */
  ghost predicate NoSlots(w: Old, m: Made, k: nat, i: nat) {
    k < |m.copies| && k < |m.scanned| && InMemory(w, m.copies[k].src) && i < Words(w, m.copies[k].src) &&
    forall j :: m.scanned[k] <= j < i ==> !IsSlot(w, m.copies[k].src, j)
  }

  lemma SkipKeeps(w: Old, mem: seq<nat>, space: seq<nat>, last: nat, freep: nat, freewords: nat, m: Made, k: nat,
                  i: nat)
    requires Inv(w, mem, space, last, freep, freewords, m) && NoSlots(w, m, k, i) && m.scanned[k] <= i
    ensures Inv(w, mem, space, last, freep, freewords, m.(scanned := m.scanned[k := i])) &&
      ScannedOn(m, m.(scanned := m.scanned[k := i]), k, i)
  {
    hide OldOk, FromOk, FwdOk, RunsOk, PagesOk, FrontierOk, CopyOk;
    CopyIs(w, mem, m, k);
    SkipTo(w, mem, m.fwd, m.copies[k], m.scanned[k], i);
  }

  /** The word that the evacuation of pointer i of copy k writes keeps everything. */
  lemma EvacKeeps(w: Old, mem: seq<nat>, space: seq<nat>, last: nat, freep: nat, freewords: nat, m: Made, k: nat,
                  i: nat, q: nat)
    requires Inv(w, mem, space, last, freep, freewords, m) && k < |m.copies| && InMemory(w, m.copies[k].src) &&
      i < Words(w, m.copies[k].src) - 1
    requires i <= m.scanned[k] && IsSlot(w, m.copies[k].src, i) && Settled(w, m.fwd, Cell(w, m.copies[k].src, i))
    requires q == Image(w, m.fwd, Cell(w, m.copies[k].src, i))
    ensures m.copies[k].dst + 1 + i < |mem| &&
      ScannedOn(m, m.(scanned := m.scanned[k := if m.scanned[k] == i then i + 1 else m.scanned[k]]), k, i + 1)
    ensures Inv(w, mem[m.copies[k].dst + 1 + i := q], space, last, freep, freewords,
                m.(scanned := m.scanned[k := if m.scanned[k] == i then i + 1 else m.scanned[k]]))
  {
    hide OldOk, FromOk, FwdOk, RunsOk, PagesOk, FrontierOk, CopyOk, CopiesOk, Settled, Image, IsSlot, Cell, InMemory;
    InvParts(w, mem, space, last, freep, freewords, m);
    CopyIs(w, mem, m, k);
    var c, s := m.copies[k], m.scanned[k];
    Rewritten(w, mem, m.fwd, c, s, i);
    CopyWritten(w, mem, space, last, freep, freewords, m, k, c.dst + 1 + i, q, if s == i then i + 1 else s);
  }

  lemma NoSlotsParts(w: Old, m: Made, k: nat, i: nat)
    requires NoSlots(w, m, k, i)
    ensures k < |m.copies| && k < |m.scanned| && InMemory(w, m.copies[k].src) && i < Words(w, m.copies[k].src)
  {
  }

  /** What is in the slot may be moved. */
  lemma EvacReady(w: Old, mem: seq<nat>, space: seq<nat>, last: nat, m: Made, roots: set<nat>, k: nat, i: nat)
    requires OldOk(w) && FwdOk(w, m.fwd, m.copies) && CopiesOk(w, mem, m) && RunsOk(m.copies, m.runs) &&
      PagesOk(w, space, last, m.runs)
    requires OnlyReachable(w, roots, m.fwd) && k < |m.copies| && InMemory(w, m.copies[k].src) &&
      i < Words(w, m.copies[k].src) - 1
    requires IsSlot(w, m.copies[k].src, i) && k < |m.scanned| && i <= m.scanned[k]
    ensures m.copies[k].dst + 1 + i < |mem|
    ensures var v, cell := mem[m.copies[k].dst + 1 + i], Cell(w, m.copies[k].src, i);
      && Movable(w, m, v) && PointerOk(w, cell)
      && (IsObject(w, v) ==> Reachable(w, roots, ObjectOf(v)) && Caused(w, roots, m, ObjectOf(v)))
      && (v == cell || (Settled(w, m.fwd, cell) && v == Image(w, m.fwd, cell) && ToCopy(m, v)))
  {
    hide OldOk, FwdOk, CopiesOk, CopyOk, IsSlot, Cell, Settled, Image, PointerOk, InMemory, Words, Reachable,
      Movable, ToCopy, RunsOk, PagesOk;
    CopyIs(w, mem, m, k);
    CellNow(w, mem, m, k, i);
    var v := mem[m.copies[k].dst + 1 + i];
    if v == Cell(w, m.copies[k].src, i) {
      if IsObject(w, v) {
        ReachableSlot(w, roots, m.copies[k].src, i);
        assert CausedBy(w, m, ObjectOf(v), k, i);
      }
    } else {
      ToCopyPage(w, space, last, m, v);
    }
  }

  /** A move scans nothing. */
  lemma ScannedSame(m0: Made, m1: Made, m2: Made, k: nat, i: nat)
    requires ScannedOn(m0, m1, k, i) && Grown(m1, m2) && Untouched(m1, m2, 0, 0)
    ensures ScannedOn(m0, m2, k, i) && k < |m2.copies| && k < |m2.scanned| && m2.copies[k] == m1.copies[k] &&
      m2.scanned[k] >= i
  {
    GrownThen(m0, m1, m2);
    assert m2.copies[k] == m2.copies[..|m1.copies|][k];
  }

  lemma SameCopy(m: Made, m': Made, k: nat, n: nat)
    requires ScannedOn(m, m', k, n)
    ensures k < |m'.copies| && k < |m.copies| && m'.copies[k] == m.copies[k]
  {
    assert m'.copies[k] == m'.copies[..|m.copies|][k];
  }

  // ----- values -----

  /** There is a value at word b of the body of h. */
  ghost predicate ValueIn(w: Old, h: nat, b: nat) {
    InMemory(w, h) && ValueAt(Type(w, h), Body(w, h), b)
  }

  ghost predicate ValueNoSlots(w: Old, h: nat, b: nat, lo: nat, hi: nat)
    requires ValueIn(w, h, b)
  {
    forall o :: lo <= o < hi ==> !ValueSlot(Body(w, h)[b], o)
  }

  lemma ValueNext(w: Old, m0: Made, m: Made, k: nat, b: nat, lo: nat, hi: nat)
    requires ScannedOn(m0, m, k, b + lo) && k < |m.copies| && ValueIn(w, m.copies[k].src, b) && lo <= hi <= VALUE_WORDS
    requires ValueNoSlots(w, m.copies[k].src, b, lo, hi)
    ensures NoSlots(w, m, k, b + hi)
  {
    hide ValueSlot, Slot;
    var h := m.copies[k].src;
    forall j | m.scanned[k] <= j < b + hi ensures !IsSlot(w, h, j) {
      assert !ValueSlot(Body(w, h)[b], j - b);
    }
  }

  /** The tag of a value is not a pointer, and stands in the copy as it was. */
  lemma ValueTag(w: Old, mem: seq<nat>, m: Made, k: nat, b: nat)
    requires OldOk(w) && FwdOk(w, m.fwd, m.copies) && CopiesOk(w, mem, m) && k < |m.copies| &&
      ValueIn(w, m.copies[k].src, b)
    ensures m.copies[k].dst + 1 + b < |mem| && mem[m.copies[k].dst + 1 + b] == Body(w, m.copies[k].src)[b]
    ensures b + VALUE_WORDS < Words(w, m.copies[k].src)
  {
    hide OldOk, FwdOk, CopiesOk, Slot, PointerOk, Movable, ToCopy, Image, Settled;
    CopyIs(w, mem, m, k);
    CellNow(w, mem, m, k, b);
    assert !ValueSlot(Body(w, m.copies[k].src)[b], 0);
    assert !IsSlot(w, m.copies[k].src, b);
  }

  /** Which words of a value are pointers, by its tag. */
  lemma SlotsOfTag(w: Old, h: nat, b: nat)
    requires ValueIn(w, h, b)
    ensures var tag := Tag(Body(w, h)[b]);
      && (tag == VAL_CONS ==>
        ValueNoSlots(w, h, b, 0, 1) && IsSlot(w, h, b + 1) && ValueNoSlots(w, h, b, 2, 2) && IsSlot(w, h, b + 2) &&
        ValueNoSlots(w, h, b, 3, 5))
      && (tag == VAL_LAMBDA ==>
        ValueNoSlots(w, h, b, 0, 1) && IsSlot(w, h, b + 1) && ValueNoSlots(w, h, b, 2, 3) && IsSlot(w, h, b + 3) &&
        ValueNoSlots(w, h, b, 4, 5))
      && (tag == VAL_VECTOR || tag == VAL_STRING || tag == VAL_ERROR ==>
        ValueNoSlots(w, h, b, 0, 1) && IsSlot(w, h, b + 1) && ValueNoSlots(w, h, b, 2, 5))
      && (tag != VAL_CONS && tag != VAL_LAMBDA && tag != VAL_VECTOR && tag != VAL_STRING && tag != VAL_ERROR ==>
        ValueNoSlots(w, h, b, 0, 5))
  {
  }

  // ----- objects -----

  /** No word of the body of h from lo up to hi is a pointer. */
  ghost predicate Gap(w: Old, h: nat, lo: nat, hi: nat) {
    InMemory(w, h) && hi < Words(w, h) && forall i :: lo <= i < hi ==> !IsSlot(w, h, i)
  }

  lemma GapNext(w: Old, m0: Made, m: Made, k: nat, lo: nat, hi: nat)
    requires ScannedOn(m0, m, k, lo) && k < |m.copies| && Gap(w, m.copies[k].src, lo, hi)
    ensures NoSlots(w, m, k, hi)
  {
    hide IsSlot;
  }

  lemma GapEnd(w: Old, m0: Made, m: Made, k: nat, lo: nat, hi: nat)
    requires ScannedOn(m0, m, k, hi) && lo <= hi && k < |m.copies| && Gap(w, m.copies[k].src, lo, hi)
    ensures NoSlots(w, m, k, hi)
  {
    hide IsSlot;
  }

  /** Copy k is of an object of this type and size. */
  ghost predicate ObjectAt(w: Old, m: Made, k: nat, ty: nat, n: nat) {
    k < |m.copies| && k < |m.scanned| && InMemory(w, m.copies[k].src) && Type(w, m.copies[k].src) == ty &&
      Words(w, m.copies[k].src) == n + 1 && n >= 1
  }

  lemma ObjectParts(w: Old, m: Made, k: nat, ty: nat, n: nat)
    requires ObjectAt(w, m, k, ty, n) && |m.scanned| == |m.copies|
    ensures k < |m.copies| && InMemory(w, m.copies[k].src) && Type(w, m.copies[k].src) == ty &&
      Words(w, m.copies[k].src) == n + 1
    ensures ScannedOn(m, m, k, 0) && Gap(w, m.copies[k].src, 0, 0)
  {
    GrownSelf(m);
  }

  lemma ValuesOf(w: Old, h: nat, n: nat)
    requires InMemory(w, h) && Type(w, h) == VALUE_ARRAY && Words(w, h) == n + 1
    ensures forall j: nat :: j < n / VALUE_WORDS ==>
      ValueIn(w, h, VALUE_WORDS * j) && Gap(w, h, VALUE_WORDS * j, VALUE_WORDS * j)
    ensures Gap(w, h, VALUE_WORDS * (n / VALUE_WORDS), n)
  {
    forall j: nat | j < n / VALUE_WORDS ensures ValueIn(w, h, VALUE_WORDS * j) &&
      Gap(w, h, VALUE_WORDS * j, VALUE_WORDS * j) {
      ValueInArray(Body(w, h), j);
    }
  }

  lemma InstrOf(w: Old, h: nat, n: nat, j: nat)
    requires InMemory(w, h) && Type(w, h) == INSTR_ARRAY && Words(w, h) == n + 1 && j < n / INSTR_WORDS
    ensures Gap(w, h, INSTR_WORDS * j, INSTR_WORDS * j + 1) && ValueIn(w, h, INSTR_WORDS * j + 1)
    ensures Gap(w, h, INSTR_WORDS * j + 6, INSTR_WORDS * j + 6) && INSTR_WORDS * j + 6 < n &&
      IsSlot(w, h, INSTR_WORDS * j + 6)
    ensures Gap(w, h, INSTR_WORDS * j + 7, INSTR_WORDS * j + 8)
  {
    InstrInArray(Body(w, h), j);
  }

  lemma FrameOf(w: Old, h: nat, n: nat, j: nat)
    requires InMemory(w, h) && Type(w, h) == CALLFRAME_ARRAY && Words(w, h) == n + 1 && j < n / FRAME_WORDS
    ensures FRAME_WORDS * j + 5 < n && Gap(w, h, FRAME_WORDS * j, FRAME_WORDS * j) && IsSlot(w, h, FRAME_WORDS * j)
    ensures Gap(w, h, FRAME_WORDS * j + 1, FRAME_WORDS * j + 2) && IsSlot(w, h, FRAME_WORDS * j + 2)
    ensures Gap(w, h, FRAME_WORDS * j + 3, FRAME_WORDS * j + 4) && IsSlot(w, h, FRAME_WORDS * j + 4)
    ensures Gap(w, h, FRAME_WORDS * j + 5, FRAME_WORDS * j + 6)
  {
    FrameInArray(Body(w, h), j);
  }

  /** Behind the last whole element there are no pointers. */
  lemma ArrayTail(w: Old, h: nat, n: nat, size: nat)
    requires InMemory(w, h) && Words(w, h) == n + 1
    requires (Type(w, h) == INSTR_ARRAY && size == INSTR_WORDS) ||
      (Type(w, h) == CALLFRAME_ARRAY && size == FRAME_WORDS)
    ensures Gap(w, h, size * (n / size), n)
  {
  }

  lemma RawOf(w: Old, h: nat, n: nat)
    requires InMemory(w, h) && Type(w, h) == RAW && Words(w, h) == n + 1
    ensures Gap(w, h, 0, n)
  {
  }

  lemma ValueOf(w: Old, h: nat, n: nat)
    requires OldOk(w) && h in w.objects && InMemory(w, h) && Type(w, h) == VALUE && Words(w, h) == n + 1
    ensures VALUE_WORDS <= n && ValueIn(w, h, 0) && Gap(w, h, 0, 0) && Gap(w, h, VALUE_WORDS, n)
  {
    assert Words(w, h) > VALUE_WORDS;
  }

  lemma OtherOf(w: Old, h: nat, n: nat)
    requires InMemory(w, h) && Type(w, h) > CALLFRAME_ARRAY && Words(w, h) == n + 1
    ensures Gap(w, h, 0, n)
  {
  }

  lemma ScannedIs(m: Made, m': Made, k: nat, n: nat)
    requires ScannedOn(m, m', k, n)
    ensures Grown(m, m') && k < |m.copies| && k < |m'.scanned| && m'.scanned[k] >= n && Untouched(m, m', k, k + 1)
  {
  }

  lemma ScannedTo(m: Made, m': Made, k: nat, n: nat)
    requires ScannedOn(m, m', k, n)
    ensures k < |m'.scanned| && n <= m'.scanned[k]
  {
  }

  lemma PassedNone(m: Made, j: nat)
    requires |m.scanned| == |m.copies|
    ensures Passed(m, j, j)
  {
  }

  /** The two pages are those of different runs, and so different. */
  lemma DifferentPages(w: Old, space: seq<nat>, last: nat, copies: seq<Copy>, runs: seq<Run>, r: nat, q: nat)
    requires PagesOk(w, space, last, runs) && RunsOk(copies, runs) && r < q < |runs|
    ensures runs[r].page != runs[q].page
  {
    RunPages(copies, runs, r);
    RunPages(copies, runs, q);
    assert Separate(runs[r], runs[q]);
  }

  lemma WalkedIs(m: Made, m': Made, r: nat, i: nat, j: nat)
    requires Grown(m, m') && RunsOk(m.copies, m.runs) && RunsOk(m'.copies, m'.runs) && Untouched(m, m', i, j) &&
      Passed(m', i, j)
    requires r < |m.runs| && m.runs[r].start <= i <= m.runs[r].end && i <= j && r < |m'.runs| && j <= m'.runs[r].end
    ensures WalkedOn(m, m', r, i, j)
  {
  }

  lemma OpenRun(m: Made, stop: seq<nat>, open: set<nat>, behind: bool, r: nat)
    requires Account(m, stop, open, behind) && r in open
    ensures r < |stop| && r + 1 < |m.runs| && m.runs[r].start <= stop[r] < m.runs[r].end
  {
  }

  lemma MoreRuns(m: Made, m': Made)
    requires Grown(m, m')
    ensures |m.runs| <= |m'.runs| && forall r :: 0 <= r < |m.runs| ==>
      m'.runs[r].page == m.runs[r].page && m.runs[r].end <= m'.runs[r].end
  {
  }

  lemma AccountUp(m: Made, stop: seq<nat>, open: set<nat>, behind: bool)
    requires Account(m, stop, open, behind)
    ensures open != {} || behind ==> !NoAbut(m.runs)
  {
  }

  lemma OneOpen(page: nat, p: Progress, r: nat, open: set<nat>)
    requires open == Open(page, p) && (page != 0 ==> p.run != r)
    ensures (if page != 0 then open + {r} - {p.run} else open + {r}) == {r}
  {
  }

  lemma NoneOpen(open: set<nat>, r: nat)
    requires open == {r}
    ensures open - {r} == {}
  {
  }

  lemma RunStart(copies: seq<Copy>, run: Run)
    requires RunOk(copies, run)
    ensures run.start < run.end
  {
  }

  lemma GoingIs(m: Made, page: nat, cp: nat, p: Progress, open: set<nat>)
    requires Account(m, p.stop, open, p.behind) && open == Open(page, p)
    requires page != 0 ==> BackAt(m, p.run, p.at, page, cp) && p.run < |p.stop| && p.stop[p.run] == p.at
    ensures Going(m, page, cp, p)
  {
  }

  class Collector {
    const pages: Pages
    const mem: array<nat>
    var freep: nat
    var freewords: nat
    ghost var w: Old
    ghost var m: Made
    ghost var rootSet: set<nat>
    ghost var f0: nat
    ghost var types0: seq<nat>

    constructor (pages: Pages, mem: array<nat>)
      ensures this.pages == pages && this.mem == mem && freewords == 0
    {
      this.pages, this.mem, freep, freewords := pages, mem, 0, 0;
      w, m, rootSet, f0, types0 := Old([], {}, [], 0, 0, 0, 0, 0, 0), Made([], [], map[], []), {}, 0, [];
    }

    /** The tables are those of the collection that is going on. */
    ghost predicate Tied(runs: seq<Run>)
      reads this`w, this`types0, pages
    {
      && pages.Valid() && pages.currentSpace == w.from && pages.nextSpace == w.into && !pages.inScavenge
      && pages.first == w.first && pages.limit == |w.space| && pages.nurseryFirst == w.nurseryFirst &&
        pages.nurseryLast == w.nurseryLast
      && PageOrder(pages.order, runs) && TypesKept(w.space, types0, pages.typePage, w.from, w.into)
    }

    /** Between two moves of a collection that began with the search for pages at f0. */
    ghost predicate Ready()
      reads this, pages, mem
    {
      && Tied(m.runs) && Inv(w, mem[..], pages.space, pages.last, freep, freewords, m) &&
        OnlyReachable(w, rootSet, m.fwd)
      && Traced(w, f0, rootSet, pages.space, pages.last, pages.freepage, freewords, pages.allocatedPages, m)
    }

    lemma Parts()
      requires Ready()
      ensures Tied(m.runs) && Inv(w, mem[..], pages.space, pages.last, freep, freewords, m) &&
        OnlyReachable(w, rootSet, m.fwd)
      ensures pages.Valid() && pages.limit == |w.space| && pages.nextSpace == w.into &&
        pages.currentSpace == w.from && !pages.inScavenge
      ensures TypesKept(w.space, types0, pages.typePage, w.from, w.into)
      ensures pages.first == w.first && PageOrder(pages.order, m.runs) && pages.nurseryFirst == w.nurseryFirst &&
        pages.nurseryLast == w.nurseryLast
      ensures LayoutOk(w, mem[..], pages.space, pages.last, m.copies, m.runs, freep, freewords) && OldOk(w)
      ensures mem.Length == PAGE_WORDS * pages.limit && freewords <= MAX_WORDS &&
        (freewords > 0 ==> freep + freewords <= mem.Length)
      ensures w.from != w.into && |m.scanned| == |m.copies|
      ensures Traced(w, f0, rootSet, pages.space, pages.last, pages.freepage, freewords, pages.allocatedPages, m)
    {
      hide TypesKept, Traced, Inv, OldOk, LayoutOk, Pages.Valid;
      InvParts(w, mem[..], pages.space, pages.last, freep, freewords, m);
      FrontierFits(w, mem[..], pages.space, pages.last, m.copies, m.runs, freep, freewords);
    }

    lemma TiedIs(runs: seq<Run>)
      requires pages.Valid() && pages.currentSpace == w.from && pages.nextSpace == w.into && !pages.inScavenge
      requires pages.first == w.first && pages.limit == |w.space| && pages.nurseryFirst == w.nurseryFirst &&
        pages.nurseryLast == w.nurseryLast
      requires PageOrder(pages.order, runs) && TypesKept(w.space, types0, pages.typePage, w.from, w.into)
      ensures Tied(runs)
    {
    }

    lemma ReadyIs()
      requires Tied(m.runs) && Inv(w, mem[..], pages.space, pages.last, freep, freewords, m) &&
        OnlyReachable(w, rootSet, m.fwd)
      requires Traced(w, f0, rootSet, pages.space, pages.last, pages.freepage, freewords, pages.allocatedPages, m)
      ensures Ready()
    {
    }

    method Write(i: nat, v: nat)
      requires i < mem.Length
      modifies mem
      ensures mem[..] == old(mem[..])[i := v]
    {
      mem[i] := v;
    }

    /** memset to zero */
    method Clear(lo: nat, n: nat)
      requires lo + n <= mem.Length
      modifies mem
      ensures mem[..] == Cleared(old(mem[..]), lo, n)
    {
      var i := 0;
      while i < n
        invariant i <= n && mem[..] == Cleared(old(mem[..]), lo, i)
      {
        mem[lo + i] := 0;
        i := i + 1;
      }
      assert i == n;
    }

    /** The loop of gcalloc_internal: room for so many words, at the frontier or on new pages; the
        words left before are made a filler. */
    method TakeRoom(words: nat) returns (ok: bool, ghost taken: bool, ghost page: nat)
      requires pages.Valid() && words >= 1 && mem.Length == PAGE_WORDS * pages.limit
      requires freewords > 0 ==> freep < mem.Length && freewords <= MAX_WORDS
      modifies this`freep, this`freewords, mem, pages`last, pages`freepage, pages`space, pages`typePage,
        pages`allocatedPages, pages`queued, pages`link,
        pages`head, pages`tail, pages`order
      ensures ok ==> pages.Valid() && words <= freewords
      ensures pages.first <= old(pages.last)
      ensures ok ==> TypesKept(old(pages.space), old(pages.typePage), pages.typePage, pages.currentSpace,
        pages.nextSpace)
      ensures !ok ==> words > old(freewords) && old(pages.Allocated(PagesFor(words))) == None
      ensures ok && !taken ==>
        && words <= old(freewords) && pages.allocatedPages == old(pages.allocatedPages)
        && freep == old(freep) && freewords == old(freewords) && mem[..] == old(mem[..]) &&
          pages.space == old(pages.space)
        && pages.last == old(pages.last) && pages.order == old(pages.order) && pages.freepage == old(pages.freepage)
      ensures ok && taken ==>
        && Some(Found(page, pages.last)) == old(pages.Allocated(PagesFor(words)))
        && pages.freepage == After(page, PagesFor(words), pages.first, pages.last)
        && pages.allocatedPages == old(pages.allocatedPages) + PagesFor(words)
        && freep == PAGE_WORDS * page && freewords == PAGE_WORDS * PagesFor(words) &&
          mem[..] == Finalized(old(mem[..]), old(freep), old(freewords))
        && pages.first <= page && page + PagesFor(words) <= pages.last + 1 && old(pages.last) <= pages.last &&
          words > old(freewords)
        && (forall p :: page <= p < page + PagesFor(words) ==>
          FreeTag(old(pages.space)[p], pages.currentSpace, pages.nextSpace))
        && pages.space == Tagged(old(pages.space), page, PagesFor(words), pages.nextSpace)
        && pages.order == (if pages.currentSpace != pages.nextSpace || pages.inScavenge then old(pages.order) +
          [page] else old(pages.order))
    {
      hide Traced, Pages.Valid, Tagged, Allocates, TypesKept;
      taken, page := false, 0;
      pages.Sizes();
      TypesSame(pages.space, pages.typePage, pages.currentSpace, pages.nextSpace);
      while words > freewords
        invariant pages.Valid() && pages.first <= pages.last < |old(pages.space)|
        invariant freewords > 0 ==> freep < mem.Length
        invariant TypesKept(old(pages.space), old(pages.typePage), pages.typePage, pages.currentSpace, pages.nextSpace)
        invariant !taken ==>
          && pages.allocatedPages == old(pages.allocatedPages) && pages.typePage == old(pages.typePage)
          && pages.Allocated(PagesFor(words)) == old(pages.Allocated(PagesFor(words)))
          && freep == old(freep) && freewords == old(freewords) && mem[..] == old(mem[..]) &&
            pages.space == old(pages.space)
          && pages.last == old(pages.last) && pages.order == old(pages.order) && pages.freepage == old(pages.freepage)
        invariant taken ==>
          && Some(Found(page, pages.last)) == old(pages.Allocated(PagesFor(words)))
          && pages.freepage == After(page, PagesFor(words), pages.first, pages.last)
          && pages.allocatedPages == old(pages.allocatedPages) + PagesFor(words)
          && freep == PAGE_WORDS * page && freewords == PAGE_WORDS * PagesFor(words) &&
            mem[..] == Finalized(old(mem[..]), old(freep), old(freewords))
          && pages.first <= page && page + PagesFor(words) <= pages.last + 1 && old(pages.last) <= pages.last &&
            words > old(freewords)
          && (forall p :: page <= p < page + PagesFor(words) ==>
            FreeTag(old(pages.space)[p], pages.currentSpace, pages.nextSpace))
          && pages.space == Tagged(old(pages.space), page, PagesFor(words), pages.nextSpace)
          && pages.order == (if pages.currentSpace != pages.nextSpace || pages.inScavenge then old(pages.order) +
            [page] else old(pages.order))
        decreases words > freewords
      {
        if freewords != 0 { Write(freep, MakeHeader(freewords, RAW)); }
        freewords := 0;
        var p;
        ok, p := pages.AllocatePage((words + PAGE_WORDS - 1) / PAGE_WORDS);
        if !ok { return; }
        pages.Sizes();
        freep, freewords := PAGE_WORDS * p, PAGE_WORDS * PagesFor(words);
        taken, page := true, p;
      }
      ok := true;
    }

    /** The end of gcalloc_internal: a header and a cleared body are written at the frontier, which
        moves behind them. */
    method Bump(words: nat, ty: nat)
      requires 1 <= words <= freewords && words <= MAX_WORDS && freep + words <= mem.Length
      modifies this`freep, this`freewords, mem
      ensures mem[..] == Cleared(old(mem[..])[old(freep) := MakeHeader(words, ty)], old(freep) + 1, words - 1) &&
        freep == old(freep) + words
      ensures freewords == if words < PAGE_WORDS then old(freewords) - words else 0
    {
      Write(freep, MakeHeader(words, ty));
      Clear(freep + 1, words - 1);
      if words < PAGE_WORDS {
        freewords := freewords - words;
        freep := freep + words;
      } else {
        freep := freep + words;
        freewords := 0;
      }
    }

    /** The words of the object with its header are put. */
    method AllocWords(words: nat, ty: nat, ghost h: nat) returns (ok: bool, body: nat, ghost runs: seq<Run>)
      requires Ready() && h in w.objects && h !in m.fwd && InMemory(w, h) && words == Words(w, h) <= MAX_WORDS
      modifies this`freep, this`freewords, mem, pages`last, pages`freepage, pages`space, pages`typePage,
        pages`allocatedPages, pages`queued, pages`link,
        pages`head, pages`tail, pages`order
      ensures Fits(w, f0) ==> ok
      ensures ok ==> body >= 1 && Tied(runs)
      ensures ok ==> Placed(w, m, old(mem[..]), mem[..], pages.space, pages.last, freep, freewords, runs, h, body - 1)
      ensures ok ==> Laid(w, f0, pages.space, pages.last, pages.freepage, freewords, pages.allocatedPages,
        m.copies + [Copy(h, body - 1, Words(w, h))], runs)
    {
      hide TypesKept, Pages.Valid, Inv, Placed, PageOrder, OnlyReachable, OldOk, Tagged, Cleared, Words, HeaderWords,
        MakeHeader, LayoutOk, PagesFor, FreeTag, InMemory, Ready, Tied, Finalized, Agree, Traced, Laid, Allocates,
        Fits, Justified, FwdOk, After, PagesOk;
      Parts();
      TracedParts(w, f0, rootSet, pages.space, pages.last, pages.freepage, freewords, pages.allocatedPages, m);
      ForwardedNow();
      ObjectSize(w, h);
      TagsNow(w, pages.space, pages.last, m.runs, mem[..], m.copies, freep, freewords);
      ok, body, runs := false, 0, [];
      ghost var mem0, space0, last0, freep0, freewords0, order0 := mem[..], pages.space, pages.last, freep,
        freewords, pages.order;
      pages.Sizes();
      ghost var freepage0, taken0, types1 := pages.freepage, pages.allocatedPages, pages.typePage;
      ghost var taken, page;
      ok, taken, page := TakeRoom(words);
      if !ok {
        NoRoomNext(w, f0, space0, last0, freepage0, freewords0, taken0, m, h);
        return;
      }
      pages.Sizes();
      body := freep + 1;
      AgreeFresh(mem[..], freep, words, MakeHeader(words, ty));
      Bump(words, ty);
      OnePage(words);
      if taken {
        runs := PutAhead(w, f0, m, mem0, space0, last0, freep0, freewords0, freepage0, taken0, h, mem[..], pages.last,
                           page, order0);
      } else {
        runs := PutBehind(w, f0, m, mem0, space0, last0, freep0, freewords0, freepage0, taken0, h, mem[..], order0);
      }
      TypesOn(w, space0, last0, m.runs, types0, types1, pages.typePage);
      TiedIs(runs);
    }

    /** gcalloc_internal, for the copy of object h: its header and a cleared body, in room that was
        not in use, where the order of copying puts it. */
    method Alloc(bytes: nat, ty: nat, ghost h: nat) returns (ok: bool, body: nat, ghost runs: seq<Run>)
      requires Ready() && h in w.objects && h !in m.fwd && InMemory(w, h) && bytes == (Words(w, h) - 1) * WORD_BYTES
      modifies this`freep, this`freewords, mem, pages`last, pages`freepage, pages`space, pages`typePage,
        pages`allocatedPages, pages`queued, pages`link,
        pages`head, pages`tail, pages`order
      ensures Fits(w, f0) ==> ok
      ensures ok ==> body >= 1 && Tied(runs)
      ensures ok ==> Placed(w, m, old(mem[..]), mem[..], pages.space, pages.last, freep, freewords, runs, h, body - 1)
      ensures ok ==> Laid(w, f0, pages.space, pages.last, pages.freepage, freewords, pages.allocatedPages,
        m.copies + [Copy(h, body - 1, Words(w, h))], runs)
    {
      hide TypesKept, Pages.Valid, Inv, Placed, PageOrder, OnlyReachable, OldOk, Words, HeaderWords, MakeHeader,
        LayoutOk, InMemory, Ready, Tied, Agree, Traced, Laid, Fits, Justified, FwdOk, PagesOk;
      Parts();
      ObjectSize(w, h);
      WordsFor(Words(w, h), bytes);
      var words := (bytes + WORD_BYTES - 1) / WORD_BYTES + 1;
      ok, body, runs := false, 0, [];
      if words > MAX_WORDS { return; }
      ok, body, runs := AllocWords(words, ty, h);
    }

    lemma ForwardedNow()
      requires Ready()
      ensures FwdOk(w, m.fwd, m.copies)
    {
      hide TypesKept, Pages.Valid, OldOk, FwdOk, Traced;
    }

    /** The end of move_internal: the words are copied one by one, and the address of the copy is
        left in the header. */
    method CopyAndForward(source: nat, target: nat, n: nat, address: nat)
      requires 1 <= n && source + n <= mem.Length && target + n <= mem.Length &&
        (source + n <= target || target + n <= source)
      requires address == BodyAddress(target)
      modifies mem
      ensures Carried(old(mem[..]), mem[..], source, target, n)
    {
      var i := 0;
      while i < n
        invariant i <= n && Agree(old(mem[..]), mem[..], target, target + i)
        invariant mem[target..target + i] == old(mem[source..source + i])
      {
        mem[target + i] := mem[source + i];
        i := i + 1;
        assert mem[target..target + i] == mem[target..target + i - 1] + [mem[target + i - 1]];
        assert old(mem[source..source + i]) == old(mem[source..source + i - 1]) + [old(mem[source + i - 1])];
      }
      ghost var mem1, mem2 := old(mem[..]), mem[..];
      CopiedIs(mem1, mem2, source, target, n);
      Write(source, address);
    }

    /** The object has been copied and forwarded. */
    ghost method Commit(h: nat, d: nat, runs: seq<Run>, mem0: seq<nat>, space0: seq<nat>, last0: nat, freep0: nat,
                        freewords0: nat, mem1: seq<nat>)
      requires Inv(w, mem0, space0, last0, freep0, freewords0, m) && OnlyReachable(w, rootSet, m.fwd)
      requires h in w.objects && h !in m.fwd && Reachable(w, rootSet, h) && Caused(w, rootSet, m, h)
      requires Placed(w, m, mem0, mem1, pages.space, pages.last, freep, freewords, runs, h, d) && Tied(runs)
      requires Carried(mem1, mem[..], h, d, Words(w, h)) && Justified(w, rootSet, m)
      requires Laid(w, f0, pages.space, pages.last, pages.freepage, freewords, pages.allocatedPages,
        m.copies + [Copy(h, d, Words(w, h))], runs)
      modifies this`m
      ensures Ready() && Grown(old(m), m) && Untouched(old(m), m, 0, 0)
      ensures Added(old(m.fwd), m.fwd, {h}) && h in m.fwd && m.fwd[h] == d
    {
      hide TypesKept, Traced, Pages.Valid, Inv, Placed, PageOrder, OnlyReachable, OldOk, Words, LayoutOk, Tied, Grown,
        BodyAddress, WithCopy, Carried, Untouched, Reachable, Laid, Justified, Caused;
      MovePlaced(w, mem0, space0, last0, freep0, freewords0, m, mem1, mem[..], pages.space, pages.last, freep,
        freewords, runs, h, d);
      OnlyReachablePlus(w, rootSet, m.fwd, h, d);
      ghost var m' := WithCopy(m, runs, Copy(h, d, Words(w, h)));
      CopiesOf(m, runs, Copy(h, d, Words(w, h)));
      TracedPlus(w, f0, rootSet, m, m', h, d, pages.space, pages.last, pages.freepage, freewords,
                 pages.allocatedPages);
      AddedOne(m.fwd, h, d);
      m := m';
      ReadyIs();
    }

    /** move_internal: a forwarded object has its copy's address for a header; another one is copied
        and forwarded. */
    method MoveInternal(cp: nat, ty: nat) returns (ok: bool, address: nat)
      requires Ready() && 1 <= cp && cp - 1 in w.objects && InMemory(w, cp - 1) && Reachable(w, rootSet, cp - 1)
      requires Caused(w, rootSet, m, cp - 1)
      modifies this`freep, this`freewords, this`m, mem, pages`last, pages`freepage, pages`space, pages`typePage,
        pages`allocatedPages, pages`queued,
        pages`link, pages`head, pages`tail, pages`order
      ensures Fits(w, f0) ==> ok
      ensures ok ==> Ready() && Grown(old(m), m) && Untouched(old(m), m, 0, 0)
      ensures ok ==> Forwards(old(m.fwd), m.fwd, cp - 1, address)
    {
      hide TypesKept, Pages.Valid, Inv, Placed, PageOrder, OnlyReachable, OldOk, Words, HeaderWords, MakeHeader,
        LayoutOk,
        InMemory, Ready, Tied, Agree, Grown, BodyAddress, Forwarded, WithCopy, Carried, Untouched, Reachable, FromOk,
        FwdOk, CopiesOk, RunsOk, PagesOk, FrontierOk, Traced, Laid, Fits, Justified, Caused, Added, Forwards;
      Parts();
      ghost var h := cp - 1;
      ghost var mem0, space0, last0, freep0, freewords0 := mem[..], pages.space, pages.last, freep, freewords;
      InvParts(w, mem0, pages.space, pages.last, freep, freewords, m);
      HeaderNow(w, mem0, m.fwd, h);
      var header := mem[cp - 1];
      assert header == mem0[h];
      GrownSelf(m);
      UntouchedSelf(m, 0);
      if Forwarded(header) {
        AddedNone(m.fwd, {h});
        ForwardsIs(m.fwd, m.fwd, h, header);
        return true, header;
      }
      TracedParts(w, f0, rootSet, pages.space, pages.last, pages.freepage, freewords, pages.allocatedPages, m);
      var np;
      ghost var runs;
      ok, np, runs := Alloc((HeaderWords(header) - 1) * WORD_BYTES, ty, h);
      address := WORD_BYTES * np;
      if !ok { return; }
      BodyAddressIs(np - 1, np);
      ghost var mem1 := mem[..];
      ghost var d := np - 1;
      PlacedFits(w, m, mem0, mem1, pages.space, pages.last, freep, freewords, runs, h, d);
      CopyAndForward(cp - 1, np - 1, HeaderWords(header), address);
      ghost var fwd0 := m.fwd;
      Commit(h, d, runs, mem0, space0, last0, freep0, freewords0, mem1);
      ForwardsIs(fwd0, m.fwd, h, address);
    }

    /** The tests of gc_move: null, or on a page that a full collection does not copy from. */
    method LeftAlone(p: nat) returns (b: bool)
      requires pages.Valid() && pages.first == w.first && pages.limit == |w.space| && pages.nextSpace == w.into
      requires pages.nurseryFirst == w.nurseryFirst && pages.nurseryLast == w.nurseryLast
      ensures b <==> p == 0 || Stays(w, pages.space, pages.last, PageOf(p))
    {
      hide TypesKept, Pages.Valid;
      pages.Sizes();
      if p == 0 { return true; }
      var page := p / PAGE_BYTES;
      if page < pages.first || page > pages.last { return true; }
      if pages.space[page] == pages.nextSpace { return true; }
      return pages.nurseryFirst <= page <= pages.nurseryLast;
    }

    /** A pointer to an old object: where it has been copied, or is copied now. */
    method MoveObject(p: nat) returns (ok: bool, q: nat)
      requires Ready() && IsObject(w, p) && p / WORD_BYTES >= 1 && ObjectOf(p) == p / WORD_BYTES - 1
      requires ObjectOf(p) in w.objects && InMemory(w, ObjectOf(p)) && p / WORD_BYTES <= |w.mem|
      requires Reachable(w, rootSet, ObjectOf(p)) && Caused(w, rootSet, m, ObjectOf(p))
      modifies this`freep, this`freewords, this`m, mem, pages`last, pages`freepage, pages`space, pages`typePage,
        pages`allocatedPages, pages`queued,
        pages`link, pages`head, pages`tail, pages`order
      ensures Fits(w, f0) ==> ok
      ensures ok ==> Ready() && Grown(old(m), m) && Untouched(old(m), m, 0, 0)
      ensures ok ==> Settled(w, m.fwd, p) && q == Image(w, m.fwd, p)
      ensures ok ==> Added(old(m.fwd), m.fwd, {ObjectOf(p)})
    {
      hide TypesKept, Traced, Fits, Caused, Target, Added, Forwards, Pages.Valid, Inv, PageOrder, OnlyReachable, OldOk,
        HeaderWords, LayoutOk, InMemory, Ready, Tied, Grown, BodyAddress, Forwarded, Reachable, FromOk,
        FwdOk, CopiesOk, RunsOk, PagesOk, FrontierOk, Movable, IsObject, Image, Settled, ObjectOf;
      Parts();
      InvParts(w, mem[..], pages.space, pages.last, freep, freewords, m);
      GrownSelf(m);
      UntouchedSelf(m, 0);
      var cp := p / WORD_BYTES;
      ghost var h := ObjectOf(p);
      HeaderNow(w, mem[..], m.fwd, h);
      var header := mem[cp - 1];
      assert header == mem[..][h];
      if Forwarded(header) {
        AddedNone(m.fwd, {h});
        MovedImage(w, m, p);
        return true, header;
      }
      ghost var fwd0 := m.fwd;
      ok, q := MoveInternal(cp, HeaderType(header));
      if ok {
        ForwardsParts(fwd0, m.fwd, h, q);
        MovedImage(w, m, p);
      }
    }

    /** gc_move in a full collection: null, pointers out of the heap, into the new space and into the
        nursery stay as they are; any other is a pointer to an old object, and becomes the address
        of its copy, which is made when it is the first. */
    method Move(p: nat) returns (ok: bool, q: nat)
      requires Ready() && Movable(w, m, p)
      requires IsObject(w, p) ==> Reachable(w, rootSet, ObjectOf(p)) && Caused(w, rootSet, m, ObjectOf(p))
      modifies this`freep, this`freewords, this`m, mem, pages`last, pages`freepage, pages`space, pages`typePage,
        pages`allocatedPages, pages`queued,
        pages`link, pages`head, pages`tail, pages`order
      ensures Fits(w, f0) ==> ok
      ensures ok ==> Ready() && Grown(old(m), m) && Untouched(old(m), m, 0, 0)
      ensures ok ==> Settled(w, m.fwd, p) && q == Image(w, m.fwd, p)
      ensures ok ==> Added(old(m.fwd), m.fwd, Target(w, p))
    {
      hide TypesKept, Traced, Fits, Caused, Target, Added, Forwards, Pages.Valid, Inv, PageOrder, OnlyReachable, OldOk,
        HeaderWords, LayoutOk, InMemory, Ready, Tied, Grown, BodyAddress, Forwarded, Reachable, FromOk,
        FwdOk, CopiesOk, RunsOk, PagesOk, FrontierOk, Movable, IsObject, Image, Settled, ObjectOf;
      TargetOf(w, p);
      Parts();
      InvParts(w, mem[..], pages.space, pages.last, freep, freewords, m);
      pages.Sizes();
      GrownSelf(m);
      UntouchedSelf(m, 0);
      ghost var space0, last0 := pages.space, pages.last;
      var stays := LeftAlone(p);
      if stays {
        MoveStays(w, m, space0, last0, p);
        AddedNone(m.fwd, Target(w, p));
        return true, p;
      }
      MoveGoes(w, m, space0, last0, p);
      ok, q := MoveObject(p);
    }

    lemma ValueNow(k: nat, b: nat)
      requires Ready() && k < |m.copies| && ValueIn(w, m.copies[k].src, b)
      ensures m.copies[k].dst + 1 + b < mem.Length && mem[m.copies[k].dst + 1 + b] == Body(w, m.copies[k].src)[b]
      ensures b + VALUE_WORDS < Words(w, m.copies[k].src)
    {
      hide TypesKept, Traced, Pages.Valid, Inv, OldOk, ValueIn, Body, FwdOk, CopiesOk, RunsOk, PagesOk, FrontierOk;
      InvParts(w, mem[..], pages.space, pages.last, freep, freewords, m);
      ValueTag(w, mem[..], m, k, b);
    }

    /** Words that are no pointers are passed over. */
    ghost method Skip(k: nat, i: nat)
      requires Ready() && NoSlots(w, m, k, i)
      modifies this`m
      ensures Ready() && ScannedOn(old(m), m, k, i) && Quiet(old(m), m)
    {
      hide TypesKept, Pages.Valid, Inv, PageOrder, OnlyReachable, OldOk, IsSlot, InMemory, Grown, Traced;
      Parts();
      GrownSelf(m);
      if m.scanned[k] <= i {
        SkipKeeps(w, mem[..], pages.space, pages.last, freep, freewords, m, k, i);
        TracedScanned(w, f0, rootSet, pages.space, pages.last, pages.freepage, freewords, pages.allocatedPages, m,
                      m.(scanned := m.scanned[k := i]));
        m := m.(scanned := m.scanned[k := i]);
      }
    }

    /** gc_evacuate: pointer i of copy k becomes its image. */
    method Evacuate(a: nat, ghost k: nat, ghost i: nat) returns (ok: bool)
      requires Ready() && NoSlots(w, m, k, i) && i < Words(w, m.copies[k].src) - 1 &&
        IsSlot(w, m.copies[k].src, i) && a == m.copies[k].dst + 1 + i
      modifies this`freep, this`freewords, this`m, mem, pages`last, pages`freepage, pages`space, pages`typePage,
        pages`allocatedPages, pages`queued,
        pages`link, pages`head, pages`tail, pages`order
      ensures Fits(w, f0) ==> ok
      ensures ok ==> Ready() && ScannedOn(old(m), m, k, i + 1)
    {
      hide TypesKept, Traced, Pages.Valid, Inv, PageOrder, OnlyReachable, OldOk, IsSlot, InMemory, Grown, Ready,
        Tied, LayoutOk,
        ScannedOn, NoSlots, Movable, IsObject, ObjectOf, Added, Caused, Fits, Target,
        Reachable, FromOk, FwdOk, CopiesOk, RunsOk, PagesOk, FrontierOk, Image, Settled, Words, Cell, PointerOk;
      ghost var m0 := m;
      NoSlotsParts(w, m, k, i);
      Skip(k, i);
      ScannedTo(m0, m, k, i);
      Parts();
      ghost var m1, cell := m, Cell(w, m.copies[k].src, i);
      ghost var mem1, space1, last1 := mem[..], pages.space, pages.last;
      InvParts(w, mem1, space1, last1, freep, freewords, m1);
      EvacReady(w, mem1, space1, last1, m1, rootSet, k, i);
      var v := mem[a];
      assert v == mem1[a];
      var q;
      ok, q := Move(v);
      if !ok { return; }
      ghost var m2 := m;
      Parts();
      EvacImage(w, m1, m2, space1, last1, cell, v, q);
      ScannedSame(m0, m1, m2, k, i);
      PutBack(a, k, i, q);
      ScannedOnThen(m0, m2, m, k, i, i + 1);
    }

    /** The image is written in the slot. */
    method PutBack(a: nat, ghost k: nat, ghost i: nat, q: nat)
      requires Ready() && k < |m.copies| && k < |m.scanned| && InMemory(w, m.copies[k].src) && i <= m.scanned[k]
      requires i < Words(w, m.copies[k].src) - 1 && IsSlot(w, m.copies[k].src, i) && a == m.copies[k].dst + 1 + i
      requires Settled(w, m.fwd, Cell(w, m.copies[k].src, i)) && q == Image(w, m.fwd, Cell(w, m.copies[k].src, i))
      modifies this`m, mem
      ensures Ready() && ScannedOn(old(m), m, k, i + 1)
    {
      hide TypesKept, Traced, Pages.Valid, Inv, PageOrder, OnlyReachable, OldOk, IsSlot, InMemory, Grown, Tied,
        LayoutOk,
        ScannedOn, FromOk, FwdOk, CopiesOk, RunsOk, PagesOk, FrontierOk, Image, Settled, Words, Cell;
      Parts();
      ghost var m3 := m.(scanned := m.scanned[k := if m.scanned[k] == i then i + 1 else m.scanned[k]]);
      EvacKeeps(w, mem[..], pages.space, pages.last, freep, freewords, m, k, i, q);
      ScannedIs(m, m3, k, i + 1);
      TracedScanned(w, f0, rootSet, pages.space, pages.last, pages.freepage, freewords, pages.allocatedPages, m, m3);
      Write(a, q);
      m := m3;
      ReadyIs();
    }

    /** gc_scan_value, for the value at word b of the body of copy k: its pointers become their
        images. */
    method ScanValue(a: nat, ghost k: nat, ghost b: nat) returns (ok: bool)
      requires Ready() && NoSlots(w, m, k, b) && ValueIn(w, m.copies[k].src, b) && a == m.copies[k].dst + 1 + b
      modifies this`freep, this`freewords, this`m, mem, pages`last, pages`freepage, pages`space, pages`typePage,
        pages`allocatedPages, pages`queued,
        pages`link, pages`head, pages`tail, pages`order
      ensures Fits(w, f0) ==> ok
      ensures ok ==> Ready() && ScannedOn(old(m), m, k, b + VALUE_WORDS)
    {
      hide TypesKept, Traced, Pages.Valid, Inv, PageOrder, OnlyReachable, OldOk, IsSlot, InMemory, Grown, Ready,
        Tied, LayoutOk,
        ScannedOn, NoSlots, FromOk, FwdOk, CopiesOk,
        RunsOk, PagesOk, FrontierOk, Words, Cell, ValueIn, ValueNoSlots, ValueSlot, Body;
      ghost var m0 := m;
      ok := true;
      NoSlotsParts(w, m, k, b);
      Skip(k, b);
      ghost var h := m.copies[k].src;
      ValueNow(k, b);
      SlotsOfTag(w, h, b);
      var tag := Tag(mem[a]);
      if tag == VAL_CONS {
        ok := Field(a, k, b, 0, 1, m0);
        if !ok { return; }
        ok := Field(a, k, b, 2, 2, m0);
        if !ok { return; }
        Rest(k, b, 3, m0);
      } else if tag == VAL_LAMBDA {
        ok := Field(a, k, b, 0, 1, m0);
        if !ok { return; }
        ok := Field(a, k, b, 2, 3, m0);
        if !ok { return; }
        Rest(k, b, 4, m0);
      } else if tag == VAL_VECTOR || tag == VAL_STRING || tag == VAL_ERROR {
        ok := Field(a, k, b, 0, 1, m0);
        if !ok { return; }
        Rest(k, b, 2, m0);
      } else {
        Rest(k, b, 0, m0);
      }
    }

    /** Pointer o of a value is evacuated. */
    method Field(a: nat, ghost k: nat, ghost b: nat, ghost lo: nat, o: nat, ghost m0: Made) returns (ok: bool)
      requires Ready() && ScannedOn(m0, m, k, b + lo) && k < |m.copies| && ValueIn(w, m.copies[k].src, b) &&
        a == m.copies[k].dst + 1 + b
      requires lo <= o < VALUE_WORDS && ValueNoSlots(w, m.copies[k].src, b, lo, o) &&
        b + o < Words(w, m.copies[k].src) - 1 && IsSlot(w, m.copies[k].src, b + o)
      modifies this`freep, this`freewords, this`m, mem, pages`last, pages`freepage, pages`space, pages`typePage,
        pages`allocatedPages, pages`queued,
        pages`link, pages`head, pages`tail, pages`order
      ensures Fits(w, f0) ==> ok
      ensures ok ==> Ready() && ScannedOn(m0, m, k, b + o + 1) && k < |m.copies| && m.copies[k] == old(m).copies[k]
    {
      hide TypesKept, Traced, Pages.Valid, Inv, PageOrder, OnlyReachable, OldOk, IsSlot, InMemory, Grown, Ready,
        Tied, LayoutOk,
        ScannedOn, NoSlots, FromOk, FwdOk, CopiesOk,
        RunsOk, PagesOk, FrontierOk, Words, Cell, ValueIn, ValueNoSlots, ValueSlot, Body;
      ValueNext(w, m0, m, k, b, lo, o);
      ok := Evacuate(a + o, k, b + o);
      if ok {
        SameCopy(old(m), m, k, b + o + 1);
        ScannedOnThen(m0, old(m), m, k, b + lo, b + o + 1);
      }
    }

    ghost method Rest(k: nat, b: nat, lo: nat, m0: Made)
      requires Ready() && ScannedOn(m0, m, k, b + lo) && k < |m.copies| && ValueIn(w, m.copies[k].src, b) &&
        lo <= VALUE_WORDS
      requires ValueNoSlots(w, m.copies[k].src, b, lo, VALUE_WORDS)
      modifies this`m
      ensures Ready() && ScannedOn(m0, m, k, b + VALUE_WORDS)
    {
      hide TypesKept, Traced, Pages.Valid, Inv, PageOrder, OnlyReachable, OldOk, IsSlot, InMemory, Grown, Ready,
        Tied, LayoutOk,
        ScannedOn, NoSlots, FromOk, FwdOk, CopiesOk,
        RunsOk, PagesOk, FrontierOk, Words, Cell, ValueIn, ValueNoSlots, ValueSlot, Body;
      ValueNext(w, m0, m, k, b, lo, VALUE_WORDS);
      Skip(k, b + VALUE_WORDS);
      ScannedOnThen(m0, old(m), m, k, b + lo, b + VALUE_WORDS);
    }

    /** Words without pointers are passed over, up to word n. */
    ghost method Pass(k: nat, lo: nat, n: nat, m0: Made)
      requires Ready() && ScannedOn(m0, m, k, lo) && lo <= n && k < |m.copies| && Gap(w, m.copies[k].src, lo, n)
      modifies this`m
      ensures Ready() && ScannedOn(m0, m, k, n) && k < |m.copies| && m.copies[k] == old(m).copies[k] &&
        NoSlots(w, m, k, n) && Quiet(old(m), m)
    {
      hide TypesKept, Traced, Pages.Valid, Inv, PageOrder, OnlyReachable, OldOk, IsSlot, InMemory, Grown, Ready,
        Tied, LayoutOk,
        ScannedOn, NoSlots, FromOk, FwdOk, CopiesOk,
        RunsOk, PagesOk, FrontierOk, Words, Cell, ValueIn, ValueNoSlots, ValueSlot, Body, Gap, Type, ObjectAt;
      GapNext(w, m0, m, k, lo, n);
      Skip(k, n);
      ScannedOnThen(m0, old(m), m, k, lo, n);
      GapEnd(w, m0, m, k, lo, n);
    }

    /** gc_scan_value, gc_evacuate: as parts of the scan of a longer object. */
    method ScanPart(a: nat, value: bool, ghost k: nat, ghost lo: nat, ghost i: nat, ghost m0: Made) returns (ok: bool)
      requires Ready() && ScannedOn(m0, m, k, lo) && lo <= i && k < |m.copies| && Gap(w, m.copies[k].src, lo, i) &&
        a == m.copies[k].dst + 1 + i
      requires
        if value then ValueIn(w, m.copies[k].src, i)
        else InMemory(w, m.copies[k].src) && i < Words(w, m.copies[k].src) - 1 && IsSlot(w, m.copies[k].src, i)
      modifies this`freep, this`freewords, this`m, mem, pages`last, pages`freepage, pages`space, pages`typePage,
        pages`allocatedPages, pages`queued,
        pages`link, pages`head, pages`tail, pages`order
      ensures Fits(w, f0) ==> ok
      ensures ok ==>
        Ready() && ScannedOn(m0, m, k, i + if value then VALUE_WORDS else 1) && k < |m.copies| &&
        m.copies[k] == old(m).copies[k]
    {
      hide TypesKept, Traced, Pages.Valid, Inv, PageOrder, OnlyReachable, OldOk, IsSlot, InMemory, Grown, Ready,
        Tied, LayoutOk,
        ScannedOn, NoSlots, FromOk, FwdOk, CopiesOk,
        RunsOk, PagesOk, FrontierOk, Words, Cell, ValueIn, ValueNoSlots, ValueSlot, Body, Gap, Type, ObjectAt;
      Pass(k, lo, i, m0);
      ghost var m1 := m;
      if value { ok := ScanValue(a, k, i); } else { ok := Evacuate(a, k, i); }
      if ok {
        SameCopy(m1, m, k, i + if value then VALUE_WORDS else 1);
        ScannedOnThen(m0, m1, m, k, i, i + if value then VALUE_WORDS else 1);
      }
    }

    /** The scan of an array of values. */
    method ScanValues(a: nat, n: nat, ghost k: nat) returns (ok: bool)
      requires Ready() && ObjectAt(w, m, k, VALUE_ARRAY, n) && a == m.copies[k].dst + 1
      modifies this`freep, this`freewords, this`m, mem, pages`last, pages`freepage, pages`space, pages`typePage,
        pages`allocatedPages, pages`queued,
        pages`link, pages`head, pages`tail, pages`order
      ensures Fits(w, f0) ==> ok
      ensures ok ==> Ready() && ScannedOn(old(m), m, k, n)
    {
      hide TypesKept, Traced, Pages.Valid, Inv, PageOrder, OnlyReachable, OldOk, IsSlot, InMemory, Grown, Ready,
        Tied, LayoutOk,
        ScannedOn, NoSlots, FromOk, FwdOk, CopiesOk,
        RunsOk, PagesOk, FrontierOk, Words, Cell, ValueIn, ValueNoSlots, ValueSlot, Body, Gap, Type, ObjectAt;
      Parts();
      ObjectParts(w, m, k, VALUE_ARRAY, n);
      ghost var m0, h := m, m.copies[k].src;
      ValuesOf(w, h, n);
      var count, j := n / VALUE_WORDS, 0;
      while j < count
        invariant j <= count && Ready() && ScannedOn(m0, m, k, VALUE_WORDS * j) && k < |m.copies| &&
          m.copies[k] == m0.copies[k]
      {
        ok := ScanPart(a + VALUE_WORDS * j, true, k, VALUE_WORDS * j, VALUE_WORDS * j, m0);
        if !ok { return; }
        j := j + 1;
      }
      Pass(k, VALUE_WORDS * count, n, m0);
      ok := true;
    }

    /** The scan of an array of instructions. */
    method ScanInstrs(a: nat, n: nat, ghost k: nat) returns (ok: bool)
      requires Ready() && ObjectAt(w, m, k, INSTR_ARRAY, n) && a == m.copies[k].dst + 1
      modifies this`freep, this`freewords, this`m, mem, pages`last, pages`freepage, pages`space, pages`typePage,
        pages`allocatedPages, pages`queued,
        pages`link, pages`head, pages`tail, pages`order
      ensures Fits(w, f0) ==> ok
      ensures ok ==> Ready() && ScannedOn(old(m), m, k, n)
    {
      hide TypesKept, Traced, Pages.Valid, Inv, PageOrder, OnlyReachable, OldOk, IsSlot, InMemory, Grown, Ready,
        Tied, LayoutOk,
        ScannedOn, NoSlots, FromOk, FwdOk, CopiesOk,
        RunsOk, PagesOk, FrontierOk, Words, Cell, ValueIn, ValueNoSlots, ValueSlot, Body, Gap, Type, ObjectAt;
      Parts();
      ObjectParts(w, m, k, INSTR_ARRAY, n);
      ghost var m0, h := m, m.copies[k].src;
      ArrayTail(w, h, n, INSTR_WORDS);
      var count, j := n / INSTR_WORDS, 0;
      while j < count
        invariant j <= count && Ready() && ScannedOn(m0, m, k, INSTR_WORDS * j) && k < |m.copies| &&
          m.copies[k] == m0.copies[k]
      {
        ghost var b := INSTR_WORDS * j;
        InstrOf(w, h, n, j);
        ok := ScanPart(a + INSTR_WORDS * j + 1, true, k, b, b + 1, m0);
        if !ok { return; }
        ok := ScanPart(a + INSTR_WORDS * j + 6, false, k, b + 6, b + 6, m0);
        if !ok { return; }
        Pass(k, b + 7, b + 8, m0);
        j := j + 1;
      }
      Pass(k, INSTR_WORDS * count, n, m0);
      ok := true;
    }

    /** The scan of an array of call frames: code, environment and stack. */
    method ScanFrames(a: nat, n: nat, ghost k: nat) returns (ok: bool)
      requires Ready() && ObjectAt(w, m, k, CALLFRAME_ARRAY, n) && a == m.copies[k].dst + 1
      modifies this`freep, this`freewords, this`m, mem, pages`last, pages`freepage, pages`space, pages`typePage,
        pages`allocatedPages, pages`queued,
        pages`link, pages`head, pages`tail, pages`order
      ensures Fits(w, f0) ==> ok
      ensures ok ==> Ready() && ScannedOn(old(m), m, k, n)
    {
      hide TypesKept, Traced, Pages.Valid, Inv, PageOrder, OnlyReachable, OldOk, IsSlot, InMemory, Grown, Ready,
        Tied, LayoutOk,
        ScannedOn, NoSlots, FromOk, FwdOk, CopiesOk,
        RunsOk, PagesOk, FrontierOk, Words, Cell, ValueIn, ValueNoSlots, ValueSlot, Body, Gap, Type, ObjectAt;
      Parts();
      ObjectParts(w, m, k, CALLFRAME_ARRAY, n);
      ghost var m0, h := m, m.copies[k].src;
      ArrayTail(w, h, n, FRAME_WORDS);
      var count, j := n / FRAME_WORDS, 0;
      while j < count
        invariant j <= count && Ready() && ScannedOn(m0, m, k, FRAME_WORDS * j) && k < |m.copies| &&
          m.copies[k] == m0.copies[k]
      {
        ghost var b := FRAME_WORDS * j;
        FrameOf(w, h, n, j);
        ok := ScanPart(a + FRAME_WORDS * j, false, k, b, b, m0);
        if !ok { return; }
        ok := ScanPart(a + FRAME_WORDS * j + 2, false, k, b + 1, b + 2, m0);
        if !ok { return; }
        ok := ScanPart(a + FRAME_WORDS * j + 4, false, k, b + 3, b + 4, m0);
        if !ok { return; }
        Pass(k, b + 5, b + 6, m0);
        j := j + 1;
      }
      Pass(k, FRAME_WORDS * count, n, m0);
      ok := true;
    }

    lemma SourceNow(k: nat)
      requires Ready() && k < |m.copies|
      ensures OldOk(w) && m.copies[k].src in w.objects
    {
      hide TypesKept, Traced, Pages.Valid, Inv, OldOk, FromOk, FwdOk, CopiesOk, RunsOk, PagesOk, FrontierOk;
      InvParts(w, mem[..], pages.space, pages.last, freep, freewords, m);
      CopyIs(w, mem[..], m, k);
    }

    /** drain_scan_object, of a copy or of a filler. */
    method ScanObject(a: nat, ty: nat, words: nat, ghost copied: bool, ghost k: nat) returns (ok: bool)
      requires Ready() && words >= 1 && (if copied then ObjectAt(w, m, k, ty, words - 1) && a == m.copies[k].dst + 1
        else ty == RAW)
      modifies this`freep, this`freewords, this`m, mem, pages`last, pages`freepage, pages`space, pages`typePage,
        pages`allocatedPages, pages`queued,
        pages`link, pages`head, pages`tail, pages`order
      ensures Fits(w, f0) ==> ok
      ensures ok ==> Ready() && Grown(old(m), m)
      ensures ok && copied ==>
        k < |m.scanned| && k < |old(m).copies| && m.scanned[k] >= words - 1 && Untouched(old(m), m, k, k + 1)
      ensures ok && !copied ==> m == old(m)
    {
      hide TypesKept, Traced, Pages.Valid, Inv, PageOrder, OnlyReachable, OldOk, IsSlot, InMemory, Grown, Ready,
        Tied, LayoutOk,
        ScannedOn, NoSlots, FromOk, FwdOk, CopiesOk,
        RunsOk, PagesOk, FrontierOk, Words, Cell, ValueIn, ValueNoSlots, ValueSlot, Body, Gap, Type, ObjectAt;
      Parts();
      GrownSelf(m);
      ghost var m0 := m;
      if copied {
        ObjectParts(w, m, k, ty, words - 1);
        SourceNow(k);
      }
      ok := true;
      if ty == RAW {
        if copied {
          RawOf(w, m.copies[k].src, words - 1);
          Pass(k, 0, words - 1, m0);
        }
      } else if ty == VALUE {
        ValueOf(w, m.copies[k].src, words - 1);
        ok := ScanPart(a, true, k, 0, 0, m0);
        if ok { Pass(k, VALUE_WORDS, words - 1, m0); }
      } else if ty == VALUE_ARRAY {
        ok := ScanValues(a, words - 1, k);
      } else if ty == INSTR_ARRAY {
        ok := ScanInstrs(a, words - 1, k);
      } else if ty == CALLFRAME_ARRAY {
        ok := ScanFrames(a, words - 1, k);
      } else if copied {
        OtherOf(w, m.copies[k].src, words - 1);
        Pass(k, 0, words - 1, m0);
      }
      if ok && copied { ScannedIs(m0, m, k, words - 1); }
    }

    lemma WalkNow(r: nat, j: nat, cp: nat)
      requires Ready() && At(m, r, j, cp) && cp / PAGE_WORDS == m.runs[r].page && cp != freep
      ensures cp < mem.Length && 1 <= HeaderWords(mem[cp]) && HeaderType(mem[cp]) <= CALLFRAME_ARRAY
      ensures j < m.runs[r].end ==>
        ObjectAt(w, m, j, HeaderType(mem[cp]), HeaderWords(mem[cp]) - 1) && m.copies[j].dst == cp &&
        HeaderWords(mem[cp]) == m.copies[j].words
      ensures j >= m.runs[r].end ==>
        r + 1 < |m.runs| && j == m.runs[r].end && HeaderType(mem[cp]) == RAW &&
        cp + HeaderWords(mem[cp]) == PAGE_WORDS * (m.runs[r].page + 1)
    {
      hide TypesKept, Traced, Pages.Valid, Inv, OldOk, FromOk, FwdOk, CopiesOk, RunsOk, PagesOk, FrontierOk,
        HeaderWords, HeaderType,
        MakeHeader, Words, Type;
      InvParts(w, mem[..], pages.space, pages.last, freep, freewords, m);
      WalkHere(w, mem[..], pages.space, pages.last, freep, freewords, m, r, j, cp);
      if j < m.runs[r].end {
        CopyIs(w, mem[..], m, j);
        ObjectSize(w, m.copies[j].src);
      } else {
        HeaderRead(PAGE_WORDS * (m.runs[r].page + 1) - cp, RAW);
      }
    }

    lemma RunsNow()
      requires Ready()
      ensures RunsOk(m.copies, m.runs) && Bounded(m)
    {
      hide TypesKept, Traced, Pages.Valid, Inv, OldOk, FromOk, FwdOk, RunsOk, PagesOk, FrontierOk, CopiesOk;
      InvParts(w, mem[..], pages.space, pages.last, freep, freewords, m);
      CopiesBounded(w, mem[..], m);
    }

    /** drain_walk_page: the copies of run r are scanned from copy j0 on, those included that are
        made meanwhile, up to the end of the page or the frontier. */
    method Walk(qpg: nat, cp0: nat, ghost r: nat, ghost j0: nat) returns (ok: bool, cp: nat, ghost j: nat)
      requires Ready() && At(m, r, j0, cp0) && m.runs[r].page == qpg
      modifies this`freep, this`freewords, this`m, mem, pages`last, pages`freepage, pages`space, pages`typePage,
        pages`allocatedPages, pages`queued,
        pages`link, pages`head, pages`tail, pages`order
      ensures Fits(w, f0) ==> ok
      ensures ok ==>
        Ready() && Grown(old(m), m) && At(m, r, j, cp) && m.runs[r].page == qpg && j0 <= j && Passed(m, j0, j)
      ensures ok ==> (cp / PAGE_WORDS != qpg || cp == freep) && Untouched(old(m), m, j0, j)
      ensures ok && cp0 / PAGE_WORDS == qpg && cp0 != old(freep) ==> cp > cp0
      ensures cp0 == old(freep) ==> ok && cp == cp0 && j == j0 && m == old(m) && freep == old(freep)
    {
      hide TypesKept, Traced, Pages.Valid, Inv, PageOrder, OnlyReachable, OldOk, Grown, Ready, Tied, LayoutOk,
        FromOk, FwdOk, CopiesOk,
        RunsOk, PagesOk, FrontierOk, Words, Gap, Type,
        ObjectAt, At, RunOk, HeaderType, HeaderWords, MakeHeader, Passed, Bounded, Untouched;
      Parts();
      GrownSelf(m);
      ghost var m0 := m;
      cp, j := cp0, j0;
      ok := true;
      PassedNone(m, j0);
      UntouchedSelf(m, j0);
      RunsNow();
      AtRange(m, r, j, cp);
      while cp / PAGE_WORDS == qpg && cp != freep
        invariant Ready() && Grown(m0, m) && At(m, r, j, cp) && r < |m.runs| && m.runs[r].page == qpg &&
          Passed(m, j0, j) && cp0 <= cp && j0 <= j
        invariant Untouched(m0, m, j0, j)
        invariant (cp0 == old(freep) ==> cp == cp0) && (cp == cp0 ==> freep == old(freep) && m == m0 && j == j0)
        decreases PAGE_WORDS * (qpg + 1) - cp
      {
        WalkNow(r, j, cp);
        RunsNow();
        AtRange(m, r, j, cp);
        var hw, ty := HeaderWords(mem[cp]), HeaderType(mem[cp]);
        ghost var m1, copied := m, j < m.runs[r].end;
        if hw == 0 { break; }
        if ty > CALLFRAME_ARRAY { break; }
        ok := ScanObject(cp + 1, ty, hw, copied, j);
        if !ok { return; }
        RunsNow();
        GrownThen(m0, m1, m);
        if copied {
          StepCopied(m1, m, r, j, cp, hw);
          PassedPlus(m1, m, j0, j);
          UntouchedThen(m0, m1, m, j0, j, j + 1);
          j := j + 1;
        } else {
          StepFiller(m1, m, r, j, cp);
          PassedKept(m1, m, j0, j);
        }
        cp := cp + hw;
      }
    }

    /** How a walk has ended. */
    lemma WalkEnd(r: nat, j: nat, cp: nat)
      requires Ready() && At(m, r, j, cp) && (cp / PAGE_WORDS != m.runs[r].page || cp == freep)
      ensures r < |m.runs| && RunsOk(m.copies, m.runs)
      ensures cp / PAGE_WORDS != m.runs[r].page || r + 1 == |m.runs| ==> j == m.runs[r].end
      ensures cp / PAGE_WORDS == m.runs[r].page && r + 1 < |m.runs| ==>
        cp == PAGE_WORDS * m.runs[r].page && j < m.runs[r].end && !NoAbut(m.runs)
    {
      hide TypesKept, Traced, Pages.Valid, Inv, OldOk, FromOk, FwdOk, RunsOk, PagesOk, FrontierOk, CopiesOk, LayoutOk;
      InvParts(w, mem[..], pages.space, pages.last, freep, freewords, m);
      if cp / PAGE_WORDS != m.runs[r].page {
        WalkLeft(m, r, j, cp);
      } else {
        WalkCaught(w, mem[..], pages.space, pages.last, freep, freewords, m, r, j, cp);
        if r + 1 < |m.runs| { FirstWord(m, r, j); }
      }
    }

    /** Bounds for termination, and the page at the head of the queue. */
    lemma QueueNow()
      requires Ready()
      ensures |m.copies| <= |w.objects| && pages.q <= |m.runs| && (pages.head != 0 <==> pages.q < |m.runs|)
      ensures pages.head != 0 ==> pages.head == m.runs[pages.q].page
    {
      hide TypesKept, Traced, Pages.Valid, Inv, OldOk, FromOk, FwdOk, RunsOk, PagesOk, FrontierOk, CopiesOk, LayoutOk;
      InvParts(w, mem[..], pages.space, pages.last, freep, freewords, m);
      FewCopies(w, mem[..], m);
      pages.HeadIs();
    }

    /** The page at the head leaves the queue. */
    method Dequeue()
      requires Ready() && pages.head != 0
      modifies pages`head, pages`q
      ensures Ready() && pages.q == old(pages.q) + 1
    {
      hide TypesKept, Traced, Pages.Valid, Inv, PageOrder, OnlyReachable;
      pages.Dequeue();
    }

    /** A walk that started off the frontier, or on another word than the first of its page, and not
        on the last run, has passed every copy. */
    lemma WalkThrough(r: nat, j: nat, cp: nat, cp0: nat)
      requires Ready() && At(m, r, j, cp) && (cp / PAGE_WORDS != m.runs[r].page || cp == freep) && r + 1 < |m.runs|
      requires cp0 / PAGE_WORDS == m.runs[r].page && cp > cp0
      ensures j == m.runs[r].end && cp / PAGE_WORDS != m.runs[r].page
    {
      hide TypesKept, Traced, Pages.Valid, Inv, OldOk, FromOk, FwdOk, RunsOk, PagesOk, FrontierOk, CopiesOk,
        LayoutOk, NoAbut, At;
      WalkEnd(r, j, cp);
    }

    /** A run that is not the last is not where the frontier is, but for its first word. */
    lemma FrontierPage(r: nat, j: nat)
      requires Ready() && At(m, r, j, freep) && r + 1 < |m.runs| && freep / PAGE_WORDS == m.runs[r].page
      ensures freep == PAGE_WORDS * m.runs[r].page
    {
      hide TypesKept, Traced, Pages.Valid, Inv, OldOk, FromOk, FwdOk, RunsOk, PagesOk, FrontierOk, CopiesOk,
        LayoutOk, NoAbut, At;
      WalkEnd(r, j, freep);
    }

    lemma PagesDiffer(r: nat, q: nat)
      requires Ready() && r < q < |m.runs|
      ensures m.runs[r].page != m.runs[q].page
    {
      hide TypesKept, Traced, Pages.Valid, Inv, OldOk, FromOk, FwdOk, RunsOk, PagesOk, FrontierOk, CopiesOk,
        LayoutOk, NoAbut;
      InvParts(w, mem[..], pages.space, pages.last, freep, freewords, m);
      DifferentPages(w, pages.space, pages.last, m.copies, m.runs, r, q);
    }

    /** The page at the head of the queue is walked and leaves the queue. */
    method WalkHead(ghost p0: Progress, ghost open: set<nat>) returns (ok: bool, end: nat, ghost j: nat)
      requires Ready() && pages.head != 0 && pages.q == |p0.stop| && Account(m, p0.stop, open, p0.behind)
      modifies this`freep, this`freewords, this`m, mem, pages`last, pages`freepage, pages`space, pages`typePage,
        pages`allocatedPages, pages`queued,
        pages`link, pages`head, pages`tail, pages`order, pages`q
      ensures Fits(w, f0) ==> ok
      ensures ok ==> Ready() && Grown(old(m), m) && pages.q == |p0.stop| + 1
      ensures ok ==> HeadWalked(old(m), m, old(freep), freep, p0.stop, open, p0.behind, j, end)
      ensures ok ==> (pages.head != 0 <==> |p0.stop| + 1 < |m.runs|)
    {
      hide TypesKept, Traced, Pages.Valid, Inv, PageOrder, OnlyReachable, OldOk, Grown, Ready, Tied, LayoutOk, FromOk,
        FwdOk, CopiesOk, RunsOk, PagesOk, FrontierOk, Words, Gap, Type, ObjectAt, At, RunOk, HeaderType, HeaderWords,
        MakeHeader, Passed, Bounded, NoAbut, BackAt, AllDone, Untouched, WalkedOn, Account, Exact, RunAt, LateCopies;
      QueueNow();
      RunsNow();
      ghost var m0, r := m, pages.q;
      AtStart(m, r);
      var qpg := pages.head;
      ok, end, j := Walk(qpg, PAGE_WORDS * qpg, r, m.runs[r].start);
      if !ok { return; }
      RunsNow();
      PageWalked(m0, p0, open, r, j, end);
      QueueNow();
      NewRunsNewCopies(m0, m);
      MoreRuns(m0, m);
      if end > PAGE_WORDS * qpg && r + 1 < |m.runs| { WalkThrough(r, j, end, PAGE_WORDS * qpg); }
      Dequeue();
      QueueNow();
    }

    /** One page of the queue is walked and, when the walk stops at the frontier with pages waiting, is put
        off, after the page put off before. */
    method DrainPage(pg0: nat, cp0: nat, ghost p0: Progress) returns (ok: bool, pg: nat, cp: nat, ghost p: Progress)
      requires Ready() && pages.head != 0 && pages.q == |p0.stop| && Going(m, pg0, cp0, p0)
      modifies this`freep, this`freewords, this`m, mem, pages`last, pages`freepage, pages`space, pages`typePage,
        pages`allocatedPages, pages`queued,
        pages`link, pages`head, pages`tail, pages`order, pages`q
      ensures Fits(w, f0) ==> ok
      ensures ok ==> Ready() && Grown(old(m), m) && Going(m, pg, cp, p) && pages.q == |p.stop| == |p0.stop| + 1
      ensures ok ==> PageStep(State(old(m), old(freep), pg0, cp0, p0), State(m, freep, pg, cp, p))
    {
      hide TypesKept, Traced, Pages.Valid, Inv, PageOrder, OnlyReachable, OldOk, Grown, Ready, Tied, LayoutOk, FromOk,
        FwdOk, CopiesOk, RunsOk, PagesOk, FrontierOk, Words, Gap, Type, ObjectAt, At, RunOk, HeaderType, HeaderWords,
        MakeHeader, Passed, Bounded, NoAbut, BackAt, AllDone, Untouched, WalkedOn, Account, Exact, RunAt, LateCopies,
        Going, HeadWalked;
      QueueNow();
      RunsNow();
      GoingParts(m, pg0, cp0, p0);
      ghost var m0, r, open := m, pages.q, Open(pg0, p0);
      ghost var freep0 := freep;
      var qpg := pages.head;
      pg, cp, p := pg0, cp0, p0;
      var end;
      ghost var j;
      ok, end, j := WalkHead(p0, open);
      if !ok { return; }
      HeadParts(m0, m, freep0, freep, p0.stop, open, p0.behind, j, end);
      RunsNow();
      p := p0.(stop := p0.stop + [j]);
      if pg0 != 0 {
        BackGrown(m0, m, p0.run, p0.at, pg0, cp0);
        BackParts(m, p0.run, p0.at, pg0, cp0);
        PagesDiffer(p0.run, r);
      }
      if pages.head != 0 && end == freep && freep / PAGE_WORDS == qpg {
        BackIs(m, r, j, qpg, end);
        ghost var m1 := m;
        if pg0 != 0 && pg0 != qpg {
          ghost var k;
          var cp1;
          RunsNow();
          ok, cp1, k := Walk(pg0, cp0, p0.run, p0.at);
          if !ok { return; }
          RunsNow();
          BackGrown(m1, m, r, j, qpg, end);
          TailDone(m1, p.stop, open + {r}, p.behind, p0.run, k, cp1, cp0);
          NotLate(m1, m, p.stop);
          GrownThen(m0, m1, m);
          p := p.(stop := p.stop[p0.run := k]);
        }
        OneOpen(pg0, p0, r, open);
        pg, cp, p := qpg, end, p.(run := r, at := j);
      }
      GoingIs(m, pg, cp, p, Open(pg, p));
    }

    /** The page put off is walked on. */
    method DrainTail(pg0: nat, cp0: nat, ghost p0: Progress) returns (ok: bool, pg: nat, cp: nat, ghost p: Progress)
      requires Ready() && pg0 != 0 && Going(m, pg0, cp0, p0) && !(freep / PAGE_WORDS == pg0 && freep == cp0)
      modifies this`freep, this`freewords, this`m, mem, pages`last, pages`freepage, pages`space, pages`typePage,
        pages`allocatedPages, pages`queued,
        pages`link, pages`head, pages`tail, pages`order
      ensures Fits(w, f0) ==> ok
      requires |p0.stop| == |m.runs|
      ensures ok ==> Ready() && Grown(old(m), m) && Going(m, pg, cp, p) && |p.stop| == |p0.stop| && pg == 0
      ensures ok ==> TailStep(State(old(m), old(freep), pg0, cp0, p0), State(m, freep, pg, cp, p))
    {
      hide TypesKept, Traced, Pages.Valid, Inv, PageOrder, OnlyReachable, OldOk, Grown, Ready, Tied, LayoutOk,
        FromOk, FwdOk, CopiesOk,
        RunsOk, PagesOk, FrontierOk, Words, Gap, Type,
        ObjectAt, At, RunOk, HeaderType, HeaderWords, MakeHeader, Passed, Bounded, NoAbut, BackAt, AllDone,
          Untouched, WalkedOn, Account, Exact, RunAt, LateCopies,
        Going;
      ghost var m0, r, open, j := m, p0.run, Open(pg0, p0), p0.at;
      GoingParts(m, pg0, cp0, p0);
      BackParts(m, r, p0.at, pg0, cp0);
      RunsNow();
      OpenRun(m, p0.stop, open, p0.behind, r);
      pg, cp, p := pg0, cp0, p0;
      if freep / PAGE_WORDS != pg0 {
        ok, cp, j := Walk(pg0, cp0, r, p0.at);
        if !ok { return; }
        TailDone(m0, p0.stop, open, p0.behind, r, j, cp, cp0);
        pg := 0;
      } else {
        ok, cp, j := Walk(pg0, cp0, r, p0.at);
        if !ok { return; }
        TailDone(m0, p0.stop, open, p0.behind, r, j, cp, cp0);
        if cp / PAGE_WORDS != pg0 { pg := 0; }
      }
      p := Progress(p0.stop[r := j], r, j, p0.behind || LateCopies(m0, m, p0.stop));
      NoneOpen(open, r);
      GoingIs(m, pg, cp, p, {});
    }

    /** cheney_drain: pages are walked in the order of the queue.  A walk that stops at the frontier
        with pages still waiting has its page put off.  In the end every copy has been scanned exactly
        when neither of two things has happened: the drain stops with a page put off whose first word
        is the frontier (`stuck`), or the walk of a page put off has made copies on a page whose own
        walk had ended (`behind`).  Neither can happen when pages are taken upwards. */
    method Drain() returns (ok: bool, ghost stuck: bool, ghost behind: bool, ghost trace: seq<State>)
      requires Ready() && pages.q == 0 && forall k :: 0 <= k < |m.scanned| ==> m.scanned[k] == 0
      modifies this`freep, this`freewords, this`m, mem, pages`last, pages`freepage, pages`space, pages`typePage,
        pages`allocatedPages, pages`queued,
        pages`link, pages`head, pages`tail, pages`order, pages`q
      ensures Fits(w, f0) ==> ok
      ensures ok ==>
        Ready() && Grown(old(m), m) && (AllDone(m) <==> !stuck && !behind) && (stuck || behind ==> !NoAbut(m.runs))
      ensures ok && stuck ==> exists r :: 0 <= r < |m.runs| - 1 && freep == PAGE_WORDS * m.runs[r].page
      ensures ok ==> Drained(w, f0, rootSet, old(m), old(freep), trace)
      ensures ok ==> trace != [] && Last(trace).m == m && stuck == (Last(trace).page != 0)
      ensures ok ==> behind == Last(trace).p.behind
    {
      hide TypesKept, Traced, Pages.Valid, Inv, PageOrder, OnlyReachable, OldOk, Grown, Ready, Tied, LayoutOk, FromOk,
        FwdOk, CopiesOk, RunsOk, PagesOk, FrontierOk, Words, Gap, Type, ObjectAt, At, RunOk, HeaderType, HeaderWords,
        MakeHeader, Passed, Bounded, NoAbut, BackAt, AllDone, Untouched, WalkedOn, Account, Exact, RunAt, LateCopies,
        Going, Following, Drained, Sound, PageStep, TailStep;
      var deferPg: nat, deferCp: nat := 0, 0;
      ghost var m0, p := m, Progress([], 0, 0, false);
      stuck, behind, ok := false, false, true;
      Parts();
      GrownSelf(m);
      AccountStart(m);
      GoingIs(m, 0, 0, p, {});
      QueueNow();
      SoundNow(0, 0, p);
      trace := [Start(m, freep)];
      FollowStart(w, f0, rootSet, m, freep);
      while true
        invariant Ready() && Grown(m0, m) && pages.q == |p.stop| <= |m.runs| && |m.copies| <= |w.objects| &&
          Going(m, deferPg, deferCp, p)
        invariant Following(w, f0, rootSet, trace, State(m, freep, deferPg, deferCp, p), m0, old(freep))
        decreases |w.objects| - |m.copies|, |m.runs| - pages.q, deferPg != 0, PAGE_WORDS * (deferPg + 1) - deferCp
      {
        ghost var m1 := m;
        ok, deferPg, deferCp, p, trace := DrainQueue(deferPg, deferCp, p, trace, m0, old(freep));
        if !ok { return; }
        GrownThen(m0, m1, m);
        if deferPg == 0 { break; }
        ghost var m3, r, s := m, p.run, State(m, freep, deferPg, deferCp, p);
        GoingParts(m, deferPg, deferCp, p);
        BackParts(m, r, p.at, deferPg, deferCp);
        if freep / PAGE_WORDS == deferPg && freep == deferCp {
          OpenRun(m, p.stop, {r}, p.behind, r);
          FrontierPage(r, p.at);
          stuck := true;
          break;
        }
        RunsNow();
        ok, deferPg, deferCp, p := DrainTail(deferPg, deferCp, p);
        if !ok { return; }
        FollowNow(trace, s, deferPg, deferCp, p, m0, old(freep));
        trace := trace + [State(m, freep, deferPg, deferCp, p)];
        RunsNow();
        QueueNow();
        GrownOn(m0, m1, m3, m);
      }
      GoingParts(m, deferPg, deferCp, p);
      behind := p.behind;
      RunsNow();
      AccountEnd(m, p.stop, Open(deferPg, p), behind);
      AccountUp(m, p.stop, Open(deferPg, p), behind);
      FollowEnd(w, f0, rootSet, trace, State(m, freep, deferPg, deferCp, p), m0, old(freep));
    }

    /** The pages of the queue are walked, those included that are queued meanwhile. */
    method DrainQueue(pg0: nat, cp0: nat, ghost p0: Progress, ghost trace0: seq<State>, ghost m0: Made,
                      ghost freep0: nat)
      returns (ok: bool, deferPg: nat, deferCp: nat, ghost p: Progress, ghost trace: seq<State>)
      requires Ready() && pages.q == |p0.stop| && Going(m, pg0, cp0, p0) &&
        Following(w, f0, rootSet, trace0, State(m, freep, pg0, cp0, p0), m0, freep0)
      modifies this`freep, this`freewords, this`m, mem, pages`last, pages`freepage, pages`space, pages`typePage,
        pages`allocatedPages, pages`queued,
        pages`link, pages`head, pages`tail, pages`order, pages`q
      ensures Fits(w, f0) ==> ok
      ensures ok ==> Ready() && Grown(old(m), m) && Going(m, deferPg, deferCp, p) && |old(m).copies| <= |m.copies|
      ensures ok ==> pages.q == |p.stop| == |m.runs| && |m.copies| <= |w.objects|
      ensures ok && |m.copies| == |old(m).copies| ==> |m.runs| == |old(m).runs| && pages.q >= |p0.stop|
      ensures ok && |p.stop| == |p0.stop| ==> m == old(m) && deferPg == pg0 && deferCp == cp0
      ensures ok ==> Following(w, f0, rootSet, trace, State(m, freep, deferPg, deferCp, p), m0, freep0)
    {
      hide TypesKept, Traced, Pages.Valid, Inv, PageOrder, OnlyReachable, OldOk, Grown, Ready, Tied, LayoutOk, FromOk,
        FwdOk, CopiesOk, RunsOk, PagesOk, FrontierOk, Going, PageStep, TailStep, Following;
      deferPg, deferCp, p, trace, ok := pg0, cp0, p0, trace0, true;
      ghost var m1 := m;
      Parts();
      RunsNow();
      GrownSelf(m);
      QueueNow();
      while pages.head != 0
        invariant Ready() && Grown(m1, m) && |p0.stop| <= pages.q == |p.stop| <= |m.runs| && |m.copies| <= |w.objects|
        invariant Going(m, deferPg, deferCp, p)
        invariant |p.stop| == |p0.stop| ==> m == m1 && deferPg == pg0 && deferCp == cp0
        invariant Following(w, f0, rootSet, trace, State(m, freep, deferPg, deferCp, p), m0, freep0)
        decreases |w.objects| - |m.copies|, |m.runs| - pages.q
      {
        ghost var m2, s := m, State(m, freep, deferPg, deferCp, p);
        RunsNow();
        QueueNow();
        ok, deferPg, deferCp, p := DrainPage(deferPg, deferCp, p);
        if !ok { return; }
        FollowNow(trace, s, deferPg, deferCp, p, m0, freep0);
        trace := trace + [State(m, freep, deferPg, deferCp, p)];
        RunsNow();
        QueueNow();
        GrownOn(m1, m1, m2, m);
      }
      RunsNow();
      QueueNow();
      NewRunsNewCopies(m1, m);
    }

    /** The last step led to here. */
    lemma FollowNow(trace: seq<State>, s: State, page: nat, cp: nat, p: Progress, m0: Made, freep0: nat)
      requires Ready() && Going(m, page, cp, p) && Following(w, f0, rootSet, trace, s, m0, freep0)
      requires var s' := State(m, freep, page, cp, p); PageStep(s, s') || TailStep(s, s')
      ensures var s' := State(m, freep, page, cp, p); Following(w, f0, rootSet, trace + [s'], s', m0, freep0)
    {
      hide Ready, Going, Following, Sound, PageStep, TailStep;
      SoundNow(page, cp, p);
      Follow(w, f0, rootSet, trace, s, State(m, freep, page, cp, p), m0, freep0);
    }

    lemma SoundNow(page: nat, cp: nat, p: Progress)
      requires Ready() && Going(m, page, cp, p)
      ensures Sound(w, f0, rootSet, State(m, freep, page, cp, p))
    {
      hide TypesKept, Traced, Laid, LaySeq, Orders, Justified, Pages.Valid, Inv, OldOk, Ready, Tied, LayoutOk, FromOk,
        FwdOk, CopiesOk, RunsOk, PagesOk, FrontierOk, OnlyReachable, Going, AllSettled, RunOk;
      Parts();
      InvParts(w, mem[..], pages.space, pages.last, freep, freewords, m);
      TracedParts(w, f0, rootSet, pages.space, pages.last, pages.freepage, freewords, pages.allocatedPages, m);
      LaidParts(w, f0, pages.space, pages.last, pages.freepage, freewords, pages.allocatedPages, m);
      SettledNow(w, mem[..], m);
      if m.runs != [] { LastRun(mem[..], m.copies, m.runs, freep, freewords); }
    }

    /** The walk of a page of the queue. */
    lemma PageWalked(m0: Made, p: Progress, open: set<nat>, r: nat, j: nat, cp: nat)
      requires Ready() && Account(m0, p.stop, open, p.behind) && r == |p.stop| < |m0.runs| &&
        RunsOk(m0.copies, m0.runs) && Grown(m0, m)
      requires At(m, r, j, cp) && (cp / PAGE_WORDS != m.runs[r].page || cp == freep) && m0.runs[r].start <= j
      requires Passed(m, m0.runs[r].start, j) && Untouched(m0, m, m0.runs[r].start, j)
      ensures cp / PAGE_WORDS != m.runs[r].page || r + 1 == |m.runs| ==> Account(m, p.stop + [j], open, p.behind)
      ensures cp / PAGE_WORDS == m.runs[r].page && r + 1 < |m.runs| ==> Account(m, p.stop + [j], open + {r}, p.behind)
    {
      hide TypesKept, Traced, Pages.Valid, Inv, OldOk, FromOk, FwdOk, RunsOk, PagesOk, FrontierOk, CopiesOk,
        LayoutOk, NoAbut, At,
        Account, Ready, Passed, Untouched, Grown, WalkedOn;
      RunsNow();
      WalkEnd(r, j, cp);
      AtRange(m, r, j, cp);
      RunIs(m0.copies, m0.runs, r);
      RunStart(m0.copies, m0.runs[r]);
      WalkedIs(m0, m, r, m0.runs[r].start, j);
      AccountNext(m0, m, p.stop, open, p.behind, j);
    }

    /** The walk of a page put off. */
    lemma TailDone(m3: Made, stop: seq<nat>, open: set<nat>, behind: bool, r: nat, j: nat, cp: nat, cp0: nat)
      requires Ready() && Account(m3, stop, open, behind) && r in open && r < |stop| && r < |m3.runs| &&
        RunsOk(m3.copies, m3.runs) && Grown(m3, m)
      requires At(m, r, j, cp) && (cp / PAGE_WORDS != m.runs[r].page || cp == freep) && stop[r] <= j &&
        Passed(m, stop[r], j) && Untouched(m3, m, stop[r], j)
      requires cp0 / PAGE_WORDS == m.runs[r].page && cp > cp0
      ensures Account(m, stop[r := j], open - {r}, behind || LateCopies(m3, m, stop)) &&
        cp / PAGE_WORDS != m.runs[r].page
    {
      hide TypesKept, Traced, Pages.Valid, Inv, OldOk, FromOk, FwdOk, RunsOk, PagesOk, FrontierOk, CopiesOk,
        LayoutOk, NoAbut, At,
        Account, Ready, Passed, Untouched, LateCopies, Grown,
        WalkedOn;
      RunsNow();
      OpenRun(m3, stop, open, behind, r);
      MoreRuns(m3, m);
      WalkThrough(r, j, cp, cp0);
      WalkedIs(m3, m, r, stop[r], j);
      AccountBack(m3, m, stop, open, behind, r, j);
    }
  }
}
