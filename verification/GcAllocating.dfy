/** A new object between collections keeps the heap proper. */
module GcAllocating {
  import opened GcWords
  import opened GcSpec
  import opened GcPages
  import opened GcLayout
  import opened GcCopying
  import opened GcScanning
  import opened GcHeap
  import opened GcCollector

  ghost predicate ApartFromAll(w: Old, lo: nat, hi: nat) {
    forall h :: h in w.objects ==> h + Words(w, h) <= lo || hi <= h
  }

  /** Free pages are taken: objects are not on them. */
  lemma PagesTaken(w: Old, page: nat, pages: nat, last: nat)
    requires OldOk(w) && pages >= 1 && w.first <= page && page + pages <= last + 1 && w.last <= last < |w.space|
    requires forall p :: page <= p < page + pages ==> FreeTag(w.space[p], w.from, w.from)
    ensures OldOk(w.(space := Tagged(w.space, page, pages, w.from), last := last))
    ensures ApartFromAll(w, PAGE_WORDS * page, PAGE_WORDS * (page + pages))
  {
    hide Tagged, PointerOk, IsSlot, Cell, InMemory, OldOk, Words, Type, OnPages;
    var w' := w.(space := Tagged(w.space, page, pages, w.from), last := last);
    TagsTaken(w, page, pages, last);
    forall h | h in w.objects
      ensures PAGE_WORDS * w'.first <= h && InMemory(w', h) && h < |w'.mem| && !Forwarded(w'.mem[h]) &&
        Type(w', h) <= CALLFRAME_ARRAY && OnPages(w', h)
      ensures (Type(w', h) == VALUE ==> Words(w', h) > VALUE_WORDS) &&
        (h + Words(w, h) <= PAGE_WORDS * page || PAGE_WORDS * (page + pages) <= h)
    {
      ObjectTaken(w, page, pages, last, h);
    }
    forall h, k | h in w'.objects && k in w'.objects && h < k ensures h + Words(w', h) <= k {
      ObjectsApart(w, w', h, k);
    }
    forall h, i | h in w'.objects && InMemory(w', h) && 0 <= i < Words(w', h) - 1 && IsSlot(w', h, i)
      ensures PointerOk(w', Cell(w', h, i)) {
      PointerTaken(w, w', h, i);
    }
    ProperIs(w');
  }

  lemma TagsTaken(w: Old, page: nat, pages: nat, last: nat)
    requires OldOk(w) && pages >= 1 && w.first <= page && page + pages <= last + 1 && w.last <= last < |w.space|
    requires forall p :: page <= p < page + pages ==> FreeTag(w.space[p], w.from, w.from)
    ensures var w' := w.(space := Tagged(w.space, page, pages, w.from), last := last);
      && 1 <= w'.first <= w'.last < |w'.space| && |w'.mem| == PAGE_WORDS * |w'.space|
      && (forall p :: 0 <= p < |w'.space| && w'.space[p] != 0 ==> p <= w'.last)
      && w'.from != w'.into && w'.from != NURSERY && w'.into != NURSERY && w'.from != 0 && w'.into != 0
      && (forall p :: 0 <= p < |w'.space| ==> w'.space[p] != w'.into && (InNursery(w', p) ==> w'.space[p] == NURSERY))
  {
    var w' := w.(space := Tagged(w.space, page, pages, w.from), last := last);
    forall p | 0 <= p < |w'.space| ensures w'.space[p] != w'.into && (InNursery(w', p) ==> w'.space[p] == NURSERY) {
      assert InNursery(w, p) ==> w.space[p] == NURSERY;
    }
  }

  lemma ObjectTaken(w: Old, page: nat, pages: nat, last: nat, h: nat)
    requires OldOk(w) && h in w.objects && pages >= 1 && page + pages <= |w.space|
    requires forall p :: page <= p < page + pages ==> FreeTag(w.space[p], w.from, w.from)
    ensures var w' := w.(space := Tagged(w.space, page, pages, w.from), last := last);
      && PAGE_WORDS * w'.first <= h && InMemory(w', h) && h < |w'.mem| && !Forwarded(w'.mem[h]) &&
        Type(w', h) <= CALLFRAME_ARRAY && OnPages(w', h)
      && (Type(w', h) == VALUE ==> Words(w', h) > VALUE_WORDS) && Words(w', h) == Words(w, h)
    ensures h + Words(w, h) <= PAGE_WORDS * page || PAGE_WORDS * (page + pages) <= h
  {
    ObjectSize(w, h);
    if h <= PAGE_WORDS * page < h + Words(w, h) { TagOfOld(w, h, page); }
    if PAGE_WORDS * page <= h < PAGE_WORDS * (page + pages) { TagOfOld(w, h, h / PAGE_WORDS); }
  }

  lemma ObjectsApart(w: Old, w': Old, h: nat, k: nat)
    requires OldOk(w) && h in w.objects && k in w.objects && h < k && w'.mem == w.mem
    ensures h + Words(w', h) <= k
  {
  }

  lemma PointerTaken(w: Old, w': Old, h: nat, i: nat)
    requires OldOk(w) && h in w.objects && w' == w.(space := w'.space, last := w'.last) && |w'.space| == |w.space|
    requires InMemory(w', h) && i < Words(w', h) - 1 && IsSlot(w', h, i)
    ensures PointerOk(w', Cell(w', h, i))
  {
    assert InMemory(w, h) && IsSlot(w, h, i);
    SlotPointer(w, h, i);
  }

  /** A header and a cleared body at h, in words that were in no object, on pages in use. */
  lemma NewObject(w: Old, h: nat, n: nat, ty: nat, mem: seq<nat>)
    requires OldOk(w) && Agree(w.mem, mem, h, h + n) && 2 <= n <= MAX_WORDS && ty <= CALLFRAME_ARRAY &&
      (ty == VALUE ==> n > VALUE_WORDS)
    requires PAGE_WORDS * w.first <= h && h + n <= |w.mem| && |mem| == |w.mem| && ApartFromAll(w, h, h + n)
    requires mem[h] == MakeHeader(n, ty) && forall i :: h < i < h + n ==> mem[i] == 0
    requires forall p :: h / PAGE_WORDS <= p <= (h + n - 1) / PAGE_WORDS && p < |w.space| ==> w.space[p] == w.from
    ensures h !in w.objects && OldOk(w.(mem := mem, objects := w.objects + {h}))
    ensures SameObjects(w, w.(mem := mem)) && Words(w.(mem := mem), h) == n && Type(w.(mem := mem), h) == ty
  {
    var w' := w.(mem := mem, objects := w.objects + {h});
    HeaderRead(n, ty);
    assert InMemory(w', h);
    forall g | g in w.objects ensures g != h && KeptObject(w, w', g) { ObjectKept(w, h, n, mem, g); }
    SameMem(w, h, n, mem);
    hide MakeHeader, HeaderWords, HeaderType, Slot, PointerOk, OldOk, Agree, KeptObject;
    TagsSame(w, w');
    forall g | g in w'.objects
      ensures PAGE_WORDS * w'.first <= g && InMemory(w', g) && g < |w'.mem| && !Forwarded(w'.mem[g]) &&
        Type(w', g) <= CALLFRAME_ARRAY && OnPages(w', g)
      ensures Type(w', g) == VALUE ==> Words(w', g) > VALUE_WORDS
    {
      if g != h { KeptParts(w, w', g); }
    }
    forall g, k | g in w'.objects && k in w'.objects && g < k ensures g + Words(w', g) <= k {
      if g != h { KeptParts(w, w', g); }
      if g != h && k != h { ObjectsApart(w, w, g, k); }
    }
    forall g, i | g in w'.objects && InMemory(w', g) && 0 <= i < Words(w', g) - 1 && IsSlot(w', g, i)
      ensures PointerOk(w', Cell(w', g, i)) {
      if g == h { NullPointer(w'); } else { KeptPointer(w, w', g, i); }
    }
    ProperIs(w');
  }

  lemma TagsSame(w: Old, w': Old)
    requires OldOk(w) && w' == w.(mem := w'.mem, objects := w'.objects) && |w'.mem| == |w.mem|
    ensures 1 <= w'.first <= w'.last < |w'.space| && |w'.mem| == PAGE_WORDS * |w'.space|
    ensures (forall p :: 0 <= p < |w'.space| && w'.space[p] != 0 ==> p <= w'.last)
    ensures w'.from != w'.into && w'.from != NURSERY && w'.into != NURSERY && w'.from != 0 && w'.into != 0
    ensures forall p :: 0 <= p < |w'.space| ==> w'.space[p] != w'.into && (InNursery(w', p) ==> w'.space[p] == NURSERY)
  {
    forall p | 0 <= p < |w'.space| ensures w'.space[p] != w'.into && (InNursery(w', p) ==> w'.space[p] == NURSERY) {
      assert InNursery(w, p) ==> w.space[p] == NURSERY;
    }
  }

  ghost predicate KeptObject(w: Old, w': Old, g: nat) {
    InMemory(w, g) && InMemory(w', g) && Words(w', g) == Words(w, g) && Type(w', g) == Type(w, g) &&
      w'.mem[g] == w.mem[g] && Body(w', g) == Body(w, g)
  }

  lemma ObjectKept(w: Old, h: nat, n: nat, mem: seq<nat>, g: nat)
    requires OldOk(w) && g in w.objects && Agree(w.mem, mem, h, h + n) && ApartFromAll(w, h, h + n) && n >= 1
    ensures g != h && KeptObject(w, w.(mem := mem, objects := w.objects + {h}), g)
  {
    assert InMemory(w, g);
    assert mem[g + 1..g + Words(w, g)] == w.mem[g + 1..g + Words(w, g)];
  }

  lemma SameMem(w: Old, h: nat, n: nat, mem: seq<nat>)
    requires Agree(w.mem, mem, h, h + n) && ApartFromAll(w, h, h + n)
    ensures SameObjects(w, w.(mem := mem))
  {
  }

  lemma KeptParts(w: Old, w': Old, g: nat)
    requires OldOk(w) && g in w.objects && KeptObject(w, w', g) && w' == w.(mem := w'.mem, objects := w'.objects)
    ensures PAGE_WORDS * w'.first <= g && InMemory(w', g) && g < |w'.mem| && !Forwarded(w'.mem[g]) &&
      Type(w', g) <= CALLFRAME_ARRAY && OnPages(w', g)
    ensures (Type(w', g) == VALUE ==> Words(w', g) > VALUE_WORDS) && Words(w', g) == Words(w, g)
  {
    assert OnPages(w, g);
  }

  lemma KeptPointer(w: Old, w': Old, g: nat, i: nat)
    requires OldOk(w) && g in w.objects && KeptObject(w, w', g) && w' == w.(mem := w'.mem, objects := w'.objects) &&
      w.objects <= w'.objects
    requires i < Words(w', g) - 1 && IsSlot(w', g, i)
    ensures PointerOk(w', Cell(w', g, i))
  {
    assert Cell(w', g, i) == Body(w', g)[i] == Body(w, g)[i] == Cell(w, g, i);
    SlotPointer(w, g, i);
  }

  lemma NullPointer(w: Old)
    requires 1 <= w.first
    ensures PointerOk(w, 0)
  {
  }

  lemma RootsKept(w: Old, w': Old, roots: seq<Root>)
    requires w' == w.(mem := w'.mem, objects := w'.objects, space := w'.space, last := w'.last) &&
      |w'.space| == |w.space| && w.objects <= w'.objects
    requires forall i :: 0 <= i < |roots| ==> RootOk(w, roots[i])
    ensures forall i :: 0 <= i < |roots| ==> RootOk(w', roots[i])
  {
    forall i | 0 <= i < |roots| ensures RootOk(w', roots[i]) { assert RootOk(w, roots[i]); }
  }
  /** The room left behind the new object. */
  lemma RoomBehind(w: Old, w': Old, h: nat, n: nat, freewords: nat)
    requires w' == w.(mem := w'.mem, objects := w.objects + {h}) && |w'.mem| == |w.mem| &&
      Words(w', h) == n <= freewords
    requires forall g :: g in w.objects ==> Words(w', g) == Words(w, g)
    requires OpenPage(w, h, freewords) && h + freewords <= |w.mem| && n >= 1 && ApartFromAll(w, h, h + freewords)
    ensures FrontierFree(w', h + n, freewords - n)
  {
  }

  lemma SameWords(w: Old, w': Old)
    requires AllInMemory(w) && SameObjects(w, w')
    ensures forall h :: h in w.objects ==> Words(w', h) == Words(w, h)
  {
    forall h | h in w.objects ensures Words(w', h) == Words(w, h) {
      assert InMemory(w, h);
      assert w'.mem[h] == w.mem[h];
    }
  }

  lemma PartApart(w: Old, lo: nat, hi: nat, hi': nat)
    requires ApartFromAll(w, lo, hi) && hi' <= hi
    ensures ApartFromAll(w, lo, hi')
  {
  }

  /** There is free room for n words: on the open page, or on pages just taken. */
  ghost predicate RoomFor(w: Old, h: nat, n: nat, freewords: nat) {
    && n <= freewords && h + freewords <= |w.mem| && ApartFromAll(w, h, h + freewords) && PAGE_WORDS * w.first <= h
    && (forall p :: h / PAGE_WORDS <= p <= (h + freewords - 1) / PAGE_WORDS && p < |w.space| ==> w.space[p] == w.from)
    && (freewords <= PAGE_WORDS ==> OpenPage(w, h, freewords))
    && (freewords > PAGE_WORDS ==>
      h % PAGE_WORDS == 0 && freewords == PAGE_WORDS * PagesFor(n) && h / PAGE_WORDS < |w.space|)
  }

  lemma RoomLeft(w: Old, h: nat, n: nat, freewords: nat)
    requires FrontierFree(w, h, freewords) && 1 <= n <= freewords
    ensures RoomFor(w, h, n, freewords)
  {
  }

  lemma RoomTaken(w: Old, page: nat, n: nat, last: nat)
    requires OldOk(w) && n >= 1 && w.first <= page && page + PagesFor(n) <= last + 1 && w.last <= last < |w.space|
    requires forall p :: page <= p < page + PagesFor(n) ==> FreeTag(w.space[p], w.from, w.from)
    ensures var w' := w.(space := Tagged(w.space, page, PagesFor(n), w.from), last := last);
      OldOk(w') && RoomFor(w', PAGE_WORDS * page, n, PAGE_WORDS * PagesFor(n))
  {
    hide OldOk;
    PagesTaken(w, page, PagesFor(n), last);
    MemSize(w);
  }

  lemma MemSize(w: Old)
    requires OldOk(w)
    ensures |w.mem| == PAGE_WORDS * |w.space|
  {
  }

  lemma SameSelf(w: Old)
    ensures SameObjects(w, w) && w.(space := w.space, last := w.last) == w
  {
  }

  lemma SameTagged(w: Old, w': Old, space: seq<nat>, last: nat)
    requires SameObjects(w, w')
    ensures SameObjects(w.(space := space, last := last), w'.(space := space, last := last))
  {
    forall h, i | h in w.objects && h <= i < h + Words(w.(space := space, last := last), h) && i < |w.mem|
      ensures w'.mem[i] == w.mem[i] {
      assert Words(w.(space := space, last := last), h) == Words(w, h);
    }
  }

  ghost predicate AllInMemory(w: Old) {
    forall h :: h in w.objects ==> InMemory(w, h)
  }

  lemma ObjectsInMemory(w: Old, space: seq<nat>, last: nat)
    requires OldOk(w)
    ensures AllInMemory(w) && AllInMemory(w.(space := space, last := last))
  {
    forall h | h in w.objects ensures InMemory(w.(space := space, last := last), h) { assert InMemory(w, h); }
  }

  lemma SameThen(a: Old, b: Old, c: Old)
    requires AllInMemory(a) && SameObjects(a, b) && SameObjects(b, c)
    ensures SameObjects(a, c)
  {
    SameWords(a, b);
  }

  lemma NoRoom(w: Old, freep: nat)
    ensures FrontierFree(w, freep, 0)
  {
  }

  /** A new object in room that is free: on the open page, or on pages just taken. */
  lemma Bumped(w: Old, h: nat, n: nat, ty: nat, freewords: nat, mem: seq<nat>)
    requires OldOk(w) && RoomFor(w, h, n, freewords) && 2 <= n <= MAX_WORDS && ty <= CALLFRAME_ARRAY &&
      (ty == VALUE ==> n > VALUE_WORDS)
    requires h < |w.mem| && mem == Fresh(w.mem, h, n, ty)
    ensures var w' := w.(mem := mem, objects := w.objects + {h});
      h !in w.objects && OldOk(w') && FrontierFree(w', h + n, if n < PAGE_WORDS then freewords - n else 0) &&
        Words(w', h) == n && Type(w', h) == ty
    ensures SameObjects(w, w.(mem := mem)) && Words(w.(mem := mem), h) == n && Type(w.(mem := mem), h) == ty
  {
    hide OldOk, Words, Type, MakeHeader, SameObjects, AllInMemory;
    PartApart(w, h, h + freewords, h + n);
    FreshAgree(w.mem, h, n, ty);
    NewObject(w, h, n, ty, mem);
    ObjectsInMemory(w, w.space, w.last);
    SameWords(w, w.(mem := mem));
    WordsOnly(w.(mem := mem), w.objects + {h});
    if n < PAGE_WORDS {
      assert PagesFor(n) == 1;
      RoomBehind(w, w.(mem := mem, objects := w.objects + {h}), h, n, freewords);
    }
  }

  function Fresh(mem: seq<nat>, h: nat, n: nat, ty: nat): seq<nat>
    requires h < |mem| && 1 <= n <= MAX_WORDS
  {
    Cleared(mem[h := MakeHeader(n, ty)], h + 1, n - 1)
  }

  lemma FreshAgree(mem: seq<nat>, h: nat, n: nat, ty: nat)
    requires 1 <= n <= MAX_WORDS && h + n <= |mem|
    ensures Agree(mem, Fresh(mem, h, n, ty), h, h + n) && |Fresh(mem, h, n, ty)| == |mem|
    ensures Fresh(mem, h, n, ty)[h] == MakeHeader(n, ty) && forall i :: h < i < h + n ==> Fresh(mem, h, n, ty)[i] == 0
  {
  }

  lemma WordsOnly(w: Old, objects: set<nat>)
    ensures forall h :: Words(w.(objects := objects), h) == Words(w, h) && Type(w.(objects := objects), h) == Type(w, h)
  {
  }
}
