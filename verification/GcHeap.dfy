/** The heap between collections: roots, what a full collection promises, and that it leaves a
    proper heap again. */
module GcHeap {
  import opened GcWords
  import opened GcSpec
  import opened GcLayout
  import opened GcCopying
  import opened GcScanning

  // ----- roots -----

  /** A root slot out of the heap: a pointer to an object, or a value. */
  datatype Root = PtrRoot(pointer: nat) | ValueRoot(value: seq<nat>)

  predicate RootOk(w: Old, r: Root) {
    match r
    case PtrRoot(p) => PointerOk(w, p)
    case ValueRoot(v) => |v| == VALUE_WORDS && forall i :: 0 <= i < |v| && ValueSlot(v[0], i) ==> PointerOk(w, v[i])
  }

  /** The pointers of a root. */
  function RootWords(r: Root): set<nat> {
    match r
    case PtrRoot(p) => {p}
    case ValueRoot(v) => set i | 0 <= i < |v| && ValueSlot(v[0], i) :: v[i]
  }

  function RootSet(roots: seq<Root>): set<nat> {
    set i, v | 0 <= i < |roots| && v in RootWords(roots[i]) :: v
  }

  /** A root after its pointers have become their images. */
  predicate RootDone(w: Old, fwd: map<nat, nat>, r: Root, r': Root) {
    match r
    case PtrRoot(p) => r' == PtrRoot(Image(w, fwd, p)) && Settled(w, fwd, p)
    case ValueRoot(v) => r'.ValueRoot? && |r'.value| == |v| && forall i :: 0 <= i < |v| ==>
      if ValueSlot(v[0], i) then Settled(w, fwd, v[i]) && r'.value[i] == Image(w, fwd, v[i]) else r'.value[i] == v[i]
  }

  lemma RootKept(w: Old, m: Made, m': Made, r: Root, r': Root)
    requires Grown(m, m') && FwdOk(w, m.fwd, m.copies) && RootOk(w, r) && RootDone(w, m.fwd, r, r')
    ensures RootDone(w, m'.fwd, r, r')
  {
    match r
    case PtrRoot(p) => ImageKept(w, m, m', p);
    case ValueRoot(v) =>
      forall i | 0 <= i < |v|
        ensures if ValueSlot(v[0], i) then Settled(w, m'.fwd, v[i]) && r'.value[i] == Image(w, m'.fwd, v[i])
          else r'.value[i] == v[i]
      {
        if ValueSlot(v[0], i) { ImageKept(w, m, m', v[i]); }
      }
  }

  lemma RootReached(w: Old, roots: seq<Root>, i: nat, v: nat)
    requires i < |roots| && v in RootWords(roots[i])
    ensures v in RootSet(roots) && (IsObject(w, v) ==> Reachable(w, RootSet(roots), ObjectOf(v)))
  {
    if IsObject(w, v) { ReachableRoot(w, RootSet(roots), v); }
  }

  // ----- the promise -----

  /** Object h and its copy: the same size, type and contents, with each pointer replaced by the
      address of the copy of what it points to. */
  ghost predicate CopiedAs(w: Old, w': Old, fwd: map<nat, nat>, h: nat) {
    && h in fwd && InMemory(w, h) && InMemory(w', fwd[h]) && Words(w', fwd[h]) == Words(w, h) &&
      Type(w', fwd[h]) == Type(w, h)
    && forall i :: 0 <= i < Words(w, h) - 1 ==> CellAs(w, w', fwd, h, i)
  }

  predicate CellAs(w: Old, w': Old, fwd: map<nat, nat>, h: nat, i: nat)
    requires h in fwd && InMemory(w, h) && InMemory(w', fwd[h]) && Words(w', fwd[h]) == Words(w, h) &&
      i < Words(w, h) - 1
  {
    && IsSlot(w', fwd[h], i) == IsSlot(w, h, i)
    && Cell(w', fwd[h], i) == (if IsSlot(w, h, i) then Image(w, fwd, Cell(w, h, i)) else Cell(w, h, i))
    && (IsSlot(w, h, i) ==> Settled(w, fwd, Cell(w, h, i)))
  }

  /** The new heap is a copy of what the roots reached in the old one, and of nothing else. */
  ghost predicate Isomorphic(w: Old, w': Old, fwd: map<nat, nat>, roots: set<nat>) {
    && (forall h :: h in fwd <==> h in w.objects && Reachable(w, roots, h))
    && (forall h, g :: h in fwd && g in fwd && h != g ==> fwd[h] != fwd[g])
    && w'.objects == fwd.Values
    && forall h :: h in fwd ==> CopiedAs(w, w', fwd, h)
  }

  // ----- the start -----

  /** Nothing has been copied yet. */
  lemma InvStart(w: Old, freep: nat, roots: set<nat>)
    requires OldOk(w)
    ensures Inv(w, w.mem, w.space, w.last, freep, 0, Made([], [], map[], [])) && OnlyReachable(w, roots, map[])
  {
    forall h | h in w.objects && InMemory(w, h) ensures BodyKept(w, w.mem, h) {}
  }

  /** The page of the frontier is of the space in use, and ends with the room left. */
  predicate OpenPage(w: Old, freep: nat, freewords: nat) {
    freewords <= PAGE_WORDS && freep / PAGE_WORDS < |w.space| && w.space[freep / PAGE_WORDS] == w.from &&
      w.first <= freep / PAGE_WORDS &&
    freep + freewords == PAGE_WORDS * (freep / PAGE_WORDS + 1)
  }

  /** The words behind the frontier, up to the end of its page, are in no object. */
  ghost predicate FrontierFree(w: Old, freep: nat, freewords: nat) {
    && (freewords > 0 ==> freep + freewords <= |w.mem| && OpenPage(w, freep, freewords))
    && forall h :: h in w.objects && freewords > 0 ==> h + Words(w, h) <= freep || freep + freewords <= h
  }

  /** The same objects, with the same words. */
  ghost predicate SameObjects(w: Old, w': Old) {
    w' == w.(mem := w'.mem) && |w'.mem| == |w.mem| &&
    forall h, i :: h in w.objects && h <= i < h + Words(w, h) && i < |w.mem| ==> w'.mem[i] == w.mem[i]
  }

  /** The filler at the frontier changes no object. */
  lemma FilledHeap(w: Old, freep: nat, freewords: nat)
    requires OldOk(w) && FrontierFree(w, freep, freewords)
    ensures OldOk(w.(mem := Finalized(w.mem, freep, freewords))) &&
      SameObjects(w, w.(mem := Finalized(w.mem, freep, freewords)))
  {
    var w' := w.(mem := Finalized(w.mem, freep, freewords));
    forall h | h in w.objects ensures InMemory(w', h) && Words(w', h) == Words(w, h) && Type(w', h) == Type(w, h) &&
      Body(w', h) == Body(w, h) && OnPages(w', h) {
      assert InMemory(w, h) && OnPages(w, h);
      assert freewords > 0 ==> h + Words(w, h) <= freep || freep + freewords <= h;
    }
    forall h, i | h in w'.objects && InMemory(w', h) && 0 <= i < Words(w', h) - 1 && IsSlot(w', h, i)
      ensures PointerOk(w', Cell(w', h, i)) {
      assert Cell(w', h, i) == Body(w', h)[i] == Body(w, h)[i] == Cell(w, h, i);
      assert PointerOk(w, Cell(w, h, i));
    }
  }

  // ----- the end -----

  /** The copied objects are a closed set with what the roots point to: all that is reachable. */
  lemma AllReached(w: Old, mem: seq<nat>, m: Made, roots: set<nat>, h: nat)
    requires OldOk(w) && FwdOk(w, m.fwd, m.copies) && CopiesOk(w, mem, m) && AllDone(m) && h in w.objects &&
      Reachable(w, roots, h)
    requires forall v :: v in roots ==> Settled(w, m.fwd, v)
    ensures h in m.fwd
  {
    var s := m.fwd.Keys;
    assert ClosedSet(w, s) by {
      forall g, i | g in s && g in w.objects && InMemory(w, g) && 0 <= i < Words(w, g) - 1 && IsSlot(w, g, i) &&
        IsObject(w, Cell(w, g, i))
        ensures ObjectOf(Cell(w, g, i)) in s
      {
        var k :| 0 <= k < |m.copies| && m.copies[k].src == g;
        ScannedSlot(w, mem, m, k, i);
      }
    }
  }

  lemma ScannedSlot(w: Old, mem: seq<nat>, m: Made, k: nat, i: nat)
    requires CopiesOk(w, mem, m) && AllDone(m) && k < |m.copies| && InMemory(w, m.copies[k].src) &&
      i < Words(w, m.copies[k].src) - 1
    requires IsSlot(w, m.copies[k].src, i)
    ensures Settled(w, m.fwd, Cell(w, m.copies[k].src, i))
  {
    CopyCell(w, mem, m.fwd, m.copies[k], m.scanned[k], i);
    assert CopyOk(w, mem, m.fwd, m.copies[k], m.scanned[k]);
  }

  /** Words of a copy from s on point to no old object. */
  ghost predicate CopyClean(w: Old, c: Copy, s: nat) {
    InMemory(w, c.src) ==>
      forall i :: s <= i < Words(w, c.src) - 1 && IsSlot(w, c.src, i) ==> !IsObject(w, Cell(w, c.src, i))
  }

  /** What has not been scanned points to no old object. */
  ghost predicate Clean(w: Old, m: Made) {
    |m.scanned| == |m.copies| && forall k :: 0 <= k < |m.copies| ==> CopyClean(w, m.copies[k], m.scanned[k])
  }

  lemma DoneClean(w: Old, mem: seq<nat>, m: Made)
    requires AllDone(m) && CopiesOk(w, mem, m)
    ensures Clean(w, m)
  {
    forall k | 0 <= k < |m.copies| ensures CopyClean(w, m.copies[k], m.scanned[k]) {
      assert CopyOk(w, mem, m.fwd, m.copies[k], m.scanned[k]);
    }
  }

  /** The same copies, taken as scanned. */
  function Through(m: Made): Made {
    m.(scanned := seq(|m.copies|, k requires 0 <= k < |m.copies| => if m.copies[k].words >= 1
      then m.copies[k].words - 1 else 0))
  }

  lemma CopyThrough(w: Old, mem: seq<nat>, fwd: map<nat, nat>, c: Copy, s: nat)
    requires CopyOk(w, mem, fwd, c, s) && CopyClean(w, c, s)
    ensures c.words >= 1 && CopyOk(w, mem, fwd, c, c.words - 1)
  {
    var n: nat := c.words - 1;
    forall i | 0 <= i < c.words - 1 ensures CellOk(w, mem, fwd, c, n, i) { assert CellOk(w, mem, fwd, c, s, i); }
  }

  lemma CleanThrough(w: Old, mem: seq<nat>, m: Made)
    requires CopiesOk(w, mem, m) && Clean(w, m)
    ensures CopiesOk(w, mem, Through(m)) && AllDone(Through(m))
  {
    forall k | 0 <= k < |m.copies| ensures CopyOk(w, mem, m.fwd, m.copies[k], Through(m).scanned[k]) &&
      m.copies[k].words >= 1 {
      assert CopyOk(w, mem, m.fwd, m.copies[k], m.scanned[k]);
      assert CopyClean(w, m.copies[k], m.scanned[k]);
      CopyThrough(w, mem, m.fwd, m.copies[k], m.scanned[k]);
    }
  }

  /** Whether a word is a pointer depends on words that are none. */
  lemma SameSlots(ty: nat, a: seq<nat>, b: seq<nat>, i: nat)
    requires |a| == |b| && i < |a| && forall j :: 0 <= j < |a| && !Slot(ty, a, j) ==> b[j] == a[j]
    ensures Slot(ty, b, i) == Slot(ty, a, i)
  {
    if ty == VALUE && |a| >= VALUE_WORDS {
      assert !Slot(ty, a, 0);
    } else if ty == VALUE_ARRAY && i / VALUE_WORDS < |a| / VALUE_WORDS {
      var j := i / VALUE_WORDS;
      IndexParts(j, 0, VALUE_WORDS);
      assert !Slot(ty, a, j * VALUE_WORDS);
    } else if ty == INSTR_ARRAY && i / INSTR_WORDS < |a| / INSTR_WORDS {
      var j := i / INSTR_WORDS;
      InstrInArray(a, j);
      assert ValueAt(ty, a, INSTR_WORDS * j + 1);
      assert !Slot(ty, a, INSTR_WORDS * j + 1);
    }
  }
  function Released(space: seq<nat>, tag: nat): (r: seq<nat>)
    ensures |r| == |space| && forall p :: 0 <= p < |space| ==> r[p] == if space[p] == tag then 0 else space[p]
  {
    seq(|space|, p requires 0 <= p < |space| => if space[p] == tag then 0 else space[p])
  }

  /** The heap after the collection: the copies, in the other space. */
  function NewHeap(w: Old, mem: seq<nat>, space: seq<nat>, last: nat, m: Made): Old {
    Old(mem, m.fwd.Values, Released(space, w.from), w.into, w.from, w.first, last, w.nurseryFirst, w.nurseryLast)
  }

  lemma CellCopied(w: Old, mem: seq<nat>, m: Made, k: nat, i: nat)
    requires OldOk(w) && FwdOk(w, m.fwd, m.copies) && CopiesOk(w, mem, m) && AllDone(m) && k < |m.copies| &&
      i < m.copies[k].words - 1
    ensures var c := m.copies[k];
      && InMemory(w, c.src) && c.words == Words(w, c.src) && c.dst + 1 + i < |mem|
      && mem[c.dst + 1 + i] == (if IsSlot(w, c.src, i) then Image(w, m.fwd, Cell(w, c.src, i)) else Cell(w, c.src, i))
      && (IsSlot(w, c.src, i) ==> Settled(w, m.fwd, Cell(w, c.src, i)))
  {
    hide OldOk, FwdOk, CopyOk, IsSlot, Image, Settled, Cell;
    CopyIs(w, mem, m, k);
    CopyCell(w, mem, m.fwd, m.copies[k], m.scanned[k], i);
  }

  lemma CopyBody(w: Old, w': Old, mem: seq<nat>, m: Made, k: nat)
    requires OldOk(w) && FwdOk(w, m.fwd, m.copies) && CopiesOk(w, mem, m) && AllDone(m) && k < |m.copies| &&
      w'.mem == mem
    ensures var c := m.copies[k];
      && InMemory(w, c.src) && InMemory(w', c.dst) && Words(w', c.dst) == Words(w, c.src) == c.words &&
        Type(w', c.dst) == Type(w, c.src)
      && (forall j :: 0 <= j < |Body(w, c.src)| && !Slot(Type(w, c.src), Body(w, c.src), j) ==>
        Body(w', c.dst)[j] == Body(w, c.src)[j])
  {
    hide OldOk, FwdOk, CopiesOk, Slot, Image, Settled;
    CopyIs(w, mem, m, k);
    var c := m.copies[k];
    forall j | 0 <= j < |Body(w, c.src)| && !Slot(Type(w, c.src), Body(w, c.src), j)
      ensures Body(w', c.dst)[j] == Body(w, c.src)[j] {
      CellCopied(w, mem, m, k, j);
      assert !IsSlot(w, c.src, j);
    }
  }

  lemma CopyAfter(w: Old, w': Old, mem: seq<nat>, m: Made, k: nat)
    requires OldOk(w) && FwdOk(w, m.fwd, m.copies) && CopiesOk(w, mem, m) && AllDone(m) && k < |m.copies| &&
      w'.mem == mem
    ensures CopiedAs(w, w', m.fwd, m.copies[k].src) && m.fwd[m.copies[k].src] == m.copies[k].dst
  {
    hide OldOk, FwdOk, CopiesOk, Slot, Image, Settled, AllDone;
    CopyIs(w, mem, m, k);
    CopyBody(w, w', mem, m, k);
    var c := m.copies[k];
    forall i | 0 <= i < Words(w, c.src) - 1 ensures CellAs(w, w', m.fwd, c.src, i) {
      CellCopied(w, mem, m, k, i);
      SameSlots(Type(w, c.src), Body(w, c.src), Body(w', c.dst), i);
    }
  }

  /** The copy of a reachable object. */
  lemma CopyOf(w: Old, fwd: map<nat, nat>, copies: seq<Copy>, h: nat) returns (k: nat)
    requires FwdOk(w, fwd, copies) && h in fwd
    ensures k < |copies| && copies[k].src == h && copies[k].dst == fwd[h]
  {
    k :| 0 <= k < |copies| && copies[k].src == h;
  }

  /** A complete collection copies what the roots reach, and nothing else. */
  lemma Complete(w: Old, mem: seq<nat>, space: seq<nat>, last: nat, freep: nat, freewords: nat, m: Made,
                 roots: set<nat>)
    requires Inv(w, mem, space, last, freep, freewords, m) && AllDone(m) && OnlyReachable(w, roots, m.fwd)
    requires forall v :: v in roots ==> Settled(w, m.fwd, v)
    ensures Isomorphic(w, NewHeap(w, mem, space, last, m), m.fwd, roots)
  {
    hide OldOk, FwdOk, CopiesOk, FromOk, RunsOk, PagesOk, FrontierOk, CopiedAs, Settled, Reachable, AllDone;
    var w' := NewHeap(w, mem, space, last, m);
    forall h ensures h in m.fwd <==> h in w.objects && Reachable(w, roots, h) {
      if h in m.fwd {
        var k := CopyOf(w, m.fwd, m.copies, h);
        CopyIs(w, mem, m, k);
      } else if h in w.objects && Reachable(w, roots, h) {
        AllReached(w, mem, m, roots, h);
      }
    }
    forall h, g | h in m.fwd && g in m.fwd && h != g ensures m.fwd[h] != m.fwd[g] {
      var k := CopyOf(w, m.fwd, m.copies, h);
      var l := CopyOf(w, m.fwd, m.copies, g);
      CopyIs(w, mem, m, k);
      CopyIs(w, mem, m, l);
      if k < l {
        DistinctCopies(m.copies, m.runs, w, space, last, k, l);
      } else {
        DistinctCopies(m.copies, m.runs, w, space, last, l, k);
      }
    }
    forall h | h in m.fwd ensures CopiedAs(w, w', m.fwd, h) {
      var k := CopyOf(w, m.fwd, m.copies, h);
      CopyAfter(w, w', mem, m, k);
    }
  }
  // ----- a proper heap again -----

  lemma TagsAfter(w: Old, mem: seq<nat>, space: seq<nat>, last: nat, m: Made)
    requires OldOk(w) && PagesOk(w, space, last, m.runs) && |mem| == |w.mem|
    requires forall p :: 0 <= p < |space| && space[p] != 0 ==> p <= last
    ensures var w' := NewHeap(w, mem, space, last, m);
      && 1 <= w'.first <= w'.last < |w'.space| && |w'.mem| == PAGE_WORDS * |w'.space|
      && (forall p :: 0 <= p < |w'.space| && w'.space[p] != 0 ==> p <= w'.last)
      && w'.from != w'.into && w'.from != NURSERY && w'.into != NURSERY && w'.from != 0 && w'.into != 0
      && (forall p :: 0 <= p < |w'.space| ==> w'.space[p] != w'.into && (InNursery(w', p) ==> w'.space[p] == NURSERY))
  {
    var w' := NewHeap(w, mem, space, last, m);
    forall p | 0 <= p < |w'.space| ensures w'.space[p] != w'.into && (InNursery(w', p) ==> w'.space[p] == NURSERY) {
      assert InNursery(w, p) ==> w.space[p] == NURSERY;
    }
  }

  lemma ObjectAfter(w: Old, mem: seq<nat>, space: seq<nat>, last: nat, freep: nat, freewords: nat, m: Made, k: nat)
    requires Inv(w, mem, space, last, freep, freewords, m) && AllDone(m) && k < |m.copies|
    ensures var w', h := NewHeap(w, mem, space, last, m), m.copies[k].dst;
      && h in w'.objects && PAGE_WORDS * w'.first <= h && InMemory(w', h) && h < |mem| && !Forwarded(mem[h]) &&
        Type(w', h) <= CALLFRAME_ARRAY && OnPages(w', h)
      && (Type(w', h) == VALUE ==> Words(w', h) > VALUE_WORDS) && Words(w', h) == m.copies[k].words
  {
    hide OldOk, FwdOk, CopiesOk, FromOk, RunsOk, PagesOk, FrontierOk, Slot, AllDone;
    var w' := NewHeap(w, mem, space, last, m);
    var c := m.copies[k];
    CopyIs(w, mem, m, k);
    CopyBody(w, w', mem, m, k);
    ObjectSize(w, c.src);
    if Type(w, c.src) == VALUE { ValueSize(w, c.src); }
    var r := CopyOnPages(m.copies, m.runs, k);
    RunPlace(w, space, last, m.runs, r);
    forall p | c.dst / PAGE_WORDS <= p <= (c.dst + c.words - 1) / PAGE_WORDS && p < |w'.space|
      ensures w'.space[p] == w'.from {
      TagOfRun(w, space, last, m.runs, r, p);
      SpacesApart(w);
    }
  }

  lemma SpacesApart(w: Old)
    requires OldOk(w)
    ensures w.from != w.into
  {
  }

  lemma ValueSize(w: Old, h: nat)
    requires OldOk(w) && h in w.objects && Type(w, h) == VALUE
    ensures Words(w, h) > VALUE_WORDS
  {
  }

  lemma RunPlace(w: Old, space: seq<nat>, last: nat, runs: seq<Run>, r: nat)
    requires PagesOk(w, space, last, runs) && r < |runs|
    ensures w.first <= runs[r].page
  {
  }

  /** The pointers of copies are good in the new heap. */
  lemma PointersAfter(w: Old, mem: seq<nat>, space: seq<nat>, last: nat, m: Made, h: nat, i: nat)
    requires OldOk(w) && FwdOk(w, m.fwd, m.copies) && CopiesOk(w, mem, m) && AllDone(m) && |space| == |w.space| &&
      h in m.fwd.Values
    requires var w' := NewHeap(w, mem, space, last, m); InMemory(w', h) && i < Words(w', h) - 1 && IsSlot(w', h, i)
    ensures var w' := NewHeap(w, mem, space, last, m); PointerOk(w', Cell(w', h, i))
  {
    hide OldOk, CopiesOk, FromOk, Slot, AllDone, FwdOk;
    var w' := NewHeap(w, mem, space, last, m);
    var g :| g in m.fwd && m.fwd[g] == h;
    var k := CopyOf(w, m.fwd, m.copies, g);
    CopyIs(w, mem, m, k);
    CopyAfter(w, w', mem, m, k);
    assert CellAs(w, w', m.fwd, g, i);
    SlotPointer(w, g, i);
    DoneSize(m);
    GrownSelf(m);
    ImageKept(w, m, m, Cell(w, g, i));
    var v := Cell(w', h, i);
    if ToCopy(m, v) {
      var l :| 0 <= l < |m.copies| && v == BodyAddress(m.copies[l].dst);
      CopyIs(w, mem, m, l);
      AddressPage(m.copies[l].dst);
    }
  }

  lemma DoneSize(m: Made)
    requires AllDone(m)
    ensures |m.scanned| == |m.copies|
  {
  }

  /** What a complete collection leaves is a proper heap. */
  lemma ProperAgain(w: Old, mem: seq<nat>, space: seq<nat>, last: nat, freep: nat, freewords: nat, m: Made)
    requires Inv(w, mem, space, last, freep, freewords, m) && AllDone(m)
    requires forall p :: 0 <= p < |space| && space[p] != 0 ==> p <= last
    ensures OldOk(NewHeap(w, mem, space, last, m))
  {
    hide Inv, OldOk, CopiesOk, FromOk, Slot, AllDone, FwdOk, RunsOk, PagesOk, FrontierOk, InMemory, PointerOk,
      OnPages, Words, Type, IsSlot, Cell;
    var w' := NewHeap(w, mem, space, last, m);
    InvParts(w, mem, space, last, freep, freewords, m);
    TagsAfter(w, mem, space, last, m);
    PagesSizes(w, space, last, m.runs);
    forall h | h in w'.objects
      ensures PAGE_WORDS * w'.first <= h && InMemory(w', h) && h < |mem| && !Forwarded(w'.mem[h]) &&
        Type(w', h) <= CALLFRAME_ARRAY && OnPages(w', h)
      ensures Type(w', h) == VALUE ==> Words(w', h) > VALUE_WORDS
    {
      var k := CopyAt(w, m.fwd, m.copies, h);
      ObjectAfter(w, mem, space, last, freep, freewords, m, k);
    }
    forall h, g | h in w'.objects && g in w'.objects && h < g ensures h + Words(w', h) <= g {
      ApartAfter(w, mem, space, last, freep, freewords, m, h, g);
    }
    forall h, i | h in w'.objects && InMemory(w', h) && 0 <= i < Words(w', h) - 1 && IsSlot(w', h, i)
      ensures PointerOk(w', Cell(w', h, i)) {
      PointersAfter(w, mem, space, last, m, h, i);
    }
    ProperIs(w');
  }

  lemma ProperIs(w: Old)
    requires 1 <= w.first <= w.last < |w.space| && |w.mem| == PAGE_WORDS * |w.space|
    requires (forall p :: 0 <= p < |w.space| && w.space[p] != 0 ==> p <= w.last)
    requires w.from != w.into && w.from != NURSERY && w.into != NURSERY && w.from != 0 && w.into != 0
    requires (forall p :: 0 <= p < |w.space| ==> w.space[p] != w.into && (InNursery(w, p) ==> w.space[p] == NURSERY))
    requires forall h :: h in w.objects ==>
      PAGE_WORDS * w.first <= h && InMemory(w, h) && h < |w.mem| && !Forwarded(w.mem[h]) &&
      Type(w, h) <= CALLFRAME_ARRAY && OnPages(w, h)
    requires forall h :: h in w.objects ==> (Type(w, h) == VALUE ==> Words(w, h) > VALUE_WORDS)
    requires forall h, k :: h in w.objects && k in w.objects && h < k ==> h + Words(w, h) <= k
    requires forall h, i :: h in w.objects && InMemory(w, h) && 0 <= i < Words(w, h) - 1 && IsSlot(w, h, i) ==>
      PointerOk(w, Cell(w, h, i))
    ensures OldOk(w)
  {
    hide Type, Words, OnPages, PointerOk, IsSlot, Cell, InNursery, InMemory;
  }

  lemma PagesSizes(w: Old, space: seq<nat>, last: nat, runs: seq<Run>)
    requires PagesOk(w, space, last, runs)
    ensures |space| == |w.space|
  {
  }

  lemma CopyAt(w: Old, fwd: map<nat, nat>, copies: seq<Copy>, d: nat) returns (k: nat)
    requires FwdOk(w, fwd, copies) && d in fwd.Values
    ensures k < |copies| && copies[k].dst == d
  {
    var h :| h in fwd && fwd[h] == d;
    k := CopyOf(w, fwd, copies, h);
  }

  lemma ApartAfter(w: Old, mem: seq<nat>, space: seq<nat>, last: nat, freep: nat, freewords: nat, m: Made, h: nat,
                   g: nat)
    requires Inv(w, mem, space, last, freep, freewords, m) && AllDone(m) && h in m.fwd.Values && g in m.fwd.Values &&
      h < g
    ensures h + Words(NewHeap(w, mem, space, last, m), h) <= g
  {
    hide Inv, OldOk, CopiesOk, FromOk, AllDone, FwdOk, RunsOk, PagesOk, FrontierOk, InMemory, OnPages, Words, Type;
    InvParts(w, mem, space, last, freep, freewords, m);
    var k := CopyAt(w, m.fwd, m.copies, h);
    var l := CopyAt(w, m.fwd, m.copies, g);
    ObjectAfter(w, mem, space, last, freep, freewords, m, k);
    ObjectAfter(w, mem, space, last, freep, freewords, m, l);
    var rk := CopyOnPages(m.copies, m.runs, k);
    var rl := CopyOnPages(m.copies, m.runs, l);
    if k < l {
      DistinctCopies(m.copies, m.runs, w, space, last, k, l);
    } else {
      DistinctCopies(m.copies, m.runs, w, space, last, l, k);
    }
  }

  /** The words behind the frontier are free in the new heap too. */
  lemma FrontierAfter(w: Old, mem: seq<nat>, space: seq<nat>, last: nat, freep: nat, freewords: nat, m: Made)
    requires Inv(w, mem, space, last, freep, freewords, m) && AllDone(m)
    ensures FrontierFree(NewHeap(w, mem, space, last, m), freep, freewords)
  {
    hide Inv, OldOk, CopiesOk, FromOk, AllDone, FwdOk, RunsOk, PagesOk, FrontierOk, InMemory, OnPages, Words, Type,
      LayoutOk;
    InvParts(w, mem, space, last, freep, freewords, m);
    var w' := NewHeap(w, mem, space, last, m);
    FrontierRoom(w, mem, space, last, m, freep, freewords);
    forall h | h in w'.objects && freewords > 0 ensures h + Words(w', h) <= freep || freep + freewords <= h {
      var k := CopyAt(w, m.fwd, m.copies, h);
      ObjectAfter(w, mem, space, last, freep, freewords, m, k);
      RoomUnused(w, mem, space, last, m.copies, m.runs, freep, freewords);
      UnusedIs(w, m.copies, freep, freep + freewords);
      assert ApartFrom(m.copies[k], freep, freep + freewords);
    }
  }

  lemma FrontierRoom(w: Old, mem: seq<nat>, space: seq<nat>, last: nat, m: Made, freep: nat, freewords: nat)
    requires LayoutOk(w, mem, space, last, m.copies, m.runs, freep, freewords)
    ensures freewords > 0 ==> freep + freewords <= |mem| && OpenPage(NewHeap(w, mem, space, last, m), freep, freewords)
  {
    hide OldOk, RunsOk, PagesOk, FrontierOk, Unused, RunOk;
    if freewords > 0 {
      RoomUnused(w, mem, space, last, m.copies, m.runs, freep, freewords);
      LastRun(mem, m.copies, m.runs, freep, freewords);
      PagesSizes(w, space, last, m.runs);
      var l := |m.runs| - 1;
      TagOfRun(w, space, last, m.runs, l, m.runs[l].page);
      RunPlace(w, space, last, m.runs, l);
      SpacesApart(w);
    }
  }

  /** A copy that has not been scanned and holds a pointer to an old object is no faithful copy. */
  lemma NotClean(w: Old, mem: seq<nat>, space: seq<nat>, last: nat, freep: nat, freewords: nat, m: Made,
                 roots: set<nat>)
    requires Inv(w, mem, space, last, freep, freewords, m) && !Clean(w, m)
    ensures !Isomorphic(w, NewHeap(w, mem, space, last, m), m.fwd, roots)
  {
    hide Inv, OldOk, FromOk, FwdOk, CopiesOk, RunsOk, PagesOk, FrontierOk, IsSlot, IsObject;
    InvParts(w, mem, space, last, freep, freewords, m);
    var k :| 0 <= k < |m.copies| && !CopyClean(w, m.copies[k], m.scanned[k]);
    var i :| m.scanned[k] <= i < Words(w, m.copies[k].src) - 1 && IsSlot(w, m.copies[k].src, i) &&
      IsObject(w, Cell(w, m.copies[k].src, i));
    var h, w' := m.copies[k].src, NewHeap(w, mem, space, last, m);
    CopyIs(w, mem, m, k);
    CellNow(w, mem, m, k, i);
    hide Isomorphic;
    if CopiedAs(w, w', m.fwd, h) {
      StaleCell(w, mem, space, last, m, k, i);
    }
    if Isomorphic(w, w', m.fwd, roots) { CopiedOf(w, w', m.fwd, roots, h); }
  }

  lemma CopiedOf(w: Old, w': Old, fwd: map<nat, nat>, roots: set<nat>, h: nat)
    requires Isomorphic(w, w', fwd, roots) && h in fwd
    ensures CopiedAs(w, w', fwd, h)
  {
  }

  lemma StaleCell(w: Old, mem: seq<nat>, space: seq<nat>, last: nat, m: Made, k: nat, i: nat)
    requires OldOk(w) && FwdOk(w, m.fwd, m.copies) && RunsOk(m.copies, m.runs) && PagesOk(w, space, last, m.runs) &&
      k < |m.copies|
    requires var c := m.copies[k];
      && InMemory(w, c.src) && c.src in m.fwd && m.fwd[c.src] == c.dst && c.dst + 1 + i < |mem| &&
        i < Words(w, c.src) - 1
      && IsSlot(w, c.src, i) && IsObject(w, Cell(w, c.src, i)) && mem[c.dst + 1 + i] == Cell(w, c.src, i)
    ensures !CopiedAs(w, NewHeap(w, mem, space, last, m), m.fwd, m.copies[k].src)
  {
    hide OldOk, RunsOk, PagesOk, IsSlot;
    var c, w' := m.copies[k], NewHeap(w, mem, space, last, m);
    var v := Cell(w, c.src, i);
    if CopiedAs(w, w', m.fwd, c.src) {
      assert CellAs(w, w', m.fwd, c.src, i);
      var l :| 0 <= l < |m.copies| && m.copies[l].src == ObjectOf(v);
      assert ToCopy(m, v);
      ToCopyPage(w, space, last, m, v);
    }
  }
}
