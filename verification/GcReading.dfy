/** A collection as the program sees it: whatever the program reads from a root on, step by step, it reads
    the same before and after. */
module GcReading {
  import opened Wrappers
  import opened GcWords
  import opened GcSpec
  import opened GcLayout
  import opened GcHeap

  // ----- how the program reads -----

  /** The parts of a value that are elsewhere in the heap. */
  datatype Part = HEAD | TAIL | CODE | ENV | TEXT | ITEMS

  /** A read from an object: from a value, from value k of an array, from instruction k of code, or from
      frame k of a stack. */
  datatype Access =
    | OfValue(part: Part)
    | OfItem(k: nat, part: Part)
    | OfOperand(k: nat, part: Part)
    | NestedCode(k: nat)
    | FrameCode(k: nat)
    | FrameEnv(k: nat)
    | FrameStack(k: nat)

  /** Where a value with this tag has a part. */
  function PartAt(tag: nat, part: Part): Option<nat> {
    match part
    case HEAD => if tag == VAL_CONS then Some(1) else None
    case TAIL => if tag == VAL_CONS then Some(2) else None
    case CODE => if tag == VAL_LAMBDA then Some(1) else None
    case ENV => if tag == VAL_LAMBDA then Some(3) else None
    case TEXT => if tag == VAL_STRING || tag == VAL_ERROR then Some(1) else None
    case ITEMS => if tag == VAL_VECTOR then Some(1) else None
  }

  function Behind(base: nat, i: Option<nat>): Option<nat> {
    if i.None? then None else Some(base + i.value)
  }

  /** The word of the body that is read. */
  function AccessAt(ty: nat, body: seq<nat>, a: Access): Option<nat> {
    match a
    case OfValue(part) =>
      if ty == VALUE && |body| >= VALUE_WORDS then PartAt(Tag(body[0]), part) else None
    case OfItem(k, part) =>
      if ty == VALUE_ARRAY && VALUE_WORDS * (k + 1) <= |body|
      then Behind(VALUE_WORDS * k, PartAt(Tag(body[VALUE_WORDS * k]), part)) else None
    case OfOperand(k, part) =>
      if ty == INSTR_ARRAY && INSTR_WORDS * (k + 1) <= |body|
      then Behind(INSTR_WORDS * k + 1, PartAt(Tag(body[INSTR_WORDS * k + 1]), part)) else None
    case NestedCode(k) =>
      if ty == INSTR_ARRAY && INSTR_WORDS * (k + 1) <= |body| then Some(INSTR_WORDS * k + 6) else None
    case FrameCode(k) =>
      if ty == CALLFRAME_ARRAY && FRAME_WORDS * (k + 1) <= |body| then Some(FRAME_WORDS * k) else None
    case FrameEnv(k) =>
      if ty == CALLFRAME_ARRAY && FRAME_WORDS * (k + 1) <= |body| then Some(FRAME_WORDS * k + 2) else None
    case FrameStack(k) =>
      if ty == CALLFRAME_ARRAY && FRAME_WORDS * (k + 1) <= |body| then Some(FRAME_WORDS * k + 4) else None
  }

  /** The pointer at the end of a path of reads, if all of them are possible. */
  function Read(w: Old, p: nat, path: seq<Access>): Option<nat>
    decreases |path|
  {
    if path == [] then Some(p)
    else if !IsObject(w, p) || !InMemory(w, ObjectOf(p)) then None
    else
      var h := ObjectOf(p);
      var i := AccessAt(Type(w, h), Body(w, h), path[0]);
      if i.None? || i.value >= Words(w, h) - 1 then None else Read(w, Cell(w, h, i.value), path[1..])
  }

  // ----- what is read are the pointers -----

  lemma PartSlot(tagWord: nat, part: Part)
    ensures PartAt(Tag(tagWord), part).Some? ==>
      PartAt(Tag(tagWord), part).value < VALUE_WORDS && ValueSlot(tagWord, PartAt(Tag(tagWord), part).value)
  {
  }

  lemma SlotPart(tagWord: nat, i: nat) returns (part: Part)
    requires ValueSlot(tagWord, i)
    ensures PartAt(Tag(tagWord), part) == Some(i)
  {
    part := if Tag(tagWord) == VAL_CONS then (if i == 1 then HEAD else TAIL)
      else if Tag(tagWord) == VAL_LAMBDA then (if i == 1 then CODE else ENV)
      else if Tag(tagWord) == VAL_VECTOR then ITEMS else TEXT;
  }

  /** The words that the program reads as pointers are the words that the collector takes for pointers. */
  lemma AccessSlot(ty: nat, body: seq<nat>, a: Access)
    requires AccessAt(ty, body, a).Some?
    ensures AccessAt(ty, body, a).value < |body| && Slot(ty, body, AccessAt(ty, body, a).value)
  {
    hide ValueSlot, PartAt, Tag;
    match a
    case OfValue(part) => PartSlot(body[0], part);
    case OfItem(k, part) =>
      PartSlot(body[VALUE_WORDS * k], part);
      IndexParts(k, PartAt(Tag(body[VALUE_WORDS * k]), part).value, VALUE_WORDS);
    case OfOperand(k, part) =>
      PartSlot(body[INSTR_WORDS * k + 1], part);
      IndexParts(k, PartAt(Tag(body[INSTR_WORDS * k + 1]), part).value + 1, INSTR_WORDS);
    case NestedCode(k) => IndexParts(k, 6, INSTR_WORDS);
    case FrameCode(k) => IndexParts(k, 0, FRAME_WORDS);
    case FrameEnv(k) => IndexParts(k, 2, FRAME_WORDS);
    case FrameStack(k) => IndexParts(k, 4, FRAME_WORDS);
  }

  /** And the other way round. */
  lemma SlotAccess(ty: nat, body: seq<nat>, i: nat) returns (a: Access)
    requires i < |body| && Slot(ty, body, i)
    ensures AccessAt(ty, body, a) == Some(i)
  {
    hide ValueSlot, PartAt, Tag;
    if ty == VALUE {
      var part := SlotPart(body[0], i);
      a := OfValue(part);
    } else if ty == VALUE_ARRAY {
      var k := i / VALUE_WORDS;
      var part := SlotPart(body[k * VALUE_WORDS], i % VALUE_WORDS);
      a := OfItem(k, part);
    } else if ty == INSTR_ARRAY {
      var k := i / INSTR_WORDS;
      if i % INSTR_WORDS == 6 {
        a := NestedCode(k);
      } else {
        var part := SlotPart(body[k * INSTR_WORDS + 1], i % INSTR_WORDS - 1);
        a := OfOperand(k, part);
      }
    } else {
      var k := i / FRAME_WORDS;
      a := if i % FRAME_WORDS == 0 then FrameCode(k) else if i % FRAME_WORDS == 2 then FrameEnv(k) else FrameStack(k);
    }
  }

  // ----- before and after -----

  /** Two heaps with the same pages. */
  predicate SamePlaces(w: Old, w': Old) {
    w'.first == w.first && |w'.space| == |w.space| && w'.nurseryFirst == w.nurseryFirst &&
    w'.nurseryLast == w.nurseryLast
  }

  /** What is out of the old heap is out of the new one. */
  lemma StaysOutside(w: Old, w': Old, v: nat)
    requires OldOk(w') && SamePlaces(w, w') && Outside(w, v)
    ensures !IsObject(w', v)
  {
    if IsObject(w', v) {
      var h := ObjectOf(v);
      assert InMemory(w', h) && OnPages(w', h);
      AddressPage(h);
      TagOfOld(w', h, (h + 1) / PAGE_WORDS);
    }
  }

  /** Where pointers lead in the new heap. */
  lemma ImageObject(w: Old, w': Old, fwd: map<nat, nat>, roots: set<nat>, p: nat)
    requires OldOk(w') && SamePlaces(w, w') && Isomorphic(w, w', fwd, roots) && PointerOk(w, p) && Settled(w, fwd, p)
    ensures IsObject(w', Image(w, fwd, p)) <==> IsObject(w, p)
    ensures IsObject(w, p) ==>
      && ObjectOf(p) in w.objects && ObjectOf(p) in fwd && ObjectOf(Image(w, fwd, p)) == fwd[ObjectOf(p)]
      && CopiedAs(w, w', fwd, ObjectOf(p))
  {
    hide CopiedAs, OldOk, Reachable;
    if IsObject(w, p) {
      AddressPage(fwd[ObjectOf(p)]);
      assert fwd[ObjectOf(p)] in fwd.Values;
    } else {
      StaysOutside(w, w', p);
    }
  }

  /** The same reads lead to the images of what they led to. */
  lemma {:induction false} SameReads(w: Old, w': Old, fwd: map<nat, nat>, roots: set<nat>, p: nat, path: seq<Access>)
    requires OldOk(w) && OldOk(w') && SamePlaces(w, w') && Isomorphic(w, w', fwd, roots)
    requires PointerOk(w, p) && Settled(w, fwd, p)
    ensures var r := Read(w, p, path);
      Read(w', Image(w, fwd, p), path) == if r.None? then None else Some(Image(w, fwd, r.value))
    ensures var r := Read(w, p, path); r.Some? ==> PointerOk(w, r.value) && Settled(w, fwd, r.value)
    decreases |path|
  {
    hide OldOk, Isomorphic, Reachable, Slot, AccessAt, Image, PointerOk, IsObject;
    if path != [] {
      ImageObject(w, w', fwd, roots, p);
      if IsObject(w, p) && InMemory(w, ObjectOf(p)) {
        var h := ObjectOf(p);
        SameAccess(w, w', fwd, h, path[0]);
        var i := AccessAt(Type(w, h), Body(w, h), path[0]);
        if i.Some? {
          SlotPointer(w, h, i.value);
          SameReads(w, w', fwd, roots, Cell(w, h, i.value), path[1..]);
        }
      }
    }
  }

  lemma SlotPointer(w: Old, h: nat, i: nat)
    requires OldOk(w) && h in w.objects && InMemory(w, h) && i < Words(w, h) - 1 && IsSlot(w, h, i)
    ensures PointerOk(w, Cell(w, h, i))
  {
  }

  /** A read from an object and from its copy. */
  lemma SameAccess(w: Old, w': Old, fwd: map<nat, nat>, h: nat, a: Access)
    requires CopiedAs(w, w', fwd, h)
    ensures AccessAt(Type(w', fwd[h]), Body(w', fwd[h]), a) == AccessAt(Type(w, h), Body(w, h), a)
    ensures var i := AccessAt(Type(w, h), Body(w, h), a); i.Some? ==>
      && i.value < Words(w, h) - 1 && IsSlot(w, h, i.value) && Settled(w, fwd, Cell(w, h, i.value))
      && Cell(w', fwd[h], i.value) == Image(w, fwd, Cell(w, h, i.value))
  {
    var body, body' := Body(w, h), Body(w', fwd[h]);
    forall j | 0 <= j < |body| && !Slot(Type(w, h), body, j) ensures body'[j] == body[j] {
      assert CellAs(w, w', fwd, h, j);
    }
    hide Slot, CellAs, Image, Words, Type;
    SameTags(Type(w, h), body, body', a);
    var i := AccessAt(Type(w, h), body, a);
    if i.Some? {
      AccessSlot(Type(w, h), body, a);
      CellIs(w, w', fwd, h, i.value);
    }
  }

  lemma CellIs(w: Old, w': Old, fwd: map<nat, nat>, h: nat, i: nat)
    requires CopiedAs(w, w', fwd, h) && i < Words(w, h) - 1 && IsSlot(w, h, i)
    ensures Settled(w, fwd, Cell(w, h, i)) && Cell(w', fwd[h], i) == Image(w, fwd, Cell(w, h, i))
  {
    assert CellAs(w, w', fwd, h, i);
  }

  /** Tag words are no pointers. */
  lemma TagsAreNone(ty: nat, body: seq<nat>, k: nat)
    ensures ty == VALUE && |body| >= VALUE_WORDS ==> !Slot(ty, body, 0)
    ensures ty == VALUE_ARRAY && VALUE_WORDS * (k + 1) <= |body| ==> !Slot(ty, body, VALUE_WORDS * k)
    ensures ty == INSTR_ARRAY && INSTR_WORDS * (k + 1) <= |body| ==> !Slot(ty, body, INSTR_WORDS * k + 1)
  {
    IndexParts(k, 0, VALUE_WORDS);
    IndexParts(k, 1, INSTR_WORDS);
  }

  /** Which reads are possible depends on words that are no pointers. */
  lemma SameTags(ty: nat, body: seq<nat>, body': seq<nat>, a: Access)
    requires |body'| == |body| && forall j :: 0 <= j < |body| && !Slot(ty, body, j) ==> body'[j] == body[j]
    ensures AccessAt(ty, body', a) == AccessAt(ty, body, a)
  {
    hide Slot, PartAt, Tag;
    match a
    case OfValue(_) => if ty == VALUE && |body| >= VALUE_WORDS { TagsAreNone(ty, body, 0); }
    case OfItem(k, _) => if ty == VALUE_ARRAY && VALUE_WORDS * (k + 1) <= |body| { TagsAreNone(ty, body, k); }
    case OfOperand(k, _) => if ty == INSTR_ARRAY && INSTR_WORDS * (k + 1) <= |body| { TagsAreNone(ty, body, k); }
    case _ =>
  }

  /** And what is found there is the same, but for the pointers: the type, the size, and every other word. */
  lemma SameContents(w: Old, w': Old, fwd: map<nat, nat>, roots: set<nat>, p: nat, i: nat)
    requires OldOk(w') && SamePlaces(w, w') && Isomorphic(w, w', fwd, roots) && PointerOk(w, p) && Settled(w, fwd, p)
    requires IsObject(w, p) && InMemory(w, ObjectOf(p)) && i < Words(w, ObjectOf(p)) - 1
    ensures var h, h' := ObjectOf(p), ObjectOf(Image(w, fwd, p));
      && Type(w', h') == Type(w, h) && Words(w', h') == Words(w, h) && InMemory(w', h')
      && ((forall a :: AccessAt(Type(w, h), Body(w, h), a) != Some(i)) ==> Cell(w', h', i) == Cell(w, h, i))
  {
    hide OldOk, Isomorphic, Slot, AccessAt, Image, PointerOk, IsObject;
    ImageObject(w, w', fwd, roots, p);
    var h := ObjectOf(p);
    assert CellAs(w, w', fwd, h, i);
    if IsSlot(w, h, i) { var a := SlotAccess(Type(w, h), Body(w, h), i); }
  }
}
