/** Words of the collected heap: headers, forwarding words, and which words of an object are
    pointers. */
module GcWords {
  const PAGE_WORDS := 64
  const PAGE_BYTES := 512
  const WORD_BYTES := 8
  const MAX_WORDS := 0xFFFFFF

  // ----- headers -----

  /** MAKE_HEADER: type, size in words with the header, and a low bit that tells a header from a
      forwarding address. */
  function MakeHeader(words: nat, ty: nat): nat
    requires words <= MAX_WORDS
  {
    ty * 0x2000000 + words * 2 + 1
  }

  function HeaderWords(header: nat): nat {
    header / 2 % 0x1000000
  }

  function HeaderType(header: nat): nat {
    header / 0x2000000 % 0x100000
  }

  predicate Forwarded(header: nat) {
    header % 2 == 0
  }

  /** A header is read back as it was made, and is never taken for a forwarding address. */
  lemma HeaderRead(words: nat, ty: nat)
    requires words <= MAX_WORDS && ty < 0x100000
    ensures HeaderWords(MakeHeader(words, ty)) == words && HeaderType(MakeHeader(words, ty)) == ty
    ensures !Forwarded(MakeHeader(words, ty))
  {
    var h := MakeHeader(words, ty);
    assert h == 2 * (ty * 0x1000000 + words) + 1;
    assert h / 2 == ty * 0x1000000 + words;
    assert h / 0x2000000 == ty;
  }

  // ----- addresses -----

  /** The address of the body of the object with its header at word h. */
  function BodyAddress(h: nat): nat {
    WORD_BYTES * (h + 1)
  }

  function PageOf(address: nat): nat {
    address / PAGE_BYTES
  }

  lemma AddressPage(h: nat)
    ensures PageOf(BodyAddress(h)) == (h + 1) / PAGE_WORDS
    ensures BodyAddress(h) / WORD_BYTES == h + 1 && Forwarded(BodyAddress(h)) && BodyAddress(h) > 0
  {
  }

  // ----- pointers in objects -----

  const RAW := 0
  const VALUE := 1
  const VALUE_ARRAY := 2
  const INSTR_ARRAY := 3
  const CALLFRAME_ARRAY := 4

  const VAL_STRING := 1
  const VAL_CONS := 4
  const VAL_LAMBDA := 6
  const VAL_ERROR := 9
  const VAL_VECTOR := 10

  const VALUE_WORDS := 5
  const INSTR_WORDS := 8
  const FRAME_WORDS := 6

  /** The tag is the low half of the first word. */
  function Tag(word: nat): nat {
    word % 0x1_0000_0000
  }

  /** Word i of a value with this tag word points into the heap: head and tail of a cons, code
      and environment of a closure, data of a vector or string, message of an error. */
  predicate ValueSlot(tagWord: nat, i: nat) {
    var tag := Tag(tagWord);
    (tag == VAL_CONS && (i == 1 || i == 2)) || (tag == VAL_LAMBDA && (i == 1 || i == 3)) ||
    ((tag == VAL_VECTOR || tag == VAL_STRING || tag == VAL_ERROR) && i == 1)
  }

  /** Word i of the body of an object of this type is a pointer. */
  predicate Slot(ty: nat, body: seq<nat>, i: nat)
    requires i < |body|
  {
    var n := |body|;
    if ty == VALUE then n >= VALUE_WORDS && i < VALUE_WORDS && ValueSlot(body[0], i)
    else if ty == VALUE_ARRAY then i / VALUE_WORDS < n / VALUE_WORDS &&
      ValueSlot(body[i / VALUE_WORDS * VALUE_WORDS], i % VALUE_WORDS)
    else if ty == INSTR_ARRAY then
      i / INSTR_WORDS < n / INSTR_WORDS &&
      (i % INSTR_WORDS == 6 ||
        (1 <= i % INSTR_WORDS <= 5 && ValueSlot(body[i / INSTR_WORDS * INSTR_WORDS + 1], i % INSTR_WORDS - 1)))
    else if ty == CALLFRAME_ARRAY then i / FRAME_WORDS < n / FRAME_WORDS &&
      (i % FRAME_WORDS == 0 || i % FRAME_WORDS == 2 || i % FRAME_WORDS == 4)
    else false
  }

  /** A value at word `base` of a body: its pointers are those of the body there. */
  predicate ValueAt(ty: nat, body: seq<nat>, base: nat) {
    base + VALUE_WORDS <= |body| &&
    forall i :: base <= i < base + VALUE_WORDS ==> (Slot(ty, body, i) <==> ValueSlot(body[base], i - base))
  }

  lemma IndexParts(j: nat, o: nat, size: nat)
    requires o < size && (size == VALUE_WORDS || size == INSTR_WORDS || size == FRAME_WORDS)
    ensures (size * j + o) / size == j && (size * j + o) % size == o
  {
    if size == VALUE_WORDS {
      assert (VALUE_WORDS * j + o) / VALUE_WORDS == j;
    } else if size == INSTR_WORDS {
      assert (INSTR_WORDS * j + o) / INSTR_WORDS == j;
    } else {
      assert (FRAME_WORDS * j + o) / FRAME_WORDS == j;
    }
  }

  lemma ValueInArray(body: seq<nat>, j: nat)
    requires j < |body| / VALUE_WORDS
    ensures ValueAt(VALUE_ARRAY, body, VALUE_WORDS * j)
  {
    forall i | VALUE_WORDS * j <= i < VALUE_WORDS * j + VALUE_WORDS
      ensures i < |body| && (Slot(VALUE_ARRAY, body, i) <==> ValueSlot(body[VALUE_WORDS * j], i - VALUE_WORDS * j))
    {
      IndexParts(j, i - VALUE_WORDS * j, VALUE_WORDS);
    }
  }

  /** An instruction: its operand is a value from word 1 on, and its closure code is word 6. */
  lemma InstrInArray(body: seq<nat>, j: nat)
    requires j < |body| / INSTR_WORDS
    ensures INSTR_WORDS * j + INSTR_WORDS <= |body|
    ensures ValueAt(INSTR_ARRAY, body, INSTR_WORDS * j + 1)
    ensures !Slot(INSTR_ARRAY, body, INSTR_WORDS * j) && !Slot(INSTR_ARRAY, body, INSTR_WORDS * j + 7)
    ensures Slot(INSTR_ARRAY, body, INSTR_WORDS * j + 6)
  {
    IndexParts(j, 0, INSTR_WORDS);
    IndexParts(j, 6, INSTR_WORDS);
    IndexParts(j, 7, INSTR_WORDS);
    forall i | INSTR_WORDS * j + 1 <= i < INSTR_WORDS * j + 1 + VALUE_WORDS
      ensures Slot(INSTR_ARRAY, body, i) <==> ValueSlot(body[INSTR_WORDS * j + 1], i - (INSTR_WORDS * j + 1))
    {
      IndexParts(j, i - INSTR_WORDS * j, INSTR_WORDS);
    }
  }

  /** A call frame: code, environment and stack are words 0, 2 and 4. */
  lemma FrameInArray(body: seq<nat>, j: nat)
    requires j < |body| / FRAME_WORDS
    ensures FRAME_WORDS * j + FRAME_WORDS <= |body|
    ensures forall i :: FRAME_WORDS * j <= i < FRAME_WORDS * j + FRAME_WORDS ==>
      (Slot(CALLFRAME_ARRAY, body, i) <==> i == FRAME_WORDS * j || i == FRAME_WORDS * j + 2 || i == FRAME_WORDS * j + 4)
  {
    forall i | FRAME_WORDS * j <= i < FRAME_WORDS * j + FRAME_WORDS
      ensures Slot(CALLFRAME_ARRAY, body, i) <==>
        i == FRAME_WORDS * j || i == FRAME_WORDS * j + 2 || i == FRAME_WORDS * j + 4
    {
      IndexParts(j, i - FRAME_WORDS * j, FRAME_WORDS);
    }
  }
}
