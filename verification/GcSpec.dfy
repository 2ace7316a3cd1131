/** What a full collection must do, and the invariant it keeps on the way: the heap at the flip,
    the copies made so far, and how they lie in the new space. */
module GcSpec {
  import opened GcWords

  const NURSERY := 3

  // ----- the heap at the flip -----

  /** The memory and the page tags when the spaces are swapped, and the old objects, named by the
      words of their headers. */
  datatype Old = Old(mem: seq<nat>, objects: set<nat>, space: seq<nat>, from: nat, into: nat,
                     first: nat, last: nat, nurseryFirst: nat, nurseryLast: nat)

  function Words(w: Old, h: nat): nat {
    if h < |w.mem| then HeaderWords(w.mem[h]) else 0
  }

  function Type(w: Old, h: nat): nat {
    if h < |w.mem| then HeaderType(w.mem[h]) else 0
  }

  /** The object lies in the memory and has at least one word besides the header. */
  predicate InMemory(w: Old, h: nat) {
    2 <= Words(w, h) && h + Words(w, h) <= |w.mem|
  }

  function Body(w: Old, h: nat): seq<nat>
    requires InMemory(w, h)
  {
    w.mem[h + 1..h + Words(w, h)]
  }

  /** Word i of the body of h. */
  function Cell(w: Old, h: nat, i: nat): nat
    requires InMemory(w, h) && i < Words(w, h) - 1
  {
    w.mem[h + 1 + i]
  }

  predicate IsSlot(w: Old, h: nat, i: nat)
    requires InMemory(w, h) && i < Words(w, h) - 1
  {
    Slot(Type(w, h), Body(w, h), i)
  }

  /** A pointer to an old object. */
  predicate IsObject(w: Old, v: nat) {
    v > 0 && v % WORD_BYTES == 0 && v / WORD_BYTES - 1 in w.objects
  }

  function ObjectOf(v: nat): nat {
    if v < WORD_BYTES then 0 else v / WORD_BYTES - 1
  }

  predicate InNursery(w: Old, page: nat) {
    w.nurseryFirst <= page <= w.nurseryLast
  }

  /** Null, or a pointer that the full collection does not follow: outside the heap or into the
      nursery. */
  predicate Outside(w: Old, v: nat) {
    PageOf(v) < w.first || PageOf(v) >= |w.space| || InNursery(w, PageOf(v))
  }

  predicate PointerOk(w: Old, v: nat) {
    Outside(w, v) || IsObject(w, v)
  }

  predicate OnPages(w: Old, h: nat) {
    forall p :: h / PAGE_WORDS <= p <= (h + Words(w, h) - 1) / PAGE_WORDS && p < |w.space| ==> w.space[p] == w.from
  }

  /** A proper heap: old objects lie apart in the old space, and their pointers are good. */
  ghost predicate OldOk(w: Old) {
    && 1 <= w.first <= w.last < |w.space| && |w.mem| == PAGE_WORDS * |w.space|
    && (forall p :: 0 <= p < |w.space| && w.space[p] != 0 ==> p <= w.last)
    && w.from != w.into && w.from != NURSERY && w.into != NURSERY && w.from != 0 && w.into != 0
    && (forall p :: 0 <= p < |w.space| ==> w.space[p] != w.into && (InNursery(w, p) ==> w.space[p] == NURSERY))
    && (forall h :: h in w.objects ==>
          PAGE_WORDS * w.first <= h && InMemory(w, h) && !Forwarded(w.mem[h]) && Type(w, h) <= CALLFRAME_ARRAY &&
            OnPages(w, h) && (Type(w, h) == VALUE ==> Words(w, h) > VALUE_WORDS))
    && (forall h, k :: h in w.objects && k in w.objects && h < k ==> h + Words(w, h) <= k)
    && (forall h, i :: h in w.objects && InMemory(w, h) && 0 <= i < Words(w, h) - 1 && IsSlot(w, h, i) ==>
      PointerOk(w, Cell(w, h, i)))
  }

  // ----- the copies -----

  /** An object and its copy, by the words of their headers. */
  datatype Copy = Copy(src: nat, dst: nat, words: nat)

  /** Consecutive pages taken at once, and the copies laid out in them, from `start` on. */
  datatype Run = Run(page: nat, pages: nat, start: nat, end: nat)

  /** `fwd` sends an object to its copy; `scanned` says how far each copy has been scanned. */
  datatype Made = Made(copies: seq<Copy>, runs: seq<Run>, fwd: map<nat, nat>, scanned: seq<nat>)

  /** What a pointer becomes. */
  function Image(w: Old, fwd: map<nat, nat>, v: nat): nat {
    if IsObject(w, v) && ObjectOf(v) in fwd then BodyAddress(fwd[ObjectOf(v)]) else v
  }

  predicate Settled(w: Old, fwd: map<nat, nat>, v: nat) {
    IsObject(w, v) ==> ObjectOf(v) in fwd
  }

  /** The old space: headers of copied objects are forwarding addresses, nothing else has changed. */
  ghost predicate FromOk(w: Old, mem: seq<nat>, fwd: map<nat, nat>) {
    |mem| == |w.mem| &&
    forall h :: h in w.objects && InMemory(w, h) ==>
      mem[h] == (if h in fwd then BodyAddress(fwd[h]) else w.mem[h]) && BodyKept(w, mem, h)
  }

  ghost predicate BodyKept(w: Old, mem: seq<nat>, h: nat)
    requires InMemory(w, h) && |mem| == |w.mem|
  {
    mem[h + 1..h + Words(w, h)] == Body(w, h)
  }

  ghost predicate FwdOk(w: Old, fwd: map<nat, nat>, copies: seq<Copy>) {
    && |fwd| == |copies|
    && (forall k :: 0 <= k < |copies| ==>
          copies[k].src in w.objects && copies[k].src in fwd && fwd[copies[k].src] == copies[k].dst &&
            copies[k].words == Words(w, copies[k].src))
    && (forall h :: h in fwd ==> h in w.objects && exists k :: 0 <= k < |copies| && copies[k].src == h)
  }

  /** What word i of a copy scanned up to s holds. */
  predicate CellOk(w: Old, mem: seq<nat>, fwd: map<nat, nat>, c: Copy, s: nat, i: nat)
    requires InMemory(w, c.src) && i < Words(w, c.src) - 1 && c.dst + 1 + i < |mem|
  {
    if i < s && IsSlot(w, c.src, i) then
      Settled(w, fwd, Cell(w, c.src, i)) && mem[c.dst + 1 + i] == Image(w, fwd, Cell(w, c.src, i))
    else mem[c.dst + 1 + i] == Cell(w, c.src, i)
  }

  ghost predicate CopyOk(w: Old, mem: seq<nat>, fwd: map<nat, nat>, c: Copy, s: nat) {
    && InMemory(w, c.src) && c.words == Words(w, c.src) && s < c.words && c.dst + c.words <= |mem|
    && mem[c.dst] == w.mem[c.src]
    && forall i :: 0 <= i < c.words - 1 ==> CellOk(w, mem, fwd, c, s, i)
  }

  ghost predicate CopiesOk(w: Old, mem: seq<nat>, m: Made) {
    |m.scanned| == |m.copies| && forall k :: 0 <= k < |m.copies| ==> CopyOk(w, mem, m.fwd, m.copies[k], m.scanned[k])
  }

  // ----- the layout of the new space -----

  /** The word after the last copy of a run. */
  function EndOf(copies: seq<Copy>, r: Run): nat {
    if 0 < r.end <= |copies| then copies[r.end - 1].dst + copies[r.end - 1].words else 0
  }

  /** Copies lie one after another from the first word of the run on; a run of several pages holds
      one object larger than a page. */
  ghost predicate RunOk(copies: seq<Copy>, r: Run) {
    && r.start < r.end <= |copies| && r.pages >= 1 && copies[r.start].dst == PAGE_WORDS * r.page
    && (forall k :: r.start <= k < r.end ==>
          copies[k].words >= 2 && PAGE_WORDS * r.page <= copies[k].dst &&
            copies[k].dst + copies[k].words <= PAGE_WORDS * (r.page + r.pages))
    && (forall k :: r.start < k < r.end ==> copies[k].dst == copies[k - 1].dst + copies[k - 1].words)
    && (r.pages > 1 ==> r.end == r.start + 1 && copies[r.start].words > PAGE_WORDS)
  }

  /** A run starts where the one before it ends. */
  predicate StartOk(runs: seq<Run>, r: nat) {
    r < |runs| && runs[r].start == (if r == 0 then 0 else runs[r - 1].end)
  }

  ghost predicate RunsOk(copies: seq<Copy>, runs: seq<Run>) {
    && (forall r :: 0 <= r < |runs| ==> RunOk(copies, runs[r]))
    && (forall r :: 0 <= r < |runs| ==> StartOk(runs, r))
    && |copies| == (if runs == [] then 0 else runs[|runs| - 1].end)
  }

  predicate Separate(a: Run, b: Run) {
    a.page + a.pages <= b.page || b.page + b.pages <= a.page
  }

  ghost predicate PagesOk(w: Old, space: seq<nat>, last: nat, runs: seq<Run>) {
    && |space| == |w.space| && w.last <= last < |space|
    && (forall r :: 0 <= r < |runs| ==> w.first <= runs[r].page && runs[r].page + runs[r].pages <= last + 1)
    && (forall r, p :: 0 <= r < |runs| && runs[r].page <= p < runs[r].page + runs[r].pages ==>
      p < |space| && space[p] == w.into)
    && (forall r, q :: 0 <= r < q < |runs| ==> Separate(runs[r], runs[q]))
    && (forall p :: 0 <= p < |space| && space[p] != w.into ==> space[p] == w.space[p])
    && (forall p :: 0 <= p < |space| && (w.space[p] == w.from || w.space[p] == NURSERY) ==> space[p] == w.space[p])
  }

  /** A page left with room has a filler after its last copy. */
  ghost predicate FillerOk(mem: seq<nat>, copies: seq<Copy>, r: Run) {
    var e := EndOf(copies, r);
    var page := PAGE_WORDS * (r.page + 1);
    r.pages == 1 && e < page ==> e < |mem| && page - e <= MAX_WORDS && mem[e] == MakeHeader(page - e, RAW)
  }

  /** The frontier is at the end of the last run, and fillers end the others. */
  ghost predicate FrontierOk(mem: seq<nat>, copies: seq<Copy>, runs: seq<Run>, freep: nat, freewords: nat) {
    && (forall r :: 0 <= r < |runs| - 1 ==> FillerOk(mem, copies, runs[r]))
    && (runs == [] ==> freewords == 0)
    && (runs != [] ==>
          var l := runs[|runs| - 1];
          freep == EndOf(copies, l) && if l.pages == 1 then freep + freewords == PAGE_WORDS * (l.page + 1)
            else freewords == 0)
  }

  /** Everything that holds between two moves. */
  ghost predicate Inv(w: Old, mem: seq<nat>, space: seq<nat>, last: nat, freep: nat, freewords: nat, m: Made) {
    && OldOk(w) && FromOk(w, mem, m.fwd) && FwdOk(w, m.fwd, m.copies) && CopiesOk(w, mem, m)
    && RunsOk(m.copies, m.runs) && PagesOk(w, space, last, m.runs) &&
      FrontierOk(mem, m.copies, m.runs, freep, freewords)
  }

  // ----- growing -----

  /** What later states keep of earlier ones. */
  ghost predicate Grown(m: Made, m': Made) {
    && |m.copies| <= |m'.copies| && m'.copies[..|m.copies|] == m.copies
    && |m.scanned| == |m.copies| && |m'.scanned| == |m'.copies| &&
      (forall k :: 0 <= k < |m.scanned| ==> m.scanned[k] <= m'.scanned[k])
    && |m.runs| <= |m'.runs|
    && (forall r :: 0 <= r < |m.runs| ==>
          m'.runs[r].page == m.runs[r].page && m'.runs[r].pages == m.runs[r].pages &&
            m'.runs[r].start == m.runs[r].start &&
          m.runs[r].end <= m'.runs[r].end && (r < |m.runs| - 1 ==> m'.runs[r] == m.runs[r]))
    && (forall h :: h in m.fwd ==> h in m'.fwd && m'.fwd[h] == m.fwd[h])
  }

  lemma GrownSelf(m: Made)
    requires |m.scanned| == |m.copies|
    ensures Grown(m, m)
  {
  }

  lemma GrownThen(a: Made, b: Made, c: Made)
    requires Grown(a, b) && Grown(b, c)
    ensures Grown(a, c)
  {
    assert c.copies[..|a.copies|] == c.copies[..|b.copies|][..|a.copies|];
  }

  // ----- reachability -----

  /** A set of old objects with everything that its members point to. */
  ghost predicate ClosedSet(w: Old, s: set<nat>) {
    forall h, i ::
      h in s && h in w.objects && InMemory(w, h) && 0 <= i < Words(w, h) - 1 && IsSlot(w, h, i) &&
      IsObject(w, Cell(w, h, i)) ==>
        ObjectOf(Cell(w, h, i)) in s
  }

  /** In every closed set that holds what the roots point to. */
  ghost predicate Reachable(w: Old, roots: set<nat>, h: nat) {
    forall s: set<nat> :: ClosedSet(w, s) && (forall v :: v in roots && IsObject(w, v) ==> ObjectOf(v) in s) ==> h in s
  }

  ghost predicate OnlyReachable(w: Old, roots: set<nat>, fwd: map<nat, nat>) {
    forall h :: h in fwd ==> Reachable(w, roots, h)
  }

  lemma ReachableRoot(w: Old, roots: set<nat>, v: nat)
    requires v in roots && IsObject(w, v)
    ensures Reachable(w, roots, ObjectOf(v))
  {
  }

  lemma ReachableSlot(w: Old, roots: set<nat>, h: nat, i: nat)
    requires Reachable(w, roots, h) && h in w.objects && InMemory(w, h) && i < Words(w, h) - 1 && IsSlot(w, h, i) &&
      IsObject(w, Cell(w, h, i))
    ensures Reachable(w, roots, ObjectOf(Cell(w, h, i)))
  {
  }
}
