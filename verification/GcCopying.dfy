/** Copying one object keeps the invariant, and so does rewriting one pointer of a copy. */
module GcCopying {
  import opened GcWords
  import opened GcSpec
  import opened GcLayout

  // ----- one more copy -----

  lemma ImageGrown(w: Old, fwd: map<nat, nat>, h: nat, d: nat, v: nat)
    requires h !in fwd && Settled(w, fwd, v)
    ensures Settled(w, fwd[h := d], v) && Image(w, fwd[h := d], v) == Image(w, fwd, v)
  {
  }

  /** A copy stays good when its own words stay and another object is forwarded. */
  lemma CopyKept(w: Old, mem: seq<nat>, fwd: map<nat, nat>, c: Copy, s: nat, mem': seq<nat>, h: nat, d: nat)
    requires CopyOk(w, mem, fwd, c, s) && h !in fwd && |mem'| == |mem|
    requires forall i :: c.dst <= i < c.dst + c.words ==> mem'[i] == mem[i]
    ensures CopyOk(w, mem', fwd[h := d], c, s)
  {
    var fwd' := fwd[h := d];
    forall i | 0 <= i < c.words - 1 ensures CellOk(w, mem', fwd', c, s, i) {
      assert CellOk(w, mem, fwd, c, s, i);
      if i < s && IsSlot(w, c.src, i) { ImageGrown(w, fwd, h, d, Cell(w, c.src, i)); }
    }
  }

  /** The memory after copying n words from h to d, and leaving the forwarding address. */
  ghost predicate Moved(mem: seq<nat>, mem': seq<nat>, h: nat, d: nat, n: nat) {
    && |mem'| == |mem| && 1 <= n && h + n <= |mem| && d + n <= |mem| && (h + n <= d || d + n <= h)
    && mem'[d..d + n] == mem[h..h + n]
    && mem'[h] == BodyAddress(d)
    && forall i :: 0 <= i < |mem| && i != h && !(d <= i < d + n) ==> mem'[i] == mem[i]
  }

  lemma MovedBody(w: Old, mem: seq<nat>, h: nat, d: nat, mem': seq<nat>, k: nat)
    requires OldOk(w) && h in w.objects && k in w.objects && Moved(mem, mem', h, d, Words(w, h)) && |mem| == |w.mem|
    requires k + Words(w, k) <= d || d + Words(w, h) <= k
    ensures InMemory(w, k) && mem'[k + 1..k + Words(w, k)] == mem[k + 1..k + Words(w, k)]
    ensures k != h ==> mem'[k] == mem[k]
  {
    if k != h { assert k + Words(w, k) <= h || h + Words(w, h) <= k; }
  }

  lemma MovedFrom(w: Old, mem: seq<nat>, fwd: map<nat, nat>, h: nat, d: nat, mem': seq<nat>)
    requires OldOk(w) && FromOk(w, mem, fwd) && h in w.objects && h !in fwd && Moved(mem, mem', h, d, Words(w, h))
    requires forall k :: k in w.objects ==> k + Words(w, k) <= d || d + Words(w, h) <= k
    ensures FromOk(w, mem', fwd[h := d])
  {
    forall k | k in w.objects && InMemory(w, k)
      ensures mem'[k] == (if k in fwd[h := d] then BodyAddress(fwd[h := d][k]) else w.mem[k])
      ensures BodyKept(w, mem', k)
    {
      assert BodyKept(w, mem, k);
      MovedBody(w, mem, h, d, mem', k);
    }
  }

  /** The new copy is the old object, word by word. */
  lemma NewCopyOk(w: Old, mem: seq<nat>, fwd: map<nat, nat>, h: nat, d: nat, mem': seq<nat>)
    requires OldOk(w) && FromOk(w, mem, fwd) && h in w.objects && h !in fwd && Moved(mem, mem', h, d, Words(w, h))
    ensures CopyOk(w, mem', fwd[h := d], Copy(h, d, Words(w, h)), 0)
  {
    var n := Words(w, h);
    assert InMemory(w, h) && BodyKept(w, mem, h);
    assert mem'[d] == mem'[d..d + n][0] == mem[h..h + n][0] == mem[h];
    var fwd', c := fwd[h := d], Copy(h, d, n);
    forall i | 0 <= i < n - 1 ensures CellOk(w, mem', fwd', c, 0, i) {
      assert mem'[d + 1 + i] == mem'[d..d + n][1 + i] == mem[h..h + n][1 + i] == mem[h + 1 + i];
      assert mem[h + 1 + i] == mem[h + 1..h + n][i] == Cell(w, h, i);
    }
  }

  lemma FwdPlus(w: Old, fwd: map<nat, nat>, copies: seq<Copy>, h: nat, d: nat)
    requires FwdOk(w, fwd, copies) && h in w.objects && h !in fwd
    ensures FwdOk(w, fwd[h := d], copies + [Copy(h, d, Words(w, h))])
  {
    var fwd', copies' := fwd[h := d], copies + [Copy(h, d, Words(w, h))];
    forall k | 0 <= k < |copies'|
      ensures copies'[k].src in w.objects && copies'[k].src in fwd' && fwd'[copies'[k].src] == copies'[k].dst
      ensures copies'[k].words == Words(w, copies'[k].src)
    {
      if k < |copies| { assert copies'[k] == copies[k]; }
    }
    forall g | g in fwd' ensures g in w.objects && exists k :: 0 <= k < |copies'| && copies'[k].src == g {
      if g == h {
        assert copies'[|copies|].src == h;
      } else {
        var k :| 0 <= k < |copies| && copies[k].src == g;
        assert copies'[k].src == g;
      }
    }
  }

  function WithCopy(m: Made, runs: seq<Run>, c: Copy): Made {
    Made(m.copies + [c], runs, m.fwd[c.src := c.dst], m.scanned + [0])
  }

  lemma CopiesPlus(w: Old, mem: seq<nat>, m: Made, h: nat, d: nat, mem': seq<nat>, runs: seq<Run>)
    requires OldOk(w) && FromOk(w, mem, m.fwd) && CopiesOk(w, mem, m) && h in w.objects && h !in m.fwd
    requires Moved(mem, mem', h, d, Words(w, h))
    requires forall k :: 0 <= k < |m.copies| ==>
      ApartFrom(m.copies[k], d, d + Words(w, h)) && ApartFrom(m.copies[k], h, h + 1)
    ensures CopiesOk(w, mem', WithCopy(m, runs, Copy(h, d, Words(w, h))))
  {
    var m' := WithCopy(m, runs, Copy(h, d, Words(w, h)));
    NewCopyOk(w, mem, m.fwd, h, d, mem');
    forall k | 0 <= k < |m.copies| ensures CopyOk(w, mem', m'.fwd, m'.copies[k], m'.scanned[k]) {
      assert CopyOk(w, mem, m.fwd, m.copies[k], m.scanned[k]);
      assert ApartFrom(m.copies[k], d, d + Words(w, h)) && ApartFrom(m.copies[k], h, h + 1);
      CopyKept(w, mem, m.fwd, m.copies[k], m.scanned[k], mem', h, d);
    }
  }

  /** The invariant of the contents is kept by changes to unused words. */
  lemma ContentsKept(w: Old, mem: seq<nat>, m: Made, mem': seq<nat>)
    requires OldOk(w) && FromOk(w, mem, m.fwd) && CopiesOk(w, mem, m) && KeepsUsed(w, m.copies, mem, mem')
    ensures FromOk(w, mem', m.fwd) && CopiesOk(w, mem', m)
  {
    forall h | h in w.objects && InMemory(w, h) ensures mem'[h] == mem[h] && BodyKept(w, mem', h) {
      assert BodyKept(w, mem, h);
      assert mem'[h + 1..h + Words(w, h)] == mem[h + 1..h + Words(w, h)];
    }
    forall k | 0 <= k < |m.copies| ensures CopyOk(w, mem', m.fwd, m.copies[k], m.scanned[k]) {
      var c, s := m.copies[k], m.scanned[k];
      assert CopyOk(w, mem, m.fwd, c, s);
      forall i | 0 <= i < c.words - 1 ensures CellOk(w, mem', m.fwd, c, s, i) { assert CellOk(w, mem, m.fwd, c, s, i); }
    }
  }

  // ----- one pointer rewritten -----

  lemma {:induction false} DistinctCopies(copies: seq<Copy>, runs: seq<Run>, w: Old, space: seq<nat>, last: nat,
                                          k: nat, l: nat)
    requires RunsOk(copies, runs) && PagesOk(w, space, last, runs) && k < l < |copies|
    ensures ApartFrom(copies[k], copies[l].dst, copies[l].dst + copies[l].words)
  {
    var r := CopyOnPages(copies, runs, k);
    var q := CopyOnPages(copies, runs, l);
    if r == q {
      RunOrder(copies, runs[r], k, l);
    } else if r < q {
      assert Separate(runs[r], runs[q]);
    } else {
      assert Separate(runs[q], runs[r]);
    }
  }

  /** Scanning on to i when no word before it is a pointer. */
  lemma SkipTo(w: Old, mem: seq<nat>, fwd: map<nat, nat>, c: Copy, s: nat, i: nat)
    requires CopyOk(w, mem, fwd, c, s) && s <= i < c.words && forall j :: s <= j < i ==> !IsSlot(w, c.src, j)
    ensures CopyOk(w, mem, fwd, c, i)
  {
    forall j | 0 <= j < c.words - 1 ensures CellOk(w, mem, fwd, c, i, j) { assert CellOk(w, mem, fwd, c, s, j); }
  }

  /** Writing the image of pointer i of a copy scanned up to i. */
  lemma Rewritten(w: Old, mem: seq<nat>, fwd: map<nat, nat>, c: Copy, s: nat, i: nat)
    requires CopyOk(w, mem, fwd, c, s) && i < c.words - 1 && IsSlot(w, c.src, i) && i <= s &&
      Settled(w, fwd, Cell(w, c.src, i))
    ensures var mem' := mem[c.dst + 1 + i := Image(w, fwd, Cell(w, c.src, i))];
      CopyOk(w, mem', fwd, c, if s == i then i + 1 else s)
  {
    hide IsSlot, Image, Settled;
    var mem' := mem[c.dst + 1 + i := Image(w, fwd, Cell(w, c.src, i))];
    var s' := if s == i then i + 1 else s;
    forall j | 0 <= j < c.words - 1 ensures CellOk(w, mem', fwd, c, s', j) { assert CellOk(w, mem, fwd, c, s, j); }
  }

  /** The filler of a run is in no copy. */
  lemma FillerApart(w: Old, space: seq<nat>, last: nat, copies: seq<Copy>, runs: seq<Run>, r: nat, k: nat)
    requires RunsOk(copies, runs) && PagesOk(w, space, last, runs) && r < |runs| && k < |copies|
    requires runs[r].pages == 1 && EndOf(copies, runs[r]) < PAGE_WORDS * (runs[r].page + 1)
    ensures ApartFrom(copies[k], EndOf(copies, runs[r]), EndOf(copies, runs[r]) + 1)
  {
    var q := CopyOnPages(copies, runs, k);
    assert RunOk(copies, runs[r]);
    var e := EndOf(copies, runs[r]);
    assert PAGE_WORDS * runs[r].page <= e;
    if q == r {
      RunOrder(copies, runs[r], k, k);
    } else if q < r {
      assert Separate(runs[q], runs[r]);
    } else {
      assert Separate(runs[r], runs[q]);
    }
  }

  /** Rewriting a word of a copy leaves the fillers and the frontier. */
  lemma FrontierKept(w: Old, mem: seq<nat>, space: seq<nat>, last: nat, copies: seq<Copy>, runs: seq<Run>,
                     freep: nat, freewords: nat,
                     k: nat, i: nat, v: nat)
    requires LayoutOk(w, mem, space, last, copies, runs, freep, freewords) && k < |copies| &&
      copies[k].dst <= i < copies[k].dst + copies[k].words
    requires i < |mem|
    ensures LayoutOk(w, mem[i := v], space, last, copies, runs, freep, freewords)
  {
    forall r | 0 <= r < |runs| - 1 ensures FillerOk(mem[i := v], copies, runs[r]) {
      assert FillerOk(mem, copies, runs[r]);
      if runs[r].pages == 1 && EndOf(copies, runs[r]) < PAGE_WORDS * (runs[r].page + 1) {
        FillerApart(w, space, last, copies, runs, r, k);
      }
    }
  }

  /** A copy is not where an old object is. */
  lemma CopyNotOld(w: Old, space: seq<nat>, last: nat, copies: seq<Copy>, runs: seq<Run>, k: nat, h: nat)
    requires OldOk(w) && RunsOk(copies, runs) && PagesOk(w, space, last, runs) && k < |copies| && h in w.objects
    ensures ApartFrom(copies[k], h, h + Words(w, h))
  {
    var r := CopyOnPages(copies, runs, k);
    var lo, hi := copies[k].dst, copies[k].dst + copies[k].words;
    var page, pages := runs[r].page, runs[r].pages;
    TagOfRun(w, space, last, runs, r, page);
    TagOfRun(w, space, last, runs, r, page + pages - 1);
    forall p | lo / PAGE_WORDS <= p <= (hi - 1) / PAGE_WORDS && p < |space| ensures w.space[p] != w.from {
      TagOfRun(w, space, last, runs, r, p);
    }
    FreeOfOld(w, space, last, runs, lo, hi, h);
  }

  lemma FromWritten(w: Old, mem: seq<nat>, fwd: map<nat, nat>, i: nat, v: nat)
    requires FromOk(w, mem, fwd) && i < |mem| && forall h :: h in w.objects ==> i < h || h + Words(w, h) <= i
    ensures FromOk(w, mem[i := v], fwd)
  {
    forall h | h in w.objects && InMemory(w, h) ensures mem[i := v][h] == mem[h] && BodyKept(w, mem[i := v], h) {
      assert i < h || h + Words(w, h) <= i;
      assert BodyKept(w, mem, h);
      assert mem[i := v][h + 1..h + Words(w, h)] == mem[h + 1..h + Words(w, h)];
    }
  }

  /** A word of a copy rewritten so that the copy stays good keeps everything. */
  lemma CopyWritten(w: Old, mem: seq<nat>, space: seq<nat>, last: nat, freep: nat, freewords: nat, m: Made, k: nat,
                    i: nat, v: nat, s: nat)
    requires Inv(w, mem, space, last, freep, freewords, m) && k < |m.copies|
    requires m.copies[k].dst <= i < m.copies[k].dst + m.copies[k].words && i < |mem|
    requires CopyOk(w, mem[i := v], m.fwd, m.copies[k], s)
    ensures Inv(w, mem[i := v], space, last, freep, freewords, m.(scanned := m.scanned[k := s]))
  {
    hide OldOk, FromOk, FwdOk, CopyOk, RunsOk, PagesOk, FrontierOk;
    FromSize(w, mem, m.fwd);
    FrontierKept(w, mem, space, last, m.copies, m.runs, freep, freewords, k, i, v);
    forall h | h in w.objects ensures i < h || h + Words(w, h) <= i {
      CopyNotOld(w, space, last, m.copies, m.runs, k, h);
    }
    FromWritten(w, mem, m.fwd, i, v);
    forall l | 0 <= l < |m.copies| && l != k ensures CopyOk(w, mem[i := v], m.fwd, m.copies[l], m.scanned[l]) {
      assert CopyOk(w, mem, m.fwd, m.copies[l], m.scanned[l]);
      if l < k {
        DistinctCopies(m.copies, m.runs, w, space, last, l, k);
      } else {
        DistinctCopies(m.copies, m.runs, w, space, last, k, l);
      }
      assert forall j :: m.copies[l].dst <= j < m.copies[l].dst + m.copies[l].words && j < |mem| ==>
        mem[i := v][j] == mem[j];
      CopySame(w, mem, m.fwd, m.copies[l], m.scanned[l], mem[i := v]);
    }
  }

  lemma FromSize(w: Old, mem: seq<nat>, fwd: map<nat, nat>)
    requires FromOk(w, mem, fwd)
    ensures |mem| == |w.mem|
  {
  }

  lemma CopySame(w: Old, mem: seq<nat>, fwd: map<nat, nat>, c: Copy, s: nat, mem': seq<nat>)
    requires CopyOk(w, mem, fwd, c, s) && |mem'| == |mem|
    requires forall i :: c.dst <= i < c.dst + c.words && i < |mem| ==> mem'[i] == mem[i]
    ensures CopyOk(w, mem', fwd, c, s)
  {
    forall i | 0 <= i < c.words - 1 ensures CellOk(w, mem', fwd, c, s, i) { assert CellOk(w, mem, fwd, c, s, i); }
  }

  // ----- pointers -----

  /** A pointer to a copy. */
  ghost predicate ToCopy(m: Made, v: nat) {
    exists k :: 0 <= k < |m.copies| && v == BodyAddress(m.copies[k].dst)
  }

  /** A pointer to a copy is on a page of the new space, and is no pointer to an old object. */
  lemma ToCopyPage(w: Old, space: seq<nat>, last: nat, m: Made, v: nat)
    requires OldOk(w) && RunsOk(m.copies, m.runs) && PagesOk(w, space, last, m.runs) && ToCopy(m, v)
    ensures w.first <= PageOf(v) <= last && PageOf(v) < |space| && space[PageOf(v)] == w.into && v > 0
    ensures !IsObject(w, v)
  {
    var k :| 0 <= k < |m.copies| && v == BodyAddress(m.copies[k].dst);
    var r := CopyOnPages(m.copies, m.runs, k);
    AddressPage(m.copies[k].dst);
    TagOfRun(w, space, last, m.runs, r, PageOf(v));
    if IsObject(w, v) {
      CopyNotOld(w, space, last, m.copies, m.runs, k, ObjectOf(v));
    }
  }

  /** A pointer to an old object is on a page of the old space. */
  lemma ObjectPage(w: Old, space: seq<nat>, last: nat, runs: seq<Run>, v: nat)
    requires OldOk(w) && PagesOk(w, space, last, runs) && IsObject(w, v)
    ensures w.first <= PageOf(v) <= last && space[PageOf(v)] == w.from && v == BodyAddress(ObjectOf(v)) &&
      !InNursery(w, PageOf(v))
  {
    var h := ObjectOf(v);
    assert InMemory(w, h);
    AddressPage(h);
    TagOfOld(w, h, PageOf(v));
  }

  /** Once settled, a pointer's image does not change, and is a pointer to a copy or outside. */
  lemma ImageKept(w: Old, m: Made, m': Made, v: nat)
    requires Grown(m, m') && FwdOk(w, m.fwd, m.copies) && PointerOk(w, v) && Settled(w, m.fwd, v)
    ensures Settled(w, m'.fwd, v) && Image(w, m'.fwd, v) == Image(w, m.fwd, v)
    ensures ToCopy(m, Image(w, m.fwd, v)) || (Image(w, m.fwd, v) == v && Outside(w, v))
  {
    if IsObject(w, v) {
      var h := ObjectOf(v);
      var k :| 0 <= k < |m.copies| && m.copies[k].src == h;
      assert m.copies[k].dst == m.fwd[h];
    }
  }

  // ----- an object is copied -----

  /** How a new copy changes the runs. */
  ghost predicate RunsGrew(runs: seq<Run>, runs': seq<Run>, n: nat) {
    || (runs != [] && runs' == runs[|runs| - 1 := runs[|runs| - 1].(end := n + 1)])
    || (|runs'| == |runs| + 1 && runs'[..|runs|] == runs && runs'[|runs|].start == n && runs'[|runs|].end == n + 1)
  }

  lemma WithCopyGrown(w: Old, m: Made, runs: seq<Run>, c: Copy)
    requires RunsOk(m.copies, m.runs) && RunsGrew(m.runs, runs, |m.copies|) && |m.scanned| == |m.copies| &&
      c.src !in m.fwd
    ensures Grown(m, WithCopy(m, runs, c))
  {
    if m.runs != [] { RunsEnd(m.copies, m.runs, |m.runs| - 1); }
    hide RunsOk;
    RunsKept(m.runs, runs, |m.copies|);
    assert (m.copies + [c])[..|m.copies|] == m.copies;
  }

  lemma RunsKept(runs: seq<Run>, runs': seq<Run>, n: nat)
    requires RunsGrew(runs, runs', n) && (runs != [] ==> runs[|runs| - 1].end <= n)
    ensures |runs| <= |runs'|
    ensures forall r :: 0 <= r < |runs| ==>
      runs'[r].page == runs[r].page && runs'[r].pages == runs[r].pages && runs'[r].start == runs[r].start &&
      runs[r].end <= runs'[r].end && (r < |runs| - 1 ==> runs'[r] == runs[r])
  {
    if |runs'| == |runs| + 1 && runs'[..|runs|] == runs {
      forall r | 0 <= r < |runs| ensures runs'[r] == runs[r] { assert runs'[..|runs|][r] == runs'[r]; }
    }
  }

  /** The forwarding address is written in an old object: the layout stays. */
  lemma LayoutForwarded(w: Old, mem: seq<nat>, space: seq<nat>, last: nat, copies: seq<Copy>, runs: seq<Run>,
                        freep: nat, freewords: nat,
                        h: nat, v: nat)
    requires LayoutOk(w, mem, space, last, copies, runs, freep, freewords) && h in w.objects && h < |mem|
    ensures LayoutOk(w, mem[h := v], space, last, copies, runs, freep, freewords)
  {
    hide RunsOk;
    forall r | 0 <= r < |runs| - 1 ensures FillerOk(mem[h := v], copies, runs[r]) {
      assert FillerOk(mem, copies, runs[r]);
      FillerNotOld(w, space, last, copies, runs, r, h);
    }
  }

  lemma FillerNotOld(w: Old, space: seq<nat>, last: nat, copies: seq<Copy>, runs: seq<Run>, r: nat, h: nat)
    requires OldOk(w) && RunsOk(copies, runs) && PagesOk(w, space, last, runs) && r < |runs| && h in w.objects
    ensures runs[r].pages == 1 && EndOf(copies, runs[r]) < PAGE_WORDS * (runs[r].page + 1) ==>
      EndOf(copies, runs[r]) != h
  {
    assert RunOk(copies, runs[r]);
    var e := EndOf(copies, runs[r]);
    assert PAGE_WORDS * runs[r].page <= e;
    if runs[r].pages == 1 && e < PAGE_WORDS * (runs[r].page + 1) {
      assert e / PAGE_WORDS == runs[r].page;
      TagOfRun(w, space, last, runs, r, runs[r].page);
      assert InMemory(w, h);
      FreeOfOld(w, space, last, runs, e, e + 1, h);
    }
  }

  /** The words of an object are copied to its new place: the layout stays. */
  lemma LayoutFilled(w: Old, mem: seq<nat>, space: seq<nat>, last: nat, copies: seq<Copy>, runs: seq<Run>,
                     freep: nat, freewords: nat,
                     k: nat, mem': seq<nat>)
    requires LayoutOk(w, mem, space, last, copies, runs, freep, freewords) && k < |copies|
    requires Agree(mem, mem', copies[k].dst, copies[k].dst + copies[k].words)
    ensures LayoutOk(w, mem', space, last, copies, runs, freep, freewords)
  {
    forall r | 0 <= r < |runs| - 1 ensures FillerOk(mem', copies, runs[r]) {
      assert FillerOk(mem, copies, runs[r]);
      if runs[r].pages == 1 && EndOf(copies, runs[r]) < PAGE_WORDS * (runs[r].page + 1) {
        FillerApart(w, space, last, copies, runs, r, k);
      }
    }
  }

  /** All steps of a move together. */
  lemma MoveKeeps(w: Old, mem0: seq<nat>, m: Made, mem1: seq<nat>, mem2: seq<nat>, space: seq<nat>, last: nat,
                  freep: nat, freewords: nat,
                  runs: seq<Run>, h: nat, d: nat)
    requires OldOk(w) && FromOk(w, mem0, m.fwd) && FwdOk(w, m.fwd, m.copies) && CopiesOk(w, mem0, m) &&
      h in w.objects && h !in m.fwd
    requires LayoutOk(w, mem1, space, last, m.copies + [Copy(h, d, Words(w, h))], runs, freep, freewords)
    requires KeepsUsed(w, m.copies, mem0, mem1) && Unused(w, m.copies, d, d + Words(w, h)) && d + Words(w, h) <= |mem1|
    requires 1 <= Words(w, h) && h + Words(w, h) <= |mem1| && Agree(mem1, mem2, d, d + Words(w, h)) &&
      mem2[d..d + Words(w, h)] == mem1[h..h + Words(w, h)]
    requires forall k :: 0 <= k < |m.copies| ==> ApartFrom(m.copies[k], h, h + Words(w, h))
    ensures Inv(w, mem2[h := BodyAddress(d)], space, last, freep, freewords, WithCopy(m, runs, Copy(h, d, Words(w, h))))
  {
    hide OldOk, FromOk, FwdOk, CopiesOk, RunsOk, PagesOk, FrontierOk, KeepsUsed, Unused;
    var c := Copy(h, d, Words(w, h));
    var mem3 := mem2[h := BodyAddress(d)];
    ObjectSize(w, h);
    UnusedIs(w, m.copies, d, d + Words(w, h));
    ContentsKept(w, mem0, m, mem1);
    assert (m.copies + [c])[|m.copies|] == c;
    LayoutFilled(w, mem1, space, last, m.copies + [c], runs, freep, freewords, |m.copies|, mem2);
    LayoutForwarded(w, mem2, space, last, m.copies + [c], runs, freep, freewords, h, BodyAddress(d));
    assert Moved(mem1, mem3, h, d, Words(w, h)) by { MovedIs(mem1, mem2, h, d, Words(w, h)); }
    MovedFrom(w, mem1, m.fwd, h, d, mem3);
    FwdPlus(w, m.fwd, m.copies, h, d);
    CopiesPlus(w, mem1, m, h, d, mem3, runs);
  }

  lemma ObjectSize(w: Old, h: nat)
    requires OldOk(w) && h in w.objects
    ensures InMemory(w, h) && !Forwarded(w.mem[h]) && Type(w, h) <= CALLFRAME_ARRAY && Words(w, h) <= MAX_WORDS &&
      OnPages(w, h)
    ensures 2 <= Words(w, h) && h + Words(w, h) <= |w.mem|
  {
  }

  lemma UnusedIs(w: Old, copies: seq<Copy>, lo: nat, hi: nat)
    requires Unused(w, copies, lo, hi)
    ensures forall k :: 0 <= k < |copies| ==> ApartFrom(copies[k], lo, hi)
    ensures forall h :: h in w.objects ==> h + Words(w, h) <= lo || hi <= h
  {
  }

  lemma MovedIs(mem1: seq<nat>, mem2: seq<nat>, h: nat, d: nat, n: nat)
    requires 1 <= n && h + n <= |mem1| && d + n <= |mem1| && (h + n <= d || d + n <= h)
    requires Agree(mem1, mem2, d, d + n) && mem2[d..d + n] == mem1[h..h + n]
    ensures Moved(mem1, mem2[h := BodyAddress(d)], h, d, n)
  {
    assert mem2[h := BodyAddress(d)][d..d + n] == mem2[d..d + n];
  }
}
