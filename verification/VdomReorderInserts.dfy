/** After the old children of a reordered element are patched: inserting at indices, and
    appending the fragment. */
module VdomReorderInserts {
  import opened Wrappers
  import opened VdomNodes
  import opened VdomKeyedPlan
  import opened VdomDiff
  import opened VdomDocument
  import opened VdomPatching
  import opened VdomSteps
  import opened VdomRendering
  import opened VdomActions
  import opened VdomReorder
  import opened VdomReorderEnds

  // ----- pairs -----

  function Firsts<A, B>(s: seq<(A, B)>): (r: seq<A>)
    ensures |r| == |s| && forall i :: 0 <= i < |s| ==> r[i] == s[i].0
  {
    seq(|s|, i requires 0 <= i < |s| => s[i].0)
  }

  function Seconds<A, B>(s: seq<(A, B)>): (r: seq<B>)
    ensures |r| == |s| && forall i :: 0 <= i < |s| ==> r[i] == s[i].1
  {
    seq(|s|, i requires 0 <= i < |s| => s[i].1)
  }

  lemma InsertAtPairs<A, B>(s: seq<(A, B)>, j: nat, a: A, b: B)
    ensures Firsts(InsertAt(s, j, (a, b))) == InsertAt(Firsts(s), j, a)
    ensures Seconds(InsertAt(s, j, (a, b))) == InsertAt(Seconds(s), j, b)
    ensures forall x :: x in InsertAt(s, j, (a, b)) <==> x in s || x == (a, b)
  {
    if j < |s| {
      assert s == s[..j] + s[j..];
    }
  }

  lemma PutAt<T>(s: seq<T>, j: nat, v: T)
    ensures Put(s, if j < |s| then j else |s|, v) == InsertAt(s, j, v)
  {
    PutEnd(s, v);
  }

  lemma PutRefs(t: Tree, i: nat, k: Tree)
    requires t.ElementTree? && i <= |t.kids|
    ensures Refs(t.(kids := Put(t.kids, i, k))) == Refs(t) + Refs(k)
  {
    var u := t.(kids := Put(t.kids, i, k));
    hide Put;
    forall r ensures r in Refs(u) <==> r in Refs(t) || r in Refs(k) {
      if r != t.ref && r in Refs(u) {
        var q :| 0 <= q < |u.kids| && r in Refs(u.kids[q]);
        assert q == i || u.kids[q] == t.kids[if q < i then q else q - 1];
      }
      if r != t.ref && r in Refs(t) {
        var q :| 0 <= q < |t.kids| && r in Refs(t.kids[q]);
        assert u.kids[if q < i then q else q + 1] == t.kids[q];
      }
      assert u.kids[i] == k;
    }
  }

  // ----- what holds between two inserts -----

  /** A child of the element and the new child it stands for: an old one patched towards it, or
      one drawn from it. */
  ghost predicate Fit(c: (Tree, nat), p: Plan, cur: seq<Tree>, news: seq<VNode>) {
    c.1 < |news| &&
    (See(c.0) == Draw(news[c.1]) || exists a :: 0 <= a < |cur| && Target(p, a) == Some(c.1) && cur[a] == c.0)
  }

  /** A moved child that has not been inserted yet. */
  ghost predicate Waiting(d: Doc, main: Tree, f: Forest, p: Plan, e: nat) {
    e < |p.owners| && p.owners[e].Moved? ==> p.owners[e].a < |f.cur| && Loose(d, main, f, p, f.cur[p.owners[e].a])
  }

  ghost predicate Loose(d: Doc, main: Tree, f: Forest, p: Plan, c: Tree) {
    Outside(d, c) && Refs(c) !! Refs(main) && (p.ends != [] ==> Refs(c) !! Refs(f.frag))
  }

  /** Which children the element has after i inserts. */
  ghost predicate PlacedSoFar(main: Tree, placed: seq<(Tree, nat)>, f: Forest, p: Plan, news: seq<VNode>, i: nat) {
    && main.ElementTree? && i <= |p.inserts| && main.kids == Firsts(placed) && Seconds(placed) == Filled(p, i)
    && (forall c :: c in placed ==> Fit(c, p, f.cur, news))
    && (forall a :: 0 <= a < |p.fates| && p.fates[a].Keep? ==> a < |f.cur| && (f.cur[a], p.fates[a].j) in placed)
    && (forall k :: 0 <= k < i && p.inserts[k] < |p.owners| && p.owners[p.inserts[k]].Moved? ==>
          p.owners[p.inserts[k]].a < |f.cur| && (f.cur[p.owners[p.inserts[k]].a], p.owners[p.inserts[k]].j) in placed)
  }

  /** The document after i indexed inserts. */
  ghost predicate Inserting(d: Doc, main: Tree, f: Forest, p: Plan, i: nat) {
    && Valid(d) && Holds(d, main) && main.ElementTree? && i <= |p.inserts| && Apart(f.cur)
    && (p.ends != [] ==> Outside(d, f.frag) && Refs(main) !! Refs(f.frag))
    && (forall k :: i <= k < |p.inserts| ==> Waiting(d, main, f, p, p.inserts[k]))
  }

  lemma InsertEntry(p: Plan, entries: seq<Entry>, news: seq<VNode>, k: nat)
    requires Good(p) && k < |p.inserts| && EntriesFor(entries, p, news)
    ensures p.inserts[k] < |p.owners| && InsertsOf(p)[k] == Insert(Some(p.owners[p.inserts[k]].j), p.inserts[k])
    ensures var o := p.owners[p.inserts[k]];
      && o.HasNew() && !o.atEnd && o.j < |news| && NewOf(p, p.inserts[k]) == o.j
      && (o.Inserted? ==> entries[p.inserts[k]].tag == INSERT && entries[p.inserts[k]].node == news[o.j])
      && (o.Moved? ==> entries[p.inserts[k]].tag == MOVE && o.a < |p.fates| && Target(p, o.a) == Some(o.j))
    ensures |entries| == |p.owners|
  {
    hide Filled, EndsMatch;
  }

  lemma InsertsApart(p: Plan, k: nat, l: nat)
    requires Good(p) && k < |p.inserts| && l < |p.inserts| && k != l
    requires p.owners[p.inserts[k]].Moved? && p.owners[p.inserts[l]].Moved?
    ensures p.owners[p.inserts[k]].a != p.owners[p.inserts[l]].a
  {
    hide Filled, EndsMatch;
  }

  lemma PlacedNext(main: Tree, placed: seq<(Tree, nat)>, f: Forest, p: Plan, news: seq<VNode>, i: nat, c: Tree, j: nat)
    requires PlacedSoFar(main, placed, f, p, news, i) && i < |p.inserts| && j == NewOf(p, p.inserts[i])
    requires Fit((c, j), p, f.cur, news)
    requires p.inserts[i] < |p.owners| && p.owners[p.inserts[i]].Moved? ==>
      p.owners[p.inserts[i]].a < |f.cur| && f.cur[p.owners[p.inserts[i]].a] == c && p.owners[p.inserts[i]].j == j
    ensures var pos := if j < |main.kids| then j else |main.kids|;
      PlacedSoFar(main.(kids := Put(main.kids, pos, c)), InsertAt(placed, j, (c, j)), f, p, news, i + 1)
  {
    hide Fit, Put, NewOf;
    InsertAtPairs(placed, j, c, j);
    PutAt(main.kids, j, c);
    hide InsertAt, Firsts, Seconds;
  }

  ghost predicate AwayFrom(f: Forest, p: Plan, e: nat, c: Tree) {
    e < |p.owners| && p.owners[e].Moved? && p.owners[e].a < |f.cur| ==> Refs(c) !! Refs(f.cur[p.owners[e].a])
  }

  /** Inserting a tree that waits outside. */
  lemma InsertWaiting(d: Doc, main: Tree, f: Forest, p: Plan, i: nat, c: Tree, pos: nat)
    requires Good(p) && Inserting(d, main, f, p, i) && i < |p.inserts| && pos <= |main.kids| && Loose(d, main, f, p, c)
    requires forall k :: i < k < |p.inserts| ==> AwayFrom(f, p, p.inserts[k], c)
    ensures var e := InsertBefore(d, main.ref, c.ref, if pos < |main.kids| then Some(main.kids[pos].ref) else None);
      Inserting(e, main.(kids := Put(main.kids, pos, c)), f, p, i + 1) && Only(d, e, {main.ref}, {c.ref})
  {
    hide Good, Put, InsertBefore, Valid, Holds, Apart, Refs, Only;
    var e := InsertBefore(d, main.ref, c.ref, if pos < |main.kids| then Some(main.kids[pos].ref) else None);
    InsertKid(d, main, c, pos);
    PutRefs(main, pos, c);
    RootIn(main);
    RootIn(c);
    if p.ends != [] { KeepOutside(d, e, {main.ref}, {c.ref}, f.frag); }
    forall k | i < k < |p.inserts| ensures Waiting(e, main.(kids := Put(main.kids, pos, c)), f, p, p.inserts[k]) {
      var o := p.inserts[k];
      assert Waiting(d, main, f, p, o) && AwayFrom(f, p, o, c);
      if o < |p.owners| && p.owners[o].Moved? {
        KeepOutside(d, e, {main.ref}, {c.ref}, f.cur[p.owners[o].a]);
      }
    }
  }

  /** A change elsewhere keeps what waits. */
  lemma InsertingFrame(d: Doc, main: Tree, f: Forest, p: Plan, i: nat, e: Doc)
    requires Inserting(d, main, f, p, i) && Only(d, e, {}, {}) && Valid(e)
    ensures Inserting(e, main, f, p, i)
  {
    hide Valid, Holds, Apart, Refs, Only;
    KeepTree(d, e, {}, {}, main);
    if p.ends != [] { KeepOutside(d, e, {}, {}, f.frag); }
    forall k | i <= k < |p.inserts| ensures Waiting(e, main, f, p, p.inserts[k]) {
      var o := p.inserts[k];
      assert Waiting(d, main, f, p, o);
      if o < |p.owners| && p.owners[o].Moved? {
        KeepOutside(d, e, {}, {}, f.cur[p.owners[o].a]);
      }
    }
  }

  lemma OldRefs(d: Doc, main: Tree, f: Forest, p: Plan, i: nat)
    requires Inserting(d, main, f, p, i)
    ensures (forall r :: r in Refs(main) ==> r < d.next) && (p.ends != [] ==> forall r :: r in Refs(f.frag) ==>
      r < d.next)
    ensures forall k :: i <= k < |p.inserts| && p.inserts[k] < |p.owners| && p.owners[p.inserts[k]].Moved? ==>
      p.owners[p.inserts[k]].a < |f.cur| && forall r :: r in Refs(f.cur[p.owners[p.inserts[k]].a]) ==> r < d.next
  {
    hide Valid, Holds, Apart, Refs;
    HoldsBelow(d, main);
    if p.ends != [] { HoldsBelow(d, f.frag); }
    forall k | i <= k < |p.inserts| && p.inserts[k] < |p.owners| && p.owners[p.inserts[k]].Moved?
      ensures p.owners[p.inserts[k]].a < |f.cur| && forall r :: r in Refs(f.cur[p.owners[p.inserts[k]].a]) ==>
        r < d.next
    {
      assert Waiting(d, main, f, p, p.inserts[k]);
      HoldsBelow(d, f.cur[p.owners[p.inserts[k]].a]);
    }
  }

  // ----- the inserts, one by one -----

  ghost predicate Kin(d0: Doc, t: Tree, c: Tree) {
    forall r :: r in Refs(c) ==> r in Refs(t) || d0.next <= r
  }

  /** Everything after i inserts. */
  ghost predicate Midway(d0: Doc, t: Tree, d: Doc, main: Tree, placed: seq<(Tree, nat)>, f: Forest, p: Plan,
                         news: seq<VNode>, i: nat) {
    && Inserting(d, main, f, p, i) && PlacedSoFar(main, placed, f, p, news, i)
    && Since(d0, t, d, Forest(main, f.frag, f.cur)) && Kin(d0, t, main) && t.ref < d0.next
  }

  lemma SinceInsert(d0: Doc, t: Tree, d: Doc, main: Tree, f: Forest, e: Doc, main': Tree, c: Tree)
    requires Since(d0, t, d, Forest(main, f.frag, f.cur)) && t.ref < d0.next && Only(d, e, {main.ref}, {c.ref})
    requires main'.ElementTree? && main' == main.(kids := main'.kids) && Kin(d0, t, c) && c.ref != main.ref
    ensures Since(d0, t, e, Forest(main', f.frag, f.cur))
  {
    hide Only, Refs;
    RootIn(c);
    RootIn(t);
    SinceThen(d0, t, d, Forest(main, f.frag, f.cur), e, Forest(main', f.frag, f.cur), {main.ref}, {c.ref});
  }

  lemma InsertTree(d0: Doc, t: Tree, d: Doc, main: Tree, placed: seq<(Tree, nat)>, f: Forest, p: Plan, news: seq<VNode>,
                   i: nat, c: Tree, j: nat) returns (main': Tree, placed': seq<(Tree, nat)>)
    requires Good(p) && Midway(d0, t, d, main, placed, f, p, news, i) && i < |p.inserts| && j == NewOf(p, p.inserts[i])
    requires Loose(d, main, f, p, c) && Kin(d0, t, c) && Fit((c, j), p, f.cur, news)
    requires forall k :: i < k < |p.inserts| ==> AwayFrom(f, p, p.inserts[k], c)
    requires p.inserts[i] < |p.owners| && p.owners[p.inserts[i]].Moved? ==>
      p.owners[p.inserts[i]].a < |f.cur| && f.cur[p.owners[p.inserts[i]].a] == c && p.owners[p.inserts[i]].j == j
    ensures Midway(d0, t, InsertBefore(d, main.ref, c.ref, ChildAt(d, main.ref, j)), main', placed', f, p, news, i + 1)
    ensures main'.ref == main.ref
  {
    hide Good, PlacedSoFar, Loose, AwayFrom, Since, Only, Fit, InsertBefore, Put, InsertAt, Valid, Holds, Refs,
      NewOf, ChildAt, Inserting, Filled;
    InsertTreeParts(d0, t, d, main, placed, f, p, news, i);
    var pos := if j < |main.kids| then j else |main.kids|;
    ChildIs(d, main);
    main' := main.(kids := Put(main.kids, pos, c));
    placed' := InsertAt(placed, j, (c, j));
    InsertWaiting(d, main, f, p, i, c, pos);
    PlacedNext(main, placed, f, p, news, i, c, j);
    PutRefs(main, pos, c);
    ApartRoot(d, main, f, p, c);
    SinceInsert(d0, t, d, main, f, InsertBefore(d, main.ref, c.ref, ChildAt(d, main.ref, j)), main', c);
  }

  lemma ApartRoot(d: Doc, main: Tree, f: Forest, p: Plan, c: Tree)
    requires Loose(d, main, f, p, c)
    ensures c.ref != main.ref
  {
    RootIn(c);
    RootIn(main);
  }

  lemma InsertTreeParts(d0: Doc, t: Tree, d: Doc, main: Tree, placed: seq<(Tree, nat)>, f: Forest, p: Plan,
                        news: seq<VNode>, i: nat)
    requires Midway(d0, t, d, main, placed, f, p, news, i)
    ensures Valid(d) && Holds(d, main) && main.ElementTree? && |main.kids| == |Filled(p, i)|
    ensures Apart(f.cur)
  {
  }

  lemma InsertOld(d0: Doc, t: Tree, d: Doc, main: Tree, placed: seq<(Tree, nat)>, f: Forest, p: Plan,
                  news: seq<VNode>, i: nat)
    returns (main': Tree, placed': seq<(Tree, nat)>)
    requires Good(p) && Midway(d0, t, d, main, placed, f, p, news, i) && i < |p.inserts|
    requires p.inserts[i] < |p.owners| && p.owners[p.inserts[i]].Moved?
    requires var o := p.owners[p.inserts[i]]; o.j < |news| && o.a < |f.cur| && Target(p, o.a) == Some(o.j)
    ensures var o := p.owners[p.inserts[i]];
      Midway(d0, t, InsertBefore(d, main.ref, f.cur[o.a].ref, ChildAt(d, main.ref, o.j)), main', placed', f, p, news,
        i + 1)
    ensures main'.ref == main.ref
  {
    hide PlacedSoFar, Loose, InsertBefore, Valid, Holds, Refs, ChildAt, Filled, Target;
    var o := p.owners[p.inserts[i]];
    var c := f.cur[o.a];
    assert Waiting(d, main, f, p, p.inserts[i]);
    assert Kin(d0, t, c);
    forall k | i < k < |p.inserts| ensures AwayFrom(f, p, p.inserts[k], c) {
      if p.inserts[k] < |p.owners| && p.owners[p.inserts[k]].Moved? && p.owners[p.inserts[k]].a < |f.cur| {
        InsertsApart(p, i, k);
      }
    }
    assert Fit((c, o.j), p, f.cur, news);
    hide Good, Midway, AwayFrom;
    main', placed' := InsertTree(d0, t, d, main, placed, f, p, news, i, c, o.j);
  }

  lemma MidwayFrame(d0: Doc, t: Tree, d: Doc, main: Tree, placed: seq<(Tree, nat)>, f: Forest, p: Plan,
                    news: seq<VNode>, i: nat, e: Doc)
    requires Midway(d0, t, d, main, placed, f, p, news, i) && Only(d, e, {}, {}) && Valid(e)
    ensures Midway(d0, t, e, main, placed, f, p, news, i)
  {
    hide PlacedSoFar, Inserting, Only, Refs;
    InsertingFrame(d, main, f, p, i, e);
    SinceThen(d0, t, d, Forest(main, f.frag, f.cur), e, Forest(main, f.frag, f.cur), {}, {});
  }

  lemma InsertDrawn(d0: Doc, t: Tree, d: Doc, main: Tree, placed: seq<(Tree, nat)>, f: Forest, p: Plan,
                    news: seq<VNode>, i: nat)
    returns (main': Tree, placed': seq<(Tree, nat)>)
    requires Good(p) && Midway(d0, t, d, main, placed, f, p, news, i) && i < |p.inserts|
    requires p.inserts[i] < |p.owners| && p.owners[p.inserts[i]].Inserted? && p.owners[p.inserts[i]].j < |news|
    ensures var j := p.owners[p.inserts[i]].j;
      var (d1, r) := Render(d, news[j]);
      Midway(d0, t, InsertBefore(d1, main.ref, r, ChildAt(d1, main.ref, j)), main', placed', f, p, news, i + 1)
    ensures main'.ref == main.ref
  {
    var j := p.owners[p.inserts[i]].j;
    hide PlacedSoFar, InsertBefore, Valid, Holds, Refs, ChildAt, Filled, See, Draw, Render, Good;
    var c := RenderDraws(d, news[j]);
    var (d1, r) := Render(d, news[j]);
    OldRefs(d, main, f, p, i);
    assert Loose(d1, main, f, p, c);
    assert Kin(d0, t, c);
    hide Midway, Inserting, Only, Loose, Kin;
    MidwayFrame(d0, t, d, main, placed, f, p, news, i, d1);
    main', placed' := InsertTree(d0, t, d1, main, placed, f, p, news, i, c, j);
  }

  lemma {:induction false} InsertAll(d0: Doc, t: Tree, d: Doc, main: Tree, placed: seq<(Tree, nat)>, f: Forest, p: Plan,
                                     news: seq<VNode>, entries: seq<Entry>, moved: map<nat, Ref>, i: nat)
    returns (main': Tree, placed': seq<(Tree, nat)>)
    requires Good(p) && Midway(d0, t, d, main, placed, f, p, news, 0) && i <= |p.inserts| && |f.cur| == |p.fates|
    requires EntriesFor(entries, p, news) && MovedFor(moved, p, f.cur, |p.fates|)
    ensures Midway(d0, t, DoInserts(d, main.ref, InsertsOf(p), entries, moved, i), main', placed', f, p, news, i)
    ensures main'.ref == main.ref
  {
    hide Good, Midway, Render, InsertBefore, EntriesFor, ChildAt, Target;
    if i == 0 {
      main', placed' := main, placed;
    } else {
      var k := i - 1;
      var m1, placed1 := InsertAll(d0, t, d, main, placed, f, p, news, entries, moved, k);
      var e := DoInserts(d, main.ref, InsertsOf(p), entries, moved, k);
      InsertEntry(p, entries, news, k);
      if p.owners[p.inserts[k]].Moved? {
        main', placed' := InsertOld(d0, t, e, m1, placed1, f, p, news, k);
      } else {
        main', placed' := InsertDrawn(d0, t, e, m1, placed1, f, p, news, k);
      }
    }
  }
}
