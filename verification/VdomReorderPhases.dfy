/** Patching the old children of a reordered element one by one. */
module VdomReorderPhases {
  import opened VdomKeyedPlan
  import opened VdomDiff
  import opened VdomDocument
  import opened VdomSteps
  import opened VdomRendering
  import opened VdomReorder
  import opened VdomReorderSteps

  /** Old child n became c, in a part of the document that is its own. */
  ghost predicate Replaced(d: Doc, f: Forest, p: Plan, n: nat, e: Doc, g: Forest, c: Tree, ns: set<Ref>, ps: set<Ref>) {
    && n < |f.cur| && g.cur == f.cur[n := c] && g.main.ref == f.main.ref && g.frag.ref == f.frag.ref
    && (forall r :: r in Refs(c) ==> r in Refs(f.cur[n]) || d.next <= r)
    && Only(d, e, ns, ps)
    && (forall r :: r in ns ==> r in Refs(f.cur[n]) || r == f.main.ref || (r == f.frag.ref && p.ends != []))
    && (forall r :: r in ps ==> r in Refs(f.cur[n]))
  }

  lemma EndIndex(p: Plan, a: nat) returns (i: nat)
    requires Good(p) && ToEnd(p, a)
    ensures i < |p.ends| && p.ends[i] == p.fates[a].entry && p.owners[p.ends[i]].j == p.scanned + i &&
      p.owners[p.ends[i]].a == a
    ensures forall k :: 0 <= k < |p.ends| && p.owners[p.ends[k]].Moved? && p.owners[p.ends[k]].a == a ==> k == i
  {
    hide Filled, InsertsMatch;
    var e := p.fates[a].entry;
    assert e in p.ends;
    i :| 0 <= i < |p.ends| && p.ends[i] == e;
  }

  lemma ReplacedApart(d: Doc, f: Forest, n: nat, g: Forest, c: Tree, p: Plan)
    requires FragMatches(f, p, |p.ends|) && Disjoint(f, p, |p.ends|) && AllOld(d, f.cur)
    requires n < |f.cur| && g.cur == f.cur[n := c] && g.main.ref == f.main.ref && g.frag.ref == f.frag.ref
    requires forall r :: r in Refs(c) ==> r in Refs(f.cur[n]) || d.next <= r
    requires f.main.ref < d.next && (p.ends != [] ==> f.frag.ref < d.next)
    requires forall i, r :: 0 <= i < |f.frag.kids| && r in Refs(f.frag.kids[i]) ==> r < d.next
    requires FragMatches(g, p, |p.ends|)
    requires forall i :: 0 <= i < |p.ends| && !p.owners[p.ends[i]].Moved? ==> g.frag.kids[i] == f.frag.kids[i]
    ensures Disjoint(g, p, |p.ends|)
  {
    hide Refs;
  }

  lemma OthersOutside(d: Doc, f: Forest, p: Plan, n: nat, e: Doc, g: Forest, c: Tree, ns: set<Ref>, ps: set<Ref>,
                      a: nat)
    requires Valid(d) && Apart(f.cur) && Replaced(d, f, p, n, e, g, c, ns, ps) && a < n && Outside(d, f.cur[a])
    requires f.main.ref !in Refs(f.cur[a]) && (p.ends != [] ==> f.frag.ref !in Refs(f.cur[a]))
    ensures Outside(e, g.cur[a])
  {
    assert Refs(f.cur[a]) !! Refs(f.cur[n]);
    hide Outside, Refs, Only, Valid;
    KeepOutside(d, e, ns, ps, f.cur[a]);
  }

  lemma RestsBelow(d: Doc, f: Forest, p: Plan, n: nat)
    requires Stands(d, f, p, |p.ends|, n)
    ensures f.main.ref < d.next && f.frag.ElementTree? && (p.ends != [] ==> f.frag.ref < d.next)
    ensures forall i, r :: 0 <= i < |f.frag.kids| && r in Refs(f.frag.kids[i]) ==> r < d.next
  {
    assert f.frag.ElementTree?;
    hide Select, Mask, FragMatches, Disjoint, AllOld;
    if p.ends != [] {
      forall i | 0 <= i < |f.frag.kids| ensures forall r :: r in Refs(f.frag.kids[i]) ==> r < d.next {
        FragKid(d, f.frag, i);
      }
    }
  }

  /** Rest: a replaced child keeps apart from the others, and the others stay. */
  lemma Restand(d: Doc, f: Forest, p: Plan, n: nat, e: Doc, g: Forest, c: Tree, ns: set<Ref>, ps: set<Ref>)
    requires Good(p) && Stands(d, f, p, |p.ends|, n) && n < |p.fates| && Replaced(d, f, p, n, e, g, c, ns, ps)
    requires Valid(e) && Holds(e, g.main) && g.main.ElementTree? && (p.ends != [] ==> Outside(e, g.frag))
    requires g.main.kids == Select(g.cur, Mask(p, |p.ends|, n + 1), |p.fates|)
    requires FragMatches(g, p, |p.ends|)
    requires forall i :: 0 <= i < |p.ends| && !p.owners[p.ends[i]].Moved? ==> g.frag.kids[i] == f.frag.kids[i]
    requires Between(p, n) ==> Outside(e, c)
    requires forall r :: r in Refs(c) ==> r < e.next
    ensures Stands(e, g, p, |p.ends|, n + 1)
  {
    hide Good, Holds, Valid, Select, Mask, FragMatches, Outside, Between, Refs, Only, Disjoint, AllOld, Apart;
    RestsBelow(d, f, p, n);
    StandsParts(d, f, p, |p.ends|, n);
    forall a | 0 <= a < n && Between(p, a) ensures Outside(e, g.cur[a]) {
      DisjointAt(f, p, |p.ends|, a);
      OthersOutside(d, f, p, n, e, g, c, ns, ps, a);
    }
    OnlyNext(d, e, ns, ps);
    ReplacedApart(d, f, n, g, c, p);
    AllOldNext(d, f.cur, n, c, e);
  }

  lemma AllOldNext(d: Doc, ts: seq<Tree>, n: nat, c: Tree, e: Doc)
    requires AllOld(d, ts) && d.next <= e.next && n < |ts| && forall r :: r in Refs(c) ==> r < e.next
    ensures AllOld(e, ts[n := c])
  {
    hide Refs;
  }

  lemma StepBelow(d: Doc, t: Tree, e: Doc, u: Tree)
    requires Step(d, t, e, u)
    ensures Valid(e) && (forall r :: r in Refs(u) ==> r < e.next) &&
      (forall r :: r in Refs(u) ==> r in Refs(t) || d.next <= r)
  {
    HoldsBelow(e, u);
  }

  lemma MaskKeep(p: Plan, n: nat)
    requires n < |p.fates| && (p.fates[n].Keep? || ToEnd(p, n))
    ensures Mask(p, |p.ends|, n + 1) == Mask(p, |p.ends|, n)
  {
  }

  lemma MaskDrop(p: Plan, n: nat)
    requires n < |p.fates| && p.fates[n].Leave? && !ToEnd(p, n)
    ensures Present(p, |p.ends|, n, n) && Mask(p, |p.ends|, n + 1) == Mask(p, |p.ends|, n)[n := false]
  {
  }

  lemma FragUntouched(f: Forest, g: Forest, p: Plan, n: nat, c: Tree)
    requires Good(p) && FragMatches(f, p, |p.ends|) && n < |p.fates| && !ToEnd(p, n)
    requires g.frag == f.frag && n < |f.cur| == |p.fates| && g.cur == f.cur[n := c]
    ensures FragMatches(g, p, |p.ends|)
  {
    forall i | 0 <= i < |p.ends| && p.owners[p.ends[i]].Moved? ensures p.owners[p.ends[i]].a != n {
      EndOwner(p, i);
    }
  }

  // ----- a child kept -----

  lemma KeepSegTrees(d: Doc, f: Forest, p: Plan, n: nat, e: Doc, c: Tree, i: nat)
    requires Good(p) && Stands(d, f, p, |p.ends|, n) && n < |p.fates| && Present(p, |p.ends|, n, n)
    requires Rooted(d, f.main) && Step(d, f.cur[n], e, c) && i == Rank(Mask(p, |p.ends|, n), n)
    ensures i < |f.main.kids| && f.main.kids[i] == f.cur[n]
    ensures Only(d, e, Refs(f.cur[n]) + {f.main.ref}, Refs(f.cur[n]))
    ensures Holds(e, WithKid(f.main, i, c)) && (p.ends != [] ==> Outside(e, f.frag))
  {
    MainKid(d, f, p, |p.ends|, n, n);
    if p.ends != [] { MainFrag(d, f, p, |p.ends|, n); }
    hide Mask, Rank, Select, Good, FragMatches, AllOld;
    StepOnly(d, f.cur[n], e, c);
    RootIn(f.main);
    RefsKids(f.main, i);
    assert Valid(d) && (p.ends != [] ==> Outside(d, f.frag));
    Lift(d, f.main, i, e, c);
    hide Stands, Holds, Valid, Only;
    if p.ends != [] { KeepOutside(d, e, Refs(f.cur[n]) + {f.main.ref}, Refs(f.cur[n]), f.frag); }
  }

  lemma KeepSeg(d: Doc, f: Forest, p: Plan, n: nat, e: Doc, c: Tree, g: Forest)
    requires Good(p) && Stands(d, f, p, |p.ends|, n) && n < |p.fates| && p.fates[n].Keep?
    requires Rooted(d, f.main) && Step(d, f.cur[n], e, c)
    requires Rank(Mask(p, |p.ends|, n), n) < |f.main.kids|
    requires g == Forest(WithKid(f.main, Rank(Mask(p, |p.ends|, n), n), c), f.frag, f.cur[n := c])
    ensures Stands(e, g, p, |p.ends|, n + 1) && Only(d, e, Refs(f.cur[n]) + {f.main.ref}, Refs(f.cur[n]))
  {
    hide Good, Stands, Holds, Valid, Rooted, Step, Outside, Only, Select, Mask, Rank, Refs, Disjoint, AllOld,
      FragMatches;
    StandsParts(d, f, p, |p.ends|, n);
    var i := Rank(Mask(p, |p.ends|, n), n);
    KeepSegTrees(d, f, p, n, e, c, i);
    StepBelow(d, f.cur[n], e, c);
    MaskKeep(p, n);
    SelectUpdate(f.cur, Mask(p, |p.ends|, n), |p.fates|, n, c);
    MaskAt(p, n);
    FragUntouched(f, g, p, n, c);
    Restand(d, f, p, n, e, g, c, Refs(f.cur[n]) + {f.main.ref}, Refs(f.cur[n]));
  }

  lemma MaskAt(p: Plan, n: nat)
    requires n < |p.fates| && Present(p, |p.ends|, n, n)
    ensures Mask(p, |p.ends|, n)[n]
  {
  }

  // ----- a child removed -----

  lemma DropSegTrees(d: Doc, f: Forest, p: Plan, n: nat, i: nat)
    requires Good(p) && Stands(d, f, p, |p.ends|, n) && n < |p.fates| && Present(p, |p.ends|, n, n)
    requires i == Rank(Mask(p, |p.ends|, n), n)
    ensures i < |f.main.kids| && f.main.kids[i] == f.cur[n]
    ensures var e := Detach(d, f.cur[n].ref);
      && Valid(e) && e.next == d.next && Only(d, e, {f.main.ref}, {f.cur[n].ref})
      && Holds(e, f.main.(kids := Cut(f.main.kids, i))) && (p.ends != [] ==> Outside(e, f.frag)) && Outside(e, f.cur[n])
  {
    MainKid(d, f, p, |p.ends|, n, n);
    if p.ends != [] { MainFrag(d, f, p, |p.ends|, n); }
    hide Mask, Rank, Select, Good, FragMatches, AllOld, Cut, Detach;
    DetachKid(d, f.main, i);
    RootIn(f.main);
    RefsKids(f.main, i);
    RootIn(f.cur[n]);
    assert Valid(d) && (p.ends != [] ==> Outside(d, f.frag));
    hide Stands, Holds, Valid, Only;
    if p.ends != [] { KeepOutside(d, Detach(d, f.cur[n].ref), {f.main.ref}, {f.cur[n].ref}, f.frag); }
  }

  lemma CutSelect(f: Forest, p: Plan, n: nat, c: Tree)
    requires n < |p.fates| == |f.cur| && p.fates[n].Leave? && !ToEnd(p, n) && f.main.ElementTree?
    requires f.main.kids == Select(f.cur, Mask(p, |p.ends|, n), |p.fates|)
    ensures var i := Rank(Mask(p, |p.ends|, n), n);
      i < |f.main.kids| && Cut(f.main.kids, i) == Select(f.cur, Mask(p, |p.ends|, n + 1), |p.fates|)
    ensures Select(f.cur[n := c], Mask(p, |p.ends|, n + 1), |p.fates|) == Select(f.cur, Mask(p, |p.ends|, n + 1),
      |p.fates|)
  {
    MaskDrop(p, n);
    MaskAt(p, n);
    hide Mask, Rank, Select, Cut;
    SelectCut(f.cur, Mask(p, |p.ends|, n), |p.fates|, n);
    SelectUpdate(f.cur, Mask(p, |p.ends|, n + 1), |p.fates|, n, c);
  }

  lemma DropSeg(d: Doc, f: Forest, p: Plan, n: nat, g: Forest)
    requires Good(p) && Stands(d, f, p, |p.ends|, n) && n < |p.fates| && p.fates[n].Leave? && !ToEnd(p, n)
    requires !Between(p, n) && Rank(Mask(p, |p.ends|, n), n) < |f.main.kids|
    requires g == Forest(f.main.(kids := Cut(f.main.kids, Rank(Mask(p, |p.ends|, n), n))), f.frag, f.cur)
    ensures Stands(Detach(d, f.cur[n].ref), g, p, |p.ends|, n + 1)
    ensures Only(d, Detach(d, f.cur[n].ref), {f.main.ref}, {f.cur[n].ref})
  {
    hide Good, Stands, Holds, Valid, Outside, Only, Select, Mask, Rank, Cut, Detach, Refs, Disjoint, AllOld,
      FragMatches, Between, ToEnd;
    StandsParts(d, f, p, |p.ends|, n);
    var e := Detach(d, f.cur[n].ref);
    PresentDrop(p, n);
    DropSegTrees(d, f, p, n, Rank(Mask(p, |p.ends|, n), n));
    assert f.cur == f.cur[n := f.cur[n]];
    DisjointAt(f, p, |p.ends|, n);
    AllOldAt(d, f.cur, n);
    CutSelect(f, p, n, f.cur[n]);
    FragUntouched(f, g, p, n, f.cur[n]);
    Restand(d, f, p, n, e, g, f.cur[n], {f.main.ref}, {f.cur[n].ref});
  }

  lemma PresentDrop(p: Plan, n: nat)
    requires n < |p.fates| && p.fates[n].Leave? && !ToEnd(p, n)
    ensures Present(p, |p.ends|, n, n)
  {
  }

  // ----- a child taken out to be inserted later -----

  lemma MoveSeg(d: Doc, f: Forest, p: Plan, n: nat, e: Doc, c: Tree, g: Forest)
    requires Good(p) && Stands(d, f, p, |p.ends|, n) && n < |p.fates| && Between(p, n)
    requires Step(Detach(d, f.cur[n].ref), f.cur[n], e, c)
    requires Rank(Mask(p, |p.ends|, n), n) < |f.main.kids|
    requires g == Forest(f.main.(kids := Cut(f.main.kids, Rank(Mask(p, |p.ends|, n), n))), f.frag, f.cur[n := c])
    ensures Stands(e, g, p, |p.ends|, n + 1) && Only(d, e, Refs(f.cur[n]) + {f.main.ref}, Refs(f.cur[n]))
  {
    hide Good, Stands, Holds, Valid, Step, Outside, Only, Select, Mask, Rank, Cut, Detach, Refs, Disjoint, AllOld,
      FragMatches;
    StandsParts(d, f, p, |p.ends|, n);
    MoveSegTrees(d, f, p, n, e, c, g.main);
    CutSelect(f, p, n, c);
    FragUntouched(f, g, p, n, c);
    Restand(d, f, p, n, e, g, c, Refs(f.cur[n]) + {f.main.ref}, Refs(f.cur[n]));
  }

  lemma MoveSegTrees(d: Doc, f: Forest, p: Plan, n: nat, e: Doc, c: Tree, main: Tree)
    requires Good(p) && Stands(d, f, p, |p.ends|, n) && n < |p.fates| && Between(p, n)
    requires Step(Detach(d, f.cur[n].ref), f.cur[n], e, c)
    requires Rank(Mask(p, |p.ends|, n), n) < |f.main.kids|
    requires main == f.main.(kids := Cut(f.main.kids, Rank(Mask(p, |p.ends|, n), n)))
    ensures Only(d, e, Refs(f.cur[n]) + {f.main.ref}, Refs(f.cur[n]))
    ensures Valid(e) && Holds(e, main) && (p.ends != [] ==> Outside(e, f.frag)) && Outside(e, c)
    ensures forall r :: r in Refs(c) ==> r < e.next
    ensures forall r :: r in Refs(c) ==> r in Refs(f.cur[n]) || d.next <= r
  {
    var i := Rank(Mask(p, |p.ends|, n), n);
    var d1 := Detach(d, f.cur[n].ref);
    DropSegTrees(d, f, p, n, i);
    MainApart(d, f, p, n, i);
    assert f.main.ref !in Refs(f.cur[n]);
    hide Good, Stands, Mask, Rank, Detach, Cut;
    RootIn(f.cur[n]);
    StepOnly(d1, f.cur[n], e, c);
    StepBelow(d1, f.cur[n], e, c);
    assert ParentOf(d1, f.cur[n].ref) == {};
    hide Holds, Valid, Only;
    KeepTree(d1, e, Refs(f.cur[n]) + {}, Refs(f.cur[n]), main);
    if p.ends != [] { KeepOutside(d1, e, Refs(f.cur[n]) + {}, Refs(f.cur[n]), f.frag); }
    hide Refs, Step;
    OnlyThen(d, d1, e, {f.main.ref}, {f.cur[n].ref}, Refs(f.cur[n]) + {}, Refs(f.cur[n]));
    OnlyOld(d, e, {f.main.ref} + (Refs(f.cur[n]) + {}), {f.cur[n].ref} + Refs(f.cur[n]), Refs(f.cur[n]) +
      {f.main.ref}, Refs(f.cur[n]));
  }

  /** Once cut out, a child shares nothing with the element nor with the fragment. */
  lemma MainApart(d: Doc, f: Forest, p: Plan, n: nat, i: nat)
    requires Good(p) && Stands(d, f, p, |p.ends|, n) && n < |p.fates| && Present(p, |p.ends|, n, n)
    requires i == Rank(Mask(p, |p.ends|, n), n) < |f.main.kids|
    ensures Refs(f.main.(kids := Cut(f.main.kids, i))) !! Refs(f.cur[n])
    ensures p.ends != [] ==> Refs(f.frag) !! Refs(f.cur[n])
  {
    hide Good, Stands, Holds, Valid, Outside, Select, Mask, Rank, Refs, Disjoint, AllOld, FragMatches, Present;
    StandsParts(d, f, p, |p.ends|, n);
    DisjointAt(f, p, |p.ends|, n);
    MainKid(d, f, p, |p.ends|, n, n);
    if p.ends != [] { MainFrag(d, f, p, |p.ends|, n); }
    RefsKids(f.main, i);
    CutApart(f.main, i);
  }

  lemma CutApart(t: Tree, i: nat)
    requires t.ElementTree? && i < |t.kids| && Apart(t.kids) && t.ref !in Refs(t.kids[i])
    ensures Refs(t.(kids := Cut(t.kids, i))) !! Refs(t.kids[i])
  {
    var m := t.(kids := Cut(t.kids, i));
    forall q | 0 <= q < |m.kids| ensures Refs(m.kids[q]) !! Refs(t.kids[i]) {
      assert m.kids[q] == t.kids[if q < i then q else q + 1];
    }
  }

  // ----- a child moved to the end -----

  lemma EndSeg(d: Doc, f: Forest, p: Plan, n: nat, e: Doc, c: Tree, i: nat, g: Forest)
    requires Good(p) && Stands(d, f, p, |p.ends|, n) && n < |p.fates| && ToEnd(p, n)
    requires i < |p.ends| && p.ends[i] == p.fates[n].entry && f.frag.kids[i] == f.cur[n]
    requires Step(d, f.cur[n], e, c)
    requires g == Forest(f.main, WithKid(f.frag, i, c), f.cur[n := c])
    ensures Stands(e, g, p, |p.ends|, n + 1) && Only(d, e, Refs(f.cur[n]) + {f.frag.ref}, Refs(f.cur[n]))
  {
    hide Good, Stands, Holds, Valid, Step, Outside, Only, Select, Refs, Disjoint, AllOld, FragMatches, Mask;
    StandsParts(d, f, p, |p.ends|, n);
    EndSegTrees(d, f, p, n, e, c, i);
    StepBelow(d, f.cur[n], e, c);
    MaskKeep(p, n);
    MaskGone(p, n);
    SelectUpdate(f.cur, Mask(p, |p.ends|, n), |p.fates|, n, c);
    FragPatched(f, g, p, n, c, i);
    Restand(d, f, p, n, e, g, c, Refs(f.cur[n]) + {f.frag.ref}, Refs(f.cur[n]));
  }

  lemma MaskGone(p: Plan, n: nat)
    requires Good(p) && n < |p.fates| && ToEnd(p, n)
    ensures !Mask(p, |p.ends|, n)[n]
  {
    var j := EndIndex(p, n);
  }

  lemma FragPatched(f: Forest, g: Forest, p: Plan, n: nat, c: Tree, i: nat)
    requires Good(p) && FragMatches(f, p, |p.ends|) && n < |p.fates| == |f.cur| && ToEnd(p, n)
    requires i < |p.ends| && p.ends[i] == p.fates[n].entry
    requires g.frag == WithKid(f.frag, i, c) && g.cur == f.cur[n := c]
    ensures FragMatches(g, p, |p.ends|)
    ensures forall k :: 0 <= k < |p.ends| && !p.owners[p.ends[k]].Moved? ==> g.frag.kids[k] == f.frag.kids[k]
  {
    hide Good;
    var j := EndIndex(p, n);
    GoodEnds(p);
  }

  lemma EndSegTrees(d: Doc, f: Forest, p: Plan, n: nat, e: Doc, c: Tree, i: nat)
    requires Good(p) && Stands(d, f, p, |p.ends|, n) && n < |p.fates| && ToEnd(p, n)
    requires i < |p.ends| && f.frag.kids[i] == f.cur[n] && Step(d, f.cur[n], e, c)
    ensures Only(d, e, Refs(f.cur[n]) + {f.frag.ref}, Refs(f.cur[n]))
    ensures Holds(e, f.main) && Outside(e, WithKid(f.frag, i, c))
  {
    if p.ends != [] { MainFrag(d, f, p, |p.ends|, n); }
    FragKid(d, f.frag, i);
    hide Mask, Select, Good, FragMatches, AllOld;
    RefsKids(f.frag, i);
    RootIn(f.frag);
    StepOnly(d, f.cur[n], e, c);
    assert ParentOf(d, f.cur[n].ref) == {f.frag.ref};
    Lift(d, f.frag, i, e, c);
    hide Stands, Valid, Only;
    KeepTree(d, e, Refs(f.cur[n]) + {f.frag.ref}, Refs(f.cur[n]), f.main);
  }
}
