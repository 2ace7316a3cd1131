/** The steps of a reorder, each keeping what Stands says. */
module VdomReorderSteps {
  import opened Wrappers
  import opened VdomNodes
  import opened VdomKeyedPlan
  import opened VdomDiff
  import opened VdomDocument
  import opened VdomPatching
  import opened VdomSteps
  import opened VdomRendering
  import opened VdomActions
  import opened VdomReorder

  // ----- taking out the end inserts -----

  lemma GoodEnds(p: Plan)
    requires Good(p)
    ensures EndsMatch(p)
    ensures forall k :: 0 <= k < |p.ends| ==> p.ends[k] < |p.owners|
  {
  }

  lemma EndUnique(p: Plan, a: nat, k: nat)
    requires Good(p) && ToEnd(p, a) && k < |p.ends| && p.owners[p.fates[a].entry].j == p.scanned + k
    ensures p.fates[a].entry == p.ends[k]
  {
    hide Filled, InsertsMatch;
    var e := p.fates[a].entry;
    assert e in p.ends;
    var i :| 0 <= i < |p.ends| && p.ends[i] == e;
  }

  lemma EndOwner(p: Plan, k: nat)
    requires Good(p) && k < |p.ends| && p.owners[p.ends[k]].Moved?
    ensures var a := p.owners[p.ends[k]].a;
      a < |p.fates| && ToEnd(p, a) && p.fates[a].entry == p.ends[k] && p.owners[p.ends[k]].j == p.scanned + k
  {
    hide Filled, InsertsMatch;
  }

  lemma MaskTaken(p: Plan, k: nat, a: nat)
    requires Good(p) && k < |p.ends| && p.owners[p.ends[k]].Moved? && a == p.owners[p.ends[k]].a
    ensures a < |p.fates| && Present(p, k, 0, a) && Mask(p, k + 1, 0) == Mask(p, k, 0)[a := false]
  {
    EndOwner(p, k);
    forall b | 0 <= b < |p.fates| ensures Present(p, k + 1, 0, b) == (if b == a then false else Present(p, k, 0, b)) {
      if b != a && ToEnd(p, b) && p.owners[p.fates[b].entry].j == p.scanned + k {
        EndUnique(p, b, k);
      }
    }
  }

  lemma MaskNotTaken(p: Plan, k: nat)
    requires Good(p) && k < |p.ends| && !p.owners[p.ends[k]].Moved?
    ensures Mask(p, k + 1, 0) == Mask(p, k, 0)
  {
    forall b | 0 <= b < |p.fates| ensures Present(p, k + 1, 0, b) == Present(p, k, 0, b) {
      if ToEnd(p, b) && p.owners[p.fates[b].entry].j == p.scanned + k { EndUnique(p, b, k); }
    }
  }

  lemma InsertDetached(d: Doc, q: Ref, r: Ref, before: Option<Ref>)
    ensures InsertBefore(Detach(d, r), q, r, before) == InsertBefore(d, q, r, before)
  {
  }

  /** A child is not in what is left of its parent. */
  lemma CutWithout(d: Doc, m: Tree, i: nat)
    requires Holds(d, m) && m.ElementTree? && i < |m.kids|
    ensures m.kids[i].ref !in Refs(m.(kids := Cut(m.kids, i)))
  {
    var c, u := m.kids[i], m.(kids := Cut(m.kids, i));
    assert Placed(d, m.ref, c) && Apart(m.kids);
    RootIn(c);
    hide Holds, Placed;
    forall j | 0 <= j < |u.kids| ensures c.ref !in Refs(u.kids[j]) {
      var l := if j < i then j else j + 1;
      assert Refs(m.kids[if l < i then l else i]) !! Refs(m.kids[if l < i then i else l]);
    }
  }

  lemma MoveParts(d: Doc, m: Tree, i: nat, g: Tree)
    requires Valid(d) && Holds(d, m) && m.ElementTree? && i < |m.kids| && Outside(d, g) && Refs(m) !! Refs(g)
    ensures g.ref < d.next
    ensures var c, u := m.kids[i], m.(kids := Cut(m.kids, i));
      && {m.ref, c.ref} <= Refs(m) && Refs(c) <= Refs(m) && Refs(u) <= Refs(m) && c.ref !in Refs(u)
      && g.ref in Refs(g) && c.ref != g.ref && m.ref != g.ref && m.ref !in Refs(g) && c.ref !in Refs(g)
  {
    hide Refs, Holds, Cut, Valid;
    HoldsBelow(d, g);
    RefsKids(m, i);
    RootIn(m.kids[i]);
    RootIn(g);
    RootIn(m);
    CutRefs(m, i);
    CutWithout(d, m, i);
  }

  /** Appending child i of one tree to another tree. */
  lemma MoveOver(d: Doc, m: Tree, i: nat, g: Tree)
    requires Valid(d) && Holds(d, m) && m.ElementTree? && i < |m.kids| && Outside(d, g) && g.ElementTree? &&
      Refs(m) !! Refs(g)
    ensures var e := AppendChild(d, g.ref, m.kids[i].ref);
      && Valid(e) && Holds(e, m.(kids := Cut(m.kids, i))) && Outside(e, g.(kids := g.kids + [m.kids[i]]))
      && Only(d, e, {m.ref, g.ref}, {m.kids[i].ref})
  {
    hide Holds, Valid, InsertBefore, Detach, Cut, Placed, Refs, Only, Put;
    var c := m.kids[i];
    var d1 := Detach(d, c.ref);
    var e := AppendChild(d, g.ref, c.ref);
    MoveParts(d, m, i, g);
    DetachKid(d, m, i);
    InsertDetached(d, g.ref, c.ref, None);
    PutEnd(g.kids, c);
    KeepOutside(d, d1, {m.ref}, {c.ref}, g);
    InsertKid(d1, g, c, |g.kids|);
    KeepTree(d1, e, {g.ref}, {c.ref}, m.(kids := Cut(m.kids, i)));
    StillOutside(d1, e, {g.ref}, {c.ref}, g.ref);
    OnlyThen(d, d1, e, {m.ref}, {c.ref}, {g.ref}, {c.ref});
    OnlyOld(d, e, {m.ref} + {g.ref}, {c.ref} + {c.ref}, {m.ref, g.ref}, {c.ref});
  }

  lemma StillOutside(d: Doc, e: Doc, ns: set<Ref>, ps: set<Ref>, r: Ref)
    requires Only(d, e, ns, ps) && r < d.next && r !in ps && r !in d.parent
    ensures r !in e.parent
  {
    assert SameParent(d, e, r);
  }

  lemma OnlyNext(d: Doc, e: Doc, ns: set<Ref>, ps: set<Ref>)
    requires Only(d, e, ns, ps)
    ensures d.next <= e.next
  {
  }

  lemma FragTaken(f: Forest, g: Forest, p: Plan, k: nat, a: nat)
    requires FragMatches(f, p, k) && Disjoint(f, p, k)
    requires k < |p.ends| && p.ends[k] < |p.owners| && p.owners[p.ends[k]].Moved? && a == p.owners[p.ends[k]].a &&
      a < |f.cur|
    requires g.main.ref == f.main.ref && g.cur == f.cur && g.frag == f.frag.(kids := f.frag.kids + [f.cur[a]])
    ensures FragMatches(g, p, k + 1) && Disjoint(g, p, k + 1)
  {
    hide Refs, Apart;
    forall i | 0 <= i < k ensures g.frag.kids[i] == f.frag.kids[i] {}
  }

  lemma TakeMoved(d: Doc, f: Forest, p: Plan, k: nat, a: nat, g: Forest)
    requires Good(p) && Stands(d, f, p, k, 0) && k < |p.ends| && p.owners[p.ends[k]].Moved? &&
      a == p.owners[p.ends[k]].a
    requires a < |f.cur| && Rank(Mask(p, k, 0), a) < |f.main.kids|
    requires g == Forest(f.main.(kids := Cut(f.main.kids, Rank(Mask(p, k, 0), a))),
      f.frag.(kids := f.frag.kids + [f.cur[a]]), f.cur)
    ensures Stands(AppendChild(d, f.frag.ref, f.cur[a].ref), g, p, k + 1, 0)
    ensures Only(d, AppendChild(d, f.frag.ref, f.cur[a].ref), {f.main.ref, f.frag.ref}, {f.cur[a].ref})
  {
    MaskTaken(p, k, a);
    MainKid(d, f, p, k, 0, a);
    MainFrag(d, f, p, k, 0);
    hide Good, Holds, Valid, Cut, InsertBefore, Only, Refs;
    MoveOver(d, f.main, Rank(Mask(p, k, 0), a), f.frag);
    assert AllOld(AppendChild(d, f.frag.ref, f.cur[a].ref), f.cur) by {
      assert AllOld(d, f.cur);
      OnlyNext(d, AppendChild(d, f.frag.ref, f.cur[a].ref), {f.main.ref, f.frag.ref}, {f.cur[a].ref});
    }
    hide AllOld;
    FragTaken(f, g, p, k, a);
    SelectCut(f.cur, Mask(p, k, 0), |p.fates|, a);
    assert g.main.kids == Select(g.cur, Mask(p, k + 1, 0), |p.fates|);
    hide Select, Rank, Mask, FragMatches, Disjoint;
  }

  lemma TakeNewTrees(d: Doc, f: Forest, p: Plan, k: nat, v: VNode) returns (c: Tree)
    requires Good(p) && Stands(d, f, p, k, 0) && p.ends != []
    ensures var (d1, r) := Render(d, v);
      var e := AppendChild(d1, f.frag.ref, r);
      && Valid(e) && Holds(e, f.main) && Outside(e, f.frag.(kids := f.frag.kids + [c])) && Only(d, e, {f.frag.ref}, {})
    ensures See(c) == Draw(v) && forall r :: r in Refs(c) ==> d.next <= r
  {
    c := RenderDraws(d, v);
    var (d1, r) := Render(d, v);
    MainFrag(d, f, p, k, 0);
    hide Good, Render, See, Draw, Mask, Select, FragMatches, Disjoint;
    RootIn(f.frag);
    AddKidHolds(d, f.frag, d1, c);
    var e := AppendChild(d1, f.frag.ref, r);
    HoldsBelow(d, f.main);
    RootIn(c);
    hide Holds, Valid, InsertBefore;
    OnlyThen(d, d1, e, {}, {}, {f.frag.ref}, {c.ref});
    OnlyOld(d, e, {f.frag.ref}, {c.ref}, {f.frag.ref}, {});
    KeepTree(d, e, {f.frag.ref}, {}, f.main);
  }

  lemma FragGrown(f: Forest, g: Forest, p: Plan, k: nat, c: Tree)
    requires FragMatches(f, p, k) && Disjoint(f, p, k)
    requires k < |p.ends| && p.ends[k] < |p.owners| && !p.owners[p.ends[k]].Moved?
    requires g.main.ref == f.main.ref && g.cur == f.cur && g.frag == f.frag.(kids := f.frag.kids + [c])
    requires f.main.ref !in Refs(c) && forall a :: 0 <= a < |f.cur| ==> Refs(c) !! Refs(f.cur[a])
    ensures FragMatches(g, p, k + 1) && Disjoint(g, p, k + 1)
  {
    hide Refs, Apart;
    forall i | 0 <= i < k ensures g.frag.kids[i] == f.frag.kids[i] {}
  }

  lemma TakeNew(d: Doc, f: Forest, p: Plan, k: nat, v: VNode) returns (g: Forest)
    requires Good(p) && Stands(d, f, p, k, 0) && k < |p.ends| && !p.owners[p.ends[k]].Moved?
    ensures var (d1, r) := Render(d, v);
      var e := AppendChild(d1, f.frag.ref, r);
      Stands(e, g, p, k + 1, 0) && Only(d, e, {f.frag.ref}, {})
    ensures g.main == f.main && g.cur == f.cur && g.frag.ElementTree? && |g.frag.kids| == k + 1
    ensures g.frag == f.frag.(kids := f.frag.kids + [g.frag.kids[k]])
    ensures See(g.frag.kids[k]) == Draw(v) && forall r :: r in Refs(g.frag.kids[k]) ==> d.next <= r
  {
    hide Render, InsertBefore, See, Draw, Cut;
    var c := TakeNewTrees(d, f, p, k, v);
    g := f.(frag := f.frag.(kids := f.frag.kids + [c]));
    MaskNotTaken(p, k);
    assert forall a :: 0 <= a < |f.cur| ==> Refs(c) !! Refs(f.cur[a]);
    assert AllOld(AppendChild(Render(d, v).0, f.frag.ref, Render(d, v).1), f.cur) by {
      assert AllOld(d, f.cur);
    }
    assert f.main.ref !in Refs(c) by {
      RootIn(f.main);
      HoldsBelow(d, f.main);
    }
    assert p.ends[k] < |p.owners|;
    hide Good, Holds, Valid, Refs, Select, Mask, AllOld, Only;
    FragGrown(f, g, p, k, c);
    hide FragMatches, Disjoint;
  }

  lemma FragKid(d: Doc, t: Tree, i: nat)
    requires Valid(d) && Holds(d, t) && t.ElementTree? && i < |t.kids|
    ensures forall r :: r in Refs(t.kids[i]) ==> r < d.next
    ensures Placed(d, t.ref, t.kids[i])
  {
    assert Placed(d, t.ref, t.kids[i]);
    HoldsBelow(d, t.kids[i]);
  }
}
