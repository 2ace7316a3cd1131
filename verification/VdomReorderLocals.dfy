/** Before the first old child of a reordered element is patched, and each of them in turn. */
module VdomReorderLocals {
  import opened Wrappers
  import opened VdomNodes
  import opened VdomKeyedPlan
  import opened VdomDiff
  import opened VdomDocument
  import opened VdomPatching
  import opened VdomSteps
  import opened VdomRendering
  import opened VdomActions
  import opened VdomNumbering
  import opened VdomReorder
  import opened VdomReorderSteps
  import opened VdomReorderEnds
  import opened VdomReorderPhases
  import opened VdomReorderFinish

  // ----- the start -----

  function NewFragment(r: Ref): Tree {
    ElementTree(r, FRAGMENT.tag, FRAGMENT.ns, FRAGMENT.facts, [])
  }

  lemma {:induction false} SelectAll<T>(s: seq<T>, mask: seq<bool>, n: nat)
    requires n <= |s| == |mask| && forall a :: 0 <= a < n ==> mask[a]
    ensures Select(s, mask, n) == s[..n]
  {
    if n > 0 { SelectAll(s, mask, n - 1); }
  }

  lemma MaskStart(p: Plan)
    requires Good(p)
    ensures forall a :: 0 <= a < |p.fates| ==> Mask(p, 0, 0)[a]
  {
    forall a | 0 <= a < |p.fates| ensures Present(p, 0, 0, a) {
      if ToEnd(p, a) { var i := EndIndex(p, a); }
    }
  }

  lemma KidsBelow(d: Doc, t: Tree)
    requires Valid(d) && Holds(d, t) && t.ElementTree?
    ensures forall a, r :: 0 <= a < |t.kids| && r in Refs(t.kids[a]) ==> r < d.next && r in Refs(t)
    ensures forall a :: 0 <= a < |t.kids| ==> t.ref !in Refs(t.kids[a])
    ensures Apart(t.kids) && t.ref < d.next
  {
    RootIn(t);
    HoldsBelow(d, t);
    forall a | 0 <= a < |t.kids| ensures t.ref !in Refs(t.kids[a]) && Refs(t.kids[a]) <= Refs(t) {
      assert Placed(d, t.ref, t.kids[a]);
      RefsKids(t, a);
    }
  }

  lemma StartTrees(d: Doc, t: Tree, p: Plan)
    requires Rooted(d, t) && t.ElementTree?
    ensures var e := if p.ends == [] then d else Create(d, FRAGMENT).0;
      Valid(e) && Holds(e, t) && (p.ends != [] ==> Outside(e, NewFragment(d.next))) && d.next <= e.next &&
      SameParent(d, e, t.ref) && (forall r: Ref :: r < d.next ==> SameNode(d, e, r) && SameParent(d, e, r))
  {
    HoldsBelow(d, t);
    CreateDraws(d, FRAGMENT, NewFragment(d.next));
    var e := if p.ends == [] then d else Create(d, FRAGMENT).0;
    hide Valid, Refs;
    HoldsFrame(d, e, t);
  }

  lemma StartDisjoint(d: Doc, t: Tree, p: Plan, e: Doc)
    requires Valid(d) && Holds(d, t) && t.ElementTree? && d.next <= e.next
    ensures var f := Forest(t, NewFragment(d.next), t.kids);
      FragMatches(f, p, 0) && Disjoint(f, p, 0) && AllOld(e, f.cur)
  {
    KidsBelow(d, t);
    hide Valid, Holds, Refs;
  }

  lemma StartStands(d: Doc, t: Tree, p: Plan)
    requires Good(p) && Rooted(d, t) && t.ElementTree? && |t.kids| == |p.fates|
    ensures var e := if p.ends == [] then d else Create(d, FRAGMENT).0;
      Stands(e, Forest(t, NewFragment(d.next), t.kids), p, 0, 0)
  {
    var e := if p.ends == [] then d else Create(d, FRAGMENT).0;
    StartTrees(d, t, p);
    StartDisjoint(d, t, p, e);
    MaskStart(p);
    SelectAll(t.kids, Mask(p, 0, 0), |t.kids|);
    assert t.kids[..|t.kids|] == t.kids;
    hide Valid, Holds, Good, Select, Mask, Refs, Create, Outside, Apart, FragMatches, Disjoint, AllOld;
  }

  lemma StartSince(d: Doc, t: Tree, p: Plan)
    requires Rooted(d, t) && t.ElementTree?
    ensures var e := if p.ends == [] then d else Create(d, FRAGMENT).0;
      Since(d, t, e, Forest(t, NewFragment(d.next), t.kids))
  {
    StartTrees(d, t, p);
    KidsBelow(d, t);
    hide Valid, Holds, Refs, Create, Outside, Apart;
  }

  // ----- patching one old child -----

  /** The document when n old children have been patched. */
  ghost predicate Patching(d0: Doc, t: Tree, d: Doc, f: Forest, p: Plan, news: seq<VNode>, moved: map<nat, Ref>,
                           n: nat) {
    && Rooted(d0, t) && Stands(d, f, p, |p.ends|, n) && Since(d0, t, d, f)
    && MovedFor(moved, p, f.cur, n) && EndsDrawn(f, p, news, |p.ends|)
  }

  lemma MainRooted(d0: Doc, t: Tree, d: Doc, f: Forest, p: Plan, n: nat)
    requires Rooted(d0, t) && Stands(d, f, p, |p.ends|, n) && Since(d0, t, d, f)
    ensures Rooted(d, f.main) && t.ref < d0.next && f.main.ref == t.ref
  {
    HoldsBelow(d0, t);
    RootIn(t);
    hide Holds, FragMatches, Disjoint, AllOld, Valid;
    forall r | r in Refs(f.main) && r != f.main.ref ensures r in Refs(t) || d0.next <= r {
      var q :| 0 <= q < |f.main.kids| && r in Refs(f.main.kids[q]);
      var a := SelectFrom(f.cur, Mask(p, |p.ends|, n), |p.fates|, q);
    }
  }

  /** The next old child, before it is patched. */
  lemma NextChild(d0: Doc, t: Tree, d: Doc, f: Forest, p: Plan, news: seq<VNode>, moved: map<nat, Ref>, n: nat)
    requires Good(p) && Patching(d0, t, d, f, p, news, moved, n) && n < |p.fates|
    ensures |f.cur| == |p.fates| && t.ref !in Refs(f.cur[n]) && t.ref < d.next && t.ref < d0.next && f.main.ref == t.ref
    ensures f.cur[n].ref != t.ref && Rooted(d, f.main) && f.main.ElementTree?
    ensures p.ends != [] ==> f.frag.ref != t.ref && d0.next <= f.frag.ref
    ensures forall r :: r in Refs(f.cur[n]) ==> r in Refs(t) || d0.next <= r
  {
    hide Good, Stands, Refs, Rooted, MovedFor, EndsDrawn, Valid, Holds, AllOld;
    StandsParts(d, f, p, |p.ends|, n);
    MainRooted(d0, t, d, f, p, n);
    DisjointAt(f, p, |p.ends|, n);
  }

  /** What a child patched in its place keeps of the history. */
  lemma SincePatched(d0: Doc, t: Tree, d: Doc, f: Forest, p: Plan, news: seq<VNode>, moved: map<nat, Ref>, n: nat,
                     e: Doc, g: Forest, c: Tree, ns: set<Ref>, ps: set<Ref>)
    requires Good(p) && Patching(d0, t, d, f, p, news, moved, n) && n < |p.fates| == |f.cur| && Only(d, e, ns, ps)
    requires forall r :: r in ns ==> r in Refs(f.cur[n]) || r == t.ref || (r == f.frag.ref && p.ends != [])
    requires forall r :: r in ps ==> r in Refs(f.cur[n])
    requires g.main.ElementTree? && f.main.ElementTree? && g.main == f.main.(kids := g.main.kids)
    requires g.frag == f.frag ||
      exists i :: f.frag.ElementTree? && 0 <= i < |f.frag.kids| && g.frag == WithKid(f.frag, i, c)
    requires g.cur == f.cur[n := c] && forall r :: r in Refs(c) ==> r in Refs(f.cur[n]) || d.next <= r
    ensures Since(d0, t, e, g)
  {
    hide Good, Stands, Refs, Rooted, MovedFor, EndsDrawn, Only;
    NextChild(d0, t, d, f, p, news, moved, n);
    RootIn(t);
    Opened(d0, t, d, f, p, news, moved, n);
    FragRefs(d0, t, d, f, g, c);
    SinceThen(d0, t, d, f, e, g, ns, ps);
  }

  lemma FragRefs(d0: Doc, t: Tree, d: Doc, f: Forest, g: Forest, c: Tree)
    requires Since(d0, t, d, f) && forall r :: r in Refs(c) ==> r in Refs(t) || d0.next <= r
    requires g.frag == f.frag ||
      exists i :: f.frag.ElementTree? && 0 <= i < |f.frag.kids| && g.frag == WithKid(f.frag, i, c)
    ensures g.frag.ElementTree? && d0.next <= d.next && d0.next <= f.frag.ref
    ensures forall i, r :: 0 <= i < |g.frag.kids| && r in Refs(g.frag.kids[i]) ==> r in Refs(t) || d0.next <= r
  {
    hide Refs;
  }

  lemma OwnerOf(p: Plan, n: nat, e: nat)
    requires Good(p) && n < |p.fates| && e < |p.owners| && p.owners[e].Moved? && p.owners[e].a == n
    ensures p.fates[n] == Leave(e)
  {
  }

  lemma MovedSame(p: Plan, moved: map<nat, Ref>, cur: seq<Tree>, n: nat, c: Tree)
    requires Good(p) && MovedFor(moved, p, cur, n) && n < |p.fates| && n < |cur| &&
      (p.fates[n].Keep? || Target(p, n) == None)
    ensures MovedFor(moved, p, cur[n := c], n + 1)
  {
    forall e | 0 <= e < |p.owners| && p.owners[e].Moved? && p.owners[e].a == n ensures false {
      OwnerOf(p, n, e);
    }
  }

  lemma MovedNext(p: Plan, moved: map<nat, Ref>, cur: seq<Tree>, n: nat, c: Tree, r: Ref)
    requires Good(p) && MovedFor(moved, p, cur, n) && n < |p.fates| && n < |cur| && p.fates[n].Leave?
    requires ToEnd(p, n) || r == c.ref
    ensures MovedFor(moved[p.fates[n].entry := r], p, cur[n := c], n + 1)
  {
    forall e | 0 <= e < |p.owners| && p.owners[e].Moved? && p.owners[e].a == n ensures p.fates[n] == Leave(e) {
      OwnerOf(p, n, e);
    }
    hide Good;
  }

  /** What applying the patches of one old child must be. */
  ghost predicate Applies(ps: seq<Patch>, d: Doc, root: Ref, entries: seq<Entry>, moved: map<nat, Ref>, e: Doc,
                          moved': map<nat, Ref>) {
    ApplyAll(State(d, Some(root), entries, moved), ps) == State(e, Some(root), entries, moved')
  }

  lemma KeepLocal(d0: Doc, t: Tree, d: Doc, f: Forest, p: Plan, news: seq<VNode>, moved: map<nat, Ref>, n: nat,
                  ps: seq<Patch>, e: Doc, c: Tree, r: Ref, entries: seq<Entry>) returns (g: Forest)
    requires Good(p) && Patching(d0, t, d, f, p, news, moved, n) && n < |p.fates| == |f.cur| && p.fates[n].Keep?
    requires Ended(ps, d, f.cur[n], e, c, r)
    ensures Patching(d0, t, e, g, p, news, moved, n + 1) && g.cur == f.cur[n := c] && g.frag.ref == f.frag.ref
    ensures Applies(ps, d, t.ref, entries, moved, e, moved)
  {
    hide Good, Stands, Since, Refs, Rooted, MovedFor, EndsDrawn, Step, Rank, Mask, ApplyAll, Only;
    NextChild(d0, t, d, f, p, news, moved, n);
    PresentKept(p, n);
    MainKid(d, f, p, |p.ends|, n, n);
    g := Forest(WithKid(f.main, Rank(Mask(p, |p.ends|, n), n), c), f.frag, f.cur[n := c]);
    KeepSeg(d, f, p, n, e, c, g);
    StepRefs(d, f.cur[n], e, c);
    SincePatched(d0, t, d, f, p, news, moved, n, e, g, c, Refs(f.cur[n]) + {f.main.ref}, Refs(f.cur[n]));
    MovedSame(p, moved, f.cur, n, c);
    EndsDrawnSame(f, g, p, news);
    assert Around(State(d, Some(t.ref), entries, moved), d, f.cur[n]);
  }

  lemma StepRefs(d: Doc, t: Tree, e: Doc, u: Tree)
    requires Step(d, t, e, u)
    ensures forall r :: r in Refs(u) ==> r in Refs(t) || d.next <= r
  {
  }

  lemma PresentKept(p: Plan, n: nat)
    requires n < |p.fates| && (p.fates[n].Keep? || !ToEnd(p, n))
    ensures Present(p, |p.ends|, n, n)
  {
  }

  lemma EndsDrawnSame(f: Forest, g: Forest, p: Plan, news: seq<VNode>)
    requires EndsDrawn(f, p, news, |p.ends|) && g.frag == f.frag
    ensures EndsDrawn(g, p, news, |p.ends|)
  {
  }

  lemma DropLocal(d0: Doc, t: Tree, d: Doc, f: Forest, p: Plan, news: seq<VNode>, moved: map<nat, Ref>, n: nat,
                  at: nat, entries: seq<Entry>) returns (g: Forest)
    requires Good(p) && Patching(d0, t, d, f, p, news, moved, n) && n < |p.fates| == |f.cur| && p.fates[n].Leave? &&
      Target(p, n) == None
    ensures Patching(d0, t, Detach(d, f.cur[n].ref), g, p, news, moved, n + 1) && g.cur == f.cur &&
      g.frag.ref == f.frag.ref
    ensures Applies([Patch(at, Remove(None), Some(f.cur[n].ref))], d, t.ref, entries, moved, Detach(d, f.cur[n].ref),
      moved)
  {
    hide Good, Stands, Since, Refs, Rooted, MovedFor, EndsDrawn, Step, Rank, Mask, Only, Detach, Cut, ApplyAll;
    NextChild(d0, t, d, f, p, news, moved, n);
    PresentKept(p, n);
    MainKid(d, f, p, |p.ends|, n, n);
    g := Forest(f.main.(kids := Cut(f.main.kids, Rank(Mask(p, |p.ends|, n), n))), f.frag, f.cur);
    DropSeg(d, f, p, n, g);
    RootIn(f.cur[n]);
    assert f.cur[n := f.cur[n]] == f.cur;
    SincePatched(d0, t, d, f, p, news, moved, n, Detach(d, f.cur[n].ref), g, f.cur[n], {f.main.ref}, {f.cur[n].ref});
    MovedSame(p, moved, f.cur, n, f.cur[n]);
    EndsDrawnSame(f, g, p, news);
    ApplyOne(State(d, Some(t.ref), entries, moved), Patch(at, Remove(None), Some(f.cur[n].ref)));
  }

  /** A child to be inserted later is taken out before it is patched. */
  lemma TakenOut(d: Doc, f: Forest, p: Plan, n: nat)
    requires Good(p) && Stands(d, f, p, |p.ends|, n) && n < |p.fates| == |f.cur| && Between(p, n)
    ensures Rooted(Detach(d, f.cur[n].ref), f.cur[n]) && f.cur[n].ref !in Detach(d, f.cur[n].ref).parent
    ensures Present(p, |p.ends|, n, n)
  {
    PresentKept(p, n);
    hide Good, Stands, Valid, Holds, Rank, Mask, Cut, Refs, Detach, Only;
    DropSegTrees(d, f, p, n, Rank(Mask(p, |p.ends|, n), n));
  }

  /** A lost root: the tree stays as it was, outside. */
  lemma LostStep(d: Doc, k: Tree, e: Doc)
    requires Rooted(d, k) && k.ref !in d.parent && Only(d, e, {}, {}) && Valid(e)
    ensures Step(d, k, e, k)
  {
    HoldsBelow(d, k);
    RootIn(k);
    KeepTree(d, e, {}, {}, k);
    assert SameParent(d, e, k.ref);
    hide Valid, Holds, Refs;
    forall r: Ref | r < d.next && r !in Refs(k) ensures Elsewhere(d, k, e, k, r) {
      assert SameNode(d, e, r) && SameParent(d, e, r);
    }
  }

  lemma MoveLocal(d0: Doc, t: Tree, d: Doc, f: Forest, p: Plan, news: seq<VNode>, moved: map<nat, Ref>, n: nat,
                  at: nat, ps: seq<Patch>, e: Doc, c: Tree, r: Ref, entries: seq<Entry>) returns (g: Forest)
    requires Good(p) && Patching(d0, t, d, f, p, news, moved, n) && n < |p.fates| == |f.cur| && Between(p, n)
    requires Ended(ps, Detach(d, f.cur[n].ref), f.cur[n], e, c, r)
    requires r == c.ref || (r == f.cur[n].ref && Only(Detach(d, f.cur[n].ref), e, {}, {}))
    requires p.fates[n].entry < |entries| && entries[p.fates[n].entry].at.Some?
    ensures var c' := if r == c.ref then c else f.cur[n]; g.cur == f.cur[n := c'] && g.frag.ref == f.frag.ref
    ensures Patching(d0, t, e, g, p, news, moved[p.fates[n].entry := r], n + 1)
    ensures Applies([Patch(at, Remove(Some(Move(ps, p.fates[n].entry))), Some(f.cur[n].ref))], d, t.ref, entries,
      moved, e, moved[p.fates[n].entry := r])
  {
    MoveApplies(d, t, f.cur[n], p.fates[n].entry, at, ps, e, c, r, entries, moved) by {
      hide Good, Stands, Since, Refs, Rooted, MovedFor, EndsDrawn, Step, Rank, Mask, Only, Detach, Cut, ApplyAll, Turns;
      NextChild(d0, t, d, f, p, news, moved, n);
    }
    hide Good, Stands, Since, Refs, Rooted, MovedFor, EndsDrawn, Step, Rank, Mask, Only, Detach, Cut, ApplyAll,
      Turns, Applies;
    NextChild(d0, t, d, f, p, news, moved, n);
    TakenOut(d, f, p, n);
    MainKid(d, f, p, |p.ends|, n, n);
    var c' := if r == c.ref then c else f.cur[n];
    var d1 := Detach(d, f.cur[n].ref);
    if r != c.ref { EndedValid(ps, d1, f.cur[n], e, c, r); LostStep(d1, f.cur[n], e); }
    g := Forest(f.main.(kids := Cut(f.main.kids, Rank(Mask(p, |p.ends|, n), n))), f.frag, f.cur[n := c']);
    MoveSeg(d, f, p, n, e, c', g);
    DetachNext(d, f.cur[n].ref);
    StepRefs(d1, f.cur[n], e, c');
    SincePatched(d0, t, d, f, p, news, moved, n, e, g, c', Refs(f.cur[n]) + {f.main.ref}, Refs(f.cur[n]));
    MovedNext(p, moved, f.cur, n, c', r);
    EndsDrawnSame(f, g, p, news);
  }

  lemma DetachNext(d: Doc, r: Ref)
    ensures Detach(d, r).next == d.next
  {
  }

  lemma EndedValid(ps: seq<Patch>, d: Doc, t: Tree, e: Doc, u: Tree, r: Ref)
    requires Ended(ps, d, t, e, u, r)
    ensures Valid(e)
  {
  }

  lemma MoveApplies(d: Doc, t: Tree, k: Tree, entry: nat, at: nat, ps: seq<Patch>, e: Doc, c: Tree, r: Ref,
                    entries: seq<Entry>, moved: map<nat, Ref>)
    requires Ended(ps, Detach(d, k.ref), k, e, c, r) && k.ref != t.ref
    requires entry < |entries| && entries[entry].at.Some?
    ensures Applies([Patch(at, Remove(Some(Move(ps, entry))), Some(k.ref))], d, t.ref, entries, moved, e,
      moved[entry := r])
  {
    RootIn(k);
    assert k.ref < Detach(d, k.ref).next by { HoldsBelow(Detach(d, k.ref), k); }
    hide Rooted, Step, Refs, Detach, Holds, Valid;
    var s := State(d, Some(t.ref), entries, moved);
    var s1 := State(Detach(d, k.ref), Some(k.ref), [], map[]);
    assert Around(s1, Detach(d, k.ref), k);
    assert ApplyAll(s1, ps) == State(e, Some(r), [], map[]);
    hide ApplyAll;
    ApplyOne(s, Patch(at, Remove(Some(Move(ps, entry))), Some(k.ref)));
  }

  lemma EndLocal(d0: Doc, t: Tree, d: Doc, f: Forest, p: Plan, news: seq<VNode>, moved: map<nat, Ref>, n: nat,
                 at: nat, ps: seq<Patch>, e: Doc, c: Tree, r: Ref, entries: seq<Entry>) returns (g: Forest)
    requires Good(p) && Patching(d0, t, d, f, p, news, moved, n) && n < |p.fates| == |f.cur| && ToEnd(p, n)
    requires Ended(ps, d, f.cur[n], e, c, r)
    requires p.fates[n].entry < |entries| && entries[p.fates[n].entry].at.None?
    ensures g.cur == f.cur[n := c] && g.frag.ref == f.frag.ref
    ensures Patching(d0, t, e, g, p, news, moved[p.fates[n].entry := r], n + 1)
    ensures Applies([Patch(at, Remove(Some(Move(ps, p.fates[n].entry))), Some(f.cur[n].ref))], d, t.ref, entries,
      moved, e, moved[p.fates[n].entry := r])
  {
    hide Good, Stands, Since, Refs, Rooted, MovedFor, EndsDrawn, Step, Rank, Mask, Only, Detach, Cut, ApplyAll,
      Turns, Applies, ToEnd, FragMatches, Disjoint, AllOld, Valid, Holds, Outside;
    NextChild(d0, t, d, f, p, news, moved, n);
    StandsParts(d, f, p, |p.ends|, n);
    var i := EndIndex(p, n);
    ToEndIs(p, n);
    FragAt(f, p, i);
    g := Forest(f.main, WithKid(f.frag, i, c), f.cur[n := c]);
    EndSeg(d, f, p, n, e, c, i, g);
    StepRefs(d, f.cur[n], e, c);
    SincePatched(d0, t, d, f, p, news, moved, n, e, g, c, Refs(f.cur[n]) + {f.frag.ref}, Refs(f.cur[n]));
    MovedNext(p, moved, f.cur, n, c, r);
    EndsDrawnWith(f, g, p, news, i, c);
    EndApplies(d, t, f.cur[n], p.fates[n].entry, at, ps, e, c, r, entries, moved);
  }

  lemma ToEndIs(p: Plan, n: nat)
    requires ToEnd(p, n)
    ensures p.fates[n].Leave? && p.fates[n].entry < |p.owners| && p.owners[p.fates[n].entry].Moved?
  {
  }

  lemma FragAt(f: Forest, p: Plan, i: nat)
    requires FragMatches(f, p, |p.ends|) && i < |p.ends| && p.ends[i] < |p.owners| && p.owners[p.ends[i]].Moved?
    ensures p.owners[p.ends[i]].a < |f.cur| && i < |f.frag.kids| && f.frag.kids[i] == f.cur[p.owners[p.ends[i]].a]
  {
  }

  lemma EndsDrawnWith(f: Forest, g: Forest, p: Plan, news: seq<VNode>, i: nat, c: Tree)
    requires EndsDrawn(f, p, news, |p.ends|) && i < |p.ends| && p.ends[i] < |p.owners| && p.owners[p.ends[i]].Moved?
    requires g.frag == WithKid(f.frag, i, c)
    ensures EndsDrawn(g, p, news, |p.ends|)
  {
  }

  lemma EndApplies(d: Doc, t: Tree, k: Tree, entry: nat, at: nat, ps: seq<Patch>, e: Doc, c: Tree, r: Ref,
                   entries: seq<Entry>, moved: map<nat, Ref>)
    requires Ended(ps, d, k, e, c, r) && k.ref != t.ref
    requires entry < |entries| && entries[entry].at.None?
    ensures Applies([Patch(at, Remove(Some(Move(ps, entry))), Some(k.ref))], d, t.ref, entries, moved, e,
      moved[entry := r])
  {
    RootIn(k);
    assert k.ref < d.next by { HoldsBelow(d, k); }
    hide Rooted, Step, Refs, Detach, Holds, Valid;
    var s := State(d, Some(t.ref), entries, moved);
    var s1 := State(d, Some(k.ref), [], map[]);
    assert Around(s1, d, k);
    assert ApplyAll(s1, ps) == State(e, Some(r), [], map[]);
    hide ApplyAll;
    ApplyOne(s, Patch(at, Remove(Some(Move(ps, entry))), Some(k.ref)));
  }

  // ----- a segment of patches -----

  /** The attached patches of an old child. */
  function SegmentAt(p: Plan, a: nat, at: nat, qs: seq<Patch>, dom: Ref): seq<Patch> {
    if a >= |p.fates| then []
    else if p.fates[a].Keep? then qs
    else if Target(p, a).None? then [Patch(at, Remove(None), Some(dom))]
    else [Patch(at, Remove(Some(Move(qs, p.fates[a].entry))), Some(dom))]
  }

  lemma SegmentAttached(p: Plan, a: nat, sub: seq<Patch>, x: VNode, t: Tree, index: nat)
    requires x.KeyedNode? && a < |x.pairs| && t.ElementTree? && a < |t.kids|
    requires var at := index + 1 + Span(Kids(x), a); InRange(sub, at, at + Descendants(Kids(x)[a]))
    ensures var at := index + 1 + Span(Kids(x), a);
      AttachAll(Segment(p, a, at, sub), x, t, index) ==
      SegmentAt(p, a, at, AttachAll(sub, Kids(x)[a], t.kids[a], at), t.kids[a].ref)
  {
    var at := index + 1 + Span(Kids(x), a);
    hide Span;
    AttachKid(Segment(p, a, at, sub), x, t, index, a);
    if a < |p.fates| && p.fates[a].Leave? {
      hide AttachAll;
      AttachOne(Segment(p, a, at, sub)[0], Kids(x)[a], t.kids[a]);
    }
  }

  /** Where an old child with a target is when its turn comes. */
  lemma ChildReady(d0: Doc, t: Tree, d: Doc, f: Forest, p: Plan, news: seq<VNode>, moved: map<nat, Ref>, n: nat)
    requires Good(p) && Patching(d0, t, d, f, p, news, moved, n) && n < |p.fates| == |f.cur| && Target(p, n).Some?
    ensures Rooted(if Between(p, n) then Detach(d, f.cur[n].ref) else d, f.cur[n])
    ensures Between(p, n) ==> f.cur[n].ref !in Detach(d, f.cur[n].ref).parent
  {
    if Between(p, n) {
      Opened(d0, t, d, f, p, news, moved, n);
      TakenOut(d, f, p, n);
    } else if ToEnd(p, n) {
      EndReady(d0, t, d, f, p, news, moved, n);
    } else {
      PresentKept(p, n);
      MainKid(d, f, p, |p.ends|, n, n);
      hide Good, Stands, Rank, Mask, Refs;
      StandsParts(d, f, p, |p.ends|, n);
    }
  }

  lemma Opened(d0: Doc, t: Tree, d: Doc, f: Forest, p: Plan, news: seq<VNode>, moved: map<nat, Ref>, n: nat)
    requires Patching(d0, t, d, f, p, news, moved, n)
    ensures Rooted(d0, t) && Stands(d, f, p, |p.ends|, n) && Since(d0, t, d, f)
    ensures MovedFor(moved, p, f.cur, n) && EndsDrawn(f, p, news, |p.ends|)
  {
    hide Rooted, Stands, Since, MovedFor, EndsDrawn;
  }

  lemma EndReady(d0: Doc, t: Tree, d: Doc, f: Forest, p: Plan, news: seq<VNode>, moved: map<nat, Ref>, n: nat)
    requires Good(p) && Patching(d0, t, d, f, p, news, moved, n) && n < |p.fates| == |f.cur| && ToEnd(p, n)
    ensures Rooted(d, f.cur[n])
  {
    hide Good, Stands, Refs, Rooted, MovedFor, EndsDrawn, Since, ToEnd, FragMatches, Disjoint, AllOld;
    Opened(d0, t, d, f, p, news, moved, n);
    StandsParts(d, f, p, |p.ends|, n);
    var i := EndIndex(p, n);
    ToEndIs(p, n);
    FragAt(f, p, i);
    FragKid(d, f.frag, i);
    hide Valid, Holds;
    PlacedRooted(d, f.frag.ref, f.cur[n]);
  }

  lemma PlacedRooted(d: Doc, r: Ref, k: Tree)
    requires Placed(d, r, k) && Valid(d) && r < d.next
    ensures Rooted(d, k)
  {
  }

  // ----- what the moved entries hold at first -----

  lemma {:induction false} NoRemoves(x: VNode, y: VNode, index: nat)
    ensures forall i :: 0 <= i < |Diff(x, y, index)| ==> !Diff(x, y, index)[i].action.Remove?
    decreases x, 1, 0
  {
    if x.obj != y.obj {
      match (x, y)
      case (Tagger(_, _, _, _), Tagger(_, _, _, _)) => NoRemoves(Below(x), Below(y), index + 1);
      case (Node(_, _, _, _, _, _), Node(_, _, _, _, _, _)) => NoRemovesNodes(x, y, index);
      case (Node(_, _, _, _, _, _), KeyedNode(_, _, _, _, _, _)) => NoRemovesNodes(x, Dekey(y, y.obj), index);
      case (KeyedNode(_, _, _, _, _, _), KeyedNode(_, _, _, _, _, _)) => NoRemovesNodes(x, y, index);
      case _ =>
    }
  }

  lemma {:induction false} NoRemovesNodes(x: VNode, y: VNode, index: nat)
    requires (x.Node? && y.Node?) || (x.KeyedNode? && y.KeyedNode?)
    ensures forall i :: 0 <= i < |DiffNodes(x, y, index)| ==> !DiffNodes(x, y, index)[i].action.Remove?
    decreases x, 0, 1
  {
    if x.Node? {
      NoRemovesKids(x, y, index, Least(|x.kids|, |y.kids|));
      hide Diff, DiffKids;
    }
  }

  lemma {:induction false} NoRemovesKids(x: VNode, y: VNode, index: nat, n: nat)
    requires x.Node? && y.Node? && n <= |x.kids| && n <= |y.kids|
    ensures forall i :: 0 <= i < |DiffKids(x, y, index, n)| ==> !DiffKids(x, y, index, n)[i].action.Remove?
    decreases x, 0, 0, n
  {
    if n > 0 {
      NoRemovesKids(x, y, index, n - 1);
      NoRemoves(x.kids[n - 1], y.kids[n - 1], index + 1 + Span(x.kids, n - 1));
      hide Diff;
    }
  }

  lemma {:induction false} MovedRootsAppend(ps: seq<Patch>, qs: seq<Patch>, n: nat)
    requires n <= |qs|
    ensures MovedRoots(ps + qs, |ps| + n) == MovedRoots(ps, |ps|) + MovedRoots(qs, n)
  {
    if n == 0 {
      MovedRootsPrefix(ps, qs, |ps|);
    } else {
      MovedRootsAppend(ps, qs, n - 1);
    }
  }

  lemma {:induction false} MovedRootsPrefix(ps: seq<Patch>, qs: seq<Patch>, n: nat)
    requires n <= |ps|
    ensures MovedRoots(ps + qs, n) == MovedRoots(ps, n)
  {
    if n > 0 { MovedRootsPrefix(ps, qs, n - 1); }
  }

  lemma {:induction false} MovedRootsNone(ps: seq<Patch>, n: nat)
    requires n <= |ps| && forall i :: 0 <= i < |ps| ==> !ps[i].action.Remove?
    ensures MovedRoots(ps, n) == map[]
  {
    if n > 0 { MovedRootsNone(ps, n - 1); }
  }

  /** The moved entries of the first n old children are set. */
  ghost predicate MovedUpTo(m: map<nat, Ref>, p: Plan, kids: seq<Tree>, n: nat) {
    forall e :: 0 <= e < |p.owners| && p.owners[e].Moved? && p.owners[e].a < n ==>
      e in m && p.owners[e].a < |kids| && m[e] == kids[p.owners[e].a].ref
  }

  lemma AttachKinds(ps: seq<Patch>, x: VNode, t: Tree, low: nat)
    requires forall i :: 0 <= i < |ps| ==> !ps[i].action.Remove?
    ensures forall i :: 0 <= i < |ps| ==> !AttachAll(ps, x, t, low)[i].action.Remove?
  {
    forall i | 0 <= i < |ps| ensures !AttachAll(ps, x, t, low)[i].action.Remove? {
      AttachKind(ps[i], x, t, low);
    }
  }

  lemma AttachKind(q: Patch, x: VNode, t: Tree, low: nat)
    ensures Attach(q, x, t, low).action.Remove? <==> q.action.Remove?
  {
    hide Locate;
    var at := Locate(x, t, low, q.index);
    if at.Some? {
      assert AttachAction(q.action, at.value.0, at.value.1, q.index).Remove? <==> q.action.Remove?;
    }
  }

  lemma SegmentMoves(p: Plan, a: nat, at: nat, qs: seq<Patch>, kids: seq<Tree>, m: map<nat, Ref>)
    requires Good(p) && a < |p.fates| == |kids| && MovedUpTo(m, p, kids, a)
    requires forall i :: 0 <= i < |qs| ==> !qs[i].action.Remove?
    ensures var ps := SegmentAt(p, a, at, qs, kids[a].ref); MovedUpTo(m + MovedRoots(ps, |ps|), p, kids, a + 1)
  {
    var ps := SegmentAt(p, a, at, qs, kids[a].ref);
    if p.fates[a].Keep? { MovedRootsNone(qs, |qs|); }
    forall e | 0 <= e < |p.owners| && p.owners[e].Moved? && p.owners[e].a == a ensures p.fates[a] == Leave(e) {
      OwnerOf(p, a, e);
    }
    if p.fates[a].Leave? {
      FateIs(p, a);
      assert MovedRoots(ps, 0) == map[];
    }
  }

  lemma FateIs(p: Plan, a: nat)
    requires Good(p) && a < |p.fates| && p.fates[a].Leave?
    ensures p.fates[a].entry < |p.owners| && p.owners[p.fates[a].entry].HasOld() && p.owners[p.fates[a].entry].a == a
  {
  }

  lemma {:induction false} LocalsMove(x: VNode, news: seq<VNode>, p: Plan, index: nat, t: Tree, n: nat)
    requires Good(p) && x.KeyedNode? && Counted(x) && t.ElementTree? && n <= |x.pairs| == |t.kids| == |p.fates|
    ensures var ps := AttachAll(Locals(x, news, p, index, n), x, t, index);
      MovedUpTo(MovedRoots(ps, |ps|), p, t.kids, n)
  {
    hide Good, Attach, Diff, MovedUpTo, MovedRoots, Counted, Span, AttachAll, InRange, Target, Attach, Descendants,
      Segment, SegmentAt;
    if n == 0 {
      AttachNothing(x, t, index);
      MovedNone(p, t.kids, MovedRoots([], 0));
    } else {
      LocalsMove(x, news, p, index, t, n - 1);
      var ps, qs, subs := SplitLocals(x, news, p, index, t, n - 1);
      SegmentMoves(p, n - 1, index + 1 + Span(Kids(x), n - 1), subs, t.kids, MovedRoots(ps, |ps|));
      MovedRootsAppend(ps, qs, |qs|);
    }
  }

  lemma SplitLocals(x: VNode, news: seq<VNode>, p: Plan, index: nat, t: Tree, a: nat)
    returns (ps: seq<Patch>, qs: seq<Patch>, subs: seq<Patch>)
    requires x.KeyedNode? && Counted(x) && t.ElementTree? && a < |x.pairs| == |t.kids|
    ensures ps == AttachAll(Locals(x, news, p, index, a), x, t, index)
    ensures qs == SegmentAt(p, a, index + 1 + Span(Kids(x), a), subs, t.kids[a].ref)
    ensures AttachAll(Locals(x, news, p, index, a + 1), x, t, index) == ps + qs
    ensures forall i :: 0 <= i < |subs| ==> !subs[i].action.Remove?
  {
    hide Attach, Diff, Counted, Span, AttachAll, InRange, Target, Descendants, Segment, SegmentAt;
    var at := index + 1 + Span(Kids(x), a);
    var tgt := Target(p, a);
    var sub := if tgt.Some? && tgt.value < |news| then Diff(x.pairs[a].node, news[tgt.value], at) else [];
    SubIs(x, a, tgt, news, at);
    AttachAppend(Locals(x, news, p, index, a), Segment(p, a, at, sub), x, t, index);
    SegmentAttached(p, a, sub, x, t, index);
    AttachKinds(sub, Kids(x)[a], t.kids[a], at);
    subs := AttachAll(sub, Kids(x)[a], t.kids[a], at);
    ps, qs := AttachAll(Locals(x, news, p, index, a), x, t, index), SegmentAt(p, a, at, subs, t.kids[a].ref);
  }

  lemma AttachNothing(x: VNode, t: Tree, index: nat)
    ensures AttachAll([], x, t, index) == []
  {
  }

  lemma MovedNone(p: Plan, kids: seq<Tree>, m: map<nat, Ref>)
    ensures MovedUpTo(m, p, kids, 0)
  {
  }

  /** The patches towards a target are in the range of the old child and remove nothing. */
  lemma SubIs(x: VNode, a: nat, tgt: Option<nat>, news: seq<VNode>, at: nat)
    requires x.KeyedNode? && Counted(x) && a < |x.pairs|
    ensures var sub := if tgt.Some? && tgt.value < |news| then Diff(x.pairs[a].node, news[tgt.value], at) else [];
      InRange(sub, at, at + Descendants(Kids(x)[a])) && forall i :: 0 <= i < |sub| ==> !sub[i].action.Remove?
  {
    CountedKids(x);
    hide Diff, Counted;
    if tgt.Some? && tgt.value < |news| {
      DiffInRange(Kids(x)[a], news[tgt.value], at);
      NoRemoves(x.pairs[a].node, news[tgt.value], at);
    }
  }

  // ----- the plan of a reorder -----

  lemma PlanFacts(xs: seq<Keyed>, ys: seq<Keyed>)
    ensures var p := PlanOf(xs, ys); var news := NewKids(p, ys);
      && Good(p) && |p.fates| == |xs| && |news| == p.scanned + |p.ends|
      && (p.extra.None? ==> news == Unkeyed(ys)) && (p.extra.Some? ==> |news| == |ys| + 1)
  {
    PlanGood(Keys(xs), Keys(ys));
    hide Good, MakePlan;
  }

  lemma PlanEntries(xs: seq<Keyed>, ys: seq<Keyed>)
    ensures var p := PlanOf(xs, ys); var news := NewKids(p, ys);
      EntriesFor(EntriesOf(p, xs, news), p, news) && TargetsBelow(p, |news|)
  {
    var p := PlanOf(xs, ys);
    var news := NewKids(p, ys);
    PlanFacts(xs, ys);
    hide NewKids, MakePlan;
    NewsBelow(p, |news|);
    hide Good;
    forall a | 0 <= a < |p.fates| && Target(p, a).Some? ensures Target(p, a).value < |news| {
    }
  }

  /** Every new child that a plan names is there. */
  lemma NewsBelow(p: Plan, n: nat)
    requires Good(p) && n == p.scanned + |p.ends|
    ensures forall e :: 0 <= e < |p.owners| && p.owners[e].HasNew() ==> p.owners[e].j < n
    ensures forall a :: 0 <= a < |p.fates| && p.fates[a].Keep? ==> p.fates[a].j < n
  {
    hide Filled, Kept;
    forall e | 0 <= e < |p.owners| && p.owners[e].HasNew() ensures p.owners[e].j < n {
      if p.owners[e].atEnd {
        var k :| 0 <= k < |p.ends| && p.ends[k] == e;
      } else {
        var k :| 0 <= k < |p.inserts| && p.inserts[k] == e;
      }
    }
  }

  lemma EntryAt(p: Plan, a: nat, entries: seq<Entry>, news: seq<VNode>)
    requires Good(p) && EntriesFor(entries, p, news) && a < |p.fates| && p.fates[a].Leave? && Target(p, a).Some?
    ensures p.fates[a].entry < |entries| && (Between(p, a) <==> entries[p.fates[a].entry].at.Some?)
    ensures Between(p, a) <==> !ToEnd(p, a)
  {
  }

  /** One old child, whatever its fate. */
  lemma OneLocal(d0: Doc, t: Tree, d: Doc, f: Forest, p: Plan, news: seq<VNode>, moved: map<nat, Ref>, n: nat,
                 at: nat, ps: seq<Patch>, e: Doc, c: Tree, r: Ref, entries: seq<Entry>)
    returns (g: Forest, moved': map<nat, Ref>)
    requires Good(p) && Patching(d0, t, d, f, p, news, moved, n) && n < |p.fates| == |f.cur| && Target(p, n).Some?
    requires Ended(ps, if Between(p, n) then Detach(d, f.cur[n].ref) else d, f.cur[n], e, c, r)
    requires Between(p, n) ==> r == c.ref || (r == f.cur[n].ref && Only(Detach(d, f.cur[n].ref), e, {}, {}))
    requires EntriesFor(entries, p, news)
    ensures Patching(d0, t, e, g, p, news, moved', n + 1) && g.frag.ref == f.frag.ref
    ensures g.cur == f.cur[n := if Between(p, n) && r != c.ref then f.cur[n] else c]
    ensures Applies(SegmentAt(p, n, at, ps, f.cur[n].ref), d, t.ref, entries, moved, e, moved')
  {
    hide Good, Patching, Ended, Applies, Only, EntriesFor, Detach;
    if p.fates[n].Leave? { EntryAt(p, n, entries, news); }
    if p.fates[n].Keep? {
      g := KeepLocal(d0, t, d, f, p, news, moved, n, ps, e, c, r, entries);
      moved' := moved;
    } else {
      moved' := moved[p.fates[n].entry := r];
      if Between(p, n) {
        g := MoveLocal(d0, t, d, f, p, news, moved, n, at, ps, e, c, r, entries);
      } else {
        g := EndLocal(d0, t, d, f, p, news, moved, n, at, ps, e, c, r, entries);
      }
    }
  }

  lemma AppliesThen(ps: seq<Patch>, qs: seq<Patch>, d: Doc, root: Ref, entries: seq<Entry>, moved: map<nat, Ref>,
                    e: Doc, moved': map<nat, Ref>, f: Doc, moved'': map<nat, Ref>)
    requires Applies(ps, d, root, entries, moved, e, moved') && Applies(qs, e, root, entries, moved', f, moved'')
    ensures Applies(ps + qs, d, root, entries, moved, f, moved'')
  {
    ApplyAppend(State(d, Some(root), entries, moved), ps, qs);
  }

  // ----- the whole reorder -----

  /** The document in which the first old child is patched. */
  function Filled0(d: Doc, p: Plan, entries: seq<Entry>, moved: map<nat, Ref>): Doc {
    var (d1, frag) := Create(d, FRAGMENT);
    if p.ends == [] then d else FillFragment(d1, frag, EndsOf(p), entries, moved, |p.ends|)
  }

  lemma PatchingFirst(d: Doc, t: Tree, p: Plan, news: seq<VNode>, entries: seq<Entry>, moved: map<nat, Ref>)
    returns (f: Forest)
    requires Good(p) && Rooted(d, t) && t.ElementTree? && |t.kids| == |p.fates| && EntriesFor(entries, p, news)
    requires MovedUpTo(moved, p, t.kids, |p.fates|)
    ensures Patching(d, t, Filled0(d, p, entries, moved), f, p, news, moved, 0) && f.cur == t.kids &&
      f.frag.ref == d.next
  {
    hide Rooted, Stands, Since, EntriesFor, Render, InsertBefore;
    var d1 := if p.ends == [] then d else Create(d, FRAGMENT).0;
    var f0 := Forest(t, NewFragment(d.next), t.kids);
    StartStands(d, t, p);
    StartSince(d, t, p);
    RootBelow(d, t);
    MovedFirst(p, moved, t.kids);
    hide Good, MovedFor;
    f := FillStands(d, t, d1, f0, p, entries, moved, news, |p.ends|);
  }

  lemma RootBelow(d: Doc, t: Tree)
    requires Rooted(d, t)
    ensures t.ref < d.next
  {
    HoldsBelow(d, t);
    RootIn(t);
  }

  lemma MovedFirst(p: Plan, moved: map<nat, Ref>, kids: seq<Tree>)
    requires Good(p) && MovedUpTo(moved, p, kids, |p.fates|)
    ensures MovedFor(moved, p, kids, 0)
  {
  }

  function ReorderAction(p: Plan, ps: seq<Patch>, entries: seq<Entry>): Action {
    Reorder(ps, InsertsOf(p), EndsOf(p), entries)
  }

  /** What applying a reorder comes to. */
  lemma ReorderApplies(d: Doc, dom: Ref, p: Plan, ps: seq<Patch>, entries: seq<Entry>, e: Doc, moved: map<nat, Ref>,
                       s: State)
    requires s.doc == d && Applies(ps, Filled0(d, p, entries, MovedRoots(ps, |ps|)), dom, entries,
      MovedRoots(ps, |ps|), e, moved)
    ensures ApplyAction(s, dom, ReorderAction(p, ps, entries)) == (Finish(e, dom, d.next, p, entries, moved), dom,
      s.moved)
  {
    hide FillFragment, DoInserts, AppendFragment, Render, MovedRoots, ApplyAll;
    assert EndsOf(p) == [] <==> p.ends == [];
  }
}
