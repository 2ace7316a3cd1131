/** From patched old children to the first insert, and from the last insert to the end. */
module VdomReorderFinish {
  import opened Wrappers
  import opened VdomNodes
  import opened VdomKeyedPlan
  import opened VdomDiff
  import opened VdomDocument
  import opened VdomPatching
  import opened VdomSteps
  import opened VdomReorder
  import opened VdomReorderSteps
  import opened VdomReorderEnds
  import opened VdomReorderPhases
  import opened VdomReorderInserts

  // ----- before the first insert -----

  /** The children kept among the first n, with the new children they stand for. */
  function KeptPairs(fates: seq<Fate>, cur: seq<Tree>, n: nat): seq<(Tree, nat)>
    requires n <= |fates| == |cur|
  {
    if n == 0 then []
    else KeptPairs(fates, cur, n - 1) + (if fates[n - 1].Keep? then [(cur[n - 1], fates[n - 1].j)] else [])
  }

  lemma {:induction false} KeptPairsAre(fates: seq<Fate>, cur: seq<Tree>, mask: seq<bool>, n: nat)
    requires n <= |fates| == |cur| == |mask| && forall a :: 0 <= a < n ==> mask[a] == fates[a].Keep?
    ensures Firsts(KeptPairs(fates, cur, n)) == Select(cur, mask, n)
    ensures Seconds(KeptPairs(fates, cur, n)) == Kept(fates[..n])
    ensures forall a :: 0 <= a < n && fates[a].Keep? ==> (cur[a], fates[a].j) in KeptPairs(fates, cur, n)
    ensures forall c :: c in KeptPairs(fates, cur, n) ==>
      exists a :: 0 <= a < n && fates[a] == Keep(c.1) && cur[a] == c.0
  {
    if n > 0 {
      KeptPairsAre(fates, cur, mask, n - 1);
      assert fates[..n] == fates[..n - 1] + [fates[n - 1]];
      KeptSnoc(fates[..n - 1], fates[n - 1]);
      hide Kept;
      if fates[n - 1].Keep? {
        PairsSnoc(KeptPairs(fates, cur, n - 1), cur[n - 1], fates[n - 1].j);
      }
    }
  }

  lemma PairsSnoc(s: seq<(Tree, nat)>, a: Tree, b: nat)
    ensures Firsts(s + [(a, b)]) == Firsts(s) + [a] && Seconds(s + [(a, b)]) == Seconds(s) + [b]
    ensures forall x :: x in s + [(a, b)] <==> x in s || x == (a, b)
  {
  }

  ghost predicate TargetsBelow(p: Plan, n: nat) {
    forall a :: 0 <= a < |p.fates| && Target(p, a).Some? ==> Target(p, a).value < n
  }

  /** When all old children are patched, the element has the kept ones. */
  lemma MaskEnd(p: Plan)
    requires Good(p)
    ensures forall a :: 0 <= a < |p.fates| ==> Mask(p, |p.ends|, |p.fates|)[a] == p.fates[a].Keep?
  {
    forall a | 0 <= a < |p.fates| ensures Present(p, |p.ends|, |p.fates|, a) == p.fates[a].Keep? {
      if ToEnd(p, a) { var i := EndIndex(p, a); }
    }
  }

  lemma FilledNone(p: Plan)
    ensures Filled(p, 0) == Kept(p.fates)
  {
  }

  lemma PlacedFirst(d: Doc, f: Forest, p: Plan, news: seq<VNode>)
    requires Good(p) && Stands(d, f, p, |p.ends|, |p.fates|) && TargetsBelow(p, |news|)
    ensures PlacedSoFar(f.main, KeptPairs(p.fates, f.cur, |p.fates|), f, p, news, 0)
  {
    hide Good, Stands, Mask, Valid, Holds, See, Draw, Refs, FragMatches, Disjoint, AllOld, Select, KeptPairs, Kept,
      Filled;
    StandsParts(d, f, p, |p.ends|, |p.fates|);
    MaskEnd(p);
    FilledNone(p);
    var placed := KeptPairs(p.fates, f.cur, |p.fates|);
    KeptPairsAre(p.fates, f.cur, Mask(p, |p.ends|, |p.fates|), |p.fates|);
    assert p.fates[..|p.fates|] == p.fates;
    forall c | c in placed ensures Fit(c, p, f.cur, news) {
      var a :| 0 <= a < |p.fates| && p.fates[a] == Keep(c.1) && f.cur[a] == c.0;
      assert Target(p, a) == Some(c.1);
    }
  }

  lemma WaitingFirst(d: Doc, f: Forest, p: Plan, k: nat)
    requires Good(p) && Stands(d, f, p, |p.ends|, |p.fates|) && k < |p.inserts|
    ensures Waiting(d, f.main, f, p, p.inserts[k])
  {
    hide Valid, Holds, Refs, Select, Mask, FragMatches, Disjoint, AllOld, Filled, Kept;
    var e := p.inserts[k];
    if e < |p.owners| && p.owners[e].Moved? {
      var a := p.owners[e].a;
      assert Between(p, a) && !ToEnd(p, a);
      MainOut(d, f, p, |p.ends|, |p.fates|, a);
    }
  }

  lemma MidwayFirst(d0: Doc, t: Tree, d: Doc, f: Forest, p: Plan, news: seq<VNode>)
    requires Good(p) && Stands(d, f, p, |p.ends|, |p.fates|) && Since(d0, t, d, f) && TargetsBelow(p, |news|) &&
      t.ref < d0.next
    ensures Midway(d0, t, d, f.main, KeptPairs(p.fates, f.cur, |p.fates|), f, p, news, 0)
  {
    hide Good, Stands, Valid, Holds, Refs, FragMatches, Disjoint, AllOld, PlacedSoFar, KeptPairs, Waiting, Present;
    StandsParts(d, f, p, |p.ends|, |p.fates|);
    PlacedFirst(d, f, p, news);
    if p.ends != [] { MainFrag(d, f, p, |p.ends|, |p.fates|); }
    forall k | 0 <= k < |p.inserts| ensures Waiting(d, f.main, f, p, p.inserts[k]) { WaitingFirst(d, f, p, k); }
    assert Inserting(d, f.main, f, p, 0);
    MainKin(d0, t, d, f, p);
  }

  lemma MainKin(d0: Doc, t: Tree, d: Doc, f: Forest, p: Plan)
    requires Stands(d, f, p, |p.ends|, |p.fates|) && Since(d0, t, d, f)
    ensures Kin(d0, t, f.main)
  {
    hide Valid, Holds, FragMatches, Disjoint, AllOld;
    RootIn(t);
    forall r | r in Refs(f.main) && r != f.main.ref ensures r in Refs(t) || d0.next <= r {
      var q :| 0 <= q < |f.main.kids| && r in Refs(f.main.kids[q]);
      var a := SelectFrom(f.cur, Mask(p, |p.ends|, |p.fates|), |p.fates|, q);
    }
  }

  // ----- appending the fragment -----

  lemma FragmentRoots(g: Tree)
    requires g.ElementTree?
    ensures forall k :: k in Roots(g.kids) ==> k in Refs(g)
  {
    forall k | k in Roots(g.kids) ensures k in Refs(g) {
      var i :| 0 <= i < |g.kids| && Roots(g.kids)[i] == k;
      RootIn(g.kids[i]);
      RefsKids(g, i);
    }
  }

  ghost function RootSet(ts: seq<Tree>): set<Ref> {
    set k | k in Roots(ts)
  }

  /** Document d after AppendFragment, node by node. */
  lemma FragmentIs(d: Doc, p: Ref, q: Ref)
    requires p in d.nodes && !d.nodes[p].TextNode? && q in d.nodes && !d.nodes[q].TextNode? && p != q
    ensures var e := AppendFragment(d, p, q);
      && e.next == d.next && e.nodes.Keys == d.nodes.Keys
      && (forall r :: r in d.nodes && r != p && r != q ==> e.nodes[r] == d.nodes[r])
      && e.nodes[p] == d.nodes[p].(kids := ChildNodes(d, p) + ChildNodes(d, q))
      && e.nodes[q] == d.nodes[q].(kids := [])
      && (forall r :: r in e.parent <==> r in d.parent || r in ChildNodes(d, q))
      && (forall r :: r in e.parent ==> e.parent[r] == if r in ChildNodes(d, q) then p else d.parent[r])
  {
  }

  lemma NoRepeatJoined(s: seq<Ref>, t: seq<Ref>)
    requires NoRepeat(s) && NoRepeat(t) && forall k :: k in s ==> k !in t
    ensures NoRepeat(s + t)
  {
    forall i, j | 0 <= i < j < |s + t| ensures (s + t)[i] != (s + t)[j] {
      if i < |s| <= j {
        assert (s + t)[i] in s && (s + t)[j] in t;
      }
    }
  }

  lemma FragmentKids(d: Doc, p: Ref, q: Ref, r: Ref)
    requires p in d.nodes && !d.nodes[p].TextNode? && q in d.nodes && !d.nodes[q].TextNode? && p != q
    ensures ChildNodes(AppendFragment(d, p, q), r) ==
      if r == p then ChildNodes(d, p) + ChildNodes(d, q) else if r == q then [] else ChildNodes(d, r)
  {
  }

  lemma FragmentValid(d: Doc, p: Ref, q: Ref)
    requires Valid(d) && p in d.nodes && !d.nodes[p].TextNode? && q in d.nodes && !d.nodes[q].TextNode? && p != q
    requires forall k :: k in ChildNodes(d, p) ==> k !in ChildNodes(d, q)
    ensures Valid(AppendFragment(d, p, q))
  {
    hide AppendFragment, ChildNodes;
    FragmentIs(d, p, q);
    var e := AppendFragment(d, p, q);
    assert NoRepeat(ChildNodes(d, p)) && NoRepeat(ChildNodes(d, q));
    NoRepeatJoined(ChildNodes(d, p), ChildNodes(d, q));
    hide NoRepeat;
    assert forall k :: k in ChildNodes(d, q) ==> k in d.parent && d.parent[k] == q;
    forall r, k | r in e.nodes && k in ChildNodes(e, r) ensures k in e.parent && e.parent[k] == r {
      FragmentKids(d, p, q, r);
      if r != p && r != q {
        assert d.parent[k] == r;
      }
    }
    forall r | r in e.nodes ensures NoRepeat(ChildNodes(e, r)) {
      FragmentKids(d, p, q, r);
      if r == q { NoRepeatNone(); }
    }
  }

  lemma NoRepeatNone()
    ensures NoRepeat([])
  {
  }

  lemma FragmentSides(d: Doc, m: Tree, g: Tree)
    requires Holds(d, m) && m.ElementTree? && Outside(d, g) && g.ElementTree? && Refs(m) !! Refs(g)
    ensures m.ref != g.ref && m.ref in d.nodes && g.ref in d.nodes && !d.nodes[g.ref].TextNode?
    ensures d.nodes[m.ref] == Element(m.tag, m.ns, m.facts, Roots(m.kids))
    ensures ChildNodes(d, m.ref) == Roots(m.kids) && ChildNodes(d, g.ref) == Roots(g.kids)
    ensures forall k :: k in Roots(m.kids) ==> k !in Roots(g.kids)
  {
    hide Refs, Placed, Apart;
    RootIn(m);
    RootIn(g);
    FragmentRoots(g);
    FragmentRoots(m);
  }

  lemma FragmentFrame(d: Doc, p: Ref, q: Ref)
    requires p in d.nodes && !d.nodes[p].TextNode? && q in d.nodes && !d.nodes[q].TextNode? && p != q
    ensures Only(d, AppendFragment(d, p, q), {p, q}, set k | k in ChildNodes(d, q))
  {
    hide AppendFragment, ChildNodes;
    FragmentIs(d, p, q);
  }

  lemma FragmentOnly(d: Doc, m: Tree, g: Tree)
    requires Valid(d) && Holds(d, m) && m.ElementTree? && Outside(d, g) && g.ElementTree? && Refs(m) !! Refs(g)
    ensures var e := AppendFragment(d, m.ref, g.ref);
      && Only(d, e, {m.ref, g.ref}, RootSet(g.kids)) && Valid(e)
      && m.ref in e.nodes && e.nodes[m.ref] == Element(m.tag, m.ns, m.facts, Roots(m.kids) + Roots(g.kids))
      && forall k :: k in Roots(g.kids) ==> k in e.parent && e.parent[k] == m.ref
  {
    hide Refs, Holds, Outside, AppendFragment, Valid, Only, ChildNodes;
    FragmentSides(d, m, g);
    FragmentIs(d, m.ref, g.ref);
    FragmentFrame(d, m.ref, g.ref);
    FragmentValid(d, m.ref, g.ref);
  }

  /** A node below the root of one of several trees is not the root of another. */
  lemma RootOnce(ts: seq<Tree>, j: nat, r: Ref)
    requires Apart(ts) && j < |ts| && r in Refs(ts[j]) && r != ts[j].ref
    ensures r !in RootSet(ts)
  {
    forall i | 0 <= i < |ts| ensures Roots(ts)[i] != r {
      RootIn(ts[i]);
    }
  }

  lemma FragKidMoves(d: Doc, e: Doc, m: Tree, g: Tree, j: nat)
    requires Valid(d) && Holds(d, g) && g.ElementTree? && Refs(m) !! Refs(g) && j < |g.kids|
    requires Only(d, e, {m.ref, g.ref}, RootSet(g.kids)) && g.kids[j].ref in e.parent &&
      e.parent[g.kids[j].ref] == m.ref
    ensures Placed(e, m.ref, g.kids[j]) && Refs(g.kids[j]) <= Refs(g)
  {
    var c := g.kids[j];
    assert Placed(d, g.ref, c);
    assert Apart(g.kids);
    RefsKids(g, j);
    RootIn(m);
    HoldsBelow(d, g);
    hide Holds, Valid;
    forall r | r in Refs(c) && r != c.ref ensures SameParent(d, e, r) {
      RootOnce(g.kids, j, r);
    }
    hide Refs;
    HoldsFrame(d, e, c);
  }

  lemma MainKidStays(d: Doc, e: Doc, m: Tree, g: Tree, j: nat)
    requires Valid(d) && Holds(d, m) && m.ElementTree? && g.ElementTree? && Refs(m) !! Refs(g) && j < |m.kids|
    requires Only(d, e, {m.ref, g.ref}, RootSet(g.kids))
    ensures Placed(e, m.ref, m.kids[j]) && Refs(m.kids[j]) <= Refs(m)
  {
    RefsKids(m, j);
    RootIn(g);
    FragmentRoots(g);
    assert Placed(d, m.ref, m.kids[j]);
    hide Valid, Holds, Refs, Only;
    KidsFrame(d, e, m, {m.ref, g.ref}, RootSet(g.kids), j);
  }

  lemma FragmentAppended(d: Doc, m: Tree, g: Tree)
    requires Valid(d) && Holds(d, m) && m.ElementTree? && Outside(d, g) && g.ElementTree? && Refs(m) !! Refs(g)
    ensures var e := AppendFragment(d, m.ref, g.ref);
      Valid(e) && Holds(e, m.(kids := m.kids + g.kids)) && Only(d, e, {m.ref, g.ref}, RootSet(g.kids))
  {
    var e := AppendFragment(d, m.ref, g.ref);
    FragmentOnly(d, m, g);
    assert Apart(m.kids) && Apart(g.kids);
    hide AppendFragment, Valid, Holds, Placed, Only, Refs, Apart;
    forall j | 0 <= j < |m.kids| ensures Placed(e, m.ref, m.kids[j]) && Refs(m.kids[j]) <= Refs(m) {
      MainKidStays(d, e, m, g, j);
    }
    forall j | 0 <= j < |g.kids| ensures Placed(e, m.ref, g.kids[j]) && Refs(g.kids[j]) <= Refs(g) {
      assert g.kids[j].ref == Roots(g.kids)[j];
      FragKidMoves(d, e, m, g, j);
    }
    FragmentHeld(e, m, g);
  }

  lemma ApartJoined(s: seq<Tree>, t: seq<Tree>, a: set<Ref>, b: set<Ref>)
    requires Apart(s) && Apart(t) && a !! b
    requires (forall j :: 0 <= j < |s| ==> Refs(s[j]) <= a) && forall j :: 0 <= j < |t| ==> Refs(t[j]) <= b
    ensures Apart(s + t)
  {
    hide Refs;
    forall i, j | 0 <= i < j < |s + t| ensures Refs((s + t)[i]) !! Refs((s + t)[j]) {
      if j < |s| {
        assert Refs(s[i]) !! Refs(s[j]);
      } else if i < |s| {
        assert Refs(s[i]) <= a && Refs(t[j - |s|]) <= b;
      } else {
        assert Refs(t[i - |s|]) !! Refs(t[j - |s|]);
      }
    }
  }

  lemma FragmentHeld(e: Doc, m: Tree, g: Tree)
    requires m.ElementTree? && g.ElementTree? && Apart(m.kids) && Apart(g.kids) && Refs(m) !! Refs(g)
    requires m.ref in e.nodes && e.nodes[m.ref] == Element(m.tag, m.ns, m.facts, Roots(m.kids) + Roots(g.kids))
    requires forall j :: 0 <= j < |m.kids| ==> Placed(e, m.ref, m.kids[j]) && Refs(m.kids[j]) <= Refs(m)
    requires forall j :: 0 <= j < |g.kids| ==> Placed(e, m.ref, g.kids[j]) && Refs(g.kids[j]) <= Refs(g)
    ensures Holds(e, m.(kids := m.kids + g.kids))
  {
    hide Placed, Refs, Apart;
    ApartJoined(m.kids, g.kids, Refs(m), Refs(g));
    assert Roots(m.kids + g.kids) == Roots(m.kids) + Roots(g.kids);
  }

  // ----- the new children -----

  /** Every new child is in its place: drawn, or the old child that turned into it. */
  ghost predicate Arranged(kids: seq<Tree>, p: Plan, cur: seq<Tree>, news: seq<VNode>) {
    && |kids| == |news| && |cur| == |p.fates|
    && (forall j :: 0 <= j < |kids| ==> Fit((kids[j], j), p, cur, news))
    && (forall a :: 0 <= a < |cur| && Target(p, a).Some? ==>
      Target(p, a).value < |kids| && kids[Target(p, a).value] == cur[a])
  }

  /** The part of it that the scan covers. */
  lemma ArrangedScanned(main: Tree, placed: seq<(Tree, nat)>, f: Forest, p: Plan, news: seq<VNode>)
    requires Good(p) && PlacedSoFar(main, placed, f, p, news, |p.inserts|) && |f.cur| == |p.fates|
    ensures |main.kids| == p.scanned
    ensures forall j :: 0 <= j < p.scanned ==> Fit((main.kids[j], j), p, f.cur, news)
    ensures forall a :: 0 <= a < |f.cur| && Target(p, a).Some? && !ToEnd(p, a) ==>
      Target(p, a).value < p.scanned && main.kids[Target(p, a).value] == f.cur[a]
  {
    hide Fit, EndsMatch, Indexed, InsertsOnce, Filled, Kept;
    assert Seconds(placed) == UpTo(p.scanned);
    forall j | 0 <= j < p.scanned ensures Fit((main.kids[j], j), p, f.cur, news) {
      assert placed[j] == (main.kids[j], j) && placed[j] in placed;
    }
    forall a | 0 <= a < |f.cur| && Target(p, a).Some? && !ToEnd(p, a)
      ensures Target(p, a).value < p.scanned && main.kids[Target(p, a).value] == f.cur[a]
    {
      var j := Target(p, a).value;
      if p.fates[a].Leave? {
        var e := p.fates[a].entry;
        assert e in p.inserts;
        var k :| 0 <= k < |p.inserts| && p.inserts[k] == e;
      }
      assert (f.cur[a], j) in placed;
      var q :| 0 <= q < |placed| && placed[q] == (f.cur[a], j);
      assert Seconds(placed)[q] == j && Firsts(placed)[q] == f.cur[a];
    }
  }

  /** The part after it, which was in the fragment. */
  lemma ArrangedEnds(f: Forest, p: Plan, news: seq<VNode>)
    requires Good(p) && FragMatches(f, p, |p.ends|) && EndsDrawn(f, p, news, |p.ends|) && |f.cur| == |p.fates|
    requires |news| == p.scanned + |p.ends|
    ensures forall i :: 0 <= i < |p.ends| ==> Fit((f.frag.kids[i], p.scanned + i), p, f.cur, news)
    ensures forall a :: 0 <= a < |f.cur| && Target(p, a).Some? && ToEnd(p, a) ==>
      p.scanned <= Target(p, a).value < |news| && f.frag.kids[Target(p, a).value - p.scanned] == f.cur[a]
  {
    hide See, Draw, Filled, InsertsMatch, KeepsBelow, Indexed;
    forall i | 0 <= i < |p.ends| ensures Fit((f.frag.kids[i], p.scanned + i), p, f.cur, news) {
      var o := p.owners[p.ends[i]];
      assert o.HasNew() && o.j == p.scanned + i;
      if o.Moved? {
        EndOwner(p, i);
        assert Target(p, o.a) == Some(p.scanned + i);
      }
    }
    forall a | 0 <= a < |f.cur| && Target(p, a).Some? && ToEnd(p, a)
      ensures p.scanned <= Target(p, a).value < |news| && f.frag.kids[Target(p, a).value - p.scanned] == f.cur[a]
    {
      var i := EndIndex(p, a);
    }
  }

  lemma EndCount(f: Forest, p: Plan)
    requires FragMatches(f, p, |p.ends|)
    ensures f.frag.ElementTree? && |f.frag.kids| == |p.ends|
  {
  }

  lemma PlacedElement(main: Tree, placed: seq<(Tree, nat)>, f: Forest, p: Plan, news: seq<VNode>)
    requires PlacedSoFar(main, placed, f, p, news, |p.inserts|)
    ensures main.ElementTree?
  {
  }

  lemma ArrangedAll(main: Tree, placed: seq<(Tree, nat)>, f: Forest, p: Plan, news: seq<VNode>, kids: seq<Tree>)
    requires Good(p) && PlacedSoFar(main, placed, f, p, news, |p.inserts|) && |f.cur| == |p.fates|
    requires FragMatches(f, p, |p.ends|) && EndsDrawn(f, p, news, |p.ends|) && |news| == p.scanned + |p.ends|
    requires main.ElementTree? && f.frag.ElementTree? && kids == main.kids + f.frag.kids
    ensures Arranged(kids, p, f.cur, news)
  {
    hide Good, PlacedSoFar, EndsDrawn, Fit, Target, ToEnd, FragMatches;
    assert |f.frag.kids| == |p.ends| && f.frag.ElementTree? && main.ElementTree? by {
      EndCount(f, p);
      PlacedElement(main, placed, f, p, news);
    }
    ArrangedScanned(main, placed, f, p, news);
    ArrangedEnds(f, p, news);
  }

  // ----- a reorder as a step -----

  lemma SinceStep(d0: Doc, t: Tree, e: Doc, f: Forest)
    requires Rooted(d0, t) && Since(d0, t, e, f) && Kin(d0, t, f.main) && Valid(e) && Holds(e, f.main)
    ensures Step(d0, t, e, f.main)
  {
    StepSelf(d0, t);
    hide Valid, Holds, Refs;
    forall r: Ref | r < d0.next && r !in Refs(t) ensures Elsewhere(d0, t, e, f.main, r) {
      assert Elsewhere(d0, t, d0, t, r) && SameNode(d0, e, r) && SameParent(d0, e, r);
    }
  }

  lemma SinceAppended(d0: Doc, t: Tree, d: Doc, main: Tree, f: Forest, p: Plan, e: Doc, u: Tree)
    requires Since(d0, t, d, Forest(main, f.frag, f.cur)) && t.ref < d0.next && Refs(main) !! Refs(f.frag)
    requires Kin(d0, t, main) && Only(d, e, {main.ref, f.frag.ref}, RootSet(f.frag.kids)) &&
      u == main.(kids := main.kids + f.frag.kids)
    ensures Since(d0, t, e, Forest(u, f.frag, f.cur)) && Kin(d0, t, u)
  {
    RootIn(t);
    RootIn(main);
    FragmentRoots(f.frag);
    forall r | r in RootSet(f.frag.kids) ensures (r in Refs(t) && r != t.ref) || d0.next <= r {
      var i :| 0 <= i < |f.frag.kids| && Roots(f.frag.kids)[i] == r;
      RootIn(f.frag.kids[i]);
    }
    forall r | r in Refs(u) ensures r in Refs(t) || d0.next <= r {
      if r != u.ref {
        var i :| 0 <= i < |u.kids| && r in Refs(u.kids[i]);
        if i < |main.kids| {
          assert u.kids[i] == main.kids[i];
        } else {
          assert u.kids[i] == f.frag.kids[i - |main.kids|];
        }
      }
    }
    hide Refs, Only, RootSet;
    SinceThen(d0, t, d, Forest(main, f.frag, f.cur), e, Forest(u, f.frag, f.cur), {main.ref, f.frag.ref},
      RootSet(f.frag.kids));
  }

  /** After the last patch of the old children: the inserts, and the fragment. */
  function Finish(d: Doc, main: Ref, frag: Ref, p: Plan, entries: seq<Entry>, moved: map<nat, Ref>): Doc {
    var e := DoInserts(d, main, InsertsOf(p), entries, moved, |p.inserts|);
    if p.ends == [] then e else AppendFragment(e, main, frag)
  }

  lemma FinishStep(d0: Doc, t: Tree, d: Doc, f: Forest, p: Plan, news: seq<VNode>, entries: seq<Entry>,
                   moved: map<nat, Ref>)
    returns (u: Tree)
    requires Rooted(d0, t) && Good(p) && Stands(d, f, p, |p.ends|, |p.fates|) && Since(d0, t, d, f)
    requires TargetsBelow(p, |news|) && t.ref < d0.next && EntriesFor(entries, p, news)
    requires MovedFor(moved, p, f.cur, |p.fates|) && EndsDrawn(f, p, news, |p.ends|) && |news| == p.scanned + |p.ends|
    ensures Step(d0, t, Finish(d, f.main.ref, f.frag.ref, p, entries, moved), u)
    ensures u.ElementTree? && t.ElementTree? && u == t.(kids := u.kids) && Arranged(u.kids, p, f.cur, news)
  {
    hide Rooted, Good, Stands, Since, TargetsBelow, EntriesFor, MovedFor, EndsDrawn, DoInserts, AppendFragment,
      Midway, KeptPairs, FragMatches, Disjoint;
    StandsParts(d, f, p, |p.ends|, |p.fates|);
    hide AllOld, Apart, Holds, Valid, Outside, Step, Select, Mask;
    MidwayFirst(d0, t, d, f, p, news);
    var main, placed := InsertAll(d0, t, d, f.main, KeptPairs(p.fates, f.cur, |p.fates|), f, p, news, entries, moved,
      |p.inserts|);
    var e := DoInserts(d, f.main.ref, InsertsOf(p), entries, moved, |p.inserts|);
    u := FinishTree(d0, t, e, main, placed, f, p, news);
  }

  lemma FinishTree(d0: Doc, t: Tree, e: Doc, main: Tree, placed: seq<(Tree, nat)>, f: Forest, p: Plan, news: seq<VNode>)
    returns (u: Tree)
    requires Rooted(d0, t) && Good(p) && Midway(d0, t, e, main, placed, f, p, news, |p.inserts|) && |f.cur| == |p.fates|
    requires FragMatches(f, p, |p.ends|) && EndsDrawn(f, p, news, |p.ends|) && |news| == p.scanned + |p.ends|
    ensures Step(d0, t, if p.ends == [] then e else AppendFragment(e, main.ref, f.frag.ref), u)
    ensures u.ElementTree? && t.ElementTree? && u == t.(kids := u.kids) && Arranged(u.kids, p, f.cur, news)
  {
    hide Rooted, Good, EndsDrawn, AppendFragment, PlacedSoFar, Valid, Holds, Only, Step, Arranged, Waiting, Apart,
      Refs, Kin;
    assert f.frag.ElementTree? && |f.frag.kids| == |p.ends|;
    u := main.(kids := main.kids + f.frag.kids);
    ArrangedAll(main, placed, f, p, news, u.kids);
    hide FragMatches;
    if p.ends == [] {
      assert u == main;
      SinceStep(d0, t, e, Forest(main, f.frag, f.cur));
    } else {
      FragmentAppended(e, main, f.frag);
      SinceAppended(d0, t, e, main, f, p, AppendFragment(e, main.ref, f.frag.ref), u);
      SinceStep(d0, t, AppendFragment(e, main.ref, f.frag.ref), Forest(u, f.frag, f.cur));
    }
    assert Since(d0, t, e, Forest(main, f.frag, f.cur));
  }
}
