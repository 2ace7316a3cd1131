/** Rendering draws a new tree and touches nothing else; redrawing puts it in place of an old one. */
module VdomRendering {
  import opened VdomFacts
  import opened VdomNodes
  import opened VdomDiff
  import opened VdomDocument
  import opened VdomPatching
  import opened VdomSteps

  /** Tree t is new in e, has no parent, and everything of d is as it was. */
  ghost predicate Drawn(d: Doc, e: Doc, t: Tree) {
    && Valid(e) && Holds(e, t) && t.ref !in e.parent && Only(d, e, {}, {})
    && forall r :: r in Refs(t) ==> d.next <= r
  }

  /** Children with these pictures have been drawn below the element p. */
  ghost predicate DrawnKids(d: Doc, e: Doc, p: Tree, t: Tree, pictures: seq<Picture>) {
    && p.ElementTree? && t.ElementTree? && t == p.(kids := t.kids)
    && Valid(e) && Holds(e, t) && t.ref !in e.parent && Only(d, e, {p.ref}, {})
    && Pictures(t.kids) == pictures
    && forall r :: r in Refs(t) ==> r == p.ref || d.next <= r
  }

  ghost function Pictures(ts: seq<Tree>): (s: seq<Picture>)
    ensures |s| == |ts| && forall i :: 0 <= i < |ts| ==> s[i] == See(ts[i])
  {
    seq(|ts|, i requires 0 <= i < |ts| => See(ts[i]))
  }

  lemma PutEnd<T>(s: seq<T>, v: T)
    ensures Put(s, |s|, v) == s + [v]
  {
  }

  lemma OnlyThen(d: Doc, e: Doc, f: Doc, ns: set<Ref>, ps: set<Ref>, ns': set<Ref>, ps': set<Ref>)
    requires Only(d, e, ns, ps) && Only(e, f, ns', ps')
    ensures Only(d, f, ns + ns', ps + ps')
  {
    forall r: Ref | r < d.next && r !in ns + ns' ensures SameNode(d, f, r) {
      assert SameNode(d, e, r) && SameNode(e, f, r);
    }
    forall r: Ref | r < d.next && r !in ps + ps' ensures SameParent(d, f, r) {
      assert SameParent(d, e, r) && SameParent(e, f, r);
    }
  }

  /** New nodes do not count when looking at the old document. */
  lemma OnlyOld(d: Doc, e: Doc, ns: set<Ref>, ps: set<Ref>, ns': set<Ref>, ps': set<Ref>)
    requires Only(d, e, ns, ps)
    requires forall r :: r in ns ==> r in ns' || d.next <= r
    requires forall r :: r in ps ==> r in ps' || d.next <= r
    ensures Only(d, e, ns', ps')
  {
  }

  lemma AddKidOnly(d: Doc, e: Doc, f: Doc, g: Doc, p: Ref, k: Ref)
    requires Only(d, e, {p}, {}) && Only(e, f, {}, {}) && Only(f, g, {p}, {k}) && d.next <= k
    ensures Only(d, g, {p}, {})
  {
    OnlyThen(d, e, f, {p}, {}, {}, {});
    OnlyThen(d, f, g, {p}, {}, {p}, {k});
    OnlyOld(d, g, {p}, {k}, {p}, {});
  }

  lemma AddKidHolds(e: Doc, t: Tree, f: Doc, k: Tree)
    requires Valid(e) && Holds(e, t) && t.ElementTree? && t.ref !in e.parent && Drawn(e, f, k)
    ensures var g := AppendChild(f, t.ref, k.ref);
      Valid(g) && Holds(g, t.(kids := t.kids + [k])) && t.ref !in g.parent && Only(f, g, {t.ref}, {k.ref})
  {
    HoldsBelow(e, t);
    RootIn(k);
    RootIn(t);
    HoldsFrame(e, f, t);
    InsertKid(f, t, k, |t.kids|);
    PutEnd(t.kids, k);
    var g := AppendChild(f, t.ref, k.ref);
    HoldsBelow(f, k);
    hide Valid, Holds, InsertBefore;
    assert SameParent(e, f, t.ref) && SameParent(f, g, t.ref);
  }

  lemma AddKid(d: Doc, e: Doc, p: Tree, t: Tree, f: Doc, k: Tree, pictures: seq<Picture>)
    requires DrawnKids(d, e, p, t, pictures) && Drawn(e, f, k)
    ensures DrawnKids(d, AppendChild(f, p.ref, k.ref), p, t.(kids := t.kids + [k]), pictures + [See(k)])
  {
    hide Valid, Holds, InsertBefore, See, Pictures;
    var g := AppendChild(f, p.ref, k.ref);
    var u := t.(kids := t.kids + [k]);
    AddKidHolds(e, t, f, k);
    RootIn(k);
    AddKidOnly(d, e, f, g, p.ref, k.ref);
    assert d.next <= e.next;
    hide Only;
    forall r | r in Refs(u) ensures r == p.ref || d.next <= r {
      assert r in Refs(t) || r in Refs(k);
    }
    hide Refs;
    assert Pictures(u.kids) == pictures + [See(k)];
  }

  lemma CreateDraws(d: Doc, n: DomNode, t: Tree)
    requires Valid(d) && t.ref == d.next
    requires match t
      case TextTree(_, data) => n == TextNode(data)
      case ElementTree(_, tag, ns, facts, kids) => kids == [] && n == Element(tag, ns, facts, [])
    ensures Drawn(d, Create(d, n).0, t) && Create(d, n).1 == t.ref
  {
  }

  lemma {:induction false} RenderDraws(d: Doc, v: VNode) returns (t: Tree)
    requires Valid(d)
    ensures Drawn(d, Render(d, v).0, t) && t.ref == Render(d, v).1 && See(t) == Draw(v)
    decreases v, 1, 0
  {
    match v {
      case Thunk(_, _, node, _) =>
        hide Drawn, Valid;
        t := RenderDraws(d, node);
      case Text(_, text) =>
        t := TextTree(d.next, text);
        CreateDraws(d, TextNode(text), t);
      case Tagger(_, _, _, _) =>
        hide Drawn, Valid;
        t := RenderDraws(d, Below(v));
        DrawBelow(v);
      case _ =>
        var (d1, r) := Create(d, Element(v.tag, v.ns, Fresh(v.facts), []));
        var p := ElementTree(r, v.tag, v.ns, Fresh(v.facts), []);
        CreateDraws(d, Element(v.tag, v.ns, Fresh(v.facts), []), p);
        hide Holds, Valid, DrawnKids, See, Draw, Fresh;
        t := RenderKidsDraws(d1, p, v, |Kids(v)|);
        ElementDrawn(d, RenderKids(d1, r, v, |Kids(v)|), v, t);
    }
  }

  function DrawAll(vs: seq<VNode>): (s: seq<Picture>)
    ensures |s| == |vs| && forall i :: 0 <= i < |vs| ==> s[i] == Draw(vs[i])
  {
    seq(|vs|, i requires 0 <= i < |vs| => Draw(vs[i]))
  }

  lemma NoKidsYet(d: Doc, p: Tree)
    requires Valid(d) && Holds(d, p) && p.ElementTree? && p.kids == [] && p.ref !in d.parent
    ensures DrawnKids(d, d, p, p, [])
  {
    assert Refs(p) == {p.ref};
  }

  lemma {:induction false} RenderKidsDraws(d: Doc, p: Tree, v: VNode, n: nat) returns (t: Tree)
    requires Valid(d) && Holds(d, p) && p.ElementTree? && p.kids == [] && p.ref !in d.parent && n <= |Kids(v)|
    ensures DrawnKids(d, RenderKids(d, p.ref, v, n), p, t, DrawAll(Kids(v)[..n]))
    decreases v, 0, n
  {
    hide Valid, Holds, Drawn, See, Draw, Render, Refs;
    if n == 0 {
      t := p;
      NoKidsYet(d, p);
      assert Kids(v)[..0] == [];
    } else {
      var u := RenderKidsDraws(d, p, v, n - 1);
      var e := RenderKids(d, p.ref, v, n - 1);
      var k := RenderDraws(e, Kids(v)[n - 1]);
      t := u.(kids := u.kids + [k]);
      AddKid(d, e, p, u, Render(e, Kids(v)[n - 1]).0, k, DrawAll(Kids(v)[..n - 1]));
      hide DrawnKids;
      assert DrawAll(Kids(v)[..n]) == DrawAll(Kids(v)[..n - 1]) + [See(k)];
    }
  }

  lemma ElementSeen(v: VNode, t: Tree)
    requires (v.Node? || v.KeyedNode?) && t.ElementTree? && t.tag == v.tag && t.ns == v.ns && t.facts == Fresh(v.facts)
    requires Pictures(t.kids) == DrawAll(Kids(v))
    ensures See(t) == Draw(v)
  {
    DrawKids(v);
    assert See(t).kids == Pictures(t.kids) == DrawAll(Kids(v)) == Draw(v).kids;
  }

  lemma ElementDrawn(d: Doc, e: Doc, v: VNode, t: Tree)
    requires Valid(d) && (v.Node? || v.KeyedNode?)
    requires var (d1, r) := Create(d, Element(v.tag, v.ns, Fresh(v.facts), []));
      DrawnKids(d1, e, ElementTree(r, v.tag, v.ns, Fresh(v.facts), []), t, DrawAll(Kids(v)[..|Kids(v)|]))
    ensures Drawn(d, e, t) && See(t) == Draw(v)
  {
    hide Valid, Holds, Fresh;
    var (d1, r) := Create(d, Element(v.tag, v.ns, Fresh(v.facts), []));
    assert Kids(v)[..|Kids(v)|] == Kids(v);
    ElementSeen(v, t);
    hide See, Draw;
    OnlyThen(d, d1, e, {}, {}, {r}, {});
    OnlyOld(d, e, {r}, {}, {}, {});
  }

  // ----- redrawing -----

  lemma ReplaceValid(d: Doc, p: Ref, added: Ref, gone: Ref)
    requires Valid(d) && added !in d.parent && added < d.next
    requires gone in d.parent && d.parent[gone] == p
    ensures Valid(ReplaceChild(d, p, added, gone))
  {
    if p in d.nodes && !d.nodes[p].TextNode? {
      var kids := ChildNodes(d, p);
      assert added !in kids;
      assert NoRepeat(Swap(kids, gone, added));
      forall k | k in Swap(kids, gone, added) ensures k == added || (k != gone && k in kids) {
      }
      RekidValid(d, p, Swap(kids, gone, added), (d.parent - {gone})[added := p]);
    }
  }

  lemma ReplaceOnly(e: Doc, p: Ref, added: Ref, gone: Ref)
    requires Valid(e) && added !in e.parent && added < e.next && gone in e.parent && e.parent[gone] == p && p != added
    ensures var f := ReplaceChild(e, p, added, gone);
      && Valid(f) && f.next == e.next && added in f.parent && f.parent[added] == p
      && (forall q: Ref :: q != added && q != gone ==> SameParent(e, f, q))
      && (forall q: Ref :: q != p ==> SameNode(e, f, q))
      && (p in e.nodes <==> p in f.nodes) && (p in e.nodes ==> f.nodes[p] == Reslot(e.nodes[p], gone, added))
  {
    ReplaceValid(e, p, added, gone);
  }

  lemma ReplaceStep(d: Doc, t: Tree, e: Doc, u: Tree)
    requires Rooted(d, t) && Drawn(d, e, u) && t.ref in e.parent
    ensures Step(d, t, ReplaceChild(e, e.parent[t.ref], u.ref, t.ref), u)
  {
    var p := e.parent[t.ref];
    var f := ReplaceChild(e, p, u.ref, t.ref);
    HoldsBelow(d, t);
    HoldsBelow(e, u);
    RootIn(t);
    RootIn(u);
    assert SameParent(d, e, t.ref);
    assert p < d.next && t.ref !in Refs(u);
    ReplaceOnly(e, p, u.ref, t.ref);
    hide Valid, ReplaceChild;
    HoldsFrame(e, f, u);
    hide Holds, Refs;
    forall q: Ref | q < d.next && q !in Refs(t) ensures Elsewhere(d, t, f, u, q) {
      assert SameNode(d, e, q) && SameParent(d, e, q) && SameParent(e, f, q);
      assert q != p ==> SameNode(e, f, q);
    }
  }

  lemma FreeStep(d: Doc, t: Tree, e: Doc, u: Tree)
    requires Rooted(d, t) && Drawn(d, e, u) && t.ref !in e.parent
    ensures Step(d, t, e, u)
  {
    HoldsBelow(d, t);
    RootIn(t);
    assert SameParent(d, e, t.ref);
    hide Valid, Holds, Refs;
    forall q: Ref | q < d.next && q !in Refs(t) ensures Elsewhere(d, t, e, u, q) {
      assert SameNode(d, e, q) && SameParent(d, e, q);
    }
  }

  /** Redrawing a tree: render, and replace it where it had a parent. */
  lemma RedrawStep(d: Doc, t: Tree, v: VNode) returns (u: Tree)
    requires Rooted(d, t)
    ensures var (e, r) := Render(d, v);
      && u.ref == r != t.ref && See(u) == Draw(v)
      && Step(d, t, if t.ref in e.parent && r != t.ref then ReplaceChild(e, e.parent[t.ref], r, t.ref) else e, u)
      && (t.ref !in d.parent ==> t.ref !in e.parent && Only(d, e, {}, {}))
  {
    u := RenderDraws(d, v);
    var (e, r) := Render(d, v);
    assert r != t.ref && SameParent(d, e, t.ref) by {
      HoldsBelow(d, t);
      RootIn(t);
      RootIn(u);
    }
    hide Render, Holds, Valid, Step, Drawn, Rooted, ReplaceChild;
    if t.ref in e.parent { ReplaceStep(d, t, e, u); } else { FreeStep(d, t, e, u); }
  }
}
