/** What the patches of a single node do to its tree. */
module VdomTurns {
  import VdomNamespaces
  import opened Wrappers
  import opened VdomFacts
  import opened VdomNodes
  import opened VdomDiff
  import opened VdomDocument
  import opened VdomPatching
  import opened VdomSteps
  import opened VdomRendering
  import opened VdomActions
  import opened VdomNumbering
  import opened VdomSound

  lemma NoChange(f: DomFacts)
    ensures ApplyFacts(f, NO_CHANGE) == f
  {
    assert f.props + map[] == f.props && f.styles + map[] == f.styles;
    assert ApplyAttrs(f.attrs, map[]) == f.attrs;
    assert VdomNamespaces.ApplyAttrsNS(f.attrsNS, []) == f.attrsNS;
  }

  lemma DrawFacts(x: VNode, t: Tree)
    requires (x.Node? || x.KeyedNode?) && See(t) == Draw(x)
    ensures t.ElementTree? && Seen(t.facts) == Seen(Fresh(x.facts))
  {
    DrawKids(x);
  }

  lemma FactsTurn(x: VNode, y: VNode, index: nat, d: Doc, t: Tree) returns (e: Doc, u: Tree)
    requires (x.Node? && y.Node?) || (x.KeyedNode? && y.KeyedNode?)
    requires Rooted(d, t) && See(t) == Draw(x)
    ensures t.ElementTree? && u.ElementTree? && u == t.(facts := u.facts)
    ensures Became(AttachAll(FactsPatch(x, y, index), x, t, index), d, t, e, u)
    ensures Seen(u.facts) == Seen(Fresh(y.facts)) <==> FactsKept(x.facts, y.facts)
  {
    DrawFacts(x, t);
    hide Seen, Fresh, DiffFacts, FactsKept, Draw, See;
    var change := DiffFacts(x.facts, y.facts);
    ShowsAll(t.facts, x.facts, y.facts);
    FactsPatched(t.facts, x.facts, y.facts);
    if change == NO_CHANGE {
      NoChange(t.facts);
      BecameNone(d, t);
      e, u := d, t;
    } else {
      e, u := SetDomFacts(d, t.ref, change), t.(facts := ApplyFacts(t.facts, change));
      FactsStep(d, t, change);
      AttachOne(NewPatch(index, SetFacts(change)), x, t);
      hide Step, Rooted, Holds, Valid, ApplyFacts, SetDomFacts;
      BecameOne(Patch(index, SetFacts(change), Some(t.ref)), d, t, e, u);
    }
  }

  lemma LengthActions(s: State, dom: Ref, length: nat, diff: nat, kids: seq<VNode>)
    ensures ApplyAction(s, dom, RemoveLast(length, diff)) == (RemoveMany(s.doc, dom, length, diff), dom, s.moved)
    ensures ApplyAction(s, dom, Append(length, kids)) ==
      (AppendMany(s.doc, dom, kids, length, |kids|, ChildAt(s.doc, dom, length)), dom, s.moved)
  {
    hide RemoveMany, AppendMany, ChildAt, ApplyAll, Render, FillFragment, DoInserts, AppendFragment;
  }

  lemma ShrinkTurn(index: nat, n: nat, d: Doc, t: Tree) returns (e: Doc, u: Tree)
    requires Rooted(d, t) && t.ElementTree? && n < |t.kids|
    ensures u == t.(kids := t.kids[..n])
    ensures Became([Patch(index, RemoveLast(n, |t.kids| - n), Some(t.ref))], d, t, e, u)
  {
    hide Draw, See, Refs, Step, Rooted, Holds, Valid, RemoveMany, Became, Ended, ApplyAction, ChildNodes, ChildAt;
    var m := |t.kids|;
    RemoveManyStep(d, t, n, m - n);
    assert t.kids[..n] + t.kids[n + (m - n)..] == t.kids[..n];
    e, u := RemoveMany(d, t.ref, n, m - n), t.(kids := t.kids[..n]);
    var p := Patch(index, RemoveLast(n, m - n), Some(t.ref));
    forall s: State | s.doc == d ensures ApplyAction(s, t.ref, p.action) == (e, u.ref, s.moved) {
      LengthActions(s, t.ref, n, m - n, []);
    }
    BecameOne(p, d, t, e, u);
  }

  lemma RootedHolds(d: Doc, t: Tree)
    requires Rooted(d, t)
    ensures Holds(d, t)
  {
  }

  lemma GrowTurn(index: nat, kids: seq<VNode>, d: Doc, t: Tree) returns (e: Doc, u: Tree)
    requires Rooted(d, t) && t.ElementTree? && |t.kids| < |kids|
    ensures u.ElementTree? && u == t.(kids := u.kids) && |u.kids| == |kids| && u.kids[..|t.kids|] == t.kids
    ensures Became([Patch(index, Append(|t.kids|, kids), Some(t.ref))], d, t, e, u)
    ensures forall j :: |t.kids| <= j < |kids| ==> See(u.kids[j]) == Draw(kids[j])
  {
    hide Draw, See, Refs, Step, Rooted, Holds, Valid, AppendMany, ChildNodes, ChildAt, Became, Ended, ApplyAction;
    RootedHolds(d, t);
    ChildIs(d, t);
    var m := |t.kids|;
    var added := AppendManyStep(d, t, kids, m, |kids|);
    e, u := AppendMany(d, t.ref, kids, m, |kids|, None), t.(kids := t.kids + added);
    assert u.kids == t.kids + added;
    var p := Patch(index, Append(m, kids), Some(t.ref));
    forall s: State | s.doc == d ensures ApplyAction(s, t.ref, p.action) == (e, u.ref, s.moved) {
      LengthActions(s, t.ref, m, 0, kids);
    }
    BecameOne(p, d, t, e, u);
    forall j | m <= j < |kids| ensures See(u.kids[j]) == Draw(kids[j]) {
      assert u.kids[j] == added[j - m];
    }
  }

  /** The patch is attached to t0, the tree before its facts changed. */
  lemma LengthTurn(x: VNode, y: VNode, index: nat, d: Doc, t: Tree, t0: Tree) returns (e: Doc, u: Tree)
    requires x.Node? && y.Node? && Rooted(d, t) && t.ElementTree? && |t.kids| == |x.kids| && t0.ref == t.ref
    ensures u.ElementTree? && u == t.(kids := u.kids) && |u.kids| == |y.kids|
    ensures Became(AttachAll(LengthPatch(x, y, index), x, t0, index), d, t, e, u)
    ensures forall j :: 0 <= j < Least(|x.kids|, |y.kids|) ==> u.kids[j] == t.kids[j]
    ensures forall j :: |x.kids| <= j < |y.kids| ==> See(u.kids[j]) == Draw(y.kids[j])
  {
    hide Draw, See, Became, Rooted;
    if |x.kids| > |y.kids| {
      e, u := ShrinkTurn(index, |y.kids|, d, t);
      AttachOne(LengthPatch(x, y, index)[0], x, t0);
    } else if |x.kids| < |y.kids| {
      e, u := GrowTurn(index, y.kids, d, t);
      AttachOne(LengthPatch(x, y, index)[0], x, t0);
      assert forall j :: 0 <= j < |t.kids| ==> u.kids[j] == u.kids[..|t.kids|][j];
    } else {
      BecameNone(d, t);
      e, u := d, t;
    }
  }

  lemma RedrawTurn(index: nat, v: VNode, x: VNode, d: Doc, t: Tree) returns (e: Doc, u: Tree)
    requires Rooted(d, t)
    ensures Became(AttachAll([NewPatch(index, Redraw(v))], x, t, index), d, t, e, u)
    ensures See(u) == Draw(v) && u.ref != t.ref
    ensures t.ref !in d.parent ==> Only(d, e, {}, {})
  {
    hide Rooted, Step, Render, ReplaceChild, See, Draw, Only;
    u := RedrawStep(d, t, v);
    var (e1, r) := Render(d, v);
    e := if t.ref in e1.parent && r != t.ref then ReplaceChild(e1, e1.parent[t.ref], r, t.ref) else e1;
    AttachOne(NewPatch(index, Redraw(v)), x, t);
    BecameOne(Patch(index, Redraw(v), Some(t.ref)), d, t, e, u);
  }

  /** Changing the taggers shows nothing. */
  lemma RetagTurn(taggers: seq<int>, ps: seq<Patch>, x: VNode, index: nat, d: Doc, t: Tree, e: Doc, u: Tree, r: Ref)
    requires Ended(AttachAll(ps, x, t, index), d, t, e, u, r)
    ensures Ended(AttachAll([NewPatch(index, Retag(taggers))] + ps, x, t, index), d, t, e, u, r)
  {
    var q := NewPatch(index, Retag(taggers));
    hide Step, Attach;
    StepSelf(d, t);
    AttachOne(q, x, t);
    BecameOne(Patch(index, Retag(taggers), Some(t.ref)), d, t, d, t);
    AttachAppend([q], ps, x, t, index);
    hide Became, AttachAll;
    BecameEnded(AttachAll([q], x, t, index), AttachAll(ps, x, t, index), d, t, d, t, e, u, r);
  }

  /** The patches of a thunk are applied to its root, and the root before them is returned. */
  lemma InsideTurn(sub: seq<Patch>, x: VNode, index: nat, d: Doc, t: Tree, e: Doc, u: Tree, r: Ref)
    requires x.Thunk? && Ended(AttachAll(sub, x.node, t, 0), d, t, e, u, r)
    ensures Ended(AttachAll([NewPatch(index, Inside(sub))], x, t, index), d, t, e, u, t.ref)
  {
    AttachOne(NewPatch(index, Inside(sub)), x, t);
    var qs := AttachAll(sub, x.node, t, 0);
    var p := Patch(index, Inside(qs), None);
    hide Step, Rooted, Refs, Attach, AttachAll;
    forall s: State | Around(s, d, t) ensures ApplyAll(s, [p]) == State(e, s.root, s.entries, s.moved) {
      ApplyOne(s, p);
      assert Around(State(d, None, [], map[]), d, t);
      assert ApplyAll(State(d, None, [], map[]), qs) == State(e, None, [], map[]);
    }
    hide ApplyAll;
    assert Turns([p], d, t, e, t.ref);
    EndedOf([p], d, t, e, u, t.ref);
  }

  lemma TextTurn(index: nat, text: string, x: VNode, d: Doc, t: Tree) returns (e: Doc, u: Tree)
    requires Rooted(d, t) && t.TextTree?
    ensures u == t.(data := text) && Became(AttachAll([NewPatch(index, SetText(text))], x, t, index), d, t, e, u)
  {
    DataStep(d, t, text);
    e, u := SetData(d, t.ref, text), t.(data := text);
    AttachOne(NewPatch(index, SetText(text)), x, t);
    hide Step, Rooted, SetData;
    BecameOne(Patch(index, SetText(text), Some(t.ref)), d, t, e, u);
  }

  /** A child in its place is rooted. */
  lemma KidRooted(d: Doc, t: Tree, i: nat)
    requires Rooted(d, t) && t.ElementTree? && i < |t.kids|
    ensures Rooted(d, t.kids[i])
  {
    assert Placed(d, t.ref, t.kids[i]);
  }

  // ----- the outcome of patching a node -----

  /** What patching tree t from x to y gives: tree u in document e, and the root r. */
  ghost predicate Outcome(x: VNode, y: VNode, ps: seq<Patch>, d: Doc, t: Tree, e: Doc, u: Tree, r: Ref) {
    && Ended(ps, d, t, e, u, r)
    && (See(u) == Draw(y) <==> Sound(x, y))
    && (u.ref != t.ref <==> Replaces(x, y))
    && r == (if Lost(x, y) then t.ref else u.ref)
    && (Replaces(x, y) && t.ref !in d.parent ==> Only(d, e, {}, {}))
  }

  lemma OutcomeOf(x: VNode, y: VNode, ps: seq<Patch>, d: Doc, t: Tree, e: Doc, u: Tree)
    requires Became(ps, d, t, e, u) && (See(u) == Draw(y) <==> Sound(x, y))
    requires u.ref != t.ref <==> Replaces(x, y)
    requires !Lost(x, y) && (Replaces(x, y) && t.ref !in d.parent ==> Only(d, e, {}, {}))
    ensures Outcome(x, y, ps, d, t, e, u, u.ref)
  {
    hide See, Draw, Sound, Replaces, Lost, Only, Ended;
  }

  lemma OutcomeIs(x: VNode, y: VNode, ps: seq<Patch>, d: Doc, t: Tree, e: Doc, u: Tree, r: Ref)
    requires Outcome(x, y, ps, d, t, e, u, r)
    ensures Ended(ps, d, t, e, u, r) && (See(u) == Draw(y) <==> Sound(x, y))
  {
  }
}
