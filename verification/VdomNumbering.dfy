/** Indices: every patch of a difference lies in the range of its node, and attaching it in the
    whole tree is attaching it in the subtree of that node. */
module VdomNumbering {
  import opened Wrappers
  import opened VdomFacts
  import opened VdomNodes
  import opened VdomDiff
  import opened VdomDocument
  import opened VdomPatching

  ghost predicate InRange(ps: seq<Patch>, low: nat, high: nat) {
    forall i :: 0 <= i < |ps| ==> low <= ps[i].index <= high
  }

  lemma InRangeAppend(ps: seq<Patch>, qs: seq<Patch>, low: nat, high: nat)
    requires InRange(ps, low, high) && InRange(qs, low, high)
    ensures InRange(ps + qs, low, high)
  {
  }

  lemma InRangeNone(low: nat, high: nat)
    ensures InRange([], low, high)
  {
  }

  lemma InRangeWiden(ps: seq<Patch>, low: nat, high: nat, low': nat, high': nat)
    requires InRange(ps, low, high) && low' <= low && high <= high'
    ensures InRange(ps, low', high')
  {
  }

  lemma {:induction false} SpanGrows(kids: seq<VNode>, m: nat, n: nat)
    requires m <= n <= |kids|
    ensures Span(kids, m) <= Span(kids, n)
  {
    if m < n { SpanGrows(kids, m, n - 1); }
  }

  lemma CountedKids(v: VNode)
    requires Counted(v) && (v.Node? || v.KeyedNode?)
    ensures Descendants(v) == Span(Kids(v), |Kids(v)|)
    ensures forall i :: 0 <= i < |Kids(v)| ==> Counted(Kids(v)[i])
  {
  }

  /** The range of child j is inside the range of its parent. */
  lemma KidRange(v: VNode, low: nat, j: nat)
    requires Counted(v) && (v.Node? || v.KeyedNode?) && j < |Kids(v)|
    ensures low < low + 1 + Span(Kids(v), j)
    ensures low + 1 + Span(Kids(v), j) + Descendants(Kids(v)[j]) <= low + Descendants(v)
  {
    CountedKids(v);
    SpanGrows(Kids(v), j + 1, |Kids(v)|);
  }

  // ----- the indices of a difference -----

  lemma {:induction false} DiffInRange(x: VNode, y: VNode, index: nat)
    requires Counted(x)
    ensures InRange(Diff(x, y, index), index, index + Descendants(x))
    decreases x, 1, 0
  {
    if x.obj != y.obj {
      match (x, y)
      case (Tagger(_, _, _, _), Tagger(_, _, _, _)) =>
        CountedBelow(x);
        DiffInRange(Below(x), Below(y), index + 1);
      case (Node(_, _, _, _, _, _), Node(_, _, _, _, _, _)) => DiffNodesInRange(x, y, index);
      case (Node(_, _, _, _, _, _), KeyedNode(_, _, _, _, _, _)) => DiffNodesInRange(x, Dekey(y, y.obj), index);
      case (KeyedNode(_, _, _, _, _, _), KeyedNode(_, _, _, _, _, _)) => DiffNodesInRange(x, y, index);
      case _ =>
    }
  }

  lemma {:induction false} DiffNodesInRange(x: VNode, y: VNode, index: nat)
    requires Counted(x) && ((x.Node? && y.Node?) || (x.KeyedNode? && y.KeyedNode?))
    ensures InRange(DiffNodes(x, y, index), index, index + Descendants(x))
    decreases x, 0, 1
  {
    hide InRange, Counted, FactsPatch, LengthPatch, DiffKids, DiffKeyed, Descendants;
    var high := index + Descendants(x);
    OnePatch(x, y, index, high);
    if x.Node? {
      DiffKidsInRange(x, y, index, Least(|x.kids|, |y.kids|));
      InRangeAppend(LengthPatch(x, y, index), DiffKids(x, y, index, Least(|x.kids|, |y.kids|)), index, high);
      InRangeAppend(FactsPatch(x, y, index), LengthPatch(x, y, index) +
        DiffKids(x, y, index, Least(|x.kids|, |y.kids|)), index, high);
    } else {
      InRangeAppend(FactsPatch(x, y, index), DiffKeyed(x, y, index), index, high);
    }
  }

  /** The patches of the element itself have its index. */
  lemma OnePatch(x: VNode, y: VNode, index: nat, high: nat)
    requires ((x.Node? && y.Node?) || (x.KeyedNode? && y.KeyedNode?)) && index <= high
    ensures InRange(FactsPatch(x, y, index), index, high) && InRange([NewPatch(index, Redraw(y))], index, high)
    ensures x.Node? ==> InRange(LengthPatch(x, y, index), index, high)
    ensures x.KeyedNode? ==> InRange(DiffKeyed(x, y, index), index, high)
  {
    hide DiffFacts, PlanOf, Locals;
  }

  lemma {:induction false} DiffKidsInRange(x: VNode, y: VNode, index: nat, n: nat)
    requires Counted(x) && x.Node? && y.Node? && n <= |x.kids| && n <= |y.kids|
    ensures InRange(DiffKids(x, y, index, n), index, index + Descendants(x))
    decreases x, 0, 0, n
  {
    hide Diff, Counted, Span, InRange, Descendants;
    if n > 0 {
      var k := x.kids[n - 1];
      var at := index + 1 + Span(x.kids, n - 1);
      DiffKidsInRange(x, y, index, n - 1);
      CountedKids(x);
      KidRange(x, index, n - 1);
      DiffInRange(k, y.kids[n - 1], at);
      InRangeWiden(Diff(k, y.kids[n - 1], at), at, at + Descendants(k), index, index + Descendants(x));
      InRangeAppend(DiffKids(x, y, index, n - 1), Diff(k, y.kids[n - 1], at), index, index + Descendants(x));
    } else {
      InRangeNone(index, index + Descendants(x));
    }
  }

  // ----- locating -----

  lemma {:induction false} KidAtIs(kids: seq<VNode>, i: nat, j: nat, low: nat, index: nat)
    requires i <= j < |kids|
    requires low + Span(kids, j) - Span(kids, i) <= index <= low + Span(kids, j) - Span(kids, i) + Descendants(kids[j])
    ensures KidAt(kids, i, low, index) == Some((j, low + Span(kids, j) - Span(kids, i)))
    decreases j - i
  {
    SpanGrows(kids, i, j);
    if i < j {
      SpanGrows(kids, i + 1, j);
      KidAtIs(kids, i + 1, j, low + 1 + Descendants(kids[i]), index);
    }
  }

  lemma LocateKid(v: VNode, t: Tree, low: nat, j: nat, index: nat)
    requires (v.Node? || v.KeyedNode?) && j < |Kids(v)| && t.ElementTree? && j < |t.kids|
    requires low + 1 + Span(Kids(v), j) <= index <= low + 1 + Span(Kids(v), j) + Descendants(Kids(v)[j])
    ensures Locate(v, t, low, index) == Locate(Kids(v)[j], t.kids[j], low + 1 + Span(Kids(v), j), index)
  {
    KidAtIs(Kids(v), 0, j, low + 1, index);
  }

  // ----- attaching -----

  lemma AttachAppend(ps: seq<Patch>, qs: seq<Patch>, v: VNode, t: Tree, low: nat)
    ensures AttachAll(ps + qs, v, t, low) == AttachAll(ps, v, t, low) + AttachAll(qs, v, t, low)
  {
  }

  lemma AttachOne(p: Patch, v: VNode, t: Tree)
    ensures AttachAll([p], v, t, p.index) ==
      [Patch(p.index, AttachAction(p.action, v, t, p.index), if p.action.Inside? then p.dom else Some(t.ref))]
  {
    assert Attach(p, v, t, p.index) ==
      Patch(p.index, AttachAction(p.action, v, t, p.index), if p.action.Inside? then p.dom else Some(t.ref));
  }

  lemma AttachSame(ps: seq<Patch>, v: VNode, t: Tree, low: nat, w: VNode, u: Tree, low': nat)
    requires forall i :: 0 <= i < |ps| ==> Locate(v, t, low, ps[i].index) == Locate(w, u, low', ps[i].index)
    ensures AttachAll(ps, v, t, low) == AttachAll(ps, w, u, low')
  {
    hide Locate;
    forall i | 0 <= i < |ps| ensures Attach(ps[i], v, t, low) == Attach(ps[i], w, u, low') {
      assert Locate(v, t, low, ps[i].index) == Locate(w, u, low', ps[i].index);
    }
  }

  lemma AttachKid(ps: seq<Patch>, v: VNode, t: Tree, low: nat, j: nat)
    requires (v.Node? || v.KeyedNode?) && j < |Kids(v)| && t.ElementTree? && j < |t.kids|
    requires InRange(ps, low + 1 + Span(Kids(v), j), low + 1 + Span(Kids(v), j) + Descendants(Kids(v)[j]))
    ensures AttachAll(ps, v, t, low) == AttachAll(ps, Kids(v)[j], t.kids[j], low + 1 + Span(Kids(v), j))
  {
    hide Locate;
    forall i | 0 <= i < |ps|
      ensures Locate(v, t, low, ps[i].index) == Locate(Kids(v)[j], t.kids[j], low + 1 + Span(Kids(v), j), ps[i].index)
    {
      LocateKid(v, t, low, j, ps[i].index);
    }
    AttachSame(ps, v, t, low, Kids(v)[j], t.kids[j], low + 1 + Span(Kids(v), j));
  }

  lemma AttachBelow(ps: seq<Patch>, v: VNode, t: Tree, low: nat, high: nat)
    requires v.Tagger? && InRange(ps, low + 1, high)
    ensures AttachAll(ps, v, t, low) == AttachAll(ps, Below(v), t, low + 1)
  {
    forall i | 0 <= i < |ps| ensures Locate(v, t, low, ps[i].index) == Locate(Below(v), t, low + 1, ps[i].index) {
    }
    hide Locate;
    AttachSame(ps, v, t, low, Below(v), t, low + 1);
  }
}
