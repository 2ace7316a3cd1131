/** What the search for DOM nodes needs of its patches, and that every difference has it: indices
    do not decrease, and each belongs to a node of the numbered tree. */
module VdomAttaching {
  import opened Wrappers
  import opened VdomFacts
  import opened VdomNodes
  import opened VdomKeyedPlan
  import opened VdomDiff
  import opened VdomDocument
  import opened VdomPatching
  import opened VdomNumbering

  ghost predicate Ordered(ps: seq<Patch>) {
    forall i, j :: 0 <= i < j < |ps| ==> ps[i].index <= ps[j].index
  }

  /** The node with this index. */
  function At(v: VNode, low: nat, index: nat): Option<VNode>
    decreases v
  {
    if index == low then Some(v)
    else if v.Tagger? then At(Below(v), low + 1, index)
    else
      var k := KidAt(Kids(v), 0, low + 1, index);
      KidAtBound(Kids(v), 0, low + 1, index);
      if k.Some? then At(Kids(v)[k.value.0], k.value.1, index) else None
  }

  /** A patch for a node of v, with nested patches for the same node or its thunk's. */
  ghost predicate Fine(p: Patch, v: VNode, low: nat)
    decreases p, 1
  {
    var w := At(v, low, p.index);
    w.Some? && FineAt(p, w.value)
  }

  ghost predicate FineAt(p: Patch, w: VNode)
    decreases p, 0
  {
    match p.action
    case Inside(sub) =>
      && w.Thunk? && |sub| > 0 && (w.node.Text? || w.node.Thunk? ==> |sub| == 1)
      && Ordered(sub) && InRange(sub, 0, Descendants(w.node)) && AllFine(sub, w.node, 0)
    case Reorder(sub, _, _, _) => Ordered(sub) && InRange(sub, p.index, p.index + Descendants(w)) &&
      AllFine(sub, w, p.index)
    case Remove(Some(m)) =>
      Ordered(m.patches) && InRange(m.patches, p.index, p.index + Descendants(w)) && AllFine(m.patches, w, p.index)
    case _ => true
  }

  ghost predicate AllFine(ps: seq<Patch>, v: VNode, low: nat)
    decreases ps, 2
  {
    forall i :: 0 <= i < |ps| ==> Fine(ps[i], v, low)
  }

  /** Everything at once. */
  ghost predicate WellPlaced(ps: seq<Patch>, v: VNode, low: nat) {
    Ordered(ps) && InRange(ps, low, low + Descendants(v)) && AllFine(ps, v, low)
  }

  lemma OrderedAppend(ps: seq<Patch>, qs: seq<Patch>, low: nat, mid: nat, high: nat)
    requires Ordered(ps) && Ordered(qs) && InRange(ps, low, mid) && InRange(qs, mid, high)
    ensures Ordered(ps + qs)
  {
  }

  lemma FineAppend(ps: seq<Patch>, qs: seq<Patch>, v: VNode, low: nat)
    requires AllFine(ps, v, low) && AllFine(qs, v, low)
    ensures AllFine(ps + qs, v, low)
  {
    hide Fine;
  }

  lemma AtKid(v: VNode, low: nat, j: nat, index: nat)
    requires (v.Node? || v.KeyedNode?) && j < |Kids(v)|
    requires low + 1 + Span(Kids(v), j) <= index <= low + 1 + Span(Kids(v), j) + Descendants(Kids(v)[j])
    ensures At(v, low, index) == At(Kids(v)[j], low + 1 + Span(Kids(v), j), index)
  {
    KidAtIs(Kids(v), 0, j, low + 1, index);
  }

  lemma FineKid(ps: seq<Patch>, v: VNode, low: nat, j: nat)
    requires (v.Node? || v.KeyedNode?) && j < |Kids(v)|
    requires InRange(ps, low + 1 + Span(Kids(v), j), low + 1 + Span(Kids(v), j) + Descendants(Kids(v)[j]))
    requires AllFine(ps, Kids(v)[j], low + 1 + Span(Kids(v), j))
    ensures AllFine(ps, v, low)
  {
    hide At;
    forall i | 0 <= i < |ps| ensures Fine(ps[i], v, low) {
      AtKid(v, low, j, ps[i].index);
      assert Fine(ps[i], Kids(v)[j], low + 1 + Span(Kids(v), j));
    }
  }

  lemma FineBelow(ps: seq<Patch>, v: VNode, low: nat, high: nat)
    requires v.Tagger? && InRange(ps, low + 1, high) && AllFine(ps, Below(v), low + 1)
    ensures AllFine(ps, v, low)
  {
    forall i | 0 <= i < |ps| ensures Fine(ps[i], v, low) {
      assert Fine(ps[i], Below(v), low + 1);
      assert At(v, low, ps[i].index) == At(Below(v), low + 1, ps[i].index);
    }
  }

  /** A patch for the root, with nothing nested. */
  lemma OneFine(p: Patch, v: VNode)
    requires FineAt(p, v)
    ensures AllFine([p], v, p.index) && Ordered([p]) && InRange([p], p.index, p.index)
  {
    hide FineAt;
    assert At(v, p.index, p.index) == Some(v);
  }

  lemma OneGood(p: Patch, v: VNode)
    requires FineAt(p, v)
    ensures WellPlaced([p], v, p.index)
  {
    hide FineAt;
    OneFine(p, v);
  }

  lemma FewPatches(x: VNode, y: VNode, index: nat)
    requires x.Text? || x.Thunk?
    ensures |Diff(x, y, index)| <= 1
  {
  }

  lemma {:induction false} DiffGood(x: VNode, y: VNode, index: nat)
    requires Counted(x)
    ensures WellPlaced(Diff(x, y, index), x, index)
    decreases x, 1, 0
  {
    DiffInRange(x, y, index);
    if x.obj != y.obj {
      match (x, y)
      case (Thunk(_, _, _, _), Thunk(_, _, _, _)) =>
        if x.refs != y.refs { ThunkGood(x, y, index); }
      case (Tagger(_, _, _, _), Tagger(_, _, _, _)) => TaggerGood(x, y, index);
      case (Text(_, _), Text(_, _)) => if x.text != y.text { OneGood(NewPatch(index, SetText(y.text)), x); }
      case (Node(_, _, _, _, _, _), Node(_, _, _, _, _, _)) => NodesGood(x, y, index);
      case (Node(_, _, _, _, _, _), KeyedNode(_, _, _, _, _, _)) => NodesGood(x, Dekey(y, y.obj), index);
      case (KeyedNode(_, _, _, _, _, _), KeyedNode(_, _, _, _, _, _)) => NodesGood(x, y, index);
      case _ => OneGood(NewPatch(index, Redraw(y)), x);
    }
  }

  lemma {:induction false} ThunkGood(x: VNode, y: VNode, index: nat)
    requires Counted(x) && x.Thunk? && y.Thunk?
    ensures var sub := Diff(x.node, y.node, 0); |sub| > 0 ==> WellPlaced([NewPatch(index, Inside(sub))], x, index)
    decreases x, 0, 0
  {
    var sub := Diff(x.node, y.node, 0);
    DiffGood(x.node, y.node, 0);
    if x.node.Text? || x.node.Thunk? { FewPatches(x.node, y.node, 0); }
    hide Diff;
    if |sub| > 0 { OneGood(NewPatch(index, Inside(sub)), x); }
  }

  lemma {:induction false} TaggerGood(x: VNode, y: VNode, index: nat)
    requires Counted(x) && x.Tagger? && y.Tagger? && x.obj != y.obj
    ensures WellPlaced(Diff(x, y, index), x, index)
    decreases x, 0, 0
  {
    DiffInRange(x, y, index);
    OneFine(NewPatch(index, Redraw(y)), x);
    OneFine(NewPatch(index, Retag(Taggers(y))), x);
    if |Taggers(x)| == |Taggers(y)| {
      var ps := Diff(Below(x), Below(y), index + 1);
      CountedBelow(x);
      DiffGood(Below(x), Below(y), index + 1);
      hide Fine, Counted, At;
      FineBelow(ps, x, index, index + 1 + Descendants(Below(x)));
      if Taggers(x) != Taggers(y) {
        FineAppend([NewPatch(index, Retag(Taggers(y)))], ps, x, index);
      }
    }
  }

  lemma {:induction false} NodesGood(x: VNode, y: VNode, index: nat)
    requires Counted(x) && ((x.Node? && y.Node?) || (x.KeyedNode? && y.KeyedNode?))
    ensures WellPlaced(DiffNodes(x, y, index), x, index)
    decreases x, 0, 1
  {
    hide DiffFacts, Fine, Counted, WellPlaced, DiffKids, DiffKeyed, LengthPatch, Descendants;
    if x.tag != y.tag || x.ns != y.ns {
      RootGood([NewPatch(index, Redraw(y))], [], x, index) by { NothingGood(x, index);
        OneFine(NewPatch(index, Redraw(y)), x); }
      assert [NewPatch(index, Redraw(y))] + [] == [NewPatch(index, Redraw(y))];
    } else {
      var change := DiffFacts(x.facts, y.facts);
      var ps := if change != NO_CHANGE then [NewPatch(index, SetFacts(change))] else [];
      if change != NO_CHANGE { OneFine(NewPatch(index, SetFacts(change)), x); } else { NoneAtRoot(x, index); }
      if x.Node? {
        var qs, rs := LengthPatch(x, y, index), DiffKids(x, y, index, Least(|x.kids|, |y.kids|));
        KidsWellPlaced(x, y, index);
        if qs != [] {
          LengthPatchFine(x, y, index);
          OneFine(qs[0], x);
          assert qs == [qs[0]];
        } else {
          NoneAtRoot(x, index);
        }
        RootGood(qs, rs, x, index);
        RootGood(ps, qs + rs, x, index);
      } else {
        KeyedGood(x, y, index);
        RootGood(ps, DiffKeyed(x, y, index), x, index);
      }
    }
  }

  lemma NoneAtRoot(x: VNode, index: nat)
    ensures Ordered([]) && AllFine([], x, index) && InRange([], index, index)
  {
  }

  lemma {:induction false} KidsWellPlaced(x: VNode, y: VNode, index: nat)
    requires Counted(x) && x.Node? && y.Node?
    ensures WellPlaced(DiffKids(x, y, index, Least(|x.kids|, |y.kids|)), x, index)
    decreases x, 0, 0, |x.kids| + 1
  {
    KidsGood(x, y, index, Least(|x.kids|, |y.kids|));
  }

  /** Patches for the root go before the others. */
  lemma RootGood(ps: seq<Patch>, qs: seq<Patch>, x: VNode, index: nat)
    requires Ordered(ps) && AllFine(ps, x, index) && InRange(ps, index, index) && WellPlaced(qs, x, index)
    ensures WellPlaced(ps + qs, x, index)
  {
    hide Fine, Descendants;
    OrderedAppend(ps, qs, index, index, index + Descendants(x));
    FineAppend(ps, qs, x, index);
  }

  lemma LengthPatchFine(x: VNode, y: VNode, index: nat)
    requires x.Node? && y.Node? && LengthPatch(x, y, index) != []
    ensures |LengthPatch(x, y, index)| == 1 && FineAt(LengthPatch(x, y, index)[0], x) &&
      LengthPatch(x, y, index)[0].index == index
  {
  }

  lemma {:induction false} KidsGood(x: VNode, y: VNode, index: nat, n: nat)
    requires Counted(x) && x.Node? && y.Node? && n <= |x.kids| && n <= |y.kids|
    ensures var ps := DiffKids(x, y, index, n);
      Ordered(ps) && AllFine(ps, x, index) && InRange(ps, index, index + Span(x.kids, n)) &&
        InRange(ps, index, index + Descendants(x))
    decreases x, 0, 0, n
  {
    hide Fine, Diff, Counted, Descendants, Ordered, AllFine, InRange, WellPlaced;
    DiffKidsInRange(x, y, index, n);
    if n > 0 {
      KidsGood(x, y, index, n - 1);
      CountedKids(x);
      DiffGood(x.kids[n - 1], y.kids[n - 1], index + 1 + Span(x.kids, n - 1));
      JoinGood(DiffKids(x, y, index, n - 1), Diff(x.kids[n - 1], y.kids[n - 1], index + 1 + Span(x.kids, n - 1)), x,
        index, n - 1);
    } else {
      NothingFine(x, index);
    }
  }

  lemma {:induction false} KeyedGood(x: VNode, y: VNode, index: nat)
    requires Counted(x) && x.KeyedNode? && y.KeyedNode?
    ensures WellPlaced(DiffKeyed(x, y, index), x, index)
    decreases x, 0, 0, |x.pairs| + 1
  {
    hide PlanOf, NewKids, Locals, Counted, AllFine, Ordered, Fine, At, InRange, WellPlaced, Span;
    var p := PlanOf(x.pairs, y.pairs);
    var news := NewKids(p, y.pairs);
    LocalsGood(x, news, p, index, |x.pairs|);
    CountedKids(x);
    var locals := Locals(x, news, p, index, |x.pairs|);
    if |locals| > 0 || |p.inserts| > 0 || |p.ends| > 0 {
      OneGood(NewPatch(index, Reorder(locals, InsertsOf(p), EndsOf(p), EntriesOf(p, x.pairs, news))), x);
    } else {
      NothingGood(x, index);
    }
  }

  lemma NothingGood(x: VNode, index: nat)
    ensures WellPlaced([], x, index)
  {
  }

  lemma {:induction false} LocalsGood(x: VNode, news: seq<VNode>, p: Plan, index: nat, n: nat)
    requires Counted(x) && x.KeyedNode? && n <= |x.pairs|
    ensures var ps := Locals(x, news, p, index, n);
      Ordered(ps) && AllFine(ps, x, index) && InRange(ps, index, index + Span(Kids(x), n))
    decreases x, 0, 0, n
  {
    hide Fine, Diff, Counted, Descendants, Ordered, AllFine, InRange, WellPlaced, Segment, Target;
    if n > 0 {
      var a := n - 1;
      var k := x.pairs[a].node;
      var at := index + 1 + Span(Kids(x), a);
      var t := Target(p, a);
      var sub := if t.Some? && t.value < |news| then Diff(k, news[t.value], at) else [];
      LocalsGood(x, news, p, index, a);
      CountedKids(x);
      assert Kids(x)[a] == k;
      if t.Some? && t.value < |news| { DiffGood(k, news[t.value], at); } else { NothingGood(k, at); }
      SegmentGood(p, a, at, sub, k);
      JoinGood(Locals(x, news, p, index, a), Segment(p, a, at, sub), x, index, a);
    } else {
      NothingFine(x, index);
    }
  }

  lemma NothingFine(x: VNode, index: nat)
    ensures Ordered([]) && AllFine([], x, index) && InRange([], index, index)
  {
  }

  /** The patches of one child after those of the children before it. */
  lemma JoinGood(ps: seq<Patch>, qs: seq<Patch>, x: VNode, index: nat, a: nat)
    requires (x.Node? || x.KeyedNode?) && a < |Kids(x)|
    requires Ordered(ps) && AllFine(ps, x, index) && InRange(ps, index, index + Span(Kids(x), a))
    requires WellPlaced(qs, Kids(x)[a], index + 1 + Span(Kids(x), a))
    ensures Ordered(ps + qs) && AllFine(ps + qs, x, index) && InRange(ps + qs, index, index + Span(Kids(x), a + 1))
  {
    hide Fine, Descendants;
    var at := index + 1 + Span(Kids(x), a);
    FineKid(qs, x, index, a);
    OrderedAppend(ps, qs, index, at - 1, at + Descendants(Kids(x)[a]));
    FineAppend(ps, qs, x, index);
  }

  lemma SegmentGood(p: Plan, a: nat, at: nat, sub: seq<Patch>, k: VNode)
    requires WellPlaced(sub, k, at)
    ensures WellPlaced(Segment(p, a, at, sub), k, at)
  {
    var ps := Segment(p, a, at, sub);
    hide Ordered, InRange, AllFine, Target;
    if ps != [] && !p.fates[a].Keep? {
      OneGood(ps[0], k);
    } else if ps == [] {
      NothingGood(k, at);
    }
  }

  // ----- trees that fit -----

  /** The tree has a child wherever the node has one. */
  ghost predicate Fits(v: VNode, t: Tree)
    decreases v
  {
    match v
    case Text(_, _) => true
    case Node(_, _, _, _, kids, _) =>
      t.ElementTree? && |t.kids| == |kids| && forall i :: 0 <= i < |kids| ==> Fits(kids[i], t.kids[i])
    case KeyedNode(_, _, _, _, pairs, _) =>
      t.ElementTree? && |t.kids| == |pairs| && forall i :: 0 <= i < |pairs| ==> Fits(pairs[i].node, t.kids[i])
    case Tagger(_, _, node, _) => Fits(node, t)
    case Thunk(_, _, node, _) => Fits(node, t)
  }

  lemma {:induction false} DrawnFits(v: VNode, t: Tree)
    requires See(t) == Draw(v)
    ensures Fits(v, t)
    decreases v
  {
    match v
    case Text(_, _) =>
    case Tagger(_, _, node, _) => DrawnFits(node, t);
    case Thunk(_, _, node, _) => DrawnFits(node, t);
    case _ =>
      DrawKids(v);
      assert |See(t).kids| == |t.kids| == |Kids(v)|;
      forall i | 0 <= i < |Kids(v)| ensures Fits(Kids(v)[i], t.kids[i]) {
        assert See(t).kids[i] == See(t.kids[i]);
        DrawnFits(Kids(v)[i], t.kids[i]);
      }
  }

  lemma FitsKids(v: VNode, t: Tree)
    requires Fits(v, t) && (v.Node? || v.KeyedNode?)
    ensures t.ElementTree? && |t.kids| == |Kids(v)| && forall i :: 0 <= i < |Kids(v)| ==> Fits(Kids(v)[i], t.kids[i])
  {
  }

  lemma {:induction false} FitsBelow(v: VNode, t: Tree)
    requires Fits(v, t)
    ensures Fits(Below(v), t)
    decreases v
  {
    if v.Tagger? { FitsBelow(v.node, t); }
  }

  // ----- searching -----

  predicate Beyond(index: nat, high: Option<nat>) {
    high.Some? && index > high.value
  }

  /** The patches from i to k attached, the others as they were. */
  ghost function Attached(ps: seq<Patch>, i: nat, k: nat, v: VNode, t: Tree, low: nat): (qs: seq<Patch>)
    ensures |qs| == |ps| && forall j :: 0 <= j < |ps| ==>
      qs[j] == if i <= j < k then Attach(ps[j], v, t, low) else ps[j]
  {
    seq(|ps|, j requires 0 <= j < |ps| => if i <= j < k then Attach(ps[j], v, t, low) else ps[j])
  }

  /** How many indices after its own a node uses: nested taggers are counted but not numbered. */
  function Used(v: VNode): (n: nat)
    decreases v
  {
    if v.Tagger? then 1 + Descendants(Below(v)) else Descendants(v)
  }

  lemma UsedCounted(v: VNode)
    requires Counted(v)
    ensures Used(v) <= Descendants(v)
    ensures !v.Tagger? ==>
      Descendants(v) == Span(Kids(v), |Kids(v)|) && forall j :: 0 <= j < |Kids(v)| ==> Counted(Kids(v)[j])
  {
    CountedBelow(v);
    if v.Node? || v.KeyedNode? { CountedKids(v); }
  }

  /** What the search asks of the patches from i on that are not beyond `high`. */
  ghost predicate Searchable(ps: seq<Patch>, i: nat, v: VNode, low: nat, high: Option<nat>) {
    && i < |ps| && Ordered(ps) && low <= ps[i].index && !Beyond(ps[i].index, high)
    && (high.Some? ==> low + Descendants(v) <= high.value)
    && forall k :: i <= k < |ps| && !Beyond(ps[k].index, high) ==> Fine(ps[k], v, low)
  }

  /** The patches from i to k, all in the range of v, are attached. */
  ghost predicate Searching(ps: seq<Patch>, i: nat, k: nat, v: VNode, t: Tree, low: nat, qs: seq<Patch>) {
    && i <= k <= |ps| && qs == Attached(ps, i, k, v, t, low)
    && forall j :: i <= j < k ==> ps[j].index <= low + Used(v)
  }

  /** The search has come to the end of the patches in the range of v. */
  ghost predicate Searched(ps: seq<Patch>, i: nat, k: nat, v: VNode, t: Tree, low: nat, qs: seq<Patch>) {
    Searching(ps, i, k, v, t, low, qs) && (k < |ps| ==> ps[k].index > low + Used(v))
  }

  /** A located patch other than the root's is in the range of a child. */
  lemma {:induction false} KidAtRange(kids: seq<VNode>, j: nat, low: nat, index: nat)
    requires KidAt(kids, j, low, index).Some?
    ensures var (i, l) := KidAt(kids, j, low, index).value; j <= i < |kids| && l <= index <= l + Descendants(kids[i])
    ensures var (i, l) := KidAt(kids, j, low, index).value; l == low + Span(kids, i) - Span(kids, j)
    decreases |kids| - j
  {
    if index > low + Descendants(kids[j]) { KidAtRange(kids, j + 1, low + 1 + Descendants(kids[j]), index); }
  }

  lemma {:induction false} AtUsed(v: VNode, low: nat, index: nat)
    requires Counted(v) && At(v, low, index).Some?
    ensures low <= index <= low + Used(v)
    decreases v
  {
    UsedCounted(v);
    if index != low {
      if v.Tagger? {
        CountedBelow(v);
        AtUsed(Below(v), low + 1, index);
      } else {
        KidAtBound(Kids(v), 0, low + 1, index);
        KidAtRange(Kids(v), 0, low + 1, index);
        SpanGrows(Kids(v), KidAt(Kids(v), 0, low + 1, index).value.0 + 1, |Kids(v)|);
      }
    }
  }

  lemma FineUsed(p: Patch, v: VNode, low: nat)
    requires Counted(v) && Fine(p, v, low)
    ensures low <= p.index <= low + Used(v)
  {
    AtUsed(v, low, p.index);
  }

  /** Attaching in a child is attaching in the parent. */
  lemma AttachInKid(p: Patch, v: VNode, t: Tree, low: nat, j: nat)
    requires (v.Node? || v.KeyedNode?) && j < |Kids(v)| && t.ElementTree? && j < |t.kids|
    requires low + 1 + Span(Kids(v), j) <= p.index <= low + 1 + Span(Kids(v), j) + Descendants(Kids(v)[j])
    ensures Attach(p, v, t, low) == Attach(p, Kids(v)[j], t.kids[j], low + 1 + Span(Kids(v), j))
  {
    LocateKid(v, t, low, j, p.index);
    hide Locate;
  }

  lemma FineInKid(p: Patch, v: VNode, low: nat, j: nat)
    requires (v.Node? || v.KeyedNode?) && j < |Kids(v)| && Fine(p, v, low)
    requires low + 1 + Span(Kids(v), j) <= p.index <= low + 1 + Span(Kids(v), j) + Descendants(Kids(v)[j])
    ensures Fine(p, Kids(v)[j], low + 1 + Span(Kids(v), j))
  {
    AtKid(v, low, j, p.index);
    hide At;
  }

  lemma AttachedOrder(ps: seq<Patch>, i: nat, k: nat, v: VNode, t: Tree, low: nat)
    ensures forall j :: 0 <= j < |ps| ==> Attached(ps, i, k, v, t, low)[j].index == ps[j].index
    ensures forall j :: k <= j < |ps| ==> Attached(ps, i, k, v, t, low)[j] == ps[j]
    ensures Ordered(ps) ==> Ordered(Attached(ps, i, k, v, t, low))
  {
    hide Locate;
  }

  // ----- the node itself -----

  lemma AttachedOne(ps: seq<Patch>, i: nat, k: nat, v: VNode, t: Tree, low: nat, qs: seq<Patch>)
    requires Searching(ps, i, k, v, t, low, qs) && k < |ps| && ps[k].index == low
    ensures Searching(ps, i, k + 1, v, t, low, qs[k := Attach(ps[k], v, t, low)])
  {
    hide Attach;
  }

  lemma FineNode(ps: seq<Patch>, i: nat, k: nat, v: VNode, low: nat, high: Option<nat>)
    requires Searchable(ps, i, v, low, high) && i <= k < |ps| && !Beyond(ps[k].index, high) && ps[k].index == low
    ensures FineAt(ps[k], v)
  {
    assert Fine(ps[k], v, low);
  }

  lemma BeyondUsed(ps: seq<Patch>, i: nat, k: nat, v: VNode, t: Tree, low: nat, high: Option<nat>, qs: seq<Patch>)
    requires Counted(v) && Searchable(ps, i, v, low, high) && Searching(ps, i, k, v, t, low, qs)
    requires k < |ps| ==> Beyond(ps[k].index, high)
    ensures Searched(ps, i, k, v, t, low, qs)
  {
    UsedCounted(v);
  }

  // ----- below a nest of taggers -----

  lemma BelowSearchable(ps: seq<Patch>, i: nat, k: nat, v: VNode, t: Tree, low: nat, high: Option<nat>, qs: seq<Patch>)
    requires Counted(v) && v.Tagger? && Searchable(ps, i, v, low, high) && Searching(ps, i, k, v, t, low, qs)
    requires k < |ps| && ps[k].index > low && !Beyond(ps[k].index, high)
    ensures Searchable(qs, k, Below(v), low + 1, high)
  {
    CountedBelow(v);
    AttachedOrder(ps, i, k, v, t, low);
    hide Counted, Descendants, Attach;
    forall n | k <= n < |qs| && !Beyond(qs[n].index, high) ensures Fine(qs[n], Below(v), low + 1) {
      assert qs[n] == ps[n] && Fine(ps[n], v, low) && ps[k].index <= ps[n].index;
      assert At(v, low, ps[n].index) == At(Below(v), low + 1, ps[n].index);
    }
  }

  lemma BelowSearched(ps: seq<Patch>, i: nat, k: nat, m: nat, v: VNode, t: Tree, low: nat, qs: seq<Patch>,
                      rs: seq<Patch>)
    requires v.Tagger? && Searching(ps, i, k, v, t, low, qs) && k < |ps| && ps[k].index > low && Ordered(ps)
    requires Searched(qs, k, m, Below(v), t, low + 1, rs)
    ensures Searched(ps, i, m, v, t, low, rs)
  {
    AttachedOrder(ps, i, k, v, t, low);
    forall n | 0 <= n < |ps| ensures rs[n] == (if i <= n < m then Attach(ps[n], v, t, low) else ps[n]) {
      if k <= n < m {
        assert ps[k].index <= ps[n].index;
        assert Locate(v, t, low, ps[n].index) == Locate(Below(v), t, low + 1, ps[n].index);
      }
    }
    hide Attach, Descendants;
  }

  // ----- the children -----

  /** Before child j: what is left lies after the children before it. */
  ghost predicate Before(ps: seq<Patch>, k: nat, v: VNode, low: nat, j: nat) {
    j <= |Kids(v)| && k < |ps| && ps[k].index > low + Span(Kids(v), j)
  }

  lemma OrderedFrom(ps: seq<Patch>, k: nat)
    requires Ordered(ps)
    ensures forall n :: k <= n < |ps| ==> ps[k].index <= ps[n].index
  {
  }

  lemma KidSearchable(ps: seq<Patch>, i: nat, k: nat, v: VNode, t: Tree, low: nat, high: Option<nat>, j: nat,
                      qs: seq<Patch>)
    requires Counted(v) && (v.Node? || v.KeyedNode?) && Searchable(ps, i, v, low, high) &&
      Searching(ps, i, k, v, t, low, qs)
    requires j < |Kids(v)| && Before(ps, k, v, low, j)
    requires var l := low + 1 + Span(Kids(v), j); ps[k].index <= l + Descendants(Kids(v)[j])
    ensures var l := low + 1 + Span(Kids(v), j); Searchable(qs, k, Kids(v)[j], l, Some(l + Descendants(Kids(v)[j])))
  {
    hide Fine, At, Counted, Descendants, Span, Attach, Ordered, Kids, Used;
    var l := low + 1 + Span(Kids(v), j);
    KidRange(v, low, j);
    AttachedOrder(ps, i, k, v, t, low);
    OrderedFrom(ps, k);
    forall n | k <= n < |qs| && !Beyond(qs[n].index, Some(l + Descendants(Kids(v)[j])))
      ensures Fine(qs[n], Kids(v)[j], l) {
      assert qs[n] == ps[n] && Fine(ps[n], v, low);
      FineInKid(ps[n], v, low, j);
    }
  }

  lemma UsedPlain(v: VNode)
    requires !v.Tagger?
    ensures Used(v) == Descendants(v)
  {
  }

  lemma KidSearched(ps: seq<Patch>, i: nat, k: nat, m: nat, v: VNode, t: Tree, low: nat, j: nat, qs: seq<Patch>,
                    rs: seq<Patch>)
    requires Counted(v) && (v.Node? || v.KeyedNode?) && j < |Kids(v)| && t.ElementTree? && j < |t.kids| && Ordered(ps)
    requires Searching(ps, i, k, v, t, low, qs) && Before(ps, k, v, low, j)
    requires Searched(qs, k, m, Kids(v)[j], t.kids[j], low + 1 + Span(Kids(v), j), rs)
    ensures Searching(ps, i, m, v, t, low, rs)
  {
    hide Attach, Descendants, Span, Counted, Locate, Kids, Used;
    var l := low + 1 + Span(Kids(v), j);
    KidRange(v, low, j);
    CountedKids(v);
    UsedCounted(Kids(v)[j]);
    UsedPlain(v);
    AttachedOrder(ps, i, k, v, t, low);
    forall n | 0 <= n < |ps| ensures rs[n] == (if i <= n < m then Attach(ps[n], v, t, low) else ps[n]) {
      if k <= n < m {
        assert ps[k].index <= ps[n].index && qs[n].index <= l + Used(Kids(v)[j]);
        AttachInKid(ps[n], v, t, low, j);
      }
    }
    forall n | i <= n < m ensures ps[n].index <= low + Used(v) {
      if k <= n { assert qs[n].index <= l + Used(Kids(v)[j]); }
    }
  }

  /** After child j: whatever is left in its range would have been found there. */
  lemma AfterKid(ps: seq<Patch>, i: nat, k: nat, v: VNode, low: nat, high: Option<nat>, j: nat)
    requires Counted(v) && (v.Node? || v.KeyedNode?) && Searchable(ps, i, v, low, high) && j < |Kids(v)|
    requires i <= k < |ps| && !Beyond(ps[k].index, high)
    requires ps[k].index > low + 1 + Span(Kids(v), j) + Used(Kids(v)[j])
    ensures Before(ps, k, v, low, j + 1)
  {
    hide Fine, Counted, Descendants, Ordered, Kids, Used;
    assert Fine(ps[k], v, low);
    CountedKids(v);
    if ps[k].index <= low + 1 + Span(Kids(v), j) + Descendants(Kids(v)[j]) {
      FineInKid(ps[k], v, low, j);
      FineUsed(ps[k], Kids(v)[j], low + 1 + Span(Kids(v), j));
    }
  }

  /** After the last child. */
  lemma AfterKids(ps: seq<Patch>, i: nat, k: nat, v: VNode, t: Tree, low: nat, qs: seq<Patch>)
    requires Counted(v) && !v.Tagger? && Searching(ps, i, k, v, t, low, qs) && Before(ps, k, v, low, |Kids(v)|)
    ensures Searched(ps, i, k, v, t, low, qs)
  {
    UsedCounted(v);
  }

  /** A search through a whole list attaches all of it. */
  lemma WholeSearched(ps: seq<Patch>, k: nat, v: VNode, t: Tree, low: nat, qs: seq<Patch>)
    requires Counted(v) && WellPlaced(ps, v, low) && Searched(ps, 0, k, v, t, low, qs)
    ensures qs == AttachAll(ps, v, t, low)
  {
    if k < |ps| {
      assert Fine(ps[k], v, low);
      AtUsed(v, low, ps[k].index);
    }
  }

  lemma WholeSearchable(ps: seq<Patch>, v: VNode, low: nat, high: Option<nat>)
    requires ps != [] && WellPlaced(ps, v, low) && (high.Some? ==> low + Descendants(v) <= high.value)
    ensures Searchable(ps, 0, v, low, high)
  {
  }
}
