/** The lazy nodes that patches will set when they are applied: rendering sets those of the nodes it
    renders, attaching patches loses none, and every difference renders nodes of the new view only. */
module VdomSettling {
  import opened VdomNodes
  import opened VdomKeyedPlan
  import opened VdomDiff
  import opened VdomDocument
  import opened VdomPatching
  import opened VdomNumbering
  import opened VdomAttaching
  import opened VdomCaches

  // ----- nodes to be rendered -----

  /** The thunks of a node to be rendered are among the objects. */
  ghost predicate Drawable(v: VNode, g: World)
    decreases v
  {
    match v
    case Text(_, _) => true
    case Node(_, _, _, _, kids, _) => forall i :: 0 <= i < |kids| ==> Drawable(kids[i], g)
    case KeyedNode(_, _, _, _, pairs, _) => forall i :: 0 <= i < |pairs| ==> Drawable(pairs[i].node, g)
    case Tagger(_, _, node, _) => Drawable(node, g)
    case Thunk(_, _, node, cached) => g.table(v.obj) == v && Drawable(node, g) && (cached ==> AllCached(node))
  }

  lemma {:induction false} FitDrawable(v: VNode, g: World)
    requires Fit(v, g)
    ensures Drawable(v, g)
    decreases v
  {
    match v
    case Text(_, _) =>
    case Tagger(_, _, node, _) => FitDrawable(node, g);
    case Thunk(_, _, node, _) => FitDrawable(node, g);
    case Node(_, _, _, _, kids, _) =>
      forall i | 0 <= i < |kids| ensures Drawable(kids[i], g) { FitDrawable(kids[i], g); }
    case KeyedNode(_, _, _, _, pairs, _) =>
      forall i | 0 <= i < |pairs| ensures Drawable(pairs[i].node, g) { FitDrawable(pairs[i].node, g); }
  }

  lemma DrawableKids(v: VNode, g: World)
    requires Drawable(v, g) && (v.Node? || v.KeyedNode?)
    ensures forall i :: 0 <= i < |Kids(v)| ==> Drawable(Kids(v)[i], g)
  {
  }

  lemma {:induction false} DrawableBelow(v: VNode, g: World)
    requires Drawable(v, g)
    ensures Drawable(Below(v), g) && Tops(Below(v)) == Tops(v)
    decreases v
  {
    if v.Tagger? { DrawableBelow(v.node, g); }
  }

  /** All nodes that the patch renders are. */
  ghost predicate Renderable(p: Patch, g: World)
    decreases p, 0
  {
    match p.action
    case Redraw(node) => Drawable(node, g)
    case Append(_, kids) => forall i :: 0 <= i < |kids| ==> Drawable(kids[i], g)
    case Inside(sub) => AllRenderable(sub, g)
    case Remove(Some(m)) => AllRenderable(m.patches, g)
    case Reorder(sub, _, _, entries) => AllRenderable(sub, g) && EntriesDrawable(entries, g)
    case _ => true
  }

  ghost predicate EntriesDrawable(entries: seq<Entry>, g: World) {
    forall e :: 0 <= e < |entries| && entries[e].tag == INSERT ==> Drawable(entries[e].node, g)
  }

  ghost predicate AllRenderable(ps: seq<Patch>, g: World)
    decreases ps, 1
  {
    forall i :: 0 <= i < |ps| ==> Renderable(ps[i], g)
  }

  // ----- setting while rendering -----

  /** From one heap to another with nothing left to be set later. */
  ghost predicate Settles(h0: Heap, h: Heap, g: World) {
    Fills(h0, h0.Keys, h, h.Keys, g)
  }

  lemma SettlesSelf(h: Heap, g: World)
    ensures Settles(h, h, g)
  {
    FillsSelf(h, h.Keys, g);
  }

  lemma SettlesThen(h0: Heap, h1: Heap, h2: Heap, g: World)
    requires Settles(h0, h1, g) && Settles(h1, h2, g)
    ensures Settles(h0, h2, g) && h1.Keys <= h2.Keys
  {
    FillsThen(h0, h0.Keys, h1, h1.Keys, h2, h2.Keys, g);
  }

  lemma SettlesCall(h0: Heap, v: VNode, h: Heap, g: World)
    requires v.Thunk? && g.table(v.obj) == v && Settles(h0[v.obj := Own], h, g) && Tops(v.node) <= h.Keys
    ensures Settles(h0, h, g) && Tops(v) <= h.Keys
  {
    assert h0[v.obj := Own].Keys == h0.Keys + {v.obj};
    FillsOwn(h0, h0.Keys, v.obj, h, h.Keys, g);
  }

  /** The thunks of the first n of some nodes are set, from `start` on. */
  ghost predicate KidsSet(kids: seq<VNode>, start: nat, n: nat, h: Heap) {
    forall i :: start <= i < n && i < |kids| ==> Tops(kids[i]) <= h.Keys
  }

  lemma KidsSetNext(kids: seq<VNode>, start: nat, n: nat, h0: Heap, h: Heap)
    requires KidsSet(kids, start, n, h0) && h0.Keys <= h.Keys && n < |kids| && Tops(kids[n]) <= h.Keys
    ensures KidsSet(kids, start, n + 1, h)
  {
    hide Tops;
  }

  lemma KidsSetAll(v: VNode, h: Heap)
    requires (v.Node? || v.KeyedNode?) && KidsSet(Kids(v), 0, |Kids(v)|, h)
    ensures Tops(v) <= h.Keys
  {
    hide Tops;
    TopsKids(v, h.Keys);
  }

  lemma LateSet(kids: seq<VNode>, length: nat, h: Heap)
    requires KidsSet(kids, length, |kids|, h)
    ensures LateTops(kids, length) <= h.Keys
  {
    hide Tops;
  }

  /** The thunks of the first n entries of a list of insertions are set. */
  ghost predicate InsertsSet(list: seq<Insert>, entries: seq<Entry>, n: nat, h: Heap) {
    forall k :: 0 <= k < n && k < |list| && list[k].entry < |entries| && entries[list[k].entry].tag == INSERT ==>
      Tops(entries[list[k].entry].node) <= h.Keys
  }

  lemma InsertsSetNext(list: seq<Insert>, entries: seq<Entry>, n: nat, h0: Heap, h: Heap)
    requires InsertsSet(list, entries, n, h0) && h0.Keys <= h.Keys && n < |list|
    requires list[n].entry < |entries| && entries[list[n].entry].tag == INSERT ==>
      Tops(entries[list[n].entry].node) <= h.Keys
    ensures InsertsSet(list, entries, n + 1, h)
  {
    hide Tops;
  }

  lemma InsertsSetAll(list: seq<Insert>, entries: seq<Entry>, h: Heap)
    requires InsertsSet(list, entries, |list|, h)
    ensures EntryTops(list, entries) <= h.Keys
  {
    hide Tops;
  }

  /** The first n patches, when they were ready, have set what they had to. */
  ghost predicate PatchesSet(ps: seq<Patch>, n: nat, h: Heap) {
    forall i :: 0 <= i < n && i < |ps| && Ready(ps[i]) ==> PendingIn(ps[i]) <= h.Keys
  }

  lemma PatchesSetNext(ps: seq<Patch>, n: nat, h0: Heap, h: Heap)
    requires PatchesSet(ps, n, h0) && h0.Keys <= h.Keys && n < |ps| && (Ready(ps[n]) ==> PendingIn(ps[n]) <= h.Keys)
    ensures PatchesSet(ps, n + 1, h)
  {
    hide Ready, PendingIn;
  }

  lemma PatchesSetAll(ps: seq<Patch>, h: Heap)
    requires PatchesSet(ps, |ps|, h)
    ensures AllReady(ps) ==> Pending(ps) <= h.Keys
  {
    hide Ready, PendingIn;
  }

  // ----- attached patches -----

  /** Every patch but those of thunks has its DOM node. */
  ghost predicate Ready(p: Patch)
    decreases p, 0
  {
    match p.action
    case Inside(sub) => AllReady(sub)
    case Remove(Some(m)) => p.dom.Some? && AllReady(m.patches)
    case Reorder(sub, _, _, _) => p.dom.Some? && AllReady(sub)
    case _ => p.dom.Some?
  }

  ghost predicate AllReady(ps: seq<Patch>)
    decreases ps, 1
  {
    forall i :: 0 <= i < |ps| ==> Ready(ps[i])
  }

  lemma {:induction false} AttachPending(p: Patch, v: VNode, t: Tree, low: nat, g: World)
    ensures PendingIn(Attach(p, v, t, low)) == PendingIn(p)
    ensures Renderable(p, g) ==> Renderable(Attach(p, v, t, low), g)
    decreases p, 0
  {
    hide Locate, Drawable, Tops, EntryTops, LateTops;
    var at := Locate(v, t, low, p.index);
    if at.Some? {
      var (w, u) := at.value;
      match p.action
      case Inside(sub) => if w.Thunk? { AttachAllPending(sub, w.node, u, 0, g); }
      case Remove(Some(m)) => AttachAllPending(m.patches, w, u, p.index, g);
      case Reorder(sub, _, _, _) => AttachAllPending(sub, w, u, p.index, g);
      case _ =>
    }
  }

  lemma {:induction false} AttachAllPending(ps: seq<Patch>, v: VNode, t: Tree, low: nat, g: World)
    ensures Pending(AttachAll(ps, v, t, low)) == Pending(ps)
    ensures AllRenderable(ps, g) ==> AllRenderable(AttachAll(ps, v, t, low), g)
    decreases ps, 1
  {
    hide Attach, PendingIn, Renderable;
    var qs := AttachAll(ps, v, t, low);
    forall i | 0 <= i < |ps| ensures PendingIn(qs[i]) == PendingIn(ps[i]) &&
      (Renderable(ps[i], g) ==> Renderable(qs[i], g)) {
      AttachPending(ps[i], v, t, low, g);
    }
    forall o | o in Pending(ps) ensures o in Pending(qs) {
      var i :| 0 <= i < |ps| && o in PendingIn(ps[i]);
      assert o in PendingIn(qs[i]);
    }
    forall o | o in Pending(qs) ensures o in Pending(ps) {
      var i :| 0 <= i < |qs| && o in PendingIn(qs[i]);
      assert o in PendingIn(ps[i]);
    }
  }

  /** In a tree that fits, every index of a node is found. */
  lemma {:induction false} LocateAt(v: VNode, t: Tree, low: nat, index: nat)
    requires Fits(v, t) && At(v, low, index).Some?
    ensures Locate(v, t, low, index).Some?
    ensures Locate(v, t, low, index).value.0 == At(v, low, index).value
    ensures Fits(At(v, low, index).value, Locate(v, t, low, index).value.1)
    decreases v
  {
    if index != low {
      if v.Tagger? {
        FitsBelow(v, t);
        LocateAt(Below(v), t, low + 1, index);
      } else {
        KidAtBound(Kids(v), 0, low + 1, index);
        var k := KidAt(Kids(v), 0, low + 1, index);
        FitsKids(v, t);
        LocateAt(Kids(v)[k.value.0], t.kids[k.value.0], k.value.1, index);
      }
    }
  }

  lemma {:induction false} FineReady(p: Patch, v: VNode, t: Tree, low: nat)
    requires Fits(v, t) && Fine(p, v, low)
    ensures Ready(Attach(p, v, t, low))
    decreases p, 0
  {
    LocateAt(v, t, low, p.index);
    hide Locate, At, Fits, Ordered, InRange;
    var (w, u) := Locate(v, t, low, p.index).value;
    match p.action
    case Inside(sub) => ThunkTree(w, u); AllFineReady(sub, w.node, u, 0);
    case Remove(Some(m)) => AllFineReady(m.patches, w, u, p.index);
    case Reorder(sub, _, _, _) => AllFineReady(sub, w, u, p.index);
    case _ =>
  }

  lemma ThunkTree(v: VNode, t: Tree)
    requires v.Thunk? && Fits(v, t)
    ensures Fits(v.node, t)
  {
  }

  lemma {:induction false} AllFineReady(ps: seq<Patch>, v: VNode, t: Tree, low: nat)
    requires Fits(v, t) && AllFine(ps, v, low)
    ensures AllReady(AttachAll(ps, v, t, low))
    decreases ps, 1
  {
    hide Attach, Fits, Fine, Ready;
    forall i | 0 <= i < |ps| ensures Ready(AttachAll(ps, v, t, low)[i]) { FineReady(ps[i], v, t, low); }
  }

  // ----- the nodes a difference renders -----

  lemma RenderableAppend(ps: seq<Patch>, qs: seq<Patch>, g: World)
    requires AllRenderable(ps, g) && AllRenderable(qs, g)
    ensures AllRenderable(ps + qs, g)
  {
    hide Renderable;
  }

  lemma OneRenderable(p: Patch, g: World)
    requires Renderable(p, g)
    ensures AllRenderable([p], g)
  {
    hide Renderable;
  }

  lemma NoneRenderable(g: World)
    ensures AllRenderable([], g)
  {
  }

  lemma {:induction false} DiffRenderable(x: VNode, y: VNode, index: nat, g: World)
    requires Drawable(y, g)
    ensures AllRenderable(Diff(x, y, index), g)
    decreases x, 1, 0
  {
    NoneRenderable(g);
    if x.obj != y.obj {
      match (x, y)
      case (Thunk(_, _, _, _), Thunk(_, _, _, _)) => if x.refs != y.refs { ThunkRenderable(x, y, index, g); }
      case (Tagger(_, _, _, _), Tagger(_, _, _, _)) => TaggerRenderable(x, y, index, g);
      case (Text(_, _), Text(_, _)) => OneRenderable(NewPatch(index, SetText(y.text)), g);
      case (Node(_, _, _, _, _, _), Node(_, _, _, _, _, _)) => NodesRenderable(x, y, index, g);
      case (Node(_, _, _, _, _, _), KeyedNode(_, _, _, _, _, _)) => NodesRenderable(x, Dekey(y, y.obj), index, g);
      case (KeyedNode(_, _, _, _, _, _), KeyedNode(_, _, _, _, _, _)) => NodesRenderable(x, y, index, g);
      case _ => OneRenderable(NewPatch(index, Redraw(y)), g);
    }
  }

  lemma {:induction false} ThunkRenderable(x: VNode, y: VNode, index: nat, g: World)
    requires Drawable(y, g) && x.Thunk? && y.Thunk?
    ensures AllRenderable([NewPatch(index, Inside(Diff(x.node, y.node, 0)))], g)
    decreases x, 0, 0
  {
    DiffRenderable(x.node, y.node, 0, g);
    hide Diff;
    OneRenderable(NewPatch(index, Inside(Diff(x.node, y.node, 0))), g);
  }

  lemma {:induction false} TaggerRenderable(x: VNode, y: VNode, index: nat, g: World)
    requires Drawable(y, g) && x.Tagger? && y.Tagger? && x.obj != y.obj
    ensures AllRenderable(Diff(x, y, index), g)
    decreases x, 0, 0
  {
    OneRenderable(NewPatch(index, Redraw(y)), g);
    OneRenderable(NewPatch(index, Retag(Taggers(y))), g);
    DrawableBelow(y, g);
    DiffRenderable(Below(x), Below(y), index + 1, g);
    hide AllRenderable;
    if Taggers(x) != Taggers(y) {
      RenderableAppend([NewPatch(index, Retag(Taggers(y)))], Diff(Below(x), Below(y), index + 1), g);
    }
  }

  lemma {:induction false} NodesRenderable(x: VNode, y: VNode, index: nat, g: World)
    requires (x.Node? && y.Node?) || (x.KeyedNode? && y.KeyedNode?)
    requires Drawable(y, g)
    ensures AllRenderable(DiffNodes(x, y, index), g)
    decreases x, 0, 1
  {
    hide DiffKids, DiffKeyed, Drawable;
    NoneRenderable(g);
    if x.tag != y.tag || x.ns != y.ns {
      OneRenderable(NewPatch(index, Redraw(y)), g);
    } else {
      DrawableKids(y, g);
      FactsRenderable(x, y, index, g);
      if x.Node? {
        assert Kids(y) == y.kids;
        LengthRenderable(x, y, index, g);
        KidsRenderable(x, y, index, Least(|x.kids|, |y.kids|), g);
        hide AllRenderable, LengthPatch;
        RenderableAppend(LengthPatch(x, y, index), DiffKids(x, y, index, Least(|x.kids|, |y.kids|)), g);
      } else {
        KeyedRenderable(x, y, index, g);
      }
      hide AllRenderable, LengthPatch, Renderable;
      RenderableAppend(FactsPatch(x, y, index),
                       if x.Node? then LengthPatch(x, y, index) + DiffKids(x, y, index, Least(|x.kids|, |y.kids|))
                         else DiffKeyed(x, y, index), g);
    }
  }

  lemma FactsRenderable(x: VNode, y: VNode, index: nat, g: World)
    requires (x.Node? && y.Node?) || (x.KeyedNode? && y.KeyedNode?)
    ensures AllRenderable(FactsPatch(x, y, index), g)
  {
  }

  lemma LengthRenderable(x: VNode, y: VNode, index: nat, g: World)
    requires x.Node? && y.Node? && forall i :: 0 <= i < |y.kids| ==> Drawable(y.kids[i], g)
    ensures AllRenderable(LengthPatch(x, y, index), g)
  {
    hide Drawable;
  }

  lemma {:induction false} KidsRenderable(x: VNode, y: VNode, index: nat, n: nat, g: World)
    requires x.Node? && y.Node? && n <= |x.kids| && n <= |y.kids|
    requires forall i :: 0 <= i < |y.kids| ==> Drawable(y.kids[i], g)
    ensures AllRenderable(DiffKids(x, y, index, n), g)
    decreases x, 0, 0, n
  {
    hide Diff, Drawable, Renderable;
    if n > 0 {
      KidsRenderable(x, y, index, n - 1, g);
      DiffRenderable(x.kids[n - 1], y.kids[n - 1], index + 1 + Span(x.kids, n - 1), g);
    }
  }

  lemma {:induction false} KeyedRenderable(x: VNode, y: VNode, index: nat, g: World)
    requires x.KeyedNode? && y.KeyedNode?
    requires forall i :: 0 <= i < |Kids(y)| ==> Drawable(Kids(y)[i], g)
    ensures AllRenderable(DiffKeyed(x, y, index), g)
    decreases x, 0, 0, |x.pairs| + 1
  {
    hide PlanOf, Locals, Drawable, InsertsOf, EndsOf;
    var p := PlanOf(x.pairs, y.pairs);
    var news := NewKids(p, y.pairs);
    assert forall j :: 0 <= j < |news| ==> Drawable(news[j], g) by {
      forall j | 0 <= j < |news| ensures Drawable(news[j], g) {
        if j < |y.pairs| { assert news[j] == Kids(y)[j]; } else { assert news[j] == Kids(y)[p.extra.value]; }
      }
    }
    hide NewKids;
    EntriesRenderable(p, x.pairs, news, g);
    LocalsRenderable(x, news, p, index, |x.pairs|, g);
    hide AllRenderable, EntriesOf, EntriesDrawable;
    NoneRenderable(g);
    var locals := Locals(x, news, p, index, |x.pairs|);
    ReorderRenderable(index, locals, InsertsOf(p), EndsOf(p), EntriesOf(p, x.pairs, news), g);
  }

  lemma ReorderRenderable(index: nat, sub: seq<Patch>, inserts: seq<Insert>, ends: seq<Insert>, entries: seq<Entry>,
                          g: World)
    requires AllRenderable(sub, g) && EntriesDrawable(entries, g)
    ensures AllRenderable([NewPatch(index, Reorder(sub, inserts, ends, entries))], g)
  {
    hide EntriesDrawable;
  }

  lemma EntriesRenderable(p: Plan, xs: seq<Keyed>, news: seq<VNode>, g: World)
    requires forall j :: 0 <= j < |news| ==> Drawable(news[j], g)
    ensures EntriesDrawable(EntriesOf(p, xs, news), g)
  {
  }

  lemma {:induction false} LocalsRenderable(x: VNode, news: seq<VNode>, p: Plan, index: nat, n: nat, g: World)
    requires x.KeyedNode? && n <= |x.pairs| && forall j :: 0 <= j < |news| ==> Drawable(news[j], g)
    ensures AllRenderable(Locals(x, news, p, index, n), g)
    decreases x, 0, 0, n
  {
    hide Diff, Drawable, AllRenderable, Target, Segment;
    NoneRenderable(g);
    if n > 0 {
      var a := n - 1;
      var at := index + 1 + Span(Kids(x), a);
      var t := Target(p, a);
      var sub := if t.Some? && t.value < |news| then Diff(x.pairs[a].node, news[t.value], at) else [];
      LocalsRenderable(x, news, p, index, a, g);
      if t.Some? && t.value < |news| { DiffRenderable(x.pairs[a].node, news[t.value], at, g); }
      SegmentRenderable(p, a, at, sub, g);
      RenderableAppend(Locals(x, news, p, index, a), Segment(p, a, at, sub), g);
    }
  }

  lemma SegmentRenderable(p: Plan, a: nat, at: nat, sub: seq<Patch>, g: World)
    requires AllRenderable(sub, g)
    ensures AllRenderable(Segment(p, a, at, sub), g)
  {
    hide Target;
  }
}
