/** The caches of lazy nodes: which are filled by a difference and by rendering, and what a view is
    once all of them are. */
module VdomCaches {
  import opened VdomNodes
  import opened VdomDiff
  import opened VdomNumbering

  /** What the field __node of a thunk holds: the node that its function has returned, or one taken
      over from an old thunk. */
  datatype Cache = Own | Taken(node: VNode)

  /** The fields that have been set, by the identities of the thunks. */
  type Heap = map<int, Cache>

  class Caches {
    var entries: Heap

    constructor ()
      ensures entries == map[]
    {
      entries := map[];
    }

    /** y.__node = y.__thunk() */
    method Call(obj: int)
      modifies this
      ensures entries == old(entries)[obj := Own]
    {
      entries := entries[obj := Own];
    }

    /** y.__node = x.__node */
    method Take(obj: int, node: VNode)
      modifies this
      ensures entries == old(entries)[obj := Taken(node)]
    {
      entries := entries[obj := Taken(node)];
    }
  }

  // ----- thunks -----

  /** Every thunk in the node has its node set. */
  ghost predicate AllCached(v: VNode)
    decreases v
  {
    match v
    case Text(_, _) => true
    case Node(_, _, _, _, kids, _) => forall i :: 0 <= i < |kids| ==> AllCached(kids[i])
    case KeyedNode(_, _, _, _, pairs, _) => forall i :: 0 <= i < |pairs| ==> AllCached(pairs[i].node)
    case Tagger(_, _, node, _) => AllCached(node)
    case Thunk(_, _, node, cached) => cached && AllCached(node)
  }

  /** A thunk that has its node, from an earlier view, has all of it. */
  ghost predicate Whole(v: VNode)
    decreases v
  {
    match v
    case Text(_, _) => true
    case Node(_, _, _, _, kids, _) => forall i :: 0 <= i < |kids| ==> Whole(kids[i])
    case KeyedNode(_, _, _, _, pairs, _) => forall i :: 0 <= i < |pairs| ==> Whole(pairs[i].node)
    case Tagger(_, _, node, _) => Whole(node)
    case Thunk(_, _, node, cached) => Whole(node) && (cached ==> AllCached(node))
  }

  /** The thunks without their nodes that are in no other thunk. */
  ghost function Tops(v: VNode): set<int>
    decreases v
  {
    match v
    case Text(_, _) => {}
    case Node(_, _, _, _, kids, _) => set i, o | 0 <= i < |kids| && o in Tops(kids[i]) :: o
    case KeyedNode(_, _, _, _, pairs, _) => set i, o | 0 <= i < |pairs| && o in Tops(pairs[i].node) :: o
    case Tagger(_, _, node, _) => Tops(node)
    case Thunk(obj, _, _, cached) => if cached then {} else {obj}
  }

  /** The thunks of a view, as references and node. */
  ghost function Pairs(v: VNode): set<(seq<int>, VNode)>
    decreases v
  {
    match v
    case Text(_, _) => {}
    case Node(_, _, _, _, kids, _) => set i, o | 0 <= i < |kids| && o in Pairs(kids[i]) :: o
    case KeyedNode(_, _, _, _, pairs, _) => set i, o | 0 <= i < |pairs| && o in Pairs(pairs[i].node) :: o
    case Tagger(_, _, node, _) => Pairs(node)
    case Thunk(_, refs, node, _) => {(refs, node)} + Pairs(node)
  }

  /** One object has one state: the table gives it. */
  ghost predicate Stated(v: VNode, table: int -> VNode)
    decreases v
  {
    table(v.obj) == v &&
    match v
    case Text(_, _) => true
    case Node(_, _, _, _, kids, _) => forall i :: 0 <= i < |kids| ==> Stated(kids[i], table)
    case KeyedNode(_, _, _, _, pairs, _) => forall i :: 0 <= i < |pairs| ==> Stated(pairs[i].node, table)
    case Tagger(_, _, node, _) => Stated(node, table)
    case Thunk(_, _, node, _) => Stated(node, table)
  }

  /** The objects before a difference, and the thunks of the old view. */
  datatype World = World(table: int -> VNode, pairs: set<(seq<int>, VNode)>)

  /** A new view among the objects. */
  ghost predicate Fit(v: VNode, g: World) {
    Stated(v, g.table) && Whole(v)
  }

  /** The old view. */
  ghost predicate OldFit(v: VNode, g: World) {
    Stated(v, g.table) && AllCached(v) && Pairs(v) <= g.pairs
  }

  ghost predicate AllFit(vs: seq<VNode>, g: World) {
    forall i :: 0 <= i < |vs| ==> Fit(vs[i], g)
  }

  lemma FitKids(v: VNode, g: World)
    requires Fit(v, g) && (v.Node? || v.KeyedNode?)
    ensures AllFit(Kids(v), g)
  {
  }

  lemma OldFitKids(v: VNode, g: World)
    requires OldFit(v, g) && (v.Node? || v.KeyedNode?)
    ensures forall i :: 0 <= i < |Kids(v)| ==> OldFit(Kids(v)[i], g)
  {
    forall i | 0 <= i < |Kids(v)| ensures OldFit(Kids(v)[i], g) {
      forall o | o in Pairs(Kids(v)[i]) ensures o in Pairs(v) {}
    }
  }

  lemma {:induction false} FitBelow(v: VNode, g: World)
    requires Fit(v, g)
    ensures Fit(Below(v), g) && Tops(Below(v)) == Tops(v)
    decreases v
  {
    if v.Tagger? { FitBelow(v.node, g); }
  }

  lemma {:induction false} OldFitBelow(v: VNode, g: World)
    requires OldFit(v, g)
    ensures OldFit(Below(v), g)
    decreases v
  {
    if v.Tagger? { OldFitBelow(v.node, g); }
  }

  lemma {:induction false} NoTops(v: VNode)
    requires AllCached(v)
    ensures Tops(v) == {} && Whole(v)
    decreases v
  {
    match v
    case Text(_, _) =>
    case Tagger(_, _, node, _) => NoTops(node);
    case Thunk(_, _, node, _) => NoTops(node);
    case Node(_, _, _, _, kids, _) =>
      forall i | 0 <= i < |kids| ensures Tops(kids[i]) == {} && Whole(kids[i]) { NoTops(kids[i]); }
    case KeyedNode(_, _, _, _, pairs, _) =>
      forall i | 0 <= i < |pairs| ensures Tops(pairs[i].node) == {} && Whole(pairs[i].node) { NoTops(pairs[i].node); }
  }

  /** The thunks of the children are those of the node. */
  lemma TopsKids(v: VNode, pool: set<int>)
    requires (v.Node? || v.KeyedNode?) && forall i :: 0 <= i < |Kids(v)| ==> Tops(Kids(v)[i]) <= pool
    ensures Tops(v) <= pool
  {
    forall o | o in Tops(v) ensures o in pool {
      if v.Node? {
        var i :| 0 <= i < |v.kids| && o in Tops(v.kids[i]);
        assert Tops(Kids(v)[i]) <= pool;
      } else {
        var i :| 0 <= i < |v.pairs| && o in Tops(v.pairs[i].node);
        assert Tops(Kids(v)[i]) <= pool;
      }
    }
  }

  lemma TopsOfKid(v: VNode, i: nat)
    requires (v.Node? || v.KeyedNode?) && i < |Kids(v)|
    ensures Tops(Kids(v)[i]) <= Tops(v)
  {
    forall o | o in Tops(Kids(v)[i]) ensures o in Tops(v) {}
  }

  // ----- filling -----

  /** A field rightly set: its own node, with the thunks in it in the pool, or a node of an old thunk
      with the same references. */
  ghost predicate EntryOk(o: int, c: Cache, pool: set<int>, g: World) {
    g.table(o).Thunk? &&
    match c
    case Own => Tops(g.table(o).node) <= pool
    case Taken(w) => (g.table(o).refs, w) in g.pairs
  }

  /** From one heap to another: fields stay set, and what is set is set rightly.  The pool holds the
      thunks that are set or will be when the patches are applied. */
  ghost predicate Fills(h0: Heap, pool0: set<int>, h: Heap, pool: set<int>, g: World) {
    && h0.Keys <= h.Keys <= pool && pool0 <= pool
    && forall o :: o in h ==> (o in h0 && h[o] == h0[o]) || EntryOk(o, h[o], pool, g)
  }

  lemma FillsSelf(h: Heap, pool: set<int>, g: World)
    requires h.Keys <= pool
    ensures Fills(h, pool, h, pool, g)
  {
  }

  lemma EntryMore(o: int, c: Cache, pool: set<int>, pool': set<int>, g: World)
    requires EntryOk(o, c, pool, g) && pool <= pool'
    ensures EntryOk(o, c, pool', g)
  {
  }

  lemma FillsThen(h0: Heap, pool0: set<int>, h1: Heap, pool1: set<int>, h2: Heap, pool2: set<int>, g: World)
    requires Fills(h0, pool0, h1, pool1, g) && Fills(h1, pool1, h2, pool2, g)
    ensures Fills(h0, pool0, h2, pool2, g)
  {
    hide EntryOk;
    forall o | o in h2 && !(o in h0 && h2[o] == h0[o]) ensures EntryOk(o, h2[o], pool2, g) {
      if o in h1 && h2[o] == h1[o] { EntryMore(o, h1[o], pool1, pool2, g); }
    }
  }

  lemma FillsMore(h0: Heap, pool0: set<int>, h: Heap, pool: set<int>, pool': set<int>, g: World)
    requires Fills(h0, pool0, h, pool, g) && pool <= pool'
    ensures Fills(h0, pool0, h, pool', g)
  {
    hide EntryOk;
    forall o | o in h && !(o in h0 && h[o] == h0[o]) ensures EntryOk(o, h[o], pool', g) {
      EntryMore(o, h[o], pool, pool', g);
    }
  }

  /** The thunk's function has been called, and what it gave has been seen to. */
  lemma FillsOwn(h0: Heap, pool0: set<int>, o: int, h: Heap, pool: set<int>, g: World)
    requires Fills(h0[o := Own], pool0 + {o}, h, pool, g) && g.table(o).Thunk? && Tops(g.table(o).node) <= pool
    ensures Fills(h0, pool0, h, pool, g)
  {
    forall p | p in h && !(p in h0 && h[p] == h0[p]) ensures EntryOk(p, h[p], pool, g) {
      if p in h0[o := Own] && h[p] == h0[o := Own][p] { assert p == o; }
    }
  }

  lemma FillsTaken(h: Heap, pool: set<int>, o: int, w: VNode, g: World)
    requires h.Keys <= pool && g.table(o).Thunk? && (g.table(o).refs, w) in g.pairs
    ensures Fills(h, pool, h[o := Taken(w)], pool + {o}, g)
  {
  }

  // ----- what applying patches will set -----

  /** The thunks of the nodes of entries that are to be inserted. */
  ghost function EntryTops(list: seq<Insert>, entries: seq<Entry>): set<int> {
    set k, o | 0 <= k < |list| && list[k].entry < |entries| && entries[list[k].entry].tag == INSERT &&
      o in Tops(entries[list[k].entry].node) :: o
  }

  ghost function LateTops(kids: seq<VNode>, length: nat): set<int> {
    set i, o | length <= i < |kids| && o in Tops(kids[i]) :: o
  }

  ghost function PendingIn(p: Patch): set<int>
    decreases p, 0
  {
    match p.action
    case Redraw(node) => Tops(node)
    case Append(length, kids) => LateTops(kids, length)
    case Inside(sub) => Pending(sub)
    case Remove(Some(m)) => Pending(m.patches)
    case Reorder(sub, inserts, ends, entries) => Pending(sub) + EntryTops(inserts, entries) + EntryTops(ends, entries)
    case _ => {}
  }

  ghost function Pending(ps: seq<Patch>): set<int>
    decreases ps, 1
  {
    set i, o | 0 <= i < |ps| && o in PendingIn(ps[i]) :: o
  }

  lemma PendingPlus(ps: seq<Patch>, qs: seq<Patch>)
    ensures Pending(ps + qs) == Pending(ps) + Pending(qs)
  {
    hide PendingIn;
    forall o | o in Pending(ps) + Pending(qs) ensures o in Pending(ps + qs) {
      if o in Pending(ps) {
        var i :| 0 <= i < |ps| && o in PendingIn(ps[i]);
        assert (ps + qs)[i] == ps[i];
      } else {
        var i :| 0 <= i < |qs| && o in PendingIn(qs[i]);
        assert (ps + qs)[|ps| + i] == qs[i];
      }
    }
  }

  lemma PendingOne(p: Patch)
    ensures Pending([p]) == PendingIn(p) && Pending([]) == {}
  {
    hide PendingIn;
    forall o | o in PendingIn(p) ensures o in Pending([p]) { assert o in PendingIn([p][0]); }
  }

  lemma PendingPush(ps: seq<Patch>, p: Patch)
    ensures Pending(ps + [p]) == Pending(ps) + PendingIn(p)
  {
    PendingPlus(ps, [p]);
    PendingOne(p);
  }

  lemma PendingUpdate(ps: seq<Patch>, i: nat, p: Patch)
    requires i < |ps| && PendingIn(ps[i]) <= PendingIn(p)
    ensures Pending(ps) <= Pending(ps[i := p]) && PendingIn(p) <= Pending(ps[i := p])
  {
    hide PendingIn;
    forall o | o in Pending(ps) ensures o in Pending(ps[i := p]) {
      var j :| 0 <= j < |ps| && o in PendingIn(ps[j]);
      assert o in PendingIn(ps[i := p][j]);
    }
    forall o | o in PendingIn(p) ensures o in Pending(ps[i := p]) { assert o in PendingIn(ps[i := p][i]); }
  }

  /** The thunks that are set or will be. */
  ghost function Pool(h: Heap, ps: seq<Patch>): set<int> {
    h.Keys + Pending(ps)
  }

  ghost predicate FillsTo(h0: Heap, ps0: seq<Patch>, h: Heap, ps: seq<Patch>, g: World) {
    Fills(h0, Pool(h0, ps0), h, Pool(h, ps), g)
  }

  lemma PoolPush(h: Heap, ps: seq<Patch>, p: Patch)
    ensures Pool(h, ps + [p]) == Pool(h, ps) + PendingIn(p)
  {
    PendingPush(ps, p);
  }

  lemma FillsFrom(h0: Heap, pool0: set<int>, h: Heap, pool: set<int>, pool': set<int>, g: World)
    requires Fills(h0, pool0, h, pool, g) && pool' <= pool
    ensures Fills(h0, pool', h, pool, g)
  {
  }

  /** A patch is pushed, and no field set. */
  lemma FillsPush(h: Heap, ps: seq<Patch>, p: Patch, g: World)
    ensures FillsTo(h, ps, h, ps + [p], g)
  {
    PoolPush(h, ps, p);
  }

  lemma FillsToThen(h0: Heap, ps0: seq<Patch>, h1: Heap, ps1: seq<Patch>, h2: Heap, ps2: seq<Patch>, g: World)
    requires FillsTo(h0, ps0, h1, ps1, g) && FillsTo(h1, ps1, h2, ps2, g)
    ensures FillsTo(h0, ps0, h2, ps2, g) && Pool(h0, ps0) <= Pool(h1, ps1) <= Pool(h2, ps2)
  {
    FillsThen(h0, Pool(h0, ps0), h1, Pool(h1, ps1), h2, Pool(h2, ps2), g);
  }

  /** The patches of a list of their own go into a patch that is pushed. */
  lemma FillsNested(h0: Heap, ps: seq<Patch>, h: Heap, sub: seq<Patch>, p: Patch, v: VNode, g: World)
    requires FillsTo(h0, [], h, sub, g) && Tops(v) <= Pool(h, sub) && Pending(sub) <= PendingIn(p)
    ensures FillsTo(h0, ps, h, ps + [p], g) && Tops(v) <= Pool(h, ps + [p])
  {
    PoolPush(h, ps, p);
    FillsMore(h0, Pool(h0, []), h, Pool(h, sub), Pool(h, ps + [p]), g);
    FillsFrom(h0, Pool(h0, []), h, Pool(h, ps + [p]), Pool(h0, ps), g);
  }

  lemma FillsNone(h0: Heap, ps: seq<Patch>, h: Heap, v: VNode, g: World)
    requires FillsTo(h0, [], h, [], g) && Tops(v) <= Pool(h, [])
    ensures FillsTo(h0, ps, h, ps, g) && Tops(v) <= Pool(h, ps)
  {
    assert Pending([]) == {};
    FillsMore(h0, Pool(h0, []), h, Pool(h, []), Pool(h, ps), g);
    FillsFrom(h0, Pool(h0, []), h, Pool(h, ps), Pool(h0, ps), g);
  }

  /** The thunk's field has been set to its own node, which has then been seen to. */
  lemma FillsCall(h0: Heap, ps0: seq<Patch>, y: VNode, h: Heap, ps: seq<Patch>, g: World)
    requires y.Thunk? && Fit(y, g) && FillsTo(h0[y.obj := Own], ps0, h, ps, g) && Tops(y.node) <= Pool(h, ps)
    ensures FillsTo(h0, ps0, h, ps, g) && Tops(y) <= Pool(h, ps)
  {
    FillsFrom(h0[y.obj := Own], Pool(h0[y.obj := Own], ps0), h, Pool(h, ps), Pool(h0, ps0) + {y.obj}, g);
    FillsOwn(h0, Pool(h0, ps0), y.obj, h, Pool(h, ps), g);
  }

  lemma FillsTake(h: Heap, ps: seq<Patch>, x: VNode, y: VNode, g: World)
    requires x.Thunk? && y.Thunk? && OldFit(x, g) && Fit(y, g) && x.refs == y.refs
    ensures FillsTo(h, ps, h[y.obj := Taken(x.node)], ps, g) && Tops(y) <= Pool(h[y.obj := Taken(x.node)], ps)
  {
    FillsTaken(h, Pool(h, ps), y.obj, x.node, g);
    FillsMore(h, Pool(h, ps), h[y.obj := Taken(x.node)], Pool(h, ps) + {y.obj}, Pool(h[y.obj := Taken(x.node)], ps), g);
  }

  /** One object: nothing to do. */
  lemma FillsSame(x: VNode, y: VNode, g: World)
    requires OldFit(x, g) && Fit(y, g) && x.obj == y.obj
    ensures Tops(y) == {}
  {
    NoTops(x);
  }

  // ----- a view with its caches -----

  /** The view with the fields of the heap. */
  function Resolve(v: VNode, h: Heap): VNode
    decreases v
  {
    match v
    case Text(_, _) => v
    case Node(_, _, _, _, kids, _) => v.(kids := seq(|kids|, i requires 0 <= i < |kids| => Resolve(kids[i], h)))
    case KeyedNode(_, _, _, _, pairs, _) =>
      v.(pairs := seq(|pairs|, i requires 0 <= i < |pairs| => Keyed(pairs[i].key, Resolve(pairs[i].node, h))))
    case Tagger(obj, tagger, node, count) => Tagger(obj, tagger, Resolve(node, h), count)
    case Thunk(obj, refs, node, _) =>
      if obj !in h then v
      else match h[obj]
        case Own => Thunk(obj, refs, Resolve(node, h), true)
        case Taken(w) => Thunk(obj, refs, w, true)
  }

  /** Two nodes that differ in caches and in the nodes of thunks at most. */
  ghost predicate Same(v: VNode, w: VNode) {
    w.obj == v.obj && Draw(w) == Draw(v) && Descendants(w) == Descendants(v) && Lazy(w) == Lazy(v) &&
      RootShape(w) == RootShape(v)
  }

  ghost predicate AllSame(vs: seq<VNode>, ws: seq<VNode>) {
    |vs| == |ws| && forall j :: 0 <= j < |vs| ==> Same(vs[j], ws[j])
  }

  ghost predicate Proper(x: VNode, objects: int -> Known, calls: seq<int> -> Call) {
    Counted(x) && Honest(x, objects, calls)
  }

  ghost predicate AllProper(vs: seq<VNode>, objects: int -> Known, calls: seq<int> -> Call) {
    forall i :: 0 <= i < |vs| ==> Proper(vs[i], objects, calls)
  }

  lemma {:induction false} SpanSame(vs: seq<VNode>, ws: seq<VNode>, n: nat)
    requires AllSame(vs, ws) && n <= |vs|
    ensures Span(vs, n) == Span(ws, n)
  {
    hide Same;
    if n > 0 {
      SpanSame(vs, ws, n - 1);
      assert Same(vs[n - 1], ws[n - 1]);
      SameCount(vs[n - 1], ws[n - 1]);
    }
  }

  lemma SameCount(v: VNode, w: VNode)
    requires Same(v, w)
    ensures Descendants(w) == Descendants(v) && Draw(w) == Draw(v) && w.obj == v.obj
  {
  }

  /** A node with new children that draw the same. */
  lemma RekidSame(v: VNode, w: VNode)
    requires (v.Node? && w.Node?) || (v.KeyedNode? && w.KeyedNode?)
    requires w.obj == v.obj && w.tag == v.tag && w.ns == v.ns && w.facts == v.facts && w.count == v.count
    requires AllSame(Kids(v), Kids(w))
    ensures Same(v, w)
  {
    DrawKids(v);
    DrawKids(w);
    forall j | 0 <= j < |Kids(v)| ensures Draw(w).kids[j] == Draw(v).kids[j] { SameCount(Kids(v)[j], Kids(w)[j]); }
    assert Draw(v).kids == Draw(w).kids;
  }

  lemma RekidProper(v: VNode, w: VNode, objects: int -> Known, calls: seq<int> -> Call)
    requires (v.Node? && w.Node?) || (v.KeyedNode? && w.KeyedNode?)
    requires Same(v, w) && AllSame(Kids(v), Kids(w)) && w.count == v.count && Proper(v, objects, calls) &&
      AllProper(Kids(w), objects, calls)
    ensures Proper(w, objects, calls)
  {
    CountedKids(v);
    SpanSame(Kids(v), Kids(w), |Kids(v)|);
    if w.KeyedNode? {
      forall i | 0 <= i < |w.pairs| ensures Honest(w.pairs[i].node, objects, calls) && Counted(w.pairs[i].node) {
        assert Proper(Kids(w)[i], objects, calls);
      }
    } else {
      forall i | 0 <= i < |w.kids| ensures Honest(w.kids[i], objects, calls) && Counted(w.kids[i]) {
        assert Proper(Kids(w)[i], objects, calls);
      }
    }
  }

  lemma ProperKids(v: VNode, objects: int -> Known, calls: seq<int> -> Call)
    requires Proper(v, objects, calls) && (v.Node? || v.KeyedNode?)
    ensures AllProper(Kids(v), objects, calls)
  {
    CountedKids(v);
  }

  /** The thunks of an old view are proper and have their nodes. */
  ghost predicate PairsGood(pairs: set<(seq<int>, VNode)>, objects: int -> Known, calls: seq<int> -> Call) {
    forall o :: o in pairs ==>
      AllCached(o.1) && Proper(o.1, objects, calls) && calls(o.0) == Call(Draw(o.1), RootShape(o.1))
  }

  lemma {:induction false} OldPairs(v: VNode, objects: int -> Known, calls: seq<int> -> Call)
    requires Proper(v, objects, calls) && AllCached(v)
    ensures PairsGood(Pairs(v), objects, calls)
    decreases v
  {
    match v
    case Text(_, _) =>
    case Tagger(_, _, node, _) => OldPairs(node, objects, calls);
    case Thunk(_, _, node, _) => OldPairs(node, objects, calls);
    case _ =>
      ProperKids(v, objects, calls);
      forall o | o in Pairs(v) ensures AllCached(o.1) && Proper(o.1, objects, calls) &&
        calls(o.0) == Call(Draw(o.1), RootShape(o.1)) {
        var i :| 0 <= i < |Kids(v)| && o in Pairs(Kids(v)[i]);
        OldPairs(Kids(v)[i], objects, calls);
      }
  }

  /** All fields that are set are set rightly, and nothing is still to be done. */
  ghost predicate Closed(h: Heap, g: World) {
    forall o :: o in h ==> EntryOk(o, h[o], h.Keys, g)
  }

  ghost predicate Resolved(v: VNode, w: VNode, objects: int -> Known, calls: seq<int> -> Call) {
    Same(v, w) && Proper(w, objects, calls) && AllCached(w)
  }

  /** A view whose caches have been filled draws the same, is proper, and has all its nodes. */
  lemma {:induction false} ResolveGood(v: VNode, h: Heap, g: World, objects: int -> Known, calls: seq<int> -> Call)
    requires Closed(h, g) && Fit(v, g) && Tops(v) <= h.Keys && Proper(v, objects, calls) &&
      PairsGood(g.pairs, objects, calls)
    ensures Resolved(v, Resolve(v, h), objects, calls)
    decreases v
  {
    match v
    case Text(_, _) =>
    case Tagger(_, _, node, _) =>
      ResolveGood(node, h, g, objects, calls);
      TaggerResolved(v, Resolve(node, h), objects, calls);
    case Thunk(obj, refs, node, cached) =>
      if obj in h {
        assert EntryOk(obj, h[obj], h.Keys, g);
        if h[obj].Own? {
          ResolveGood(node, h, g, objects, calls);
          ThunkResolved(v, Resolve(node, h), objects, calls);
        } else {
          TakenResolved(v, h[obj].node, g, objects, calls);
        }
      }
    case _ =>
      FitKids(v, g);
      ProperKids(v, objects, calls);
      forall i | 0 <= i < |Kids(v)| ensures Resolved(Kids(v)[i], Kids(Resolve(v, h))[i], objects, calls) {
        TopsOfKid(v, i);
        ResolveGood(Kids(v)[i], h, g, objects, calls);
      }
      KidsResolved(v, Resolve(v, h), objects, calls);
  }

  lemma TaggerResolved(v: VNode, w: VNode, objects: int -> Known, calls: seq<int> -> Call)
    requires v.Tagger? && Resolved(v.node, w, objects, calls) && Proper(v, objects, calls)
    ensures Resolved(v, Tagger(v.obj, v.tagger, w, v.count), objects, calls)
  {
    TaggersSame(v.node, w);
  }

  /** The root of a nest tells how many taggers there are and what is below. */
  lemma {:induction false} TaggersSame(v: VNode, w: VNode)
    requires RootShape(v) == RootShape(w)
    ensures |Taggers(v)| == |Taggers(w)| && RootShape(Below(v)) == RootShape(Below(w))
  {
  }

  lemma ThunkResolved(v: VNode, w: VNode, objects: int -> Known, calls: seq<int> -> Call)
    requires v.Thunk? && Resolved(v.node, w, objects, calls) && Proper(v, objects, calls)
    ensures Resolved(v, Thunk(v.obj, v.refs, w, true), objects, calls)
  {
  }

  lemma TakenResolved(v: VNode, w: VNode, g: World, objects: int -> Known, calls: seq<int> -> Call)
    requires v.Thunk? && (v.refs, w) in g.pairs && PairsGood(g.pairs, objects, calls) && Proper(v, objects, calls)
    ensures Resolved(v, Thunk(v.obj, v.refs, w, true), objects, calls)
  {
  }

  lemma KidsResolved(v: VNode, w: VNode, objects: int -> Known, calls: seq<int> -> Call)
    requires (v.Node? && w.Node?) || (v.KeyedNode? && w.KeyedNode?)
    requires w.obj == v.obj && w.tag == v.tag && w.ns == v.ns && w.facts == v.facts && w.count == v.count &&
      |Kids(w)| == |Kids(v)|
    requires Proper(v, objects, calls) && forall i :: 0 <= i < |Kids(v)| ==>
      Resolved(Kids(v)[i], Kids(w)[i], objects, calls)
    ensures Resolved(v, w, objects, calls)
  {
    hide Same, Proper;
    RekidSame(v, w);
    RekidProper(v, w, objects, calls);
    if w.KeyedNode? {
      forall i | 0 <= i < |w.pairs| ensures AllCached(w.pairs[i].node) {
        assert Resolved(Kids(v)[i], Kids(w)[i], objects, calls);
      }
    } else {
      forall i | 0 <= i < |w.kids| ensures AllCached(w.kids[i]) {
        assert Resolved(Kids(v)[i], Kids(w)[i], objects, calls);
      }
    }
  }
}
