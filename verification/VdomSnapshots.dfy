/** The objects from one view to the next: after patching, the objects of the new view are again in
    one state each, so that another view can be built among them. */
module VdomSnapshots {
  import opened VdomNodes
  import opened VdomCaches
  import opened VdomViews

  /** The identities of the nodes in a view. */
  ghost function Objs(v: VNode): set<int>
    decreases v
  {
    {v.obj} +
    match v
    case Text(_, _) => {}
    case Node(_, _, _, _, kids, _) => set i, o | 0 <= i < |kids| && o in Objs(kids[i]) :: o
    case KeyedNode(_, _, _, _, pairs, _) => set i, o | 0 <= i < |pairs| && o in Objs(pairs[i].node) :: o
    case Tagger(_, _, node, _) => Objs(node)
    case Thunk(_, _, node, _) => Objs(node)
  }

  /** No lazy node in it. */
  ghost predicate Eager(v: VNode)
    decreases v
  {
    match v
    case Text(_, _) => true
    case Node(_, _, _, _, kids, _) => forall i :: 0 <= i < |kids| ==> Eager(kids[i])
    case KeyedNode(_, _, _, _, pairs, _) => forall i :: 0 <= i < |pairs| ==> Eager(pairs[i].node)
    case Tagger(_, _, node, _) => Eager(node)
    case Thunk(_, _, _, _) => false
  }

  /** No lazy node in it has its node yet. */
  ghost predicate Unset(v: VNode)
    decreases v
  {
    match v
    case Text(_, _) => true
    case Node(_, _, _, _, kids, _) => forall i :: 0 <= i < |kids| ==> Unset(kids[i])
    case KeyedNode(_, _, _, _, pairs, _) => forall i :: 0 <= i < |pairs| ==> Unset(pairs[i].node)
    case Tagger(_, _, node, _) => Unset(node)
    case Thunk(_, _, node, cached) => !cached && Unset(node)
  }

  /** The two views share nodes without lazy ones only. */
  ghost predicate SharesEager(x: VNode, y: VNode, table: int -> VNode) {
    forall o :: o in Objs(x) && o in Objs(y) ==> Eager(table(o))
  }

  /** Every object of y as patching has left it. */
  ghost function Left(y: VNode, h: Heap, table: int -> VNode): int -> VNode {
    o => if o in Objs(y) then Resolve(table(o), h) else table(o)
  }

  lemma {:induction false} EagerStays(v: VNode, h: Heap)
    requires Eager(v)
    ensures Resolve(v, h) == v
    decreases v
  {
    match v
    case Text(_, _) =>
    case Tagger(_, _, node, _) => EagerStays(node, h);
    case Node(_, _, _, _, kids, _) =>
      forall i | 0 <= i < |kids| ensures Resolve(kids[i], h) == kids[i] { EagerStays(kids[i], h); }
      assert Resolve(v, h).kids == kids;
    case KeyedNode(_, _, _, _, pairs, _) =>
      forall i | 0 <= i < |pairs| ensures Resolve(pairs[i].node, h) == pairs[i].node { EagerStays(pairs[i].node, h); }
      assert Resolve(v, h).pairs == pairs;
  }

  lemma ObjsOfKid(v: VNode, i: nat)
    requires (v.Node? || v.KeyedNode?) && i < |Kids(v)|
    ensures Objs(Kids(v)[i]) <= Objs(v)
  {
    forall o | o in Objs(Kids(v)[i]) ensures o in Objs(v) {}
  }

  lemma StatedKids(v: VNode, table: int -> VNode)
    requires Stated(v, table) && (v.Node? || v.KeyedNode?)
    ensures forall i :: 0 <= i < |Kids(v)| ==> Stated(Kids(v)[i], table)
  {
  }

  lemma KidsStated(v: VNode, table: int -> VNode)
    requires v.Node? || v.KeyedNode?
    requires table(v.obj) == v && forall i :: 0 <= i < |Kids(v)| ==> Stated(Kids(v)[i], table)
    ensures Stated(v, table)
  {
    if v.KeyedNode? {
      forall i | 0 <= i < |v.pairs| ensures Stated(v.pairs[i].node, table) { assert Kids(v)[i] == v.pairs[i].node; }
    } else {
      forall i | 0 <= i < |v.kids| ensures Stated(v.kids[i], table) { assert Kids(v)[i] == v.kids[i]; }
    }
  }

  /** Nodes whose objects have not changed. */
  lemma {:induction false} StatedStays(v: VNode, table: int -> VNode, table': int -> VNode)
    requires Stated(v, table) && forall o :: o in Objs(v) ==> table'(o) == table(o)
    ensures Stated(v, table')
    decreases v
  {
    match v
    case Text(_, _) =>
    case Tagger(_, _, node, _) => StatedStays(node, table, table');
    case Thunk(_, _, node, _) => StatedStays(node, table, table');
    case _ =>
      StatedKids(v, table);
      forall i | 0 <= i < |Kids(v)| ensures Stated(Kids(v)[i], table') {
        ObjsOfKid(v, i);
        StatedStays(Kids(v)[i], table, table');
      }
      KidsStated(v, table');
  }

  /** The node of a lazy node of x is part of x. */
  lemma {:induction false} PairsInside(x: VNode, refs: seq<int>, w: VNode, table: int -> VNode)
    requires (refs, w) in Pairs(x) && Stated(x, table)
    ensures Objs(w) <= Objs(x) && Stated(w, table)
    decreases x
  {
    match x
    case Text(_, _) =>
    case Tagger(_, _, node, _) => PairsInside(node, refs, w, table);
    case Thunk(_, xRefs, node, _) => if (refs, w) != (xRefs, node) { PairsInside(node, refs, w, table); }
    case _ =>
      var i: nat :| i < |Kids(x)| && (refs, w) in Pairs(Kids(x)[i]);
      StatedKids(x, table);
      ObjsOfKid(x, i);
      PairsInside(Kids(x)[i], refs, w, table);
  }

  /** A node taken over from x has not changed. */
  lemma TakenStays(x: VNode, y: VNode, refs: seq<int>, w: VNode, h: Heap, table: int -> VNode)
    requires (refs, w) in Pairs(x) && Stated(x, table) && SharesEager(x, y, table)
    ensures Stated(w, Left(y, h, table))
  {
    PairsInside(x, refs, w, table);
    forall o | o in Objs(w) ensures Left(y, h, table)(o) == table(o) {
      if o in Objs(y) { EagerStays(table(o), h); }
    }
    StatedStays(w, table, Left(y, h, table));
  }

  lemma {:induction false} ResolvedStated(x: VNode, y: VNode, v: VNode, h: Heap, table: int -> VNode)
    requires Stated(x, table) && SharesEager(x, y, table) && Closed(h, WorldOf(x, table))
    requires Stated(v, table) && Objs(v) <= Objs(y) && Unset(v) && Tops(v) <= h.Keys
    ensures Stated(Resolve(v, h), Left(y, h, table))
    decreases v
  {
    var w, left := Resolve(v, h), Left(y, h, table);
    assert w.obj == v.obj && left(v.obj) == w;
    match v
    case Text(_, _) =>
    case Tagger(_, _, node, _) => ResolvedStated(x, y, node, h, table);
    case Thunk(obj, refs, node, _) =>
      assert EntryOk(obj, h[obj], h.Keys, WorldOf(x, table));
      if h[obj].Taken? {
        TakenStays(x, y, refs, h[obj].node, h, table);
      } else {
        ResolvedStated(x, y, node, h, table);
      }
    case _ =>
      StatedKids(v, table);
      UnsetKids(v);
      forall i | 0 <= i < |Kids(w)| ensures Stated(Kids(w)[i], left) {
        ObjsOfKid(v, i);
        TopsOfKid(v, i);
        ResolvedStated(x, y, Kids(v)[i], h, table);
        assert Kids(w)[i] == Resolve(Kids(v)[i], h);
      }
      KidsStated(w, left);
  }

  lemma UnsetKids(v: VNode)
    requires Unset(v) && (v.Node? || v.KeyedNode?)
    ensures forall i :: 0 <= i < |Kids(v)| ==> Unset(Kids(v)[i])
  {
  }

  /** After patching to a view y whose lazy nodes were all new, another view z can be built of what
      is there and of new nodes: the run goes on. */
  lemma NextBuilt(x: VNode, y: VNode, h: Heap, table: int -> VNode, z: VNode, made: int -> VNode)
    returns (next: int -> VNode)
    requires Built(x, y, table) && Leaves(WorldOf(x, table), y, h) && SharesEager(x, y, table) && Unset(y)
    requires Stated(z, made) && Whole(z)
    requires forall o :: o in Objs(z) && o in Objs(Resolve(y, h)) ==> made(o) == Left(y, h, table)(o)
    ensures Built(Resolve(y, h), z, next)
  {
    var left := Left(y, h, table);
    next := o => if o in Objs(z) then made(o) else left(o);
    ResolvedStated(x, y, y, h, table);
    StatedStays(Resolve(y, h), left, next);
    StatedStays(z, made, next);
  }
}
