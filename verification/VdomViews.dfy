/** The main results about patching: one patch, and any sequence of views. */
module VdomViews {
  import opened Wrappers
  import opened VdomNodes
  import opened VdomDiff
  import opened VdomDocument
  import opened VdomPatching
  import opened VdomSteps
  import opened VdomRendering
  import opened VdomActions
  import opened VdomSound
  import opened VdomReorderLocals
  import opened VdomTheorem
  import opened VdomCaches

  // ----- one patch -----

  /** Patching the tree that shows x with the difference from x to y puts a tree u in its place
      and changes nothing else.  It shows y exactly when the pair is sound, and the node returned
      as its root is its root exactly when the root has not been lost. */
  lemma PatchShows(d: Doc, t: Tree, x: VNode, y: VNode, objects: int -> Known, calls: seq<int> -> Call)
    returns (u: Tree)
    requires Rooted(d, t) && See(t) == Draw(x) && AllCached(x) && Proper(x, objects, calls) && Proper(y, objects, calls)
    ensures var (e, r) := PatchDocument(d, t, x, y);
      && Step(d, t, e, u) && Rooted(e, u)
      && (See(u) == Draw(y) <==> Sound(x, y))
      && (r == u.ref <==> !Lost(x, y))
  {
    hide Rooted, See, Draw, Honest, Counted, Attach, AttachAll, Diff, Step, Sound, Lost, Replaces, Only;
    RootBelow(d, t);
    var e, u1, r := Patched(x, y, 0, d, t, objects, calls);
    u := u1;
    if Lost(x, y) { LostReplaces(x, y); }
    assert Around(State(d, Some(t.ref), [], map[]), d, t);
    assert ApplyAll(State(d, Some(t.ref), [], map[]), AttachAll(Diff(x, y, 0), x, t, 0)) ==
      State(e, Some(r), [], map[]);
  }

  /** A document holds one tree at a root. */
  lemma {:induction false} OneTree(d: Doc, t: Tree, u: Tree)
    requires Holds(d, t) && Holds(d, u) && t.ref == u.ref
    ensures t == u
    decreases t
  {
    if t.ElementTree? {
      assert Roots(t.kids) == Roots(u.kids);
      forall i | 0 <= i < |t.kids| ensures t.kids[i] == u.kids[i] {
        assert Placed(d, t.ref, t.kids[i]) && Placed(d, u.ref, u.kids[i]);
        assert Roots(t.kids)[i] == Roots(u.kids)[i];
        OneTree(d, t.kids[i], u.kids[i]);
      }
    }
  }

  // ----- runs -----

  /** Between two views: the document, the node the program takes for the root, and the view
      last shown, with its caches. */
  datatype Frame = Frame(doc: Doc, root: Ref, view: VNode)

  /** The objects when view y has been built and the last one, x, is still there. */
  ghost predicate Built(x: VNode, y: VNode, table: int -> VNode) {
    Stated(x, table) && Stated(y, table) && Whole(y)
  }

  ghost function WorldOf(x: VNode, table: int -> VNode): World {
    World(table, Pairs(x))
  }

  /** The fields of lazy nodes as patching from x to y may leave them. */
  ghost predicate Leaves(g: World, y: VNode, h: Heap) {
    Closed(h, g) && Tops(y) <= h.Keys
  }

  /** The first frame: the view has been rendered. */
  ghost predicate FirstFrame(d: Doc, v: VNode, table: int -> VNode, s: Frame) {
    exists h :: Leaves(World(table, {}), v, h) && s == Frame(Render(d, v).0, Render(d, v).1, Resolve(v, h))
  }

  /** From one frame to the next, with view y. */
  ghost predicate NextFrame(s: Frame, y: VNode, table: int -> VNode, s': Frame) {
    exists t, h :: Holds(s.doc, t) && t.ref == s.root && Leaves(WorldOf(s.view, table), y, h) &&
      s' == Frame(PatchDocument(s.doc, t, s.view, y).0, PatchDocument(s.doc, t, s.view, y).1, Resolve(y, h))
  }

  /** Each view is built among the objects of the last frame, which it may share. */
  ghost predicate Run(d: Doc, ss: seq<Frame>, ys: seq<VNode>, tables: seq<int -> VNode>) {
    && |ss| == |ys| == |tables| > 0
    && Stated(ys[0], tables[0]) && Whole(ys[0]) && FirstFrame(d, ys[0], tables[0], ss[0])
    && forall i :: 0 < i < |ss| ==>
      Built(ss[i - 1].view, ys[i], tables[i]) && NextFrame(ss[i - 1], ys[i], tables[i], ss[i])
  }

  /** The tree at the root shows v, the view is a copy of v, and all its thunks have nodes. */
  ghost predicate Shows(s: Frame, v: VNode, objects: int -> Known, calls: seq<int> -> Call) {
    && (exists t :: Rooted(s.doc, t) && t.ref == s.root && See(t) == Draw(v))
    && Resolved(v, s.view, objects, calls)
  }

  lemma FirstShows(d: Doc, v: VNode, table: int -> VNode, s: Frame, objects: int -> Known, calls: seq<int> -> Call)
    requires Valid(d) && Proper(v, objects, calls) && Stated(v, table) && Whole(v) && FirstFrame(d, v, table, s)
    ensures Shows(s, v, objects, calls)
  {
    var t := RenderDraws(d, v);
    hide Render, See, Draw, Resolved, Counted, Honest, Stated, Whole, Closed, Tops, Resolve;
    var h :| Leaves(World(table, {}), v, h) && s == Frame(Render(d, v).0, Render(d, v).1, Resolve(v, h));
    ResolveGood(v, h, World(table, {}), objects, calls);
    DrawnRooted(d, s.doc, t);
  }

  lemma DrawnRooted(d: Doc, e: Doc, t: Tree)
    requires Drawn(d, e, t)
    ensures Rooted(e, t)
  {
  }

  /** What patching leaves of the new view: all its nodes, and nothing else has changed in it. */
  lemma NextView(x: VNode, y: VNode, table: int -> VNode, h: Heap, objects: int -> Known, calls: seq<int> -> Call)
    requires Proper(x, objects, calls) && AllCached(x) && Proper(y, objects, calls)
    requires Built(x, y, table) && Leaves(WorldOf(x, table), y, h)
    ensures Resolved(y, Resolve(y, h), objects, calls)
  {
    hide Proper, AllCached, Resolve, Resolved, Closed, Tops, Stated, Whole, Pairs;
    OldPairs(x, objects, calls);
    ResolveGood(y, h, WorldOf(x, table), objects, calls);
  }

  lemma ResolvedIs(v: VNode, w: VNode, objects: int -> Known, calls: seq<int> -> Call)
    requires Resolved(v, w, objects, calls)
    ensures Draw(w) == Draw(v) && RootShape(w) == RootShape(v) && Proper(w, objects, calls) && AllCached(w)
  {
  }

  lemma NextShows(s: Frame, v: VNode, y: VNode, table: int -> VNode, s': Frame, objects: int -> Known,
                  calls: seq<int> -> Call)
    requires Shows(s, v, objects, calls) && Proper(y, objects, calls)
    requires Built(s.view, y, table) && NextFrame(s, y, table, s')
    requires Sound(s.view, y) && !Lost(s.view, y)
    ensures Shows(s', y, objects, calls)
  {
    hide Proper, AllCached, PatchDocument, Resolve, Resolved, See, Draw, Sound, Lost, Step, Built, Leaves, WorldOf,
      RootShape;
    ResolvedIs(v, s.view, objects, calls);
    var t, h :| Holds(s.doc, t) && t.ref == s.root && Leaves(WorldOf(s.view, table), y, h) &&
      s' == Frame(PatchDocument(s.doc, t, s.view, y).0, PatchDocument(s.doc, t, s.view, y).1, Resolve(y, h));
    var t1 :| Rooted(s.doc, t1) && t1.ref == s.root && See(t1) == Draw(v);
    OneTree(s.doc, t, t1);
    hide Rooted, Holds;
    var u := PatchShows(s.doc, t, s.view, y, objects, calls);
    NextView(s.view, y, table, h, objects, calls);
  }

  /** Over a whole run, as long as every pair of views met is sound and no root is lost, every
      frame shows its view, and every lazy node in it has its node. */
  lemma {:induction false} RunShows(d: Doc, ss: seq<Frame>, ys: seq<VNode>, tables: seq<int -> VNode>, n: nat,
                                    objects: int -> Known, calls: seq<int> -> Call)
    requires Valid(d) && Run(d, ss, ys, tables) && n < |ss|
    requires forall i :: 0 <= i < |ys| ==> Proper(ys[i], objects, calls)
    requires forall i :: 0 <= i < n ==> Sound(ss[i].view, ys[i + 1]) && !Lost(ss[i].view, ys[i + 1])
    ensures Shows(ss[n], ys[n], objects, calls)
  {
    hide Proper, Shows, NextFrame, FirstFrame, Sound, Lost, Built, Stated, Whole;
    if n == 0 {
      FirstShows(d, ys[0], tables[0], ss[0], objects, calls);
    } else {
      RunShows(d, ss, ys, tables, n - 1, objects, calls);
      NextShows(ss[n - 1], ys[n - 1], ys[n], tables[n], ss[n], objects, calls);
    }
  }
}
