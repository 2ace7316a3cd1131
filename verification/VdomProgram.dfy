/** The program around it: building nodes, and one update of the page from one view to the next. */
module VdomProgram {
  import opened Wrappers
  import opened VdomFacts
  import opened VdomNodes
  import opened VdomDiff
  import opened VdomDocument
  import opened VdomPatching
  import opened VdomSteps
  import opened VdomSound
  import opened VdomAttaching
  import opened VdomTurns
  import opened VdomViews
  import opened VdomCaches
  import opened VdomSettling
  import opened VdomPage
  import opened VdomDiffer

  // ----- node constructors -----

  /** _VirtualDom_nodeNS: counts the descendants while copying the children. */
  method NodeNS(obj: int, ns: Option<string>, tag: string, facts: Facts, kidList: seq<VNode>) returns (v: VNode)
    requires forall i :: 0 <= i < |kidList| ==> Counted(kidList[i])
    ensures v == Node(obj, tag, ns, facts, kidList, Span(kidList, |kidList|)) && Counted(v)
  {
    var kids: seq<VNode>, count := [], 0;
    for i := 0 to |kidList|
      invariant kids == kidList[..i] && count + i == Span(kidList, i)
    {
      count := count + Descendants(kidList[i]);
      kids := kids + [kidList[i]];
    }
    assert kids == kidList;
    v := Node(obj, tag, ns, facts, kids, count + |kids|);
  }

  /** _VirtualDom_keyedNodeNS. */
  method KeyedNodeNS(obj: int, ns: Option<string>, tag: string, facts: Facts, kidList: seq<Keyed>) returns (v: VNode)
    requires forall i :: 0 <= i < |kidList| ==> Counted(kidList[i].node)
    ensures v == KeyedNode(obj, tag, ns, facts, kidList, Span(Unkeyed(kidList), |kidList|)) && Counted(v)
  {
    var kids: seq<Keyed>, count := [], 0;
    for i := 0 to |kidList|
      invariant kids == kidList[..i] && count + i == Span(Unkeyed(kidList), i)
    {
      count := count + Descendants(kidList[i].node);
      kids := kids + [kidList[i]];
    }
    assert kids == kidList;
    v := KeyedNode(obj, tag, ns, facts, kids, count + |kids|);
  }

  /** _VirtualDom_map. */
  function Map(obj: int, tagger: int, node: VNode): (v: VNode)
    requires Counted(node)
    ensures Counted(v) && Draw(v) == Draw(node) && Below(v) == Below(node) && Taggers(v) == [tagger] + Taggers(node)
  {
    Tagger(obj, tagger, node, 1 + Descendants(node))
  }

  // ----- one update -----

  /** The first view, rendered. */
  method Show(page: Page, v: VNode, ghost table: int -> VNode) returns (r: Ref, shown: VNode)
    requires Stated(v, table) && Whole(v)
    modifies page
    ensures FirstFrame(old(page.Value()), v, table, Frame(page.Value(), r, shown))
  {
    hide Render, Stated, Whole, Tops, Fills, Resolve, Drawable;
    ghost var g := World(table, {});
    FitDrawable(v, g);
    var cache := new Caches();
    r := page.RenderNode(v, cache, g);
    AllSettled(cache.entries, g);
    shown := Resolve(v, cache.entries);
  }

  /** _VirtualDom_applyPatches. */
  method ApplyAt(page: Page, root: Ref, x: VNode, ps: seq<Patch>, ghost t: Tree, cache: Caches, ghost g: World)
    returns (r: Ref)
    requires Holds(page.Value(), t) && t.ref == root && Fits(x, t) && Counted(x) && WellPlaced(ps, x, 0) &&
      AllRenderable(ps, g)
    modifies page, cache
    ensures var s := ApplyAll(State(old(page.Value()), Some(root), [], map[]), AttachAll(ps, x, t, 0));
      page.Value() == s.doc && r == RootOr(s, root)
    ensures Settles(old(cache.entries), cache.entries, g) && Pending(ps) <= cache.entries.Keys
  {
    hide AttachAll, ApplyAll, Fits, WellPlaced, Holds, Counted, Settles, Pending, AllReady, AllRenderable;
    if ps == [] {
      NothingToAttach(x, t, 0);
      NothingToApply(State(page.Value(), Some(root), [], map[]));
      NothingPending();
      SettlesSelf(cache.entries, g);
      return root;
    }
    var attached := page.AddDomNodes(root, x, ps, t);
    WholeReady(ps, x, t, g);
    var s, _ := page.ApplyPatches(Some(root), attached, [], map[], cache, g);
    r := if s.Some? then s.value else root;
  }

  /** _VirtualDom_diff and _VirtualDom_applyPatches, as the program calls them for each new view:
      the page shows the new view in the place of the old one exactly when the pair is sound, and
      the returned root is the root of what is shown exactly when it has not been lost.  Whether or
      not they are, every lazy node of the new view has its node afterwards. */
  method Update(page: Page, root: Ref, x: VNode, y: VNode, ghost t: Tree, ghost table: int -> VNode,
                ghost objects: int -> Known, ghost calls: seq<int> -> Call)
    returns (r: Ref, next: VNode, ghost u: Tree)
    requires Rooted(page.Value(), t) && t.ref == root && See(t) == Draw(x)
    requires AllCached(x) && Proper(x, objects, calls) && Proper(y, objects, calls) && Built(x, y, table)
    modifies page
    ensures (page.Value(), r) == PatchDocument(old(page.Value()), t, x, y)
    ensures NextFrame(Frame(old(page.Value()), root, x), y, table, Frame(page.Value(), r, next))
    ensures Step(old(page.Value()), t, page.Value(), u) && Rooted(page.Value(), u)
    ensures See(u) == Draw(y) <==> Sound(x, y)
    ensures r == u.ref <==> !Lost(x, y)
    ensures Resolved(y, next, objects, calls)
  {
    hide Step, See, Draw, Sound, Lost, Diff, Honest, AttachAll, ApplyAll, Fits, WellPlaced, Rooted, Holds, Counted,
      Resolve, Resolved,
      Stated, Whole, AllCached, Tops, Fills, Pending, AllReady, AllRenderable, Pairs, Drawable;
    u := PatchShows(page.Value(), t, x, y, objects, calls);
    ghost var g := WorldOf(x, table);
    var cache := new Caches();
    var patches := new PatchList();
    DiffHelp(x, y, patches, 0, cache, g);
    assert patches.items == Diff(x, y, 0);
    ghost var h := cache.entries;
    RootedHolds(page.Value(), t);
    DrawnFits(x, t);
    DiffGood(x, y, 0);
    FitDrawable(y, g);
    DiffRenderable(x, y, 0, g);
    r := ApplyAt(page, root, x, patches.items, t, cache, g);
    PatchesSettled(h, patches.items, y, cache.entries, g);
    next := Resolve(y, cache.entries);
    NextView(x, y, table, cache.entries, objects, calls);
  }

  lemma NothingToApply(s: State)
    ensures ApplyAll(s, []) == s
  {
  }

  lemma NothingPending()
    ensures Pending([]) == {}
  {
  }

  /** What the attached patches set is what the difference left to them. */
  lemma WholeReady(ps: seq<Patch>, v: VNode, t: Tree, g: World)
    requires Fits(v, t) && WellPlaced(ps, v, 0) && AllRenderable(ps, g)
    ensures var qs := AttachAll(ps, v, t, 0); AllReady(qs) && AllRenderable(qs, g) && Pending(qs) == Pending(ps)
  {
    AttachAllPending(ps, v, t, 0, g);
    AllFineReady(ps, v, t, 0);
  }

  lemma AllSettled(h: Heap, g: World)
    requires Settles(map[], h, g)
    ensures Closed(h, g)
  {
  }

  /** The difference has set some fields and applying its patches the others. */
  lemma PatchesSettled(h0: Heap, ps: seq<Patch>, y: VNode, h: Heap, g: World)
    requires FillsTo(map[], [], h0, ps, g) && Tops(y) <= Pool(h0, ps) && Settles(h0, h, g) && Pending(ps) <= h.Keys
    ensures Leaves(g, y, h)
  {
    hide Pending, Tops, EntryOk;
    forall o | o in h ensures EntryOk(o, h[o], h.Keys, g) {
      if o in h0 && h[o] == h0[o] { EntryMore(o, h[o], Pool(h0, ps), h.Keys, g); }
    }
  }
}
