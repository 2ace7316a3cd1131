/** The page: the document updated in place by rendering and by patching, each method against
    the function that specifies it. */
module VdomPage {
  import opened Wrappers
  import opened VdomFacts
  import opened VdomNodes
  import opened VdomDiff
  import opened VdomDocument
  import opened VdomPatching
  import opened VdomNumbering
  import opened VdomAttaching
  import opened VdomCaches
  import opened VdomSettling

  class Page {
    var nodes: map<Ref, DomNode>
    var parent: map<Ref, Ref>
    var next: Ref

    ghost function Value(): Doc
      reads this
    {
      Doc(nodes, parent, next)
    }

    constructor ()
      ensures Value() == Doc(map[], map[], 0)
    {
      nodes, parent, next := map[], map[], 0;
    }

    // ----- the DOM interface -----

    method CreateNode(n: DomNode) returns (r: Ref)
      modifies this
      ensures (Value(), r) == Create(old(Value()), n)
    {
      r := next;
      nodes, next := nodes[r := n], next + 1;
    }

    method ReplaceKids(r: Ref, kids: seq<Ref>)
      modifies this`nodes
      ensures Value() == SetKids(old(Value()), r, kids)
    {
      if r in nodes && nodes[r].Element? {
        nodes := nodes[r := nodes[r].(kids := kids)];
      }
    }

    function KidsOf(r: Ref): (kids: seq<Ref>)
      reads this
      ensures kids == ChildNodes(Value(), r)
    {
      if r in nodes && nodes[r].Element? then nodes[r].kids else []
    }

    method RemoveChild(r: Ref)
      modifies this
      ensures Value() == Detach(old(Value()), r)
    {
      if r in parent {
        var p := parent[r];
        ReplaceKids(p, Without(KidsOf(p), r));
        parent := parent - {r};
      }
    }

    method InsertChild(p: Ref, r: Ref, before: Option<Ref>)
      modifies this
      ensures Value() == InsertBefore(old(Value()), p, r, before)
    {
      RemoveChild(r);
      ReplaceKids(p, InsertIn(KidsOf(p), r, before));
      parent := parent[r := p];
    }

    method ReplaceNode(p: Ref, added: Ref, gone: Ref)
      modifies this
      ensures Value() == ReplaceChild(old(Value()), p, added, gone)
    {
      ReplaceKids(p, Swap(KidsOf(p), gone, added));
      parent := (parent - {gone})[added := p];
    }

    /** Appending a fragment moves its children one by one in effect; here all at once. */
    method AppendAll(p: Ref, f: Ref)
      modifies this
      ensures Value() == AppendFragment(old(Value()), p, f)
    {
      var moving, kids := KidsOf(f), KidsOf(p);
      ReplaceKids(f, []);
      ReplaceKids(p, kids + moving);
      parent := parent + map r | r in moving :: p;
    }

    // ----- rendering -----

    /** _VirtualDom_render: also sets the fields of the lazy nodes that have none. */
    method RenderNode(v: VNode, cache: Caches, ghost g: World) returns (r: Ref)
      requires Drawable(v, g)
      modifies this, cache
      ensures (Value(), r) == Render(old(Value()), v)
      ensures Settles(old(cache.entries), cache.entries, g) && Tops(v) <= cache.entries.Keys
      decreases v, 1
    {
      hide Drawable, Settles, Tops, AllCached;
      match v
      case Thunk(obj, _, node, cached) =>
        r := RenderThunk(v, cache, g);
      case Text(_, text) =>
        SettlesSelf(cache.entries, g);
        NoTops(v) by { TextCached(v); }
        r := CreateNode(TextNode(text));
      case Tagger(_, _, node, _) =>
        var sub := node;
        while sub.Tagger?
          invariant Below(sub) == Below(v) && sub < v
          invariant Value() == old(Value()) && cache.entries == old(cache.entries)
          decreases sub
        {
          sub := sub.node;
        }
        DrawableBelow(v, g);
        r := RenderNode(sub, cache, g);
      case _ => r := RenderElement(v, cache, g);
    }

    method RenderThunk(v: VNode, cache: Caches, ghost g: World) returns (r: Ref)
      requires v.Thunk? && Drawable(v, g)
      modifies this, cache
      ensures (Value(), r) == Render(old(Value()), v)
      ensures Settles(old(cache.entries), cache.entries, g) && Tops(v) <= cache.entries.Keys
      decreases v, 0
    {
      hide Render, Settles;
      ThunkRenders(Value(), v);
      if v.cached || v.obj in cache.entries {
        r := RenderNode(v.node, cache, g);
        KeysGrow(old(cache.entries), cache.entries, g);
      } else {
        ghost var h0 := cache.entries;
        cache.Call(v.obj);
        r := RenderNode(v.node, cache, g);
        SettlesCall(h0, v, cache.entries, g);
      }
    }

    method RenderElement(v: VNode, cache: Caches, ghost g: World) returns (r: Ref)
      requires (v.Node? || v.KeyedNode?) && Drawable(v, g)
      modifies this, cache
      ensures (Value(), r) == Render(old(Value()), v)
      ensures Settles(old(cache.entries), cache.entries, g) && Tops(v) <= cache.entries.Keys
      decreases v, 0
    {
      hide Fresh, ChildNodes, InsertBefore, Drawable, Settles, Tops;
      ghost var h0 := cache.entries;
      r := CreateNode(Element(v.tag, v.ns, Fresh(v.facts), []));
      ghost var start := Value();
      var kids := Kids(v);
      DrawableKids(v, g);
      SettlesSelf(h0, g);
      for i := 0 to |kids|
        invariant Value() == RenderKids(start, r, v, i)
        invariant Settles(h0, cache.entries, g) && KidsSet(kids, 0, i, cache.entries)
      {
        ghost var h1 := cache.entries;
        var k := RenderNode(kids[i], cache, g);
        SettlesThen(h0, h1, cache.entries, g);
        KidsSetNext(kids, 0, i, h1, cache.entries);
        InsertChild(r, k, None);
      }
      KidsSetAll(v, cache.entries);
    }

    // ----- patching -----

    method Redrawn(dom: Ref, v: VNode, cache: Caches, ghost g: World) returns (r: Ref)
      requires Drawable(v, g)
      modifies this, cache
      ensures forall s: State :: s.doc == old(Value()) ==> ApplyAction(s, dom, Redraw(v)) == (Value(), r, s.moved)
      ensures Settles(old(cache.entries), cache.entries, g) && Tops(v) <= cache.entries.Keys
    {
      hide Settles, Drawable, Tops, Render;
      r := RenderNode(v, cache, g);
      if dom in parent && r != dom {
        ReplaceNode(parent[dom], r, dom);
      }
    }

    method RemoveLastKids(dom: Ref, length: nat, diff: nat)
      modifies this
      ensures Value() == RemoveMany(old(Value()), dom, length, diff)
    {
      for i := 0 to diff
        invariant Value() == RemoveMany(old(Value()), dom, length, i)
      {
        var kids := KidsOf(dom);
        if length < |kids| { RemoveChild(kids[length]); }
      }
    }

    method AppendKids(dom: Ref, length: nat, kids: seq<VNode>, cache: Caches, ghost g: World)
      requires forall i :: 0 <= i < |kids| ==> Drawable(kids[i], g)
      modifies this, cache
      ensures Value() == AppendMany(old(Value()), dom, kids, length, |kids|, ChildAt(old(Value()), dom, length))
      ensures Settles(old(cache.entries), cache.entries, g) && LateTops(kids, length) <= cache.entries.Keys
    {
      hide Drawable, Settles, Tops, LateTops, Render;
      ghost var h0 := cache.entries;
      SettlesSelf(h0, g);
      var now := KidsOf(dom);
      var end := if length < |now| then Some(now[length]) else None;
      var i := length;
      if |kids| < length {
        AppendNone(Value(), dom, kids, length, |kids|, end);
        LateSet(kids, length, cache.entries);
        return;
      }
      AppendNone(Value(), dom, kids, length, length, end);
      while i < |kids|
        invariant length <= i <= |kids|
        invariant Value() == AppendMany(old(Value()), dom, kids, length, i, end)
        invariant Settles(h0, cache.entries, g) && KidsSet(kids, length, i, cache.entries)
      {
        ghost var h1 := cache.entries;
        var k := RenderNode(kids[i], cache, g);
        SettlesThen(h0, h1, cache.entries, g);
        KidsSetNext(kids, length, i, h1, cache.entries);
        InsertChild(dom, k, end);
        i := i + 1;
      }
      LateSet(kids, length, cache.entries);
    }

    lemma AppendNone(d: Doc, dom: Ref, kids: seq<VNode>, from: nat, n: nat, end: Option<Ref>)
      requires n <= |kids| && n <= from
      ensures AppendMany(d, dom, kids, from, n, end) == d
    {
    }

    /** _VirtualDom_applyPatchesHelp.  `entries` and `moved` are the entries of the reorder that
        these patches are part of, and the DOM nodes the moved ones hold.  The lazy nodes in what is
        rendered get their nodes. */
    method ApplyPatches(root: Option<Ref>, ps: seq<Patch>, entries: seq<Entry>, moved: map<nat, Ref>, cache: Caches,
                        ghost g: World)
      returns (root': Option<Ref>, moved': map<nat, Ref>)
      requires AllRenderable(ps, g)
      modifies this, cache
      ensures State(Value(), root', entries, moved') == ApplyAll(State(old(Value()), root, entries, moved), ps)
      ensures Settles(old(cache.entries), cache.entries, g) && (AllReady(ps) ==> Pending(ps) <= cache.entries.Keys)
      decreases ps, 0
    {
      hide Renderable, Settles, Pending, PendingIn, Ready, AllReady, ApplyPatch;
      ghost var h0 := cache.entries;
      SettlesSelf(h0, g);
      root', moved' := root, moved;
      assert ps[..0] == [];
      for i := 0 to |ps|
        invariant State(Value(), root', entries, moved') == ApplyAll(State(old(Value()), root, entries, moved), ps[..i])
        invariant Settles(h0, cache.entries, g) && PatchesSet(ps, i, cache.entries)
      {
        assert ps[..i + 1][..i] == ps[..i] && ps[..i + 1][i] == ps[i];
        ghost var h1 := cache.entries;
        root', moved' := ApplyOnePatch(root', ps[i], entries, moved', cache, g);
        SettlesThen(h0, h1, cache.entries, g);
        PatchesSetNext(ps, i, h1, cache.entries);
      }
      PatchesSetAll(ps, cache.entries);
      assert ps[..|ps|] == ps;
    }

    method ApplyOnePatch(root: Option<Ref>, p: Patch, entries: seq<Entry>, moved: map<nat, Ref>, cache: Caches,
                         ghost g: World)
      returns (root': Option<Ref>, moved': map<nat, Ref>)
      requires Renderable(p, g)
      modifies this, cache
      ensures State(Value(), root', entries, moved') == ApplyPatch(State(old(Value()), root, entries, moved), p)
      ensures Settles(old(cache.entries), cache.entries, g) && (Ready(p) ==> PendingIn(p) <= cache.entries.Keys)
      decreases p, 2
    {
      hide AllRenderable, Settles, Pending, AllReady, Drawable, EntriesDrawable, ApplyAll, ApplyAction, Tops,
        LateTops, EntryTops;
      SettlesSelf(cache.entries, g);
      root', moved' := root, moved;
      if p.action.Inside? {
        var r, _ := ApplyPatches(p.dom, p.action.patches, [], map[], cache, g);
        if p.dom == root { root' := r; }
      } else if p.dom.Some? {
        var r;
        r, moved' := Act(p.dom.value, p.action, entries, moved, root, cache, g);
        ActedReady(p);
        if p.dom == root { root' := Some(r); }
      }
    }

    /** _VirtualDom_applyPatch for a patch with a DOM node. */
    method Act(dom: Ref, a: Action, entries: seq<Entry>, moved: map<nat, Ref>, ghost root: Option<Ref>,
               cache: Caches, ghost g: World)
      returns (r: Ref, moved': map<nat, Ref>)
      requires !a.Inside? && Renderable(Patch(0, a, Some(dom)), g)
      modifies this, cache
      ensures (Value(), r, moved') == ApplyAction(State(old(Value()), root, entries, moved), dom, a)
      ensures Settles(old(cache.entries), cache.entries, g)
      ensures Ready(Patch(0, a, Some(dom))) ==> PendingIn(Patch(0, a, Some(dom))) <= cache.entries.Keys
      decreases a, 1
    {
      hide AllRenderable, Settles, Pending, AllReady, Drawable, EntriesDrawable, Tops, LateTops, EntryTops, ApplyAll;
      SettlesSelf(cache.entries, g);
      r, moved' := dom, moved;
      match a
      case Redraw(node) => r := Redrawn(dom, node, cache, g);
      case SetFacts(change) =>
        if dom in nodes && nodes[dom].Element? {
          nodes := nodes[dom := nodes[dom].(facts := ApplyFacts(nodes[dom].facts, change))];
        }
      case SetText(text) =>
        if dom in nodes && nodes[dom].TextNode? { nodes := nodes[dom := TextNode(text)]; }
      case Retag(_) =>
      case RemoveLast(length, diff) => RemoveLastKids(dom, length, diff);
      case Append(length, kids) => AppendKids(dom, length, kids, cache, g);
      case Remove(None) => RemoveChild(dom);
      case Remove(Some(m)) =>
        if m.entry < |entries| && entries[m.entry].at.Some? { RemoveChild(dom); }
        var s, _ := ApplyPatches(Some(dom), m.patches, [], map[], cache, g);
        moved' := moved[m.entry := if s.Some? then s.value else dom];
      case Reorder(ps, inserts, ends, its) =>
        r := ReorderNode(dom, ps, inserts, ends, its, entries, moved, root, cache, g);
    }

    /** _VirtualDom_applyPatchReorder. */
    method ReorderNode(dom: Ref, ps: seq<Patch>, inserts: seq<Insert>, ends: seq<Insert>, its: seq<Entry>,
                       ghost entries: seq<Entry>,
                       ghost moved: map<nat, Ref>, ghost root: Option<Ref>, cache: Caches, ghost g: World)
      returns (r: Ref)
      requires AllRenderable(ps, g) && EntriesDrawable(its, g)
      modifies this, cache
      ensures (Value(), r, moved) == ApplyAction(State(old(Value()), root, entries, moved), dom,
        Reorder(ps, inserts, ends, its))
      ensures Settles(old(cache.entries), cache.entries, g)
      ensures AllReady(ps) ==> Pending(ps) + EntryTops(inserts, its) + EntryTops(ends, its) <= cache.entries.Keys
      decreases ps, 1
    {
      hide AllRenderable, Settles, Pending, AllReady, EntriesDrawable, EntryTops, ApplyAll, FillFragment, DoInserts,
        AppendFragment, MovedRoots;
      ghost var h0 := cache.entries;
      SettlesSelf(h0, g);
      NoEnds(its);
      var held := MovedRoots(ps, |ps|);
      var frag := 0;
      if ends != [] {
        frag := CreateNode(FRAGMENT);
        TakeEnds(frag, ends, its, held, cache, g);
      }
      ghost var h1 := cache.entries;
      var s, held' := ApplyPatches(Some(dom), ps, its, held, cache, g);
      SettlesThen(h0, h1, cache.entries, g);
      ghost var h2 := cache.entries;
      r := if s.Some? then s.value else dom;
      InsertEntries(r, inserts, its, held', cache, g);
      SettlesThen(h0, h2, cache.entries, g);
      SettlesThen(h1, h2, cache.entries, g);
      if ends != [] { AppendAll(r, frag); }
    }

    method NodeOf(entries: seq<Entry>, moved: map<nat, Ref>, e: nat, cache: Caches, ghost g: World) returns (k: Ref)
      requires EntriesDrawable(entries, g)
      modifies this, cache
      ensures (Value(), k) == EntryNode(old(Value()), entries, moved, e)
      ensures Settles(old(cache.entries), cache.entries, g)
      ensures e < |entries| && entries[e].tag == INSERT ==> Tops(entries[e].node) <= cache.entries.Keys
    {
      hide Settles, Tops, Drawable, Render;
      if e < |entries| && entries[e].tag == INSERT {
        k := RenderNode(entries[e].node, cache, g);
      } else {
        SettlesSelf(cache.entries, g);
        k := if e in moved then moved[e] else 0;
      }
    }

    method TakeEnds(frag: Ref, ends: seq<Insert>, entries: seq<Entry>, moved: map<nat, Ref>, cache: Caches,
                    ghost g: World)
      requires EntriesDrawable(entries, g)
      modifies this, cache
      ensures Value() == FillFragment(old(Value()), frag, ends, entries, moved, |ends|)
      ensures Settles(old(cache.entries), cache.entries, g) && EntryTops(ends, entries) <= cache.entries.Keys
    {
      hide Render, InsertBefore, ChildNodes, EntriesDrawable, Settles, Tops;
      ghost var h0 := cache.entries;
      SettlesSelf(h0, g);
      for i := 0 to |ends|
        invariant Value() == FillFragment(old(Value()), frag, ends, entries, moved, i)
        invariant Settles(h0, cache.entries, g) && InsertsSet(ends, entries, i, cache.entries)
      {
        ghost var h1 := cache.entries;
        var k := NodeOf(entries, moved, ends[i].entry, cache, g);
        SettlesThen(h0, h1, cache.entries, g);
        InsertsSetNext(ends, entries, i, h1, cache.entries);
        InsertChild(frag, k, None);
      }
      InsertsSetAll(ends, entries, cache.entries);
    }

    method InsertEntries(dom: Ref, inserts: seq<Insert>, entries: seq<Entry>, moved: map<nat, Ref>, cache: Caches,
                         ghost g: World)
      requires EntriesDrawable(entries, g)
      modifies this, cache
      ensures Value() == DoInserts(old(Value()), dom, inserts, entries, moved, |inserts|)
      ensures Settles(old(cache.entries), cache.entries, g) && EntryTops(inserts, entries) <= cache.entries.Keys
    {
      hide Render, InsertBefore, EntriesDrawable, Settles, Tops;
      ghost var h0 := cache.entries;
      SettlesSelf(h0, g);
      for i := 0 to |inserts|
        invariant Value() == DoInserts(old(Value()), dom, inserts, entries, moved, i)
        invariant Settles(h0, cache.entries, g) && InsertsSet(inserts, entries, i, cache.entries)
      {
        ghost var h1 := cache.entries;
        var k := NodeOf(entries, moved, inserts[i].entry, cache, g);
        SettlesThen(h0, h1, cache.entries, g);
        InsertsSetNext(inserts, entries, i, h1, cache.entries);
        var kids, at := KidsOf(dom), inserts[i].at;
        InsertChild(dom, k, if at.Some? && at.value < |kids| then Some(kids[at.value]) else None);
      }
      InsertsSetAll(inserts, entries, cache.entries);
    }

    // ----- finding the DOM nodes of patches -----

    /** _VirtualDom_addDomNodes; the count of a text or a thunk is undefined. */
    method AddDomNodes(dom: Ref, v: VNode, ps: seq<Patch>, ghost t: Tree) returns (qs: seq<Patch>)
      requires Holds(Value(), t) && t.ref == dom && Fits(v, t) && Counted(v) && ps != [] && WellPlaced(ps, v, 0)
      ensures qs == AttachAll(ps, v, t, 0)
      decreases v, ps, 2
    {
      hide Holds, Fits, Counted, WellPlaced, Searched, AttachAll;
      var high := if v.Text? || v.Thunk? then None else Some(v.count);
      WholeSearchable(ps, v, 0, high);
      var i;
      qs, i := AddDomNodesHelp(dom, v, ps, 0, 0, high, t);
      WholeSearched(ps, i, v, t, 0, qs);
    }

    /** _VirtualDom_addDomNodesHelp: attaches the patches from i on, up to `high`, skipping the
        subtrees without any. */
    method AddDomNodesHelp(dom: Ref, v: VNode, ps: seq<Patch>, i: nat, low: nat, high: Option<nat>, ghost t: Tree)
      returns (qs: seq<Patch>, k: nat)
      requires Holds(Value(), t) && t.ref == dom && Fits(v, t) && Counted(v) && Searchable(ps, i, v, low, high)
      ensures Searched(ps, i, k, v, t, low, qs)
      decreases v, ps, 1
    {
      hide Holds, Fits, Counted, Attach, Searched, Fine, Descendants;
      NothingAttached(ps, i, v, t, low);
      qs, k := ps, i;
      while qs[k].index == low
        invariant Searching(ps, i, k, v, t, low, qs) && k < |ps| && qs[k] == ps[k] && !Beyond(qs[k].index, high) &&
          low <= ps[k].index
        decreases |ps| - k
      {
        FineNode(ps, i, k, v, low, high);
        var q := AttachNode(dom, v, qs[k], low, high, t);
        AttachedOne(ps, i, k, v, t, low, qs);
        qs, k := qs[k := q], k + 1;
        if k >= |qs| || Beyond(qs[k].index, high) {
          BeyondUsed(ps, i, k, v, t, low, high, qs);
          return;
        }
      }
      if v.Tagger? {
        qs, k := SearchBelow(dom, v, ps, i, k, qs, low, high, t);
      } else {
        qs, k := SearchKids(dom, v, ps, i, k, qs, low, high, t);
      }
    }

    /** One round of the search at the node itself. */
    method AttachNode(dom: Ref, v: VNode, p: Patch, low: nat, high: Option<nat>, ghost t: Tree) returns (q: Patch)
      requires Holds(Value(), t) && t.ref == dom && Fits(v, t) && Counted(v) && FineAt(p, v) && p.index == low
      requires high.Some? ==> low + Descendants(v) <= high.value
      ensures q == Attach(p, v, t, low)
      decreases v, p, 0
    {
      hide Holds, Fits, Counted, AttachAll, Searched, WellPlaced, Searchable, Ordered, AllFine, InRange;
      q := p;
      match p.action
      case Inside(sub) =>
        ThunkFits(v, t, sub);
        var sub' := AddDomNodes(dom, v.node, sub, t);
        q := Patch(low, Inside(sub'), p.dom);
      case Reorder(sub, inserts, ends, entries) =>
        NestedGood(sub, v, low);
        var sub' := AddNested(dom, v, sub, low, high, t);
        q := Patch(low, Reorder(sub', inserts, ends, entries), Some(dom));
      case Remove(Some(m)) =>
        NestedGood(m.patches, v, low);
        var sub' := AddNested(dom, v, m.patches, low, high, t);
        q := Patch(low, Remove(Some(Move(sub', m.entry))), Some(dom));
      case _ => q := Patch(low, p.action, Some(dom));
    }

    method AddNested(dom: Ref, v: VNode, sub: seq<Patch>, low: nat, high: Option<nat>, ghost t: Tree)
      returns (qs: seq<Patch>)
      requires Holds(Value(), t) && t.ref == dom && Fits(v, t) && Counted(v) && WellPlaced(sub, v, low)
      requires high.Some? ==> low + Descendants(v) <= high.value
      ensures qs == AttachAll(sub, v, t, low)
      decreases v, sub, 2
    {
      hide Holds, Fits, Counted, WellPlaced, Searched, AttachAll;
      qs := sub;
      if |sub| > 0 {
        WholeSearchable(sub, v, low, high);
        var i;
        qs, i := AddDomNodesHelp(dom, v, sub, 0, low, high, t);
        WholeSearched(sub, i, v, t, low, qs);
      } else {
        NothingToAttach(v, t, low);
      }
    }

    method SearchBelow(dom: Ref, v: VNode, ps: seq<Patch>, ghost i: nat, k0: nat, qs0: seq<Patch>, low: nat,
                       high: Option<nat>, ghost t: Tree)
      returns (qs: seq<Patch>, k: nat)
      requires Holds(Value(), t) && t.ref == dom && Fits(v, t) && Counted(v) && Searchable(ps, i, v, low, high) &&
        v.Tagger?
      requires Searching(ps, i, k0, v, t, low, qs0) && k0 < |ps| && ps[k0].index > low && !Beyond(ps[k0].index, high)
      ensures Searched(ps, i, k, v, t, low, qs)
      decreases v, ps, 0
    {
      var sub := v.node;
      while sub.Tagger?
        invariant Below(sub) == Below(v) && sub < v
        decreases sub
      {
        sub := sub.node;
      }
      FitsBelow(v, t);
      CountedBelow(v);
      hide Holds, Fits, Counted, Attach, Descendants, Searched;
      BelowSearchable(ps, i, k0, v, t, low, high, qs0);
      qs, k := AddDomNodesHelp(dom, sub, qs0, k0, low + 1, high, t);
      BelowSearched(ps, i, k0, k, v, t, low, qs0, qs);
    }

    method SearchKids(dom: Ref, v: VNode, ps: seq<Patch>, ghost i: nat, k0: nat, qs0: seq<Patch>, low0: nat,
                      high: Option<nat>, ghost t: Tree)
      returns (qs: seq<Patch>, k: nat)
      requires Holds(Value(), t) && t.ref == dom && Fits(v, t) && Counted(v) && Searchable(ps, i, v, low0, high) &&
        !v.Tagger?
      requires Searching(ps, i, k0, v, t, low0, qs0) && k0 < |ps| && ps[k0].index > low0 && !Beyond(ps[k0].index, high)
      ensures Searched(ps, i, k, v, t, low0, qs)
      decreases v, ps, 0
    {
      hide Fits, Counted, Attach, Descendants, Searchable, Searched, Searching;
      qs, k := qs0, k0;
      var kids := Kids(v);
      var childNodes := KidsOf(dom);
      var low := low0;
      KidsThere(Value(), v, t);
      SearchingIs(ps, i, k, v, t, low0, qs);
      for j := 0 to |kids|
        invariant Searching(ps, i, k, v, t, low0, qs) && |qs| == |ps| && k < |ps| && qs[k] == ps[k] &&
          !Beyond(ps[k].index, high)
        invariant low == low0 + Span(kids, j) && Before(ps, k, v, low0, j)
      {
        low := low + 1;
        var nextLow := low + Descendants(kids[j]);
        if low <= qs[k].index <= nextLow {
          KidSearchable(ps, i, k, v, t, low0, high, j, qs);
          KidHeld(Value(), v, t, j);
          ghost var k1, qs1 := k, qs;
          qs, k := AddDomNodesHelp(childNodes[j], kids[j], qs, k, low, Some(nextLow), t.kids[j]);
          KidSearched(ps, i, k1, k, v, t, low0, j, qs1, qs) by { SearchableIs(ps, i, v, low0, high); }
          SearchingIs(ps, i, k, v, t, low0, qs);
          if k >= |qs| || Beyond(qs[k].index, high) {
            BeyondUsed(ps, i, k, v, t, low0, high, qs);
            return;
          }
          SearchedIs(qs1, k1, k, kids[j], t.kids[j], low, qs);
          AttachedIndices(ps, i, k1, v, t, low0, qs1);
          AfterKid(ps, i, k, v, low0, high, j);
        }
        low := nextLow;
      }
      AfterKids(ps, i, k, v, t, low0, qs);
    }
  }

  // ----- accessors -----

  lemma TextCached(v: VNode)
    requires v.Text?
    ensures AllCached(v)
  {
  }

  lemma ThunkRenders(d: Doc, v: VNode)
    requires v.Thunk?
    ensures Render(d, v) == Render(d, v.node)
  {
  }

  lemma KeysGrow(h0: Heap, h: Heap, g: World)
    requires Settles(h0, h, g)
    ensures h0.Keys <= h.Keys
  {
  }

  /** Where it is and which node it has does not matter to what a patch sets. */
  lemma ActedReady(p: Patch)
    requires p.dom.Some?
    ensures var q := Patch(0, p.action, p.dom); PendingIn(q) == PendingIn(p) && (Ready(p) ==> Ready(q))
  {
  }

  lemma NoEnds(entries: seq<Entry>)
    ensures EntryTops([], entries) == {}
  {
  }

  lemma NothingAttached(ps: seq<Patch>, i: nat, v: VNode, t: Tree, low: nat)
    requires i <= |ps|
    ensures Searching(ps, i, i, v, t, low, ps)
  {
  }

  lemma NothingToAttach(v: VNode, t: Tree, low: nat)
    ensures AttachAll([], v, t, low) == []
  {
  }

  lemma ThunkFits(v: VNode, t: Tree, sub: seq<Patch>)
    requires Fits(v, t) && Counted(v) && v.Thunk? && Ordered(sub) && InRange(sub, 0, Descendants(v.node)) &&
      AllFine(sub, v.node, 0)
    ensures Fits(v.node, t) && Counted(v.node) && WellPlaced(sub, v.node, 0)
  {
  }

  lemma NestedGood(sub: seq<Patch>, v: VNode, low: nat)
    requires Ordered(sub) && InRange(sub, low, low + Descendants(v)) && AllFine(sub, v, low)
    ensures WellPlaced(sub, v, low)
  {
  }

  lemma SearchingIs(ps: seq<Patch>, i: nat, k: nat, v: VNode, t: Tree, low: nat, qs: seq<Patch>)
    requires Searching(ps, i, k, v, t, low, qs)
    ensures i <= k <= |ps| == |qs| && forall j :: k <= j < |ps| ==> qs[j] == ps[j]
  {
  }

  lemma SearchedIs(ps: seq<Patch>, i: nat, k: nat, v: VNode, t: Tree, low: nat, qs: seq<Patch>)
    requires Searched(ps, i, k, v, t, low, qs)
    ensures i <= k <= |ps| && (k < |ps| ==> ps[k].index > low + Used(v))
  {
  }

  lemma AttachedIndices(ps: seq<Patch>, i: nat, k: nat, v: VNode, t: Tree, low: nat, qs: seq<Patch>)
    requires Searching(ps, i, k, v, t, low, qs)
    ensures |qs| == |ps| && forall j :: 0 <= j < |ps| ==> qs[j].index == ps[j].index
  {
    AttachedOrder(ps, i, k, v, t, low);
  }

  lemma SearchableIs(ps: seq<Patch>, i: nat, v: VNode, low: nat, high: Option<nat>)
    requires Searchable(ps, i, v, low, high)
    ensures Ordered(ps)
  {
  }

  lemma KidsThere(d: Doc, v: VNode, t: Tree)
    requires Holds(d, t) && Fits(v, t)
    ensures v.Node? || v.KeyedNode? ==> t.ElementTree? && |t.kids| == |Kids(v)| && ChildNodes(d, t.ref) == Roots(t.kids)
    ensures !v.Node? && !v.KeyedNode? ==> Kids(v) == []
  {
  }

  lemma KidHeld(d: Doc, v: VNode, t: Tree, j: nat)
    requires Holds(d, t) && Fits(v, t) && Counted(v) && (v.Node? || v.KeyedNode?) && j < |Kids(v)|
    ensures t.ElementTree? && j < |t.kids| && Holds(d, t.kids[j]) && Fits(Kids(v)[j], t.kids[j]) && Counted(Kids(v)[j])
    ensures Kids(v)[j] < v
  {
    FitsKids(v, t);
    CountedKids(v);
    assert Placed(d, t.ref, t.kids[j]);
  }
}
