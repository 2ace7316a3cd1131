/** The difference as the program computes it: patches pushed on lists, running indices, and the
    dictionary of changes updated in place. */
module VdomDiffer {
  import opened Wrappers
  import opened VdomFacts
  import opened VdomNodes
  import opened VdomObjects
  import opened VdomKeyedPlan
  import opened VdomDiff
  import opened VdomCaches

  class PatchList {
    var items: seq<Patch>

    constructor ()
      ensures items == []
    {
      items := [];
    }

    method Push(p: Patch)
      modifies this
      ensures items == old(items) + [p]
    {
      items := items + [p];
    }
  }

  // ----- plain nodes -----

  /** The taggers of a nest, and what is below it. */
  method Gather(v: VNode) returns (taggers: seq<int>, sub: VNode)
    requires v.Tagger?
    ensures taggers == Taggers(v) && sub == Below(v)
  {
    taggers, sub := [v.tagger], v.node;
    while sub.Tagger?
      invariant taggers + Taggers(sub) == Taggers(v) && Below(sub) == Below(v)
      decreases sub
    {
      taggers, sub := taggers + [sub.tagger], sub.node;
    }
  }

  /** _VirtualDom_diffHelp.  The fields of lazy nodes are set on the way: those of y that were
      compared, rightly; the others are in nodes that the patches will render. */
  method DiffHelp(x: VNode, y: VNode, patches: PatchList, index: nat, cache: Caches, ghost g: World)
    requires OldFit(x, g) && Fit(y, g)
    modifies patches, cache
    ensures patches.items == old(patches.items) + Diff(x, y, index)
    ensures FillsTo(old(cache.entries), old(patches.items), cache.entries, patches.items, g) &&
      Tops(y) <= Pool(cache.entries, patches.items)
    decreases x, 1, 0
  {
    hide Below, Taggers, Stated, Whole, AllCached, FillsTo, Pool, Pairs, Tops, Pending, PendingIn;
    FillsToSelf(cache.entries, patches.items, g);
    if x.obj == y.obj {
      FillsSame(x, y, g);
      return;
    }
    match (x, y)
    case (Thunk(_, _, _, _), Thunk(_, _, _, _)) => DiffThunks(x, y, patches, index, cache, g);
    case (Tagger(_, _, _, _), Tagger(_, _, _, _)) => DiffTaggers(x, y, patches, index, cache, g);
    case (Text(_, xText), Text(_, yText)) =>
      NoTopsInText(y);
      if xText != yText { PushOne(patches, NewPatch(index, SetText(yText)), cache, g); }
    case (Node(_, _, _, _, _, _), Node(_, _, _, _, _, _)) =>
      FitKids(y, g);
      DiffElements(x, y, patches, index, cache, g);
    case (Node(_, _, _, _, _, _), KeyedNode(_, _, _, _, _, _)) =>
      FitKids(y, g);
      DekeyTops(y);
      DiffElements(x, Dekey(y, y.obj), patches, index, cache, g);
    case (KeyedNode(_, _, _, _, _, _), KeyedNode(_, _, _, _, _, _)) =>
      FitKids(y, g);
      DiffElements(x, y, patches, index, cache, g);
    case _ => PushRedraw(patches, index, y, cache, g);
  }

  lemma FillsToSelf(h: Heap, ps: seq<Patch>, g: World)
    ensures FillsTo(h, ps, h, ps, g)
  {
    FillsSelf(h, Pool(h, ps), g);
  }

  lemma NoTopsInText(y: VNode)
    requires y.Text?
    ensures Tops(y) == {}
  {
  }

  lemma DekeyTops(y: VNode)
    requires y.KeyedNode?
    ensures Tops(Dekey(y, y.obj)) == Tops(y) && Kids(Dekey(y, y.obj)) == Kids(y)
  {
    assert Kids(Dekey(y, y.obj)) == Kids(y);
    forall i | 0 <= i < |Kids(y)| ensures Tops(Kids(y)[i]) <= Tops(y) && Tops(Kids(y)[i]) <= Tops(Dekey(y, y.obj)) {
      TopsOfKid(y, i);
      TopsOfKid(Dekey(y, y.obj), i);
    }
    TopsKids(y, Tops(Dekey(y, y.obj)));
    TopsKids(Dekey(y, y.obj), Tops(y));
  }

  /** A patch is pushed, and no field is set. */
  method PushOne(patches: PatchList, p: Patch, cache: Caches, ghost g: World)
    modifies patches
    ensures patches.items == old(patches.items) + [p]
    ensures FillsTo(cache.entries, old(patches.items), cache.entries, patches.items, g)
    ensures PendingIn(p) <= Pool(cache.entries, patches.items)
  {
    hide Pool, Pending, PendingIn, FillsTo;
    FillsPush(cache.entries, patches.items, p, g);
    PoolPush(cache.entries, patches.items, p);
    patches.Push(p);
  }

  method PushRedraw(patches: PatchList, index: nat, y: VNode, cache: Caches, ghost g: World)
    modifies patches
    ensures patches.items == old(patches.items) + [NewPatch(index, Redraw(y))]
    ensures FillsTo(cache.entries, old(patches.items), cache.entries, patches.items, g) &&
      Tops(y) <= Pool(cache.entries, patches.items)
  {
    hide Pool, Pending, FillsTo, Tops;
    PushOne(patches, NewPatch(index, Redraw(y)), cache, g);
  }

  method DiffThunks(x: VNode, y: VNode, patches: PatchList, index: nat, cache: Caches, ghost g: World)
    requires x.Thunk? && y.Thunk? && x.obj != y.obj && OldFit(x, g) && Fit(y, g)
    modifies patches, cache
    ensures patches.items == old(patches.items) + Diff(x, y, index)
    ensures FillsTo(old(cache.entries), old(patches.items), cache.entries, patches.items, g) &&
      Tops(y) <= Pool(cache.entries, patches.items)
    decreases x, 0, 3
  {
    hide FillsTo, Pool, Pending, PendingIn, Pairs, Tops;
    if x.refs == y.refs {
      FillsTake(cache.entries, patches.items, x, y, g);
      cache.Take(y.obj, x.node);
    } else {
      ghost var h0, ps0 := cache.entries, patches.items;
      ThunksFit(x, y, g);
      cache.Call(y.obj);
      var sub := new PatchList();
      DiffHelp(x.node, y.node, sub, 0, cache, g);
      assert sub.items == Diff(x.node, y.node, 0);
      if |sub.items| > 0 {
        InsideIs(index, sub.items);
        FillsNested(h0[y.obj := Own], ps0, cache.entries, sub.items, NewPatch(index, Inside(sub.items)), y.node, g);
        patches.Push(NewPatch(index, Inside(sub.items)));
      } else {
        FillsNone(h0[y.obj := Own], ps0, cache.entries, y.node, g);
      }
      FillsCall(h0, ps0, y, cache.entries, patches.items, g);
    }
  }

  lemma InsideIs(index: nat, sub: seq<Patch>)
    ensures PendingIn(NewPatch(index, Inside(sub))) == Pending(sub)
  {
  }

  lemma ThunksFit(x: VNode, y: VNode, g: World)
    requires x.Thunk? && y.Thunk? && OldFit(x, g) && Fit(y, g)
    ensures OldFit(x.node, g) && Fit(y.node, g)
  {
  }

  lemma TaggersDiff(x: VNode, y: VNode, index: nat)
    requires x.Tagger? && y.Tagger? && x.obj != y.obj
    ensures Diff(x, y, index) ==
      if |Taggers(x)| != |Taggers(y)| then [NewPatch(index, Redraw(y))]
      else
        (if Taggers(x) != Taggers(y) then [NewPatch(index, Retag(Taggers(y)))] else [])
        + Diff(Below(x), Below(y), index + 1)
  {
  }

  method DiffTaggers(x: VNode, y: VNode, patches: PatchList, index: nat, cache: Caches, ghost g: World)
    requires x.Tagger? && y.Tagger? && x.obj != y.obj && OldFit(x, g) && Fit(y, g)
    modifies patches, cache
    ensures patches.items == old(patches.items) + Diff(x, y, index)
    ensures FillsTo(old(cache.entries), old(patches.items), cache.entries, patches.items, g) &&
      Tops(y) <= Pool(cache.entries, patches.items)
    decreases x, 0, 0
  {
    hide Diff, Below, Taggers, OldFit, Fit, FillsTo, Pool, Pending, PendingIn, Tops;
    TaggersDiff(x, y, index);
    var xTaggers, xSub := Gather(x);
    var yTaggers, ySub := Gather(y);
    FitBelow(y, g);
    OldFitBelow(x, g);
    FillsToSelf(cache.entries, patches.items, g);
    if |xTaggers| != |yTaggers| {
      PushRedraw(patches, index, y, cache, g);
    } else {
      ghost var h0, ps0 := cache.entries, patches.items;
      if xTaggers != yTaggers { PushOne(patches, NewPatch(index, Retag(yTaggers)), cache, g); }
      ghost var ps1 := patches.items;
      DiffHelp(xSub, ySub, patches, index + 1, cache, g);
      FillsToThen(h0, ps0, h0, ps1, cache.entries, patches.items, g);
    }
  }

  method DiffElements(x: VNode, y: VNode, patches: PatchList, index: nat, cache: Caches, ghost g: World)
    requires (x.Node? && y.Node?) || (x.KeyedNode? && y.KeyedNode?)
    requires OldFit(x, g) && AllFit(Kids(y), g)
    modifies patches, cache
    ensures patches.items == old(patches.items) + DiffNodes(x, y, index)
    ensures FillsTo(old(cache.entries), old(patches.items), cache.entries, patches.items, g) &&
      Tops(y) <= Pool(cache.entries, patches.items)
    decreases x, 0, 2
  {
    hide DiffFacts, Diff, DiffKids, DiffKeyed, FillsTo, Pool, Pending, PendingIn, Tops, OldFit, AllFit;
    FillsToSelf(cache.entries, patches.items, g);
    if x.tag != y.tag || x.ns != y.ns {
      PushRedraw(patches, index, y, cache, g);
    } else {
      var change := DiffFacts(x.facts, y.facts);
      ghost var h0, ps0 := cache.entries, patches.items;
      if change != NO_CHANGE { PushOne(patches, NewPatch(index, SetFacts(change)), cache, g); }
      ghost var ps1 := patches.items;
      if x.Node? {
        DiffPlainKids(x, y, patches, index, cache, g);
      } else {
        DiffKeyedKids(x, y, patches, index, cache, g);
      }
      FillsToThen(h0, ps0, h0, ps1, cache.entries, patches.items, g);
    }
  }

  /** The first n new children have been seen to, and those from `late` on. */
  ghost predicate KidsSeen(y: VNode, n: nat, late: nat, pool: set<int>) {
    forall i :: 0 <= i < |Kids(y)| && (i < n || i >= late) ==> Tops(Kids(y)[i]) <= pool
  }

  lemma KidsSeenNext(y: VNode, n: nat, late: nat, pool: set<int>, pool': set<int>)
    requires KidsSeen(y, n, late, pool) && pool <= pool' && n < |Kids(y)| && Tops(Kids(y)[n]) <= pool'
    ensures KidsSeen(y, n + 1, late, pool')
  {
    hide Tops;
  }

  lemma AppendSeen(y: VNode, h: Heap, ps: seq<Patch>, root: nat, late: nat)
    requires y.Node? && PendingIn(NewPatch(root, Append(late, y.kids))) <= Pool(h, ps)
    ensures KidsSeen(y, 0, late, Pool(h, ps))
  {
    hide Tops, Pool;
    forall i | late <= i < |Kids(y)| ensures Tops(Kids(y)[i]) <= Pool(h, ps) {
      forall o | o in Tops(Kids(y)[i]) ensures o in LateTops(y.kids, late) {}
    }
  }

  method DiffPlainKids(x: VNode, y: VNode, patches: PatchList, root: nat, cache: Caches, ghost g: World)
    requires x.Node? && y.Node? && OldFit(x, g) && AllFit(Kids(y), g)
    modifies patches, cache
    ensures patches.items == old(patches.items) +
      (LengthPatch(x, y, root) + DiffKids(x, y, root, Least(|x.kids|, |y.kids|)))
    ensures FillsTo(old(cache.entries), old(patches.items), cache.entries, patches.items, g) &&
      Tops(y) <= Pool(cache.entries, patches.items)
    decreases x, 0, 1
  {
    hide Diff, FillsTo, Pool, Pending, PendingIn, Tops, OldFit, Fit, KidsSeen;
    OldFitKids(x, g);
    ghost var h0, ps0 := cache.entries, patches.items;
    FillsToSelf(h0, ps0, g);
    var xLen, yLen := |x.kids|, |y.kids|;
    if xLen > yLen {
      PushOne(patches, NewPatch(root, RemoveLast(yLen, xLen - yLen)), cache, g);
    } else if xLen < yLen {
      PushOne(patches, NewPatch(root, Append(xLen, y.kids)), cache, g);
      AppendSeen(y, cache.entries, patches.items, root, xLen);
    }
    ghost var before := patches.items;
    var index := root;
    var minLen := if xLen < yLen then xLen else yLen;
    NoneSeen(y, xLen, Pool(cache.entries, patches.items));
    for i := 0 to minLen
      invariant index == root + Span(x.kids, i)
      invariant patches.items == before + DiffKids(x, y, root, i)
      invariant FillsTo(h0, ps0, cache.entries, patches.items, g) &&
        KidsSeen(y, i, xLen, Pool(cache.entries, patches.items))
    {
      ghost var h1, ps1 := cache.entries, patches.items;
      index := index + 1;
      assert Kids(x)[i] == x.kids[i] && Kids(y)[i] == y.kids[i];
      DiffHelp(x.kids[i], y.kids[i], patches, index, cache, g);
      FillsToThen(h0, ps0, h1, ps1, cache.entries, patches.items, g);
      KidsSeenNext(y, i, xLen, Pool(h1, ps1), Pool(cache.entries, patches.items));
      index := index + Descendants(x.kids[i]);
    }
    AllSeen(y, minLen, xLen, Pool(cache.entries, patches.items));
  }

  lemma NoneSeen(y: VNode, late: nat, pool: set<int>)
    ensures late >= |Kids(y)| ==> KidsSeen(y, 0, late, pool)
  {
  }

  lemma AllSeen(y: VNode, n: nat, late: nat, pool: set<int>)
    requires (y.Node? || y.KeyedNode?) && KidsSeen(y, n, late, pool) && (n >= |Kids(y)| || n >= late)
    ensures Tops(y) <= pool
  {
    hide Tops;
    TopsKids(y, pool);
  }

  // ----- keyed nodes -----

  /** An entry of the dictionary.  `patch` is where the removal of an old child is in the list of
      patches, while the tag is REMOVE. */
  datatype Slot = Slot(tag: EntryTag, vnode: VNode, index: Option<nat>, patch: nat)

  /** What a slot says when the plan has this owner for it. */
  ghost predicate SlotIs(s: Slot, o: Owner, x: VNode, news: seq<VNode>, p: Plan, root: nat)
    requires x.KeyedNode?
  {
    match o
    case Removed(a) =>
      a < |x.pairs| && s.tag == REMOVE && s.vnode == x.pairs[a].node && s.index == Some(root + 1 + Span(Kids(x), a)) &&
      s.patch == |Locals(x, news, p, root, a)|
    case _ => var e := EntryOf(o, x.pairs, news); s.tag == e.tag && s.vnode == e.node && s.index == e.at
  }

  function EntryFrom(s: Slot): Entry {
    Entry(s.tag, s.vnode, if s.tag == REMOVE then None else s.index)
  }

  function EntriesFrom(slots: seq<Slot>): (entries: seq<Entry>)
    ensures |entries| == |slots| && forall e :: 0 <= e < |slots| ==> entries[e] == EntryFrom(slots[e])
  {
    seq(|slots|, e requires 0 <= e < |slots| => EntryFrom(slots[e]))
  }

  lemma {:induction false} LocalsSame(x: VNode, news: seq<VNode>, news': seq<VNode>, p: Plan, q: Plan, root: nat,
                                      n: nat)
    requires x.KeyedNode? && n <= |x.pairs| && n <= |p.fates| && n <= |q.fates|
    requires forall a :: 0 <= a < n ==> p.fates[a] == q.fates[a] && Target(p, a) == Target(q, a)
    requires forall a :: 0 <= a < n && Target(p, a).Some? ==>
      (Target(p, a).value < |news| <==> Target(p, a).value < |news'|) &&
      (Target(p, a).value < |news| ==> news[Target(p, a).value] == news'[Target(p, a).value])
    ensures Locals(x, news, p, root, n) == Locals(x, news', q, root, n)
  {
    hide Diff, Target;
    if n > 0 { LocalsSame(x, news, news', p, q, root, n - 1); }
  }

  lemma {:induction false} LocalsGrow(x: VNode, news: seq<VNode>, p: Plan, root: nat, m: nat, n: nat)
    requires x.KeyedNode? && m <= n <= |x.pairs|
    ensures |Locals(x, news, p, root, m)| <= |Locals(x, news, p, root, n)|
    ensures Locals(x, news, p, root, m) == Locals(x, news, p, root, n)[..|Locals(x, news, p, root, m)|]
  {
    hide Locals, Segment, Span, SubOf;
    if m < n {
      LocalsGrow(x, news, p, root, m, n - 1);
      LocalsUnfold(x, news, p, root, n - 1);
    }
  }


  /** Every new child that the plan has entered is one of the list. */
  ghost predicate EntersBelow(p: Plan, n: nat) {
    forall e :: 0 <= e < |p.owners| && p.owners[e].HasNew() ==> p.owners[e].j < n
  }

  ghost predicate SlotsAre(slots: seq<Slot>, p: Plan, x: VNode, ys: seq<Keyed>, root: nat)
    requires x.KeyedNode?
  {
    |slots| == |p.owners| && forall e :: 0 <= e < |slots| ==> SlotIs(slots[e], p.owners[e], x, NewKids(p, ys), p, root)
  }

  /** The state of the scan says what the plan says.  `tail` are patches pushed for an old child
      that the plan does not have yet. */
  ghost predicate Tracks(slots: seq<Slot>, changes: map<string, nat>, inserts: seq<Insert>, ends: seq<Insert>,
                         items: seq<Patch>,
                         p: Plan, x: VNode, ys: seq<Keyed>, root: nat, tail: seq<Patch>) {
    && x.KeyedNode? && Good(p) && |p.fates| <= |x.pairs| && EntersBelow(p, |ys|)
    && changes == p.changes && SlotsAre(slots, p, x, ys, root) && inserts == InsertsOf(p) && ends == EndsOf(p)
    && items == Locals(x, NewKids(p, ys), p, root, |p.fates|) + tail
  }

  lemma NewsAt(p: Plan, ys: seq<Keyed>, j: nat)
    requires j < |ys|
    ensures j < |NewKids(p, ys)| && NewKids(p, ys)[j] == ys[j].node
  {
  }

  /** A plan with more entries or fates, and the same targets for the old children it had. */
  lemma LocalsKept(x: VNode, ys: seq<Keyed>, p: Plan, q: Plan, root: nat)
    requires x.KeyedNode? && |p.fates| <= |x.pairs| && |p.fates| <= |q.fates| && p.extra == q.extra
    requires forall a :: 0 <= a < |p.fates| ==> p.fates[a] == q.fates[a] && Target(p, a) == Target(q, a)
    ensures forall n :: 0 <= n <= |p.fates| ==>
      Locals(x, NewKids(p, ys), p, root, n) == Locals(x, NewKids(q, ys), q, root, n)
  {
    assert NewKids(p, ys) == NewKids(q, ys);
    forall n | 0 <= n <= |p.fates|
      ensures Locals(x, NewKids(p, ys), p, root, n) == Locals(x, NewKids(q, ys), q, root, n) {
      LocalsSame(x, NewKids(p, ys), NewKids(q, ys), p, q, root, n);
    }
  }

  /** An owner's slot goes on being right when the plan grows. */
  lemma SlotKept(s: Slot, o: Owner, x: VNode, ys: seq<Keyed>, p: Plan, q: Plan, root: nat)
    requires x.KeyedNode? && SlotIs(s, o, x, NewKids(p, ys), p, root) && p.extra == q.extra
    requires o.Removed? && o.a < |x.pairs| ==>
      |Locals(x, NewKids(p, ys), p, root, o.a)| == |Locals(x, NewKids(q, ys), q, root, o.a)|
    ensures SlotIs(s, o, x, NewKids(q, ys), q, root)
  {
    assert NewKids(p, ys) == NewKids(q, ys);
  }

  lemma OwnerBelow(p: Plan, e: nat)
    requires Good(p) && e < |p.owners| && p.owners[e].HasOld()
    ensures p.owners[e].a < |p.fates| && p.fates[p.owners[e].a] == Leave(e)
  {
  }

  /** Slots whose owners are the same in q go on being right. */
  lemma SlotsKept(slots: seq<Slot>, p: Plan, q: Plan, x: VNode, ys: seq<Keyed>, root: nat, e: nat)
    requires x.KeyedNode? && Good(p) && |p.fates| <= |x.pairs| && SlotsAre(slots, p, x, ys, root) && p.extra == q.extra
    requires forall n :: 0 <= n <= |p.fates| ==>
      |Locals(x, NewKids(p, ys), p, root, n)| == |Locals(x, NewKids(q, ys), q, root, n)|
    requires e < |slots| && |q.owners| >= |p.owners| && q.owners[e] == p.owners[e]
    ensures SlotIs(slots[e], q.owners[e], x, NewKids(q, ys), q, root)
  {
    hide SlotIs, Locals, NewKids, Good;
    if p.owners[e].Removed? { OwnerBelow(p, e); }
    SlotKept(slots[e], p.owners[e], x, ys, p, q, root);
  }

  lemma LengthsKept(x: VNode, ys: seq<Keyed>, p: Plan, q: Plan, root: nat)
    requires x.KeyedNode? && |p.fates| <= |x.pairs|
    requires forall n :: 0 <= n <= |p.fates| ==>
      Locals(x, NewKids(p, ys), p, root, n) == Locals(x, NewKids(q, ys), q, root, n)
    ensures forall n :: 0 <= n <= |p.fates| ==>
      |Locals(x, NewKids(p, ys), p, root, n)| == |Locals(x, NewKids(q, ys), q, root, n)|
  {
  }

  // ----- an old child is kept -----

  lemma KeepTargets(p: Plan, q: Plan)
    requires q.owners == p.owners && |q.fates| >= |p.fates| && q.fates[..|p.fates|] == p.fates
    ensures forall a :: 0 <= a < |p.fates| ==> p.fates[a] == q.fates[a] && Target(p, a) == Target(q, a)
  {
    forall a | 0 <= a < |p.fates| ensures p.fates[a] == q.fates[a] { assert q.fates[..|p.fates|][a] == q.fates[a]; }
  }

  lemma KeepSlots(slots: seq<Slot>, p: Plan, q: Plan, x: VNode, ys: seq<Keyed>, root: nat)
    requires x.KeyedNode? && Good(p) && |p.fates| <= |x.pairs| && SlotsAre(slots, p, x, ys, root)
    requires q.owners == p.owners && |q.fates| >= |p.fates| && q.fates[..|p.fates|] == p.fates && q.extra == p.extra
    ensures SlotsAre(slots, q, x, ys, root)
  {
    hide Good, SlotIs, NewKids, Locals;
    KeepTargets(p, q);
    LocalsKept(x, ys, p, q, root);
    LengthsKept(x, ys, p, q, root);
    forall e | 0 <= e < |slots| ensures SlotIs(slots[e], q.owners[e], x, NewKids(q, ys), q, root) {
      SlotsKept(slots, p, q, x, ys, root, e);
    }
  }

  /** The patches with one old child more. */
  lemma LocalsNext(x: VNode, ys: seq<Keyed>, p: Plan, q: Plan, root: nat, sub: seq<Patch>)
    requires x.KeyedNode? && |p.fates| < |x.pairs| && |q.fates| > |p.fates|
    requires forall n :: 0 <= n <= |p.fates| ==>
      Locals(x, NewKids(p, ys), p, root, n) == Locals(x, NewKids(q, ys), q, root, n)
    requires var t := Target(q, |p.fates|); var news := NewKids(q, ys);
      sub == if t.Some? && t.value < |news|
        then Diff(x.pairs[|p.fates|].node, news[t.value], root + 1 + Span(Kids(x), |p.fates|)) else []
    ensures Locals(x, NewKids(q, ys), q, root, |p.fates| + 1) ==
      Locals(x, NewKids(p, ys), p, root, |p.fates|) + Segment(q, |p.fates|, root + 1 + Span(Kids(x), |p.fates|), sub)
  {
    hide Diff, Target, NewKids, Segment;
  }

  lemma KeepTracks(slots: seq<Slot>, changes: map<string, nat>, inserts: seq<Insert>, ends: seq<Insert>,
                   items: seq<Patch>,
                   p: Plan, x: VNode, ys: seq<Keyed>, root: nat, tail: seq<Patch>)
    requires Tracks(slots, changes, inserts, ends, items, p, x, ys, root, tail) && |p.fates| < |x.pairs| && p.ends == []
    requires p.scanned < |ys| &&
      tail == Diff(x.pairs[|p.fates|].node, ys[p.scanned].node, root + 1 + Span(Kids(x), |p.fates|))
    ensures Tracks(slots, changes, inserts, ends, items, KeepNext(p), x, ys, root, [])
  {
    hide Good, SlotsAre, Diff, Locals, Span, NewKids;
    var q := KeepNext(p);
    KeepGood(p);
    KeepSlots(slots, p, q, x, ys, root);
    KeepTargets(p, q);
    NewsAt(q, ys, p.scanned);
    LocalsKept(x, ys, p, q, root);
    LocalsNext(x, ys, p, q, root, tail);
    assert InsertsOf(q) == InsertsOf(p) && EndsOf(q) == EndsOf(p);
  }

  // ----- an old child is removed -----

  lemma RemoveTargets(p: Plan, key: string)
    requires Good(p)
    ensures var q := RemoveOld(p, key);
      && |q.fates| == |p.fates| + 1 && q.extra == p.extra && q.inserts == p.inserts && q.ends == p.ends &&
        |q.owners| >= |p.owners|
      && (forall a :: 0 <= a < |p.fates| ==> p.fates[a] == q.fates[a] && Target(p, a) == Target(q, a))
      && (forall e :: 0 <= e < |p.owners| && p.owners[e].HasNew() ==> NewOf(q, e) == NewOf(p, e))
  {
    hide Filled, InsertsMatch, EndsMatch;
  }

  lemma RemoveLists(p: Plan, q: Plan)
    requires Good(p) && q.inserts == p.inserts && q.ends == p.ends
    requires forall e :: 0 <= e < |p.owners| && p.owners[e].HasNew() ==> NewOf(q, e) == NewOf(p, e)
    ensures InsertsOf(q) == InsertsOf(p) && EndsOf(q) == EndsOf(p)
  {
    hide Filled;
  }

  lemma RemoveFreshPlan(p: Plan, key: string)
    requires Good(p) && key !in p.changes && !Inherited(key)
    ensures RemoveOld(p, key) == p.(owners := p.owners + [Removed(|p.fates|)], changes := p.changes[key := |p.owners|],
                                    fates := p.fates + [Leave(|p.owners|)])
    ensures Target(RemoveOld(p, key), |p.fates|) == None
  {
  }

  lemma RemovedSlot(x: VNode, news: seq<VNode>, q: Plan, root: nat, a: nat, s: Slot)
    requires x.KeyedNode? && a < |x.pairs|
    requires s == Slot(REMOVE, x.pairs[a].node, Some(root + 1 + Span(Kids(x), a)), |Locals(x, news, q, root, a)|)
    ensures SlotIs(s, Removed(a), x, news, q, root)
  {
    hide Locals, Span;
  }

  lemma SlotsPlus(slots: seq<Slot>, s: Slot, p: Plan, q: Plan, x: VNode, ys: seq<Keyed>, root: nat)
    requires x.KeyedNode? && Good(p) && |p.fates| <= |x.pairs| && SlotsAre(slots, p, x, ys, root) && p.extra == q.extra
    requires forall n :: 0 <= n <= |p.fates| ==>
      |Locals(x, NewKids(p, ys), p, root, n)| == |Locals(x, NewKids(q, ys), q, root, n)|
    requires |q.owners| == |p.owners| + 1 && q.owners[..|p.owners|] == p.owners
    requires SlotIs(s, q.owners[|p.owners|], x, NewKids(q, ys), q, root)
    ensures SlotsAre(slots + [s], q, x, ys, root)
  {
    hide Good, SlotIs, Locals, NewKids;
    forall e | 0 <= e < |slots| + 1 ensures SlotIs((slots + [s])[e], q.owners[e], x, NewKids(q, ys), q, root) {
      if e < |slots| {
        assert q.owners[..|p.owners|][e] == q.owners[e];
        SlotsKept(slots, p, q, x, ys, root, e);
      }
    }
  }

  lemma SlotsWith(slots: seq<Slot>, e: nat, s: Slot, p: Plan, q: Plan, x: VNode, ys: seq<Keyed>, root: nat)
    requires x.KeyedNode? && Good(p) && |p.fates| <= |x.pairs| && SlotsAre(slots, p, x, ys, root) && p.extra == q.extra
    requires forall n :: 0 <= n <= |p.fates| ==>
      |Locals(x, NewKids(p, ys), p, root, n)| == |Locals(x, NewKids(q, ys), q, root, n)|
    requires e < |slots| && |q.owners| == |p.owners| && q.owners == p.owners[e := q.owners[e]]
    requires SlotIs(s, q.owners[e], x, NewKids(q, ys), q, root)
    ensures SlotsAre(slots[e := s], q, x, ys, root)
  {
    hide Good, SlotIs, Locals, NewKids;
    forall i | 0 <= i < |slots| ensures SlotIs(slots[e := s][i], q.owners[i], x, NewKids(q, ys), q, root) {
      if i != e { SlotsKept(slots, p, q, x, ys, root, i); }
    }
  }

  /** The key is new: an entry for the removal. */
  lemma RemoveFresh(slots: seq<Slot>, changes: map<string, nat>, inserts: seq<Insert>, ends: seq<Insert>,
                    items: seq<Patch>,
                    p: Plan, x: VNode, ys: seq<Keyed>, root: nat, key: string)
    requires Tracks(slots, changes, inserts, ends, items, p, x, ys, root, []) && |p.fates| < |x.pairs| &&
      key !in changes && !Inherited(key)
    ensures var at := root + 1 + Span(Kids(x), |p.fates|);
      Tracks(slots + [Slot(REMOVE, x.pairs[|p.fates|].node, Some(at), |items|)], changes[key := |slots|], inserts, ends,
             items + [NewPatch(at, Remove(None))], RemoveOld(p, key), x, ys, root, [])
  {
    hide Good, RemoveOld, Diff, Locals, Span, NewKids, Target, SlotIs, SlotsAre, InsertsOf, EndsOf, NewOf;
    var q := RemoveOld(p, key);
    var at := root + 1 + Span(Kids(x), |p.fates|);
    SlotsCount(slots, p, x, ys, root);
    RemoveGood(p, key);
    RemoveTargets(p, key);
    RemoveLists(p, q);
    RemoveFreshPlan(p, key);
    LocalsKept(x, ys, p, q, root);
    LengthsKept(x, ys, p, q, root);
    LocalsNext(x, ys, p, q, root, []);
    RemovedSlot(x, NewKids(q, ys), q, root, |p.fates|, Slot(REMOVE, x.pairs[|p.fates|].node, Some(at), |items|));
    SlotsPlus(slots, Slot(REMOVE, x.pairs[|p.fates|].node, Some(at), |items|), p, q, x, ys, root);
  }

  lemma SlotsCount(slots: seq<Slot>, p: Plan, x: VNode, ys: seq<Keyed>, root: nat)
    requires x.KeyedNode? && SlotsAre(slots, p, x, ys, root)
    ensures |slots| == |p.owners|
  {
  }

  lemma RemoveMatchPlan(p: Plan, key: string, e: nat)
    requires Good(p) && key in p.changes && p.changes[key] == e < |p.owners| && p.owners[e].Inserted?
    ensures var o := p.owners[e];
      RemoveOld(p, key) == p.(owners := p.owners[e := Moved(|p.fates|, o.j, o.atEnd, false)], fates := p.fates +
        [Leave(e)])
      && Target(RemoveOld(p, key), |p.fates|) == Some(o.j)
  {
  }

  lemma MovedSlot(s: Slot, o: Owner, a: nat, x: VNode, ys: seq<Keyed>, p: Plan, q: Plan, root: nat)
    requires x.KeyedNode? && o.Inserted? && o.j < |ys| && SlotIs(s, o, x, NewKids(p, ys), p, root)
    ensures SlotIs(s.(tag := MOVE), Moved(a, o.j, o.atEnd, false), x, NewKids(q, ys), q, root)
  {
    NewsAt(p, ys, o.j);
    NewsAt(q, ys, o.j);
    hide Locals, Span;
  }

  /** The key belongs to a new child inserted earlier: a move. */
  lemma RemoveMatch(slots: seq<Slot>, changes: map<string, nat>, inserts: seq<Insert>, ends: seq<Insert>,
                    items: seq<Patch>,
                    p: Plan, x: VNode, ys: seq<Keyed>, root: nat, key: string, e: nat)
    requires Tracks(slots, changes, inserts, ends, items, p, x, ys, root, []) && |p.fates| < |x.pairs|
    requires key in changes && changes[key] == e < |slots| && slots[e].tag == INSERT
    ensures var at := root + 1 + Span(Kids(x), |p.fates|);
      Tracks(slots[e := slots[e].(tag := MOVE)], changes, inserts, ends,
             items + [NewPatch(at, Remove(Some(Move(Diff(x.pairs[|p.fates|].node, slots[e].vnode, at), e))))],
               RemoveOld(p, key), x, ys, root, [])
  {
    hide Good, RemoveOld, Diff, Locals, Span, NewKids, Target, SlotIs, InsertsOf, EndsOf, NewOf;
    var q := RemoveOld(p, key);
    var at := root + 1 + Span(Kids(x), |p.fates|);
    SlotOwner(slots, p, x, ys, root, e);
    var o := p.owners[e];
    RemoveGood(p, key);
    RemoveTargets(p, key);
    RemoveLists(p, q);
    RemoveMatchPlan(p, key, e);
    NewsAt(q, ys, o.j);
    LocalsKept(x, ys, p, q, root);
    LengthsKept(x, ys, p, q, root);
    LocalsNext(x, ys, p, q, root, Diff(x.pairs[|p.fates|].node, slots[e].vnode, at));
    MovedSlot(slots[e], o, |p.fates|, x, ys, p, q, root);
    hide SlotsAre;
    SlotsWith(slots, e, slots[e].(tag := MOVE), p, q, x, ys, root);
  }

  /** What the slot of a removed child says. */
  ghost predicate RemovalIs(s: Slot, a: nat, e: nat, p: Plan, x: VNode, ys: seq<Keyed>, root: nat)
    requires x.KeyedNode?
  {
    && a < |p.fates| && a < |x.pairs| && p.fates[a] == Leave(e) && s.vnode == x.pairs[a].node
    && s.index == Some(root + 1 + Span(Kids(x), a)) && s.patch == |Locals(x, NewKids(p, ys), p, root, a)|
  }

  /** The tag of a slot tells the kind of its owner. */
  lemma SlotOwner(slots: seq<Slot>, p: Plan, x: VNode, ys: seq<Keyed>, root: nat, e: nat)
    requires x.KeyedNode? && Good(p) && |p.fates| <= |x.pairs| && SlotsAre(slots, p, x, ys, root) &&
      EntersBelow(p, |ys|) && e < |slots|
    ensures slots[e].tag == INSERT <==> p.owners[e].Inserted?
    ensures slots[e].tag == REMOVE <==> p.owners[e].Removed?
    ensures p.owners[e].Inserted? ==> p.owners[e].j < |ys| && slots[e].vnode == ys[p.owners[e].j].node
    ensures p.owners[e].Removed? ==> p.owners[e].a < |p.fates| && RemovalIs(slots[e], p.owners[e].a, e, p, x, ys, root)
  {
    hide Good, Locals, Span, NewKids;
    if p.owners[e].Removed? { OwnerBelow(p, e); }
    if p.owners[e].Inserted? { NewsAt(p, ys, p.owners[e].j); }
    assert SlotIs(slots[e], p.owners[e], x, NewKids(p, ys), p, root);
  }

  // ----- a new child is inserted -----

  /** The plan with the next new child entered, at its index or at the end. */
  function Enter(p: Plan, key: string, toEnds: bool): Plan {
    if toEnds then InsertNew(p, key, p.scanned + |p.ends|, true) else InsertNext(p, key)
  }

  function NextNew(p: Plan, toEnds: bool): nat {
    if toEnds then p.scanned + |p.ends| else p.scanned
  }

  lemma EnterGood(p: Plan, key: string, toEnds: bool)
    requires Good(p) && (!toEnds ==> p.ends == [])
    ensures Good(Enter(p, key, toEnds))
    ensures var q := Enter(p, key, toEnds); q.fates == p.fates && q.extra == p.extra
  {
    hide Good, InsertNew;
    if toEnds { InsertEndGood(p, key); } else { InsertGood(p, key); }
  }

  lemma EnterFreshPlan(p: Plan, key: string, toEnds: bool)
    requires Good(p) && key !in p.changes && !Inherited(key)
    ensures var q := Enter(p, key, toEnds); var j := NextNew(p, toEnds); var e := |p.owners|;
      && q.owners == p.owners + [Inserted(j, toEnds)] && q.owners[..e] == p.owners && q.changes == p.changes[key := e]
      && q.inserts == (if toEnds then p.inserts else p.inserts + [e]) &&
        q.ends == (if toEnds then p.ends + [e] else p.ends)
  {
  }

  lemma InsertedSlot(x: VNode, ys: seq<Keyed>, q: Plan, root: nat, j: nat, toEnds: bool)
    requires x.KeyedNode? && j < |ys|
    ensures SlotIs(Slot(INSERT, ys[j].node, if toEnds then None else Some(j), 0), Inserted(j, toEnds), x,
      NewKids(q, ys), q, root)
  {
    NewsAt(q, ys, j);
    hide Locals, Span;
  }

  /** The key is new: an entry for the insertion. */
  lemma EnterFresh(slots: seq<Slot>, changes: map<string, nat>, inserts: seq<Insert>, ends: seq<Insert>,
                   items: seq<Patch>,
                   p: Plan, x: VNode, ys: seq<Keyed>, root: nat, tail: seq<Patch>, key: string, toEnds: bool)
    requires Tracks(slots, changes, inserts, ends, items, p, x, ys, root, tail) && (!toEnds ==> p.ends == [])
    requires key !in changes && !Inherited(key) && NextNew(p, toEnds) < |ys|
    ensures var j := NextNew(p, toEnds); var at := if toEnds then None else Some(j);
      Tracks(slots + [Slot(INSERT, ys[j].node, at, 0)], changes[key := |slots|],
             if toEnds then inserts else inserts + [Insert(at, |slots|)], if toEnds then ends + [Insert(at, |slots|)]
               else ends,
             items, Enter(p, key, toEnds), x, ys, root, tail)
  {
    hide Good, Enter, Diff, Locals, Span, NewKids, Target, SlotIs, SlotsAre, InsertsOf, EndsOf, NewOf;
    var q := Enter(p, key, toEnds);
    var j := NextNew(p, toEnds);
    SlotsCount(slots, p, x, ys, root);
    EnterGood(p, key, toEnds);
    EnterFreshPlan(p, key, toEnds);
    FreshTargets(p, q);
    LocalsKept(x, ys, p, q, root);
    LengthsKept(x, ys, p, q, root);
    InsertedSlot(x, ys, q, root, j, toEnds);
    SlotsPlus(slots, Slot(INSERT, ys[j].node, if toEnds then None else Some(j), 0), p, q, x, ys, root);
    FreshLists(p, q);
  }

  lemma FreshTargets(p: Plan, q: Plan)
    requires Good(p) && q.fates == p.fates && |q.owners| >= |p.owners| && q.owners[..|p.owners|] == p.owners
    ensures forall a :: 0 <= a < |p.fates| ==> p.fates[a] == q.fates[a] && Target(p, a) == Target(q, a)
  {
    hide Filled;
    forall e | 0 <= e < |p.owners| ensures q.owners[e] == p.owners[e] {
      assert q.owners[..|p.owners|][e] == q.owners[e];
    }
  }

  lemma FreshLists(p: Plan, q: Plan)
    requires |q.owners| == |p.owners| + 1 && q.owners[..|p.owners|] == p.owners && q.owners[|p.owners|].Inserted?
    requires Good(p)
    requires var o := q.owners[|p.owners|];
      q.inserts == (if o.atEnd then p.inserts else p.inserts + [|p.owners|]) &&
        q.ends == (if o.atEnd then p.ends + [|p.owners|] else p.ends)
    ensures var o := q.owners[|p.owners|];
      && InsertsOf(q) == (if o.atEnd then InsertsOf(p) else InsertsOf(p) + [Insert(Some(o.j), |p.owners|)])
      && EndsOf(q) == (if o.atEnd then EndsOf(p) + [Insert(None, |p.owners|)] else EndsOf(p))
  {
    forall k | 0 <= k < |p.inserts|
      ensures p.inserts[k] < |p.owners| && NewOf(q, p.inserts[k]) == NewOf(p, p.inserts[k]) {
      assert q.owners[..|p.owners|][p.inserts[k]] == q.owners[p.inserts[k]];
    }
    hide Good, NewOf;
    assert NewOf(q, |p.owners|) == q.owners[|p.owners|].j by { NewOfIs(q, |p.owners|); }
  }

  /** The entry of a removal is not one of the inserts. */
  lemma OldInsert(p: Plan, q: Plan, e: nat, k: nat)
    requires Good(p) && e < |p.owners| == |q.owners| && p.owners[e].Removed? && q.owners == p.owners[e := q.owners[e]]
    requires k < |p.inserts|
    ensures NewOf(q, p.inserts[k]) == NewOf(p, p.inserts[k])
  {
    hide Filled, Kept, UpTo, FatesMatch, OwnersMatch, EndsMatch;
  }

  lemma NewOfIs(q: Plan, e: nat)
    requires e < |q.owners| && q.owners[e].HasNew()
    ensures NewOf(q, e) == q.owners[e].j
  {
  }

  /** The patches of old child a towards its target. */
  function SubOf(x: VNode, news: seq<VNode>, p: Plan, root: nat, a: nat): seq<Patch>
    requires x.KeyedNode? && a < |x.pairs|
  {
    var t := Target(p, a);
    if t.Some? && t.value < |news| then Diff(x.pairs[a].node, news[t.value], root + 1 + Span(Kids(x), a)) else []
  }

  lemma LocalsUnfold(x: VNode, news: seq<VNode>, p: Plan, root: nat, a: nat)
    requires x.KeyedNode? && a < |x.pairs|
    ensures Locals(x, news, p, root, a + 1) ==
      Locals(x, news, p, root, a) + Segment(p, a, root + 1 + Span(Kids(x), a), SubOf(x, news, p, root, a))
  {
    hide Diff, Target, Segment;
  }

  lemma SegmentSame(p: Plan, q: Plan, a: nat, at: nat, sub: seq<Patch>)
    requires p.fates == q.fates && Target(p, a) == Target(q, a)
    ensures Segment(p, a, at, sub) == Segment(q, a, at, sub)
  {
    hide Target;
  }

  /** The removal of old child a becomes a move to its target in q. */
  lemma {:induction false} LocalsMoved(x: VNode, news: seq<VNode>, p: Plan, q: Plan, root: nat, n: nat, a: nat, e: nat)
    requires x.KeyedNode? && n <= |x.pairs| && n <= |p.fates| && q.fates == p.fates && a < |p.fates| && a < |x.pairs|
    requires p.fates[a] == Leave(e) && Target(p, a) == None && Target(q, a).Some?
    requires forall b :: 0 <= b < |p.fates| && b != a ==> Target(p, b) == Target(q, b)
    ensures var at := root + 1 + Span(Kids(x), a); var pos := |Locals(x, news, p, root, a)|;
      var ps, qs := Locals(x, news, p, root, n), Locals(x, news, q, root, n);
      if n <= a then qs == ps
      else pos < |ps| && qs == ps[pos := NewPatch(at, Remove(Some(Move(SubOf(x, news, q, root, a), e))))]
  {
    hide Locals, Target, Span, SubOf;
    if n == 0 {
      NoneYet(x, news, p, q, root);
    } else {
      var b := n - 1;
      LocalsMoved(x, news, p, q, root, b, a, e);
      LocalsUnfold(x, news, p, root, b);
      LocalsUnfold(x, news, q, root, b);
      if b != a {
        SegmentSame(p, q, b, root + 1 + Span(Kids(x), b), SubOf(x, news, p, root, b));
        assert SubOf(x, news, p, root, b) == SubOf(x, news, q, root, b) by { SubSame(x, news, p, q, root, b); }
        hide Segment;
      }
    }
  }

  lemma NoneYet(x: VNode, news: seq<VNode>, p: Plan, q: Plan, root: nat)
    requires x.KeyedNode?
    ensures Locals(x, news, p, root, 0) == [] == Locals(x, news, q, root, 0)
  {
  }

  lemma SubSame(x: VNode, news: seq<VNode>, p: Plan, q: Plan, root: nat, a: nat)
    requires x.KeyedNode? && a < |x.pairs| && Target(p, a) == Target(q, a)
    ensures SubOf(x, news, p, root, a) == SubOf(x, news, q, root, a)
  {
    hide Target;
  }

  lemma MovedLengths(x: VNode, news: seq<VNode>, p: Plan, q: Plan, root: nat, a: nat, e: nat)
    requires x.KeyedNode? && |p.fates| <= |x.pairs| && q.fates == p.fates && a < |p.fates|
    requires p.fates[a] == Leave(e) && Target(p, a) == None && Target(q, a).Some?
    requires forall b :: 0 <= b < |p.fates| && b != a ==> Target(p, b) == Target(q, b)
    ensures forall n :: 0 <= n <= |p.fates| ==> |Locals(x, news, p, root, n)| == |Locals(x, news, q, root, n)|
  {
    hide Locals, Target, Span, SubOf;
    forall n | 0 <= n <= |p.fates| ensures |Locals(x, news, p, root, n)| == |Locals(x, news, q, root, n)| {
      LocalsMoved(x, news, p, q, root, n, a, e);
    }
  }

  lemma MatchPlan(p: Plan, key: string, toEnds: bool, e: nat)
    requires Good(p) && key in p.changes && p.changes[key] == e < |p.owners| && p.owners[e].Removed?
    ensures var q := Enter(p, key, toEnds); var a := p.owners[e].a; var j := NextNew(p, toEnds);
      && q.owners == p.owners[e := Moved(a, j, toEnds, true)] && q.changes == p.changes && q.fates == p.fates &&
        q.extra == p.extra
      && q.inserts == (if toEnds then p.inserts else p.inserts + [e]) &&
        q.ends == (if toEnds then p.ends + [e] else p.ends)
      && a < |p.fates| && p.fates[a] == Leave(e) && Target(p, a) == None && Target(q, a) == Some(j)
      && (forall b :: 0 <= b < |p.fates| && b != a ==> Target(p, b) == Target(q, b))
  {
    OwnerBelow(p, e);
    var a := p.owners[e].a;
    var q := Enter(p, key, toEnds);
    forall b | 0 <= b < |p.fates| && b != a ensures Target(p, b) == Target(q, b) {
      if p.fates[b].Leave? { FateOwner(p, b); }
    }
  }

  lemma FateOwner(p: Plan, b: nat)
    requires Good(p) && b < |p.fates| && p.fates[b].Leave?
    ensures p.fates[b].entry < |p.owners| && p.owners[p.fates[b].entry].HasOld() && p.owners[p.fates[b].entry].a == b
  {
  }

  lemma MatchLists(p: Plan, q: Plan, e: nat)
    requires Good(p) && e < |p.owners| == |q.owners| && p.owners[e].Removed? &&
      q.owners == p.owners[e := q.owners[e]] && q.owners[e].Moved?
    requires var o := q.owners[e];
      q.inserts == (if o.atEnd then p.inserts else p.inserts + [e]) &&
        q.ends == (if o.atEnd then p.ends + [e] else p.ends)
    ensures var o := q.owners[e];
      && InsertsOf(q) == (if o.atEnd then InsertsOf(p) else InsertsOf(p) + [Insert(Some(o.j), e)])
      && EndsOf(q) == (if o.atEnd then EndsOf(p) + [Insert(None, e)] else EndsOf(p))
  {
    hide Good, NewOf;
    forall k | 0 <= k < |p.inserts| ensures NewOf(q, p.inserts[k]) == NewOf(p, p.inserts[k]) { OldInsert(p, q, e, k); }
    assert NewOf(q, e) == q.owners[e].j by { NewOfIs(q, e); }
  }

  /** The key belongs to an old child removed earlier: a move. */
  lemma EnterMatch(slots: seq<Slot>, changes: map<string, nat>, inserts: seq<Insert>, ends: seq<Insert>,
                   items: seq<Patch>,
                   p: Plan, x: VNode, ys: seq<Keyed>, root: nat, tail: seq<Patch>, key: string, toEnds: bool, e: nat)
    requires Tracks(slots, changes, inserts, ends, items, p, x, ys, root, tail) && (!toEnds ==> p.ends == [])
    requires key in changes && changes[key] == e < |slots| && slots[e].tag == REMOVE && NextNew(p, toEnds) < |ys|
    ensures slots[e].index.Some? && slots[e].patch < |items|
    ensures var j := NextNew(p, toEnds); var at := if toEnds then None else Some(j);
      var sub := Diff(slots[e].vnode, ys[j].node, slots[e].index.value);
      Tracks(slots[e := Slot(MOVE, slots[e].vnode, at, 0)], changes,
             if toEnds then inserts else inserts + [Insert(at, e)], if toEnds then ends + [Insert(at, e)] else ends,
             items[slots[e].patch := NewPatch(slots[e].index.value, Remove(Some(Move(sub, e))))],
               Enter(p, key, toEnds), x, ys, root, tail)
  {
    hide Good, Enter, Diff, Locals, Span, Target, NewKids, InsertsOf, EndsOf, SlotIs, SlotsAre;
    var q := Enter(p, key, toEnds);
    var j := NextNew(p, toEnds);
    SlotsCount(slots, p, x, ys, root);
    SlotOwner(slots, p, x, ys, root, e);
    MatchPlan(p, key, toEnds, e);
    EnterGood(p, key, toEnds);
    MatchLists(p, q, e);
    MatchItems(slots[e], p, q, x, ys, root, p.owners[e].a, e, j);
    LateSlot(slots[e], p.owners[e].a, e, p, q, x, ys, root, j, toEnds);
    SlotsWith(slots, e, Slot(MOVE, slots[e].vnode, if toEnds then None else Some(j), 0), p, q, x, ys, root);
  }

  lemma LateSlot(s: Slot, a: nat, e: nat, p: Plan, q: Plan, x: VNode, ys: seq<Keyed>, root: nat, j: nat, toEnds: bool)
    requires x.KeyedNode? && RemovalIs(s, a, e, p, x, ys, root)
    ensures SlotIs(Slot(MOVE, s.vnode, if toEnds then None else Some(j), 0), Moved(a, j, toEnds, true), x,
      NewKids(q, ys), q, root)
  {
    hide Locals, Span, NewKids;
  }

  lemma MatchItems(s: Slot, p: Plan, q: Plan, x: VNode, ys: seq<Keyed>, root: nat, a: nat, e: nat, j: nat)
    requires x.KeyedNode? && |p.fates| <= |x.pairs| && q.fates == p.fates && q.extra == p.extra && j < |ys|
    requires RemovalIs(s, a, e, p, x, ys, root) && Target(p, a) == None && Target(q, a) == Some(j)
    requires forall b :: 0 <= b < |p.fates| && b != a ==> Target(p, b) == Target(q, b)
    ensures s.index.Some?
    ensures var sub := Diff(s.vnode, ys[j].node, s.index.value);
      var ps := Locals(x, NewKids(p, ys), p, root, |p.fates|);
      s.patch < |ps| &&
      Locals(x, NewKids(q, ys), q, root, |q.fates|) ==
        ps[s.patch := NewPatch(s.index.value, Remove(Some(Move(sub, e))))]
    ensures forall n :: 0 <= n <= |p.fates| ==>
      |Locals(x, NewKids(p, ys), p, root, n)| == |Locals(x, NewKids(q, ys), q, root, n)|
  {
    hide Locals, Target, Span, Diff;
    assert NewKids(p, ys) == NewKids(q, ys);
    NewsAt(q, ys, j);
    hide NewKids;
    LocalsMoved(x, NewKids(p, ys), p, q, root, |p.fates|, a, e);
    MovedLengths(x, NewKids(p, ys), p, q, root, a, e);
  }

  // ----- the stale look-ahead -----

  lemma StaleNews(slots: seq<Slot>, p: Plan, q: Plan, x: VNode, ys: seq<Keyed>, root: nat)
    requires x.KeyedNode? && Good(p) && |p.fates| <= |x.pairs| && EntersBelow(p, |ys|) &&
      SlotsAre(slots, p, x, ys, root)
    requires p.extra.None? && q.extra.Some? && q.extra.value < |ys| && q.owners == p.owners && p.scanned <= |ys|
    requires |q.fates| >= |p.fates| && q.fates[..|p.fates|] == p.fates
    ensures forall n :: 0 <= n <= |p.fates| ==>
      Locals(x, NewKids(p, ys), p, root, n) == Locals(x, NewKids(q, ys), q, root, n)
    ensures SlotsAre(slots, q, x, ys, root)
  {
    hide Good, Target, Locals, SlotIs;
    KeepTargets(p, q);
    forall a | 0 <= a < |p.fates| && Target(p, a).Some? ensures Target(p, a).value < |ys| {
      TargetBelow(p, a, |ys|);
    }
    forall n | 0 <= n <= |p.fates|
      ensures Locals(x, NewKids(p, ys), p, root, n) == Locals(x, NewKids(q, ys), q, root, n) {
      LocalsSame(x, NewKids(p, ys), NewKids(q, ys), p, q, root, n);
    }
    forall e | 0 <= e < |slots| ensures SlotIs(slots[e], q.owners[e], x, NewKids(q, ys), q, root) {
      if p.owners[e].Removed? { OwnerBelow(p, e); }
      StaleSlot(slots[e], p.owners[e], p, q, x, ys, root);
    }
  }

  lemma StaleSlot(s: Slot, o: Owner, p: Plan, q: Plan, x: VNode, ys: seq<Keyed>, root: nat)
    requires x.KeyedNode? && SlotIs(s, o, x, NewKids(p, ys), p, root) && (o.HasNew() ==> o.j < |ys|) && p.extra.None?
    requires o.Removed? && o.a < |x.pairs| ==>
      Locals(x, NewKids(p, ys), p, root, o.a) == Locals(x, NewKids(q, ys), q, root, o.a)
    ensures SlotIs(s, o, x, NewKids(q, ys), q, root)
  {
    hide Locals, Span;
  }

  lemma TargetBelow(p: Plan, a: nat, n: nat)
    requires Good(p) && EntersBelow(p, n) && p.scanned <= n && Target(p, a).Some?
    ensures Target(p, a).value < n
  {
    hide Filled;
  }

  /** The last old child is kept for the remembered new child. */
  lemma StaleTracks(slots: seq<Slot>, changes: map<string, nat>, inserts: seq<Insert>, ends: seq<Insert>,
                    items: seq<Patch>,
                    p: Plan, x: VNode, ys: seq<Keyed>, root: nat, tail: seq<Patch>, l: nat)
    requires Tracks(slots, changes, inserts, ends, items, p, x, ys, root, tail) && |p.fates| < |x.pairs| && p.ends == []
    requires p.scanned == |ys| && l < |ys| && p.extra == None
    requires tail == Diff(x.pairs[|p.fates|].node, ys[l].node, root + 1 + Span(Kids(x), |p.fates|))
    ensures Tracks(slots, changes, inserts, ends, items, KeepNext(p).(extra := Some(l)), x, ys, root, [])
  {
    hide Good, SlotsAre, Diff, Locals, Span;
    var q := KeepNext(p).(extra := Some(l));
    KeepGood(p);
    ExtraGood(KeepNext(p), Some(l));
    StaleNews(slots, p, q, x, ys, root);
    KeepTargets(p, q);
    assert NewKids(q, ys)[|ys|] == ys[l].node;
    hide NewKids;
    LocalsNext(x, ys, p, q, root, tail);
    assert InsertsOf(q) == InsertsOf(p) && EndsOf(q) == EndsOf(p);
  }

  // ----- the thunks of new children -----

  /** The thunks of entries to be inserted. */
  ghost function SlotTops(slots: seq<Slot>): set<int> {
    set e, o | 0 <= e < |slots| && slots[e].tag == INSERT && o in Tops(slots[e].vnode) :: o
  }

  /** The thunks that are set or will be: those in patches, and in entries to be inserted. */
  ghost function DueTo(h: Heap, ps: seq<Patch>, slots: seq<Slot>): set<int> {
    Pool(h, ps) + SlotTops(slots)
  }

  ghost predicate Fed(x: VNode, ys: seq<Keyed>, g: World) {
    x.KeyedNode? && (forall a :: 0 <= a < |x.pairs| ==> OldFit(x.pairs[a].node, g)) && forall j :: 0 <= j < |ys| ==>
      Fit(ys[j].node, g)
  }

  lemma FedKids(x: VNode, ys: seq<Keyed>, a: nat, l: nat, g: World)
    requires Fed(x, ys, g) && a < |x.pairs| && l < |ys|
    ensures OldFit(x.pairs[a].node, g) && Fit(ys[l].node, g)
  {
  }

  /** The first n new children have been seen to. */
  ghost predicate SeenUpTo(ys: seq<Keyed>, n: nat, pool: set<int>) {
    forall j :: 0 <= j < n && j < |ys| ==> Tops(ys[j].node) <= pool
  }

  lemma SeenMore(ys: seq<Keyed>, n: nat, pool: set<int>, pool': set<int>)
    requires SeenUpTo(ys, n, pool) && pool <= pool'
    ensures SeenUpTo(ys, n, pool')
  {
    hide Tops;
  }

  lemma SeenPlus(ys: seq<Keyed>, n: nat, pool: set<int>, pool': set<int>)
    requires SeenUpTo(ys, n, pool) && pool <= pool' && n < |ys| && Tops(ys[n].node) <= pool'
    ensures SeenUpTo(ys, n + 1, pool')
  {
    hide Tops;
  }

  lemma SeenAll(ys: seq<Keyed>, n: nat, pool: set<int>)
    requires SeenUpTo(ys, n, pool) && n >= |ys|
    ensures SeenUpTo(ys, n + 1, pool)
  {
    hide Tops;
  }

  lemma FillsIs(h0: Heap, pool0: set<int>, h: Heap, pool: set<int>, g: World)
    requires Fills(h0, pool0, h, pool, g)
    ensures pool0 <= pool && h.Keys <= pool
  {
  }

  lemma SlotTopsPlus(slots: seq<Slot>, s: Slot)
    ensures SlotTops(slots + [s]) == SlotTops(slots) + if s.tag == INSERT then Tops(s.vnode) else {}
  {
    hide Tops;
    forall o | o in SlotTops(slots) ensures o in SlotTops(slots + [s]) {
      var e :| 0 <= e < |slots| && slots[e].tag == INSERT && o in Tops(slots[e].vnode);
      assert (slots + [s])[e] == slots[e];
    }
    forall o | s.tag == INSERT && o in Tops(s.vnode) ensures o in SlotTops(slots + [s]) {
      assert (slots + [s])[|slots|] == s;
    }
  }

  /** Changing one entry loses its thunks at most. */
  lemma SlotTopsWith(slots: seq<Slot>, e: nat, s: Slot)
    requires e < |slots|
    ensures SlotTops(slots) <= SlotTops(slots[e := s]) + if slots[e].tag == INSERT then Tops(slots[e].vnode) else {}
  {
    hide Tops;
    forall o | o in SlotTops(slots) ensures o in SlotTops(slots[e := s]) ||
      (slots[e].tag == INSERT && o in Tops(slots[e].vnode)) {
      var i :| 0 <= i < |slots| && slots[i].tag == INSERT && o in Tops(slots[i].vnode);
      if i != e { assert slots[e := s][i] == slots[i]; }
    }
  }

  lemma FillsWiden(h0: Heap, pool0: set<int>, h: Heap, pool: set<int>, due0: set<int>, due: set<int>, g: World)
    requires Fills(h0, pool0, h, pool, g) && pool <= due && due0 <= due
    ensures Fills(h0, due0, h, due, g)
  {
    FillsMore(h0, pool0, h, pool, due, g);
    FillsFrom(h0, pool0, h, due, due0, g);
  }

  lemma DuePushed(h: Heap, ps: seq<Patch>, slots: seq<Slot>, p: Patch, s: Slot, g: World)
    requires p.action == Remove(None) && s.tag == REMOVE
    ensures Pool(h, ps + [p]) + SlotTops(slots + [s]) == Pool(h, ps) + SlotTops(slots)
    ensures Fills(h, Pool(h, ps) + SlotTops(slots), h, Pool(h, ps) + SlotTops(slots), g)
  {
    PoolPush(h, ps, p);
    SlotTopsPlus(slots, s);
  }

  lemma DueInserted(h: Heap, ps: seq<Patch>, slots: seq<Slot>, s: Slot, g: World)
    requires s.tag == INSERT
    ensures var due, due' := Pool(h, ps) + SlotTops(slots), Pool(h, ps) + SlotTops(slots + [s]);
      Fills(h, due, h, due', g) && Tops(s.vnode) <= due' && due <= due'
  {
    SlotTopsPlus(slots, s);
    hide Tops, SlotTops, Pending;
    FillsSelf(h, Pool(h, ps) + SlotTops(slots), g);
  }

  lemma DueMoved(h0: Heap, ps: seq<Patch>, slots: seq<Slot>, h: Heap, sub: seq<Patch>, p: Patch, e: nat, g: World)
    requires FillsTo(h0, [], h, sub, g) && e < |slots| && Tops(slots[e].vnode) <= Pool(h, sub)
    requires p.action.Remove? && p.action.move.Some? && p.action.move.value.patches == sub
    ensures var due0, due := Pool(h0, ps) + SlotTops(slots), Pool(h, ps + [p]) +
      SlotTops(slots[e := slots[e].(tag := MOVE)]);
      Fills(h0, due0, h, due, g) && due0 <= due
  {
    PoolPush(h, ps, p);
    assert PendingIn(p) == Pending(sub);
    SlotTopsWith(slots, e, slots[e].(tag := MOVE));
    hide Tops, SlotTops, Pending, PendingIn;
    FillsIs(h0, Pool(h0, []), h, Pool(h, sub), g);
    FillsKeys(h0, Pool(h0, []), h, Pool(h, sub), g);
    hide Fills;
    FillsWiden(h0, Pool(h0, []), h, Pool(h, sub), Pool(h0, ps) + SlotTops(slots), Pool(h, ps + [p]) +
      SlotTops(slots[e := slots[e].(tag := MOVE)]), g);
  }

  lemma FillsKeys(h0: Heap, pool0: set<int>, h: Heap, pool: set<int>, g: World)
    requires Fills(h0, pool0, h, pool, g)
    ensures h0.Keys <= h.Keys
  {
  }

  lemma DueReplaced(h0: Heap, ps: seq<Patch>, slots: seq<Slot>, h: Heap, sub: seq<Patch>, i: nat, at: nat, e: nat,
                    s: Slot, v: VNode, g: World)
    requires FillsTo(h0, [], h, sub, g) && e < |slots| && slots[e].tag == REMOVE && Tops(v) <= Pool(h, sub)
    requires i < |ps| && ps[i] == NewPatch(at, Remove(None))
    ensures var due0, due := Pool(h0, ps) + SlotTops(slots),
      Pool(h, ps[i := NewPatch(at, Remove(Some(Move(sub, e))))]) + SlotTops(slots[e := s]);
      Fills(h0, due0, h, due, g) && due0 <= due && Tops(v) <= due
  {
    var p := NewPatch(at, Remove(Some(Move(sub, e))));
    assert PendingIn(p) == Pending(sub) && PendingIn(ps[i]) == {};
    PendingUpdate(ps, i, p);
    SlotTopsWith(slots, e, s);
    hide Tops, SlotTops, Pending, PendingIn;
    FillsKeys(h0, Pool(h0, []), h, Pool(h, sub), g);
    hide Fills;
    FillsWiden(h0, Pool(h0, []), h, Pool(h, sub), Pool(h0, ps) + SlotTops(slots), Pool(h, ps[i := p]) +
      SlotTops(slots[e := s]), g);
  }

  lemma DueCompared(h0: Heap, ps0: seq<Patch>, slots: seq<Slot>, h: Heap, ps: seq<Patch>, g: World)
    requires FillsTo(h0, ps0, h, ps, g)
    ensures var due0, due := Pool(h0, ps0) + SlotTops(slots), Pool(h, ps) + SlotTops(slots);
      Fills(h0, due0, h, due, g) && due0 <= due && Pool(h, ps) <= due
  {
    hide Tops, SlotTops, Pending, PendingIn, Pool;
    FillsIs(h0, Pool(h0, ps0), h, Pool(h, ps), g);
    hide Fills;
    FillsWiden(h0, Pool(h0, ps0), h, Pool(h, ps), Pool(h0, ps0) + SlotTops(slots), Pool(h, ps) + SlotTops(slots), g);
  }

  lemma RemoveNext(p: Plan, key: string)
    ensures var q := RemoveOld(p, key); NextNew(q, true) == NextNew(p, true)
    decreases Searches(p.changes, key)
  {
  }

  lemma KeepCount(p: Plan)
    requires p.ends == []
    ensures NextNew(KeepNext(p), true) == NextNew(p, true) + 1 == p.scanned + 1
  {
  }

  lemma EnterNext(slots: seq<Slot>, changes: map<string, nat>, inserts: seq<Insert>, ends: seq<Insert>,
                  items: seq<Patch>,
                  p: Plan, x: VNode, ys: seq<Keyed>, root: nat, tail: seq<Patch>, key: string, toEnds: bool)
    requires Tracks(slots, changes, inserts, ends, items, p, x, ys, root, tail) && (!toEnds ==> p.ends == [])
    ensures NextNew(Enter(p, key, toEnds), true) == NextNew(p, toEnds) + 1 && NextNew(p, toEnds) == NextNew(p, true)
  {
    hide Good, InsertNew, SlotsAre, Locals, NewKids;
    if toEnds { InsertEndGood(p, key); } else { InsertGood(p, key); }
  }

  /** The node of an entry to be inserted is a new child. */
  lemma InsertedFit(slots: seq<Slot>, changes: map<string, nat>, inserts: seq<Insert>, ends: seq<Insert>,
                    items: seq<Patch>,
                    p: Plan, x: VNode, ys: seq<Keyed>, root: nat, e: nat, g: World)
    requires Tracks(slots, changes, inserts, ends, items, p, x, ys, root, []) && |p.fates| < |x.pairs| &&
      e < |slots| && slots[e].tag == INSERT && Fed(x, ys, g)
    ensures Fit(slots[e].vnode, g) && OldFit(x.pairs[|p.fates|].node, g)
  {
    SlotOwner(slots, p, x, ys, root, e);
  }

  /** The node of an entry of a removal is an old child, and its patch is a removal. */
  lemma RemovedFit(slots: seq<Slot>, changes: map<string, nat>, inserts: seq<Insert>, ends: seq<Insert>,
                   items: seq<Patch>,
                   p: Plan, x: VNode, ys: seq<Keyed>, root: nat, tail: seq<Patch>, e: nat, j: nat, g: World)
    requires Tracks(slots, changes, inserts, ends, items, p, x, ys, root, tail) && e < |slots| &&
      slots[e].tag == REMOVE && Fed(x, ys, g) && j < |ys|
    ensures OldFit(slots[e].vnode, g) && Fit(ys[j].node, g) && slots[e].index.Some?
    ensures slots[e].patch < |items| && items[slots[e].patch] == NewPatch(slots[e].index.value, Remove(None))
  {
    hide Good, Locals, SlotsAre, Diff, Span, Target, InsertsOf, EndsOf, NewKids, OldFit, Fit;
    SlotOwner(slots, p, x, ys, root, e);
    SlotsCount(slots, p, x, ys, root);
    RemovalPatch(x, NewKids(p, ys), p, root, p.owners[e].a, e);
  }

  /** The patch of an old child that leaves and comes nowhere. */
  lemma RemovalPatch(x: VNode, news: seq<VNode>, p: Plan, root: nat, a: nat, e: nat)
    requires x.KeyedNode? && a < |p.fates| <= |x.pairs| && p.fates[a] == Leave(e) && e < |p.owners| &&
      p.owners[e].Removed?
    ensures var ps, i := Locals(x, news, p, root, |p.fates|), |Locals(x, news, p, root, a)|;
      i < |ps| && ps[i] == NewPatch(root + 1 + Span(Kids(x), a), Remove(None))
  {
    hide Locals, Diff, Span, Target, Segment, SubOf;
    LocalsUnfold(x, news, p, root, a);
    LocalsGrow(x, news, p, root, a + 1, |p.fates|);
    RemovalSegment(p, a, e, root + 1 + Span(Kids(x), a), SubOf(x, news, p, root, a));
    var next := Locals(x, news, p, root, a + 1);
    assert next[|next| - 1] == NewPatch(root + 1 + Span(Kids(x), a), Remove(None));
  }

  lemma RemovalSegment(p: Plan, a: nat, e: nat, at: nat, sub: seq<Patch>)
    requires a < |p.fates| && p.fates[a] == Leave(e) && e < |p.owners| && p.owners[e].Removed?
    ensures Segment(p, a, at, sub) == [NewPatch(at, Remove(None))]
  {
  }

  // ----- the scan -----

  class KeyedDiff {
    var slots: seq<Slot>
    var changes: map<string, nat>
    var inserts: seq<Insert>
    var ends: seq<Insert>
    const locals: PatchList
    const cache: Caches
    ghost const g: World
    ghost var plan: Plan

    ghost function Due(): set<int>
      reads this, locals, cache
    {
      DueTo(cache.entries, locals.items, slots)
    }

    lemma DueHasKeys()
      ensures cache.entries.Keys <= Due()
    {
      hide Pending, SlotTops;
    }

    ghost predicate At(x: VNode, ys: seq<Keyed>, root: nat, tail: seq<Patch>)
      reads this, locals, cache
    {
      && Tracks(slots, changes, inserts, ends, locals.items, plan, x, ys, root, tail)
      && Fed(x, ys, g) && SeenUpTo(ys, NextNew(plan, true), Due())
    }

    constructor (ghost x: VNode, ghost ys: seq<Keyed>, ghost root: nat, cache: Caches, ghost g: World)
      requires x.KeyedNode? && Fed(x, ys, g)
      ensures plan == EMPTY && fresh(locals) && At(x, ys, root, []) && this.cache == cache && this.g == g &&
        locals.items == [] && slots == []
    {
      slots, changes, inserts, ends, plan := [], map[], [], [], EMPTY;
      this.cache, this.g := cache, g;
      locals := new PatchList();
      new;
      EmptyTracks(x, ys, root);
    }

    /** _VirtualDom_removeNode */
    method RemoveNode(key: string, vnode: VNode, index: nat, ghost x: VNode, ghost ys: seq<Keyed>, ghost root: nat)
      requires At(x, ys, root, []) && |plan.fates| < |x.pairs| && vnode == x.pairs[|plan.fates|].node
      requires index == root + 1 + Span(Kids(x), |plan.fates|)
      modifies this, locals, cache
      ensures plan == RemoveOld(old(plan), key) && At(x, ys, root, [])
      ensures Fills(old(cache.entries), old(Due()), cache.entries, Due(), g)
      decreases x, 0, 0, 0, Searches(changes, key)
    {
      hide Tracks, Diff, RemoveOld, Span, Fills, Pool, Pending, PendingIn, Tops, SlotTops, Fed, SeenUpTo, NextNew,
        FillsTo;
      TracksIs(slots, changes, inserts, ends, locals.items, plan, x, ys, root, []);
      RemoveNext(plan, key);
      ghost var h0, due0 := cache.entries, Due();
      if key !in changes && !Inherited(key) {
        RemoveFresh(slots, changes, inserts, ends, locals.items, plan, x, ys, root, key);
        ghost var s := Slot(REMOVE, vnode, Some(index), |locals.items|);
        DuePushed(h0, locals.items, slots, NewPatch(index, Remove(None)), s, g);
        slots := slots + [Slot(REMOVE, vnode, Some(index), |locals.items|)];
        locals.Push(NewPatch(index, Remove(None)));
        changes := changes[key := |slots| - 1];
        plan := RemoveOld(plan, key);
        SeenMore(ys, NextNew(plan, true), due0, Due());
      } else if key in changes && slots[changes[key]].tag == INSERT {
        var e := changes[key];
        RemoveMatch(slots, changes, inserts, ends, locals.items, plan, x, ys, root, key, e);
        InsertedFit(slots, changes, inserts, ends, locals.items, plan, x, ys, root, e, g);
        ghost var slots0, items0 := slots, locals.items;
        var sub := new PatchList();
        ChildSmaller(x, |plan.fates|);
        DiffHelp(vnode, slots[e].vnode, sub, index, cache, g);
        assert sub.items == Diff(vnode, slots[e].vnode, index);
        slots := slots[e := slots[e].(tag := MOVE)];
        locals.Push(NewPatch(index, Remove(Some(Move(sub.items, e)))));
        plan := RemoveOld(plan, key);
        DueMoved(h0, items0, slots0, cache.entries, sub.items, NewPatch(index, Remove(Some(Move(sub.items, e)))), e, g);
        SeenMore(ys, NextNew(plan, true), due0, Due());
      } else {
        RemoveLonger(slots, changes, inserts, ends, locals.items, plan, x, ys, root, key);
        RemoveNode(key + POSTFIX, vnode, index, x, ys, root);
      }
    }

    /** _VirtualDom_insertNode, for an insertion at an index or at the end. */
    method InsertNode(key: string, vnode: VNode, at: Option<nat>, toEnds: bool,
                      ghost x: VNode, ghost ys: seq<Keyed>, ghost root: nat, ghost tail: seq<Patch>)
      requires At(x, ys, root, tail) && (!toEnds ==> plan.ends == []) && NextNew(plan, toEnds) < |ys|
      requires vnode == ys[NextNew(plan, toEnds)].node && at == (if toEnds then None else Some(plan.scanned))
      modifies this, locals, cache
      ensures plan == Enter(old(plan), key, toEnds) && At(x, ys, root, tail)
      ensures Fills(old(cache.entries), old(Due()), cache.entries, Due(), g)
      decreases x, 0, 0, 0, Searches(changes, key)
    {
      hide Tracks, Diff, Enter, Fills, Pool, Pending, PendingIn, Tops, SlotTops, Fed, SeenUpTo, FillsTo;
      TracksIs(slots, changes, inserts, ends, locals.items, plan, x, ys, root, tail);
      EnterNext(slots, changes, inserts, ends, locals.items, plan, x, ys, root, tail, key, toEnds);
      ghost var h0, due0, j := cache.entries, Due(), NextNew(plan, toEnds);
      if key !in changes && !Inherited(key) {
        EnterFresh(slots, changes, inserts, ends, locals.items, plan, x, ys, root, tail, key, toEnds);
        DueInserted(h0, locals.items, slots, Slot(INSERT, vnode, at, 0), g);
        if toEnds { ends := ends + [Insert(at, |slots|)]; } else { inserts := inserts + [Insert(at, |slots|)]; }
        changes := changes[key := |slots|];
        slots := slots + [Slot(INSERT, vnode, at, 0)];
        plan := Enter(plan, key, toEnds);
        SeenPlus(ys, j, due0, Due());
      } else if key in changes && slots[changes[key]].tag == REMOVE {
        var e := changes[key];
        EnterMatch(slots, changes, inserts, ends, locals.items, plan, x, ys, root, tail, key, toEnds, e);
        EnterSmaller(slots, changes, inserts, ends, locals.items, plan, x, ys, root, tail, e);
        RemovedFit(slots, changes, inserts, ends, locals.items, plan, x, ys, root, tail, e, j, g);
        ghost var slots0, items0 := slots, locals.items;
        if toEnds { ends := ends + [Insert(at, e)]; } else { inserts := inserts + [Insert(at, e)]; }
        var slot := slots[e];
        var sub := new PatchList();
        DiffHelp(slot.vnode, vnode, sub, slot.index.value, cache, g);
        assert sub.items == Diff(slot.vnode, vnode, slot.index.value);
        slots := slots[e := Slot(MOVE, slot.vnode, at, 0)];
        locals.items := locals.items[slot.patch := NewPatch(slot.index.value, Remove(Some(Move(sub.items, e))))];
        plan := Enter(plan, key, toEnds);
        DueReplaced(h0, items0, slots0, cache.entries, sub.items, slot.patch, slot.index.value, e,
          Slot(MOVE, slot.vnode, at, 0), vnode, g);
        SeenPlus(ys, j, due0, Due());
      } else {
        EnterLonger(slots, changes, inserts, ends, locals.items, plan, x, ys, root, tail, key, toEnds);
        InsertNode(key + POSTFIX, vnode, at, toEnds, x, ys, root, tail);
      }
    }

    /** An old child is compared with a new one, whose thunks are then seen to. */
    method Compare(xNode: VNode, yNode: VNode, index: nat, ghost x: VNode, ghost ys: seq<Keyed>, ghost root: nat,
                   ghost l: nat)
      requires x.KeyedNode? && At(x, ys, root, []) && |plan.fates| < |x.pairs| && l < |ys|
      requires xNode == x.pairs[|plan.fates|].node && yNode == ys[l].node
      modifies locals, cache
      ensures locals.items == old(locals.items) + Diff(xNode, yNode, index) &&
        At(x, ys, root, Diff(xNode, yNode, index))
      ensures Tops(yNode) <= Due()
      ensures Fills(old(cache.entries), old(Due()), cache.entries, Due(), g)
      decreases x, 0, 0, 0
    {
      hide Tracks, Diff, Fills, Pool, Pending, PendingIn, Tops, SlotTops, Fed, SeenUpTo, NextNew, FillsTo;
      ghost var h0, due0, items0 := cache.entries, Due(), locals.items;
      TailTracks(slots, changes, inserts, ends, locals.items, plan, x, ys, root, Diff(xNode, yNode, index));
      ChildSmaller(x, |plan.fates|);
      FedKids(x, ys, |plan.fates|, l, g);
      DiffHelp(xNode, yNode, locals, index, cache, g);
      DueCompared(h0, items0, slots, cache.entries, locals.items, g);
      SeenMore(ys, NextNew(plan, true), due0, Due());
    }

    /** The next old child is kept for the next new child. */
    method Keep(xNode: VNode, yNode: VNode, index: nat, ghost x: VNode, ghost ys: seq<Keyed>, ghost root: nat)
      requires x.KeyedNode? && At(x, ys, root, []) && plan.ends == [] && |plan.fates| < |x.pairs| && plan.scanned < |ys|
      requires xNode == x.pairs[|plan.fates|].node && yNode == ys[plan.scanned].node
      requires index == root + 1 + Span(Kids(x), |plan.fates|)
      modifies this, locals, cache
      ensures plan == KeepNext(old(plan)) && At(x, ys, root, [])
      ensures Fills(old(cache.entries), old(Due()), cache.entries, Due(), g)
      decreases x, 0, 0, 1
    {
      hide Tracks, Diff, KeepNext, Span, Fills, Tops, Fed, SeenUpTo, DueTo;
      Compare(xNode, yNode, index, x, ys, root, plan.scanned);
      KeepTracks(slots, changes, inserts, ends, locals.items, plan, x, ys, root, Diff(xNode, yNode, index));
      KeepCount(plan);
      SeenPlus(ys, plan.scanned, Due(), Due());
      plan := KeepNext(plan);
    }

    /** The last comparison succeeded against the remembered new child, which is the next new
        child or, when there is none, one remembered from before. */
    method KeepRemembered(xNode: VNode, yNode: VNode, index: nat, ghost l: nat, ghost x: VNode, ghost ys: seq<Keyed>,
                          ghost root: nat)
      requires x.KeyedNode? && At(x, ys, root, []) && plan.ends == [] && |plan.fates| < |x.pairs| &&
        plan.extra == None && l < |ys|
      requires plan.scanned <= |ys| && (plan.scanned < |ys| ==> l == plan.scanned)
      requires xNode == x.pairs[|plan.fates|].node && yNode == ys[l].node
      requires index == root + 1 + Span(Kids(x), |plan.fates|)
      modifies this, locals, cache
      ensures var q := KeepNext(old(plan)); plan == if old(plan).scanned < |ys| then q else q.(extra := Some(l))
      ensures At(x, ys, root, [])
      ensures Fills(old(cache.entries), old(Due()), cache.entries, Due(), g)
      decreases x, 0, 0, 1
    {
      hide Tracks, Diff, KeepNext, Span, Fills, Tops, Fed, SeenUpTo, DueTo;
      Compare(xNode, yNode, index, x, ys, root, l);
      KeepCount(plan);
      if plan.scanned < |ys| {
        KeepTracks(slots, changes, inserts, ends, locals.items, plan, x, ys, root, Diff(xNode, yNode, index));
        SeenPlus(ys, plan.scanned, Due(), Due());
        plan := KeepNext(plan);
      } else {
        StaleTracks(slots, changes, inserts, ends, locals.items, plan, x, ys, root, Diff(xNode, yNode, index), l);
        SeenAll(ys, plan.scanned, Due());
        plan := KeepNext(plan).(extra := Some(l));
      }
    }

    /** The next old child is kept for the new child after the next, which is inserted. */
    method KeepAfter(key: string, xNode: VNode, yNode: VNode, yNextNode: VNode, index: nat, yIndex: nat,
                     ghost x: VNode, ghost ys: seq<Keyed>, ghost root: nat)
      requires x.KeyedNode? && At(x, ys, root, []) && plan.ends == [] && |plan.fates| < |x.pairs| &&
        yIndex == plan.scanned && yIndex + 1 < |ys|
      requires xNode == x.pairs[|plan.fates|].node && yNode == ys[yIndex].node && yNextNode == ys[yIndex + 1].node
      requires index == root + 1 + Span(Kids(x), |plan.fates|)
      modifies this, locals, cache
      ensures plan == KeepNext(InsertNext(old(plan), key)) && At(x, ys, root, [])
      ensures Fills(old(cache.entries), old(Due()), cache.entries, Due(), g)
      decreases x, 0, 0, 1
    {
      hide Tracks, Diff, KeepNext, Span, InsertNext, Fills, Tops, Fed, SeenUpTo, DueTo;
      ghost var tail := Diff(xNode, yNextNode, index);
      ghost var h0, due0 := cache.entries, Due();
      Compare(xNode, yNextNode, index, x, ys, root, yIndex + 1);
      ghost var h1, due1 := cache.entries, Due();
      EnteredIs(slots, changes, inserts, ends, locals.items, plan, x, ys, root, tail, key);
      InsertNode(key, yNode, Some(yIndex), false, x, ys, root, tail);
      FillsThen(h0, due0, h1, due1, cache.entries, Due(), g);
      FillsIs(h1, due1, cache.entries, Due(), g);
      KeepTracks(slots, changes, inserts, ends, locals.items, plan, x, ys, root, tail);
      KeepCount(plan);
      SeenPlus(ys, plan.scanned, Due(), Due());
      plan := KeepNext(plan);
    }

    /** Swap x and y. */
    method SwapTwo(xKey: string, xNode: VNode, xNextNode: VNode, yNode: VNode, yNextNode: VNode, index: nat,
                   yIndex: nat,
                   ghost x: VNode, ghost ys: seq<Keyed>, ghost root: nat)
      requires x.KeyedNode? && At(x, ys, root, []) && plan.ends == [] && |plan.fates| + 1 < |x.pairs| &&
        yIndex == plan.scanned && yIndex + 1 < |ys|
      requires xNode == x.pairs[|plan.fates|].node && xNextNode == x.pairs[|plan.fates| + 1].node
      requires yNode == ys[yIndex].node && yNextNode == ys[yIndex + 1].node &&
        index == root + 1 + Span(Kids(x), |plan.fates|)
      modifies this, locals, cache
      ensures plan == RemoveOld(KeepNext(InsertNext(old(plan), xKey)), xKey) && At(x, ys, root, [])
      ensures Fills(old(cache.entries), old(Due()), cache.entries, Due(), g)
      decreases x, 0, 0, 2
    {
      hide Tracks, KeepNext, Span, InsertNext, RemoveOld, Diff, Good, Kids, Descendants, Fills, Tops, Fed, SeenUpTo,
        DueTo;
      ghost var p, h0, due0 := plan, cache.entries, Due();
      SpanNext(x, |plan.fates|);
      TracksGood(slots, changes, inserts, ends, locals.items, plan, x, ys, root, []);
      StepsGood(p, xKey);
      StepsGood(InsertNext(p, xKey), xKey);
      KeepAfter(xKey, xNode, yNode, yNextNode, index, yIndex, x, ys, root);
      ghost var h1, due1 := cache.entries, Due();
      RemoveNode(xKey, xNextNode, index + Descendants(xNode) + 1, x, ys, root);
      FillsThen(h0, due0, h1, due1, cache.entries, Due(), g);
    }

    /** Insert y. */
    method InsertThenKeep(yKey: string, xNode: VNode, yNode: VNode, yNextNode: VNode, index: nat, yIndex: nat,
                          ghost x: VNode, ghost ys: seq<Keyed>, ghost root: nat)
      requires x.KeyedNode? && At(x, ys, root, []) && plan.ends == [] && |plan.fates| < |x.pairs| &&
        yIndex == plan.scanned && yIndex + 1 < |ys|
      requires xNode == x.pairs[|plan.fates|].node && yNode == ys[yIndex].node && yNextNode == ys[yIndex + 1].node
      requires index == root + 1 + Span(Kids(x), |plan.fates|)
      modifies this, locals, cache
      ensures plan == KeepNext(InsertNext(old(plan), yKey)) && At(x, ys, root, [])
      ensures Fills(old(cache.entries), old(Due()), cache.entries, Due(), g)
      decreases x, 0, 0, 2
    {
      hide Tracks, KeepNext, Span, InsertNext, Diff, Fills, Tops, Fed, SeenUpTo, DueTo;
      ghost var h0, due0 := cache.entries, Due();
      EnteredIs(slots, changes, inserts, ends, locals.items, plan, x, ys, root, [], yKey);
      InsertNode(yKey, yNode, Some(yIndex), false, x, ys, root, []);
      ghost var h1, due1 := cache.entries, Due();
      Keep(xNode, yNextNode, index, x, ys, root);
      FillsThen(h0, due0, h1, due1, cache.entries, Due(), g);
    }

    /** Remove x. */
    method RemoveThenKeep(xKey: string, xNode: VNode, xNextNode: VNode, yNode: VNode, index: nat,
                          ghost x: VNode, ghost ys: seq<Keyed>, ghost root: nat)
      requires x.KeyedNode? && At(x, ys, root, []) && plan.ends == [] && |plan.fates| + 1 < |x.pairs| &&
        plan.scanned < |ys|
      requires xNode == x.pairs[|plan.fates|].node && xNextNode == x.pairs[|plan.fates| + 1].node &&
        yNode == ys[plan.scanned].node
      requires index == root + 1 + Span(Kids(x), |plan.fates|)
      modifies this, locals, cache
      ensures plan == KeepNext(RemoveOld(old(plan), xKey)) && At(x, ys, root, [])
      ensures Fills(old(cache.entries), old(Due()), cache.entries, Due(), g)
      decreases x, 0, 0, 2
    {
      hide Tracks, KeepNext, Span, RemoveOld, Diff, Good, Kids, Descendants, Fills, Tops, Fed, SeenUpTo, DueTo;
      ghost var h0, due0 := cache.entries, Due();
      SpanNext(x, |plan.fates|);
      TracksGood(slots, changes, inserts, ends, locals.items, plan, x, ys, root, []);
      StepsGood(plan, xKey);
      RemoveNode(xKey, xNode, index, x, ys, root);
      ghost var h1, due1 := cache.entries, Due();
      Keep(xNextNode, yNode, index + Descendants(xNode) + 1, x, ys, root);
      FillsThen(h0, due0, h1, due1, cache.entries, Due(), g);
    }

    /** Remove x, insert y, and keep the next old child for the remembered new one, which is the
        next unless there is no next. */
    method RemoveInsertKeep(xKey: string, yKey: string, xNode: VNode, xNextNode: VNode, yNode: VNode, yNextNode: VNode,
                            index: nat, yIndex: nat, ghost l: nat, ghost x: VNode, ghost ys: seq<Keyed>,
                              ghost root: nat)
      requires x.KeyedNode? && At(x, ys, root, []) && plan.ends == [] && |plan.fates| + 1 < |x.pairs| &&
        yIndex == plan.scanned < |ys| && plan.extra == None
      requires xNode == x.pairs[|plan.fates|].node && xNextNode == x.pairs[|plan.fates| + 1].node
      requires yNode == ys[yIndex].node && l < |ys| && yNextNode == ys[l].node &&
        (yIndex + 1 < |ys| ==> l == yIndex + 1)
      requires index == root + 1 + Span(Kids(x), |plan.fates|)
      modifies this, locals, cache
      ensures var q := KeepNext(InsertNext(RemoveOld(old(plan), xKey), yKey));
        plan == if yIndex + 1 < |ys| then q else q.(extra := Some(l))
      ensures At(x, ys, root, [])
      ensures Fills(old(cache.entries), old(Due()), cache.entries, Due(), g)
      decreases x, 0, 0, 2
    {
      hide Tracks, KeepNext, Span, RemoveOld, InsertNext, Diff, Good, Kids, Descendants, Enter, NextNew, Fills, Tops,
        Fed, SeenUpTo, DueTo;
      ghost var h0, due0 := cache.entries, Due();
      SpanNext(x, |plan.fates|);
      TracksGood(slots, changes, inserts, ends, locals.items, plan, x, ys, root, []);
      StepsGood(plan, xKey);
      RemoveNode(xKey, xNode, index, x, ys, root);
      ghost var h1, due1 := cache.entries, Due();
      EnteredIs(slots, changes, inserts, ends, locals.items, plan, x, ys, root, [], yKey);
      InsertNode(yKey, yNode, Some(yIndex), false, x, ys, root, []);
      FillsThen(h0, due0, h1, due1, cache.entries, Due(), g);
      ghost var h2, due2 := cache.entries, Due();
      KeepRemembered(xNextNode, yNextNode, index + Descendants(xNode) + 1, l, x, ys, root);
      FillsThen(h0, due0, h2, due2, cache.entries, Due(), g);
    }

    /** Between two rounds of the scan; `next` is what yNextKey and yNextNode hold. */
    ghost predicate InScan(x: VNode, ys: seq<Keyed>, root: nat, xIndex: nat, yIndex: nat, index: nat,
                           next: Option<Keyed>, look: Option<nat>)
      reads this, locals, cache
    {
      && x.KeyedNode? && At(x, ys, root, []) && Within(Keys(x.pairs), Keys(ys), plan, look)
      && xIndex == |plan.fates| <= |x.pairs| && yIndex == plan.scanned && index == root + Span(Kids(x), xIndex)
      && (look.Some? ==> look.value < |ys|) && next == (if look.Some? && look.value < |ys| then Some(ys[look.value])
        else None)
    }

    /** One round of the scan, or the end of it. */
    method ScanOnce(x: VNode, ys: seq<Keyed>, ghost root: nat, xIndex0: nat, yIndex0: nat, index0: nat,
                    next0: Option<Keyed>,
                    ghost look: Option<nat>)
      returns (more: bool, xIndex: nat, yIndex: nat, index: nat, next: Option<Keyed>, ghost look': Option<nat>)
      requires InScan(x, ys, root, xIndex0, yIndex0, index0, next0, look)
      modifies this, locals, cache
      ensures InScan(x, ys, root, xIndex, yIndex, index, next, look')
      ensures Fills(old(cache.entries), old(Due()), cache.entries, Due(), g)
      ensures more ==> Round(Keys(x.pairs), Keys(ys), old(plan), look) == Some((plan, look'))
      ensures !more ==> plan == old(plan) && Round(Keys(x.pairs), Keys(ys), old(plan), look) == None
      decreases x, 0, 0, 3
    {
      hide Tracks, Diff, KeepNext, InsertNext, RemoveOld, Good, Span, Fills, Tops, Fed, SeenUpTo, DueTo;
      FillsSelf(cache.entries, Due(), g) by { DueHasKeys(); }
      more, xIndex, yIndex, index, next, look' := false, xIndex0, yIndex0, index0, next0, look;
      if xIndex >= |x.pairs| || yIndex >= |ys| { return; }
      ghost var p, xs, yKeys := plan, Keys(x.pairs), Keys(ys);
      var xKey, xNode, yKey, yNode := x.pairs[xIndex].key, x.pairs[xIndex].node, ys[yIndex].key, ys[yIndex].node;
      SpanNext(x, xIndex);
      if xKey == yKey {
        Keep(xNode, yNode, index + 1, x, ys, root);
        more, xIndex, yIndex, index := true, xIndex + 1, yIndex + 1, index + 1 + Descendants(xNode);
      } else {
        var hasNext := xIndex + 1 < |x.pairs|;
        var xNext := if hasNext then x.pairs[xIndex + 1] else x.pairs[xIndex];
        if hasNext { SpanNext(x, xIndex + 1); }
        var oldMatch := hasNext && yKey == xNext.key;
        var newMatch := false;
        if yIndex + 1 < |ys| {
          next, look' := Some(ys[yIndex + 1]), Some(yIndex + 1);
          newMatch := xKey == ys[yIndex + 1].key;
        }
        if newMatch && oldMatch {
          SwapTwo(xKey, xNode, xNext.node, yNode, next.value.node, index + 1, yIndex, x, ys, root);
          more, xIndex, yIndex := true, xIndex + 2, yIndex + 2;
          index := index + 1 + Descendants(xNode) + 1 + Descendants(xNext.node);
        } else if newMatch {
          InsertThenKeep(yKey, xNode, yNode, next.value.node, index + 1, yIndex, x, ys, root);
          more, xIndex, yIndex, index := true, xIndex + 1, yIndex + 2, index + 1 + Descendants(xNode);
        } else if oldMatch {
          RemoveThenKeep(xKey, xNode, xNext.node, yNode, index + 1, x, ys, root);
          more, xIndex, yIndex := true, xIndex + 2, yIndex + 1;
          index := index + 1 + Descendants(xNode) + 1 + Descendants(xNext.node);
        } else if hasNext && next.Some? && xNext.key == next.value.key {
          RemoveInsertKeep(xKey, yKey, xNode, xNext.node, yNode, next.value.node, index + 1, yIndex, look'.value, x,
            ys, root);
          more, xIndex, yIndex := true, xIndex + 2, yIndex + 2;
          index := index + 1 + Descendants(xNode) + 1 + Descendants(xNext.node);
        }
      }
      if more {
        assert Round(xs, yKeys, p, look) == Some((plan, look'));
        RoundGood(xs, yKeys, p, look);
        RoundShape(xs, yKeys, p, look);
      }
    }
  }

  lemma ChildSmaller(x: VNode, n: nat)
    requires x.KeyedNode? && n < |x.pairs|
    ensures x.pairs[n].node < x
  {
    assert x.pairs[n] < x;
  }

  lemma SpanNext(x: VNode, n: nat)
    requires x.KeyedNode? && n < |x.pairs|
    ensures Span(Kids(x), n + 1) == Span(Kids(x), n) + 1 + Descendants(x.pairs[n].node)
  {
  }

  lemma TracksGood(slots: seq<Slot>, changes: map<string, nat>, inserts: seq<Insert>, ends: seq<Insert>,
                   items: seq<Patch>,
                   p: Plan, x: VNode, ys: seq<Keyed>, root: nat, tail: seq<Patch>)
    requires Tracks(slots, changes, inserts, ends, items, p, x, ys, root, tail) && p.ends == []
    ensures Scanning(p)
  {
    hide Good;
  }

  lemma EnteredIs(slots: seq<Slot>, changes: map<string, nat>, inserts: seq<Insert>, ends: seq<Insert>,
                  items: seq<Patch>,
                  p: Plan, x: VNode, ys: seq<Keyed>, root: nat, tail: seq<Patch>, key: string)
    requires Tracks(slots, changes, inserts, ends, items, p, x, ys, root, tail) && p.ends == []
    ensures Enter(p, key, false) == InsertNext(p, key) && NextNew(p, false) == p.scanned
    ensures var q := InsertNext(p, key);
      q.fates == p.fates && q.scanned == p.scanned + 1 && q.ends == [] && q.extra == p.extra
  {
    hide Good, InsertNew, SlotsAre;
    InsertGood(p, key);
  }

  lemma TailTracks(slots: seq<Slot>, changes: map<string, nat>, inserts: seq<Insert>, ends: seq<Insert>,
                   items: seq<Patch>,
                   p: Plan, x: VNode, ys: seq<Keyed>, root: nat, tail: seq<Patch>)
    requires Tracks(slots, changes, inserts, ends, items, p, x, ys, root, [])
    ensures Tracks(slots, changes, inserts, ends, items + tail, p, x, ys, root, tail)
  {
    hide Good, SlotsAre, Locals, NewKids;
  }

  lemma EmptyTracks(x: VNode, ys: seq<Keyed>, root: nat)
    requires x.KeyedNode?
    ensures Tracks([], map[], [], [], [], EMPTY, x, ys, root, [])
  {
    EmptyGood();
    hide Good, Diff, Target, Span, Segment;
  }

  lemma EmptyGood()
    ensures Good(EMPTY)
  {
    assert Kept(EMPTY.fates) == [] && Filled(EMPTY, 0) == UpTo(0);
  }

  lemma TracksIs(slots: seq<Slot>, changes: map<string, nat>, inserts: seq<Insert>, ends: seq<Insert>,
                 items: seq<Patch>,
                 p: Plan, x: VNode, ys: seq<Keyed>, root: nat, tail: seq<Patch>)
    requires Tracks(slots, changes, inserts, ends, items, p, x, ys, root, tail)
    ensures x.KeyedNode? && changes == p.changes && |slots| == |p.owners| && forall key :: key in changes ==>
      changes[key] < |slots|
  {
  }

  /** The key has been used up: try a longer one. */
  lemma RemoveLonger(slots: seq<Slot>, changes: map<string, nat>, inserts: seq<Insert>, ends: seq<Insert>,
                     items: seq<Patch>,
                     p: Plan, x: VNode, ys: seq<Keyed>, root: nat, key: string)
    requires Tracks(slots, changes, inserts, ends, items, p, x, ys, root, []) && (key in changes || Inherited(key))
    requires key in changes ==> changes[key] < |slots| && slots[changes[key]].tag != INSERT
    ensures RemoveOld(p, key) == RemoveOld(p, key + POSTFIX)
    ensures Searches(changes, key + POSTFIX) < Searches(changes, key)
  {
    if key in changes { SlotOwner(slots, p, x, ys, root, changes[key]); }
    FewerSearches(changes, key);
  }

  lemma EnterLonger(slots: seq<Slot>, changes: map<string, nat>, inserts: seq<Insert>, ends: seq<Insert>,
                    items: seq<Patch>,
                    p: Plan, x: VNode, ys: seq<Keyed>, root: nat, tail: seq<Patch>, key: string, toEnds: bool)
    requires Tracks(slots, changes, inserts, ends, items, p, x, ys, root, tail) && (key in changes || Inherited(key))
    requires key in changes ==> changes[key] < |slots| && slots[changes[key]].tag != REMOVE
    ensures Enter(p, key, toEnds) == Enter(p, key + POSTFIX, toEnds)
    ensures Searches(changes, key + POSTFIX) < Searches(changes, key)
  {
    hide InsertNew, Good, Locals, NewKids, Inherited;
    if key in changes { SlotOwner(slots, p, x, ys, root, changes[key]); }
    FewerSearches(changes, key);
    EnteredSame(p, key, key + POSTFIX, NextNew(p, toEnds), toEnds);
  }

  lemma EnteredSame(p: Plan, key: string, other: string, j: nat, atEnd: bool)
    requires InsertKey(p, key) == InsertKey(p, other)
    ensures InsertNew(p, key, j, atEnd) == InsertNew(p, other, j, atEnd)
  {
    hide InsertKey;
  }

  /** A removed old child is smaller than its parent. */
  lemma EnterSmaller(slots: seq<Slot>, changes: map<string, nat>, inserts: seq<Insert>, ends: seq<Insert>,
                     items: seq<Patch>,
                     p: Plan, x: VNode, ys: seq<Keyed>, root: nat, tail: seq<Patch>, e: nat)
    requires Tracks(slots, changes, inserts, ends, items, p, x, ys, root, tail) && e < |slots| && slots[e].tag == REMOVE
    ensures slots[e].vnode < x
  {
    SlotOwner(slots, p, x, ys, root, e);
    assert Kids(x)[p.owners[e].a] < x;
  }

  method DiffKeyedKids(x: VNode, y: VNode, patches: PatchList, root: nat, cache: Caches, ghost g: World)
    requires x.KeyedNode? && y.KeyedNode? && OldFit(x, g) && AllFit(Kids(y), g)
    modifies patches, cache
    ensures patches.items == old(patches.items) + DiffKeyed(x, y, root)
    ensures FillsTo(old(cache.entries), old(patches.items), cache.entries, patches.items, g) &&
      Tops(y) <= Pool(cache.entries, patches.items)
    decreases x, 0, 1
  {
    hide Tracks, Good, Diff, Span, Scan, Round, RemoveOld, RemoveRest, InsertRest, DiffKeyed, Descendants, Enter,
      EntriesFrom,
      Fills, FillsTo, Pool, Tops, Fed, SeenUpTo, DueTo, OldFit, Fit, Pending, PendingIn;
    ghost var xs, ys := Keys(x.pairs), Keys(y.pairs);
    ghost var h0, ps0 := cache.entries, patches.items;
    AllFed(x, y, g);
    var k := new KeyedDiff(x, y.pairs, root, cache, g);
    k.DueHasKeys();
    FillsSelf(h0, k.Due(), g);
    NothingDue(k);
    ghost var due0 := k.Due();
    var xIndex: nat, yIndex: nat, index: nat, next: Option<Keyed>, more := 0, 0, root, None, true;
    ghost var look: Option<nat> := None;
    StartScan(x, y.pairs, root);
    while more
      invariant fresh(k) && fresh(k.locals) && patches.items == ps0 && Fills(h0, due0, cache.entries, k.Due(), g)
      invariant k.InScan(x, y.pairs, root, xIndex, yIndex, index, next, look)
      invariant if more then Scan(xs, ys, k.plan, look) == Scan(xs, ys, EMPTY, None)
        else k.plan == Scan(xs, ys, EMPTY, None)
      decreases |x.pairs| - xIndex, if more then 1 else 0
    {
      ghost var p, l := k.plan, look;
      ghost var h1, due1 := cache.entries, k.Due();
      more, xIndex, yIndex, index, next, look := k.ScanOnce(x, y.pairs, root, xIndex, yIndex, index, next, look);
      FillsThen(h0, due0, h1, due1, cache.entries, k.Due(), g);
      if more { ScanRound(xs, ys, p, l); RoundProgress(xs, ys, p, l); } else { ScanEnd(xs, ys, p, l); }
    }
    ghost var scanned := k.plan;
    while xIndex < |x.pairs|
      invariant fresh(k) && fresh(k.locals) && patches.items == ps0 && Fills(h0, due0, cache.entries, k.Due(), g)
      invariant k.At(x, y.pairs, root, []) && k.plan.ends == [] && xIndex == |k.plan.fates| <= |x.pairs|
      invariant index == root + Span(Kids(x), xIndex) && yIndex == k.plan.scanned
      invariant RemoveRest(xs, k.plan) == RemoveRest(xs, scanned)
    {
      var key, node := x.pairs[xIndex].key, x.pairs[xIndex].node;
      TracksGood(k.slots, k.changes, k.inserts, k.ends, k.locals.items, k.plan, x, y.pairs, root, []);
      StepsGood(k.plan, key);
      RemoveOne(xs, k.plan);
      SpanNext(x, xIndex);
      ghost var h1, due1 := cache.entries, k.Due();
      k.RemoveNode(key, node, index + 1, x, y.pairs, root);
      FillsThen(h0, due0, h1, due1, cache.entries, k.Due(), g);
      xIndex, index := xIndex + 1, index + 1 + Descendants(node);
    }
    RemovedAll(xs, k.plan);
    ghost var removed := k.plan;
    while yIndex < |y.pairs|
      invariant fresh(k) && fresh(k.locals) && patches.items == ps0 && Fills(h0, due0, cache.entries, k.Due(), g)
      invariant k.At(x, y.pairs, root, []) && |k.plan.fates| == |x.pairs| && yIndex == k.plan.scanned + |k.plan.ends|
      invariant InsertRest(ys, k.plan) == InsertRest(ys, removed)
    {
      InsertOne(k.slots, k.changes, k.inserts, k.ends, k.locals.items, k.plan, x, y.pairs, root);
      ghost var h1, due1 := cache.entries, k.Due();
      k.InsertNode(y.pairs[yIndex].key, y.pairs[yIndex].node, None, true, x, y.pairs, root, []);
      FillsThen(h0, due0, h1, due1, cache.entries, k.Due(), g);
      yIndex := yIndex + 1;
    }
    InsertedAll(ys, k.plan);
    Finished(k.slots, k.changes, k.inserts, k.ends, k.locals.items, k.plan, x, y, root);
    KeyedSeen(k.slots, k.changes, k.inserts, k.ends, k.locals.items, k.plan, x, y, root, h0, ps0, due0,
      cache.entries, g);
    if |k.locals.items| > 0 || |k.inserts| > 0 || |k.ends| > 0 {
      patches.Push(NewPatch(root, Reorder(k.locals.items, k.inserts, k.ends, EntriesFrom(k.slots))));
    }
  }

  lemma AllFed(x: VNode, y: VNode, g: World)
    requires x.KeyedNode? && y.KeyedNode? && OldFit(x, g) && AllFit(Kids(y), g)
    ensures Fed(x, y.pairs, g)
  {
    hide OldFit, Fit;
    OldFitKids(x, g);
    forall a | 0 <= a < |x.pairs| ensures OldFit(x.pairs[a].node, g) { assert Kids(x)[a] == x.pairs[a].node; }
    forall j | 0 <= j < |y.pairs| ensures Fit(y.pairs[j].node, g) { assert Kids(y)[j] == y.pairs[j].node; }
  }

  lemma NothingDue(k: KeyedDiff)
    requires k.locals.items == [] && k.slots == []
    ensures k.Due() == k.cache.entries.Keys
  {
    assert Pending([]) == {};
  }

  /** Every entry to be inserted is in one of the two lists. */
  lemma EntriesListed(slots: seq<Slot>, changes: map<string, nat>, inserts: seq<Insert>, ends: seq<Insert>,
                      items: seq<Patch>,
                      p: Plan, x: VNode, ys: seq<Keyed>, root: nat)
    requires Tracks(slots, changes, inserts, ends, items, p, x, ys, root, [])
    ensures SlotTops(slots) <= EntryTops(inserts, EntriesFrom(slots)) + EntryTops(ends, EntriesFrom(slots))
  {
    hide Tops, Locals, NewKids, Span, Diff;
    forall o | o in SlotTops(slots)
      ensures o in EntryTops(inserts, EntriesFrom(slots)) + EntryTops(ends, EntriesFrom(slots)) {
      var e :| 0 <= e < |slots| && slots[e].tag == INSERT && o in Tops(slots[e].vnode);
      SlotOwner(slots, p, x, ys, root, e);
      var k := ListedAt(p, e);
      if p.owners[e].atEnd { assert ends[k].entry == e; } else { assert inserts[k].entry == e; }
    }
  }

  lemma ListedAt(p: Plan, e: nat) returns (k: nat)
    requires Good(p) && e < |p.owners| && p.owners[e].Inserted?
    ensures if p.owners[e].atEnd then k < |p.ends| && p.ends[k] == e else k < |p.inserts| && p.inserts[k] == e
  {
    hide Filled;
    if p.owners[e].atEnd {
      k :| 0 <= k < |p.ends| && p.ends[k] == e;
    } else {
      k :| 0 <= k < |p.inserts| && p.inserts[k] == e;
    }
  }

  /** At the end all thunks of new children are set, or in the patch that is pushed. */
  lemma KeyedSeen(slots: seq<Slot>, changes: map<string, nat>, inserts: seq<Insert>, ends: seq<Insert>,
                  items: seq<Patch>,
                  p: Plan, x: VNode, y: VNode, root: nat, h0: Heap, ps0: seq<Patch>, due0: set<int>, h: Heap, g: World)
    requires x.KeyedNode? && y.KeyedNode? && Tracks(slots, changes, inserts, ends, items, p, x, y.pairs, root, [])
    requires SeenUpTo(y.pairs, NextNew(p, true), DueTo(h, items, slots)) && NextNew(p, true) >= |y.pairs|
    requires Fills(h0, due0, h, DueTo(h, items, slots), g)
    ensures var ps := ps0 + if |items| > 0 || |inserts| > 0 || |ends| > 0
      then [NewPatch(root, Reorder(items, inserts, ends, EntriesFrom(slots)))] else [];
      FillsTo(h0, ps0, h, ps, g) && Tops(y) <= Pool(h, ps)
  {
    hide Tracks, Fills, Tops, Fed, SeenUpTo, Pending, SlotTops, EntriesFrom;
    EntriesListed(slots, changes, inserts, ends, items, p, x, y.pairs, root);
    var due := DueTo(h, items, slots);
    FillsKeys(h0, due0, h, due, g);
    AllSeenTo(y, NextNew(p, true), due);
    if |items| > 0 || |inserts| > 0 || |ends| > 0 {
      var q := NewPatch(root, Reorder(items, inserts, ends, EntriesFrom(slots)));
      PoolPush(h, ps0, q);
      ReorderIs(root, items, inserts, ends, EntriesFrom(slots));
      hide PendingIn;
      FillsWiden(h0, due0, h, due, Pool(h0, ps0), Pool(h, ps0 + [q]), g);
    } else {
      NoEntries(EntriesFrom(slots));
      assert ps0 + [] == ps0;
      FillsWiden(h0, due0, h, due, Pool(h0, ps0), Pool(h, ps0), g);
    }
  }

  lemma ReorderIs(root: nat, items: seq<Patch>, inserts: seq<Insert>, ends: seq<Insert>, entries: seq<Entry>)
    ensures PendingIn(NewPatch(root, Reorder(items, inserts, ends, entries))) == Pending(items) +
      EntryTops(inserts, entries) + EntryTops(ends, entries)
  {
  }

  lemma NoEntries(entries: seq<Entry>)
    ensures EntryTops([], entries) == {} && Pending([]) == {}
  {
  }

  lemma AllSeenTo(y: VNode, n: nat, pool: set<int>)
    requires y.KeyedNode? && SeenUpTo(y.pairs, n, pool) && n >= |y.pairs|
    ensures Tops(y) <= pool
  {
    hide Tops;
    forall i | 0 <= i < |Kids(y)| ensures Tops(Kids(y)[i]) <= pool { assert Kids(y)[i] == y.pairs[i].node; }
    TopsKids(y, pool);
  }

  lemma RemoveOne(xs: seq<string>, p: Plan)
    requires |p.fates| < |xs|
    ensures RemoveRest(xs, p) == RemoveRest(xs, RemoveOld(p, xs[|p.fates|]))
  {
    hide RemoveOld;
  }

  lemma RemovedAll(xs: seq<string>, p: Plan)
    requires |p.fates| >= |xs|
    ensures RemoveRest(xs, p) == p
  {
  }

  lemma InsertOne(slots: seq<Slot>, changes: map<string, nat>, inserts: seq<Insert>, ends: seq<Insert>,
                  items: seq<Patch>,
                  p: Plan, x: VNode, ys: seq<Keyed>, root: nat)
    requires Tracks(slots, changes, inserts, ends, items, p, x, ys, root, []) && NextNew(p, true) < |ys|
    ensures var q := Enter(p, ys[NextNew(p, true)].key, true);
      && InsertRest(Keys(ys), p) == InsertRest(Keys(ys), q)
      && |q.ends| == |p.ends| + 1 && q.fates == p.fates && q.scanned == p.scanned && q.extra == p.extra
  {
    hide Good, InsertNew, SlotsAre, Locals, NewKids;
    InsertEndGood(p, ys[NextNew(p, true)].key);
  }

  lemma InsertedAll(ys: seq<string>, p: Plan)
    requires p.scanned + |p.ends| >= |ys|
    ensures InsertRest(ys, p) == p
  {
  }

  /** The finished state is what the plan of the two lists says. */
  lemma Finished(slots: seq<Slot>, changes: map<string, nat>, inserts: seq<Insert>, ends: seq<Insert>,
                 items: seq<Patch>,
                 p: Plan, x: VNode, y: VNode, root: nat)
    requires x.KeyedNode? && y.KeyedNode? && Tracks(slots, changes, inserts, ends, items, p, x, y.pairs, root, [])
    requires p == PlanOf(x.pairs, y.pairs) && |p.fates| == |x.pairs|
    ensures DiffKeyed(x, y, root) ==
      if |items| > 0 || |inserts| > 0 || |ends| > 0
        then [NewPatch(root, Reorder(items, inserts, ends, EntriesFrom(slots)))] else []
  {
    hide Good, Locals, NewKids, PlanOf;
    var news := NewKids(p, y.pairs);
    forall e | 0 <= e < |slots| ensures EntryFrom(slots[e]) == EntryOf(p.owners[e], x.pairs, news) {
      assert SlotIs(slots[e], p.owners[e], x, news, p, root);
    }
    assert EntriesFrom(slots) == EntriesOf(p, x.pairs, news);
    assert items == Locals(x, news, p, root, |x.pairs|);
  }

  lemma StartScan(x: VNode, ys: seq<Keyed>, root: nat)
    requires x.KeyedNode?
    ensures Within(Keys(x.pairs), Keys(ys), EMPTY, None) && Span(Kids(x), 0) == 0
  {
    EmptyGood();
    hide Good;
  }

  lemma ScanRound(xs: seq<string>, ys: seq<string>, p: Plan, look: Option<nat>)
    requires Round(xs, ys, p, look).Some?
    ensures var (q, l) := Round(xs, ys, p, look).value; Scan(xs, ys, p, look) == Scan(xs, ys, q, l)
  {
    hide Round;
  }

  lemma ScanEnd(xs: seq<string>, ys: seq<string>, p: Plan, look: Option<nat>)
    requires Round(xs, ys, p, look) == None
    ensures Scan(xs, ys, p, look) == p
  {
    hide Round;
  }
}
