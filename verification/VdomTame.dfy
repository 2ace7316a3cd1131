/** Views that can be patched into each other in any order: rules for one view at a time under which
    every pair of views is sound, and what they give for whole runs. */
module VdomTame {
  import VdomNamespaces
  import opened VdomObjects
  import opened VdomFacts
  import opened VdomNodes
  import opened VdomKeyedPlan
  import opened VdomKeyedMatch
  import opened VdomDiff
  import opened VdomDocument
  import opened VdomPatching
  import opened VdomSteps
  import opened VdomSound
  import opened VdomReorderLocals
  import opened VdomCaches
  import opened VdomViews

  /** The rules of a program: the namespace of each attribute name, the attributes with a prefix that
      elements with a tag always have, the kind of root of a lazy child with a key below a tag, and
      the kind of root of the view when that is lazy. */
  datatype Rules = Rules(
    names: string -> string,
    prefixed: string -> set<string>,
    kinds: (string, string) -> Shape,
    root: Shape)

  predicate HasName(attrs: seq<VdomNamespaces.NsAttr>, key: string) {
    exists i :: 0 <= i < |attrs| && attrs[i].key == key
  }

  /** No name is one that objects inherit. */
  ghost predicate FactsPlain(f: Facts) {
    forall key :: Inherited(key) ==>
      key !in f.props && key !in f.styles && key !in f.attrs && !HasName(f.attrsNS, key)
  }

  ghost predicate KeysPlain(keys: seq<string>) {
    forall i :: 0 <= i < |keys| ==> !Inherited(keys[i])
  }

  ghost predicate FactsTame(tag: string, f: Facts, rules: Rules) {
    && FactsPlain(f)
    && (forall i :: 0 <= i < |f.attrsNS| ==> f.attrsNS[i].ns == rules.names(f.attrsNS[i].key))
    && forall key :: VdomNamespaces.Prefixed(key) ==> (HasName(f.attrsNS, key) <==> key in rules.prefixed(tag))
  }

  ghost predicate ChildTame(tag: string, k: Keyed, rules: Rules) {
    Lazy(k.node) ==> RootShape(k.node) == rules.kinds(tag, k.key)
  }

  /** The view keeps the rules, and keys are distinct among siblings, and none is an inherited name. */
  ghost predicate Tame(v: VNode, rules: Rules)
    decreases v
  {
    match v
    case Text(_, _) => true
    case Node(_, tag, _, facts, kids, _) => FactsTame(tag, facts, rules) && forall i :: 0 <= i < |kids| ==>
      Tame(kids[i], rules)
    case KeyedNode(_, tag, _, facts, pairs, _) =>
      && FactsTame(tag, facts, rules) && Distinct(Keys(pairs)) && KeysPlain(Keys(pairs))
      && forall i :: 0 <= i < |pairs| ==> Tame(pairs[i].node, rules) && ChildTame(tag, pairs[i], rules)
    case Tagger(_, _, node, _) => Tame(node, rules)
    case Thunk(_, _, node, _) => Tame(node, rules)
  }

  ghost predicate TameView(v: VNode, rules: Rules) {
    Tame(v, rules) && (Lazy(v) ==> RootShape(v) == rules.root)
  }

  lemma TameKids(v: VNode, rules: Rules)
    requires Tame(v, rules) && (v.Node? || v.KeyedNode?)
    ensures FactsTame(v.tag, v.facts, rules)
    ensures forall j :: 0 <= j < |Kids(v)| ==> Tame(Kids(v)[j], rules)
    ensures v.KeyedNode? ==>
      Distinct(Keys(v.pairs)) && KeysPlain(Keys(v.pairs)) && forall j :: 0 <= j < |v.pairs| ==>
        ChildTame(v.tag, v.pairs[j], rules)
  {
  }

  lemma {:induction false} TameBelow(v: VNode, rules: Rules)
    requires Tame(v, rules)
    ensures Tame(Below(v), rules)
    decreases v
  {
    if v.Tagger? { TameBelow(v.node, rules); }
  }

  // ----- attributes -----

  /** Under the rules, names are kept. */
  lemma NamesTame(tag: string, x: Facts, y: Facts, rules: Rules)
    requires FactsTame(tag, x, rules) && FactsTame(tag, y, rules)
    ensures FactsKept(x, y)
  {
    hide Inherited;
    var xs, ys := x.attrsNS, y.attrsNS;
    forall l | 0 <= l < |ys| ensures !VdomNamespaces.Skipped(xs, ys, l) { assert HasName(ys, ys[l].key); }
    forall i | 0 <= i < |xs| ensures VdomNamespaces.GoesWell(xs, ys, i) { NameTame(tag, x, y, rules, i); }
    forall i, j | 0 <= i < |xs| && 0 <= j < |xs| ensures !VdomNamespaces.Undone(xs, ys, i, j) {
      NotUndone(tag, x, y, rules, i, j);
    }
  }

  lemma NameTame(tag: string, x: Facts, y: Facts, rules: Rules, i: nat)
    requires FactsTame(tag, x, rules) && FactsTame(tag, y, rules) && i < |x.attrsNS|
    ensures VdomNamespaces.GoesWell(x.attrsNS, y.attrsNS, i)
  {
    hide Inherited;
    var key := x.attrsNS[i].key;
    assert HasName(x.attrsNS, key);
    var l := VdomNamespaces.Find(y.attrsNS, key);
    if l.Some? {
      assert VdomNamespaces.Name(y.attrsNS[l.value]) == VdomNamespaces.Name(x.attrsNS[i]);
    } else {
      assert !HasName(y.attrsNS, key);
    }
  }

  lemma NotUndone(tag: string, x: Facts, y: Facts, rules: Rules, i: nat, j: nat)
    requires FactsTame(tag, x, rules) && FactsTame(tag, y, rules) && i < |x.attrsNS| && j < |x.attrsNS|
    ensures !VdomNamespaces.Undone(x.attrsNS, y.attrsNS, i, j)
  {
    hide Inherited;
    var key := x.attrsNS[j].key;
    assert HasName(x.attrsNS, key);
    if VdomNamespaces.Find(y.attrsNS, key).None? { assert !HasName(y.attrsNS, key) && !VdomNamespaces.Prefixed(key); }
  }

  // ----- roots -----

  /** Between nodes with one kind of root nothing is redrawn at the root, so that no root is lost. */
  lemma {:induction false} SameShape(x: VNode, y: VNode)
    requires RootShape(x) == RootShape(y)
    ensures !Replaces(x, y) && !Lost(x, y)
    decreases x
  {
    match (x, y)
    case (Thunk(_, _, _, _), Thunk(_, _, _, _)) => SameShape(x.node, y.node);
    case (Tagger(_, _, _, _), Tagger(_, _, _, _)) => SameShape(Below(x), Below(y));
    case _ =>
  }

  lemma {:induction false} LostLazy(v: VNode, w: VNode)
    requires Lost(v, w)
    ensures Lazy(v) && Lazy(w)
    decreases v
  {
    if v.Tagger? && w.Tagger? { LostLazy(Below(v), Below(w)); }
  }

  /** Nodes of one kind of root if lazy. */
  lemma NotLost(x: VNode, y: VNode, shape: Shape)
    requires (Lazy(x) ==> RootShape(x) == shape) && (Lazy(y) ==> RootShape(y) == shape)
    ensures !Lost(x, y)
  {
    if Lost(x, y) {
      LostLazy(x, y);
      SameShape(x, y);
    }
  }

  // ----- soundness -----

  lemma {:induction false} TameSound(x: VNode, y: VNode, rules: Rules)
    requires Tame(x, rules) && Tame(y, rules)
    ensures Sound(x, y)
    decreases x, 1
  {
    match (x, y)
    case (Thunk(_, _, _, _), Thunk(_, _, _, _)) => if x.refs != y.refs { TameSound(x.node, y.node, rules); }
    case (Tagger(_, _, _, _), Tagger(_, _, _, _)) =>
      TameBelow(x, rules);
      TameBelow(y, rules);
      TameSound(Below(x), Below(y), rules);
    case (Node(_, _, _, _, _, _), Node(_, _, _, _, _, _)) => TameElements(x, y, rules);
    case (Node(_, _, _, _, _, _), KeyedNode(_, _, _, _, _, _)) => TameElements(x, y, rules);
    case (KeyedNode(_, _, _, _, _, _), KeyedNode(_, _, _, _, _, _)) => TameKeyed(x, y, rules);
    case _ =>
  }

  lemma {:induction false} TameElements(x: VNode, y: VNode, rules: Rules)
    requires Tame(x, rules) && Tame(y, rules) && x.Node? && (y.Node? || y.KeyedNode?)
    ensures SoundElements(x, if y.Node? then y else Dekey(y, y.obj))
    decreases x, 0
  {
    TameKids(x, rules);
    TameKids(y, rules);
    hide Tame, FactsTame, FactsKept;
    forall j | 0 <= j < |x.kids| && j < |Kids(y)| ensures Sound(x.kids[j], Kids(y)[j]) {
      TameSound(Kids(x)[j], Kids(y)[j], rules);
    }
    hide Sound;
    if x.tag == y.tag { NamesTame(x.tag, x.facts, y.facts, rules); }
  }

  lemma {:induction false} TameKeyed(x: VNode, y: VNode, rules: Rules)
    requires Tame(x, rules) && Tame(y, rules) && x.KeyedNode? && y.KeyedNode?
    ensures SoundElements(x, y)
    decreases x, 0
  {
    TameKids(x, rules);
    TameKids(y, rules);
    hide Tame, Good, MakePlan, FactsTame, FactsKept, ChildTame, Target;
    if x.tag == y.tag {
      NamesTame(x.tag, x.facts, y.facts, rules);
      DistinctOldKeys(Keys(x.pairs), Keys(y.pairs));
      var p := PlanOf(x.pairs, y.pairs);
      var news := NewKids(p, y.pairs);
      PlanFacts(x.pairs, y.pairs);
      assert news == Kids(y);
      PlainUnmixed(Keys(x.pairs), Keys(y.pairs));
      hide NewKids;
      forall a | 0 <= a < |x.pairs| && Target(p, a).Some? && Target(p, a).value < |news|
        ensures SoundChild(p, a, x.pairs[a].node, news[Target(p, a).value])
      {
        TargetKey(Keys(x.pairs), Keys(y.pairs), a);
        var j := Target(p, a).value;
        TameSound(Kids(x)[a], news[j], rules);
        KeyedNotLost(x, y, a, j, rules);
      }
      hide SoundChild;
    }
  }

  lemma PlainUnmixed(xs: seq<string>, ys: seq<string>)
    requires KeysPlain(xs) && KeysPlain(ys)
    ensures Unmixed(xs, ys)
  {
    hide Inherited;
  }

  lemma KeyedNotLost(x: VNode, y: VNode, a: nat, j: nat, rules: Rules)
    requires x.KeyedNode? && y.KeyedNode? && x.tag == y.tag && a < |x.pairs| && j < |y.pairs| &&
      x.pairs[a].key == y.pairs[j].key
    requires ChildTame(x.tag, x.pairs[a], rules) && ChildTame(y.tag, y.pairs[j], rules)
    ensures !Lost(x.pairs[a].node, y.pairs[j].node)
  {
    NotLost(x.pairs[a].node, y.pairs[j].node, rules.kinds(x.tag, x.pairs[a].key));
  }

  // ----- runs -----

  ghost predicate PairsTame(pairs: set<(seq<int>, VNode)>, rules: Rules) {
    forall o :: o in pairs ==> Tame(o.1, rules)
  }

  lemma {:induction false} TamePairs(v: VNode, rules: Rules)
    requires Tame(v, rules)
    ensures PairsTame(Pairs(v), rules)
    decreases v
  {
    match v
    case Text(_, _) =>
    case Tagger(_, _, node, _) => TamePairs(node, rules);
    case Thunk(_, _, node, _) => TamePairs(node, rules);
    case _ =>
      TameKids(v, rules);
      forall o | o in Pairs(v) ensures Tame(o.1, rules) {
        var i: nat :| i < |Kids(v)| && o in Pairs(Kids(v)[i]);
        TamePairs(Kids(v)[i], rules);
      }
  }

  /** What has been filled in from tame views is tame. */
  lemma {:induction false} TameResolved(v: VNode, h: Heap, g: World, rules: Rules, objects: int -> Known,
                                        calls: seq<int> -> Call)
    requires Closed(h, g) && Fit(v, g) && Tops(v) <= h.Keys && Proper(v, objects, calls) &&
      PairsGood(g.pairs, objects, calls)
    requires Tame(v, rules) && PairsTame(g.pairs, rules)
    ensures Tame(Resolve(v, h), rules)
    decreases v
  {
    hide Proper, PairsGood, EntryOk, ChildTame, FactsTame;
    match v
    case Text(_, _) =>
    case Tagger(_, _, node, _) => ProperBelow(v, objects, calls); TameResolved(node, h, g, rules, objects, calls);
    case Thunk(obj, refs, node, _) =>
      ProperBelow(v, objects, calls);
      if obj in h {
        EntryIs(h, g, v);
        if h[obj].Own? { TameResolved(node, h, g, rules, objects, calls); }
      }
    case _ =>
      FitKids(v, g);
      ProperKids(v, objects, calls);
      TameKids(v, rules);
      var w := Resolve(v, h);
      forall i | 0 <= i < |Kids(v)| ensures Tame(Kids(w)[i], rules) && Same(Kids(v)[i], Kids(w)[i]) {
        TopsOfKid(v, i);
        TameResolved(Kids(v)[i], h, g, rules, objects, calls);
        ResolveGood(Kids(v)[i], h, g, objects, calls);
      }
      hide Tame;
      TameRekid(v, w, rules);
  }

  lemma ProperBelow(v: VNode, objects: int -> Known, calls: seq<int> -> Call)
    requires (v.Tagger? || v.Thunk?) && Proper(v, objects, calls)
    ensures Proper(v.node, objects, calls)
  {
  }

  lemma EntryIs(h: Heap, g: World, v: VNode)
    requires Closed(h, g) && v.Thunk? && g.table(v.obj) == v && v.obj in h
    ensures if h[v.obj].Own? then Tops(v.node) <= h.Keys else (v.refs, h[v.obj].node) in g.pairs
  {
    assert EntryOk(v.obj, h[v.obj], h.Keys, g);
  }

  lemma TameRekid(v: VNode, w: VNode, rules: Rules)
    requires (v.Node? && w.Node?) || (v.KeyedNode? && w.KeyedNode?)
    requires Tame(v, rules) && w.tag == v.tag && w.facts == v.facts && (v.KeyedNode? ==> Keys(w.pairs) == Keys(v.pairs))
    requires |Kids(w)| == |Kids(v)| && forall i :: 0 <= i < |Kids(v)| ==>
      Tame(Kids(w)[i], rules) && Same(Kids(v)[i], Kids(w)[i])
    ensures Tame(w, rules)
  {
    hide Same, ChildTame;
    TameKids(v, rules);
    if w.KeyedNode? {
      forall i | 0 <= i < |w.pairs| ensures Tame(w.pairs[i].node, rules) && ChildTame(w.tag, w.pairs[i], rules) {
        assert Kids(w)[i] == w.pairs[i].node && Kids(v)[i] == v.pairs[i].node && Keys(w.pairs)[i] == Keys(v.pairs)[i];
        ChildSame(v.tag, v.pairs[i], w.pairs[i], rules);
      }
    } else {
      forall i | 0 <= i < |w.kids| ensures Tame(w.kids[i], rules) { assert Kids(w)[i] == w.kids[i]; }
    }
  }

  lemma ChildSame(tag: string, k: Keyed, l: Keyed, rules: Rules)
    requires ChildTame(tag, k, rules) && l.key == k.key && Same(k.node, l.node)
    ensures ChildTame(tag, l, rules)
  {
    hide Draw;
  }

  lemma NextTame(s: Frame, y: VNode, table: int -> VNode, s': Frame, rules: Rules, objects: int -> Known,
                 calls: seq<int> -> Call)
    requires Tame(s.view, rules) && Tame(y, rules) && AllCached(s.view) && Proper(s.view, objects, calls) &&
      Proper(y, objects, calls)
    requires Built(s.view, y, table) && NextFrame(s, y, table, s')
    ensures Tame(s'.view, rules)
  {
    hide Proper, AllCached, PatchDocument, Resolve, Closed, Tops, Stated, Whole, Pairs, Tame, Holds, PairsGood,
      PairsTame;
    var h :| Leaves(WorldOf(s.view, table), y, h) && s'.view == Resolve(y, h);
    OldPairs(s.view, objects, calls);
    TamePairs(s.view, rules);
    TameResolved(y, h, WorldOf(s.view, table), rules, objects, calls);
  }

  lemma FirstTame(d: Doc, v: VNode, table: int -> VNode, s: Frame, rules: Rules, objects: int -> Known,
                  calls: seq<int> -> Call)
    requires Tame(v, rules) && Proper(v, objects, calls) && Stated(v, table) && Whole(v) && FirstFrame(d, v, table, s)
    ensures Tame(s.view, rules)
  {
    hide Proper, Render, Resolve, Closed, Tops, Stated, Whole, Tame;
    var h :| Leaves(World(table, {}), v, h) && s == Frame(Render(d, v).0, Render(d, v).1, Resolve(v, h));
    TameResolved(v, h, World(table, {}), rules, objects, calls);
  }

  /** When all views keep one set of rules, every frame of every run shows its view. */
  lemma {:induction false} TameRun(d: Doc, ss: seq<Frame>, ys: seq<VNode>, tables: seq<int -> VNode>, n: nat,
                                   rules: Rules,
                                   objects: int -> Known, calls: seq<int> -> Call)
    requires Valid(d) && Run(d, ss, ys, tables) && n < |ss|
    requires forall i :: 0 <= i < |ys| ==> Proper(ys[i], objects, calls) && TameView(ys[i], rules)
    ensures Shows(ss[n], ys[n], objects, calls) && Tame(ss[n].view, rules)
  {
    hide Proper, NextFrame, FirstFrame, Sound, Lost, Tame, AllCached, See, Draw, Rooted, Lazy, RootShape, Shows,
      Built, Stated, Whole;
    assert TameView(ys[n], rules);
    if n == 0 {
      FirstShows(d, ys[0], tables[0], ss[0], objects, calls);
      FirstTame(d, ys[0], tables[0], ss[0], rules, objects, calls);
    } else {
      TameRun(d, ss, ys, tables, n - 1, rules, objects, calls);
      var s, y := ss[n - 1], ys[n];
      TameSound(s.view, y, rules);
      assert TameView(ys[n - 1], rules);
      ShownLike(s, ys[n - 1], objects, calls);
      NotLost(s.view, y, rules.root);
      NextShows(s, ys[n - 1], y, tables[n], ss[n], objects, calls);
      NextTame(s, y, tables[n], ss[n], rules, objects, calls);
    }
  }

  lemma ShownLike(s: Frame, v: VNode, objects: int -> Known, calls: seq<int> -> Call)
    requires Shows(s, v, objects, calls)
    ensures Lazy(s.view) == Lazy(v) && RootShape(s.view) == RootShape(v) && AllCached(s.view) &&
      Proper(s.view, objects, calls)
  {
    hide Draw, See, Rooted;
  }
}
