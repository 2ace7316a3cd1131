/** Pairs of views that patching gets wrong, one for each way: well-formed views, a page that shows the
    first, and what is there after patching to the second. */
module VdomCounterexamples {
  import opened Wrappers
  import opened VdomObjects
  import opened VdomFacts
  import opened VdomNodes
  import opened VdomKeyedPlan
  import opened VdomDiff
  import opened VdomDocument
  import opened VdomPatching
  import opened VdomSteps
  import opened VdomRendering
  import opened VdomActions
  import opened VdomNumbering
  import opened VdomSound
  import opened VdomTurns
  import opened VdomCaches
  import opened VdomViews

  /** On a page where t shows x, patching to y puts a tree u in its place that does not show y. */
  ghost predicate Breaks(x: VNode, y: VNode, d: Doc, t: Tree, u: Tree) {
    && Rooted(d, t) && See(t) == Draw(x) && Step(d, t, PatchDocument(d, t, x, y).0, u) && See(u) != Draw(y)
  }

  /** A page with v on it. */
  lemma PageWith(v: VNode, facts: Facts) returns (d: Doc, t: Tree)
    ensures Rooted(d, t) && See(t) == Draw(v) && t.ref in d.parent
  {
    var body := Node(0, "body", None, facts, [v], 1 + Descendants(v));
    var d0 := Doc(map[], map[], 0);
    var page := RenderDraws(d0, body);
    d := Render(d0, body).0;
    BodyKid(v, body, page);
    t := page.kids[0];
    assert Placed(d, page.ref, t);
    hide Draw, See, Render;
    KidRooted(d, page, 0);
  }

  lemma BodyKid(v: VNode, body: VNode, page: Tree)
    requires body.Node? && body.kids == [v] && See(page) == Draw(body)
    ensures page.ElementTree? && |page.kids| == 1 && See(page.kids[0]) == Draw(v)
  {
    DrawKids(body);
    assert Kids(body)[0] == v;
    assert See(page).kids[0] == See(page.kids[0]);
  }

  lemma Broken(x: VNode, y: VNode, facts: Facts, objects: int -> Known, calls: seq<int> -> Call)
    returns (d: Doc, t: Tree, u: Tree)
    requires AllCached(x) && Proper(x, objects, calls) && Proper(y, objects, calls) && !Sound(x, y)
    ensures Breaks(x, y, d, t, u)
  {
    hide AllCached, Proper, Sound, See, Draw, Step, PatchDocument, Rooted;
    d, t := PageWith(x, facts);
    u := PatchShows(d, t, x, y, objects, calls);
  }

  // ----- lists of items -----

  function ListOf(obj: int, items: seq<Keyed>, facts: Facts): VNode {
    KeyedNode(obj, "ul", None, facts, items, |items|)
  }

  ghost predicate AllLeaves(items: seq<Keyed>, objects: int -> Known, calls: seq<int> -> Call) {
    forall i :: 0 <= i < |items| ==>
      Descendants(items[i].node) == 0 && AllCached(items[i].node) && Proper(items[i].node, objects, calls)
  }

  lemma {:induction false} LeafSpan(vs: seq<VNode>, n: nat)
    requires n <= |vs| && forall i :: 0 <= i < |vs| ==> Descendants(vs[i]) == 0
    ensures Span(vs, n) == n
  {
    if n > 0 { LeafSpan(vs, n - 1); }
  }

  lemma ListProper(obj: int, items: seq<Keyed>, facts: Facts, objects: int -> Known, calls: seq<int> -> Call)
    requires AllLeaves(items, objects, calls) && objects(obj) == Known(Draw(ListOf(obj, items, facts)), |items|, false)
    ensures var v := ListOf(obj, items, facts); Proper(v, objects, calls) && AllCached(v)
  {
    hide Draw;
    LeafSpan(Unkeyed(items), |items|);
  }

  // ----- a repeated old key -----

  const OLD_KEYS := ["A", "Q", "C", "Q"]
  const NEW_KEYS := ["P", "Q", "R"]

  /** The second round compares the fourth old key with the new key that the first round looked at. */
  lemma StalePlan()
    ensures MakePlan(OLD_KEYS, NEW_KEYS).extra == Some(1)
  {
    hide Good, InsertNew, RemoveOld, KeepNext, InsertNext, RemoveRest, Scan, Round;
    var p1 := FirstRound();
    StaleRound(p1);
    var p2 := Round(OLD_KEYS, NEW_KEYS, p1, Some(1)).value.0;
    LastRound(p1, p2);
    InsertRestGood(NEW_KEYS, p2);
  }

  lemma EmptyScanning()
    ensures Scanning(EMPTY)
  {
    assert Kept(EMPTY.fates) == [] && Filled(EMPTY, 0) == UpTo(0);
  }

  lemma FirstRound() returns (p: Plan)
    ensures Round(OLD_KEYS, NEW_KEYS, EMPTY, None) == Some((p, Some(1)))
    ensures Scanning(p) && |p.fates| == 2 && p.scanned == 2
  {
    hide Scanning, InsertNew, RemoveOld, KeepNext, InsertNext;
    EmptyScanning();
    StepsGood(EMPTY, "A");
    StepsGood(RemoveOld(EMPTY, "A"), "P");
    StepsGood(InsertNext(RemoveOld(EMPTY, "A"), "P"), "A");
    p := KeepNext(InsertNext(RemoveOld(EMPTY, "A"), "P"));
  }

  lemma LastRound(p1: Plan, p2: Plan)
    requires Round(OLD_KEYS, NEW_KEYS, EMPTY, None) == Some((p1, Some(1)))
    requires Round(OLD_KEYS, NEW_KEYS, p1, Some(1)) == Some((p2, Round(OLD_KEYS, NEW_KEYS, p1, Some(1)).value.1))
    requires |p2.fates| == 4
    ensures RemoveRest(OLD_KEYS, Scan(OLD_KEYS, NEW_KEYS, EMPTY, None)) == p2
  {
    var l := Round(OLD_KEYS, NEW_KEYS, p1, Some(1)).value.1;
    assert Round(OLD_KEYS, NEW_KEYS, p2, l) == None;
    hide Round;
    assert Scan(OLD_KEYS, NEW_KEYS, p2, l) == p2;
    assert Scan(OLD_KEYS, NEW_KEYS, p1, Some(1)) == p2;
    assert Scan(OLD_KEYS, NEW_KEYS, EMPTY, None) == p2;
  }

  lemma StaleRound(p: Plan)
    requires Scanning(p) && |p.fates| == 2 && p.scanned == 2
    ensures Round(OLD_KEYS, NEW_KEYS, p, Some(1)).Some?
    ensures var q := Round(OLD_KEYS, NEW_KEYS, p, Some(1)).value;
      Good(q.0) && q.0.extra == Some(1) && |q.0.fates| == 4 && q.0.scanned == 4 && q.0.ends == []
  {
    hide Good, InsertNew, RemoveOld;
    StepsGood(p, "C");
    StepsGood(RemoveOld(p, "C"), "R");
    StepsGood(InsertNext(RemoveOld(p, "C"), "R"), "R");
    ExtraGood(KeepNext(InsertNext(RemoveOld(p, "C"), "R")), Some(1));
  }

  function OldItems(): seq<Keyed> {
    [Keyed("A", Text(11, "a")), Keyed("Q", Text(12, "q")), Keyed("C", Text(13, "c")), Keyed("Q", Text(14, "q"))]
  }

  function NewItems(): seq<Keyed> {
    [Keyed("P", Text(21, "p")), Keyed("Q", Text(22, "q")), Keyed("R", Text(23, "r"))]
  }

  /** What the nodes of the two lists are. */
  ghost function StaleObjects(facts: Facts): int -> Known {
    o =>
      if o == 10 then Known(Draw(ListOf(10, OldItems(), facts)), 4, false)
      else if o == 20 then Known(Draw(ListOf(20, NewItems(), facts)), 3, false)
      else Known(TextPicture(
        if o == 11 then "a" else if o == 12 || o == 14 || o == 22 then "q" else if o == 13 then "c" else if o == 21
          then "p" else "r"), 0, false)
  }

  lemma StaleProper(facts: Facts, calls: seq<int> -> Call)
    ensures var x, y, objects := ListOf(10, OldItems(), facts), ListOf(20, NewItems(), facts), StaleObjects(facts);
      AllCached(x) && Proper(x, objects, calls) && Proper(y, objects, calls)
  {
    var objects := StaleObjects(facts);
    ItemsProper(facts, calls);
    hide Draw, AllLeaves;
    ListProper(10, OldItems(), facts, objects, calls);
    ListProper(20, NewItems(), facts, objects, calls);
  }

  lemma ItemsProper(facts: Facts, calls: seq<int> -> Call)
    ensures AllLeaves(OldItems(), StaleObjects(facts), calls) && AllLeaves(NewItems(), StaleObjects(facts), calls)
  {
    hide ListOf;
  }

  lemma StaleUnsound(x: VNode, y: VNode)
    requires x.KeyedNode? && y.KeyedNode? && x.obj != y.obj && x.tag == y.tag && x.ns == y.ns
    requires Keys(x.pairs) == OLD_KEYS && Keys(y.pairs) == NEW_KEYS
    ensures !Sound(x, y)
  {
    StalePlan();
    hide MakePlan;
  }

  /** The second Q is kept for the Q of the new list, which the first has been kept for: patching
      leaves one child too many. */
  lemma StaleLookAhead(facts: Facts, calls: seq<int> -> Call) returns (d: Doc, t: Tree, u: Tree)
    ensures Breaks(ListOf(10, OldItems(), facts), ListOf(20, NewItems(), facts), d, t, u)
  {
    var x, y := ListOf(10, OldItems(), facts), ListOf(20, NewItems(), facts);
    hide Sound, Proper, AllCached, MakePlan, Breaks;
    assert Keys(x.pairs) == OLD_KEYS && Keys(y.pairs) == NEW_KEYS;
    StaleUnsound(x, y);
    StaleProper(facts, calls);
    d, t, u := Broken(x, y, facts, StaleObjects(facts), calls);
  }

  // ----- names -----

  function Element(obj: int, facts: Facts): VNode {
    Node(obj, "use", None, facts, [], 0)
  }

  ghost function ElementObjects(x: VNode, y: VNode): int -> Known {
    o => Known(if o == x.obj then Draw(x) else Draw(y), 0, false)
  }

  lemma ElementProper(a: Facts, b: Facts, calls: seq<int> -> Call)
    ensures var x, y := Element(1, a), Element(2, b);
      AllCached(x) && Proper(x, ElementObjects(x, y), calls) && Proper(y, ElementObjects(x, y), calls)
  {
    hide Draw;
  }

  /** Two elements whose names are not kept. */
  lemma NamesLost(a: Facts, b: Facts, facts: Facts, calls: seq<int> -> Call) returns (d: Doc, t: Tree, u: Tree)
    requires !FactsKept(a, b)
    ensures Breaks(Element(1, a), Element(2, b), d, t, u)
  {
    var x, y := Element(1, a), Element(2, b);
    hide FactsKept;
    assert !Sound(x, y);
    ElementProper(a, b, calls);
    hide Sound, Proper, AllCached, Breaks;
    d, t, u := Broken(x, y, facts, ElementObjects(x, y), calls);
  }

  function WithAttr(facts: Facts, key: string, value: string): Facts {
    facts.(attrs := facts.attrs[key := value])
  }

  /** An attribute with an inherited name, constructor say, that a view adds to others: it does not come. */
  lemma InheritedAdded(key: string, value: string, rest: Facts, facts: Facts, calls: seq<int> -> Call)
    returns (d: Doc, t: Tree, u: Tree)
    requires Inherited(key) && key != "__proto__" && key !in rest.attrs && rest.attrs != map[]
    ensures Breaks(Element(1, rest), Element(2, WithAttr(rest, key, value)), d, t, u)
  {
    hide Inherited, Breaks, Element, PropsKept, StylesKept;
    d, t, u := NamesLost(rest, WithAttr(rest, key, value), facts, calls);
  }

  /** One that a view leaves out: it does not go. */
  lemma InheritedRemoved(key: string, value: string, rest: Facts, facts: Facts, calls: seq<int> -> Call)
    returns (d: Doc, t: Tree, u: Tree)
    requires Inherited(key) && key != "__proto__" && key !in rest.attrs
    ensures Breaks(Element(1, WithAttr(rest, key, value)), Element(2, rest), d, t, u)
  {
    hide Inherited, Breaks, Element, PropsKept, StylesKept;
    d, t, u := NamesLost(WithAttr(rest, key, value), rest, facts, calls);
  }

  /** A key that is an inherited name is entered under another key: an old child turns into a new one that
      does not have its key. */
  lemma InheritedKey(key: string)
    requires Inherited(key)
    ensures Target(MakePlan([key], [key + POSTFIX]), 0) == Some(0)
  {
    hide Inherited;
    EndsOtherwise(key + POSTFIX);
    var xs, ys := [key], [key + POSTFIX];
    assert Scan(xs, ys, EMPTY, None) == EMPTY;
    assert RemoveKey(EMPTY, key) == key + POSTFIX;
    var p := RemoveOld(EMPTY, key);
    assert p.fates == [Leave(0)] && p.owners == [Removed(0)] && p.changes == map[key + POSTFIX := 0];
    assert RemoveRest(xs, EMPTY) == RemoveRest(xs, p) == p;
    var q := InsertNew(p, key + POSTFIX, 0, true);
    assert q.owners == [Moved(0, 0, true, true)] && q.ends == [0];
    assert InsertRest(ys, p) == InsertRest(ys, q) == q;
  }

  // ----- namespaced attributes -----

  function Use(obj: int, attrs: VdomNamespaces.NsAttrs, facts: Facts): VNode {
    Element(obj, facts.(attrsNS := attrs))
  }

  lemma NamespaceLost(a: VdomNamespaces.NsAttrs, b: VdomNamespaces.NsAttrs, facts: Facts, calls: seq<int> -> Call)
    returns (d: Doc, t: Tree, u: Tree)
    requires !VdomNamespaces.NamesKept(a, b)
    ensures Breaks(Use(1, a, facts), Use(2, b, facts), d, t, u)
  {
    hide Breaks, Element, PropsKept, StylesKept, AttrsKept, VdomNamespaces.NamesKept;
    d, t, u := NamesLost(facts.(attrsNS := a), facts.(attrsNS := b), facts, calls);
  }

  /** One name that changes its namespace: the attribute in the first stays. */
  lemma ChangedNamespace(a: VdomNamespaces.NsAttr, b: VdomNamespaces.NsAttr, facts: Facts, calls: seq<int> -> Call)
    returns (d: Doc, t: Tree, u: Tree)
    requires a.key == b.key && a.ns != b.ns && !VdomNamespaces.Prefixed(VdomNamespaces.Local(a.key))
    requires VdomNamespaces.Prefixed(a.key) ==> a.ns != "" && b.ns != ""
    ensures Breaks(Use(1, [a], facts), Use(2, [b], facts), d, t, u)
  {
    hide VdomNamespaces.Local, Breaks, Use;
    assert !VdomNamespaces.GoesWell([a], [b], 0);
    d, t, u := NamespaceLost([a], [b], facts, calls);
  }

  /** A name with a prefix that a view leaves out: the attribute was set under its local name, and the
      program asks to remove one whose local name is the whole. */
  lemma RemovedPrefixed(a: VdomNamespaces.NsAttr, facts: Facts, calls: seq<int> -> Call)
    returns (d: Doc, t: Tree, u: Tree)
    requires VdomNamespaces.Prefixed(a.key) && a.ns != "" && !VdomNamespaces.Prefixed(VdomNamespaces.Local(a.key))
    ensures Breaks(Use(1, [a], facts), Use(2, [], facts), d, t, u)
  {
    hide VdomNamespaces.Local, Breaks, Use;
    assert !VdomNamespaces.GoesWell([a], [], 0);
    d, t, u := NamespaceLost([a], [], facts, calls);
  }

  /** The example of the package's own documentation is such a name. */
  lemma DocumentedName()
    ensures VdomNamespaces.Prefixed("xlink:href") && !VdomNamespaces.Prefixed(VdomNamespaces.Local("xlink:href"))
  {
    assert "xlink:href" == "xlink" + ":" + "href" && "xlink:href"[5] == ':';
    LocalName("xlink", "href");
  }

  lemma {:induction false} LocalName(prefix: string, name: string)
    requires !VdomNamespaces.Prefixed(prefix)
    ensures VdomNamespaces.Local(prefix + ":" + name) == name
  {
    var key := prefix + ":" + name;
    assert key[|prefix|] == ':';
    if prefix == "" {
      assert key[1..] == name;
    } else {
      assert key[0] == prefix[0] && key[1..] == prefix[1..] + ":" + name;
      LocalName(prefix[1..], name);
    }
  }

  // ----- a lazy root -----

  function Plain(obj: int, tag: string, facts: Facts): VNode {
    Node(obj, tag, None, facts, [], 0)
  }

  /** The function with reference 0 makes an element whose tag is its argument. */
  function LazyElement(obj: int, argument: int, tag: string, facts: Facts): VNode {
    Thunk(obj, [0, argument], Plain(obj + 1, tag, facts), true)
  }

  ghost function LazyCalls(facts: Facts): seq<int> -> Call {
    refs => var v := Plain(0, if refs == [0, 1] then "div" else "p", facts); Call(Draw(v), RootShape(v))
  }

  ghost function LazyObjects(facts: Facts): int -> Known {
    o => Known(Draw(Plain(0, if o == 1 || o == 2 then "div" else "p", facts)), 0, o == 1 || o == 3)
  }

  lemma PlainDraws(obj: int, tag: string, facts: Facts)
    ensures Draw(Plain(obj, tag, facts)) == Draw(Plain(0, tag, facts)) && RootShape(Plain(obj, tag, facts)) ==
      RootShape(Plain(0, tag, facts))
  {
    DrawKids(Plain(obj, tag, facts));
    DrawKids(Plain(0, tag, facts));
  }

  lemma LazyProper(facts: Facts, objects: int -> Known)
    requires forall o :: 1 <= o <= 4 ==> objects(o) == LazyObjects(facts)(o)
    ensures var v, w := LazyElement(1, 1, "div", facts), LazyElement(3, 2, "p", facts);
      AllCached(v) && AllCached(w) && Proper(v, objects, LazyCalls(facts)) && Proper(w, objects, LazyCalls(facts))
  {
    hide Draw, RootShape, Proper, AllCached;
    OneProper(1, 1, "div", facts, objects);
    OneProper(3, 2, "p", facts, objects);
  }

  lemma OneProper(obj: int, argument: int, tag: string, facts: Facts, objects: int -> Known)
    requires objects(obj) == Known(Draw(Plain(0, tag, facts)), 0, true) &&
      objects(obj + 1) == Known(Draw(Plain(0, tag, facts)), 0, false)
    requires LazyCalls(facts)([0, argument]) == Call(Draw(Plain(0, tag, facts)), RootShape(Plain(0, tag, facts)))
    ensures var v := LazyElement(obj, argument, tag, facts); AllCached(v) && Proper(v, objects, LazyCalls(facts))
  {
    PlainDraws(obj + 1, tag, facts);
    LazyDraws(obj, argument, tag, facts);
    hide Draw, RootShape, LazyCalls;
    PlainProper(obj + 1, tag, facts, objects, LazyCalls(facts));
  }

  lemma PlainProper(obj: int, tag: string, facts: Facts, objects: int -> Known, calls: seq<int> -> Call)
    requires objects(obj) == Known(Draw(Plain(obj, tag, facts)), 0, false)
    ensures var v := Plain(obj, tag, facts); AllCached(v) && Proper(v, objects, calls)
  {
    hide Draw;
  }

  lemma LazyDraws(obj: int, argument: int, tag: string, facts: Facts)
    ensures Draw(LazyElement(obj, argument, tag, facts)) == Draw(Plain(obj + 1, tag, facts))
  {
  }

  /** The pair is sound, but its root is lost. */
  lemma LazyLost(facts: Facts)
    ensures var v, w := LazyElement(1, 1, "div", facts), LazyElement(3, 2, "p", facts);
      Sound(v, w) && Lost(v, w) && Draw(v) != Draw(w)
  {
  }

  /** A lazy view whose element changes its tag: the new view is shown, but the node that the program
      goes on with is the old one, which is out of the page. */
  lemma LazyRoot(facts: Facts, d: Doc, t: Tree) returns (u: Tree)
    requires var v := LazyElement(1, 1, "div", facts); Rooted(d, t) && See(t) == Draw(v)
    ensures var v, w := LazyElement(1, 1, "div", facts), LazyElement(3, 2, "p", facts);
      var (e, r) := PatchDocument(d, t, v, w);
      Step(d, t, e, u) && Rooted(e, u) && See(u) == Draw(w) && r != u.ref
  {
    var v, w := LazyElement(1, 1, "div", facts), LazyElement(3, 2, "p", facts);
    LazyLost(facts);
    LazyProper(facts, LazyObjects(facts));
    hide Sound, Lost, Proper, AllCached, See, Draw, Step, PatchDocument, Rooted;
    u := PatchShows(d, t, v, w, LazyObjects(facts), LazyCalls(facts));
  }

  /** What redrawing dom as v leaves. */
  function Redrawn(d: Doc, dom: Ref, v: VNode): Doc {
    var (e, r) := Render(d, v);
    if dom in e.parent && r != dom then ReplaceChild(e, e.parent[dom], r, dom) else e
  }

  lemma LazyPatch(d: Doc, t: Tree, v: VNode, w: VNode)
    requires v.Thunk? && w.Thunk? && v.obj != w.obj && v.refs != w.refs && v.node.Node? && w.node.Node? &&
      v.node.obj != w.node.obj
    requires v.node.tag != w.node.tag
    ensures PatchDocument(d, t, v, w) == (Redrawn(d, t.ref, w.node), t.ref)
  {
    var sub := NewPatch(0, Redraw(w.node));
    assert Diff(v.node, w.node, 0) == [sub];
    assert Diff(v, w, 0) == [NewPatch(0, Inside([sub]))];
    AttachOne(NewPatch(0, Inside([sub])), v, t);
    AttachOne(sub, v.node, t);
    hide Render, ReplaceChild, Attach, AttachAll, Diff;
    var p := Patch(0, Redraw(w.node), Some(t.ref));
    ApplyOne(State(d, None, [], map[]), p);
    ApplyOne(State(d, Some(t.ref), [], map[]), Patch(0, Inside([p]), None));
  }

  /** And so the page stays as it is from then on: the third view is put into the place of the node
      that is not there. */
  lemma LazyRootStays(facts: Facts, d: Doc, t: Tree) returns (u: Tree)
    requires var v := LazyElement(1, 1, "div", facts); Rooted(d, t) && See(t) == Draw(v) && t.ref in d.parent
    ensures var v, w, z := LazyElement(1, 1, "div", facts), LazyElement(3, 2, "p", facts),
      LazyElement(5, 1, "div", facts);
      var (e, r) := PatchDocument(d, t, v, w);
      var (f, s) := PatchDocument(e, t, w, z);
      && Rooted(e, u) && See(u) == Draw(w) && u.ref in e.parent && r == t.ref
      && Holds(f, u) && u.ref in f.parent && f.parent[u.ref] == e.parent[u.ref] && Draw(w) != Draw(z)
  {
    var v, w, z := LazyElement(1, 1, "div", facts), LazyElement(3, 2, "p", facts), LazyElement(5, 1, "div", facts);
    LazyPatch(d, t, v, w);
    u := RedrawStep(d, t, w.node);
    var e := Redrawn(d, t.ref, w.node);
    GoneFrom(d, t, w.node);
    LazyPatch(e, t, w, z);
    assert Draw(w) != Draw(z);
    hide Render, See, Draw, PatchDocument;
    StepRooted(d, t, e, u);
    NotThere(e, t.ref, z.node, u);
  }

  /** A node that has been replaced has no parent. */
  lemma GoneFrom(d: Doc, t: Tree, v: VNode)
    requires Rooted(d, t) && t.ref in d.parent
    ensures var e := Redrawn(d, t.ref, v); t.ref !in e.parent && t.ref < e.next
  {
    var k := RenderDraws(d, v);
    HoldsBelow(d, t);
    RootIn(t);
    RootIn(k);
    hide Render;
    assert SameParent(d, Render(d, v).0, t.ref);
  }

  /** Redrawing a node without a parent changes nothing of what is there. */
  lemma NotThere(e: Doc, dom: Ref, v: VNode, u: Tree)
    requires Rooted(e, u) && dom !in e.parent && dom < e.next && u.ref in e.parent
    ensures var f := Redrawn(e, dom, v); Holds(f, u) && u.ref in f.parent && f.parent[u.ref] == e.parent[u.ref]
  {
    var k := RenderDraws(e, v);
    var f := Render(e, v).0;
    HoldsBelow(e, u);
    RootIn(u);
    hide Render;
    assert SameParent(e, f, dom) && SameParent(e, f, u.ref);
    forall r | r in Refs(u) ensures SameNode(e, f, r) && SameParent(e, f, r) { assert r < e.next; }
    HoldsFrame(e, f, u);
  }

  // ----- a lazy child that moves -----

  function BeforeSwap(facts: Facts): seq<Keyed> {
    [Keyed("A", Text(11, "a")), Keyed("B", LazyElement(1, 1, "div", facts))]
  }

  function AfterSwap(facts: Facts): seq<Keyed> {
    [Keyed("B", LazyElement(3, 2, "p", facts)), Keyed("A", Text(21, "a"))]
  }

  ghost function SwapObjects(facts: Facts): int -> Known {
    o =>
      if o == 10 then Known(Draw(ListOf(10, BeforeSwap(facts), facts)), 2, false)
      else if o == 20 then Known(Draw(ListOf(20, AfterSwap(facts), facts)), 2, false)
      else if o == 11 || o == 21 then Known(TextPicture("a"), 0, false)
      else LazyObjects(facts)(o)
  }

  lemma SwapProper(facts: Facts)
    ensures var x, y, objects := ListOf(10, BeforeSwap(facts), facts), ListOf(20, AfterSwap(facts), facts),
      SwapObjects(facts);
      AllCached(x) && Proper(x, objects, LazyCalls(facts)) && Proper(y, objects, LazyCalls(facts))
  {
    var objects := SwapObjects(facts);
    SwapLeaves(facts);
    hide Draw, AllLeaves, LazyCalls;
    ListProper(10, BeforeSwap(facts), facts, objects, LazyCalls(facts));
    ListProper(20, AfterSwap(facts), facts, objects, LazyCalls(facts));
  }

  lemma TextProper(obj: int, text: string, objects: int -> Known, calls: seq<int> -> Call)
    requires objects(obj) == Known(TextPicture(text), 0, false)
    ensures Proper(Text(obj, text), objects, calls) && AllCached(Text(obj, text))
  {
  }

  lemma SwapLeaves(facts: Facts)
    ensures AllLeaves(BeforeSwap(facts), SwapObjects(facts), LazyCalls(facts)) &&
      AllLeaves(AfterSwap(facts), SwapObjects(facts), LazyCalls(facts))
  {
    hide ListOf, Proper, AllCached, Draw, LazyCalls, RootShape;
    LazyProper(facts, SwapObjects(facts));
    TextProper(11, "a", SwapObjects(facts), LazyCalls(facts));
    TextProper(21, "a", SwapObjects(facts), LazyCalls(facts));
  }

  /** The children A and B change places, and B is lazy with a new root: the old root is put into
      the new place. */
  lemma MovedLazyChild(facts: Facts) returns (d: Doc, t: Tree, u: Tree)
    ensures Breaks(ListOf(10, BeforeSwap(facts), facts), ListOf(20, AfterSwap(facts), facts), d, t, u)
  {
    var x, y := ListOf(10, BeforeSwap(facts), facts), ListOf(20, AfterSwap(facts), facts);
    SwapUnsound(facts);
    SwapProper(facts);
    hide Sound, Proper, AllCached, Breaks, ListOf;
    d, t, u := Broken(x, y, facts, SwapObjects(facts), LazyCalls(facts));
  }

  lemma SwapUnsound(facts: Facts)
    ensures !Sound(ListOf(10, BeforeSwap(facts), facts), ListOf(20, AfterSwap(facts), facts))
  {
    var v, w := LazyElement(1, 1, "div", facts), LazyElement(3, 2, "p", facts);
    LazyLost(facts);
    hide Lost, Draw, MakePlan;
    var x, y := ListOf(10, BeforeSwap(facts), facts), ListOf(20, AfterSwap(facts), facts);
    assert Keys(x.pairs) == ["A", "B"] && Keys(y.pairs) == ["B", "A"];
    SwapTarget();
    var p := PlanOf(x.pairs, y.pairs);
    hide PlanOf, Target, Between;
    assert NewKids(p, y.pairs)[0] == w;
    assert !SoundChild(p, 1, v, w);
    assert x.pairs[1].node == v;
    assert !SoundElements(x, y);
  }

  lemma SwapTarget()
    ensures var p := MakePlan(["A", "B"], ["B", "A"]); Target(p, 1) == Some(0) && Between(p, 1)
  {
    SwapPlan();
    hide MakePlan;
  }

  lemma SwapPlan()
    ensures MakePlan(["A", "B"], ["B", "A"]) ==
      Plan([Keep(1), Leave(0)], [Moved(1, 0, false, false)], map["A" := 0], [0], [], 2, None)
  {
    var xs, ys := ["A", "B"], ["B", "A"];
    var p := SwapRound();
    hide RemoveOld, KeepNext, InsertNext;
    assert Round(xs, ys, EMPTY, None) == Some((p, Some(1)));
    assert Round(xs, ys, p, Some(1)) == None;
    hide Round;
    assert Scan(xs, ys, EMPTY, None) == Scan(xs, ys, p, Some(1)) == p;
  }

  lemma SwapFirst() returns (p1: Plan, p2: Plan)
    ensures p1 == InsertNext(EMPTY, "A") == Plan([], [Inserted(0, false)], map["A" := 0], [0], [], 1, None)
    ensures p2 == KeepNext(p1) == Plan([Keep(1)], [Inserted(0, false)], map["A" := 0], [0], [], 2, None)
  {
    p1 := InsertNext(EMPTY, "A");
    p2 := KeepNext(p1);
  }

  lemma SwapRound() returns (p: Plan)
    ensures p == Plan([Keep(1), Leave(0)], [Moved(1, 0, false, false)], map["A" := 0], [0], [], 2, None)
    ensures p == RemoveOld(KeepNext(InsertNext(EMPTY, "A")), "A")
  {
    var p1, p2 := SwapFirst();
    hide InsertNext, KeepNext;
    p := RemoveOld(p2, "A");
  }
}
