/** Rendering nodes into the document, attaching patches to DOM nodes, and applying them. */
module VdomPatching {
  import opened Wrappers
  import opened VdomFacts
  import opened VdomNodes
  import opened VdomDiff
  import opened VdomDocument

  // ----- rendering -----

  function Render(d: Doc, v: VNode): (Doc, Ref)
    decreases v, 1, 0
  {
    match v
    case Thunk(_, _, node, _) => Render(d, node)
    case Text(_, text) => Create(d, TextNode(text))
    case Tagger(_, _, _, _) => Render(d, Below(v))
    case _ =>
      var (d1, r) := Create(d, Element(v.tag, v.ns, Fresh(v.facts), []));
      (RenderKids(d1, r, v, |Kids(v)|), r)
  }

  /** Renders the first `n` children of v and appends each to p. */
  function RenderKids(d: Doc, p: Ref, v: VNode, n: nat): Doc
    requires n <= |Kids(v)|
    decreases v, 0, n
  {
    if n == 0 then d
    else
      var (d1, k) := Render(RenderKids(d, p, v, n - 1), Kids(v)[n - 1]);
      AppendChild(d1, p, k)
  }

  // ----- plain numbering -----

  /** The child whose range of indices holds `index`, when the first child from `j` on has index `low`. */
  function KidAt(kids: seq<VNode>, j: nat, low: nat, index: nat): Option<(nat, nat)>
    decreases |kids| - j
  {
    if j >= |kids| || index < low then None
    else if index <= low + Descendants(kids[j]) then Some((j, low))
    else KidAt(kids, j + 1, low + 1 + Descendants(kids[j]), index)
  }

  lemma KidAtBound(kids: seq<VNode>, j: nat, low: nat, index: nat)
    ensures KidAt(kids, j, low, index).Some? ==> KidAt(kids, j, low, index).value.0 < |kids|
    decreases |kids| - j
  {
  }

  /** The virtual node and the DOM node that pre-order numbering from `low` gives `index`. */
  function Locate(v: VNode, t: Tree, low: nat, index: nat): Option<(VNode, Tree)>
    decreases v
  {
    if index == low then Some((v, t))
    else if v.Tagger? then Locate(Below(v), t, low + 1, index)
    else
      var k := KidAt(Kids(v), 0, low + 1, index);
      KidAtBound(Kids(v), 0, low + 1, index);
      if k.Some? && t.ElementTree? && k.value.0 < |t.kids|
      then Locate(Kids(v)[k.value.0], t.kids[k.value.0], k.value.1, index)
      else None
  }

  /** Attaching a patch sets its DOM node to the one with its index.  Patches nested in it are
      numbered from the same place, and those inside a thunk from the thunk's own root; the
      patch of a thunk itself gets no DOM node. */
  function Attach(p: Patch, v: VNode, t: Tree, low: nat): Patch
    decreases p, 1
  {
    var at := Locate(v, t, low, p.index);
    if at.None? then p
    else
      var (w, u) := at.value;
      Patch(p.index, AttachAction(p.action, w, u, p.index), if p.action.Inside? then p.dom else Some(u.ref))
  }

  function AttachAction(a: Action, v: VNode, t: Tree, low: nat): Action
    decreases a, 0
  {
    match a
    case Inside(ps) => if v.Thunk? then Inside(AttachAll(ps, v.node, t, 0)) else a
    case Reorder(ps, inserts, ends, entries) => Reorder(AttachAll(ps, v, t, low), inserts, ends, entries)
    case Remove(Some(m)) => Remove(Some(Move(AttachAll(m.patches, v, t, low), m.entry)))
    case _ => a
  }

  function AttachAll(ps: seq<Patch>, v: VNode, t: Tree, low: nat): (qs: seq<Patch>)
    ensures |qs| == |ps| && forall i :: 0 <= i < |qs| ==> qs[i] == Attach(ps[i], v, t, low)
    decreases ps, 0
  {
    seq(|ps|, i requires 0 <= i < |ps| => Attach(ps[i], v, t, low))
  }

  // ----- applying -----

  /** The document, the node at the root of the patched part (undefined inside a thunk), and,
      inside a reorder, its entries with the DOM node each moved entry holds. */
  datatype State = State(doc: Doc, root: Option<Ref>, entries: seq<Entry>, moved: map<nat, Ref>)

  function ApplyAll(s: State, ps: seq<Patch>): State
    decreases ps, 0
  {
    if ps == [] then s
    else
      var last := |ps| - 1;
      ApplyPatch(ApplyAll(s, ps[..last]), ps[last])
  }

  /** One round of the loop: when the patched node was the root, its replacement is.  The patches
      of a thunk are applied with the undefined node that the thunk's patch has. */
  function ApplyPatch(s: State, p: Patch): State
    decreases p, 2
  {
    if p.action.Inside? then
      var t := ApplyAll(State(s.doc, p.dom, [], map[]), p.action.patches);
      State(t.doc, if p.dom == s.root then t.root else s.root, s.entries, s.moved)
    else if p.dom.None? then s
    else
      var (d, r, moved) := ApplyAction(s, p.dom.value, p.action);
      State(d, if p.dom == s.root then Some(r) else s.root, s.entries, moved)
  }

  /** The root that patching returned, when it returned one. */
  function RootOr(s: State, dom: Ref): Ref {
    if s.root.Some? then s.root.value else dom
  }

  function ApplyAction(s: State, dom: Ref, a: Action): (Doc, Ref, map<nat, Ref>)
    requires !a.Inside?
    decreases a, 1
  {
    match a
    case Redraw(node) =>
      var (d, r) := Render(s.doc, node);
      (if dom in d.parent && r != dom then ReplaceChild(d, d.parent[dom], r, dom) else d, r, s.moved)
    case SetFacts(change) => (SetDomFacts(s.doc, dom, change), dom, s.moved)
    case SetText(text) => (SetData(s.doc, dom, text), dom, s.moved)
    case Retag(_) => (s.doc, dom, s.moved)
    case RemoveLast(length, diff) => (RemoveMany(s.doc, dom, length, diff), dom, s.moved)
    case Append(length, kids) =>
      (AppendMany(s.doc, dom, kids, length, |kids|, ChildAt(s.doc, dom, length)), dom, s.moved)
    case Remove(None) => (Detach(s.doc, dom), dom, s.moved)
    case Remove(Some(m)) =>
      var d := if m.entry < |s.entries| && s.entries[m.entry].at.Some? then Detach(s.doc, dom) else s.doc;
      var t := ApplyAll(State(d, Some(dom), [], map[]), m.patches);
      (t.doc, dom, s.moved[m.entry := RootOr(t, dom)])
    case Reorder(ps, inserts, ends, entries) =>
      var moved := MovedRoots(ps, |ps|);
      var (d1, frag) := Create(s.doc, FRAGMENT);
      var d2 := if ends == [] then s.doc else FillFragment(d1, frag, ends, entries, moved, |ends|);
      var t := ApplyAll(State(d2, Some(dom), entries, moved), ps);
      var root := RootOr(t, dom);
      var d3 := DoInserts(t.doc, root, inserts, entries, t.moved, |inserts|);
      (if ends == [] then d3 else AppendFragment(d3, root, frag), root, s.moved)
  }

  /** Removes the child at index `length`, `n` times. */
  function RemoveMany(d: Doc, dom: Ref, length: nat, n: nat): Doc {
    if n == 0 then d
    else
      var d1 := RemoveMany(d, dom, length, n - 1);
      var k := ChildAt(d1, dom, length);
      if k.Some? then Detach(d1, k.value) else d1
  }

  /** Renders kids[from..n], each before `end`. */
  function AppendMany(d: Doc, dom: Ref, kids: seq<VNode>, from: nat, n: nat, end: Option<Ref>): Doc
    requires n <= |kids|
    decreases n
  {
    if n <= from then d
    else
      var (d1, k) := Render(AppendMany(d, dom, kids, from, n - 1, end), kids[n - 1]);
      InsertBefore(d1, dom, k, end)
  }

  /** Attaching a removal that is half of a move stores its DOM node in the entry. */
  function MovedRoots(ps: seq<Patch>, n: nat): map<nat, Ref>
    requires n <= |ps|
  {
    if n == 0 then map[]
    else
      var p := ps[n - 1];
      var m := MovedRoots(ps, n - 1);
      if p.action.Remove? && p.action.move.Some? && p.dom.Some? then m[p.action.move.value.entry := p.dom.value] else m
  }

  /** The node of an entry: the moved one, or a new one. */
  function EntryNode(d: Doc, entries: seq<Entry>, moved: map<nat, Ref>, e: nat): (Doc, Ref) {
    if e < |entries| && entries[e].tag == INSERT then Render(d, entries[e].node)
    else (d, if e in moved then moved[e] else 0)
  }

  /** The end inserts, taken out of their places before anything is removed. */
  function FillFragment(d: Doc, frag: Ref, ends: seq<Insert>, entries: seq<Entry>, moved: map<nat, Ref>, n: nat): Doc
    requires n <= |ends|
  {
    if n == 0 then d
    else
      var (d1, k) := EntryNode(FillFragment(d, frag, ends, entries, moved, n - 1), entries, moved, ends[n - 1].entry);
      AppendChild(d1, frag, k)
  }

  function DoInserts(d: Doc, dom: Ref, inserts: seq<Insert>, entries: seq<Entry>, moved: map<nat, Ref>, n: nat): Doc
    requires n <= |inserts|
  {
    if n == 0 then d
    else
      var i := inserts[n - 1];
      var (d1, k) := EntryNode(DoInserts(d, dom, inserts, entries, moved, n - 1), entries, moved, i.entry);
      InsertBefore(d1, dom, k, if i.at.Some? then ChildAt(d1, dom, i.at.value) else None)
  }

  /** _VirtualDom_applyPatches of _VirtualDom_diff(x, y) on the tree t that shows x: the new
      document, and the node returned as the root of the new tree. */
  function PatchDocument(d: Doc, t: Tree, x: VNode, y: VNode): (Doc, Ref) {
    var s := ApplyAll(State(d, Some(t.ref), [], map[]), AttachAll(Diff(x, y, 0), x, t, 0));
    (s.doc, RootOr(s, t.ref))
  }
}
