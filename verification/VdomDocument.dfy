/** The document: DOM nodes named by references, each with its children and its parent, and the
    operations of the DOM interface that rendering and patching use. */
module VdomDocument {
  import opened Wrappers
  import opened VdomFacts
  import opened VdomNodes
  import opened VdomDiff

  /** A document fragment is an element with the node name that the DOM gives fragments. */
  datatype DomNode =
    | TextNode(data: string)
    | Element(tag: string, ns: Option<string>, facts: DomFacts, kids: seq<Ref>)

  /** References from `next` on are unused. */
  datatype Doc = Doc(nodes: map<Ref, DomNode>, parent: map<Ref, Ref>, next: Ref)

  const FRAGMENT := Element("#document-fragment", None, NO_FACTS, [])

  ghost predicate NoRepeat(s: seq<Ref>) {
    forall i, j :: 0 <= i < j < |s| ==> s[i] != s[j]
  }

  /** A proper document: names are used below `next`, and a node that lists a child is the
      parent of that child and lists it once. */
  ghost predicate Valid(d: Doc) {
    (forall r :: r in d.nodes ==> r < d.next) &&
    (forall r :: r in d.parent ==> r < d.next) &&
    (forall r, k :: r in d.nodes && k in ChildNodes(d, r) ==> k in d.parent && d.parent[k] == r) &&
    (forall r :: r in d.nodes ==> NoRepeat(ChildNodes(d, r)))
  }

  // ----- the DOM interface -----

  /** domNode.childNodes */
  function ChildNodes(d: Doc, r: Ref): seq<Ref> {
    if r in d.nodes && !d.nodes[r].TextNode? then d.nodes[r].kids else []
  }

  function SetKids(d: Doc, r: Ref, kids: seq<Ref>): Doc {
    if r in d.nodes && !d.nodes[r].TextNode? then d.(nodes := d.nodes[r := d.nodes[r].(kids := kids)]) else d
  }

  function IndexOf(s: seq<Ref>, r: Ref): (i: nat)
    ensures i <= |s| && r !in s[..i]
    ensures i < |s| ==> s[i] == r
    ensures r in s <==> i < |s|
  {
    if s == [] then 0 else if s[0] == r then 0 else 1 + IndexOf(s[1..], r)
  }

  function Without(s: seq<Ref>, r: Ref): seq<Ref> {
    if s == [] then [] else if s[0] == r then s[1..] else [s[0]] + Without(s[1..], r)
  }

  function InsertIn(s: seq<Ref>, r: Ref, before: Option<Ref>): seq<Ref> {
    var i := if before.Some? then IndexOf(s, before.value) else |s|;
    s[..i] + [r] + s[i..]
  }

  function Create(d: Doc, n: DomNode): (Doc, Ref) {
    (Doc(d.nodes[d.next := n], d.parent, d.next + 1), d.next)
  }

  /** r.parentNode.removeChild(r), when it has a parent. */
  function Detach(d: Doc, r: Ref): Doc {
    if r !in d.parent then d
    else
      var p := d.parent[r];
      SetKids(d, p, Without(ChildNodes(d, p), r)).(parent := d.parent - {r})
  }

  /** p.insertBefore(r, before), where no `before` means at the end. */
  function InsertBefore(d: Doc, p: Ref, r: Ref, before: Option<Ref>): Doc {
    var d1 := Detach(d, r);
    SetKids(d1, p, InsertIn(ChildNodes(d1, p), r, before)).(parent := d1.parent[r := p])
  }

  /** childNodes[i], undefined past the end. */
  function ChildAt(d: Doc, p: Ref, i: nat): Option<Ref> {
    var kids := ChildNodes(d, p);
    if i < |kids| then Some(kids[i]) else None
  }

  function AppendChild(d: Doc, p: Ref, r: Ref): Doc {
    InsertBefore(d, p, r, None)
  }

  function Swap(s: seq<Ref>, gone: Ref, added: Ref): (t: seq<Ref>)
    ensures |t| == |s| && forall i :: 0 <= i < |s| ==> t[i] == if s[i] == gone then added else s[i]
  {
    seq(|s|, i requires 0 <= i < |s| => if s[i] == gone then added else s[i])
  }

  /** p.replaceChild(added, gone) for a new node without a parent. */
  function ReplaceChild(d: Doc, p: Ref, added: Ref, gone: Ref): Doc {
    SetKids(d, p, Swap(ChildNodes(d, p), gone, added)).(parent := (d.parent - {gone})[added := p])
  }

  /** p.appendChild(f) for a document fragment: its children move to the end of p. */
  function AppendFragment(d: Doc, p: Ref, f: Ref): Doc {
    var moving := ChildNodes(d, f);
    var d1 := SetKids(SetKids(d, f, []), p, ChildNodes(d, p) + moving);
    d1.(parent := d1.parent + map r | r in moving :: p)
  }

  function SetDomFacts(d: Doc, r: Ref, c: Change): Doc {
    if r in d.nodes && d.nodes[r].Element?
    then d.(nodes := d.nodes[r := d.nodes[r].(facts := ApplyFacts(d.nodes[r].facts, c))]) else d
  }

  function SetData(d: Doc, r: Ref, data: string): Doc {
    if r in d.nodes && d.nodes[r].TextNode? then d.(nodes := d.nodes[r := TextNode(data)]) else d
  }

  // ----- trees in the document -----

  /** A DOM subtree with the names of its nodes. */
  datatype Tree =
    | TextTree(ref: Ref, data: string)
    | ElementTree(ref: Ref, tag: string, ns: Option<string>, facts: DomFacts, kids: seq<Tree>)

  ghost function Refs(t: Tree): set<Ref> {
    if t.TextTree? then {t.ref}
    else {t.ref} + set k, r | 0 <= k < |t.kids| && r in Refs(t.kids[k]) :: r
  }

  function Roots(ts: seq<Tree>): (s: seq<Ref>)
    ensures |s| == |ts| && forall i :: 0 <= i < |ts| ==> s[i] == ts[i].ref
  {
    seq(|ts|, i requires 0 <= i < |ts| => ts[i].ref)
  }

  /** What the tree looks like. */
  ghost function See(t: Tree): Picture {
    if t.TextTree? then TextPicture(t.data)
    else ElementPicture(t.tag, t.ns, Seen(t.facts), seq(|t.kids|, i requires 0 <= i < |t.kids| => See(t.kids[i])))
  }

  /** No node occurs twice in a list of trees. */
  ghost predicate Apart(ts: seq<Tree>) {
    forall i, j :: 0 <= i < j < |ts| ==> Refs(ts[i]) !! Refs(ts[j])
  }

  /** The tree is part of the document, children and parents alike. */
  ghost predicate Holds(d: Doc, t: Tree)
    decreases t, 0
  {
    t.ref in d.nodes &&
    match t
    case TextTree(_, data) => d.nodes[t.ref] == TextNode(data)
    case ElementTree(_, tag, ns, facts, kids) =>
      && d.nodes[t.ref] == Element(tag, ns, facts, Roots(kids))
      && Apart(kids)
      && forall i :: 0 <= i < |kids| ==> Placed(d, t.ref, kids[i])
  }

  /** A child in its place. */
  ghost predicate Placed(d: Doc, p: Ref, k: Tree)
    decreases k, 1
  {
    Holds(d, k) && p !in Refs(k) && k.ref in d.parent && d.parent[k.ref] == p
  }

  ghost predicate SameNode(d: Doc, e: Doc, r: Ref) {
    (r in d.nodes <==> r in e.nodes) && (r in d.nodes ==> d.nodes[r] == e.nodes[r])
  }

  ghost predicate SameParent(d: Doc, e: Doc, r: Ref) {
    (r in d.parent <==> r in e.parent) && (r in d.parent ==> d.parent[r] == e.parent[r])
  }

  lemma RefsKids(t: Tree, i: nat)
    requires t.ElementTree? && i < |t.kids|
    ensures Refs(t.kids[i]) <= Refs(t)
  {
  }

  lemma RootIn(t: Tree)
    ensures t.ref in Refs(t)
  {
  }

  /** A tree stays where nothing in it changes; the parent of its root does not matter. */
  lemma {:induction false} HoldsFrame(d: Doc, e: Doc, t: Tree)
    requires Holds(d, t)
    requires forall r :: r in Refs(t) ==> SameNode(d, e, r)
    requires forall r :: r in Refs(t) && r != t.ref ==> SameParent(d, e, r)
    ensures Holds(e, t)
  {
    RootIn(t);
    if t.ElementTree? {
      forall i | 0 <= i < |t.kids| ensures Placed(e, t.ref, t.kids[i]) {
        assert Placed(d, t.ref, t.kids[i]);
        RefsKids(t, i);
        RootIn(t.kids[i]);
        assert t.ref !in Refs(t.kids[i]);
        assert SameParent(d, e, t.kids[i].ref);
        HoldsFrame(d, e, t.kids[i]);
      }
    }
  }

  lemma {:induction false} HoldsBelow(d: Doc, t: Tree)
    requires Holds(d, t) && Valid(d)
    ensures forall r :: r in Refs(t) ==> r in d.nodes && r < d.next
    ensures forall r :: r in Refs(t) && r != t.ref ==> r in d.parent
  {
    if t.ElementTree? {
      forall i | 0 <= i < |t.kids|
        ensures forall r :: r in Refs(t.kids[i]) ==> r in d.nodes && r < d.next && r in d.parent
      {
        assert Placed(d, t.ref, t.kids[i]);
        HoldsBelow(d, t.kids[i]);
      }
    }
  }

  lemma {:induction false} WithoutIs(s: seq<Ref>, r: Ref)
    requires NoRepeat(s)
    ensures NoRepeat(Without(s, r))
    ensures forall k :: k in Without(s, r) <==> k in s && k != r
  {
    if s != [] && s[0] != r {
      WithoutIs(s[1..], r);
      assert s[0] !in s[1..] && s[0] !in Without(s[1..], r);
    }
  }

  lemma InsertInIs(s: seq<Ref>, r: Ref, before: Option<Ref>)
    requires NoRepeat(s) && r !in s
    ensures NoRepeat(InsertIn(s, r, before))
    ensures forall k :: k in InsertIn(s, r, before) <==> k in s || k == r
  {
    var i := if before.Some? then IndexOf(s, before.value) else |s|;
    assert s == s[..i] + s[i..];
  }

  /** Giving node `p` a new list of children, with parents to match. */
  lemma RekidValid(d: Doc, p: Ref, kids: seq<Ref>, parent: map<Ref, Ref>)
    requires Valid(d) && p in d.nodes && !d.nodes[p].TextNode? && NoRepeat(kids)
    requires forall k :: k in kids ==> k in parent && parent[k] == p
    requires forall k :: k in parent ==> k < d.next
    requires forall k :: k in d.parent && d.parent[k] != p ==> k in parent && parent[k] == d.parent[k]
    ensures Valid(SetKids(d, p, kids).(parent := parent))
  {
  }

  lemma DetachValid(d: Doc, r: Ref)
    requires Valid(d)
    ensures Valid(Detach(d, r))
  {
    if r in d.parent && d.parent[r] in d.nodes && !d.nodes[d.parent[r]].TextNode? {
      WithoutIs(ChildNodes(d, d.parent[r]), r);
      RekidValid(d, d.parent[r], Without(ChildNodes(d, d.parent[r]), r), d.parent - {r});
    }
  }

  /** Inserting a node that has no parent. */
  lemma InsertValid(d: Doc, p: Ref, r: Ref, before: Option<Ref>)
    requires Valid(d) && r !in d.parent && r < d.next && p in d.nodes && !d.nodes[p].TextNode?
    ensures Valid(InsertBefore(d, p, r, before))
  {
    InsertInIs(ChildNodes(d, p), r, before);
    RekidValid(d, p, InsertIn(ChildNodes(d, p), r, before), d.parent[r := p]);
  }
}
