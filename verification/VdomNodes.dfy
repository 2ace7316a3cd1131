/** Virtual nodes, what they draw, and the patches between them. */
module VdomNodes {
  import opened Wrappers
  import opened VdomFacts

  /** Every node is a JavaScript object, named by `obj`: comparing two nodes with === compares
      their names.  A thunk's `node` is the one in its field __node when `cached` is true, and the
      node that its function returns as long as the field is undefined.  `count` is the field
      __descendantsCount filled in by the constructors. */
  datatype VNode =
    | Text(obj: int, text: string)
    | Node(obj: int, tag: string, ns: Option<string>, facts: Facts, kids: seq<VNode>, count: nat)
    | KeyedNode(obj: int, tag: string, ns: Option<string>, facts: Facts, pairs: seq<Keyed>, count: nat)
    | Tagger(obj: int, tagger: int, node: VNode, count: nat)
    | Thunk(obj: int, refs: seq<int>, node: VNode, cached: bool)

  datatype Keyed = Keyed(key: string, node: VNode)

  /** v.__descendantsCount || 0 */
  function Descendants(v: VNode): nat {
    if v.Text? || v.Thunk? then 0 else v.count
  }

  function Keys(pairs: seq<Keyed>): (s: seq<string>)
    ensures |s| == |pairs| && forall i :: 0 <= i < |s| ==> s[i] == pairs[i].key
  {
    seq(|pairs|, i requires 0 <= i < |pairs| => pairs[i].key)
  }

  function Unkeyed(pairs: seq<Keyed>): (s: seq<VNode>)
    ensures |s| == |pairs| && forall i :: 0 <= i < |s| ==> s[i] == pairs[i].node
  {
    seq(|pairs|, i requires 0 <= i < |pairs| => pairs[i].node)
  }

  /** Children in document order. */
  function Kids(v: VNode): (s: seq<VNode>)
    ensures forall i :: 0 <= i < |s| ==> s[i] < v
  {
    if v.Node? then v.kids else if v.KeyedNode? then Unkeyed(v.pairs) else []
  }

  /** The first node below a nest of taggers. */
  function Below(v: VNode): (w: VNode)
    ensures !w.Tagger?
    ensures w == v || w < v
    ensures v.Tagger? ==> w < v
    decreases v
  {
    if v.Tagger? then Below(v.node) else v
  }

  /** The taggers of a nest, outermost first. */
  function Taggers(v: VNode): seq<int>
    decreases v
  {
    if v.Tagger? then [v.tagger] + Taggers(v.node) else []
  }

  /** _VirtualDom_dekey: a new plain node with the same children. */
  function Dekey(v: VNode, obj: int): VNode
    requires v.KeyedNode?
  {
    Node(obj, v.tag, v.ns, v.facts, Unkeyed(v.pairs), v.count)
  }

  // ----- numbering -----

  /** How many indices the first `n` children and their descendants use. */
  function Span(kids: seq<VNode>, n: nat): nat
    requires n <= |kids|
  {
    if n == 0 then 0 else Span(kids, n - 1) + 1 + Descendants(kids[n - 1])
  }

  /** The counts are those the constructors compute. */
  ghost predicate Counted(v: VNode)
    decreases v
  {
    match v
    case Text(_, _) => true
    case Node(_, _, _, _, kids, count) =>
      count == Span(kids, |kids|) && forall i :: 0 <= i < |kids| ==> Counted(kids[i])
    case KeyedNode(_, _, _, _, pairs, count) =>
      count == Span(Unkeyed(pairs), |pairs|) && forall i :: 0 <= i < |pairs| ==> Counted(pairs[i].node)
    case Tagger(_, _, node, count) => count == 1 + Descendants(node) && Counted(node)
    case Thunk(_, _, node, _) => Counted(node)
  }

  // ----- what a node draws -----

  /** A DOM tree as seen from outside: no identities, facts up to defaults. */
  datatype Picture =
    | TextPicture(text: string)
    | ElementPicture(tag: string, ns: Option<string>, facts: DomFacts, kids: seq<Picture>)

  function Draw(v: VNode): (p: Picture)
    decreases v
  {
    match v
    case Text(_, text) => TextPicture(text)
    case Node(_, tag, ns, facts, kids, _) =>
      ElementPicture(tag, ns, Seen(Fresh(facts)), seq(|kids|, i requires 0 <= i < |kids| => Draw(kids[i])))
    case KeyedNode(_, tag, ns, facts, pairs, _) =>
      ElementPicture(tag, ns, Seen(Fresh(facts)), seq(|pairs|, i requires 0 <= i < |pairs| => Draw(pairs[i].node)))
    case Tagger(_, _, node, _) => Draw(node)
    case Thunk(_, _, node, _) => Draw(node)
  }

  lemma DrawKids(v: VNode)
    requires v.Node? || v.KeyedNode?
    ensures Draw(v).ElementPicture? && Draw(v).tag == v.tag && Draw(v).ns == v.ns
    ensures Draw(v).facts == Seen(Fresh(v.facts)) && |Draw(v).kids| == |Kids(v)|
    ensures forall i :: 0 <= i < |Kids(v)| ==> Draw(v).kids[i] == Draw(Kids(v)[i])
  {
  }

  lemma DrawBelow(v: VNode)
    ensures Draw(Below(v)) == Draw(v)
  {
  }

  /** A lazy node, perhaps below taggers. */
  predicate Lazy(v: VNode) {
    Below(v).Thunk?
  }

  /** The root of a node: its kind, through taggers and thunks down to an element's tag and
      namespace.  It decides whether a difference redraws the root. */
  datatype Shape =
    | TextShape
    | ElementShape(keyed: bool, tag: string, ns: Option<string>)
    | TaggedShape(taggers: nat, below: Shape)
    | LazyShape(node: Shape)

  function RootShape(v: VNode): Shape
    decreases v
  {
    match v
    case Text(_, _) => TextShape
    case Node(_, tag, ns, _, _, _) => ElementShape(false, tag, ns)
    case KeyedNode(_, tag, ns, _, _, _) => ElementShape(true, tag, ns)
    case Tagger(_, _, _, _) => TaggedShape(|Taggers(v)|, RootShape(Below(v)))
    case Thunk(_, _, node, _) => LazyShape(RootShape(node))
  }

  /** What the function of a thunk gives for its arguments. */
  datatype Call = Call(picture: Picture, shape: Shape)

  /** What an object's identity tells about it. */
  datatype Known = Known(picture: Picture, count: nat, lazy: bool)

  /** What makes skipping sound.  Nodes are immutable but for the caches of thunks: the same
      object draws the same picture, and has the same count, wherever it occurs.  Functions are
      pure: equal function and arguments (the refs of a thunk) give nodes that draw the same and
      have the same kind of root. */
  ghost predicate Honest(v: VNode, objects: int -> Known, calls: seq<int> -> Call)
    decreases v
  {
    objects(v.obj) == Known(Draw(v), Descendants(v), Lazy(v)) &&
    match v
    case Text(_, _) => true
    case Node(_, _, _, _, kids, _) => forall i :: 0 <= i < |kids| ==> Honest(kids[i], objects, calls)
    case KeyedNode(_, _, _, _, pairs, _) => forall i :: 0 <= i < |pairs| ==> Honest(pairs[i].node, objects, calls)
    case Tagger(_, _, node, _) => Honest(node, objects, calls)
    case Thunk(_, refs, node, _) => calls(refs) == Call(Draw(node), RootShape(node)) && Honest(node, objects, calls)
  }

  lemma HonestBelow(v: VNode, objects: int -> Known, calls: seq<int> -> Call)
    requires Honest(v, objects, calls)
    ensures Honest(Below(v), objects, calls)
  {
  }

  lemma CountedBelow(v: VNode)
    requires Counted(v)
    ensures Counted(Below(v))
    ensures Descendants(v) >= Descendants(Below(v)) + (if v.Tagger? then 1 else 0)
  {
  }
}
