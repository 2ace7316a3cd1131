/** When patching is right: conditions on the two nodes, to be read off before patching. */
module VdomSound {
  import opened VdomFacts
  import opened VdomNodes
  import opened VdomKeyedPlan
  import opened VdomDiff

  /** The difference redraws the root. */
  ghost predicate Replaces(x: VNode, y: VNode)
    decreases x
  {
    x.obj != y.obj &&
    match (x, y)
    case (Thunk(_, xRefs, xNode, _), Thunk(_, yRefs, yNode, _)) => xRefs != yRefs && Replaces(xNode, yNode)
    case (Tagger(_, _, _, _), Tagger(_, _, _, _)) => |Taggers(x)| != |Taggers(y)| || Replaces(Below(x), Below(y))
    case (Text(_, _), Text(_, _)) => false
    case (Node(_, _, _, _, _, _), Node(_, _, _, _, _, _)) => x.tag != y.tag || x.ns != y.ns
    case (Node(_, _, _, _, _, _), KeyedNode(_, _, _, _, _, _)) => x.tag != y.tag || x.ns != y.ns
    case (KeyedNode(_, _, _, _, _, _), KeyedNode(_, _, _, _, _, _)) => x.tag != y.tag || x.ns != y.ns
    case _ => true
  }

  /** The root is redrawn inside a thunk: the new root is not returned, because the patch of a
      thunk has no DOM node to compare with the old one. */
  ghost predicate Lost(x: VNode, y: VNode)
    decreases x
  {
    x.obj != y.obj &&
    match (x, y)
    case (Thunk(_, xRefs, xNode, _), Thunk(_, yRefs, yNode, _)) => xRefs != yRefs && Replaces(xNode, yNode)
    case (Tagger(_, _, _, _), Tagger(_, _, _, _)) => |Taggers(x)| == |Taggers(y)| && Lost(Below(x), Below(y))
    case _ => false
  }

  /** Wherever the difference descends, the names of facts are kept, no scan meets the stale
      look-ahead, and no child moved to an index is a thunk whose root is redrawn (unless both
      look alike).  All can be read off the two nodes before patching. */
  ghost predicate Sound(x: VNode, y: VNode)
    decreases x, 1
  {
    x.obj == y.obj ||
    match (x, y)
    case (Thunk(_, xRefs, xNode, _), Thunk(_, yRefs, yNode, _)) => xRefs == yRefs || Sound(xNode, yNode)
    case (Tagger(_, _, _, _), Tagger(_, _, _, _)) => |Taggers(x)| != |Taggers(y)| || Sound(Below(x), Below(y))
    case (Node(_, _, _, _, _, _), Node(_, _, _, _, _, _)) => SoundElements(x, y)
    case (Node(_, _, _, _, _, _), KeyedNode(_, _, _, _, _, _)) => SoundElements(x, Dekey(y, y.obj))
    case (KeyedNode(_, _, _, _, _, _), KeyedNode(_, _, _, _, _, _)) => SoundElements(x, y)
    case _ => true
  }

  ghost predicate SoundElements(x: VNode, y: VNode)
    requires (x.Node? && y.Node?) || (x.KeyedNode? && y.KeyedNode?)
    decreases x, 0
  {
    x.tag != y.tag || x.ns != y.ns ||
    (FactsKept(x.facts, y.facts) &&
     if x.Node? then forall j :: 0 <= j < |x.kids| && j < |y.kids| ==> Sound(x.kids[j], y.kids[j])
     else
       var p := PlanOf(x.pairs, y.pairs);
       var news := NewKids(p, y.pairs);
       p.extra.None? &&
       forall a :: 0 <= a < |x.pairs| && Target(p, a).Some? && Target(p, a).value < |news| ==>
         SoundChild(p, a, x.pairs[a].node, news[Target(p, a).value]))
  }

  /** An old child that is moved to an index loses the new root of a thunk; the old one, which
      is inserted, will do when it looks like the new. */
  ghost predicate SoundChild(p: Plan, a: nat, v: VNode, w: VNode)
    decreases v, 2
  {
    if Between(p, a) && Lost(v, w) then Draw(v) == Draw(w) else Sound(v, w)
  }
}
