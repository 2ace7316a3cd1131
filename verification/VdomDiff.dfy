/** The difference of two virtual nodes as a list of patches. */
module VdomDiff {
  import opened Wrappers
  import opened VdomFacts
  import opened VdomNodes
  import opened VdomKeyedPlan

  /** The name of a DOM node. */
  type Ref = nat

  /** `dom` is the field __domNode, unset until the patch is attached to the document. */
  datatype Patch = Patch(index: nat, action: Action, dom: Option<Ref>)

  datatype Action =
    | Redraw(node: VNode)
    | SetFacts(change: Change)
    | SetText(text: string)
    | Inside(patches: seq<Patch>)                 // __3_THUNK
    | Retag(taggers: seq<int>)                    // __3_TAGGER
    | RemoveLast(length: nat, diff: nat)
    | Append(length: nat, kids: seq<VNode>)
    | Remove(move: Option<Move>)
    | Reorder(patches: seq<Patch>, inserts: seq<Insert>, ends: seq<Insert>, entries: seq<Entry>)

  /** The data of a removal that is half of a move: patches for the moved node, and the entry. */
  datatype Move = Move(patches: seq<Patch>, entry: nat)

  /** An insertion of an entry, at an index unless it is an end insert.  An empty list of end
      inserts stands for the undefined list. */
  datatype Insert = Insert(at: Option<nat>, entry: nat)

  datatype EntryTag = INSERT | REMOVE | MOVE

  /** `node` is rendered when the tag is INSERT; `at` is the index to insert at, unset for an
      end insert. */
  datatype Entry = Entry(tag: EntryTag, node: VNode, at: Option<nat>)

  function NewPatch(index: nat, action: Action): Patch {
    Patch(index, action, None)
  }

  // ----- keyed children -----

  /** The new children, once more with the remembered one when the scan met the stale look-ahead. */
  function NewKids(p: Plan, ys: seq<Keyed>): seq<VNode> {
    Unkeyed(ys) + (if p.extra.Some? && p.extra.value < |ys| then [ys[p.extra.value].node] else [])
  }

  function PlanOf(xs: seq<Keyed>, ys: seq<Keyed>): Plan {
    MakePlan(Keys(xs), Keys(ys))
  }

  /** The new child that old child `a` turns into, if any. */
  function Target(p: Plan, a: nat): Option<nat> {
    if a >= |p.fates| then None
    else match p.fates[a]
      case Keep(j) => Some(j)
      case Leave(e) => if e < |p.owners| && p.owners[e].Moved? then Some(p.owners[e].j) else None
  }

  /** An old child moved to the end, which leaves its place before anything is patched. */
  ghost predicate ToEnd(p: Plan, a: nat) {
    a < |p.fates| && p.fates[a].Leave? && p.fates[a].entry < |p.owners| &&
    p.owners[p.fates[a].entry].Moved? && p.owners[p.fates[a].entry].atEnd
  }

  /** An old child moved to an index: out of the document between its removal and its insertion. */
  ghost predicate Between(p: Plan, a: nat) {
    a < |p.fates| && p.fates[a].Leave? && p.fates[a].entry < |p.owners| &&
    p.owners[p.fates[a].entry].Moved? && !p.owners[p.fates[a].entry].atEnd
  }

  function EntryOf(o: Owner, xs: seq<Keyed>, news: seq<VNode>): Entry {
    match o
    case Removed(a) =>
      Entry(REMOVE, if a < |xs| then xs[a].node else Text(0, ""), None)
    case Inserted(j, atEnd) =>
      Entry(INSERT, if j < |news| then news[j] else Text(0, ""), if atEnd then None else Some(j))
    case Moved(a, j, atEnd, late) =>
      Entry(MOVE, if late && a < |xs| then xs[a].node else if !late && j < |news| then news[j] else Text(0, ""),
            if atEnd then None else Some(j))
  }

  function EntriesOf(p: Plan, xs: seq<Keyed>, news: seq<VNode>): seq<Entry> {
    seq(|p.owners|, e requires 0 <= e < |p.owners| => EntryOf(p.owners[e], xs, news))
  }

  function InsertsOf(p: Plan): seq<Insert> {
    seq(|p.inserts|, k requires 0 <= k < |p.inserts| => Insert(Some(NewOf(p, p.inserts[k])), p.inserts[k]))
  }

  function EndsOf(p: Plan): seq<Insert> {
    seq(|p.ends|, k requires 0 <= k < |p.ends| => Insert(None, p.ends[k]))
  }

  // ----- the difference -----

  function Diff(x: VNode, y: VNode, index: nat): seq<Patch>
    decreases x, 1, 0
  {
    if x.obj == y.obj then []
    else match (x, y)
      case (Thunk(_, xRefs, xNode, _), Thunk(_, yRefs, yNode, _)) =>
        if xRefs == yRefs then []
        else
          var sub := Diff(xNode, yNode, 0);
          if |sub| > 0 then [NewPatch(index, Inside(sub))] else []
      case (Tagger(_, _, _, _), Tagger(_, _, _, _)) =>
        if |Taggers(x)| != |Taggers(y)| then [NewPatch(index, Redraw(y))]
        else
          (if Taggers(x) != Taggers(y) then [NewPatch(index, Retag(Taggers(y)))] else [])
          + Diff(Below(x), Below(y), index + 1)
      case (Text(_, xText), Text(_, yText)) =>
        if xText != yText then [NewPatch(index, SetText(yText))] else []
      case (Node(_, _, _, _, _, _), Node(_, _, _, _, _, _)) =>
        DiffNodes(x, y, index)
      case (Node(_, _, _, _, _, _), KeyedNode(_, _, _, _, _, _)) =>
        DiffNodes(x, Dekey(y, y.obj), index)
      case (KeyedNode(_, _, _, _, _, _), KeyedNode(_, _, _, _, _, _)) =>
        DiffNodes(x, y, index)
      case _ => [NewPatch(index, Redraw(y))]
  }

  /** Elements of one kind: redraw under another tag, else facts first, then children. */
  function DiffNodes(x: VNode, y: VNode, index: nat): seq<Patch>
    requires (x.Node? && y.Node?) || (x.KeyedNode? && y.KeyedNode?)
    decreases x, 0, 1
  {
    if x.tag != y.tag || x.ns != y.ns then [NewPatch(index, Redraw(y))]
    else
      FactsPatch(x, y, index)
      + (if x.Node? then LengthPatch(x, y, index) + DiffKids(x, y, index, Least(|x.kids|, |y.kids|))
         else DiffKeyed(x, y, index))
  }

  function FactsPatch(x: VNode, y: VNode, index: nat): seq<Patch>
    requires (x.Node? && y.Node?) || (x.KeyedNode? && y.KeyedNode?)
  {
    var change := DiffFacts(x.facts, y.facts);
    if change != NO_CHANGE then [NewPatch(index, SetFacts(change))] else []
  }

  function Least(a: nat, b: nat): nat {
    if a < b then a else b
  }

  function LengthPatch(x: VNode, y: VNode, index: nat): seq<Patch>
    requires x.Node? && y.Node?
  {
    var m, n := |x.kids|, |y.kids|;
    if m > n then [NewPatch(index, RemoveLast(n, m - n))]
    else if m < n then [NewPatch(index, Append(m, y.kids))]
    else []
  }

  /** The patches of the first `n` children, pairwise. */
  function DiffKids(x: VNode, y: VNode, index: nat, n: nat): seq<Patch>
    requires x.Node? && y.Node? && n <= |x.kids| && n <= |y.kids|
    decreases x, 0, 0, n
  {
    if n == 0 then []
    else DiffKids(x, y, index, n - 1) + Diff(x.kids[n - 1], y.kids[n - 1], index + 1 + Span(x.kids, n - 1))
  }

  function DiffKeyed(x: VNode, y: VNode, index: nat): seq<Patch>
    requires x.KeyedNode? && y.KeyedNode?
    decreases x, 0, 0, |x.pairs| + 1
  {
    var p := PlanOf(x.pairs, y.pairs);
    var news := NewKids(p, y.pairs);
    var locals := Locals(x, news, p, index, |x.pairs|);
    if |locals| > 0 || |p.inserts| > 0 || |p.ends| > 0
    then [NewPatch(index, Reorder(locals, InsertsOf(p), EndsOf(p), EntriesOf(p, x.pairs, news)))]
    else []
  }

  /** The patches for the first `n` old children. */
  function Locals(x: VNode, news: seq<VNode>, p: Plan, index: nat, n: nat): seq<Patch>
    requires x.KeyedNode? && n <= |x.pairs|
    decreases x, 0, 0, n
  {
    if n == 0 then []
    else
      var a := n - 1;
      var at := index + 1 + Span(Kids(x), a);
      var t := Target(p, a);
      var sub := if t.Some? && t.value < |news| then Diff(x.pairs[a].node, news[t.value], at) else [];
      Locals(x, news, p, index, a) + Segment(p, a, at, sub)
  }

  /** The patches for old child `a` at index `at`, given those that turn it into its target. */
  function Segment(p: Plan, a: nat, at: nat, sub: seq<Patch>): seq<Patch> {
    if a >= |p.fates| then []
    else if p.fates[a].Keep? then sub
    else if Target(p, a).None? then [NewPatch(at, Remove(None))]
    else [NewPatch(at, Remove(Some(Move(sub, p.fates[a].entry))))]
  }
}
