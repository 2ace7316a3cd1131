/** Patching the document with the difference of two nodes makes it show the second. */
module VdomTheorem {
  import opened Wrappers
  import opened VdomFacts
  import opened VdomNodes
  import opened VdomKeyedPlan
  import opened VdomDiff
  import opened VdomDocument
  import opened VdomPatching
  import opened VdomSteps
  import opened VdomRendering
  import opened VdomActions
  import opened VdomNumbering
  import opened VdomSound
  import opened VdomTurns
  import opened VdomReorder
  import opened VdomReorderEnds
  import opened VdomReorderInserts
  import opened VdomReorderFinish
  import opened VdomReorderLocals

  // ----- looking at elements -----

  lemma DekeySame(y: VNode)
    requires y.KeyedNode?
    ensures Draw(Dekey(y, y.obj)) == Draw(y)
  {
    DrawKids(y);
    DrawKids(Dekey(y, y.obj));
    assert Draw(Dekey(y, y.obj)).kids == Draw(y).kids;
  }

  /** Two elements look alike when their facts and their children do. */
  lemma SeeElement(u: Tree, y: VNode)
    requires u.ElementTree? && (y.Node? || y.KeyedNode?) && u.tag == y.tag && u.ns == y.ns
    ensures See(u) == Draw(y) <==>
      Seen(u.facts) == Seen(Fresh(y.facts)) && |u.kids| == |Kids(y)| &&
      forall j :: 0 <= j < |u.kids| ==> See(u.kids[j]) == Draw(Kids(y)[j])
  {
    DrawKids(y);
    assert See(u).kids == Pictures(u.kids);
    if Seen(u.facts) == Seen(Fresh(y.facts)) && |u.kids| == |Kids(y)| &&
       forall j :: 0 <= j < |u.kids| ==> See(u.kids[j]) == Draw(Kids(y)[j]) {
      assert Pictures(u.kids) == Draw(y).kids;
    }
    if See(u) == Draw(y) {
      forall j | 0 <= j < |u.kids| ensures See(u.kids[j]) == Draw(Kids(y)[j]) {
        assert See(u).kids[j] == Draw(y).kids[j];
      }
    }
  }

  /** The children of t are what x draws. */
  ghost predicate ShowsKids(t: Tree, x: VNode) {
    t.ElementTree? && |t.kids| == |Kids(x)| && forall j :: 0 <= j < |t.kids| ==> See(t.kids[j]) == Draw(Kids(x)[j])
  }

  lemma SeeKids(t: Tree, x: VNode)
    requires (x.Node? || x.KeyedNode?) && See(t) == Draw(x)
    ensures ShowsKids(t, x) && t.tag == x.tag && t.ns == x.ns
  {
    DrawKids(x);
    SeeElement(t, x);
  }

  lemma HonestSame(x: VNode, y: VNode, objects: int -> Known, calls: seq<int> -> Call)
    requires Honest(x, objects, calls) && Honest(y, objects, calls)
    ensures x.obj == y.obj ==> Draw(x) == Draw(y)
    ensures x.Thunk? && y.Thunk? && x.refs == y.refs ==> Draw(x) == Draw(y)
    ensures x.Thunk? && y.Thunk? ==> Honest(x.node, objects, calls) && Honest(y.node, objects, calls)
  {
  }

  lemma HonestKids(v: VNode, objects: int -> Known, calls: seq<int> -> Call)
    requires Honest(v, objects, calls)
    ensures AllHonest(Kids(v), objects, calls)
  {
  }

  ghost predicate AllHonest(vs: seq<VNode>, objects: int -> Known, calls: seq<int> -> Call) {
    forall j :: 0 <= j < |vs| ==> Honest(vs[j], objects, calls)
  }

  // ----- the theorem -----

  lemma {:induction false} Patched(x: VNode, y: VNode, index: nat, d: Doc, t: Tree,
                                   objects: int -> Known, calls: seq<int> -> Call)
    returns (e: Doc, u: Tree, r: Ref)
    requires Rooted(d, t) && See(t) == Draw(x)
    requires Counted(x) && Honest(x, objects, calls) && Honest(y, objects, calls)
    ensures Outcome(x, y, AttachAll(Diff(x, y, index), x, t, index), d, t, e, u, r)
    decreases x, 1, 0
  {
    hide Rooted, See, Draw, Honest, Counted, Ended, Only, Outcome, Became;
    HonestSame(x, y, objects, calls);
    if x.obj == y.obj {
      BecameNone(d, t);
      e, u, r := d, t, t.ref;
      OutcomeOf(x, y, [], d, t, d, t);
    } else {
      match (x, y)
      case (Thunk(_, _, _, _), Thunk(_, _, _, _)) => e, u, r := PatchedThunk(x, y, index, d, t, objects, calls);
      case (Tagger(_, _, _, _), Tagger(_, _, _, _)) => e, u, r := PatchedTagger(x, y, index, d, t, objects, calls);
      case _ => e, u := PatchedOther(x, y, index, d, t, objects, calls); r := u.ref;
    }
  }

  lemma {:induction false} PatchedOther(x: VNode, y: VNode, index: nat, d: Doc, t: Tree,
                                        objects: int -> Known, calls: seq<int> -> Call)
    returns (e: Doc, u: Tree)
    requires Rooted(d, t) && See(t) == Draw(x) && x.obj != y.obj
    requires !(x.Thunk? && y.Thunk?) && !(x.Tagger? && y.Tagger?)
    requires Counted(x) && Honest(x, objects, calls) && Honest(y, objects, calls)
    ensures Outcome(x, y, AttachAll(Diff(x, y, index), x, t, index), d, t, e, u, u.ref)
    decreases x, 0, 2
  {
    hide Rooted, See, Draw, Honest, Counted, Became, Only, Outcome;
    match (x, y) {
      case (Text(_, _), Text(_, _)) => e, u := PatchedText(x, y, index, d, t);
      case (Node(_, _, _, _, _, _), Node(_, _, _, _, _, _)) =>
        HonestKids(y, objects, calls);
        e, u := PatchedNode(x, y, index, d, t, objects, calls);
      case (Node(_, _, _, _, _, _), KeyedNode(_, _, _, _, _, _)) =>
        DekeySame(y);
        HonestKids(y, objects, calls);
        e, u := PatchedNode(x, Dekey(y, y.obj), index, d, t, objects, calls);
      case (KeyedNode(_, _, _, _, _, _), KeyedNode(_, _, _, _, _, _)) =>
        HonestKids(y, objects, calls);
        e, u := PatchedKeyed(x, y, index, d, t, objects, calls);
      case _ => e, u := RedrawTurn(index, y, x, d, t);
    }
    OutcomeOf(x, y, AttachAll(Diff(x, y, index), x, t, index), d, t, e, u);
  }

  lemma PatchedText(x: VNode, y: VNode, index: nat, d: Doc, t: Tree) returns (e: Doc, u: Tree)
    requires Rooted(d, t) && See(t) == Draw(x) && x.Text? && y.Text? && x.obj != y.obj
    ensures Became(AttachAll(Diff(x, y, index), x, t, index), d, t, e, u)
    ensures See(u) == Draw(y) && u.ref == t.ref
  {
    hide Became;
    if x.text != y.text {
      e, u := TextTurn(index, y.text, x, d, t);
    } else {
      BecameNone(d, t);
      e, u := d, t;
    }
  }

  lemma {:induction false} PatchedThunk(x: VNode, y: VNode, index: nat, d: Doc, t: Tree,
                                        objects: int -> Known, calls: seq<int> -> Call)
    returns (e: Doc, u: Tree, r: Ref)
    requires Rooted(d, t) && See(t) == Draw(x) && x.Thunk? && y.Thunk? && x.obj != y.obj
    requires Counted(x) && Honest(x, objects, calls) && Honest(y, objects, calls)
    ensures Outcome(x, y, AttachAll(Diff(x, y, index), x, t, index), d, t, e, u, r)
    decreases x, 0, 0
  {
    HonestSame(x, y, objects, calls);
    hide Rooted, See, Honest, Ended, Attach, Only, Outcome, Became;
    if x.refs == y.refs {
      BecameNone(d, t);
      e, u, r := d, t, t.ref;
      OutcomeOf(x, y, [], d, t, d, t);
    } else {
      e, u, r := Patched(x.node, y.node, 0, d, t, objects, calls);
      ThunkOutcome(x, y, index, d, t, e, u, r);
      r := t.ref;
    }
  }

  lemma ThunkOutcome(x: VNode, y: VNode, index: nat, d: Doc, t: Tree, e: Doc, u: Tree, r: Ref)
    requires x.Thunk? && y.Thunk? && x.obj != y.obj && x.refs != y.refs
    requires Outcome(x.node, y.node, AttachAll(Diff(x.node, y.node, 0), x.node, t, 0), d, t, e, u, r)
    ensures Outcome(x, y, AttachAll(Diff(x, y, index), x, t, index), d, t, e, u, t.ref)
  {
    hide Ended, AttachAll, See, Only;
    var sub := Diff(x.node, y.node, 0);
    if |sub| > 0 {
      InsideTurn(sub, x, index, d, t, e, u, r);
    } else if Replaces(x.node, y.node) {
      NothingReplaced(x.node, y.node, 0);
    } else {
      AttachNone(x.node, t, 0);
      AttachNone(x, t, index);
    }
  }

  /** Redrawing takes a patch. */
  lemma {:induction false} NothingReplaced(x: VNode, y: VNode, index: nat)
    requires Replaces(x, y)
    ensures Diff(x, y, index) != []
    decreases x
  {
    match (x, y)
    case (Thunk(_, _, _, _), Thunk(_, _, _, _)) => NothingReplaced(x.node, y.node, 0);
    case (Tagger(_, _, _, _), Tagger(_, _, _, _)) =>
      if |Taggers(x)| == |Taggers(y)| { NothingReplaced(Below(x), Below(y), index + 1); }
    case _ =>
  }

  lemma {:induction false} PatchedTagger(x: VNode, y: VNode, index: nat, d: Doc, t: Tree,
                                         objects: int -> Known, calls: seq<int> -> Call)
    returns (e: Doc, u: Tree, r: Ref)
    requires Rooted(d, t) && See(t) == Draw(x) && x.Tagger? && y.Tagger? && x.obj != y.obj
    requires Counted(x) && Honest(x, objects, calls) && Honest(y, objects, calls)
    ensures Outcome(x, y, AttachAll(Diff(x, y, index), x, t, index), d, t, e, u, r)
    decreases x, 0, 0
  {
    hide Rooted, See, Draw, Honest, Counted, Ended, AttachAll, Taggers, Diff, Sound, Below, Outcome, Only, Lost,
      Replaces;
    if |Taggers(x)| != |Taggers(y)| {
      e, u := TaggerRedrawn(x, y, index, d, t);
      r := u.ref;
    } else {
      BelowTagger(x, y, index, t, objects, calls);
      e, u, r := Patched(Below(x), Below(y), index + 1, d, t, objects, calls);
      TaggerOutcome(x, y, index, Diff(Below(x), Below(y), index + 1), d, t, e, u, r);
    }
  }

  lemma TaggerRedrawn(x: VNode, y: VNode, index: nat, d: Doc, t: Tree) returns (e: Doc, u: Tree)
    requires Rooted(d, t) && x.Tagger? && y.Tagger? && x.obj != y.obj && |Taggers(x)| != |Taggers(y)|
    ensures Outcome(x, y, AttachAll(Diff(x, y, index), x, t, index), d, t, e, u, u.ref)
  {
    DiffTaggers(x, y, index);
    hide Rooted, See, Draw, Attach, AttachAll, Taggers, Diff, Sound, Below, Outcome, Only, Lost, Replaces, Became;
    e, u := RedrawTurn(index, y, x, d, t);
    OutcomeOf(x, y, AttachAll(Diff(x, y, index), x, t, index), d, t, e, u);
  }

  lemma BelowTagger(x: VNode, y: VNode, index: nat, t: Tree, objects: int -> Known, calls: seq<int> -> Call)
    requires x.Tagger? && y.Tagger? && Counted(x) && Honest(x, objects, calls) && Honest(y, objects, calls)
    ensures Draw(Below(x)) == Draw(x) && Draw(Below(y)) == Draw(y) && Counted(Below(x))
    ensures Honest(Below(x), objects, calls) && Honest(Below(y), objects, calls)
    ensures Below(x) < x
    ensures var ps := Diff(Below(x), Below(y), index + 1);
      AttachAll(ps, x, t, index) == AttachAll(ps, Below(x), t, index + 1)
  {
    hide Diff, Honest, Counted, Draw, Attach, AttachAll, Locate;
    HonestBelow(x, objects, calls);
    HonestBelow(y, objects, calls);
    CountedBelow(x);
    DrawBelow(x);
    DrawBelow(y);
    DiffInRange(Below(x), Below(y), index + 1);
    AttachBelow(Diff(Below(x), Below(y), index + 1), x, t, index, index + 1 + Descendants(Below(x)));
  }

  lemma TaggerOutcome(x: VNode, y: VNode, index: nat, ps: seq<Patch>, d: Doc, t: Tree, e: Doc, u: Tree, r: Ref)
    requires x.Tagger? && y.Tagger? && x.obj != y.obj && |Taggers(x)| == |Taggers(y)|
    requires ps == Diff(Below(x), Below(y), index + 1)
    requires Outcome(Below(x), Below(y), AttachAll(ps, x, t, index), d, t, e, u, r)
    ensures Outcome(x, y, AttachAll(Diff(x, y, index), x, t, index), d, t, e, u, r)
  {
    DiffTaggers(x, y, index);
    DrawBelow(y);
    hide Ended, Attach, AttachAll, Taggers, Diff, Sound, Below, Lost, Replaces, Only, See, Draw;
    if Taggers(x) != Taggers(y) {
      RetagTurn(Taggers(y), ps, x, index, d, t, e, u, r);
    }
  }

  lemma DiffTaggers(x: VNode, y: VNode, index: nat)
    requires x.Tagger? && y.Tagger? && x.obj != y.obj
    ensures var ps := Diff(Below(x), Below(y), index + 1);
      Diff(x, y, index) ==
        if |Taggers(x)| != |Taggers(y)| then [NewPatch(index, Redraw(y))]
        else if Taggers(x) != Taggers(y) then [NewPatch(index, Retag(Taggers(y)))] + ps
        else ps
    ensures Sound(x, y) <==> |Taggers(x)| != |Taggers(y)| || Sound(Below(x), Below(y))
    ensures Replaces(x, y) <==> |Taggers(x)| != |Taggers(y)| || Replaces(Below(x), Below(y))
    ensures Lost(x, y) <==> |Taggers(x)| == |Taggers(y)| && Lost(Below(x), Below(y))
  {
    hide Taggers, Below, SoundElements, DiffNodes;
    assert [] + Diff(Below(x), Below(y), index + 1) == Diff(Below(x), Below(y), index + 1);
  }

  lemma {:induction false} PatchedKids(x: VNode, y: VNode, index: nat, n: nat, d: Doc, t: Tree, t0: Tree,
                                       objects: int -> Known, calls: seq<int> -> Call)
    returns (e: Doc, u: Tree)
    requires x.Node? && y.Node? && n <= |x.kids| && n <= |y.kids|
    requires Rooted(d, t) && t.ElementTree? && ShowsKids(t0, x)
    requires n <= |t.kids| && forall j :: 0 <= j < n ==> t.kids[j] == t0.kids[j]
    requires Counted(x) && AllHonest(x.kids, objects, calls) && AllHonest(y.kids, objects, calls)
    ensures u.ElementTree? && u == t.(kids := u.kids) && |u.kids| == |t.kids|
    ensures forall j :: n <= j < |t.kids| ==> u.kids[j] == t.kids[j]
    ensures forall j :: 0 <= j < n ==> (See(u.kids[j]) == Draw(y.kids[j]) <==> Sound(x.kids[j], y.kids[j]))
    ensures Became(AttachAll(DiffKids(x, y, index, n), x, t0, index), d, t, e, u)
    decreases x, 0, 0, n
  {
    hide Rooted, See, Draw, Honest, Ended, Became, Attach, Sound, AttachAll, Diff, Outcome;
    if n == 0 {
      BecameNone(d, t);
      AttachNone(x, t0, index);
      e, u := d, t;
    } else {
      var j := n - 1;
      var e1, u1 := PatchedKids(x, y, index, j, d, t, t0, objects, calls);
      BecameRooted(AttachAll(DiffKids(x, y, index, j), x, t0, index), d, t, e1, u1);
      KidRooted(e1, u1, j);
      var xk, yk, k := x.kids[j], y.kids[j], u1.kids[j];
      var at := index + 1 + Span(x.kids, j);
      CountedKids(x);
      hide Counted, Span;
      var e2, k2, r2 := Patched(xk, yk, at, e1, k, objects, calls);
      OutcomeIs(xk, yk, AttachAll(Diff(xk, yk, at), xk, k, at), e1, k, e2, k2, r2);
      e, u := e2, WithKid(u1, j, k2);
      DiffInRange(xk, yk, at);
      AttachKid(Diff(xk, yk, at), x, t0, index, j);
      AttachAppend(DiffKids(x, y, index, j), Diff(xk, yk, at), x, t0, index);
      BecameKid(AttachAll(Diff(xk, yk, at), xk, k, at), e1, u1, j, e2, k2, r2);
      BecameThen(AttachAll(DiffKids(x, y, index, j), x, t0, index), AttachAll(Diff(xk, yk, at), xk, k, at), d, t, e1,
        u1, e2, u);
    }
  }

  lemma AttachNone(x: VNode, t: Tree, index: nat)
    ensures AttachAll([], x, t, index) == []
  {
  }

  lemma BecameRooted(ps: seq<Patch>, d: Doc, t: Tree, e: Doc, u: Tree)
    requires Became(ps, d, t, e, u)
    ensures Rooted(e, u)
  {
  }

  lemma {:induction false} PatchedNode(x: VNode, y: VNode, index: nat, d: Doc, t: Tree,
                                       objects: int -> Known, calls: seq<int> -> Call)
    returns (e: Doc, u: Tree)
    requires x.Node? && y.Node? && Rooted(d, t) && See(t) == Draw(x)
    requires Counted(x) && Honest(x, objects, calls) && AllHonest(y.kids, objects, calls)
    ensures Became(AttachAll(DiffNodes(x, y, index), x, t, index), d, t, e, u)
    ensures See(u) == Draw(y) <==> SoundElements(x, y)
    ensures u.ref != t.ref <==> x.tag != y.tag || x.ns != y.ns
    ensures u.ref != t.ref && t.ref !in d.parent ==> Only(d, e, {}, {})
    decreases x, 0, 1
  {
    hide Rooted, See, Draw, Honest, Counted, Became, Attach, AttachAll, DiffFacts, Seen, Fresh, FactsKept, Diff,
      Sound;
    if x.tag != y.tag || x.ns != y.ns {
      e, u := RedrawTurn(index, y, x, d, t);
    } else {
      SeeKids(t, x);
      HonestKids(x, objects, calls);
      var m := Least(|x.kids|, |y.kids|);
      var ps, qs, rs := FactsPatch(x, y, index), LengthPatch(x, y, index), DiffKids(x, y, index, m);
      var e1, u1 := FactsTurn(x, y, index, d, t);
      BecameRooted(AttachAll(ps, x, t, index), d, t, e1, u1);
      var e2, u2 := LengthTurn(x, y, index, e1, u1, t);
      BecameRooted(AttachAll(qs, x, t, index), e1, u1, e2, u2);
      e, u := PatchedKids(x, y, index, m, e2, u2, t, objects, calls);
      BecameThen(AttachAll(qs, x, t, index), AttachAll(rs, x, t, index), e1, u1, e2, u2, e, u);
      BecameThen(AttachAll(ps, x, t, index), AttachAll(qs, x, t, index) + AttachAll(rs, x, t, index), d, t, e1, u1,
        e, u);
      AttachAppend(qs, rs, x, t, index);
      AttachAppend(ps, qs + rs, x, t, index);
      SeeElement(u, y);
    }
  }

  // ----- keyed children -----

  /** The first n old children with targets have turned into them as far as patching is right. */
  ghost predicate LocalsSound(x: VNode, news: seq<VNode>, p: Plan, cur: seq<Tree>, n: nat)
    requires x.KeyedNode?
  {
    n <= |cur| && n <= |x.pairs| &&
    forall a :: 0 <= a < n && Target(p, a).Some? && Target(p, a).value < |news| ==>
      var w := news[Target(p, a).value];
      See(cur[a]) == Draw(w) <==> SoundChild(p, a, x.pairs[a].node, w)
  }

  /** What is known while the old children of x are patched: t0 is the tree before. */
  ghost predicate Reordering(x: VNode, ys: seq<Keyed>, t0: Tree, p: Plan, news: seq<VNode>, entries: seq<Entry>,
                             objects: int -> Known, calls: seq<int> -> Call) {
    && x.KeyedNode? && Counted(x) && ShowsKids(t0, x) && p == PlanOf(x.pairs, ys) && news == NewKids(p, ys)
    && Good(p) && |p.fates| == |x.pairs| && EntriesFor(entries, p, news) && TargetsBelow(p, |news|)
    && AllHonest(Kids(x), objects, calls) && AllHonest(news, objects, calls)
  }

  lemma ReorderingParts(x: VNode, ys: seq<Keyed>, t0: Tree, p: Plan, news: seq<VNode>, entries: seq<Entry>,
                        objects: int -> Known, calls: seq<int> -> Call, a: nat)
    requires Reordering(x, ys, t0, p, news, entries, objects, calls) && a < |x.pairs|
    ensures Good(p) && |p.fates| == |x.pairs| == |t0.kids| && EntriesFor(entries, p, news) && t0.ElementTree?
    ensures Counted(x) && Counted(x.pairs[a].node) && Honest(x.pairs[a].node, objects, calls)
    ensures See(t0.kids[a]) == Draw(x.pairs[a].node) && Kids(x)[a] == x.pairs[a].node
    ensures Target(p, a).Some? ==> Target(p, a).value < |news| && Honest(news[Target(p, a).value], objects, calls)
  {
    hide Good, EntriesFor, Target, See, Draw, Honest, PlanOf, NewKids;
    CountedKids(x);
    assert Honest(Kids(x)[a], objects, calls);
  }

  /** An outcome, for a child that is inserted later or not. */
  lemma ChildOutcome(p: Plan, a: nat, v: VNode, w: VNode, ps: seq<Patch>, d: Doc, k: Tree, e: Doc, c: Tree, r: Ref)
    requires Outcome(v, w, ps, d, k, e, c, r) && See(k) == Draw(v) && (Between(p, a) ==> k.ref !in d.parent)
    ensures Ended(ps, d, k, e, c, r)
    ensures Between(p, a) ==> r == c.ref || (r == k.ref && Only(d, e, {}, {}))
    ensures See(if Between(p, a) && r != c.ref then k else c) == Draw(w) <==> SoundChild(p, a, v, w)
  {
    if Lost(v, w) { LostReplaces(v, w); }
    hide Sound, Replaces, Lost, See, Draw, Only, Ended, Between;
  }

  lemma {:induction false} LostReplaces(v: VNode, w: VNode)
    requires Lost(v, w)
    ensures Replaces(v, w)
    decreases v
  {
    if v.Tagger? && w.Tagger? { LostReplaces(Below(v), Below(w)); }
  }

  lemma {:induction false} PatchedLocals(x: VNode, ys: seq<Keyed>, p: Plan, news: seq<VNode>, index: nat, n: nat,
                                         d0: Doc, t: Tree, t0: Tree,
                                         d: Doc, f0: Forest, moved0: map<nat, Ref>, entries: seq<Entry>,
                                         objects: int -> Known, calls: seq<int> -> Call)
    returns (e: Doc, f: Forest, moved: map<nat, Ref>)
    requires Reordering(x, ys, t0, p, news, entries, objects, calls) && x.KeyedNode? && n <= |x.pairs|
    requires Patching(d0, t, d, f0, p, news, moved0, 0) && t0.ElementTree? && f0.cur == t0.kids
    ensures Patching(d0, t, e, f, p, news, moved, n) && f.frag.ref == f0.frag.ref
    ensures |f.cur| == |t0.kids| && forall a :: n <= a < |t0.kids| ==> f.cur[a] == t0.kids[a]
    ensures LocalsSound(x, news, p, f.cur, n)
    ensures Applies(AttachAll(Locals(x, news, p, index, n), x, t0, index), d, t.ref, entries, moved0, e, moved)
    decreases x, 0, 0, n
  {
    hide Reordering, Patching, Applies, AttachAll, Diff, Outcome, LocalsSound, See, Draw, Honest, Counted, Good,
      Span, EntriesFor, Detach, Ended, Only, Rooted, SoundChild, SegmentAt, LocalPatches, Target, Locals;
    if n == 0 {
      e, f, moved := d, f0, moved0;
      NoLocals(x, news, p, index, t0, d, t.ref, entries, moved0, f0.cur);
    } else {
      var a := n - 1;
      var e1, f1, moved1 := PatchedLocals(x, ys, p, news, index, a, d0, t, t0, d, f0, moved0, entries, objects, calls);
      ReorderingParts(x, ys, t0, p, news, entries, objects, calls, a);
      var k := f1.cur[a];
      var at := index + 1 + Span(Kids(x), a);
      var tgt := Target(p, a);
      LocalAttached(x, news, p, index, a, t0);
      if tgt == None {
        f := DropAny(d0, t, e1, f1, p, news, moved1, a, at, LocalPatches(x, news, p, a, at, t0), entries);
        e, moved := Detach(e1, k.ref), moved1;
        LocalsNext(x, news, p, f1.cur, f.cur, a);
      } else {
        e, f, moved := PatchedChild(x, ys, p, news, at, a, d0, t, t0, e1, f1, moved1, entries, objects, calls);
        LocalsNext(x, news, p, f1.cur, f.cur, a);
      }
      AppliesThen(AttachAll(Locals(x, news, p, index, a), x, t0, index),
        SegmentAt(p, a, at, LocalPatches(x, news, p, a, at, t0), k.ref),
                  d, t.ref, entries, moved0, e1, moved1, e, moved);
    }
  }

  lemma {:induction false} PatchedChild(x: VNode, ys: seq<Keyed>, p: Plan, news: seq<VNode>, at: nat, a: nat,
                                        d0: Doc, t: Tree, t0: Tree,
                                        d: Doc, f: Forest, moved: map<nat, Ref>, entries: seq<Entry>,
                                        objects: int -> Known, calls: seq<int> -> Call)
    returns (e: Doc, g: Forest, moved': map<nat, Ref>)
    requires Reordering(x, ys, t0, p, news, entries, objects, calls) && x.KeyedNode? && a < |x.pairs| &&
      Target(p, a).Some?
    requires Patching(d0, t, d, f, p, news, moved, a) && t0.ElementTree? && |f.cur| == |t0.kids| == |x.pairs| &&
      f.cur[a] == t0.kids[a]
    ensures Patching(d0, t, e, g, p, news, moved', a + 1) && g.frag.ref == f.frag.ref
    ensures |g.cur| == |f.cur| && g.cur == f.cur[a := g.cur[a]] && Target(p, a).value < |news|
    ensures See(g.cur[a]) == Draw(news[Target(p, a).value]) <==>
      SoundChild(p, a, x.pairs[a].node, news[Target(p, a).value])
    ensures Applies(SegmentAt(p, a, at, LocalPatches(x, news, p, a, at, t0), f.cur[a].ref), d, t.ref, entries, moved,
      e, moved')
    decreases x, 0, 0, a
  {
    hide Reordering, Patching, Applies, AttachAll, Diff, Outcome, See, Draw, Honest, Counted, Good, EntriesFor,
      Detach, Ended, Only, Rooted, SoundChild, SegmentAt, Between;
    ReorderingParts(x, ys, t0, p, news, entries, objects, calls, a);
    var k := f.cur[a];
    var v, w := x.pairs[a].node, news[Target(p, a).value];
    var d1 := if Between(p, a) then Detach(d, k.ref) else d;
    ChildReady(d0, t, d, f, p, news, moved, a);
    var e2, c, r := Patched(v, w, at, d1, k, objects, calls);
    var qs := AttachAll(Diff(v, w, at), v, k, at);
    ChildOutcome(p, a, v, w, qs, d1, k, e2, c, r);
    e := e2;
    g, moved' := OneLocal(d0, t, d, f, p, news, moved, a, at, qs, e2, c, r, entries);
  }

  /** The attached patches of old child a towards its target. */
  function LocalPatches(x: VNode, news: seq<VNode>, p: Plan, a: nat, at: nat, t0: Tree): seq<Patch>
    requires x.KeyedNode? && a < |x.pairs| && t0.ElementTree? && a < |t0.kids|
  {
    var tgt := Target(p, a);
    AttachAll(if tgt.Some? && tgt.value < |news| then Diff(x.pairs[a].node, news[tgt.value], at)
      else [], x.pairs[a].node, t0.kids[a], at)
  }

  lemma LocalAttached(x: VNode, news: seq<VNode>, p: Plan, index: nat, a: nat, t0: Tree)
    requires x.KeyedNode? && Counted(x) && a < |x.pairs| && t0.ElementTree? && a < |t0.kids|
    ensures var at := index + 1 + Span(Kids(x), a);
      AttachAll(Locals(x, news, p, index, a + 1), x, t0, index) ==
      AttachAll(Locals(x, news, p, index, a), x, t0, index) +
        SegmentAt(p, a, at, LocalPatches(x, news, p, a, at, t0), t0.kids[a].ref)
  {
    hide Attach, AttachAll, Diff, Counted, Span, Target;
    var at := index + 1 + Span(Kids(x), a);
    var tgt := Target(p, a);
    var sub := if tgt.Some? && tgt.value < |news| then Diff(x.pairs[a].node, news[tgt.value], at) else [];
    SubIs(x, a, tgt, news, at);
    AttachAppend(Locals(x, news, p, index, a), Segment(p, a, at, sub), x, t0, index);
    SegmentAttached(p, a, sub, x, t0, index);
  }

  lemma DropAny(d0: Doc, t: Tree, d: Doc, f: Forest, p: Plan, news: seq<VNode>, moved: map<nat, Ref>, n: nat,
                at: nat, qs: seq<Patch>, entries: seq<Entry>) returns (g: Forest)
    requires Good(p) && Patching(d0, t, d, f, p, news, moved, n) && n < |p.fates| == |f.cur| && Target(p, n) == None
    ensures Patching(d0, t, Detach(d, f.cur[n].ref), g, p, news, moved, n + 1) && g.cur == f.cur &&
      g.frag.ref == f.frag.ref
    ensures Applies(SegmentAt(p, n, at, qs, f.cur[n].ref), d, t.ref, entries, moved, Detach(d, f.cur[n].ref), moved)
  {
    hide Good, Patching, Applies, Detach;
    g := DropLocal(d0, t, d, f, p, news, moved, n, at, entries);
  }

  lemma NoLocals(x: VNode, news: seq<VNode>, p: Plan, index: nat, t0: Tree, d: Doc, root: Ref, entries: seq<Entry>,
                 moved: map<nat, Ref>, cur: seq<Tree>)
    requires x.KeyedNode?
    ensures Applies(AttachAll(Locals(x, news, p, index, 0), x, t0, index), d, root, entries, moved, d, moved)
    ensures LocalsSound(x, news, p, cur, 0)
  {
    AttachNothing(x, t0, index);
  }

  lemma LocalsNext(x: VNode, news: seq<VNode>, p: Plan, cur: seq<Tree>, cur': seq<Tree>, a: nat)
    requires x.KeyedNode? && LocalsSound(x, news, p, cur, a) && a < |x.pairs| && a < |cur|
    requires |cur'| == |cur| && cur' == cur[a := cur'[a]]
    requires Target(p, a).Some? && Target(p, a).value < |news| ==>
      (See(cur'[a]) == Draw(news[Target(p, a).value]) <==> SoundChild(p, a, x.pairs[a].node, news[Target(p, a).value]))
    ensures LocalsSound(x, news, p, cur', a + 1)
  {
    hide See, Draw, SoundChild, Target;
  }

  lemma NewsHonest(p: Plan, y: VNode, objects: int -> Known, calls: seq<int> -> Call)
    requires y.KeyedNode? && AllHonest(Kids(y), objects, calls)
    ensures AllHonest(NewKids(p, y.pairs), objects, calls)
  {
    hide Honest;
    forall j | 0 <= j < |NewKids(p, y.pairs)| ensures Honest(NewKids(p, y.pairs)[j], objects, calls) {
      if j < |y.pairs| {
        assert Honest(Kids(y)[j], objects, calls);
      } else {
        assert Honest(Kids(y)[p.extra.value], objects, calls);
      }
    }
  }

  /** The reorder patch, or none when nothing is to be done, takes the document where it should. */
  lemma ReorderBecame(x: VNode, y: VNode, index: nat, p: Plan, news: seq<VNode>, entries: seq<Entry>, lps: seq<Patch>,
                      d: Doc, t: Tree, t0: Tree, e3: Doc, moved: map<nat, Ref>, e: Doc, u: Tree)
    requires x.KeyedNode? && y.KeyedNode? && p == PlanOf(x.pairs, y.pairs) && news == NewKids(p, y.pairs)
    requires entries == EntriesOf(p, x.pairs, news) && lps == AttachAll(Locals(x, news, p, index, |x.pairs|), x, t0,
      index)
    requires Rooted(d, t) && t0.ref == t.ref == u.ref && Step(d, t, e, u)
    requires Applies(lps, Filled0(d, p, entries, MovedRoots(lps, |lps|)), t.ref, entries, MovedRoots(lps, |lps|), e3,
      moved)
    requires e == Finish(e3, t.ref, d.next, p, entries, moved)
    ensures Became(AttachAll(DiffKeyed(x, y, index), x, t0, index), d, t, e, u)
  {
    hide Rooted, Step, Applies, Attach, Diff, Finish, Filled0, MovedRoots, ApplyAction, PlanOf, Locals, NewKids, Turns;
    var locals := Locals(x, news, p, index, |x.pairs|);
    if |locals| > 0 || |p.inserts| > 0 || |p.ends| > 0 {
      var q := NewPatch(index, ReorderAction(p, locals, entries));
      AttachOne(q, x, t0);
      hide AttachAll;
      var r := Patch(index, ReorderAction(p, lps, entries), Some(t.ref));
      forall s: State | s.doc == d ensures ApplyAction(s, t.ref, r.action) == (e, u.ref, s.moved) {
        ReorderApplies(d, t.ref, p, lps, entries, e3, moved, s);
      }
      BecameOne(r, d, t, e, u);
    } else {
      AttachNothing(x, t0, index);
      NothingApplied(d, t.ref, p, entries, MovedRoots(lps, |lps|), e3, moved);
      TurnsNone(d, t);
      EndedOf([], d, t, e, u, u.ref);
    }
  }

  lemma NothingApplied(d: Doc, dom: Ref, p: Plan, entries: seq<Entry>, moved: map<nat, Ref>, e: Doc,
                       moved': map<nat, Ref>)
    requires p.inserts == [] && p.ends == [] && Applies([], Filled0(d, p, entries, moved), dom, entries, moved, e,
      moved')
    ensures Finish(e, dom, d.next, p, entries, moved') == d
  {
  }

  lemma {:induction false} ReorderTurn(x: VNode, y: VNode, index: nat, d: Doc, t: Tree, t0: Tree,
                                       objects: int -> Known, calls: seq<int> -> Call)
    returns (e: Doc, u: Tree, cur: seq<Tree>)
    requires x.KeyedNode? && y.KeyedNode? && Rooted(d, t) && t.ElementTree? && t0.ElementTree? &&
      t.kids == t0.kids && t.ref == t0.ref
    requires ShowsKids(t0, x) && Counted(x) && AllHonest(Kids(x), objects, calls) && AllHonest(Kids(y), objects, calls)
    ensures Became(AttachAll(DiffKeyed(x, y, index), x, t0, index), d, t, e, u)
    ensures u.ElementTree? && u == t.(kids := u.kids)
    ensures var p := PlanOf(x.pairs, y.pairs); var news := NewKids(p, y.pairs);
      Arranged(u.kids, p, cur, news) && LocalsSound(x, news, p, cur, |x.pairs|)
    decreases x, 0, 0, |x.pairs| + 1
  {
    hide Rooted, Good, Counted, AllHonest, PlanOf, NewKids, Attach, Locals, Applies, Step, Arranged, LocalsSound,
      See, Draw,
         EntriesFor, TargetsBelow, MovedUpTo, MovedRoots, AttachAll, Filled0, Finish, DiffKeyed, Became;
    var p := PlanOf(x.pairs, y.pairs);
    var news := NewKids(p, y.pairs);
    var entries := EntriesOf(p, x.pairs, news);
    PlanFacts(x.pairs, y.pairs);
    PlanEntries(x.pairs, y.pairs);
    NewsHonest(p, y, objects, calls);
    hide EntriesOf;
    var lps := AttachAll(Locals(x, news, p, index, |x.pairs|), x, t0, index);
    var moved0 := MovedRoots(lps, |lps|);
    LocalsMove(x, news, p, index, t0, |x.pairs|);
    var f0 := PatchingFirst(d, t, p, news, entries, moved0);
    assert Reordering(x, y.pairs, t0, p, news, entries, objects, calls);
    hide ShowsKids, Reordering;
    var e3, f3, moved3 := PatchedLocals(x, y.pairs, p, news, index, |x.pairs|, d, t, t0,
      Filled0(d, p, entries, moved0), f0, moved0,
                                        entries, objects, calls);
    u := ReorderFinish(d, t, e3, f3, p, news, entries, moved3);
    e := Finish(e3, t.ref, d.next, p, entries, moved3);
    cur := f3.cur;
    ReorderBecame(x, y, index, p, news, entries, lps, d, t, t0, e3, moved3, e, u);
  }

  lemma ReorderFinish(d: Doc, t: Tree, e3: Doc, f: Forest, p: Plan, news: seq<VNode>, entries: seq<Entry>,
                      moved: map<nat, Ref>)
    returns (u: Tree)
    requires Good(p) && Patching(d, t, e3, f, p, news, moved, |p.fates|) && f.frag.ref == d.next
    requires EntriesFor(entries, p, news) && TargetsBelow(p, |news|) && |news| == p.scanned + |p.ends|
    ensures Step(d, t, Finish(e3, t.ref, d.next, p, entries, moved), u)
    ensures t.ElementTree? && u.ElementTree? && u == t.(kids := u.kids) && Arranged(u.kids, p, f.cur, news)
  {
    hide Good, Rooted, Stands, EntriesFor, TargetsBelow, MovedFor, EndsDrawn, Finish, Step, Arranged;
    RootBelow(d, t);
    u := FinishStep(d, t, e3, f, p, news, entries, moved);
  }

  /** All new children look right exactly when all old children with targets turned into them. */
  lemma ArrangedSound(x: VNode, news: seq<VNode>, p: Plan, kids: seq<Tree>, cur: seq<Tree>)
    requires x.KeyedNode? && |p.fates| == |x.pairs| && Arranged(kids, p, cur, news) &&
      LocalsSound(x, news, p, cur, |x.pairs|)
    ensures (forall j :: 0 <= j < |kids| ==> See(kids[j]) == Draw(news[j])) <==>
      forall a :: 0 <= a < |x.pairs| && Target(p, a).Some? && Target(p, a).value < |news| ==>
        SoundChild(p, a, x.pairs[a].node, news[Target(p, a).value])
  {
    hide See, Draw, SoundChild, Target;
    if forall a :: 0 <= a < |x.pairs| && Target(p, a).Some? && Target(p, a).value < |news| ==>
        SoundChild(p, a, x.pairs[a].node, news[Target(p, a).value])
    {
      forall j | 0 <= j < |kids| ensures See(kids[j]) == Draw(news[j]) {
        assert Fit((kids[j], j), p, cur, news);
      }
    } else {
      var a :| 0 <= a < |x.pairs| && Target(p, a).Some? && Target(p, a).value < |news| &&
        !SoundChild(p, a, x.pairs[a].node, news[Target(p, a).value]);
      assert kids[Target(p, a).value] == cur[a];
    }
  }

  lemma KeyedLooks(x: VNode, y: VNode, u: Tree, cur: seq<Tree>)
    requires x.KeyedNode? && y.KeyedNode? && u.ElementTree? && u.tag == y.tag == x.tag && u.ns == y.ns == x.ns
    requires var p := PlanOf(x.pairs, y.pairs); var news := NewKids(p, y.pairs);
      Arranged(u.kids, p, cur, news) && LocalsSound(x, news, p, cur, |x.pairs|)
    requires Seen(u.facts) == Seen(Fresh(y.facts)) <==> FactsKept(x.facts, y.facts)
    ensures See(u) == Draw(y) <==> SoundElements(x, y)
  {
    var p := PlanOf(x.pairs, y.pairs);
    var news := NewKids(p, y.pairs);
    SeeElement(u, y);
    PlanFacts(x.pairs, y.pairs);
    hide See, Draw, Seen, Fresh, FactsKept, PlanOf, NewKids, Good, SoundChild, Target;
    ArrangedSound(x, news, p, u.kids, cur);
    assert |u.kids| == |news| by { hide LocalsSound; }
    hide Arranged, LocalsSound;
    if p.extra.None? {
      assert Kids(y) == news;
    }
  }

  lemma {:induction false} PatchedKeyed(x: VNode, y: VNode, index: nat, d: Doc, t: Tree,
                                         objects: int -> Known, calls: seq<int> -> Call)
    returns (e: Doc, u: Tree)
    requires Rooted(d, t) && See(t) == Draw(x) && x.KeyedNode? && y.KeyedNode?
    requires Counted(x) && Honest(x, objects, calls) && AllHonest(Kids(y), objects, calls)
    ensures Became(AttachAll(DiffNodes(x, y, index), x, t, index), d, t, e, u)
    ensures See(u) == Draw(y) <==> SoundElements(x, y)
    ensures u.ref != t.ref <==> x.tag != y.tag || x.ns != y.ns
    ensures u.ref != t.ref && t.ref !in d.parent ==> Only(d, e, {}, {})
    decreases x, 0, 1
  {
    hide Rooted, See, Draw, Honest, Counted, Became, Attach, AttachAll, DiffFacts, Seen, Fresh, FactsKept,
      DiffKeyed,
         Sound, SoundChild, Only, Arranged, LocalsSound, PlanOf, NewKids, AllHonest;
    if x.tag != y.tag || x.ns != y.ns {
      e, u := RedrawTurn(index, y, x, d, t);
    } else {
      SeeKids(t, x);
      HonestKids(x, objects, calls);
      var ps, qs := FactsPatch(x, y, index), DiffKeyed(x, y, index);
      var e1, u1 := FactsTurn(x, y, index, d, t);
      BecameRooted(AttachAll(ps, x, t, index), d, t, e1, u1);
      var cur;
      e, u, cur := ReorderTurn(x, y, index, e1, u1, t, objects, calls);
      BecameThen(AttachAll(ps, x, t, index), AttachAll(qs, x, t, index), d, t, e1, u1, e, u);
      AttachAppend(ps, qs, x, t, index);
      hide SoundElements;
      KeyedLooks(x, y, u, cur);
    }
  }
}
