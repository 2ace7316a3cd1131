/** What applying attached patches does to the tree they are attached to. */
module VdomActions {
  import opened Wrappers
  import opened VdomNodes
  import opened VdomDiff
  import opened VdomDocument
  import opened VdomPatching
  import opened VdomSteps
  import opened VdomRendering

  /** The root of the whole is that of t, or is elsewhere. */
  ghost predicate Around(s: State, d: Doc, t: Tree) {
    s.doc == d && (s.root.Some? ==> s.root.value < d.next && (s.root.value == t.ref || s.root.value !in Refs(t)))
  }

  /** Applying ps to tree t of document d gives document e, whatever the root of the whole is:
      when it is that of t it turns into r, and it is kept when it is elsewhere. */
  ghost predicate Turns(ps: seq<Patch>, d: Doc, t: Tree, e: Doc, r: Ref) {
    forall s: State :: Around(s, d, t) ==>
      ApplyAll(s, ps) == State(e, if s.root == Some(t.ref) then Some(r) else s.root, s.entries, s.moved)
  }

  lemma {:induction false} ApplyAppend(s: State, ps: seq<Patch>, qs: seq<Patch>)
    ensures ApplyAll(s, ps + qs) == ApplyAll(ApplyAll(s, ps), qs)
  {
    if qs == [] {
      assert ps + qs == ps;
    } else {
      var last := |qs| - 1;
      ApplyAppend(s, ps, qs[..last]);
      assert (ps + qs)[..|ps + qs| - 1] == ps + qs[..last];
    }
  }

  lemma ApplyOne(s: State, p: Patch)
    ensures ApplyAll(s, [p]) == ApplyPatch(s, p)
  {
    assert [p][..0] == [];
  }

  lemma TurnsNone(d: Doc, t: Tree)
    ensures Turns([], d, t, d, t.ref)
  {
  }

  lemma TurnsThen(ps: seq<Patch>, qs: seq<Patch>, d: Doc, t: Tree, e: Doc, u: Tree, f: Doc, r: Ref)
    requires Turns(ps, d, t, e, u.ref) && Step(d, t, e, u) && Turns(qs, e, u, f, r)
    ensures Turns(ps + qs, d, t, f, r)
  {
    RootIn(u);
    forall s: State | Around(s, d, t)
      ensures ApplyAll(s, ps + qs) == State(f, if s.root == Some(t.ref) then Some(r) else s.root, s.entries, s.moved)
    {
      ApplyAppend(s, ps, qs);
      var s1 := ApplyAll(s, ps);
      assert s1 == State(e, if s.root == Some(t.ref) then Some(u.ref) else s.root, s.entries, s.moved);
      assert Around(s1, e, u) by {
        HoldsBelow(e, u);
      }
    }
  }

  /** A patch of a child is a patch of its parent, which stays the root. */
  lemma TurnsLift(ps: seq<Patch>, d: Doc, t: Tree, i: nat, e: Doc, r: Ref)
    requires Holds(d, t) && t.ElementTree? && i < |t.kids| && Turns(ps, d, t.kids[i], e, r)
    ensures Turns(ps, d, t, e, t.ref)
  {
    assert Placed(d, t.ref, t.kids[i]);
    RefsKids(t, i);
    RootIn(t);
    RootIn(t.kids[i]);
    forall s: State | Around(s, d, t)
      ensures ApplyAll(s, ps) == State(e, if s.root == Some(t.ref) then Some(t.ref) else s.root, s.entries, s.moved)
    {
      assert Around(s, d, t.kids[i]);
    }
  }

  /** A single patch whose action leaves the entries of the surrounding reorder alone. */
  lemma TurnsOne(p: Patch, d: Doc, t: Tree, e: Doc, r: Ref)
    requires p.dom == Some(t.ref) && !p.action.Inside?
    requires forall s: State :: s.doc == d ==> ApplyAction(s, t.ref, p.action) == (e, r, s.moved)
    ensures Turns([p], d, t, e, r)
  {
    forall s: State | Around(s, d, t)
      ensures ApplyAll(s, [p]) == State(e, if s.root == Some(t.ref) then Some(r) else s.root, s.entries, s.moved)
    {
      ApplyOne(s, p);
      assert ApplyAction(s, t.ref, p.action) == (e, r, s.moved);
    }
  }

  // ----- child lists -----

  /** A change of the children of t and of the parents of old children of t or new nodes. */
  lemma OnlyStep(d: Doc, t: Tree, e: Doc, u: Tree, ps: set<Ref>)
    requires Rooted(d, t) && Valid(e) && Holds(e, u) && u.ref == t.ref && Only(d, e, {t.ref}, ps)
    requires forall r :: r in ps ==> r in Refs(t) && r != t.ref
    requires forall r :: r in Refs(u) ==> r in Refs(t) || d.next <= r
    ensures Step(d, t, e, u)
  {
    StepSelf(d, t);
    HoldsBelow(d, t);
    RootIn(t);
    hide Valid, Holds, Refs;
    assert SameParent(d, e, t.ref) by {
      assert t.ref !in ps;
    }
    forall r: Ref | r < d.next && r !in Refs(t) ensures Elsewhere(d, t, e, u, r) {
      assert Elsewhere(d, t, d, t, r) && SameNode(d, e, r) && SameParent(d, e, r);
    }
  }

  lemma CutRefs(t: Tree, i: nat)
    requires t.ElementTree? && i < |t.kids|
    ensures Refs(t.(kids := Cut(t.kids, i))) <= Refs(t)
  {
    var u := t.(kids := Cut(t.kids, i));
    forall r | r in Refs(u) ensures r in Refs(t) {
      if r != t.ref {
        var j :| 0 <= j < |u.kids| && r in Refs(u.kids[j]);
        RefsKids(t, if j < i then j else j + 1);
      }
    }
  }

  lemma DetachStep(d: Doc, t: Tree, i: nat)
    requires Rooted(d, t) && t.ElementTree? && i < |t.kids|
    ensures Step(d, t, Detach(d, t.kids[i].ref), t.(kids := Cut(t.kids, i)))
  {
    var e, u := Detach(d, t.kids[i].ref), t.(kids := Cut(t.kids, i));
    DetachKid(d, t, i);
    assert Placed(d, t.ref, t.kids[i]);
    hide Valid, Holds, Detach;
    RootIn(t.kids[i]);
    RefsKids(t, i);
    CutRefs(t, i);
    hide Refs, Cut;
    OnlyStep(d, t, e, u, {t.kids[i].ref});
  }

  lemma ChildIs(d: Doc, t: Tree)
    requires Holds(d, t) && t.ElementTree?
    ensures ChildNodes(d, t.ref) == Roots(t.kids)
    ensures forall i: nat :: ChildAt(d, t.ref, i) == if i < |t.kids| then Some(t.kids[i].ref) else None
  {
  }

  lemma {:induction false} RemoveManyStep(d: Doc, t: Tree, length: nat, n: nat)
    requires Rooted(d, t) && t.ElementTree? && length + n <= |t.kids|
    ensures Step(d, t, RemoveMany(d, t.ref, length, n), t.(kids := t.kids[..length] + t.kids[length + n..]))
  {
    hide Holds, Valid, Elsewhere, Cut, Detach, Refs;
    if n == 0 {
      StepSelf(d, t);
      assert t.kids[..length] + t.kids[length..] == t.kids;
    } else {
      var e := RemoveMany(d, t.ref, length, n - 1);
      var u := t.(kids := t.kids[..length] + t.kids[length + n - 1..]);
      RemoveManyStep(d, t, length, n - 1);
      StepRooted(d, t, e, u);
      ChildIs(e, u);
      DetachStep(e, u, length);
      hide Rooted, Step;
      StepThen(d, t, e, u, Detach(e, u.kids[length].ref), u.(kids := Cut(u.kids, length)));
      assert Cut(u.kids, length) == t.kids[..length] + t.kids[length + n..];
    }
  }

  lemma AppendTree(d: Doc, t: Tree, e: Doc, k: Tree)
    requires Rooted(d, t) && t.ElementTree? && Drawn(d, e, k)
    ensures Valid(AppendChild(e, t.ref, k.ref)) && Holds(AppendChild(e, t.ref, k.ref), t.(kids := t.kids + [k]))
    ensures Only(d, AppendChild(e, t.ref, k.ref), {t.ref}, {})
  {
    HoldsBelow(d, t);
    RootIn(t);
    HoldsFrame(d, e, t);
    HoldsBelow(e, k);
    RootIn(k);
    InsertKid(e, t, k, |t.kids|);
    PutEnd(t.kids, k);
    hide Valid, Holds, InsertBefore;
    OnlyThen(d, e, AppendChild(e, t.ref, k.ref), {}, {}, {t.ref}, {k.ref});
    OnlyOld(d, AppendChild(e, t.ref, k.ref), {t.ref}, {k.ref}, {t.ref}, {});
  }

  lemma AppendRefs(t: Tree, k: Tree)
    requires t.ElementTree?
    ensures Refs(t.(kids := t.kids + [k])) <= Refs(t) + Refs(k)
  {
  }

  lemma AppendOne(d: Doc, t: Tree, v: VNode) returns (k: Tree)
    requires Rooted(d, t) && t.ElementTree?
    ensures var (e, r) := Render(d, v);
      Step(d, t, AppendChild(e, t.ref, r), t.(kids := t.kids + [k])) && See(k) == Draw(v)
  {
    hide Render, See, Draw, Refs, InsertBefore, Only, Valid, Holds;
    k := RenderDraws(d, v);
    var (e, r) := Render(d, v);
    AppendTree(d, t, e, k);
    AppendRefs(t, k);
    OnlyStep(d, t, AppendChild(e, t.ref, r), t.(kids := t.kids + [k]), {});
  }

  lemma {:induction false} AppendManyStep(d: Doc, t: Tree, kids: seq<VNode>, from: nat, n: nat)
    returns (added: seq<Tree>)
    requires Rooted(d, t) && t.ElementTree? && from <= n <= |kids|
    ensures Step(d, t, AppendMany(d, t.ref, kids, from, n, None), t.(kids := t.kids + added))
    ensures |added| == n - from && forall i :: 0 <= i < n - from ==> See(added[i]) == Draw(kids[from + i])
    decreases n
  {
    hide Holds, Valid, Elsewhere, See, Draw, Render, Refs, InsertBefore;
    if n == from {
      StepSelf(d, t);
      added := [];
      assert t.kids + added == t.kids;
    } else {
      var first := AppendManyStep(d, t, kids, from, n - 1);
      var e := AppendMany(d, t.ref, kids, from, n - 1, None);
      var u := t.(kids := t.kids + first);
      StepRooted(d, t, e, u);
      hide Rooted, Step;
      var k := AppendOne(e, u, kids[n - 1]);
      added := first + [k];
      assert u.kids + [k] == t.kids + added;
      var (e1, r) := Render(e, kids[n - 1]);
      StepThen(d, t, e, u, AppendChild(e1, t.ref, r), u.(kids := u.kids + [k]));
    }
  }

  // ----- steps and turns together -----

  /** Applying ps takes the document from d to e, and tree t, in its place, to tree u; it
      returns r where the root of t went in. */
  ghost predicate Ended(ps: seq<Patch>, d: Doc, t: Tree, e: Doc, u: Tree, r: Ref) {
    Rooted(d, t) && Rooted(e, u) && Step(d, t, e, u) && Turns(ps, d, t, e, r)
  }

  /** The same, returning the root of the new tree. */
  ghost predicate Became(ps: seq<Patch>, d: Doc, t: Tree, e: Doc, u: Tree) {
    Ended(ps, d, t, e, u, u.ref)
  }

  lemma EndedOf(ps: seq<Patch>, d: Doc, t: Tree, e: Doc, u: Tree, r: Ref)
    requires Rooted(d, t) && Step(d, t, e, u) && Turns(ps, d, t, e, r)
    ensures Ended(ps, d, t, e, u, r)
  {
    StepRooted(d, t, e, u);
  }

  lemma BecameNone(d: Doc, t: Tree)
    requires Rooted(d, t)
    ensures Became([], d, t, d, t)
  {
    StepSelf(d, t);
    TurnsNone(d, t);
    hide Rooted, Step, Turns;
  }

  lemma BecameEnded(ps: seq<Patch>, qs: seq<Patch>, d: Doc, t: Tree, e: Doc, u: Tree, f: Doc, v: Tree, r: Ref)
    requires Became(ps, d, t, e, u) && Ended(qs, e, u, f, v, r)
    ensures Ended(ps + qs, d, t, f, v, r)
  {
    hide Rooted, Step, Turns;
    StepThen(d, t, e, u, f, v);
    TurnsThen(ps, qs, d, t, e, u, f, r);
  }

  lemma BecameThen(ps: seq<Patch>, qs: seq<Patch>, d: Doc, t: Tree, e: Doc, u: Tree, f: Doc, v: Tree)
    requires Became(ps, d, t, e, u) && Became(qs, e, u, f, v)
    ensures Became(ps + qs, d, t, f, v)
  {
    hide Ended;
    BecameEnded(ps, qs, d, t, e, u, f, v, v.ref);
  }

  /** Whatever is returned for a child, its parent goes on being the root. */
  lemma BecameKid(qs: seq<Patch>, d: Doc, t: Tree, j: nat, e: Doc, k: Tree, r: Ref)
    requires Rooted(d, t) && t.ElementTree? && j < |t.kids| && Ended(qs, d, t.kids[j], e, k, r)
    ensures Became(qs, d, t, e, WithKid(t, j, k))
  {
    assert Holds(d, t);
    hide Holds, Valid, Refs, Elsewhere, Turns;
    Lift(d, t, j, e, k);
    TurnsLift(qs, d, t, j, e, r);
    StepRooted(d, t, e, WithKid(t, j, k));
  }

  /** A single patch whose action leaves the entries of the surrounding reorder alone. */
  lemma BecameOne(p: Patch, d: Doc, t: Tree, e: Doc, u: Tree)
    requires p.dom == Some(t.ref) && !p.action.Inside? && Rooted(d, t) && Step(d, t, e, u)
    requires forall s: State :: s.doc == d ==> ApplyAction(s, t.ref, p.action) == (e, u.ref, s.moved)
    ensures Became([p], d, t, e, u)
  {
    hide Rooted, Step, ApplyAction;
    TurnsOne(p, d, t, e, u.ref);
    hide Turns;
    EndedOf([p], d, t, e, u, u.ref);
  }
}
