/** What one part of the document turning into another keeps elsewhere. */
module VdomSteps {
  import opened Wrappers
  import opened VdomFacts
  import opened VdomDiff
  import opened VdomDocument

  /** The same node, with child `gone` replaced by `added`. */
  function Reslot(n: DomNode, gone: Ref, added: Ref): DomNode {
    if n.TextNode? then n else n.(kids := Swap(n.kids, gone, added))
  }

  /** Node r, which is not in tree t, is as before, except that the parent of t has u in its place. */
  ghost predicate Elsewhere(d: Doc, t: Tree, e: Doc, u: Tree, r: Ref) {
    SameParent(d, e, r) &&
    if t.ref in d.parent && d.parent[t.ref] == r
    then (r in d.nodes <==> r in e.nodes) && (r in d.nodes ==> e.nodes[r] == Reslot(d.nodes[r], t.ref, u.ref))
    else SameNode(d, e, r)
  }

  /** From document d to e, tree t has become u: u is made of nodes of t and of new ones, has
      the place of t, and nothing else has changed. */
  ghost predicate Step(d: Doc, t: Tree, e: Doc, u: Tree) {
    && Valid(e) && d.next <= e.next && Holds(e, u)
    && (forall r :: r in Refs(u) ==> r in Refs(t) || d.next <= r)
    && (t.ref in d.parent ==> u.ref in e.parent && e.parent[u.ref] == d.parent[t.ref])
    && (t.ref !in d.parent ==> u.ref !in e.parent)
    && forall r: Ref :: r < d.next && r !in Refs(t) ==> Elsewhere(d, t, e, u, r)
  }

  /** A tree whose root may have a parent, but not one inside it. */
  ghost predicate Rooted(d: Doc, t: Tree) {
    Valid(d) && Holds(d, t) && (t.ref in d.parent ==> d.parent[t.ref] !in Refs(t) && d.parent[t.ref] < d.next)
  }

  lemma SwapSame(s: seq<Ref>, r: Ref)
    ensures Swap(s, r, r) == s
  {
  }

  lemma StepSelf(d: Doc, t: Tree)
    requires Rooted(d, t)
    ensures Step(d, t, d, t)
  {
    if t.ref in d.parent && d.parent[t.ref] in d.nodes && !d.nodes[d.parent[t.ref]].TextNode? {
      SwapSame(d.nodes[d.parent[t.ref]].kids, t.ref);
    }
  }

  lemma StepRooted(d: Doc, t: Tree, e: Doc, u: Tree)
    requires Rooted(d, t) && Step(d, t, e, u)
    ensures Rooted(e, u)
  {
  }

  lemma SwapTwice(s: seq<Ref>, a: Ref, b: Ref, c: Ref)
    requires b == a || b !in s
    ensures Swap(Swap(s, a, b), b, c) == Swap(s, a, c)
  {
  }

  /** The new root is not a second child of the old root's parent. */
  lemma NewRoot(d: Doc, t: Tree, e: Doc, u: Tree)
    requires Rooted(d, t) && Step(d, t, e, u) && t.ref in d.parent
    ensures u.ref == t.ref || u.ref !in ChildNodes(d, d.parent[t.ref])
  {
    RootIn(u);
    var p := d.parent[t.ref];
    if u.ref in ChildNodes(d, p) && u.ref != t.ref {
      assert p in d.nodes && d.parent[u.ref] == p;
      ParentInside(d, t, u.ref);
    }
  }

  lemma ElsewhereThen(d: Doc, t: Tree, e: Doc, u: Tree, f: Doc, v: Tree, r: Ref)
    requires Elsewhere(d, t, e, u, r) && Elsewhere(e, u, f, v, r)
    requires t.ref in d.parent ==> u.ref in e.parent && e.parent[u.ref] == d.parent[t.ref]
    requires t.ref !in d.parent ==> u.ref !in e.parent
    requires t.ref in d.parent ==> u.ref == t.ref || u.ref !in ChildNodes(d, d.parent[t.ref])
    ensures Elsewhere(d, t, f, v, r)
  {
    if t.ref in d.parent && d.parent[t.ref] == r && r in d.nodes && !d.nodes[r].TextNode? {
      SwapTwice(d.nodes[r].kids, t.ref, u.ref, v.ref);
    }
  }

  lemma StepThen(d: Doc, t: Tree, e: Doc, u: Tree, f: Doc, v: Tree)
    requires Rooted(d, t) && Step(d, t, e, u) && Step(e, u, f, v)
    ensures Step(d, t, f, v)
  {
    HoldsBelow(d, t);
    if t.ref in d.parent { NewRoot(d, t, e, u); }
    hide Holds, Valid, Refs;
    forall r: Ref | r < d.next && r !in Refs(t) ensures Elsewhere(d, t, f, v, r) {
      assert Elsewhere(d, t, e, u, r) && r !in Refs(u) && r < e.next;
      assert Elsewhere(e, u, f, v, r);
      hide Elsewhere;
      ElsewhereThen(d, t, e, u, f, v, r);
    }
  }

  /** Inside a tree, only the root's parent can be outside. */
  lemma {:induction false} ParentInside(d: Doc, t: Tree, r: Ref)
    requires Holds(d, t) && r in Refs(t) && r != t.ref
    ensures r in d.parent && d.parent[r] in Refs(t)
  {
    var i :| 0 <= i < |t.kids| && r in Refs(t.kids[i]);
    assert Placed(d, t.ref, t.kids[i]);
    RefsKids(t, i);
    if r != t.kids[i].ref {
      ParentInside(d, t.kids[i], r);
    }
  }

  // ----- a step of a child is a step of its parent -----

  function WithKid(t: Tree, i: nat, u: Tree): Tree
    requires t.ElementTree? && i < |t.kids|
  {
    t.(kids := t.kids[i := u])
  }

  lemma ApartRoots(ts: seq<Tree>)
    requires Apart(ts)
    ensures NoRepeat(Roots(ts))
  {
    forall i, j | 0 <= i < j < |ts| ensures Roots(ts)[i] != Roots(ts)[j] {
      RootIn(ts[i]);
      RootIn(ts[j]);
    }
  }

  /** A child stays in its place when nothing in it changes. */
  lemma KidFrame(d: Doc, e: Doc, t: Tree, j: nat)
    requires Holds(d, t) && t.ElementTree? && j < |t.kids|
    requires forall r :: r in Refs(t.kids[j]) ==> SameNode(d, e, r) && SameParent(d, e, r)
    ensures Placed(e, t.ref, t.kids[j])
  {
    assert Placed(d, t.ref, t.kids[j]);
    RootIn(t.kids[j]);
    HoldsFrame(d, e, t.kids[j]);
  }

  lemma LiftKids(d: Doc, t: Tree, i: nat, e: Doc, u: Tree, ts: seq<Tree>)
    requires Valid(d) && Holds(d, t) && t.ElementTree? && i < |t.kids| && Step(d, t.kids[i], e, u)
    requires ts == t.kids[i := u]
    ensures Roots(ts) == Swap(Roots(t.kids), t.kids[i].ref, u.ref)
    ensures Apart(ts)
    ensures forall j :: 0 <= j < |ts| ==> Placed(e, t.ref, ts[j])
  {
    ApartRoots(t.kids);
    HoldsBelow(d, t);
    assert Placed(d, t.ref, t.kids[i]);
    assert Placed(e, t.ref, u);
    forall j | 0 <= j < |t.kids| && j != i ensures Placed(e, t.ref, t.kids[j]) && Refs(t.kids[j]) !! Refs(u) {
      RefsKids(t, j);
      assert Placed(d, t.ref, t.kids[j]);
      assert Refs(t.kids[j]) !! Refs(t.kids[i]);
      forall r | r in Refs(t.kids[j]) ensures SameNode(d, e, r) && SameParent(d, e, r) {
        assert Elsewhere(d, t.kids[i], e, u, r);
      }
      KidFrame(d, e, t, j);
    }
  }

  lemma Lift(d: Doc, t: Tree, i: nat, e: Doc, u: Tree)
    requires Rooted(d, t) && t.ElementTree? && i < |t.kids| && Step(d, t.kids[i], e, u)
    ensures Step(d, t, e, WithKid(t, i, u))
  {
    var w := WithKid(t, i, u);
    LiftKids(d, t, i, e, u, w.kids);
    RootIn(t);
    assert Placed(d, t.ref, t.kids[i]);
    assert Elsewhere(d, t.kids[i], e, u, t.ref);
    assert Holds(e, w);
    forall r | r in Refs(w) ensures r in Refs(t) || d.next <= r {
    }
    forall r: Ref | r < d.next && r !in Refs(t) ensures Elsewhere(d, t, e, w, r) {
      RefsKids(t, i);
      assert Elsewhere(d, t.kids[i], e, u, r);
      if t.ref in d.parent && d.parent[t.ref] == r && r in d.nodes && !d.nodes[r].TextNode? {
        SwapSame(d.nodes[r].kids, t.ref);
      }
    }
  }

  // ----- steps at the root -----

  lemma FactsStep(d: Doc, t: Tree, c: Change)
    requires Rooted(d, t) && t.ElementTree?
    ensures Step(d, t, SetDomFacts(d, t.ref, c), t.(facts := ApplyFacts(t.facts, c)))
  {
    var e := SetDomFacts(d, t.ref, c);
    var u := t.(facts := ApplyFacts(t.facts, c));
    forall i | 0 <= i < |t.kids| ensures Placed(e, t.ref, t.kids[i]) {
      assert Placed(d, t.ref, t.kids[i]);
      KidFrame(d, e, t, i);
    }
    StepSelf(d, t);
    assert Holds(e, u);
    assert Refs(u) == Refs(t);
    forall r: Ref | r < d.next && r !in Refs(t) ensures Elsewhere(d, t, e, u, r) {
      RootIn(t);
      assert Elsewhere(d, t, d, t, r);
    }
  }

  lemma DataStep(d: Doc, t: Tree, data: string)
    requires Rooted(d, t) && t.TextTree?
    ensures Step(d, t, SetData(d, t.ref, data), t.(data := data))
  {
    StepSelf(d, t);
    var e := SetData(d, t.ref, data);
    forall r: Ref | r < d.next && r !in Refs(t) ensures Elsewhere(d, t, e, t.(data := data), r) {
      assert Elsewhere(d, t, d, t, r);
    }
  }

  // ----- removing and inserting children -----

  /** The documents agree except on some nodes and on the parents of some nodes. */
  ghost predicate Only(d: Doc, e: Doc, ns: set<Ref>, ps: set<Ref>) {
    && d.next <= e.next
    && (forall r: Ref :: r < d.next && r !in ns ==> SameNode(d, e, r))
    && (forall r: Ref :: r < d.next && r !in ps ==> SameParent(d, e, r))
  }

  function Cut<T>(s: seq<T>, i: nat): (r: seq<T>)
    requires i < |s|
    ensures |r| == |s| - 1 && forall j :: 0 <= j < |r| ==> r[j] == s[if j < i then j else j + 1]
  {
    s[..i] + s[i + 1..]
  }

  function Put<T>(s: seq<T>, i: nat, v: T): (r: seq<T>)
    requires i <= |s|
    ensures |r| == |s| + 1 && r[i] == v
    ensures forall j :: 0 <= j < |r| && j != i ==> r[j] == s[if j < i then j else j - 1]
  {
    s[..i] + [v] + s[i..]
  }

  lemma {:induction false} WithoutAt(s: seq<Ref>, i: nat)
    requires NoRepeat(s) && i < |s|
    ensures Without(s, s[i]) == Cut(s, i)
  {
    hide Cut;
    var rest := s[1..];
    if i > 0 {
      assert rest[i - 1] == s[i] && NoRepeat(rest);
      WithoutAt(rest, i - 1);
      hide NoRepeat, Without;
      assert Cut(s, i) == [s[0]] + Cut(rest, i - 1);
    } else {
      assert Cut(s, 0) == rest;
    }
  }

  lemma CutRoots(ts: seq<Tree>, i: nat)
    requires Apart(ts) && i < |ts|
    ensures Roots(Cut(ts, i)) == Without(Roots(ts), ts[i].ref)
    ensures Apart(Cut(ts, i))
  {
    ApartRoots(ts);
    WithoutAt(Roots(ts), i);
    hide Cut, Without, Refs;
    assert Roots(Cut(ts, i)) == Cut(Roots(ts), i);
  }

  lemma DetachOnly(d: Doc, t: Tree, i: nat)
    requires Valid(d) && Holds(d, t) && t.ElementTree? && i < |t.kids|
    ensures var e := Detach(d, t.kids[i].ref);
      && Valid(e) && e.next == d.next && Only(d, e, {t.ref}, {t.kids[i].ref}) && t.kids[i].ref !in e.parent
      && t.ref in e.nodes && e.nodes[t.ref] == Element(t.tag, t.ns, t.facts, Without(Roots(t.kids), t.kids[i].ref))
  {
    assert Placed(d, t.ref, t.kids[i]);
    DetachValid(d, t.kids[i].ref);
  }

  /** Children untouched by a change stay in their places. */
  lemma KidsFrame(d: Doc, e: Doc, t: Tree, ns: set<Ref>, ps: set<Ref>, j: nat)
    requires Valid(d) && Holds(d, t) && t.ElementTree? && j < |t.kids|
    requires Only(d, e, ns, ps) && Refs(t.kids[j]) !! ns && Refs(t.kids[j]) !! ps
    ensures Placed(e, t.ref, t.kids[j])
  {
    HoldsBelow(d, t);
    RefsKids(t, j);
    KidFrame(d, e, t, j);
  }

  lemma DetachKid(d: Doc, t: Tree, i: nat)
    requires Valid(d) && Holds(d, t) && t.ElementTree? && i < |t.kids|
    ensures var e := Detach(d, t.kids[i].ref);
      && Valid(e) && e.next == d.next && Only(d, e, {t.ref}, {t.kids[i].ref})
      && t.kids[i].ref !in e.parent && Holds(e, t.kids[i]) && Holds(e, t.(kids := Cut(t.kids, i)))
  {
    var k := t.kids[i];
    var e := Detach(d, k.ref);
    DetachOnly(d, t, i);
    CutRoots(t.kids, i);
    RootIn(k);
    hide Detach, Without;
    assert Placed(d, t.ref, k);
    HoldsBelow(d, k);
    HoldsFrame(d, e, k);
    hide Valid;
    forall j | 0 <= j < |t.kids| && j != i ensures Placed(e, t.ref, t.kids[j]) {
      assert Placed(d, t.ref, t.kids[j]);
      assert Refs(t.kids[j]) !! Refs(k);
      KidsFrame(d, e, t, {t.ref}, {k.ref}, j);
    }
    hide Placed, Refs, Only, Cut;
    forall j | 0 <= j < |Cut(t.kids, i)| ensures Placed(e, t.ref, Cut(t.kids, i)[j]) {
      assert Cut(t.kids, i)[j] == t.kids[if j < i then j else j + 1];
    }
  }

  lemma {:induction false} IndexOfAt(s: seq<Ref>, i: nat)
    requires NoRepeat(s) && i < |s|
    ensures IndexOf(s, s[i]) == i
  {
    if i > 0 { IndexOfAt(s[1..], i - 1); }
  }

  lemma InsertOnly(d: Doc, t: Tree, k: Ref, before: Option<Ref>)
    requires Valid(d) && Holds(d, t) && t.ElementTree? && k < d.next && k !in d.parent
    ensures var e := InsertBefore(d, t.ref, k, before);
      && Valid(e) && e.next == d.next && Only(d, e, {t.ref}, {k})
      && k in e.parent && e.parent[k] == t.ref
      && t.ref in e.nodes && e.nodes[t.ref] == Element(t.tag, t.ns, t.facts, InsertIn(Roots(t.kids), k, before))
  {
    hide Apart, Placed, InsertIn;
    InsertValid(d, t.ref, k, before);
    hide Valid;
  }

  lemma PutRoots(ts: seq<Tree>, k: Tree, i: nat)
    requires Apart(ts) && i <= |ts| && forall j :: 0 <= j < |ts| ==> Refs(ts[j]) !! Refs(k)
    ensures Roots(Put(ts, i, k)) == InsertIn(Roots(ts), k.ref, if i < |ts| then Some(ts[i].ref) else None)
    ensures Apart(Put(ts, i, k))
  {
    hide Put, InsertIn, Refs, IndexOf;
    ApartRoots(ts);
    InsertInPut(Roots(ts), i, k.ref);
    assert Roots(Put(ts, i, k)) == Put(Roots(ts), i, k.ref);
  }

  lemma InsertInPut(s: seq<Ref>, i: nat, r: Ref)
    requires NoRepeat(s) && i <= |s|
    ensures InsertIn(s, r, if i < |s| then Some(s[i]) else None) == Put(s, i, r)
  {
    if i < |s| { IndexOfAt(s, i); }
  }

  lemma InsertedPlaced(d: Doc, e: Doc, t: Tree, k: Tree)
    requires Valid(d) && Holds(d, k) && Refs(k) !! Refs(t) && Only(d, e, {t.ref}, {k.ref})
    requires k.ref in e.parent && e.parent[k.ref] == t.ref
    ensures Placed(e, t.ref, k)
  {
    RootIn(t);
    HoldsBelow(d, k);
    hide Holds, Refs, Valid;
    HoldsFrame(d, e, k);
  }

  lemma OldKidPlaced(d: Doc, e: Doc, t: Tree, k: Tree, j: nat)
    requires Valid(d) && Holds(d, t) && t.ElementTree? && Refs(k) !! Refs(t) && Only(d, e, {t.ref}, {k.ref})
    requires j < |t.kids|
    ensures Placed(e, t.ref, t.kids[j]) && Refs(t.kids[j]) !! Refs(k)
  {
    RootIn(k);
    RefsKids(t, j);
    hide Refs, Valid, Only;
    assert Placed(d, t.ref, t.kids[j]);
    hide Placed;
    KidsFrame(d, e, t, {t.ref}, {k.ref}, j);
  }

  /** Inserting a tree without a parent among the children of another, before child i. */
  lemma InsertKid(d: Doc, t: Tree, k: Tree, i: nat)
    requires Valid(d) && Holds(d, t) && t.ElementTree? && i <= |t.kids|
    requires Holds(d, k) && k.ref !in d.parent && Refs(k) !! Refs(t)
    ensures var e := InsertBefore(d, t.ref, k.ref, if i < |t.kids| then Some(t.kids[i].ref) else None);
      && Valid(e) && e.next == d.next && Only(d, e, {t.ref}, {k.ref})
      && k.ref in e.parent && e.parent[k.ref] == t.ref
      && Holds(e, t.(kids := Put(t.kids, i, k)))
  {
    hide InsertBefore, InsertIn, Placed, Refs, Only, Valid, Put, Apart;
    var before := if i < |t.kids| then Some(t.kids[i].ref) else None;
    var e := InsertBefore(d, t.ref, k.ref, before);
    var kids := Put(t.kids, i, k);
    RootIn(k);
    HoldsBelow(d, k);
    InsertOnly(d, t, k.ref, before);
    InsertedPlaced(d, e, t, k);
    forall j | 0 <= j < |t.kids| ensures Placed(e, t.ref, t.kids[j]) && Refs(t.kids[j]) !! Refs(k) {
      OldKidPlaced(d, e, t, k, j);
    }
    PutRoots(t.kids, k, i);
    forall j | 0 <= j < |kids| ensures Placed(e, t.ref, kids[j]) {
      assert kids[j] == if j == i then k else t.kids[if j < i then j else j - 1];
    }
  }
}
