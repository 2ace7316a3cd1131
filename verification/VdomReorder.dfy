/** Reordering keyed children: what stands in the document while end inserts are taken out, old
    children are patched or removed one by one, and new children are put in. */
module VdomReorder {
  import opened VdomKeyedPlan
  import opened VdomDiff
  import opened VdomDocument
  import opened VdomSteps

  // ----- selecting from a list -----

  /** The elements among the first n that the mask selects. */
  function Select<T>(s: seq<T>, mask: seq<bool>, n: nat): seq<T>
    requires n <= |s| == |mask|
  {
    if n == 0 then [] else Select(s, mask, n - 1) + (if mask[n - 1] then [s[n - 1]] else [])
  }

  function Rank(mask: seq<bool>, a: nat): nat
    requires a <= |mask|
  {
    if a == 0 then 0 else Rank(mask, a - 1) + (if mask[a - 1] then 1 else 0)
  }

  lemma {:induction false} SelectLength<T>(s: seq<T>, mask: seq<bool>, n: nat)
    requires n <= |s| == |mask|
    ensures |Select(s, mask, n)| == Rank(mask, n)
  {
    if n > 0 { SelectLength(s, mask, n - 1); }
  }

  lemma {:induction false} SelectAt<T>(s: seq<T>, mask: seq<bool>, n: nat, a: nat)
    requires a < n <= |s| == |mask| && mask[a]
    ensures Rank(mask, a) < |Select(s, mask, n)| && Select(s, mask, n)[Rank(mask, a)] == s[a]
  {
    SelectLength(s, mask, n - 1);
    if a < n - 1 { SelectAt(s, mask, n - 1, a); }
  }

  lemma {:induction false} SelectFrom<T>(s: seq<T>, mask: seq<bool>, n: nat, q: nat) returns (a: nat)
    requires n <= |s| == |mask| && q < |Select(s, mask, n)|
    ensures a < n && mask[a] && Select(s, mask, n)[q] == s[a]
  {
    if q < |Select(s, mask, n - 1)| { a := SelectFrom(s, mask, n - 1, q); } else { a := n - 1; }
  }

  lemma {:induction false} SelectUpdate<T>(s: seq<T>, mask: seq<bool>, n: nat, a: nat, v: T)
    requires n <= |s| == |mask| && a < |s|
    ensures a < n && mask[a] ==>
      Rank(mask, a) < |Select(s, mask, n)| && Select(s[a := v], mask, n) == Select(s, mask, n)[Rank(mask, a) := v]
    ensures !(a < n && mask[a]) ==> Select(s[a := v], mask, n) == Select(s, mask, n)
  {
    if n > 0 {
      SelectLength(s, mask, n - 1);
      SelectUpdate(s, mask, n - 1, a, v);
    }
  }

  lemma {:induction false} SelectCut<T>(s: seq<T>, mask: seq<bool>, n: nat, a: nat)
    requires n <= |s| == |mask| && a < |s| && mask[a]
    ensures a < n ==>
      Rank(mask, a) < |Select(s, mask, n)| && Select(s, mask[a := false], n) == Cut(Select(s, mask, n), Rank(mask, a))
    ensures n <= a ==> Select(s, mask[a := false], n) == Select(s, mask, n)
  {
    if n > 0 {
      SelectLength(s, mask, n - 1);
      SelectCut(s, mask, n - 1, a);
      if a < n - 1 {
        var rest := if mask[n - 1] then [s[n - 1]] else [];
        assert Cut(Select(s, mask, n - 1) + rest, Rank(mask, a)) == Cut(Select(s, mask, n - 1), Rank(mask, a)) + rest;
      }
    }
  }

  // ----- where old children are -----

  /** Whether old child a is a child of the element when k end inserts have been taken out and
      n old children have been patched. */
  ghost predicate Present(p: Plan, k: nat, n: nat, a: nat)
    requires a < |p.fates|
  {
    p.fates[a].Keep? || (if ToEnd(p, a) then p.owners[p.fates[a].entry].j >= p.scanned + k else n <= a)
  }

  ghost function Mask(p: Plan, k: nat, n: nat): (mask: seq<bool>)
    ensures |mask| == |p.fates| && forall a :: 0 <= a < |mask| ==> mask[a] == Present(p, k, n, a)
  {
    seq(|p.fates|, a requires 0 <= a < |p.fates| => Present(p, k, n, a))
  }

  /** The element, the fragment, and every old child as it is by now. */
  datatype Forest = Forest(main: Tree, frag: Tree, cur: seq<Tree>)

  ghost predicate FragMatches(f: Forest, p: Plan, k: nat) {
    f.frag.ElementTree? && |f.frag.kids| == k <= |p.ends| &&
    forall i :: 0 <= i < k ==>
      p.ends[i] < |p.owners| &&
      (p.owners[p.ends[i]].Moved? ==>
        p.owners[p.ends[i]].a < |f.cur| && f.frag.kids[i] == f.cur[p.owners[p.ends[i]].a])
  }

  ghost predicate Disjoint(f: Forest, p: Plan, k: nat)
    requires FragMatches(f, p, k)
  {
    && Apart(f.cur) && (p.ends != [] ==> f.main.ref != f.frag.ref)
    && (forall a :: 0 <= a < |f.cur| ==>
      f.main.ref !in Refs(f.cur[a]) && (p.ends != [] ==> f.frag.ref !in Refs(f.cur[a])))
    && (forall i :: 0 <= i < k && !p.owners[p.ends[i]].Moved? ==> f.main.ref !in Refs(f.frag.kids[i]))
    && (forall i, a :: 0 <= i < k && !p.owners[p.ends[i]].Moved? && 0 <= a < |f.cur| ==>
          Refs(f.frag.kids[i]) !! Refs(f.cur[a]))
  }

  ghost predicate Outside(d: Doc, t: Tree) {
    Holds(d, t) && t.ref !in d.parent
  }

  ghost predicate AllOld(d: Doc, ts: seq<Tree>) {
    forall a, r :: 0 <= a < |ts| && r in Refs(ts[a]) ==> r < d.next
  }

  /** The document when k end inserts have been taken out and n old children have been patched.
      There is a fragment only when there are end inserts. */
  ghost predicate Stands(d: Doc, f: Forest, p: Plan, k: nat, n: nat) {
    && Valid(d) && Holds(d, f.main) && f.main.ElementTree? && (p.ends != [] ==> Outside(d, f.frag))
    && |f.cur| == |p.fates| && f.main.kids == Select(f.cur, Mask(p, k, n), |p.fates|)
    && FragMatches(f, p, k) && Disjoint(f, p, k) && AllOld(d, f.cur)
    && forall a :: 0 <= a < n && Between(p, a) ==> Outside(d, f.cur[a])
  }

  /** What the reordering has kept since document d0 with tree t. */
  ghost predicate Since(d0: Doc, t: Tree, d: Doc, f: Forest) {
    && t.ElementTree? && f.main.ElementTree? && f.main == t.(kids := f.main.kids)
    && d0.next <= d.next && d0.next <= f.frag.ref && f.frag.ElementTree?
    && (forall a, r :: 0 <= a < |f.cur| && r in Refs(f.cur[a]) ==> r in Refs(t) || d0.next <= r)
    && (forall i, r :: 0 <= i < |f.frag.kids| && r in Refs(f.frag.kids[i]) ==> r in Refs(t) || d0.next <= r)
    && SameParent(d0, d, t.ref)
    && forall r: Ref :: r < d0.next && r !in Refs(t) ==> SameNode(d0, d, r) && SameParent(d0, d, r)
  }

  // ----- parts of what stands -----

  lemma StandsParts(d: Doc, f: Forest, p: Plan, k: nat, n: nat)
    requires Stands(d, f, p, k, n)
    ensures Valid(d) && Holds(d, f.main) && f.main.ElementTree? && f.frag.ElementTree?
    ensures p.ends != [] ==> Outside(d, f.frag) && Holds(d, f.frag) && f.frag.ref < d.next
    ensures |f.cur| == |p.fates| && f.main.kids == Select(f.cur, Mask(p, k, n), |p.fates|) &&
      |f.frag.kids| == k <= |p.ends|
    ensures FragMatches(f, p, k) && Disjoint(f, p, k) && AllOld(d, f.cur) && Apart(f.cur) && Apart(f.main.kids)
    ensures f.main.ref < d.next
  {
  }

  lemma DisjointAt(f: Forest, p: Plan, k: nat, a: nat)
    requires FragMatches(f, p, k) && Disjoint(f, p, k) && a < |f.cur|
    ensures f.main.ref !in Refs(f.cur[a]) && f.cur[a].ref != f.main.ref && f.cur[a].ref in Refs(f.cur[a])
    ensures p.ends != [] ==> f.frag.ref !in Refs(f.cur[a]) && f.main.ref != f.frag.ref && f.cur[a].ref != f.frag.ref
  {
    RootIn(f.cur[a]);
  }

  lemma AllOldAt(d: Doc, ts: seq<Tree>, a: nat)
    requires AllOld(d, ts) && a < |ts|
    ensures forall r :: r in Refs(ts[a]) ==> r < d.next
  {
  }

  // ----- frames -----

  lemma KeepTree(d: Doc, e: Doc, ns: set<Ref>, ps: set<Ref>, t: Tree)
    requires Valid(d) && Holds(d, t) && Only(d, e, ns, ps) && Refs(t) !! ns
    requires forall r :: r in Refs(t) && r in ps ==> r == t.ref
    ensures Holds(e, t)
  {
    HoldsBelow(d, t);
    hide Holds, Valid;
    HoldsFrame(d, e, t);
  }

  lemma KeepOutside(d: Doc, e: Doc, ns: set<Ref>, ps: set<Ref>, t: Tree)
    requires Valid(d) && Outside(d, t) && Only(d, e, ns, ps) && Refs(t) !! ns && Refs(t) !! ps
    ensures Outside(e, t)
  {
    HoldsBelow(d, t);
    RootIn(t);
    KeepTree(d, e, ns, ps, t);
    assert SameParent(d, e, t.ref);
  }

  ghost function ParentOf(d: Doc, r: Ref): set<Ref> {
    if r in d.parent then {d.parent[r]} else {}
  }

  lemma StepOnly(d: Doc, t: Tree, e: Doc, u: Tree)
    requires Step(d, t, e, u)
    ensures Only(d, e, Refs(t) + ParentOf(d, t.ref), Refs(t))
  {
    forall r: Ref | r < d.next && r !in Refs(t)
      ensures SameParent(d, e, r) && (r !in ParentOf(d, t.ref) ==> SameNode(d, e, r)) {
      assert Elsewhere(d, t, e, u, r);
    }
  }

  /** A change near tree t keeps what is outside it. */
  lemma SinceThen(d0: Doc, t: Tree, d: Doc, f: Forest, e: Doc, g: Forest, ns: set<Ref>, ps: set<Ref>)
    requires Since(d0, t, d, f) && Only(d, e, ns, ps)
    requires forall r :: r in ns ==> r in Refs(t) || d0.next <= r
    requires forall r :: r in ps ==> (r in Refs(t) && r != t.ref) || d0.next <= r
    requires t.ref < d0.next
    requires g.main.ElementTree? && g.main == f.main.(kids := g.main.kids) && g.frag.ElementTree? &&
      g.frag.ref == f.frag.ref
    requires forall a, r :: 0 <= a < |g.cur| && r in Refs(g.cur[a]) ==> r in Refs(t) || d0.next <= r
    requires forall i, r :: 0 <= i < |g.frag.kids| && r in Refs(g.frag.kids[i]) ==> r in Refs(t) || d0.next <= r
    ensures Since(d0, t, e, g)
  {
    hide Refs;
    assert SameParent(d, e, t.ref);
    forall r: Ref | r < d0.next && r !in Refs(t) ensures SameNode(d0, e, r) && SameParent(d0, e, r) {
      assert SameNode(d0, d, r) && SameParent(d0, d, r);
      assert SameNode(d, e, r) && SameParent(d, e, r);
    }
  }

  lemma MainKid(d: Doc, f: Forest, p: Plan, k: nat, n: nat, a: nat)
    requires Stands(d, f, p, k, n) && a < |f.cur| && Present(p, k, n, a)
    ensures var i := Rank(Mask(p, k, n), a); i < |f.main.kids| && f.main.kids[i] == f.cur[a]
    ensures Placed(d, f.main.ref, f.cur[a])
  {
    hide Valid;
    SelectAt(f.cur, Mask(p, k, n), |p.fates|, a);
    assert Placed(d, f.main.ref, f.main.kids[Rank(Mask(p, k, n), a)]);
  }

  /** A node of the element below its root is in an old child that is present. */
  lemma InMain(d: Doc, f: Forest, p: Plan, k: nat, n: nat, r: Ref) returns (a: nat)
    requires Stands(d, f, p, k, n) && r in Refs(f.main) && r != f.main.ref
    ensures a < |f.cur| && Present(p, k, n, a) && r in Refs(f.cur[a])
  {
    hide Valid, Holds;
    var q :| 0 <= q < |f.main.kids| && r in Refs(f.main.kids[q]);
    a := SelectFrom(f.cur, Mask(p, k, n), |p.fates|, q);
  }

  /** An old child in the fragment has been moved there. */
  lemma InFragment(f: Forest, p: Plan, k: nat, i: nat, a: nat)
    requires Good(p) && FragMatches(f, p, k) && Disjoint(f, p, k) && i < k && a < |f.cur| == |p.fates|
    requires p.ends[i] < |p.owners| && !(Refs(f.frag.kids[i]) !! Refs(f.cur[a]))
    ensures ToEnd(p, a) && p.owners[p.fates[a].entry].j == p.scanned + i
  {
    hide Filled, InsertsMatch, KeepsBelow, Refs, Indexed;
    var o := p.owners[p.ends[i]];
    assert o.Moved?;
    assert o.a == a;
  }

  /** The element and the fragment share no node. */
  lemma MainFrag(d: Doc, f: Forest, p: Plan, k: nat, n: nat)
    requires Good(p) && Stands(d, f, p, k, n) && p.ends != []
    ensures Refs(f.main) !! Refs(f.frag)
  {
    hide Valid, Holds, Good, Mask, Select;
    forall r | r in Refs(f.main) ensures r !in Refs(f.frag) {
      if r == f.main.ref {
        RootApart(f, p, k);
      } else {
        var a := InMain(d, f, p, k, n, r);
        KidApart(f, p, k, n, a);
      }
    }
  }

  lemma RootApart(f: Forest, p: Plan, k: nat)
    requires FragMatches(f, p, k) && Disjoint(f, p, k) && p.ends != []
    ensures f.main.ref !in Refs(f.frag)
  {
  }

  /** A child that is present is not in the fragment. */
  lemma KidApart(f: Forest, p: Plan, k: nat, n: nat, a: nat)
    requires Good(p) && FragMatches(f, p, k) && Disjoint(f, p, k) && a < |f.cur| == |p.fates| && p.ends != []
    requires Present(p, k, n, a) || !ToEnd(p, a)
    ensures Refs(f.cur[a]) !! Refs(f.frag)
  {
    forall i | 0 <= i < k ensures Refs(f.frag.kids[i]) !! Refs(f.cur[a]) {
      if !(Refs(f.frag.kids[i]) !! Refs(f.cur[a])) { InFragment(f, p, k, i, a); }
    }
    hide Good;
  }

  /** What is between its removal and its insertion is in neither. */
  lemma MainOut(d: Doc, f: Forest, p: Plan, k: nat, n: nat, a: nat)
    requires Good(p) && Stands(d, f, p, k, n) && a < |f.cur| && !Present(p, k, n, a)
    ensures Refs(f.cur[a]) !! Refs(f.main)
    ensures !ToEnd(p, a) && p.ends != [] ==> Refs(f.cur[a]) !! Refs(f.frag)
  {
    hide Valid, Holds, Good, Mask, Select;
    forall r | r in Refs(f.main) ensures r !in Refs(f.cur[a]) {
      if r != f.main.ref {
        var b := InMain(d, f, p, k, n, r);
      }
    }
    if !ToEnd(p, a) && p.ends != [] { KidApart(f, p, k, n, a); }
  }
}
