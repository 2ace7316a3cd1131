/** Before the old children of a reordered element are patched: filling the fragment with the
    end inserts. */
module VdomReorderEnds {
  import opened Wrappers
  import opened VdomNodes
  import opened VdomKeyedPlan
  import opened VdomDiff
  import opened VdomDocument
  import opened VdomPatching
  import opened VdomSteps
  import opened VdomReorder
  import opened VdomReorderSteps

  /** The entries are those of the plan, for these new children. */
  ghost predicate EntriesFor(entries: seq<Entry>, p: Plan, news: seq<VNode>) {
    |entries| == |p.owners| &&
    forall e :: 0 <= e < |p.owners| ==>
      match p.owners[e]
      case Removed(_) => true
      case Inserted(j, atEnd) => entries[e].tag == INSERT && j < |news| && entries[e].node == news[j] &&
        (entries[e].at == None <==> atEnd)
      case Moved(_, j, atEnd, _) => entries[e].tag == MOVE && j < |news| && (entries[e].at == None <==> atEnd)
  }

  /** Every moved entry holds its old child as it is by now; a child moved to the end is not
      looked at again once it is patched. */
  ghost predicate MovedFor(moved: map<nat, Ref>, p: Plan, cur: seq<Tree>, n: nat) {
    forall e :: 0 <= e < |p.owners| && p.owners[e].Moved? ==>
      e in moved && p.owners[e].a < |cur| &&
      ((p.owners[e].atEnd && p.owners[e].a < n) || moved[e] == cur[p.owners[e].a].ref)
  }

  ghost predicate EndsDrawn(f: Forest, p: Plan, news: seq<VNode>, n: nat) {
    f.frag.ElementTree? && n <= |f.frag.kids| && n <= |p.ends| &&
    forall i :: 0 <= i < n && p.ends[i] < |p.owners| && p.owners[p.ends[i]].Inserted? ==>
      p.owners[p.ends[i]].j < |news| && See(f.frag.kids[i]) == Draw(news[p.owners[p.ends[i]].j])
  }

  lemma EndEntry(p: Plan, entries: seq<Entry>, news: seq<VNode>, k: nat)
    requires Good(p) && k < |p.ends| && EntriesFor(entries, p, news)
    ensures p.ends[k] < |p.owners| && EndsOf(p)[k] == Insert(None, p.ends[k])
    ensures var o := p.owners[p.ends[k]];
      && o.HasNew() && o.atEnd && o.j == p.scanned + k && o.j < |news|
      && (o.Inserted? ==> entries[p.ends[k]].tag == INSERT && entries[p.ends[k]].node == news[o.j])
      && (o.Moved? ==> entries[p.ends[k]].tag == MOVE)
    ensures |entries| == |p.owners|
  {
    hide Filled, InsertsMatch;
  }

  // ----- filling the fragment -----

  lemma SinceTaken(d0: Doc, t: Tree, d: Doc, f: Forest, e: Doc, g: Forest, p: Plan, k: nat, a: nat)
    requires Since(d0, t, d, f) && t.ref < d0.next && FragMatches(f, p, k) && Disjoint(f, p, k) && a < |f.cur|
    requires Only(d, e, {f.main.ref, f.frag.ref}, {f.cur[a].ref})
    requires g.main.ElementTree? && g.main == f.main.(kids := g.main.kids) && g.cur == f.cur
    requires g.frag == f.frag.(kids := f.frag.kids + [f.cur[a]])
    ensures Since(d0, t, e, g)
  {
    hide Only, Refs, Apart;
    DisjointAt(f, p, k, a);
    RootIn(t);
    forall i, r | 0 <= i < |g.frag.kids| && r in Refs(g.frag.kids[i]) ensures r in Refs(t) || d0.next <= r {
      if i < |f.frag.kids| { assert g.frag.kids[i] == f.frag.kids[i]; } else { assert g.frag.kids[i] == f.cur[a]; }
    }
    SinceThen(d0, t, d, f, e, g, {f.main.ref, f.frag.ref}, {f.cur[a].ref});
  }

  lemma SinceGrown(d0: Doc, t: Tree, d: Doc, f: Forest, e: Doc, g: Forest, c: Tree)
    requires Since(d0, t, d, f) && t.ref < d0.next && Only(d, e, {f.frag.ref}, {})
    requires g.main == f.main && g.cur == f.cur && g.frag == f.frag.(kids := f.frag.kids + [c])
    requires forall r :: r in Refs(c) ==> d.next <= r
    ensures Since(d0, t, e, g)
  {
    hide Only, Refs;
    forall i, r | 0 <= i < |g.frag.kids| && r in Refs(g.frag.kids[i]) ensures r in Refs(t) || d0.next <= r {
      if i < |f.frag.kids| { assert g.frag.kids[i] == f.frag.kids[i]; }
    }
    SinceThen(d0, t, d, f, e, g, {f.frag.ref}, {});
  }

  lemma DrawnTaken(f: Forest, g: Forest, p: Plan, news: seq<VNode>, k: nat, c: Tree)
    requires EndsDrawn(f, p, news, k) && |f.frag.kids| == k < |p.ends| && g.frag == f.frag.(kids := f.frag.kids + [c])
    requires p.ends[k] < |p.owners|
    requires p.owners[p.ends[k]].Inserted? ==>
      p.owners[p.ends[k]].j < |news| && See(c) == Draw(news[p.owners[p.ends[k]].j])
    ensures EndsDrawn(g, p, news, k + 1)
  {
    hide See, Draw;
    forall i | 0 <= i < k ensures g.frag.kids[i] == f.frag.kids[i] {}
  }

  /** One end insert more has been put into the fragment. */
  ghost predicate Filling(d0: Doc, t: Tree, d: Doc, f: Forest, p: Plan, news: seq<VNode>, n: nat) {
    Stands(d, f, p, n, 0) && Since(d0, t, d, f) && EndsDrawn(f, p, news, n)
  }

  lemma FillMoved(d0: Doc, t: Tree, d: Doc, f: Forest, p: Plan, news: seq<VNode>, k: nat, a: nat) returns (g: Forest)
    requires Good(p) && k < |p.ends| && Filling(d0, t, d, f, p, news, k) && t.ref < d0.next
    requires p.owners[p.ends[k]].Moved? && a == p.owners[p.ends[k]].a && a < |f.cur|
    ensures Filling(d0, t, AppendChild(d, f.frag.ref, f.cur[a].ref), g, p, news, k + 1)
    ensures g.cur == f.cur && g.frag.ref == f.frag.ref
  {
    hide Stands, Since, See, Draw, InsertBefore, Mask, Rank, Cut, Only, FragMatches, Disjoint, EndsDrawn, Refs;
    StandsParts(d, f, p, k, 0);
    MaskTaken(p, k, a);
    GoodEnds(p);
    hide Good;
    MainKid(d, f, p, k, 0, a);
    g := Forest(f.main.(kids := Cut(f.main.kids, Rank(Mask(p, k, 0), a))), f.frag.(kids := f.frag.kids + [f.cur[a]]),
      f.cur);
    TakeMoved(d, f, p, k, a, g);
    SinceTaken(d0, t, d, f, AppendChild(d, f.frag.ref, f.cur[a].ref), g, p, k, a);
    DrawnTaken(f, g, p, news, k, f.cur[a]);
  }

  lemma FillNew(d0: Doc, t: Tree, d: Doc, f: Forest, p: Plan, news: seq<VNode>, k: nat, v: VNode) returns (g: Forest)
    requires Good(p) && k < |p.ends| && Filling(d0, t, d, f, p, news, k) && t.ref < d0.next
    requires p.owners[p.ends[k]].Inserted? && p.owners[p.ends[k]].j < |news| && v == news[p.owners[p.ends[k]].j]
    ensures var (d1, r) := Render(d, v); Filling(d0, t, AppendChild(d1, f.frag.ref, r), g, p, news, k + 1)
    ensures g.cur == f.cur && g.frag.ref == f.frag.ref
  {
    hide Stands, Since, See, Draw, InsertBefore, Mask, Rank, Cut, Only, FragMatches, Disjoint, EndsDrawn, Refs, Render;
    StandsParts(d, f, p, k, 0);
    GoodEnds(p);
    g := TakeNew(d, f, p, k, v);
    hide Good;
    var (d1, r) := Render(d, v);
    SinceGrown(d0, t, d, f, AppendChild(d1, f.frag.ref, r), g, g.frag.kids[k]);
    DrawnTaken(f, g, p, news, k, g.frag.kids[k]);
  }

  lemma {:induction false} FillStands(d0: Doc, t: Tree, d: Doc, f0: Forest, p: Plan, entries: seq<Entry>,
                                      moved: map<nat, Ref>, news: seq<VNode>, n: nat) returns (f: Forest)
    requires Good(p) && n <= |p.ends| && Filling(d0, t, d, f0, p, news, 0) && t.ref < d0.next
    requires EntriesFor(entries, p, news) && MovedFor(moved, p, f0.cur, 0)
    ensures Filling(d0, t, FillFragment(d, f0.frag.ref, EndsOf(p), entries, moved, n), f, p, news, n)
    ensures f.cur == f0.cur && f.frag.ref == f0.frag.ref
  {
    hide Good, Filling, EntriesFor, Render, InsertBefore;
    if n == 0 {
      f := f0;
    } else {
      var k := n - 1;
      var g := FillStands(d0, t, d, f0, p, entries, moved, news, k);
      var e := FillFragment(d, f0.frag.ref, EndsOf(p), entries, moved, k);
      EndEntry(p, entries, news, k);
      var o := p.owners[p.ends[k]];
      if o.Moved? {
        f := FillMoved(d0, t, e, g, p, news, k, o.a);
      } else {
        f := FillNew(d0, t, e, g, p, news, k, news[o.j]);
      }
    }
  }
}
