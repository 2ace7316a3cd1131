/** The look-ahead scan over two lists of keys, as a plan: which old child is kept for which
    new child, which leave, which new children are inserted, and which leavers are moved.
    The decisions depend on the keys alone. */
module VdomKeyedPlan {
  import opened Wrappers
  import opened VdomObjects

  /** What happens to an old child: it stays and becomes new child `j`, or it leaves its
      place and entry `entry` tells whether it comes back elsewhere. */
  datatype Fate = Keep(j: nat) | Leave(entry: nat)

  /** An entry of the `changes` dictionary: an old child removed, a new child inserted, or
      an old child `a` moved to become new child `j`.  `atEnd` tells a new child appended
      after the scan from one inserted at its index; `late` that the removal came first. */
  datatype Owner =
    | Removed(a: nat)
    | Inserted(j: nat, atEnd: bool)
    | Moved(a: nat, j: nat, atEnd: bool, late: bool)
  {
    predicate HasOld() { !Inserted? }
    predicate HasNew() { !Removed? }
  }

  datatype Plan = Plan(
    fates: seq<Fate>,            // one for each old child seen so far
    owners: seq<Owner>,          // the entries, in order of creation
    changes: map<string, nat>,   // key (or key with postfixes) to entry
    inserts: seq<nat>,           // entries of the indexed inserts, in order
    ends: seq<nat>,              // entries of the end inserts, in order
    scanned: nat,                // new children used by the scan
    extra: Option<nat>)          // see StaleMatch

  const EMPTY := Plan([], [], map[], [], [], 0, None)

  const POSTFIX := "_elmW6BL"

  // ----- the dictionary of changes -----

  ghost predicate Indexed(p: Plan) {
    forall key :: key in p.changes ==> p.changes[key] < |p.owners|
  }

  ghost function AtLeast(changes: map<string, nat>, n: nat): set<string> {
    set key | key in changes && |key| >= n
  }

  lemma LongerKeys(changes: map<string, nat>, key: string)
    requires key in changes
    ensures |AtLeast(changes, |key + POSTFIX|)| < |AtLeast(changes, |key|)|
  {
    var small, big := AtLeast(changes, |key + POSTFIX|), AtLeast(changes, |key|);
    assert small <= big - {key};
    Subset(small, big - {key});
  }

  lemma Subset<T>(a: set<T>, b: set<T>)
    requires a <= b
    ensures |a| <= |b|
  {
    if a != {} {
      var e :| e in a;
      Subset(a - {e}, b - {e});
    }
  }

  /** How long a search among the entries can still go on from a key. */
  ghost function Searches(changes: map<string, nat>, key: string): nat {
    2 * |AtLeast(changes, |key|)| + if Inherited(key) then 1 else 0
  }

  lemma FewerSearches(changes: map<string, nat>, key: string)
    requires key in changes || Inherited(key)
    ensures Searches(changes, key + POSTFIX) < Searches(changes, key)
  {
    EndsOtherwise(key + POSTFIX);
    if key in changes {
      LongerKeys(changes, key);
    } else {
      Subset(AtLeast(changes, |key + POSTFIX|), AtLeast(changes, |key|));
    }
  }

  /** The key under which a new child is entered: the first one, adding postfixes, that is
      unused or belongs to an old child removed earlier.  An inherited name is used. */
  function InsertKey(p: Plan, key: string): (k: string)
    ensures k in p.changes && p.changes[k] < |p.owners| ==> p.owners[p.changes[k]].Removed?
    decreases Searches(p.changes, key)
  {
    if (if key in p.changes then p.changes[key] < |p.owners| && !p.owners[p.changes[key]].Removed? else Inherited(key))
    then
      FewerSearches(p.changes, key);
      InsertKey(p, key + POSTFIX)
    else key
  }

  /** The key under which an old child is entered: unused, or of a new child inserted earlier. */
  function RemoveKey(p: Plan, key: string): (k: string)
    ensures k in p.changes && p.changes[k] < |p.owners| ==> p.owners[p.changes[k]].Inserted?
    decreases Searches(p.changes, key)
  {
    if (if key in p.changes then p.changes[key] < |p.owners| && !p.owners[p.changes[key]].Inserted? else Inherited(key))
    then
      FewerSearches(p.changes, key);
      RemoveKey(p, key + POSTFIX)
    else key
  }

  // ----- the three moves of the scan -----

  function KeepOld(p: Plan, j: nat): Plan {
    p.(fates := p.fates + [Keep(j)])
  }

  function RemoveOld(p: Plan, key: string): Plan {
    var k := RemoveKey(p, key);
    var a := |p.fates|;
    if k in p.changes && p.changes[k] < |p.owners| then
      var e := p.changes[k];
      var o := p.owners[e];
      p.(owners := p.owners[e := Moved(a, o.j, o.atEnd, false)], fates := p.fates + [Leave(e)])
    else
      var e := |p.owners|;
      p.(owners := p.owners + [Removed(a)], changes := p.changes[k := e], fates := p.fates + [Leave(e)])
  }

  function InsertNew(p: Plan, key: string, j: nat, atEnd: bool): Plan {
    var k := InsertKey(p, key);
    var known := k in p.changes && p.changes[k] < |p.owners|;
    var e := if known then p.changes[k] else |p.owners|;
    var q :=
      if known then p.(owners := p.owners[e := Moved(p.owners[e].a, j, atEnd, true)])
      else p.(owners := p.owners + [Inserted(j, atEnd)], changes := p.changes[k := e]);
    if atEnd then q.(ends := q.ends + [e]) else q.(inserts := q.inserts + [e])
  }

  // ----- inserting at indices -----

  /** insertBefore with the child at index `k`, or at the end when there is none. */
  function InsertAt<T>(s: seq<T>, k: nat, v: T): seq<T> {
    if k < |s| then s[..k] + [v] + s[k..] else s + [v]
  }

  /** New children kept from old ones, in order. */
  function Kept(fates: seq<Fate>): seq<nat> {
    if fates == [] then []
    else Kept(fates[..|fates| - 1]) + (match fates[|fates| - 1] case Keep(j) => [j] case Leave(_) => [])
  }

  function NewOf(p: Plan, e: nat): nat {
    if e < |p.owners| && p.owners[e].HasNew() then p.owners[e].j else 0
  }

  /** The list after inserting, one by one, the first `n` indexed inserts at their indices. */
  function Filled(p: Plan, n: nat): seq<nat>
    requires n <= |p.inserts|
  {
    if n == 0 then Kept(p.fates)
    else var j := NewOf(p, p.inserts[n - 1]); InsertAt(Filled(p, n - 1), j, j)
  }

  function UpTo(n: nat): (s: seq<nat>)
    ensures |s| == n && forall i :: 0 <= i < n ==> s[i] == i
  {
    seq(n, i => i)
  }

  // ----- what every step of the scan keeps -----

  ghost predicate FatesMatch(p: Plan) {
    forall a :: 0 <= a < |p.fates| && p.fates[a].Leave? ==>
      var e := p.fates[a].entry; e < |p.owners| && p.owners[e].HasOld() && p.owners[e].a == a
  }

  ghost predicate OwnersMatch(p: Plan) {
    forall e :: 0 <= e < |p.owners| ==>
      (p.owners[e].HasOld() ==> p.owners[e].a < |p.fates| && p.fates[p.owners[e].a] == Leave(e)) &&
      (p.owners[e].HasNew() ==> e in (if p.owners[e].atEnd then p.ends else p.inserts))
  }

  ghost predicate InsertsMatch(p: Plan) {
    forall k :: 0 <= k < |p.inserts| ==>
      var e := p.inserts[k];
      e < |p.owners| && p.owners[e].HasNew() && !p.owners[e].atEnd && p.owners[e].j < p.scanned &&
      p.owners[e].j <= |Kept(p.fates)| + k
  }

  /** No entry is inserted twice. */
  ghost predicate InsertsOnce(p: Plan) {
    forall k, l :: 0 <= k < l < |p.inserts| ==> p.inserts[k] != p.inserts[l]
  }

  ghost predicate EndsMatch(p: Plan) {
    forall k :: 0 <= k < |p.ends| ==>
      var e := p.ends[k];
      e < |p.owners| && p.owners[e].HasNew() && p.owners[e].atEnd && p.owners[e].j == p.scanned + k
  }

  ghost predicate KeepsBelow(p: Plan) {
    forall a :: 0 <= a < |p.fates| && p.fates[a].Keep? ==> p.fates[a].j < p.scanned
  }

  /** Everything above, and: inserting at the recorded indices turns the kept children into
      all the new children scanned, in their order. */
  ghost predicate Good(p: Plan) {
    Indexed(p) && FatesMatch(p) && OwnersMatch(p) && InsertsMatch(p) && InsertsOnce(p) && EndsMatch(p) &&
      KeepsBelow(p) &&
    |Kept(p.fates)| + |p.inserts| == p.scanned && Filled(p, |p.inserts|) == UpTo(p.scanned)
  }

  lemma FilledLength(p: Plan, n: nat)
    requires n <= |p.inserts|
    ensures |Filled(p, n)| == |Kept(p.fates)| + n
  {
  }

  /** Filling depends only on the kept children and on the targets of the inserts. */
  lemma FilledSame(p: Plan, q: Plan, n: nat)
    requires n <= |p.inserts| <= |q.inserts| && q.inserts[..n] == p.inserts[..n]
    requires Kept(p.fates) == Kept(q.fates)
    requires forall k :: 0 <= k < n ==> NewOf(p, p.inserts[k]) == NewOf(q, q.inserts[k])
    ensures Filled(p, n) == Filled(q, n)
  {
    if n > 0 {
      assert q.inserts[..n][n - 1] == p.inserts[..n][n - 1];
      assert q.inserts[..n - 1] == q.inserts[..n][..n - 1] == p.inserts[..n - 1];
      FilledSame(p, q, n - 1);
    }
  }

  lemma KeptSnoc(fates: seq<Fate>, f: Fate)
    ensures Kept(fates + [f]) == Kept(fates) + (match f case Keep(j) => [j] case Leave(_) => [])
  {
    assert (fates + [f])[..|fates|] == fates;
  }

  lemma InsertAtEnd(s: seq<nat>, t: nat, j: nat)
    requires t <= |s|
    ensures InsertAt(s + [j], t, t) == InsertAt(s, t, t) + [j]
  {
  }

  lemma {:induction false} FilledKeep(p: Plan, q: Plan, j: nat, n: nat)
    requires InsertsMatch(p) && n <= |p.inserts|
    requires q.inserts == p.inserts && q.owners == p.owners
    requires Kept(q.fates) == Kept(p.fates) + [j]
    ensures Filled(q, n) == Filled(p, n) + [j]
  {
    if n > 0 {
      FilledKeep(p, q, j, n - 1);
      FilledLength(p, n - 1);
      InsertAtEnd(Filled(p, n - 1), NewOf(p, p.inserts[n - 1]), j);
    }
  }

  lemma KeepGood(p: Plan)
    requires Good(p) && p.ends == []
    ensures Good(KeepOld(p, p.scanned).(scanned := p.scanned + 1))
    ensures Indexed(KeepOld(p, p.scanned).(scanned := p.scanned + 1))
  {
    var q := KeepOld(p, p.scanned).(scanned := p.scanned + 1);
    KeptSnoc(p.fates, Keep(p.scanned));
    FilledKeep(p, q, p.scanned, |p.inserts|);
    UpToSnoc(p.scanned);
    KeepMatches(p);
    hide FatesMatch, OwnersMatch, InsertsMatch, EndsMatch, KeepsBelow, Filled, Kept, UpTo;
  }

  lemma KeepMatches(p: Plan)
    requires Good(p) && p.ends == []
    ensures var q := KeepOld(p, p.scanned).(scanned := p.scanned + 1);
      FatesMatch(q) && OwnersMatch(q) && InsertsMatch(q) && EndsMatch(q) && KeepsBelow(q)
  {
    KeptSnoc(p.fates, Keep(p.scanned));
    hide Filled, Kept, UpTo;
  }

  /** What a removal does, whichever way it found its entry. */
  ghost predicate Drops(p: Plan, q: Plan) {
    && Indexed(q) && FatesMatch(q) && OwnersMatch(q)
    && |q.fates| == |p.fates| + 1 && q.fates[..|p.fates|] == p.fates && q.fates[|p.fates|].Leave?
    && q.scanned == p.scanned && q.extra == p.extra && q.inserts == p.inserts && q.ends == p.ends
    && |p.owners| <= |q.owners|
    && forall i :: 0 <= i < |p.owners| && p.owners[i].HasNew() ==>
      q.owners[i].HasNew() && q.owners[i].j == p.owners[i].j && q.owners[i].atEnd == p.owners[i].atEnd
  }

  lemma RemoveDrops(p: Plan, key: string)
    requires Indexed(p) && FatesMatch(p) && OwnersMatch(p)
    ensures Drops(p, RemoveOld(p, key))
  {
  }

  lemma DroppedGood(p: Plan, q: Plan)
    requires Good(p) && Drops(p, q)
    ensures Good(q)
  {
    hide FatesMatch, OwnersMatch, Indexed;
    KeptSnoc(p.fates, q.fates[|p.fates|]);
    assert q.fates == p.fates + [q.fates[|p.fates|]];
    FilledSame(p, q, |p.inserts|);
  }

  lemma RemoveGood(p: Plan, key: string)
    requires Good(p)
    ensures var q := RemoveOld(p, key);
      && Good(q) && |q.fates| == |p.fates| + 1
      && q.scanned == p.scanned && q.ends == p.ends && q.extra == p.extra
  {
    RemoveDrops(p, key);
    hide Good, FatesMatch, OwnersMatch, RemoveOld;
    DroppedGood(p, RemoveOld(p, key));
  }

  /** What an insertion does to the entries, whichever way it found its entry. */
  ghost predicate Adds(p: Plan, q: Plan, e: nat, j: nat, atEnd: bool) {
    && Indexed(q) && FatesMatch(q) && OwnersMatch(q)
    && q.fates == p.fates && q.scanned == p.scanned && q.extra == p.extra
    && e < |q.owners| && q.owners[e].HasNew() && q.owners[e].j == j && q.owners[e].atEnd == atEnd
    && q.inserts == (if atEnd then p.inserts else p.inserts + [e])
    && q.ends == (if atEnd then p.ends + [e] else p.ends)
    && |p.owners| <= |q.owners| && (e < |p.owners| ==> !p.owners[e].HasNew())
    && forall i :: 0 <= i < |p.owners| && p.owners[i].HasNew() ==> q.owners[i] == p.owners[i]
  }

  lemma InsertAdds(p: Plan, key: string, j: nat, atEnd: bool) returns (e: nat)
    requires Good(p)
    ensures Adds(p, InsertNew(p, key, j, atEnd), e, j, atEnd)
  {
    hide Filled, Kept, UpTo, InsertsMatch, InsertsOnce, EndsMatch, KeepsBelow, Inherited;
    var k := InsertKey(p, key);
    e := if k in p.changes then p.changes[k] else |p.owners|;
  }

  lemma UpToSnoc(n: nat)
    ensures UpTo(n) + [n] == UpTo(n + 1)
  {
  }

  lemma FilledInsert(p: Plan, q: Plan, e: nat)
    requires Filled(p, |p.inserts|) == UpTo(p.scanned)
    requires q.inserts == p.inserts + [e] && q.fates == p.fates && NewOf(q, e) == p.scanned
    requires forall k :: 0 <= k < |p.inserts| ==> NewOf(p, p.inserts[k]) == NewOf(q, p.inserts[k])
    ensures Filled(q, |q.inserts|) == UpTo(p.scanned + 1)
  {
    var n := |p.inserts|;
    assert q.inserts[..n] == p.inserts[..n];
    FilledSame(p, q, n);
    UpToSnoc(p.scanned);
  }

  lemma AddedInserts(p: Plan, q: Plan, e: nat)
    requires InsertsMatch(p) && InsertsOnce(p) && Adds(p, q, e, p.scanned, false)
    requires |Kept(p.fates)| + |p.inserts| == p.scanned
    ensures var r := q.(scanned := p.scanned + 1); InsertsMatch(r) && InsertsOnce(r)
    ensures forall k :: 0 <= k < |p.inserts| ==> NewOf(p, p.inserts[k]) == NewOf(q, p.inserts[k])
  {
    hide FatesMatch, OwnersMatch, Indexed, Kept;
    forall k | 0 <= k < |p.inserts| ensures q.inserts[k] == p.inserts[k] {}
  }

  lemma AddedRest(p: Plan, q: Plan, e: nat)
    requires EndsMatch(p) && KeepsBelow(p) && p.ends == [] && Adds(p, q, e, p.scanned, false)
    ensures var r := q.(scanned := p.scanned + 1);
      Indexed(r) && FatesMatch(r) && OwnersMatch(r) && EndsMatch(r) && KeepsBelow(r)
  {
  }

  lemma AddedGood(p: Plan, q: Plan, e: nat)
    requires Good(p) && p.ends == [] && Adds(p, q, e, p.scanned, false)
    ensures Good(q.(scanned := p.scanned + 1))
  {
    hide FatesMatch, OwnersMatch, Indexed, Kept, InsertsMatch, InsertsOnce, EndsMatch, KeepsBelow, Filled, UpTo;
    var r := q.(scanned := p.scanned + 1);
    AddedInserts(p, q, e);
    AddedRest(p, q, e);
    FilledInsert(p, q, e);
    FilledSame(q, r, |q.inserts|);
  }

  lemma AddedEndGood(p: Plan, q: Plan, e: nat)
    requires Good(p) && Adds(p, q, e, p.scanned + |p.ends|, true)
    ensures Good(q)
  {
    FilledSame(p, q, |p.inserts|);
  }

  lemma InsertGood(p: Plan, key: string)
    requires Good(p) && p.ends == []
    ensures Good(InsertNew(p, key, p.scanned, false).(scanned := p.scanned + 1))
    ensures Indexed(InsertNew(p, key, p.scanned, false).(scanned := p.scanned + 1))
    ensures var q := InsertNew(p, key, p.scanned, false);
      q.ends == [] && q.fates == p.fates && q.scanned == p.scanned && q.extra == p.extra
  {
    hide Good, InsertNew, FatesMatch, OwnersMatch;
    var e := InsertAdds(p, key, p.scanned, false);
    AddedGood(p, InsertNew(p, key, p.scanned, false), e);
  }

  lemma InsertEndGood(p: Plan, key: string)
    requires Good(p)
    ensures Good(InsertNew(p, key, p.scanned + |p.ends|, true))
    ensures |InsertNew(p, key, p.scanned + |p.ends|, true).ends| == |p.ends| + 1
    ensures var q := InsertNew(p, key, p.scanned + |p.ends|, true);
      q.fates == p.fates && q.scanned == p.scanned && q.extra == p.extra
  {
    hide Good, InsertNew, FatesMatch, OwnersMatch;
    var e := InsertAdds(p, key, p.scanned + |p.ends|, true);
    AddedEndGood(p, InsertNew(p, key, p.scanned + |p.ends|, true), e);
  }

  // ----- the scan -----

  function Advance(p: Plan): Plan {
    p.(scanned := p.scanned + 1)
  }

  function KeepNext(p: Plan): Plan {
    Advance(KeepOld(p, p.scanned))
  }

  function InsertNext(p: Plan, key: string): Plan {
    Advance(InsertNew(p, key, p.scanned, false))
  }

  /** One round of the scan: None when it stops, else the plan and the remembered look-ahead.

      `look` is the index of the new child that the program's variables yNextKey and yNextNode
      name.  They are set only when there is a next new child, and keep their values when there
      is none: the last rule then compares with an old look-ahead.  When that succeeds, the next
      old child is kept for the remembered new child a second time, and `extra` says which. */
  function Round(xs: seq<string>, ys: seq<string>, p: Plan, look: Option<nat>): Option<(Plan, Option<nat>)> {
    var a, b := |p.fates|, p.scanned;
    if a >= |xs| || b >= |ys| then None
    else if xs[a] == ys[b] then Some((KeepNext(p), look))
    else
      var oldMatch := a + 1 < |xs| && ys[b] == xs[a + 1];
      var newMatch := b + 1 < |ys| && xs[a] == ys[b + 1];
      var look' := if b + 1 < |ys| then Some(b + 1) else look;
      if newMatch && oldMatch then
        Some((RemoveOld(KeepNext(InsertNext(p, xs[a])), xs[a]), look'))
      else if newMatch then
        Some((KeepNext(InsertNext(p, ys[b])), look'))
      else if oldMatch then
        Some((KeepNext(RemoveOld(p, xs[a])), look'))
      else if a + 1 < |xs| && look'.Some? && look'.value < |ys| && xs[a + 1] == ys[look'.value] then
        var q := KeepNext(InsertNext(RemoveOld(p, xs[a]), ys[b]));
        Some((if b + 1 < |ys| then q else q.(extra := look'), look'))
      else None
  }

  function Scan(xs: seq<string>, ys: seq<string>, p: Plan, look: Option<nat>): Plan
    decreases |xs| - |p.fates|
  {
    var r := Round(xs, ys, p, look);
    if r == None then p
    else RoundProgress(xs, ys, p, look); Scan(xs, ys, r.value.0, r.value.1)
  }

  lemma RoundProgress(xs: seq<string>, ys: seq<string>, p: Plan, look: Option<nat>)
    requires Round(xs, ys, p, look).Some?
    ensures |p.fates| < |xs| && |Round(xs, ys, p, look).value.0.fates| > |p.fates|
  {
  }

  function RemoveRest(xs: seq<string>, p: Plan): (q: Plan)
    decreases |xs| - |p.fates|
  {
    var a := |p.fates|;
    if a >= |xs| then p else RemoveRest(xs, RemoveOld(p, xs[a]))
  }

  function InsertRest(ys: seq<string>, p: Plan): (q: Plan)
    decreases |ys| - p.scanned - |p.ends|
  {
    var j := p.scanned + |p.ends|;
    if j >= |ys| then p else InsertRest(ys, InsertNew(p, ys[j], j, true))
  }

  /** The whole plan: scan, then remove the old children left, then append the new ones left. */
  function MakePlan(xs: seq<string>, ys: seq<string>): Plan {
    InsertRest(ys, RemoveRest(xs, Scan(xs, ys, EMPTY, None)))
  }

  // ----- every plan is good -----

  /** Between two rounds of the scan. */
  ghost predicate Scanning(p: Plan) {
    Good(p) && p.ends == []
  }

  lemma StepsGood(p: Plan, key: string)
    requires Scanning(p)
    ensures Scanning(KeepNext(p)) && |KeepNext(p).fates| == |p.fates| + 1
    ensures KeepNext(p).scanned == p.scanned + 1 && KeepNext(p).extra == p.extra
    ensures Scanning(RemoveOld(p, key)) && |RemoveOld(p, key).fates| == |p.fates| + 1
    ensures RemoveOld(p, key).scanned == p.scanned && RemoveOld(p, key).extra == p.extra
    ensures Scanning(InsertNext(p, key)) && InsertNext(p, key).fates == p.fates
    ensures InsertNext(p, key).scanned == p.scanned + 1 && InsertNext(p, key).extra == p.extra
  {
    hide Good, InsertNew, RemoveOld;
    KeepGood(p);
    RemoveGood(p, key);
    InsertGood(p, key);
  }

  lemma ExtraGood(p: Plan, extra: Option<nat>)
    requires Good(p)
    ensures Good(p.(extra := extra))
  {
    var q := p.(extra := extra);
    FilledSame(p, q, |p.inserts|);
  }

  /** What the scan knows after a round: how far it got, and whether it met the stale look-ahead. */
  ghost predicate Within(xs: seq<string>, ys: seq<string>, p: Plan, look: Option<nat>) {
    && Scanning(p) && |p.fates| <= |xs|
    && (look.Some? ==> look.value < |ys|)
    && (p.extra.None? ==> p.scanned <= |ys|)
    && (p.extra.Some? ==> p.scanned == |ys| + 1 && p.extra.value < |ys|)
  }

  lemma RoundGood(xs: seq<string>, ys: seq<string>, p: Plan, look: Option<nat>)
    requires Within(xs, ys, p, look) && Round(xs, ys, p, look).Some?
    ensures var (q, l) := Round(xs, ys, p, look).value; Within(xs, ys, q, l)
  {
    hide Good, InsertNew, RemoveOld, KeepNext, InsertNext;
    var a, b := |p.fates|, p.scanned;
    var x, y := xs[a], ys[b];
    StepsGood(p, x);
    StepsGood(p, y);
    StepsGood(InsertNext(p, x), x);
    StepsGood(KeepNext(InsertNext(p, x)), x);
    StepsGood(InsertNext(p, y), x);
    StepsGood(RemoveOld(p, x), y);
    var q := InsertNext(RemoveOld(p, x), y);
    StepsGood(q, x);
    ExtraGood(KeepNext(q), if b + 1 < |ys| then Some(b + 1) else look);
  }

  /** How far a round gets. */
  lemma RoundShape(xs: seq<string>, ys: seq<string>, p: Plan, look: Option<nat>)
    requires Within(xs, ys, p, look) && Round(xs, ys, p, look).Some?
    ensures var (q, l) := Round(xs, ys, p, look).value; var a, b := |p.fates|, p.scanned;
      var oldMatch := a + 1 < |xs| && ys[b] == xs[a + 1];
      var newMatch := b + 1 < |ys| && xs[a] == ys[b + 1];
      && l == (if xs[a] != ys[b] && b + 1 < |ys| then Some(b + 1) else look)
      && |q.fates| == (if xs[a] == ys[b] || (newMatch && !oldMatch) then a + 1 else a + 2)
      && q.scanned == (if xs[a] == ys[b] || (oldMatch && !newMatch) then b + 1 else b + 2)
  {
    hide Good, InsertNew, RemoveOld, KeepNext, InsertNext;
    var x, y := xs[|p.fates|], ys[p.scanned];
    StepsGood(p, x);
    StepsGood(p, y);
    StepsGood(InsertNext(p, x), x);
    StepsGood(KeepNext(InsertNext(p, x)), x);
    StepsGood(InsertNext(p, y), x);
    StepsGood(RemoveOld(p, x), y);
    StepsGood(InsertNext(RemoveOld(p, x), y), x);
  }

  lemma ScanGood(xs: seq<string>, ys: seq<string>, p: Plan, look: Option<nat>) returns (l: Option<nat>)
    requires Within(xs, ys, p, look)
    ensures Within(xs, ys, Scan(xs, ys, p, look), l)
    decreases |xs| - |p.fates|
  {
    var r := Round(xs, ys, p, look);
    if r == None {
      l := look;
    } else {
      RoundGood(xs, ys, p, look);
      RoundProgress(xs, ys, p, look);
      l := ScanGood(xs, ys, r.value.0, r.value.1);
    }
  }

  lemma {:induction false} RemoveRestGood(xs: seq<string>, p: Plan)
    requires Scanning(p) && |p.fates| <= |xs|
    ensures var q := RemoveRest(xs, p);
      Scanning(q) && |q.fates| == |xs| && q.scanned == p.scanned && q.extra == p.extra
    decreases |xs| - |p.fates|
  {
    hide Good, RemoveOld;
    if |p.fates| < |xs| {
      StepsGood(p, xs[|p.fates|]);
      RemoveRestGood(xs, RemoveOld(p, xs[|p.fates|]));
    }
  }

  lemma {:induction false} InsertRestGood(ys: seq<string>, p: Plan)
    requires Good(p)
    ensures var q := InsertRest(ys, p);
      && Good(q) && q.fates == p.fates && q.scanned == p.scanned && q.extra == p.extra
      && (p.scanned + |p.ends| <= |ys| ==> q.scanned + |q.ends| == |ys|)
      && (p.scanned + |p.ends| > |ys| ==> q.ends == p.ends)
    decreases |ys| - p.scanned - |p.ends|
  {
    hide Good, InsertNew;
    var j := p.scanned + |p.ends|;
    if j < |ys| {
      InsertEndGood(p, ys[j]);
      InsertRestGood(ys, InsertNew(p, ys[j], j, true));
    }
  }

  /** A plan accounts for every old child; it accounts for every new child once and in order,
      and for one more when it met the stale look-ahead. */
  lemma PlanGood(xs: seq<string>, ys: seq<string>)
    ensures var q := MakePlan(xs, ys);
      && Good(q) && |q.fates| == |xs|
      && (q.extra.None? ==> q.scanned + |q.ends| == |ys|)
      && (q.extra.Some? ==> q.scanned == |ys| + 1 && q.ends == [] && q.extra.value < |ys|)
  {
    assert Kept(EMPTY.fates) == [] && Filled(EMPTY, 0) == UpTo(0);
    assert Within(xs, ys, EMPTY, None);
    hide Good, Round, InsertNew, RemoveOld;
    var l := ScanGood(xs, ys, EMPTY, None);
    var p := Scan(xs, ys, EMPTY, None);
    RemoveRestGood(xs, p);
    InsertRestGood(ys, RemoveRest(xs, p));
  }

  // ----- the stale look-ahead needs a repeated old key -----

  ghost predicate Distinct<T(!new)>(s: seq<T>) {
    forall i, j :: 0 <= i < j < |s| ==> s[i] != s[j]
  }

  /** The remembered look-ahead is the new child at hand, or was matched by an earlier old child. */
  ghost predicate LookUsed(xs: seq<string>, ys: seq<string>, a: nat, b: nat, look: Option<nat>) {
    look.Some? && b < |ys| ==>
      look.value < |ys| && (look.value == b || exists i :: 0 <= i < a && i < |xs| && xs[i] == ys[look.value])
  }

  lemma RoundFresh(xs: seq<string>, ys: seq<string>, p: Plan, look: Option<nat>)
    requires Within(xs, ys, p, look) && p.extra == None && Round(xs, ys, p, look).Some?
    requires Distinct(xs) && LookUsed(xs, ys, |p.fates|, p.scanned, look)
    ensures var (q, l) := Round(xs, ys, p, look).value; q.extra == None && LookUsed(xs, ys, |q.fates|, q.scanned, l)
  {
    hide Good, InsertNew, RemoveOld, KeepNext, InsertNext;
    var a, b := |p.fates|, p.scanned;
    var x, y := xs[a], ys[b];
    StepsGood(p, x);
    StepsGood(p, y);
    StepsGood(InsertNext(p, x), x);
    StepsGood(KeepNext(InsertNext(p, x)), x);
    StepsGood(InsertNext(p, y), x);
    StepsGood(RemoveOld(p, x), y);
    StepsGood(InsertNext(RemoveOld(p, x), y), x);
  }

  lemma {:induction false} ScanFresh(xs: seq<string>, ys: seq<string>, p: Plan, look: Option<nat>)
    requires Within(xs, ys, p, look) && p.extra == None
    requires Distinct(xs) && LookUsed(xs, ys, |p.fates|, p.scanned, look)
    ensures Scan(xs, ys, p, look).extra == None
    decreases |xs| - |p.fates|
  {
    hide Within, LookUsed;
    var r := Round(xs, ys, p, look);
    if r != None {
      RoundGood(xs, ys, p, look);
      RoundProgress(xs, ys, p, look);
      RoundFresh(xs, ys, p, look);
      ScanFresh(xs, ys, r.value.0, r.value.1);
    }
  }

  /** Pairwise distinct old keys rule the stale look-ahead out, whatever the new keys are. */
  lemma DistinctOldKeys(xs: seq<string>, ys: seq<string>)
    requires Distinct(xs)
    ensures MakePlan(xs, ys).extra == None
  {
    assert Kept(EMPTY.fates) == [] && Filled(EMPTY, 0) == UpTo(0);
    assert Within(xs, ys, EMPTY, None);
    hide Good, Round, InsertNew, RemoveOld;
    ScanFresh(xs, ys, EMPTY, None);
    var l := ScanGood(xs, ys, EMPTY, None);
    var p := Scan(xs, ys, EMPTY, None);
    RemoveRestGood(xs, p);
    InsertRestGood(ys, RemoveRest(xs, p));
  }
}
