/** What keys are for: when they are distinct on both sides, an old child turns into the new child
    with the same key, whatever their places, and a child without a partner is not turned into
    anything. */
module VdomKeyedMatch {
  import opened Wrappers
  import opened VdomObjects
  import opened VdomKeyedPlan
  import opened VdomDiff

  /** The name under which a child comes to be entered: the object of entries seems to have inherited
      names already. */
  function Entry(key: string): string {
    if Inherited(key) then key + POSTFIX else key
  }

  /** No key is what another key, an inherited name, is entered under. */
  ghost predicate Unmixed(xs: seq<string>, ys: seq<string>) {
    forall key :: Inherited(key) && (key in xs || key in ys) ==> key + POSTFIX !in xs && key + POSTFIX !in ys
  }

  lemma EntryIs(xs: seq<string>, ys: seq<string>, key: string, other: string)
    requires Unmixed(xs, ys) && (key in xs || key in ys) && (other in xs || other in ys)
    ensures Entry(key) == Entry(other) ==> key == other
  {
    hide Inherited;
    if Entry(key) == Entry(other) && Inherited(key) && Inherited(other) {
      assert key == Entry(key)[..|key|] && other == Entry(other)[..|other|];
    }
  }

  lemma EntryNew(key: string)
    ensures !Inherited(Entry(key))
  {
    EndsOtherwise(key + POSTFIX);
  }

  /** How many new children have been entered. */
  function Entered(p: Plan): nat {
    p.scanned + |p.ends|
  }

  /** An entry with one side only is in the dictionary under the key of its child; one with both
      sides joins children with equal keys. */
  ghost predicate OwnerMatched(xs: seq<string>, ys: seq<string>, p: Plan, o: Owner, e: nat) {
    match o
    case Removed(a) => a < |p.fates| && a < |xs| && Entry(xs[a]) in p.changes && p.changes[Entry(xs[a])] == e
    case Inserted(j, _) => j < Entered(p) && j < |ys| && Entry(ys[j]) in p.changes && p.changes[Entry(ys[j])] == e
    case Moved(a, j, _, _) => a < |p.fates| && a < |xs| && j < Entered(p) && j < |ys| && xs[a] == ys[j]
  }

  /** A key of the dictionary leads to its child; a key that leads to a move will not come again. */
  ghost predicate LabelMatched(xs: seq<string>, ys: seq<string>, p: Plan, key: string, o: Owner) {
    match o
    case Removed(a) => a < |p.fates| && a < |xs| && Entry(xs[a]) == key
    case Inserted(j, _) => j < Entered(p) && j < |ys| && Entry(ys[j]) == key
    case Moved(_, _, _, _) =>
      && (exists a :: 0 <= a < |p.fates| && a < |xs| && Entry(xs[a]) == key)
      && exists j :: 0 <= j < Entered(p) && j < |ys| && Entry(ys[j]) == key
  }

  ghost predicate KeepsMatched(xs: seq<string>, ys: seq<string>, p: Plan) {
    forall a :: 0 <= a < |p.fates| && a < |xs| && p.fates[a].Keep? ==> p.fates[a].j < |ys| && xs[a] == ys[p.fates[a].j]
  }

  ghost predicate Matched(xs: seq<string>, ys: seq<string>, p: Plan) {
    && |p.fates| <= |xs| && Entered(p) <= |ys| && KeepsMatched(xs, ys, p)
    && (forall e :: 0 <= e < |p.owners| ==> OwnerMatched(xs, ys, p, p.owners[e], e))
    && forall key :: key in p.changes ==>
      p.changes[key] < |p.owners| && LabelMatched(xs, ys, p, key, p.owners[p.changes[key]])
  }

  lemma LabelIs(xs: seq<string>, ys: seq<string>, p: Plan, key: string)
    requires Matched(xs, ys, p)
    ensures key in p.changes ==> p.changes[key] < |p.owners| && LabelMatched(xs, ys, p, key, p.owners[p.changes[key]])
  {
    hide LabelMatched;
  }

  // ----- the steps -----

  /** Entries have no inherited name. */
  lemma NotInherited(xs: seq<string>, ys: seq<string>, p: Plan, key: string)
    requires Matched(xs, ys, p) && key in p.changes
    ensures !Inherited(key)
  {
    hide Inherited, Entry;
    LabelIs(xs, ys, p, key);
    match p.owners[p.changes[key]]
    case Removed(a) => EntryNew(xs[a]);
    case Inserted(j, _) => EntryNew(ys[j]);
    case Moved(_, _, _, _) =>
      var a :| 0 <= a < |p.fates| && a < |xs| && Entry(xs[a]) == key;
      EntryNew(xs[a]);
  }

  lemma NewEntry(xs: seq<string>, ys: seq<string>, p: Plan, key: string)
    requires Matched(xs, ys, p)
    ensures Entry(key) !in p.changes || p.owners[p.changes[Entry(key)]].Inserted? ==> RemoveKey(p, key) == Entry(key)
    ensures Entry(key) !in p.changes || p.owners[p.changes[Entry(key)]].Removed? ==> InsertKey(p, key) == Entry(key)
  {
    hide Inherited, OwnerMatched, LabelMatched, KeepsMatched;
    if key in p.changes { NotInherited(xs, ys, p, key); }
    EntryNew(key);
    assert Entry(key) in p.changes ==> p.changes[Entry(key)] < |p.owners|;
  }

  /** The key of the next old child leads to a new child or nowhere. */
  lemma NextOldKey(xs: seq<string>, ys: seq<string>, p: Plan)
    requires Matched(xs, ys, p) && Distinct(xs) && Unmixed(xs, ys) && |p.fates| < |xs|
    ensures RemoveKey(p, xs[|p.fates|]) == Entry(xs[|p.fates|])
  {
    hide Entry, OwnerMatched, KeepsMatched;
    var key := xs[|p.fates|];
    NewEntry(xs, ys, p, key);
    if Entry(key) in p.changes {
      LabelIs(xs, ys, p, Entry(key));
      forall a | 0 <= a < |p.fates| ensures Entry(xs[a]) != Entry(key) { EntryIs(xs, ys, xs[a], key); }
    }
  }

  lemma NextNewKey(xs: seq<string>, ys: seq<string>, p: Plan)
    requires Matched(xs, ys, p) && Distinct(ys) && Unmixed(xs, ys) && Entered(p) < |ys|
    ensures InsertKey(p, ys[Entered(p)]) == Entry(ys[Entered(p)])
  {
    hide Entry, OwnerMatched, KeepsMatched;
    var key := ys[Entered(p)];
    NewEntry(xs, ys, p, key);
    if Entry(key) in p.changes {
      LabelIs(xs, ys, p, Entry(key));
      forall j | 0 <= j < Entered(p) ensures Entry(ys[j]) != Entry(key) { EntryIs(xs, ys, ys[j], key); }
    }
  }

  /** Matching is kept where nothing changes but that more has been seen. */
  lemma LabelStays(xs: seq<string>, ys: seq<string>, p: Plan, q: Plan, key: string, o: Owner)
    requires LabelMatched(xs, ys, p, key, o) && |p.fates| <= |q.fates| && Entered(p) <= Entered(q)
    ensures LabelMatched(xs, ys, q, key, o)
  {
  }

  lemma OwnerStays(xs: seq<string>, ys: seq<string>, p: Plan, q: Plan, o: Owner, e: nat)
    requires OwnerMatched(xs, ys, p, o, e) && |p.fates| <= |q.fates| && Entered(p) <= Entered(q)
    requires forall key :: key in p.changes ==> key in q.changes && q.changes[key] == p.changes[key]
    ensures OwnerMatched(xs, ys, q, o, e)
  {
  }

  /** One entry is new or has become a move, under this key. */
  lemma EntryMatched(xs: seq<string>, ys: seq<string>, p: Plan, q: Plan, key: string, e: nat)
    requires Matched(xs, ys, p) && |p.fates| <= |q.fates| <= |xs| && Entered(p) <= Entered(q) <= |ys| &&
      KeepsMatched(xs, ys, q)
    requires q.changes == p.changes[key := e] && e < |q.owners| && |q.owners| >= |p.owners| &&
      (key in p.changes ==> p.changes[key] == e)
    requires forall i :: 0 <= i < |q.owners| && i != e ==> i < |p.owners| && q.owners[i] == p.owners[i]
    requires forall other :: other in p.changes && other != key ==> p.changes[other] != e
    requires OwnerMatched(xs, ys, q, q.owners[e], e) && LabelMatched(xs, ys, q, key, q.owners[e])
    ensures Matched(xs, ys, q)
  {
    hide OwnerMatched, LabelMatched, KeepsMatched;
    forall i | 0 <= i < |q.owners| ensures OwnerMatched(xs, ys, q, q.owners[i], i) {
      var o := q.owners[i];
      if i != e { OwnerStays(xs, ys, p, q, o, i); }
    }
    forall k | k in q.changes ensures q.changes[k] < |q.owners| && LabelMatched(xs, ys, q, k, q.owners[q.changes[k]]) {
      if k != key { LabelIs(xs, ys, p, k); LabelStays(xs, ys, p, q, k, p.owners[p.changes[k]]); }
    }
  }

  /** An entry that is not yet a move has one key. */
  lemma OneLabel(xs: seq<string>, ys: seq<string>, p: Plan, key: string, other: string)
    requires Matched(xs, ys, p) && key in p.changes && other in p.changes && !p.owners[p.changes[key]].Moved?
    ensures p.changes[other] == p.changes[key] ==> other == key
  {
    assert LabelMatched(xs, ys, p, key, p.owners[p.changes[key]]);
    assert LabelMatched(xs, ys, p, other, p.owners[p.changes[other]]);
  }

  lemma OldFates(xs: seq<string>, ys: seq<string>, p: Plan, q: Plan)
    requires KeepsMatched(xs, ys, p) && |q.fates| == |p.fates| + 1 && q.fates[..|p.fates|] == p.fates &&
      q.fates[|p.fates|].Leave?
    ensures KeepsMatched(xs, ys, q)
  {
    forall a | 0 <= a < |p.fates| ensures q.fates[a] == p.fates[a] { assert q.fates[..|p.fates|][a] == q.fates[a]; }
  }

  lemma SameOld(xs: seq<string>, ys: seq<string>, p: Plan, a: nat, o: Owner)
    requires Unmixed(xs, ys) && a < |xs| && LabelMatched(xs, ys, p, Entry(xs[a]), o)
    ensures o.Inserted? ==> ys[o.j] == xs[a]
  {
    hide Entry;
    if o.Inserted? { EntryIs(xs, ys, ys[o.j], xs[a]); }
  }

  lemma SameNew(xs: seq<string>, ys: seq<string>, p: Plan, j: nat, o: Owner)
    requires Unmixed(xs, ys) && j < |ys| && LabelMatched(xs, ys, p, Entry(ys[j]), o)
    ensures o.Removed? ==> xs[o.a] == ys[j]
  {
    hide Entry;
    if o.Removed? { EntryIs(xs, ys, xs[o.a], ys[j]); }
  }

  lemma RemoveMatched(xs: seq<string>, ys: seq<string>, p: Plan)
    requires Matched(xs, ys, p) && Distinct(xs) && Unmixed(xs, ys) && |p.fates| < |xs|
    ensures Matched(xs, ys, RemoveOld(p, xs[|p.fates|]))
  {
    hide Entry, Unmixed;
    var a := |p.fates|;
    var q := RemoveOld(p, xs[a]);
    var key := Entry(xs[a]);
    NextOldKey(xs, ys, p);
    OldFates(xs, ys, p, q);
    if key in p.changes {
      var e := p.changes[key];
      assert LabelMatched(xs, ys, p, key, p.owners[e]);
      SameOld(xs, ys, p, a, p.owners[e]);
      forall other | other in p.changes && other != key ensures p.changes[other] != e {
        OneLabel(xs, ys, p, key, other);
      }
      assert q.changes == p.changes[key := e];
      EntryMatched(xs, ys, p, q, key, e);
    } else {
      EntryMatched(xs, ys, p, q, key, |p.owners|);
    }
  }

  /** The next new child is entered under its own key. */
  lemma EnterMatched(xs: seq<string>, ys: seq<string>, p: Plan, q: Plan, atEnd: bool)
    requires Matched(xs, ys, p) && Distinct(ys) && Unmixed(xs, ys) && Entered(p) < |ys|
    requires var n := InsertNew(p, ys[Entered(p)], Entered(p), atEnd);
      q.owners == n.owners && q.changes == n.changes && q.fates == p.fates && Entered(q) == Entered(p) + 1
    ensures Matched(xs, ys, q)
  {
    hide Entry, Unmixed;
    var key := Entry(ys[Entered(p)]);
    NextNewKey(xs, ys, p);
    if key in p.changes {
      var e := p.changes[key];
      assert LabelMatched(xs, ys, p, key, p.owners[e]);
      SameNew(xs, ys, p, Entered(p), p.owners[e]);
      forall other | other in p.changes && other != key ensures p.changes[other] != e {
        OneLabel(xs, ys, p, key, other);
      }
      assert q.changes == p.changes[key := e];
      EntryMatched(xs, ys, p, q, key, e);
    } else {
      EntryMatched(xs, ys, p, q, key, |p.owners|);
    }
  }

  lemma InsertNextMatched(xs: seq<string>, ys: seq<string>, p: Plan)
    requires Matched(xs, ys, p) && Distinct(ys) && Unmixed(xs, ys) && p.ends == [] && p.scanned < |ys|
    ensures Matched(xs, ys, InsertNext(p, ys[p.scanned]))
  {
    EnterMatched(xs, ys, p, InsertNext(p, ys[p.scanned]), false);
  }

  lemma KeepMatched(xs: seq<string>, ys: seq<string>, p: Plan)
    requires Matched(xs, ys, p) && p.ends == [] && |p.fates| < |xs| && p.scanned < |ys| &&
      xs[|p.fates|] == ys[p.scanned]
    ensures Matched(xs, ys, KeepNext(p))
  {
    hide OwnerMatched, LabelMatched;
    var q := KeepNext(p);
    forall e | 0 <= e < |q.owners| ensures OwnerMatched(xs, ys, q, q.owners[e], e) {
      OwnerStays(xs, ys, p, q, p.owners[e], e);
    }
    forall k | k in q.changes ensures q.changes[k] < |q.owners| && LabelMatched(xs, ys, q, k, q.owners[q.changes[k]]) {
      LabelStays(xs, ys, p, q, k, p.owners[p.changes[k]]);
    }
  }

  /** The next key on one side comes later on the other: it has no entry. */
  lemma NotYet(xs: seq<string>, ys: seq<string>, p: Plan)
    requires Matched(xs, ys, p) && Distinct(xs) && Distinct(ys) && Unmixed(xs, ys) && p.ends == []
    requires |p.fates| < |xs| && p.scanned + 1 < |ys| && xs[|p.fates|] == ys[p.scanned + 1]
    ensures Entry(xs[|p.fates|]) !in p.changes
    ensures InsertKey(p, xs[|p.fates|]) == Entry(xs[|p.fates|])
  {
    hide Entry, OwnerMatched, KeepsMatched;
    var key := xs[|p.fates|];
    NewEntry(xs, ys, p, key);
    LabelIs(xs, ys, p, Entry(key));
    forall a | 0 <= a < |p.fates| ensures Entry(xs[a]) != Entry(key) { EntryIs(xs, ys, xs[a], key); }
    forall j | 0 <= j < Entered(p) ensures Entry(ys[j]) != Entry(key) { EntryIs(xs, ys, ys[j], key); }
  }

  lemma FoundAgain(xs: seq<string>, ys: seq<string>, p: Plan, q: Plan, key: string)
    requires Matched(xs, ys, p) && Entry(key) !in p.changes && q.changes == p.changes[Entry(key) := |p.owners|]
    requires |q.owners| == |p.owners| + 1 && q.owners[|p.owners|].Inserted?
    ensures RemoveKey(q, key) == Entry(key)
  {
    hide Inherited, OwnerMatched, LabelMatched, KeepsMatched;
    if key in p.changes { NotInherited(xs, ys, p, key); }
    EntryNew(key);
  }

  /** Two neighbours that change places: the second moves over the first, under the key of the first. */
  lemma SwapMatched(xs: seq<string>, ys: seq<string>, p: Plan)
    requires Matched(xs, ys, p) && Distinct(xs) && Distinct(ys) && Unmixed(xs, ys) && p.ends == [] &&
      |p.fates| + 1 < |xs| &&
      p.scanned + 1 < |ys|
    requires xs[|p.fates|] == ys[p.scanned + 1] && xs[|p.fates| + 1] == ys[p.scanned] && xs[|p.fates|] != ys[p.scanned]
    ensures Matched(xs, ys, RemoveOld(KeepNext(InsertNext(p, xs[|p.fates|])), xs[|p.fates|]))
  {
    var a, b := |p.fates|, p.scanned;
    hide Entry, Unmixed;
    var key := Entry(xs[a]);
    NotYet(xs, ys, p);
    var e := |p.owners|;
    FoundAgain(xs, ys, p, KeepNext(InsertNext(p, xs[a])), xs[a]);
    var q := RemoveOld(KeepNext(InsertNext(p, xs[a])), xs[a]);
    assert q == p.(fates := p.fates + [Keep(b + 1)] + [Leave(e)], owners := p.owners + [Moved(a + 1, b, false, false)],
                   changes := p.changes[key := e], inserts := p.inserts + [e], scanned := b + 2) by {
      assert (p.owners + [Inserted(b, false)])[e := Moved(a + 1, b, false, false)] == p.owners +
        [Moved(a + 1, b, false, false)];
    }
    assert q.fates[a] == Keep(b + 1) && forall i :: 0 <= i < a ==> q.fates[i] == p.fates[i];
    assert Entry(xs[a]) == key && Entry(ys[b + 1]) == key;
    EntryMatched(xs, ys, p, q, key, e);
  }

  // ----- the whole plan -----

  /** Between two rounds with distinct old keys. */
  ghost predicate Underway(xs: seq<string>, ys: seq<string>, p: Plan, look: Option<nat>) {
    Within(xs, ys, p, look) && p.extra == None && LookUsed(xs, ys, |p.fates|, p.scanned, look) && Matched(xs, ys, p)
  }

  lemma InsertKeepMatched(xs: seq<string>, ys: seq<string>, p: Plan)
    requires Unmixed(xs, ys) && Matched(xs, ys, p) && Scanning(p) && Distinct(ys) && |p.fates| < |xs| &&
      p.scanned + 1 < |ys|
    requires xs[|p.fates|] == ys[p.scanned + 1]
    ensures Matched(xs, ys, KeepNext(InsertNext(p, ys[p.scanned])))
  {
    hide Unmixed, Matched, InsertNext, KeepNext, Good;
    StepsGood(p, ys[p.scanned]);
    InsertNextMatched(xs, ys, p);
    KeepMatched(xs, ys, InsertNext(p, ys[p.scanned]));
  }

  lemma RemoveKeepMatched(xs: seq<string>, ys: seq<string>, p: Plan)
    requires Unmixed(xs, ys) && Matched(xs, ys, p) && Scanning(p) && Distinct(xs) && |p.fates| + 1 < |xs| &&
      p.scanned < |ys|
    requires xs[|p.fates| + 1] == ys[p.scanned]
    ensures Matched(xs, ys, KeepNext(RemoveOld(p, xs[|p.fates|])))
  {
    hide Unmixed, Matched, RemoveOld, KeepNext, Good;
    StepsGood(p, xs[|p.fates|]);
    RemoveMatched(xs, ys, p);
    KeepMatched(xs, ys, RemoveOld(p, xs[|p.fates|]));
  }

  lemma ReplaceKeepMatched(xs: seq<string>, ys: seq<string>, p: Plan)
    requires Unmixed(xs, ys) && Matched(xs, ys, p) && Scanning(p) && Distinct(xs) && Distinct(ys) &&
      |p.fates| + 1 < |xs| &&
      p.scanned + 1 < |ys|
    requires xs[|p.fates| + 1] == ys[p.scanned + 1]
    ensures Matched(xs, ys, KeepNext(InsertNext(RemoveOld(p, xs[|p.fates|]), ys[p.scanned])))
  {
    hide Unmixed, Matched, RemoveOld, KeepNext, InsertNext, Good;
    StepsGood(p, xs[|p.fates|]);
    RemoveMatched(xs, ys, p);
    InsertKeepMatched(xs, ys, RemoveOld(p, xs[|p.fates|]));
  }

  lemma RoundMatched(xs: seq<string>, ys: seq<string>, p: Plan, look: Option<nat>)
    requires Unmixed(xs, ys) && Underway(xs, ys, p, look) && Distinct(xs) && Distinct(ys) &&
      Round(xs, ys, p, look).Some?
    ensures var (q, l) := Round(xs, ys, p, look).value; Underway(xs, ys, q, l)
  {
    hide Unmixed, Matched, Within, LookUsed, InsertNext, KeepNext, RemoveOld, Good, Distinct;
    RoundGood(xs, ys, p, look);
    RoundFresh(xs, ys, p, look);
    WithinIs(xs, ys, p, look);
    var a, b := |p.fates|, p.scanned;
    if xs[a] == ys[b] {
      KeepMatched(xs, ys, p);
    } else if b + 1 < |ys| && xs[a] == ys[b + 1] {
      if a + 1 < |xs| && ys[b] == xs[a + 1] { SwapMatched(xs, ys, p); } else { InsertKeepMatched(xs, ys, p); }
    } else if a + 1 < |xs| && ys[b] == xs[a + 1] {
      RemoveKeepMatched(xs, ys, p);
    } else if b + 1 < |ys| {
      ReplaceKeepMatched(xs, ys, p);
    }
  }

  lemma WithinIs(xs: seq<string>, ys: seq<string>, p: Plan, look: Option<nat>)
    requires Within(xs, ys, p, look)
    ensures Scanning(p) && p.ends == [] && |p.fates| <= |xs|
  {
    hide Good;
  }

  lemma {:induction false} ScanMatched(xs: seq<string>, ys: seq<string>, p: Plan, look: Option<nat>)
    requires Unmixed(xs, ys) && Underway(xs, ys, p, look) && Distinct(xs) && Distinct(ys)
    ensures var q := Scan(xs, ys, p, look); Matched(xs, ys, q) && Scanning(q) && |q.fates| <= |xs|
    decreases |xs| - |p.fates|
  {
    var r := Round(xs, ys, p, look);
    hide Unmixed, Round, Matched, Good;
    if r != None {
      RoundMatched(xs, ys, p, look);
      RoundProgress(xs, ys, p, look);
      ScanMatched(xs, ys, r.value.0, r.value.1);
    }
  }

  lemma {:induction false} RemoveRestMatched(xs: seq<string>, ys: seq<string>, p: Plan)
    requires Unmixed(xs, ys) && Matched(xs, ys, p) && Scanning(p) && Distinct(xs)
    ensures Matched(xs, ys, RemoveRest(xs, p))
    decreases |xs| - |p.fates|
  {
    hide Unmixed, Good, RemoveOld, Matched;
    if |p.fates| < |xs| {
      StepsGood(p, xs[|p.fates|]);
      RemoveMatched(xs, ys, p);
      RemoveRestMatched(xs, ys, RemoveOld(p, xs[|p.fates|]));
    }
  }

  lemma {:induction false} InsertRestMatched(xs: seq<string>, ys: seq<string>, p: Plan)
    requires Unmixed(xs, ys) && Matched(xs, ys, p) && Good(p) && Distinct(ys)
    ensures Matched(xs, ys, InsertRest(ys, p))
    decreases |ys| - p.scanned - |p.ends|
  {
    hide Unmixed, Good, InsertNew, Matched;
    var j := p.scanned + |p.ends|;
    if j < |ys| {
      InsertEndGood(p, ys[j]);
      EnterMatched(xs, ys, p, InsertNew(p, ys[j], j, true), true);
      InsertRestMatched(xs, ys, InsertNew(p, ys[j], j, true));
    }
  }

  lemma StartMatched(xs: seq<string>, ys: seq<string>)
    ensures Underway(xs, ys, EMPTY, None)
  {
    assert Kept(EMPTY.fates) == [] && Filled(EMPTY, 0) == UpTo(0);
  }

  lemma PlanMatched(xs: seq<string>, ys: seq<string>)
    requires Unmixed(xs, ys) && Distinct(xs) && Distinct(ys)
    ensures Matched(xs, ys, MakePlan(xs, ys))
  {
    hide Unmixed, Good, Matched, Underway, Within, Scan, RemoveRest, InsertRest;
    StartMatched(xs, ys);
    ScanMatched(xs, ys, EMPTY, None);
    var p := Scan(xs, ys, EMPTY, None);
    RemoveRestMatched(xs, ys, p);
    RemoveRestGood(xs, p);
    InsertRestMatched(xs, ys, RemoveRest(xs, p));
  }

  // ----- partners -----

  lemma {:induction false} KeptHas(fates: seq<Fate>, j: nat)
    requires j in Kept(fates)
    ensures Keep(j) in fates
  {
    var n := |fates| - 1;
    if fates[n] != Keep(j) {
      KeptHas(fates[..n], j);
      assert fates[..n] <= fates;
    }
  }

  lemma {:induction false} FilledHas(p: Plan, n: nat, j: nat)
    requires n <= |p.inserts| && j in Filled(p, n)
    ensures Keep(j) in p.fates || exists k :: 0 <= k < n && NewOf(p, p.inserts[k]) == j
  {
    if n == 0 {
      KeptHas(p.fates, j);
    } else if NewOf(p, p.inserts[n - 1]) != j {
      FilledHas(p, n - 1, j);
    }
  }

  /** Every new child entered is kept from an old one, or has an entry. */
  lemma NewHas(p: Plan, j: nat)
    requires Good(p) && j < Entered(p)
    ensures Keep(j) in p.fates || exists e :: 0 <= e < |p.owners| && p.owners[e].HasNew() && p.owners[e].j == j
  {
    if j < p.scanned {
      assert UpTo(p.scanned)[j] == j;
      FilledHas(p, |p.inserts|, j);
      if Keep(j) !in p.fates {
        var k :| 0 <= k < |p.inserts| && NewOf(p, p.inserts[k]) == j;
        assert p.owners[p.inserts[k]].HasNew();
      }
    } else {
      var e := p.ends[j - p.scanned];
      assert p.owners[e].HasNew() && p.owners[e].j == j;
    }
  }

  lemma FateEntry(p: Plan, a: nat)
    requires Good(p) && a < |p.fates| && p.fates[a].Leave?
    ensures p.fates[a].entry < |p.owners| && p.owners[p.fates[a].entry].HasOld() && p.owners[p.fates[a].entry].a == a
  {
  }

  lemma OwnerFate(p: Plan, e: nat)
    requires Good(p) && e < |p.owners|
    ensures p.owners[e].HasOld() ==> p.owners[e].a < |p.fates| && p.fates[p.owners[e].a] == Leave(e)
  {
  }

  /** A removed old child has no new one with its key. */
  lemma NoPartner(xs: seq<string>, ys: seq<string>, p: Plan, a: nat, j: nat)
    requires Good(p) && Matched(xs, ys, p) && Distinct(xs) && |p.fates| == |xs| && Entered(p) == |ys| && a < |xs| &&
      j < |ys|
    requires p.fates[a].Leave? && p.fates[a].entry < |p.owners| && p.owners[p.fates[a].entry].Removed?
    ensures xs[a] != ys[j]
  {
    hide Good, LabelMatched, OwnerMatched;
    var e := p.fates[a].entry;
    FateEntry(p, a);
    assert OwnerMatched(xs, ys, p, p.owners[e], e);
    NewHas(p, j);
    if Keep(j) in p.fates {
      var i :| 0 <= i < |p.fates| && p.fates[i] == Keep(j);
      assert xs[i] == ys[j] && i != a;
    } else {
      var f :| 0 <= f < |p.owners| && p.owners[f].HasNew() && p.owners[f].j == j;
      assert OwnerMatched(xs, ys, p, p.owners[f], f) && f != e;
      OwnerFate(p, f);
      OtherEntry(xs, ys, p, e, f);
    }
  }

  /** A removed old child and a new one with another entry. */
  lemma OtherEntry(xs: seq<string>, ys: seq<string>, p: Plan, e: nat, f: nat)
    requires e < |p.owners| && f < |p.owners| && e != f && p.owners[e].Removed? && p.owners[f].HasNew()
    requires OwnerMatched(xs, ys, p, p.owners[e], e) && OwnerMatched(xs, ys, p, p.owners[f], f) && Distinct(xs)
    requires p.owners[f].Moved? ==> p.owners[f].a != p.owners[e].a
    ensures xs[p.owners[e].a] != ys[p.owners[f].j]
  {
    hide Entry;
  }

  /** With distinct keys, an old child turns into a new child if and only if they have the same key. */
  lemma SameKey(xs: seq<string>, ys: seq<string>, a: nat, j: nat)
    requires Unmixed(xs, ys) && Distinct(xs) && Distinct(ys) && a < |xs| && j < |ys|
    ensures Target(MakePlan(xs, ys), a) == Some(j) <==> xs[a] == ys[j]
  {
    var p := MakePlan(xs, ys);
    hide Unmixed, MakePlan, Entry;
    PlanGood(xs, ys);
    PlanMatched(xs, ys);
    DistinctOldKeys(xs, ys);
    if p.fates[a].Leave? {
      FateEntry(p, a);
      var e := p.fates[a].entry;
      assert OwnerMatched(xs, ys, p, p.owners[e], e);
      if p.owners[e].Removed? { NoPartner(xs, ys, p, a, j); }
    }
  }

  /** A target is a new child with the key. */
  lemma TargetKey(xs: seq<string>, ys: seq<string>, a: nat)
    requires Unmixed(xs, ys) && Distinct(xs) && Distinct(ys) && a < |xs| && Target(MakePlan(xs, ys), a).Some?
    ensures Target(MakePlan(xs, ys), a).value < |ys| && ys[Target(MakePlan(xs, ys), a).value] == xs[a]
  {
    var p := MakePlan(xs, ys);
    hide Unmixed, MakePlan, Entry;
    PlanGood(xs, ys);
    PlanMatched(xs, ys);
    if p.fates[a].Leave? {
      FateEntry(p, a);
      assert OwnerMatched(xs, ys, p, p.owners[p.fates[a].entry], p.fates[a].entry);
    }
  }
}
