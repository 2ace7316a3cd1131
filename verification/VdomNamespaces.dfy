/** Namespaced attributes of an element, their difference, and its application to the DOM.

    The DOM finds a namespaced attribute by its namespace and its local name: the part of the
    attribute's name behind the colon, if there is one.  It is set under its whole name, but removed
    under what is passed for a local name, and the program passes the whole name. */
module VdomNamespaces {
  import opened Wrappers
  import opened VdomObjects

  /** An entry of the attributes, with the identity `obj` of its pair of namespace and value. */
  datatype NsAttr = NsAttr(key: string, ns: string, value: string, obj: int)

  /** None is JavaScript's undefined. */
  datatype NsChange = NsChange(key: string, ns: string, value: Option<string>)

  type Expanded = (string, string)

  predicate Prefixed(key: string) {
    ':' in key
  }

  function Local(key: string): string {
    if !Prefixed(key) || key == "" then key else if key[0] == ':' then key[1..] else Local(key[1..])
  }

  function Name(a: NsAttr): Expanded {
    (a.ns, Local(a.key))
  }

  /** In the order in which they were given: keys are distinct, names have one colon at most, a prefix
      comes with a namespace (the DOM raises an error otherwise), and no two are one attribute to the
      DOM. */
  predicate NsProper(xs: seq<NsAttr>) {
    && (forall i :: 0 <= i < |xs| ==> !Prefixed(Local(xs[i].key)) && (Prefixed(xs[i].key) ==> xs[i].ns != ""))
    && (forall i, j :: 0 <= i < j < |xs| ==> xs[i].key != xs[j].key && Name(xs[i]) != Name(xs[j]))
  }

  type NsAttrs = xs: seq<NsAttr> | NsProper(xs) witness []

  function Find(xs: seq<NsAttr>, key: string): (r: Option<nat>)
    ensures r.Some? ==> r.value < |xs| && xs[r.value].key == key
    ensures r.None? ==> forall i :: 0 <= i < |xs| ==> xs[i].key != key
  {
    if xs == [] then None
    else if xs[|xs| - 1].key == key then Some(|xs| - 1)
    else Find(xs[..|xs| - 1], key)
  }

  lemma FindIs(xs: NsAttrs, i: nat)
    requires i < |xs|
    ensures Find(xs, xs[i].key) == Some(i)
  {
  }

  // ----- difference -----

  /** What an old attribute that is no longer there is to be removed as.  An inherited name seems to be
      there still: what is found has no value and no namespace, which the DOM takes for none. */
  function Removal(x: NsAttr): Expanded {
    (if Inherited(x.key) then "" else x.ns, x.key)
  }

  /** What becomes of old attribute i: nothing when its pair is the same object, a new pair, or
      undefined. */
  function Kept(xs: seq<NsAttr>, ys: seq<NsAttr>, i: nat): seq<NsChange>
    requires i < |xs|
  {
    var x := xs[i];
    match Find(ys, x.key)
    case Some(l) =>
      var y := ys[l];
      if x == y && x.key != "value" && x.key != "checked" then [] else [NsChange(y.key, y.ns, Some(y.value))]
    case None => [NsChange(x.key, Removal(x).0, None)]
  }

  function KeptUpTo(xs: seq<NsAttr>, ys: seq<NsAttr>, n: nat): seq<NsChange>
    requires n <= |xs|
  {
    if n == 0 then [] else KeptUpTo(xs, ys, n - 1) + Kept(xs, ys, n - 1)
  }

  /** New attribute l is not found among the old ones.  An inherited name always is, unless there are
      none at all: then all new ones are taken. */
  predicate IsNew(xs: seq<NsAttr>, ys: seq<NsAttr>, l: nat)
    requires l < |ys|
  {
    Find(xs, ys[l].key).None? && (xs == [] || !Inherited(ys[l].key))
  }

  function Added(xs: seq<NsAttr>, ys: seq<NsAttr>, l: nat): seq<NsChange>
    requires l < |ys|
  {
    if IsNew(xs, ys, l) then [NsChange(ys[l].key, ys[l].ns, Some(ys[l].value))] else []
  }

  function AddedUpTo(xs: seq<NsAttr>, ys: seq<NsAttr>, n: nat): seq<NsChange>
    requires n <= |ys|
  {
    if n == 0 then [] else AddedUpTo(xs, ys, n - 1) + Added(xs, ys, n - 1)
  }

  /** First the old attributes in their order, then the new ones in theirs. */
  function DiffAttrsNS(xs: seq<NsAttr>, ys: seq<NsAttr>): seq<NsChange> {
    KeptUpTo(xs, ys, |xs|) + AddedUpTo(xs, ys, |ys|)
  }

  function SetAttrsNS(ys: seq<NsAttr>): seq<NsChange> {
    AddedUpTo([], ys, |ys|)
  }

  // ----- application -----

  /** setAttributeNS, or removeAttributeNS for undefined. */
  function ApplyNs(dom: map<Expanded, string>, c: NsChange): map<Expanded, string> {
    if c.value.Some? then dom[(c.ns, Local(c.key)) := c.value.value] else dom - {(c.ns, c.key)}
  }

  function ApplyAttrsNS(dom: map<Expanded, string>, cs: seq<NsChange>): map<Expanded, string> {
    if cs == [] then dom else ApplyNs(ApplyAttrsNS(dom, cs[..|cs| - 1]), cs[|cs| - 1])
  }

  function Shown(ys: seq<NsAttr>): map<Expanded, string> {
    ApplyAttrsNS(map[], SetAttrsNS(ys))
  }

  // ----- when the application is right -----

  ghost predicate Sets(ys: seq<NsAttr>, name: Expanded) {
    exists l :: 0 <= l < |ys| && Name(ys[l]) == name
  }

  /** Attribute i is set again by some new attribute, or removed under its own name. */
  ghost predicate GoesWell(xs: seq<NsAttr>, ys: seq<NsAttr>, i: nat)
    requires i < |xs|
  {
    Sets(ys, Name(xs[i])) || (Find(ys, xs[i].key).None? && Removal(xs[i]) == Name(xs[i]))
  }

  /** Old attribute i gets a new pair, which the removal of attribute j, later, undoes. */
  ghost predicate Undone(xs: seq<NsAttr>, ys: seq<NsAttr>, i: nat, j: nat)
    requires i < |xs| && j < |xs|
  {
    var l := Find(ys, xs[i].key);
    i < j && l.Some? && Find(ys, xs[j].key).None? && Name(ys[l.value]) == Removal(xs[j])
  }

  /** New attribute l is passed over, although no old one has its key. */
  ghost predicate Skipped(xs: seq<NsAttr>, ys: seq<NsAttr>, l: nat)
    requires l < |ys|
  {
    Find(xs, ys[l].key).None? && !IsNew(xs, ys, l)
  }

  /** It is shown already, for an old attribute with another key. */
  ghost predicate ShownBefore(xs: seq<NsAttr>, y: NsAttr) {
    exists i :: 0 <= i < |xs| && Name(xs[i]) == Name(y) && xs[i].value == y.value
  }

  ghost predicate NamesKept(xs: seq<NsAttr>, ys: seq<NsAttr>) {
    && (forall l :: 0 <= l < |ys| && Skipped(xs, ys, l) ==> ShownBefore(xs, ys[l]))
    && (forall i :: 0 <= i < |xs| ==> GoesWell(xs, ys, i))
    && (forall i, j :: 0 <= i < |xs| && 0 <= j < |xs| ==> !Undone(xs, ys, i, j))
  }

  // ----- one name after a list of changes -----

  function Target(c: NsChange): Expanded {
    (c.ns, if c.value.Some? then Local(c.key) else c.key)
  }

  predicate SameAt(m: map<Expanded, string>, d: map<Expanded, string>, name: Expanded) {
    (name in m <==> name in d) && (name in m ==> m[name] == d[name])
  }

  predicate Outcome(m: map<Expanded, string>, c: NsChange) {
    if c.value.Some? then Target(c) in m && m[Target(c)] == c.value.value else Target(c) !in m
  }

  lemma {:induction false} ApplyPlus(dom: map<Expanded, string>, a: seq<NsChange>, b: seq<NsChange>)
    ensures ApplyAttrsNS(dom, a + b) == ApplyAttrsNS(ApplyAttrsNS(dom, a), b)
  {
    if b == [] {
      assert a + b == a;
    } else {
      ApplyPlus(dom, a, b[..|b| - 1]);
      assert (a + b)[..|a + b| - 1] == a + b[..|b| - 1];
    }
  }

  lemma ApplyOne(dom: map<Expanded, string>, c: NsChange)
    ensures ApplyAttrsNS(dom, [c]) == ApplyNs(dom, c) && ApplyAttrsNS(dom, []) == dom
  {
    assert [c][..0] == [];
  }

  /** After one change more, or none. */
  lemma OneMore(dom: map<Expanded, string>, cs: seq<NsChange>, more: seq<NsChange>, name: Expanded)
    requires |more| <= 1 && (more != [] ==> Target(more[0]) != name)
    ensures SameAt(ApplyAttrsNS(dom, cs + more), ApplyAttrsNS(dom, cs), name)
  {
    hide Local;
    ApplyPlus(dom, cs, more);
    if more != [] {
      assert more == [more[0]];
      ApplyOne(ApplyAttrsNS(dom, cs), more[0]);
    }
  }

  /** A name that is not there is not there after a change that does not set it. */
  lemma NotAdded(dom: map<Expanded, string>, cs: seq<NsChange>, more: seq<NsChange>, name: Expanded)
    requires |more| <= 1 && (more != [] && more[0].value.Some? ==> Target(more[0]) != name)
    requires name !in ApplyAttrsNS(dom, cs)
    ensures name !in ApplyAttrsNS(dom, cs + more)
  {
    hide Local;
    ApplyPlus(dom, cs, more);
    if more != [] {
      assert more == [more[0]];
      ApplyOne(ApplyAttrsNS(dom, cs), more[0]);
    }
  }

  lemma SameThen(m: map<Expanded, string>, d: map<Expanded, string>, e: map<Expanded, string>, name: Expanded)
    requires SameAt(m, d, name) && SameAt(d, e, name)
    ensures SameAt(m, e, name)
  {
  }

  /** Changes that do not touch a name leave it; the last one that does decides. */
  lemma {:induction false} KeptLeave(xs: seq<NsAttr>, ys: seq<NsAttr>, dom: map<Expanded, string>, n: nat, from: nat,
                                     name: Expanded)
    requires from <= n <= |xs|
    requires forall i :: from <= i < n && Kept(xs, ys, i) != [] ==> Target(Kept(xs, ys, i)[0]) != name
    ensures SameAt(ApplyAttrsNS(dom, KeptUpTo(xs, ys, n)), ApplyAttrsNS(dom, KeptUpTo(xs, ys, from)), name)
  {
    hide SameAt, ApplyAttrsNS, Kept, Target;
    if from < n {
      KeptLeave(xs, ys, dom, n - 1, from, name);
      KeptOne(xs, ys, n - 1);
      OneMore(dom, KeptUpTo(xs, ys, n - 1), Kept(xs, ys, n - 1), name);
      SameThen(ApplyAttrsNS(dom, KeptUpTo(xs, ys, n)), ApplyAttrsNS(dom, KeptUpTo(xs, ys, n - 1)),
        ApplyAttrsNS(dom, KeptUpTo(xs, ys, from)), name);
    } else {
      SameHere(ApplyAttrsNS(dom, KeptUpTo(xs, ys, n)), name);
    }
  }

  lemma SameHere(m: map<Expanded, string>, name: Expanded)
    ensures SameAt(m, m, name)
  {
  }

  lemma KeptOne(xs: seq<NsAttr>, ys: seq<NsAttr>, i: nat)
    requires i < |xs|
    ensures Kept(xs, ys, i) == [] || Kept(xs, ys, i) == [Kept(xs, ys, i)[0]]
    ensures |Kept(xs, ys, i)| <= 1
  {
  }

  lemma KeptDecides(xs: seq<NsAttr>, ys: seq<NsAttr>, dom: map<Expanded, string>, i: nat)
    requires i < |xs| && Kept(xs, ys, i) != []
    requires forall j :: i < j < |xs| && Kept(xs, ys, j) != [] ==>
      Target(Kept(xs, ys, j)[0]) != Target(Kept(xs, ys, i)[0])
    ensures Outcome(ApplyAttrsNS(dom, KeptUpTo(xs, ys, |xs|)), Kept(xs, ys, i)[0])
  {
    KeptLeave(xs, ys, dom, |xs|, i + 1, Target(Kept(xs, ys, i)[0]));
    KeptOne(xs, ys, i);
    ApplyPlus(dom, KeptUpTo(xs, ys, i), Kept(xs, ys, i));
    ApplyOne(ApplyAttrsNS(dom, KeptUpTo(xs, ys, i)), Kept(xs, ys, i)[0]);
  }

  lemma {:induction false} AddedLeave(xs: seq<NsAttr>, ys: seq<NsAttr>, dom: map<Expanded, string>, n: nat,
                                      from: nat, name: Expanded)
    requires from <= n <= |ys|
    requires forall l :: from <= l < n && IsNew(xs, ys, l) ==> Name(ys[l]) != name
    ensures SameAt(ApplyAttrsNS(dom, AddedUpTo(xs, ys, n)), ApplyAttrsNS(dom, AddedUpTo(xs, ys, from)), name)
  {
    hide SameAt, ApplyAttrsNS, IsNew, Target, Name;
    if from < n {
      AddedLeave(xs, ys, dom, n - 1, from, name);
      AddedOne(xs, ys, n - 1);
      OneMore(dom, AddedUpTo(xs, ys, n - 1), Added(xs, ys, n - 1), name);
      SameThen(ApplyAttrsNS(dom, AddedUpTo(xs, ys, n)), ApplyAttrsNS(dom, AddedUpTo(xs, ys, n - 1)),
        ApplyAttrsNS(dom, AddedUpTo(xs, ys, from)), name);
    } else {
      SameHere(ApplyAttrsNS(dom, AddedUpTo(xs, ys, n)), name);
    }
  }

  lemma AddedOne(xs: seq<NsAttr>, ys: seq<NsAttr>, l: nat)
    requires l < |ys|
    ensures |Added(xs, ys, l)| <= 1
    ensures Added(xs, ys, l) != [] ==> IsNew(xs, ys, l) && Target(Added(xs, ys, l)[0]) == Name(ys[l])
  {
  }

  /** A new attribute is set in the end. */
  lemma AddedSets(xs: seq<NsAttr>, ys: NsAttrs, dom: map<Expanded, string>, l: nat)
    requires l < |ys| && IsNew(xs, ys, l)
    ensures var m := ApplyAttrsNS(dom, AddedUpTo(xs, ys, |ys|)); Name(ys[l]) in m && m[Name(ys[l])] == ys[l].value
  {
    AddedLeave(xs, ys, dom, |ys|, l + 1, Name(ys[l]));
    ApplyPlus(dom, AddedUpTo(xs, ys, l), Added(xs, ys, l));
    ApplyOne(ApplyAttrsNS(dom, AddedUpTo(xs, ys, l)), Added(xs, ys, l)[0]);
  }

  /** What a fresh element shows: its attributes. */
  lemma ShownIs(ys: NsAttrs, name: Expanded)
    ensures name in Shown(ys) <==> Sets(ys, name)
    ensures forall l :: 0 <= l < |ys| && Name(ys[l]) == name ==> name in Shown(ys) && Shown(ys)[name] == ys[l].value
  {
    forall l | 0 <= l < |ys| && Name(ys[l]) == name ensures name in Shown(ys) && Shown(ys)[name] == ys[l].value {
      AddedSets([], ys, map[], l);
    }
    if !Sets(ys, name) { AddedLeave([], ys, map[], |ys|, 0, name); }
  }

  // ----- patching -----

  function Patched(xs: seq<NsAttr>, ys: seq<NsAttr>): map<Expanded, string> {
    ApplyAttrsNS(Shown(xs), DiffAttrsNS(xs, ys))
  }

  lemma PatchedIs(xs: seq<NsAttr>, ys: seq<NsAttr>)
    ensures Patched(xs, ys) == ApplyAttrsNS(ApplyAttrsNS(Shown(xs), KeptUpTo(xs, ys, |xs|)), AddedUpTo(xs, ys, |ys|))
  {
    ApplyPlus(Shown(xs), KeptUpTo(xs, ys, |xs|), AddedUpTo(xs, ys, |ys|));
  }

  /** Only one old attribute is removed under the name of an old one. */
  lemma RemovesOwn(xs: NsAttrs, i: nat, j: nat)
    requires i < |xs| && j < |xs| && Removal(xs[j]) == Name(xs[i])
    ensures i == j
  {
    hide Inherited;
    if Inherited(xs[j].key) {
      NoPrefix(xs[j].key);
      assert !Prefixed(xs[i].key);
      assert xs[i].key == xs[j].key;
    } else {
      assert !Prefixed(xs[j].key);
      assert Name(xs[j]) == Name(xs[i]);
    }
  }

  /** No change of another old attribute touches a name that no new attribute sets. */
  lemma NotTouched(xs: NsAttrs, ys: NsAttrs, i: nat, j: nat)
    requires i < |xs| && j < |xs| && j != i && !Sets(ys, Name(xs[i])) && Kept(xs, ys, j) != []
    ensures Target(Kept(xs, ys, j)[0]) != Name(xs[i])
  {
    hide Inherited;
    if Removal(xs[j]) == Name(xs[i]) { RemovesOwn(xs, i, j); }
  }

  /** An old attribute that no new one sets is gone exactly when it goes well. */
  lemma NotSet(xs: NsAttrs, ys: NsAttrs, i: nat)
    requires i < |xs| && !Sets(ys, Name(xs[i]))
    ensures Name(xs[i]) in Patched(xs, ys) <==> !GoesWell(xs, ys, i)
  {
    hide Patched, Shown, Kept, Sets;
    var name, kept := Name(xs[i]), ApplyAttrsNS(Shown(xs), KeptUpTo(xs, ys, |xs|));
    PatchedIs(xs, ys);
    NoneSets(xs, ys, name, kept);
    forall j | 0 <= j < |xs| && j != i && Kept(xs, ys, j) != [] ensures Target(Kept(xs, ys, j)[0]) != name {
      NotTouched(xs, ys, i, j);
    }
    if GoesWell(xs, ys, i) {
      RemovalIs(xs, ys, i);
      KeptDecides(xs, ys, Shown(xs), i);
    } else {
      StaleTarget(xs, ys, i);
      ShownIs(xs, name);
      ItSets(xs, i);
      KeptLeave(xs, ys, Shown(xs), |xs|, 0, name);
    }
  }

  lemma ItSets(xs: seq<NsAttr>, i: nat)
    requires i < |xs|
    ensures Sets(xs, Name(xs[i]))
  {
  }

  lemma NoneSets(xs: seq<NsAttr>, ys: seq<NsAttr>, name: Expanded, kept: map<Expanded, string>)
    requires !Sets(ys, name)
    ensures SameAt(ApplyAttrsNS(kept, AddedUpTo(xs, ys, |ys|)), kept, name)
  {
    AddedLeave(xs, ys, kept, |ys|, 0, name);
  }

  lemma RemovalIs(xs: NsAttrs, ys: NsAttrs, i: nat)
    requires i < |xs| && !Sets(ys, Name(xs[i])) && GoesWell(xs, ys, i)
    ensures Kept(xs, ys, i) == [NsChange(xs[i].key, Removal(xs[i]).0, None)] &&
      Target(Kept(xs, ys, i)[0]) == Name(xs[i])
  {
  }

  lemma StaleTarget(xs: NsAttrs, ys: NsAttrs, i: nat)
    requires i < |xs| && !Sets(ys, Name(xs[i])) && !GoesWell(xs, ys, i)
    ensures Kept(xs, ys, i) != [] ==> Target(Kept(xs, ys, i)[0]) != Name(xs[i])
  {
    hide Inherited;
    assert !Prefixed(Local(xs[i].key));
  }

  /** A name that was not there and is not set is not there. */
  lemma {:induction false} NeverThereUpTo(xs: seq<NsAttr>, ys: seq<NsAttr>, dom: map<Expanded, string>, n: nat,
                                          name: Expanded)
    requires n <= |xs| && !Sets(ys, name) && name !in dom
    ensures name !in ApplyAttrsNS(dom, KeptUpTo(xs, ys, n))
  {
    hide Kept, Sets, Local, Target;
    if n > 0 {
      NeverThereUpTo(xs, ys, dom, n - 1, name);
      KeptOne(xs, ys, n - 1);
      KeptSets(xs, ys, n - 1);
      NotAdded(dom, KeptUpTo(xs, ys, n - 1), Kept(xs, ys, n - 1), name);
    }
  }

  lemma KeptSets(xs: seq<NsAttr>, ys: seq<NsAttr>, i: nat)
    requires i < |xs|
    ensures Kept(xs, ys, i) != [] && Kept(xs, ys, i)[0].value.Some? ==> Sets(ys, Target(Kept(xs, ys, i)[0]))
  {
    if Find(ys, xs[i].key).Some? { ItSets(ys, Find(ys, xs[i].key).value); }
  }

  lemma NeverThere(xs: NsAttrs, ys: NsAttrs, name: Expanded)
    requires !Sets(ys, name) && !Sets(xs, name)
    ensures name !in Patched(xs, ys)
  {
    PatchedIs(xs, ys);
    ShownIs(xs, name);
    NeverThereUpTo(xs, ys, Shown(xs), |xs|, name);
    AddedLeave(xs, ys, ApplyAttrsNS(Shown(xs), KeptUpTo(xs, ys, |xs|)), |ys|, 0, name);
  }

  /** A name that new attribute l sets shows its value, unless that is undone or it is passed over. */
  lemma IsSet(xs: NsAttrs, ys: NsAttrs, l: nat)
    requires l < |ys| && !Skipped(xs, ys, l)
    requires forall i, j :: 0 <= i < |xs| && 0 <= j < |xs| ==> !Undone(xs, ys, i, j)
    ensures Name(ys[l]) in Patched(xs, ys) && Patched(xs, ys)[Name(ys[l])] == ys[l].value
  {
    hide Patched, Shown, Kept, Undone, Name, Inherited;
    var kept := ApplyAttrsNS(Shown(xs), KeptUpTo(xs, ys, |xs|));
    PatchedIs(xs, ys);
    if Find(xs, ys[l].key).None? {
      AddedSets(xs, ys, kept, l);
    } else {
      var i := Find(xs, ys[l].key).value;
      OthersAdded(xs, ys, l);
      AddedLeave(xs, ys, kept, |ys|, 0, Name(ys[l]));
      StaysSet(xs, ys, l, i);
    }
  }

  /** Nothing touches the name of a new attribute that is passed over. */
  lemma SkippedLeft(xs: NsAttrs, ys: NsAttrs, l: nat, k: nat)
    requires l < |ys| && Skipped(xs, ys, l) && k < |xs| && Kept(xs, ys, k) != [] && Sets(xs, Name(ys[l]))
    ensures Target(Kept(xs, ys, k)[0]) != Name(ys[l])
  {
    hide Inherited;
    if Find(ys, xs[k].key).Some? {
      assert Find(ys, xs[k].key).value != l;
    } else if Removal(xs[k]) == Name(ys[l]) {
      var i :| 0 <= i < |xs| && Name(xs[i]) == Name(ys[l]);
      RemovesOwn(xs, i, k);
      NoPrefix(ys[l].key);
    }
  }

  /** A new attribute that is passed over shows what was there. */
  lemma SkippedShows(xs: NsAttrs, ys: NsAttrs, l: nat)
    requires l < |ys| && Skipped(xs, ys, l)
    ensures Name(ys[l]) in Patched(xs, ys) && Patched(xs, ys)[Name(ys[l])] == ys[l].value <==> ShownBefore(xs, ys[l])
  {
    hide Patched, Shown, Kept, Name, Inherited;
    var name, kept := Name(ys[l]), ApplyAttrsNS(Shown(xs), KeptUpTo(xs, ys, |xs|));
    PatchedIs(xs, ys);
    ShownIs(xs, name);
    SkippedOthers(xs, ys, l);
    AddedLeave(xs, ys, kept, |ys|, 0, name);
    if Sets(xs, name) {
      forall k | 0 <= k < |xs| && Kept(xs, ys, k) != [] ensures Target(Kept(xs, ys, k)[0]) != name {
        SkippedLeft(xs, ys, l, k);
      }
      KeptLeave(xs, ys, Shown(xs), |xs|, 0, name);
    } else {
      SkippedUnset(xs, ys, l, |xs|);
    }
  }

  lemma SkippedOthers(xs: NsAttrs, ys: NsAttrs, l: nat)
    requires l < |ys| && Skipped(xs, ys, l)
    ensures forall k :: 0 <= k < |ys| && IsNew(xs, ys, k) ==> Name(ys[k]) != Name(ys[l])
  {
    hide Inherited;
  }

  lemma {:induction false} SkippedUnset(xs: NsAttrs, ys: NsAttrs, l: nat, n: nat)
    requires l < |ys| && Skipped(xs, ys, l) && !Sets(xs, Name(ys[l])) && n <= |xs|
    ensures Name(ys[l]) !in ApplyAttrsNS(Shown(xs), KeptUpTo(xs, ys, n))
  {
    hide Shown, Sets, Skipped, Kept, Name, Target;
    if n == 0 {
      ShownIs(xs, Name(ys[l]));
    } else {
      SkippedUnset(xs, ys, l, n - 1);
      KeptOne(xs, ys, n - 1);
      if Kept(xs, ys, n - 1) != [] { NotSetBy(xs, ys, l, n - 1); }
      NotAdded(Shown(xs), KeptUpTo(xs, ys, n - 1), Kept(xs, ys, n - 1), Name(ys[l]));
    }
  }

  lemma NotSetBy(xs: NsAttrs, ys: NsAttrs, l: nat, k: nat)
    requires l < |ys| && Skipped(xs, ys, l) && k < |xs| && Kept(xs, ys, k) != []
    ensures Kept(xs, ys, k)[0].value.Some? ==> Target(Kept(xs, ys, k)[0]) != Name(ys[l])
  {
    hide Inherited;
  }

  lemma OthersAdded(xs: NsAttrs, ys: NsAttrs, l: nat)
    requires l < |ys| && Find(xs, ys[l].key).Some?
    ensures forall k :: 0 <= k < |ys| && IsNew(xs, ys, k) ==> Name(ys[k]) != Name(ys[l])
  {
    hide Inherited;
  }

  /** If it is undone, it is gone. */
  lemma IsUndone(xs: NsAttrs, ys: NsAttrs, i: nat, j: nat)
    requires i < |xs| && j < |xs| && Undone(xs, ys, i, j)
    ensures Find(ys, xs[i].key).Some? && Name(ys[Find(ys, xs[i].key).value]) !in Patched(xs, ys)
  {
    hide Patched, Shown;
    var l := Find(ys, xs[i].key).value;
    var name, kept := Name(ys[l]), ApplyAttrsNS(Shown(xs), KeptUpTo(xs, ys, |xs|));
    PatchedIs(xs, ys);
    FoundBack(xs, ys, i, l);
    OthersAdded(xs, ys, l);
    AddedLeave(xs, ys, kept, |ys|, 0, name);
    forall k | j < k < |xs| && Kept(xs, ys, k) != [] ensures Target(Kept(xs, ys, k)[0]) != name {
      LaterTarget(xs, ys, l, i, k);
      SameName(xs, k, j);
    }
    KeptDecides(xs, ys, Shown(xs), j);
  }

  lemma FoundBack(xs: NsAttrs, ys: NsAttrs, i: nat, l: nat)
    requires i < |xs| && l < |ys| && ys[l].key == xs[i].key
    ensures Find(xs, ys[l].key) == Some(i)
  {
    FindIs(xs, i);
  }

  lemma SameName(xs: NsAttrs, k: nat, j: nat)
    requires k < |xs| && j < |xs|
    ensures Removal(xs[k]) == Removal(xs[j]) ==> k == j
  {
  }

  /** Another attribute does not set the name of new attribute l. */
  lemma LaterTarget(xs: NsAttrs, ys: NsAttrs, l: nat, i: nat, k: nat)
    requires l < |ys| && i < |xs| && k < |xs| && k != i && xs[i].key == ys[l].key && Kept(xs, ys, k) != []
    ensures Target(Kept(xs, ys, k)[0]) == Name(ys[l]) ==>
      Find(ys, xs[k].key).None? && Removal(xs[k]) == Name(ys[l])
  {
    if Find(ys, xs[k].key).Some? {
      var q := Find(ys, xs[k].key).value;
      assert q != l;
    }
  }

  lemma StaysSet(xs: NsAttrs, ys: NsAttrs, l: nat, i: nat)
    requires l < |ys| && i < |xs| && xs[i].key == ys[l].key && forall j :: 0 <= j < |xs| ==> !Undone(xs, ys, i, j)
    ensures var m := ApplyAttrsNS(Shown(xs), KeptUpTo(xs, ys, |xs|)); Name(ys[l]) in m && m[Name(ys[l])] == ys[l].value
  {
    var name := Name(ys[l]);
    FindIs(ys, l);
    forall k | i < k < |xs| && Kept(xs, ys, k) != [] ensures Target(Kept(xs, ys, k)[0]) != name {
      LaterTarget(xs, ys, l, i, k);
      assert !Undone(xs, ys, i, k);
    }
    if Kept(xs, ys, i) != [] {
      KeptDecides(xs, ys, Shown(xs), i);
    } else {
      ShownIs(xs, name);
      forall k | 0 <= k < |xs| && Kept(xs, ys, k) != [] ensures Target(Kept(xs, ys, k)[0]) != name {
        LaterTarget(xs, ys, l, i, k);
        if Removal(xs[k]) == Name(xs[i]) { RemovesOwn(xs, i, k); }
      }
      KeptLeave(xs, ys, Shown(xs), |xs|, 0, name);
    }
  }

  /** The attributes shown after patching are the new ones if and only if each old one is set again or
      is removed under its own name, no removal comes after a new pair under that name, and what is
      passed over, for an inherited name, is there already. */
  lemma AttrsNSPatched(xs: NsAttrs, ys: NsAttrs)
    ensures Patched(xs, ys) == Shown(ys) <==> NamesKept(xs, ys)
  {
    if Patched(xs, ys) == Shown(ys) {
      forall i | 0 <= i < |xs| ensures GoesWell(xs, ys, i) {
        if !Sets(ys, Name(xs[i])) {
          ShownIs(ys, Name(xs[i]));
          NotSet(xs, ys, i);
        }
      }
      forall i, j | 0 <= i < |xs| && 0 <= j < |xs| ensures !Undone(xs, ys, i, j) {
        if Undone(xs, ys, i, j) { UndoneShows(xs, ys, i, j); }
      }
      forall l | 0 <= l < |ys| && Skipped(xs, ys, l) ensures ShownBefore(xs, ys[l]) {
        ShownIs(ys, Name(ys[l]));
        SkippedShows(xs, ys, l);
      }
    }
    if NamesKept(xs, ys) {
      forall name: Expanded ensures SameAt(Patched(xs, ys), Shown(ys), name) { PatchedAt(xs, ys, name); }
      SameMaps(Patched(xs, ys), Shown(ys));
    }
  }

  lemma PatchedAt(xs: NsAttrs, ys: NsAttrs, name: Expanded)
    requires NamesKept(xs, ys)
    ensures SameAt(Patched(xs, ys), Shown(ys), name)
  {
    hide Patched, Shown;
    ShownIs(ys, name);
    if Sets(ys, name) {
      var l :| 0 <= l < |ys| && Name(ys[l]) == name;
      if Skipped(xs, ys, l) { SkippedShows(xs, ys, l); } else { IsSet(xs, ys, l); }
    } else if Sets(xs, name) {
      var i :| 0 <= i < |xs| && Name(xs[i]) == name;
      NotSet(xs, ys, i);
    } else {
      NeverThere(xs, ys, name);
    }
  }

  lemma UndoneShows(xs: NsAttrs, ys: NsAttrs, i: nat, j: nat)
    requires i < |xs| && j < |xs| && Undone(xs, ys, i, j)
    ensures Patched(xs, ys) != Shown(ys)
  {
    var l := Find(ys, xs[i].key).value;
    IsUndone(xs, ys, i, j);
    ShownIs(ys, Name(ys[l]));
    ItSets(ys, l);
  }

  lemma SameMaps(a: map<Expanded, string>, b: map<Expanded, string>)
    requires forall name: Expanded :: SameAt(a, b, name)
    ensures a == b
  {
    forall name: Expanded ensures (name in a <==> name in b) && (name in a ==> a[name] == b[name]) {
      assert SameAt(a, b, name);
    }
  }

  /** An attribute named value or checked that stays is set again, whatever the DOM has, if no removal
      undoes it. */
  lemma SetAgain(xs: NsAttrs, ys: NsAttrs, dom: map<Expanded, string>, l: nat, i: nat)
    requires l < |ys| && i < |xs| && xs[i].key == ys[l].key && (ys[l].key == "value" || ys[l].key == "checked")
    requires forall j :: 0 <= j < |xs| ==> !Undone(xs, ys, i, j)
    ensures var after := ApplyAttrsNS(dom, DiffAttrsNS(xs, ys));
      (ys[l].ns, ys[l].key) in after && after[(ys[l].ns, ys[l].key)] == ys[l].value
  {
    hide ApplyAttrsNS, KeptUpTo, AddedUpTo, Inherited, SameAt, IsNew, NsProper;
    var name, kept := Name(ys[l]), ApplyAttrsNS(dom, KeptUpTo(xs, ys, |xs|));
    FindIs(ys, l);
    FindIs(xs, i);
    PlainName(ys[l]);
    forall k | i < k < |xs| && Kept(xs, ys, k) != [] ensures Target(Kept(xs, ys, k)[0]) != name {
      LaterTarget(xs, ys, l, i, k);
      assert !Undone(xs, ys, i, k);
    }
    KeptDecides(xs, ys, dom, i);
    OthersAdded(xs, ys, l);
    AddedLeave(xs, ys, kept, |ys|, 0, name);
    ApplyPlus(dom, KeptUpTo(xs, ys, |xs|), AddedUpTo(xs, ys, |ys|));
    NoneAdded(xs, ys, kept);
    SameValue(ApplyAttrsNS(kept, AddedUpTo(xs, ys, |ys|)), kept, name);
  }

  lemma NoneAdded(xs: seq<NsAttr>, ys: seq<NsAttr>, dom: map<Expanded, string>)
    ensures ApplyAttrsNS(dom, AddedUpTo(xs, ys, 0)) == dom
  {
  }

  lemma SameValue(m: map<Expanded, string>, d: map<Expanded, string>, name: Expanded)
    requires SameAt(m, d, name) && name in d
    ensures name in m && m[name] == d[name]
  {
  }

  lemma PlainName(a: NsAttr)
    requires a.key == "value" || a.key == "checked"
    ensures Name(a) == (a.ns, a.key)
  {
  }
}
