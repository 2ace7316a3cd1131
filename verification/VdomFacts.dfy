/** Facts of an element: properties, styles, attributes and namespaced attributes,
    their difference, and its application to a DOM element.

    JavaScript compares values with ===.  A property value is a string, null, some other value
    named by a number, or a function that objects inherit, so that === is Dafny's ==. */
module VdomFacts {
  import opened Wrappers
  import opened VdomObjects
  import opened VdomNamespaces

  datatype PropValue = Str(s: string) | Null | Other(id: int) | Native(name: string)

  datatype Facts = Facts(
    props: map<string, PropValue>,
    styles: map<string, string>,
    attrs: map<string, string>,
    attrsNS: NsAttrs)

  /** What a FACTS patch carries.  `None` is JavaScript's undefined. */
  datatype Change = Change(
    props: map<string, PropValue>,
    styles: map<string, string>,
    attrs: map<string, Option<string>>,
    attrsNS: seq<NsChange>)

  /** What a DOM element stores: attributes in a namespace are found by namespace and local name. */
  datatype DomFacts = DomFacts(
    props: map<string, PropValue>,
    styles: map<string, string>,
    attrs: map<string, string>,
    attrsNS: map<Expanded, string>)

  const NO_FACTS := DomFacts(map[], map[], map[], map[])
  const NO_CHANGE := Change(map[], map[], map[], [])

  // ----- difference -----

  /** The two keys that the DOM itself may have changed. */
  predicate Volatile(key: string) {
    key == "value" || key == "checked"
  }

  /** Keys whose entry goes into the difference: removed, added, changed, or one that the DOM itself may
      have changed.  An inherited name is never added: it is found among the old entries.  `bare` tells
      that there is no object of old entries to look into. */
  predicate Differs<V(==)>(x: map<string, V>, y: map<string, V>, key: string, bare: bool) {
    if key in x && key in y then x[key] != y[key] || Volatile(key)
    else if key in x then true
    else key in y && (bare || !Inherited(key))
  }

  function Default(v: PropValue): PropValue {
    if v.Str? then Str("") else Null
  }

  /** The new value; for an old key, what is found under it: the default, or what objects inherit. */
  function NewProp(x: map<string, PropValue>, y: map<string, PropValue>, key: string): PropValue
    requires key in x || key in y
  {
    if key in y then y[key] else if Inherited(key) then Native(key) else Default(x[key])
  }

  predicate PropDiffers(x: map<string, PropValue>, y: map<string, PropValue>, key: string) {
    Differs(x, y, key, false) && !(key in x && key !in y && Inherited(key) && x[key] == Native(key))
  }

  function DiffProps(x: map<string, PropValue>, y: map<string, PropValue>): map<string, PropValue> {
    map key | key in x.Keys + y.Keys && PropDiffers(x, y, key) :: NewProp(x, y, key)
  }

  function DiffStyles(x: map<string, string>, y: map<string, string>): map<string, string> {
    map key | key in x.Keys + y.Keys && Differs(x, y, key, x == map[]) ::
      if key in y then y[key] else if Inherited(key) then NativeText(key) else ""
  }

  function DiffAttrs(x: map<string, string>, y: map<string, string>): map<string, Option<string>> {
    map key | key in x.Keys + y.Keys && Differs(x, y, key, x == map[]) ::
      if key in y then Some(y[key]) else if Inherited(key) then Some(NativeText(key)) else None
  }

  function DiffFacts(x: Facts, y: Facts): Change {
    Change(DiffProps(x.props, y.props), DiffStyles(x.styles, y.styles),
           DiffAttrs(x.attrs, y.attrs), DiffAttrsNS(x.attrsNS, y.attrsNS))
  }

  // ----- application -----

  function SetAttrs(m: map<string, string>): map<string, Option<string>> {
    map key | key in m :: Some(m[key])
  }

  function AsChange(f: Facts): Change {
    Change(f.props, f.styles, SetAttrs(f.attrs), SetAttrsNS(f.attrsNS))
  }

  /** setAttribute for a value, removeAttribute for undefined. */
  function ApplyAttrs(dom: map<string, string>, c: map<string, Option<string>>): map<string, string> {
    map key | key in dom.Keys + c.Keys && (key in c ==> c[key].Some?) ::
      if key in c then c[key].value else dom[key]
  }

  function ApplyFacts(dom: DomFacts, c: Change): DomFacts {
    DomFacts(dom.props + c.props, dom.styles + c.styles,
             ApplyAttrs(dom.attrs, c.attrs), ApplyAttrsNS(dom.attrsNS, c.attrsNS))
  }

  /** The facts of a freshly rendered element. */
  function Fresh(f: Facts): DomFacts {
    ApplyFacts(NO_FACTS, AsChange(f))
  }

  // ----- what one can see -----

  function SeenProps(m: map<string, PropValue>): map<string, PropValue> {
    map key | key in m && m[key] != Str("") && m[key] != Null :: m[key]
  }

  function SeenStyles(m: map<string, string>): map<string, string> {
    map key | key in m && m[key] != "" :: m[key]
  }

  /** A removed property or style is set to its default: an entry with a default value
      counts as no entry. */
  function Seen(dom: DomFacts): DomFacts {
    DomFacts(SeenProps(dom.props), SeenStyles(dom.styles), dom.attrs, dom.attrsNS)
  }

  predicate IsDefault(v: PropValue) {
    v == Str("") || v == Null
  }

  /** A property with an inherited name is not left out, and not added but with a default. */
  ghost predicate PropsKept(x: map<string, PropValue>, y: map<string, PropValue>) {
    forall key :: Inherited(key) ==> (key in x ==> key in y) && (key in y && key !in x ==> IsDefault(y[key]))
  }

  ghost predicate StylesKept(x: map<string, string>, y: map<string, string>) {
    forall key :: Inherited(key) ==>
      (key in x ==> key in y) && (key in y && key !in x ==> x == map[] || y[key] == "")
  }

  ghost predicate AttrsKept(x: map<string, string>, y: map<string, string>) {
    forall key :: Inherited(key) ==> (key in x ==> key in y) && (key in y && key !in x ==> x == map[])
  }

  /** Inherited names stay, and every namespaced attribute is set again or can be removed under its
      local name, and is not removed after it has been set in another namespace. */
  ghost predicate FactsKept(x: Facts, y: Facts) {
    && PropsKept(x.props, y.props) && StylesKept(x.styles, y.styles) && AttrsKept(x.attrs, y.attrs)
    && NamesKept(x.attrsNS, y.attrsNS)
  }

  // ----- patching facts gives fresh facts, exactly when names are kept -----

  /** An entry of a map as far as it is seen. */
  predicate SameEntry<V(==)>(a: map<string, V>, b: map<string, V>, key: string) {
    (key in a <==> key in b) && (key in a ==> a[key] == b[key])
  }

  lemma SameEntries<V>(a: map<string, V>, b: map<string, V>)
    requires forall key :: SameEntry(a, b, key)
    ensures a == b
  {
    forall key ensures (key in a <==> key in b) && (key in a ==> a[key] == b[key]) { assert SameEntry(a, b, key); }
  }

  /** What the DOM shows agrees with the old facts, but for the keys that it may have changed itself and
      that the old or the new facts have. */
  ghost predicate ShownBut<V, W>(dom: map<string, V>, was: map<string, V>, x: map<string, W>, y: map<string, W>) {
    forall key :: SameEntry(dom, was, key) || (Volatile(key) && (key in x || key in y))
  }

  lemma PropPatched(dom: map<string, PropValue>, x: map<string, PropValue>, y: map<string, PropValue>, key: string)
    requires SameEntry(SeenProps(dom), SeenProps(x), key) || (Volatile(key) && (key in x || key in y))
    ensures SameEntry(SeenProps(dom + DiffProps(x, y)), SeenProps(y), key) <==>
      (Inherited(key) ==> (key in x ==> key in y) && (key in y && key !in x ==> IsDefault(y[key])))
  {
    hide Inherited;
    if Volatile(key) { VolatileOwn(key); }
  }

  lemma VolatileOwn(key: string)
    requires Volatile(key)
    ensures !Inherited(key)
  {
    LowerCase(key);
  }

  lemma PropsPatched(dom: map<string, PropValue>, x: map<string, PropValue>, y: map<string, PropValue>)
    requires ShownBut(SeenProps(dom), SeenProps(x), x, y)
    ensures SeenProps(dom + DiffProps(x, y)) == SeenProps(y) <==> PropsKept(x, y)
  {
    hide Inherited, DiffProps, SeenProps, Volatile;
    forall key
      ensures SameEntry(SeenProps(dom + DiffProps(x, y)), SeenProps(y), key) <==>
        (Inherited(key) ==> (key in x ==> key in y) && (key in y && key !in x ==> IsDefault(y[key])))
    {
      PropPatched(dom, x, y, key);
    }
    if PropsKept(x, y) { SameEntries(SeenProps(dom + DiffProps(x, y)), SeenProps(y)); }
  }

  lemma StylePatched(dom: map<string, string>, x: map<string, string>, y: map<string, string>, key: string)
    requires SameEntry(SeenStyles(dom), SeenStyles(x), key) || (Volatile(key) && (key in x || key in y))
    ensures SameEntry(SeenStyles(dom + DiffStyles(x, y)), SeenStyles(y), key) <==>
      (Inherited(key) ==> (key in x ==> key in y) && (key in y && key !in x ==> x == map[] || y[key] == ""))
  {
    hide Inherited;
    if Volatile(key) { VolatileOwn(key); }
  }

  lemma StylesPatched(dom: map<string, string>, x: map<string, string>, y: map<string, string>)
    requires ShownBut(SeenStyles(dom), SeenStyles(x), x, y)
    ensures SeenStyles(dom + DiffStyles(x, y)) == SeenStyles(y) <==> StylesKept(x, y)
  {
    hide Inherited, DiffStyles, SeenStyles, Volatile;
    forall key
      ensures SameEntry(SeenStyles(dom + DiffStyles(x, y)), SeenStyles(y), key) <==>
        (Inherited(key) ==> (key in x ==> key in y) && (key in y && key !in x ==> x == map[] || y[key] == ""))
    {
      StylePatched(dom, x, y, key);
    }
    if StylesKept(x, y) { SameEntries(SeenStyles(dom + DiffStyles(x, y)), SeenStyles(y)); }
  }

  lemma AttrPatched(dom: map<string, string>, x: map<string, string>, y: map<string, string>, key: string)
    requires SameEntry(dom, x, key) || (Volatile(key) && (key in x || key in y))
    ensures SameEntry(ApplyAttrs(dom, DiffAttrs(x, y)), y, key) <==>
      (Inherited(key) ==> (key in x ==> key in y) && (key in y && key !in x ==> x == map[]))
  {
    hide Inherited;
    if Volatile(key) { VolatileOwn(key); }
  }

  lemma AttrsPatched(dom: map<string, string>, x: map<string, string>, y: map<string, string>)
    requires ShownBut(dom, x, x, y)
    ensures ApplyAttrs(dom, DiffAttrs(x, y)) == y <==> AttrsKept(x, y)
  {
    hide Inherited, DiffAttrs, ApplyAttrs, Volatile;
    forall key
      ensures SameEntry(ApplyAttrs(dom, DiffAttrs(x, y)), y, key) <==>
        (Inherited(key) ==> (key in x ==> key in y) && (key in y && key !in x ==> x == map[]))
    {
      AttrPatched(dom, x, y, key);
    }
    if AttrsKept(x, y) { SameEntries(ApplyAttrs(dom, DiffAttrs(x, y)), y); }
  }

  lemma AttrsSet(x: map<string, string>)
    ensures ApplyAttrs(map[], SetAttrs(x)) == x
  {
  }

  lemma FreshIs(f: Facts)
    ensures Fresh(f) == DomFacts(f.props, f.styles, f.attrs, Shown(f.attrsNS))
  {
    AttrsSet(f.attrs);
    assert map[] + f.props == f.props;
    assert map[] + f.styles == f.styles;
  }

  /** The element shows the facts, but for what the user has changed: the properties, styles and attributes
      that the DOM changes itself may be anything where the old or the new facts say what they are. */
  ghost predicate ShowsBut(dom: DomFacts, x: Facts, y: Facts) {
    && ShownBut(SeenProps(dom.props), SeenProps(x.props), x.props, y.props)
    && ShownBut(SeenStyles(dom.styles), SeenStyles(x.styles), x.styles, y.styles)
    && ShownBut(dom.attrs, x.attrs, x.attrs, y.attrs) && dom.attrsNS == Shown(x.attrsNS)
  }

  lemma ShowsAll(dom: DomFacts, x: Facts, y: Facts)
    requires Seen(dom) == Seen(Fresh(x))
    ensures ShowsBut(dom, x, y)
  {
    FreshIs(x);
    hide SeenProps, SeenStyles, Fresh, Shown, Volatile;
  }

  /** Applying the difference of two fact sets to an element that shows the first, but for what the user
      has changed, makes it show the second, if and only if names are kept. */
  lemma FactsPatched(dom: DomFacts, x: Facts, y: Facts)
    requires ShowsBut(dom, x, y)
    ensures Seen(ApplyFacts(dom, DiffFacts(x, y))) == Seen(Fresh(y)) <==> FactsKept(x, y)
  {
    hide PropsKept, StylesKept, AttrsKept, NamesKept, DiffProps, DiffStyles, DiffAttrs, DiffAttrsNS, SeenProps,
      SeenStyles, ApplyAttrs, ApplyAttrsNS, Fresh, Shown, ShownBut;
    FreshIs(x);
    FreshIs(y);
    PropsPatched(dom.props, x.props, y.props);
    StylesPatched(dom.styles, x.styles, y.styles);
    AttrsPatched(dom.attrs, x.attrs, y.attrs);
    AttrsNSPatched(x.attrsNS, y.attrsNS);
    var after := ApplyFacts(dom, DiffFacts(x, y));
    assert after.attrsNS == Patched(x.attrsNS, y.attrsNS);
  }

  lemma PropSetAgain(dom: map<string, PropValue>, x: map<string, PropValue>, y: map<string, PropValue>, key: string)
    requires key == "value" || key == "checked"
    ensures var after := dom + DiffProps(x, y);
      && (key in y ==> key in after && after[key] == y[key])
      && (key in x && key !in y ==> key in after && after[key] == if x[key].Str? then Str("") else Null)
  {
    hide Inherited;
    VolatileOwn(key);
  }

  lemma StyleSetAgain(dom: map<string, string>, x: map<string, string>, y: map<string, string>, key: string)
    requires key == "value" || key == "checked"
    ensures key in y ==> key in dom + DiffStyles(x, y) && (dom + DiffStyles(x, y))[key] == y[key]
  {
    hide Inherited;
    VolatileOwn(key);
  }

  lemma AttrSetAgain(dom: map<string, string>, x: map<string, string>, y: map<string, string>, key: string)
    requires key == "value" || key == "checked"
    ensures var after := ApplyAttrs(dom, DiffAttrs(x, y));
      (key in y ==> key in after && after[key] == y[key]) && (key in x && key !in y ==> key !in after)
  {
    hide Inherited;
    VolatileOwn(key);
  }

  /** What the user may have changed is set again, whatever the element shows: to the new value, or to the
      default when the new facts have none. */
  lemma SetAgain(dom: DomFacts, x: Facts, y: Facts, key: string)
    requires key == "value" || key == "checked"
    ensures var after := ApplyFacts(dom, DiffFacts(x, y));
      && (key in y.props ==> key in after.props && after.props[key] == y.props[key])
      && (key in x.props && key !in y.props ==>
        key in after.props && after.props[key] == if x.props[key].Str? then Str("") else Null)
      && (key in y.styles ==> key in after.styles && after.styles[key] == y.styles[key])
      && (key in y.attrs ==> key in after.attrs && after.attrs[key] == y.attrs[key])
      && (key in x.attrs && key !in y.attrs ==> key !in after.attrs)
  {
    hide DiffProps, DiffStyles, DiffAttrs, DiffAttrsNS, ApplyAttrs, ApplyAttrsNS;
    PropSetAgain(dom.props, x.props, y.props, key);
    StyleSetAgain(dom.styles, x.styles, y.styles, key);
    AttrSetAgain(dom.attrs, x.attrs, y.attrs, key);
  }
}
