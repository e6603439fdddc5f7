/** `define` of the root package (reflect.go): the definitions a prototype
    needs, found by following the struct types its properties record until
    no new name appears. */
module Registry {
  import opened Wrappers
  import opened GoTypes
  import opened Naming
  import opened Schema
  import opened Objects

  /** Definitions by name. */
  type Defs = map<string, Object>

  /** The declared structs a property map refers to through the Go types its
      properties record. */
  function Refs(props: map<string, Property>): set<StructId> {
    set k | k in props && props[k].goType.Some? && props[k].goType.value.Struct? :: props[k].goType.value.id
  }

  /** Some property records no Go type: `define` calls `Kind()` on a nil
      `reflect.Type` and panics. */
  predicate HasNil(props: map<string, Property>) {
    exists k | k in props :: props[k].goType.None?
  }

  /** A set of structs that already holds every struct its members refer to. */
  predicate ClosedUnder(u: Universe, c: set<StructId>)
    requires WellFormed(u)
  {
    c <= u.decls.Keys && forall i | i in c :: Refs(BuildProperty(u, i).props) <= c
  }

  /** The structs the members of `s` refer to directly. */
  function Succ(u: Universe, s: set<StructId>): (r: set<StructId>)
    requires WellFormed(u) && s <= u.decls.Keys
    ensures r <= u.decls.Keys
    ensures forall i | i in s :: Refs(BuildProperty(u, i).props) <= r
  {
    var r := set i, j | i in s && j in Refs(BuildProperty(u, i).props) :: j;
    forall i, j | i in s && j in Refs(BuildProperty(u, i).props)
      ensures j in u.decls
    {
      RefsDeclared(u, BuildProperty(u, i).props, j);
    }
    r
  }

  lemma RefsDeclared(u: Universe, props: map<string, Property>, j: StructId)
    requires ClosedProps(u, props) && j in Refs(props)
    ensures j in u.decls
  {
    var k :| k in props && props[k].goType.Some? && props[k].goType.value.Struct? && props[k].goType.value.id == j;
    assert StructIds(props[k].goType.value) == {j};
  }

  lemma ProperSubsetCard<T>(a: set<T>, b: set<T>)
    requires a < b
    ensures |a| < |b|
  {
    assert b == a + (b - a);
    assert b - a != {};
    assert a * (b - a) == {};
  }

  /** The structs reachable from `s`: `s` and, repeatedly, the structs they
      refer to. It contains `s`, is closed, and lies inside every closed set
      containing `s`. */
  function Saturate(u: Universe, s: set<StructId>): (r: set<StructId>)
    requires WellFormed(u) && s <= u.decls.Keys
    ensures s <= r && ClosedUnder(u, r)
    decreases |u.decls.Keys - s|
  {
    var next := s + Succ(u, s);
    if next == s then s
    else
      ProperSubsetCard(u.decls.Keys - next, u.decls.Keys - s);
      Saturate(u, next)
  }

  /** `Saturate` adds nothing it must not: its result lies inside every
      closed set containing `s`. */
  lemma {:induction false} SaturateLeast(u: Universe, s: set<StructId>, c: set<StructId>)
    requires WellFormed(u) && s <= u.decls.Keys
    requires s <= c && ClosedUnder(u, c)
    ensures Saturate(u, s) <= c
    decreases |u.decls.Keys - s|
  {
    var next := s + Succ(u, s);
    if next != s {
      ProperSubsetCard(u.decls.Keys - next, u.decls.Keys - s);
      assert next <= c;
      SaturateLeast(u, next, c);
    }
  }

  /** The struct the prototype itself defines, if it is one. */
  function RootIds(t: GoType): (r: set<StructId>)
    ensures r == {} || (DefinedType(t).Struct? && r == {DefinedType(t).id})
    ensures r <= StructIds(t)
  {
    if DefinedType(t).Struct? then {DefinedType(t).id} else {}
  }

  /** The structs whose definitions the prototype needs. */
  function Reach(u: Universe, t: GoType): (r: set<StructId>)
    requires WellFormed(u) && Closed(u, t)
    ensures RootIds(t) <= r && ClosedUnder(u, r)
  {
    Saturate(u, RootIds(t))
  }

  /** The definition names of a set of structs. */
  function Names(u: Universe, ids: set<StructId>): set<string> {
    set i | i in ids :: MakeName(u, Struct(i))
  }

  /** Different declared structs get different definition names. The
      naming scheme does not guarantee it: see `MakeNameCollision`. */
  predicate NamesInjective(u: Universe) {
    forall i, j | i in u.decls && j in u.decls && MakeName(u, Struct(i)) == MakeName(u, Struct(j)) :: i == j
  }

  /** What an object in the map is: the definition of a reachable struct,
      with that struct's own properties, or a non-struct without
      properties. */
  predicate Sound(u: Universe, reach: set<StructId>, o: Object)
    requires WellFormed(u)
  {
    && ClosedProps(u, o.properties)
    && (o.goType.Struct? ==>
         && o.goType.id in reach && o.goType.id in u.decls
         && o.properties == BuildProperty(u, o.goType.id).props
         && o.name == MakeName(u, o.goType))
    && (!o.goType.Struct? ==> o.properties == map[])
  }

  /** The object stored under `n` was added for a property of some stored
      object that records its type, and carries that property's
      description. */
  predicate Referred(m: Defs, n: string)
    requires n in m
  {
    exists n1, k | n1 in m && k in m[n1].properties ::
      m[n1].properties[k].goType == Some(m[n].goType) && m[n1].properties[k].description == m[n].description
  }

  /** The loop invariant of `define`. */
  predicate Inv(u: Universe, t: GoType, m: Defs)
    requires WellFormed(u) && Closed(u, t)
  {
    InvParts(u, Reach(u, t), DefineObject(u, t, ""), m)
  }

  /** The invariant for a given set of reachable structs and root object:
      the root is stored under its name, every object under its own name,
      every object is sound, and every other object is the definition of a
      struct, added for a property that refers to it. */
  predicate InvParts(u: Universe, reach: set<StructId>, root: Object, m: Defs)
    requires WellFormed(u)
  {
    && root.name in m && m[root.name] == root
    && (forall n | n in m :: m[n].name == n)
    && (forall n | n in m :: Sound(u, reach, m[n]))
    && Children(u, root.name, m)
  }

  predicate Children(u: Universe, rootName: string, m: Defs)
    requires WellFormed(u)
  {
    forall n | n in m && n != rootName ::
      && m[n].goType.Struct? && m[n].goType.id in u.decls
      && m[n] == DefineObject(u, m[n].goType, m[n].description)
      && Referred(m, n)
  }

  /** A property of a stored object refers to a struct with no definition
      yet. */
  predicate Pending(u: Universe, m: Defs, n: string, k: string) {
    && n in m && k in m[n].properties
    && m[n].properties[k].goType.Some? && m[n].properties[k].goType.value.Struct?
    && MakeName(u, m[n].properties[k].goType.value) !in m
  }

  /** Every struct a stored property refers to has a definition. */
  predicate Complete(u: Universe, m: Defs) {
    forall n, k | n in m && k in m[n].properties ::
      m[n].properties[k].goType.Some? && m[n].properties[k].goType.value.Struct? ==>
        MakeName(u, m[n].properties[k].goType.value) in m
  }

  /** Every name `define` can store. */
  function AllNames(u: Universe, t: GoType): set<string>
    requires WellFormed(u) && Closed(u, t)
  {
    {DefineObject(u, t, "").name} + Names(u, u.decls.Keys)
  }

  /** What `define(t)` promises of a map it returns: the prototype's own
      object and the definitions of the structs it reaches, each the object
      `defineObject` builds, closed under references, free of untyped
      properties, and under no name but those. */
  predicate Defined(u: Universe, t: GoType, d: Defs)
    requires WellFormed(u)
  {
    && Closed(u, t)
    && Inv(u, t, d) && Complete(u, d)
    && (forall n | n in d :: !HasNil(d[n].properties))
    && d.Keys <= {DefineObject(u, t, "").name} + Names(u, Reach(u, t))
    && (NamesInjective(u) ==> d.Keys == {DefineObject(u, t, "").name} + Names(u, Reach(u, t)))
  }

  /** `define(v)`: starting from the prototype's own definition, add the
      definition of every struct some stored property refers to, in any
      order, until none is missing. A property without a Go type makes the
      source panic, which is `None` here. */
  method Define(u: Universe, t: GoType) returns (r: Option<Defs>)
    requires WellFormed(u) && Closed(u, t)
    ensures r.Some? ==> Inv(u, t, r.value) && Complete(u, r.value)
    ensures r.Some? ==> forall n | n in r.value :: !HasNil(r.value[n].properties)
    ensures r.Some? ==> r.value.Keys <= {DefineObject(u, t, "").name} + Names(u, Reach(u, t))
    ensures NamesInjective(u) ==>
      (r.None? <==> exists i | i in Reach(u, t) :: HasNil(BuildProperty(u, i).props))
    ensures NamesInjective(u) && r.Some? ==>
      r.value.Keys == {DefineObject(u, t, "").name} + Names(u, Reach(u, t))
    ensures r.Some? ==> Defined(u, t, r.value)
  {
    var root := DefineObject(u, t, "");
    var m := map[root.name := root];
    RootSound(u, t);
    while exists n, k | n in m && k in m[n].properties :: Pending(u, m, n, k)
      invariant Inv(u, t, m)
      invariant m.Keys <= AllNames(u, t)
      decreases |AllNames(u, t) - m.Keys|
    {
      var n, k :| n in m && k in m[n].properties && Pending(u, m, n, k);
      var m' := Grow(u, t, m, n, k);
      ProperSubsetCard(AllNames(u, t) - m'.Keys, AllNames(u, t) - m.Keys);
      m := m';
    }
    DefineDone(u, t, m);
    if exists n | n in m :: HasNil(m[n].properties) {
      r := None;
    } else {
      r := Some(m);
    }
  }

  /** What the map holds once no property is pending. */
  lemma DefineDone(u: Universe, t: GoType, m: Defs)
    requires WellFormed(u) && Closed(u, t) && Inv(u, t, m)
    requires !exists n, k | n in m && k in m[n].properties :: Pending(u, m, n, k)
    ensures Complete(u, m)
    ensures m.Keys <= {DefineObject(u, t, "").name} + Names(u, Reach(u, t))
    ensures NamesInjective(u) ==>
      ((exists n | n in m :: HasNil(m[n].properties)) <==> exists i | i in Reach(u, t) :: HasNil(BuildProperty(u, i).props))
    ensures NamesInjective(u) ==> m.Keys == {DefineObject(u, t, "").name} + Names(u, Reach(u, t))
  {
    var top := {DefineObject(u, t, "").name} + Names(u, Reach(u, t));
    assert Complete(u, m) by { NoPendingComplete(u, m); }
    assert m.Keys <= top by { KeysReached(u, t, m); }
    if NamesInjective(u) {
      assert top <= m.Keys by { ReachedKeys(u, t, m); }
      NilReached(u, t, m);
    }
  }

  lemma NoPendingComplete(u: Universe, m: Defs)
    requires !exists n, k | n in m && k in m[n].properties :: Pending(u, m, n, k)
    ensures Complete(u, m)
  {
    forall n, k | n in m && k in m[n].properties
      ensures m[n].properties[k].goType.Some? && m[n].properties[k].goType.value.Struct? ==>
        MakeName(u, m[n].properties[k].goType.value) in m
    {
      assert !Pending(u, m, n, k);
    }
  }

  lemma RootSound(u: Universe, t: GoType)
    requires WellFormed(u) && Closed(u, t)
    ensures Inv(u, t, map[DefineObject(u, t, "").name := DefineObject(u, t, "")])
  {
    var root := DefineObject(u, t, "");
    if root.goType.Struct? {
      assert root.goType.id in RootIds(t);
    }
  }

  /** One turn of the loop: define the struct a pending property refers to,
      with that property's description. */
  function Grow(u: Universe, t: GoType, m: Defs, n: string, k: string): (m': Defs)
    requires WellFormed(u) && Closed(u, t) && Inv(u, t, m) && m.Keys <= AllNames(u, t)
    requires Pending(u, m, n, k)
    ensures Inv(u, t, m') && m'.Keys <= AllNames(u, t)
    ensures m.Keys < m'.Keys
  {
    GrowSound(u, t, m, n, k);
    var p := m[n].properties[k];
    var child := DefineObject(u, p.goType.value, p.description);
    var m' := m[child.name := child];
    GrowInv(u, t, m, n, k, child, m');
    m'
  }

  lemma GrowInv(u: Universe, t: GoType, m: Defs, n: string, k: string, child: Object, m': Defs)
    requires WellFormed(u) && Closed(u, t) && Inv(u, t, m) && m.Keys <= AllNames(u, t)
    requires Pending(u, m, n, k)
    requires Closed(u, m[n].properties[k].goType.value)
    requires child == DefineObject(u, m[n].properties[k].goType.value, m[n].properties[k].description)
    requires Sound(u, Reach(u, t), child)
    requires m' == m[child.name := child]
    ensures Inv(u, t, m') && m'.Keys <= AllNames(u, t)
    ensures m.Keys < m'.Keys
  {
    var root := DefineObject(u, t, "");
    var g := m[n].properties[k].goType.value;
    assert child.name == MakeName(u, g) && child.name !in m;
    assert child.name in Names(u, u.decls.Keys);
    GrowParts(u, Reach(u, t), root, m, n, k, child, m');
  }

  lemma GrowParts(u: Universe, reach: set<StructId>, root: Object, m: Defs, n: string, k: string, child: Object, m': Defs)
    requires WellFormed(u) && InvParts(u, reach, root, m)
    requires n in m && k in m[n].properties && child.name !in m
    requires m[n].properties[k].goType == Some(child.goType)
    requires m[n].properties[k].description == child.description
    requires child.goType.Struct? && child.goType.id in u.decls
    requires child == DefineObject(u, child.goType, child.description)
    requires Sound(u, reach, child)
    requires m' == m[child.name := child]
    ensures InvParts(u, reach, root, m')
  {
    assert m'[root.name] == root;
    GrowSoundAll(u, reach, m, child, m');
    GrowReferred(m, root.name, n, k, child, m');
    GrowDefined(u, root.name, m, child, m');
  }

  lemma GrowSoundAll(u: Universe, reach: set<StructId>, m: Defs, child: Object, m': Defs)
    requires WellFormed(u)
    requires forall x | x in m :: m[x].name == x && Sound(u, reach, m[x])
    requires Sound(u, reach, child) && m' == m[child.name := child]
    ensures forall x | x in m' :: m'[x].name == x && Sound(u, reach, m'[x])
  {
  }

  lemma GrowDefined(u: Universe, rootName: string, m: Defs, child: Object, m': Defs)
    requires WellFormed(u)
    requires forall x | x in m && x != rootName ::
      m[x].goType.Struct? && m[x].goType.id in u.decls && m[x] == DefineObject(u, m[x].goType, m[x].description)
    requires child.goType.Struct? && child.goType.id in u.decls
    requires child == DefineObject(u, child.goType, child.description)
    requires m' == m[child.name := child]
    ensures forall x | x in m' && x != rootName ::
      m'[x].goType.Struct? && m'[x].goType.id in u.decls && m'[x] == DefineObject(u, m'[x].goType, m'[x].description)
  {
    forall x | x in m' && x != rootName
      ensures m'[x].goType.Struct? && m'[x].goType.id in u.decls
      ensures m'[x] == DefineObject(u, m'[x].goType, m'[x].description)
    {
      if x != child.name {
        assert m'[x] == m[x];
      }
    }
  }

  lemma GrowSound(u: Universe, t: GoType, m: Defs, n: string, k: string)
    requires WellFormed(u) && Closed(u, t) && Inv(u, t, m)
    requires Pending(u, m, n, k)
    ensures Closed(u, m[n].properties[k].goType.value)
    ensures Sound(u, Reach(u, t), DefineObject(u, m[n].properties[k].goType.value, m[n].properties[k].description))
  {
    var o := m[n];
    var g := o.properties[k].goType.value;
    assert o.goType.Struct?;
    assert g.id in Refs(o.properties);
    assert ClosedUnder(u, Reach(u, t));
  }

  lemma GrowReferred(m: Defs, rootName: string, n: string, k: string, child: Object, m': Defs)
    requires forall x | x in m && x != rootName :: Referred(m, x)
    requires n in m && k in m[n].properties && child.name !in m
    requires m[n].properties[k].goType == Some(child.goType)
    requires m[n].properties[k].description == child.description
    requires m' == m[child.name := child]
    ensures forall x | x in m' && x != rootName :: Referred(m', x)
  {
    forall x | x in m' && x != rootName
      ensures Referred(m', x)
    {
      if x == child.name {
        assert m'[n] == m[n];
        assert m'[n].properties[k].goType == Some(m'[x].goType);
      } else {
        ReferredGrows(m, x, child.name, child);
      }
    }
  }

  lemma ReferredGrows(m: Defs, x: string, name: string, o: Object)
    requires x in m && x != name && name !in m && Referred(m, x)
    ensures Referred(m[name := o], x)
  {
    var m' := m[name := o];
    var n1, k1 :| n1 in m && k1 in m[n1].properties &&
      m[n1].properties[k1].goType == Some(m[x].goType) && m[n1].properties[k1].description == m[x].description;
    assert m'[n1] == m[n1] && m'[x] == m[x];
    assert n1 in m' && k1 in m'[n1].properties;
  }

  /** Every stored name is the prototype's or that of a reachable struct. */
  lemma KeysReached(u: Universe, t: GoType, m: Defs)
    requires WellFormed(u) && Closed(u, t) && Inv(u, t, m)
    ensures m.Keys <= {DefineObject(u, t, "").name} + Names(u, Reach(u, t))
  {
    forall n | n in m && n != DefineObject(u, t, "").name
      ensures n in Names(u, Reach(u, t))
    {
      assert Sound(u, Reach(u, t), m[n]);
    }
  }

  /** The structs whose definition is stored under their own name. */
  function Stored(u: Universe, m: Defs): set<StructId> {
    set i | i in u.decls && MakeName(u, Struct(i)) in m && m[MakeName(u, Struct(i))].goType == Struct(i)
  }

  /** With distinct names, a complete map holds the definition of every
      reachable struct. */
  lemma ReachedKeys(u: Universe, t: GoType, m: Defs)
    requires WellFormed(u) && Closed(u, t) && Inv(u, t, m) && Complete(u, m) && NamesInjective(u)
    ensures Reach(u, t) <= Stored(u, m)
    ensures {DefineObject(u, t, "").name} + Names(u, Reach(u, t)) <= m.Keys
  {
    var reach := Reach(u, t);
    InvNamed(u, t, m);
    StoredClosed(u, reach, m);
    RootStored(u, t, m, DefineObject(u, t, ""));
    SaturateLeast(u, RootIds(t), Stored(u, m));
    NamesStored(u, reach, m);
  }

  lemma RootStored(u: Universe, t: GoType, m: Defs, root: Object)
    requires WellFormed(u) && Closed(u, t) && root == DefineObject(u, t, "")
    requires root.name in m && m[root.name] == root
    ensures RootIds(t) <= Stored(u, m)
  {
    if root.goType.Struct? {
      var i := root.goType.id;
      assert root.goType == Struct(i);
      assert i in Stored(u, m);
    }
  }

  lemma NamesStored(u: Universe, ids: set<StructId>, m: Defs)
    requires ids <= Stored(u, m)
    ensures Names(u, ids) <= m.Keys
  {
    forall x | x in Names(u, ids)
      ensures x in m
    {
      var i :| i in ids && x == MakeName(u, Struct(i));
      assert i in Stored(u, m);
    }
  }

  /** Every object is stored under its own name and is sound, and only
      struct definitions have a dot in their name. */
  predicate Named(u: Universe, reach: set<StructId>, m: Defs)
    requires WellFormed(u)
  {
    forall n | n in m :: m[n].name == n && Sound(u, reach, m[n]) && (!m[n].goType.Struct? ==> '.' !in n)
  }

  lemma InvNamed(u: Universe, t: GoType, m: Defs)
    requires WellFormed(u) && Closed(u, t) && Inv(u, t, m)
    ensures Named(u, Reach(u, t), m)
  {
    DefineObjectNameDot(u, t, "");
  }

  /** The stored structs are closed under reference. */
  lemma StoredClosed(u: Universe, reach: set<StructId>, m: Defs)
    requires WellFormed(u) && Named(u, reach, m) && Complete(u, m) && NamesInjective(u)
    ensures ClosedUnder(u, Stored(u, m))
  {
    forall i | i in Stored(u, m)
      ensures Refs(BuildProperty(u, i).props) <= Stored(u, m)
    {
      StoredStep(u, reach, m, i);
    }
  }

  lemma StoredStep(u: Universe, reach: set<StructId>, m: Defs, i: StructId)
    requires WellFormed(u) && Named(u, reach, m) && Complete(u, m) && NamesInjective(u)
    requires i in Stored(u, m)
    ensures Refs(BuildProperty(u, i).props) <= Stored(u, m)
  {
    var o := m[MakeName(u, Struct(i))];
    assert Sound(u, reach, o);
    forall j | j in Refs(BuildProperty(u, i).props)
      ensures j in Stored(u, m)
    {
      var k :| k in o.properties && o.properties[k].goType == Some(Struct(j));
      assert MakeName(u, Struct(j)) in m;
      RefsDeclared(u, o.properties, j);
      StoredAt(u, reach, m, j);
    }
  }

  /** With distinct names, the object stored under a struct's name is that
      struct's definition. */
  lemma StoredAt(u: Universe, reach: set<StructId>, m: Defs, j: StructId)
    requires WellFormed(u) && Named(u, reach, m) && NamesInjective(u)
    requires j in u.decls && MakeName(u, Struct(j)) in m
    ensures m[MakeName(u, Struct(j))].goType == Struct(j)
  {
    var name := MakeName(u, Struct(j));
    var o := m[name];
    assert o.goType.Struct?;
    assert MakeName(u, o.goType) == name;
  }

  /** With distinct names, a stored object has a property without a Go type
      exactly when some reachable struct does. */
  lemma NilReached(u: Universe, t: GoType, m: Defs)
    requires WellFormed(u) && Closed(u, t) && Inv(u, t, m) && Complete(u, m) && NamesInjective(u)
    ensures (exists n | n in m :: HasNil(m[n].properties)) <==> exists i | i in Reach(u, t) :: HasNil(BuildProperty(u, i).props)
  {
    if exists n | n in m :: HasNil(m[n].properties) {
      var n :| n in m && HasNil(m[n].properties);
      StoredNil(u, t, m, n);
    }
    if exists i | i in Reach(u, t) :: HasNil(BuildProperty(u, i).props) {
      var i :| i in Reach(u, t) && HasNil(BuildProperty(u, i).props);
      ReachedNil(u, t, m, i);
    }
  }

  lemma StoredNil(u: Universe, t: GoType, m: Defs, n: string)
    requires WellFormed(u) && Closed(u, t) && Inv(u, t, m)
    requires n in m && HasNil(m[n].properties)
    ensures exists i | i in Reach(u, t) :: HasNil(BuildProperty(u, i).props)
  {
    assert Sound(u, Reach(u, t), m[n]);
    var i := m[n].goType.id;
    assert HasNil(BuildProperty(u, i).props);
  }

  lemma ReachedNil(u: Universe, t: GoType, m: Defs, i: StructId)
    requires WellFormed(u) && Closed(u, t) && Inv(u, t, m) && Complete(u, m) && NamesInjective(u)
    requires i in Reach(u, t) && HasNil(BuildProperty(u, i).props)
    ensures exists n | n in m :: HasNil(m[n].properties)
  {
    ReachedKeys(u, t, m);
    assert i in Stored(u, m);
    var n := MakeName(u, Struct(i));
    assert Sound(u, Reach(u, t), m[n]);
    assert HasNil(m[n].properties);
  }

  /** Definition names keep only the last element of the package path, so
      two structs of the same name in packages `a/model` and `b/model` (or
      `my-pkg` and `my_pkg`) share one definition, and `define` keeps
      whichever it meets first. */
  lemma MakeNameCollision(u: Universe, i: StructId, j: StructId)
    requires i in u.decls && j in u.decls && i != j
    requires u.decls[i].named.Some? && u.decls[j].named.Some?
    requires u.decls[i].named.value.name == u.decls[j].named.value.name != ""
    requires GoPath.Base(u.decls[i].named.value.pkgPath) == GoPath.Base(u.decls[j].named.value.pkgPath)
    ensures MakeName(u, Struct(i)) == MakeName(u, Struct(j))
    ensures !NamesInjective(u)
  {
    assert LocalName(u, Struct(i)) == LocalName(u, Struct(j));
    assert PkgBase(u, Struct(i)) == PkgBase(u, Struct(j));
  }
}
