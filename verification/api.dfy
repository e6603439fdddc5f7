/** The document aggregator of the root package (api.go): the path table,
    the first-wins merge of definitions, the one-shot pending tags and the
    walk over every registered endpoint. */
module Api {
  import opened Wrappers
  import opened Text
  import opened GoPath
  import opened GoTypes
  import opened Naming
  import opened Schema
  import opened Objects
  import opened Registry
  import opened Document

  /** The endpoints registered under a path so far; a missing entry reads as
      an empty `Endpoints` record. */
  function SlotsAt(a: API, p: string): Endpoints {
    if p in a.paths then a.paths[p] else map[]
  }

  /** The message of the panic `addPath` raises for an unknown method. */
  function InvalidMethod(verb: string): string {
    "invalid method, " + verb
  }

  /** `addPath(e)`: the path entry is created first; the endpoint then fills
      the slot its upper-cased method names, and an unknown method panics
      with the new entry already in place. */
  function AddPath(a: API, e: Endpoint): (r: Outcome<API>)
    ensures r.State().paths.Keys == a.paths.Keys + {e.path}
    ensures forall p | p in a.paths && p != e.path :: r.State().paths[p] == a.paths[p]
    ensures r.State().(paths := a.paths) == a
    ensures r.Panicked? <==> ParseMethod(ToUpper(e.verb)).None?
    ensures r.Panicked? ==> r.state.paths[e.path] == SlotsAt(a, e.path)
    ensures r.Done? ==>
      var m := ParseMethod(ToUpper(e.verb)).value;
      && m in r.value.paths[e.path] && r.value.paths[e.path][m] == e
      && (forall m' | m' != m :: (m' in r.value.paths[e.path] <==> m' in SlotsAt(a, e.path)))
      && (forall m' | m' != m && m' in SlotsAt(a, e.path) :: r.value.paths[e.path][m'] == SlotsAt(a, e.path)[m'])
  {
    var es := SlotsAt(a, e.path);
    var a1 := a.(paths := a.paths[e.path := es]);
    match ParseMethod(ToUpper(e.verb))
    case None => Panicked(a1, InvalidMethod(e.verb))
    case Some(m) => Done(a.(paths := a.paths[e.path := es[m := e]]))
  }

  /** Re-adding an endpoint for the same path and method overwrites the
      earlier one: the document is as if only the later had been added. */
  lemma AddPathOverwrites(a: API, e1: Endpoint, e2: Endpoint)
    requires e1.path == e2.path && ToUpper(e1.verb) == ToUpper(e2.verb)
    requires AddPath(a, e1).Done?
    ensures AddPath(AddPath(a, e1).value, e2) == AddPath(a, e2)
  {
    var m := ParseMethod(ToUpper(e1.verb)).value;
    var es := SlotsAt(a, e1.path);
    var a1 := AddPath(a, e1).value;
    assert a1 == a.(paths := a.paths[e1.path := es[m := e1]]);
    assert SlotsAt(a1, e1.path) == es[m := e1];
    assert es[m := e1][m := e2] == es[m := e2];
    assert a.paths[e1.path := es[m := e1]][e1.path := es[m := e2]] == a.paths[e1.path := es[m := e2]];
  }

  /** Endpoints for different paths, or different methods, commute. */
  lemma AddPathCommutes(a: API, e1: Endpoint, e2: Endpoint)
    requires e1.path != e2.path || ToUpper(e1.verb) != ToUpper(e2.verb)
    requires AddPath(a, e1).Done? && AddPath(a, e2).Done?
    ensures AddPath(AddPath(a, e1).value, e2) == AddPath(AddPath(a, e2).value, e1)
  {
    if e1.path == e2.path {
      var m1 := ParseMethod(ToUpper(e1.verb)).value;
      var m2 := ParseMethod(ToUpper(e2.verb)).value;
      ParseMethodName(ToUpper(e1.verb), m1);
      ParseMethodName(ToUpper(e2.verb), m2);
      SamePathCommutes(a, e1, e2, m1, m2);
    } else {
      OtherPathsCommute(a, e1, e2);
    }
  }

  lemma SamePathCommutes(a: API, e1: Endpoint, e2: Endpoint, m1: Method, m2: Method)
    requires e1.path == e2.path && m1 != m2
    requires ParseMethod(ToUpper(e1.verb)) == Some(m1) && ParseMethod(ToUpper(e2.verb)) == Some(m2)
    ensures AddPath(AddPath(a, e1).value, e2) == AddPath(AddPath(a, e2).value, e1)
  {
    var es := SlotsAt(a, e1.path);
    var a1 := a.(paths := a.paths[e1.path := es[m1 := e1]]);
    var a2 := a.(paths := a.paths[e1.path := es[m2 := e2]]);
    assert AddPath(a, e1).value == a1;
    assert AddPath(a, e2).value == a2;
    assert SlotsAt(a1, e1.path) == es[m1 := e1];
    assert SlotsAt(a2, e1.path) == es[m2 := e2];
    SlotUpdatesCommute(es, m1, e1, m2, e2);
    assert a1.paths[e1.path := es[m1 := e1][m2 := e2]] == a2.paths[e1.path := es[m2 := e2][m1 := e1]];
  }

  /** Filling two different slots commutes. */
  lemma SlotUpdatesCommute(es: Endpoints, m1: Method, e1: Endpoint, m2: Method, e2: Endpoint)
    requires m1 != m2
    ensures es[m1 := e1][m2 := e2] == es[m2 := e2][m1 := e1]
  {
  }

  lemma OtherPathsCommute(a: API, e1: Endpoint, e2: Endpoint)
    requires e1.path != e2.path
    requires AddPath(a, e1).Done? && AddPath(a, e2).Done?
    ensures AddPath(AddPath(a, e1).value, e2) == AddPath(AddPath(a, e2).value, e1)
  {
    var m1 := ParseMethod(ToUpper(e1.verb)).value;
    var m2 := ParseMethod(ToUpper(e2.verb)).value;
    var es1 := SlotsAt(a, e1.path);
    var es2 := SlotsAt(a, e2.path);
    var a1 := a.(paths := a.paths[e1.path := es1[m1 := e1]]);
    var a2 := a.(paths := a.paths[e2.path := es2[m2 := e2]]);
    assert AddPath(a, e1).value == a1;
    assert AddPath(a, e2).value == a2;
    assert SlotsAt(a1, e2.path) == es2;
    assert SlotsAt(a2, e1.path) == es1;
    assert a1.paths[e2.path := es2[m2 := e2]] == a2.paths[e1.path := es1[m1 := e1]];
  }

  /** The slot `Endpoints.ServeHTTP` serves a request method from, on the
      path table. Unlike registration, the request method is not
      upper-cased. */
  function Lookup(a: API, p: string, requestMethod: string): (r: Option<Endpoint>)
    ensures r.Some? ==> p in a.paths && ParseMethod(requestMethod).Some?
  {
    match ParseMethod(requestMethod)
    case None => None
    case Some(m) => if p in a.paths && m in a.paths[p] then Some(a.paths[p][m]) else None
  }

  /** A registered endpoint is served for its upper-cased method, and for no
      other method name. */
  lemma LookupAfterAddPath(a: API, e: Endpoint, requestMethod: string)
    requires AddPath(a, e).Done?
    ensures requestMethod == ToUpper(e.verb) ==> Lookup(AddPath(a, e).value, e.path, requestMethod) == Some(e)
    ensures Lookup(AddPath(a, e).value, e.path, requestMethod) == Some(e) && Lookup(a, e.path, requestMethod) != Some(e) ==>
      requestMethod == ToUpper(e.verb)
  {
    var m := ParseMethod(ToUpper(e.verb)).value;
    ParseMethodName(ToUpper(e.verb), m);
    if ParseMethod(requestMethod).Some? {
      ParseMethodName(requestMethod, ParseMethod(requestMethod).value);
    }
  }

  /** Merging `d` into `defs` the way `addDefinition` does: a key already
      present keeps its object. */
  function Merge(defs: Defs, d: Defs): (r: Defs)
    ensures r.Keys == defs.Keys + d.Keys
    ensures forall k | k in defs :: r[k] == defs[k]
    ensures forall k | k in d && k !in defs :: r[k] == d[k]
  {
    map k | k in defs.Keys + d.Keys :: if k in defs then defs[k] else d[k]
  }

  /** Merging the same definitions twice changes nothing more. */
  lemma MergeIdempotent(defs: Defs, d: Defs)
    ensures Merge(Merge(defs, d), d) == Merge(defs, d)
  {
  }

  /** First-wins merging is associative, so merging definition maps one by
      one is merging their own first-wins union. */
  lemma MergeAssociative(a: Defs, b: Defs, c: Defs)
    ensures Merge(Merge(a, b), c) == Merge(a, Merge(b, c))
  {
  }

  /** Merging into empty definitions copies; merging nothing keeps. */
  lemma MergeIdentity(d: Defs)
    ensures Merge(map[], d) == d && Merge(d, map[]) == d
  {
  }

  /** The maps `ds` merged into `defs` one after another, first to last. */
  function MergeAll(defs: Defs, ds: seq<Defs>): Defs
    decreases |ds|
  {
    if |ds| == 0 then defs else MergeAll(Merge(defs, ds[0]), ds[1..])
  }

  /** The schema prototypes of a list of parameters, in order. */
  function ParamPrototypes(ps: seq<Parameter>): (r: seq<GoType>)
    ensures forall t :: t in r <==> exists i | 0 <= i < |ps| :: ps[i].schema.Some? && ps[i].schema.value.prototype == t
  {
    if |ps| == 0 then []
    else
      var rest := ParamPrototypes(ps[..|ps| - 1]);
      var last := ps[|ps| - 1];
      assert forall i | 0 <= i < |ps| - 1 :: ps[..|ps| - 1][i] == ps[i];
      rest + (if last.schema.Some? then [last.schema.value.prototype] else [])
  }

  /** The schema prototypes of the responses, visiting the codes in the
      given order. */
  function ResponsePrototypes(rs: map<string, Response>, codes: seq<string>): (r: seq<GoType>)
    requires forall i | 0 <= i < |codes| :: codes[i] in rs
    ensures forall t :: t in r <==> exists i | 0 <= i < |codes| :: rs[codes[i]].schema.Some? && rs[codes[i]].schema.value.prototype == t
  {
    if |codes| == 0 then []
    else
      var rest := ResponsePrototypes(rs, codes[..|codes| - 1]);
      var last := rs[codes[|codes| - 1]];
      assert forall i | 0 <= i < |codes| - 1 :: codes[..|codes| - 1][i] == codes[i];
      rest + (if last.schema.Some? then [last.schema.value.prototype] else [])
  }

  /** The schema prototypes an endpoint carries, from its parameters and its
      responses. */
  function Prototypes(e: Endpoint): set<GoType> {
    (set t | t in ParamPrototypes(e.parameters))
    + (set c | c in e.responses && e.responses[c].schema.Some? :: e.responses[c].schema.value.prototype)
  }

  /** Every prototype an endpoint carries is a type of the program. */
  predicate SchemasClosed(u: Universe, e: Endpoint) {
    forall t | t in Prototypes(e) :: Closed(u, t)
  }

  /** `define(t)` panics: some reachable struct has a property whose Go type
      is nil. */
  predicate Fails(u: Universe, t: GoType)
    requires WellFormed(u)
  {
    Closed(u, t) && exists i | i in Reach(u, t) :: HasNil(BuildProperty(u, i).props)
  }

  /** Registering `e` cannot panic: its method is known and `define`
      handles every type it names. */
  predicate Admits(u: Universe, e: Endpoint)
    requires WellFormed(u)
  {
    SlotOf(e).Some? && forall t | t in Prototypes(e) :: !Fails(u, t)
  }

  /** The definitions cover a prototype: its own object is present and, when
      names are unique, so is every struct it reaches. */
  predicate Covers(u: Universe, defs: Defs, t: GoType)
    requires WellFormed(u)
  {
    && Closed(u, t)
    && DefinitionName(u, t) in defs
    && (NamesInjective(u) ==> Names(u, Reach(u, t)) <= defs.Keys)
  }

  /** The name `defineObject` gives a prototype's own definition. */
  function DefinitionName(u: Universe, t: GoType): string {
    var g := DefinedType(t);
    if g.Struct? then MakeName(u, g) else KindString(KindOf(g))
  }

  lemma DefinitionNameAgrees(u: Universe, t: GoType)
    requires WellFormed(u) && Closed(u, t)
    ensures DefineObject(u, t, "").name == DefinitionName(u, t)
  {
  }

  /** `defs` grows into `defs'` without changing an existing entry. */
  predicate Grows(defs: Defs, defs': Defs) {
    defs.Keys <= defs'.Keys && forall k | k in defs :: defs'[k] == defs[k]
  }

  /** Coverage survives growth. */
  lemma CoversGrows(u: Universe, defs: Defs, defs': Defs, t: GoType)
    requires WellFormed(u) && Covers(u, defs, t) && Grows(defs, defs')
    ensures Covers(u, defs', t)
  {
  }

  /** One prototype's definitions merged in; `None` when `define` panics.
      `d` is the map `define` returned. */
  method Absorb(u: Universe, defs: Defs, t: GoType) returns (r: Option<Defs>, ghost d: Defs)
    requires WellFormed(u) && Closed(u, t)
    ensures r.Some? ==> Grows(defs, r.value) && Covers(u, r.value, t)
    ensures r.Some? ==> Defined(u, t, d) && r.value == Merge(defs, d)
    ensures NamesInjective(u) ==> (r.None? <==> Fails(u, t))
  {
    var o := Define(u, t);
    if o.None? {
      return None, map[];
    }
    d := o.value;
    DefinedCovers(u, defs, t, o.value);
    r := Some(Merge(defs, o.value));
  }

  /** The definitions of several prototypes merged in, in order, up to the
      first one whose `define` panics; `ok` is false after a panic. `ds`
      holds the maps `define` returned, one per prototype before the panic.
      `define` does not read the definitions merged so far, so running it on
      every prototype first and merging afterwards is the same loop. */
  method AbsorbAll(u: Universe, defs: Defs, ts: seq<GoType>) returns (defs': Defs, ok: bool, ghost ds: seq<Defs>)
    requires WellFormed(u) && forall i | 0 <= i < |ts| :: Closed(u, ts[i])
    ensures Grows(defs, defs')
    ensures ok ==> AllCovered(u, defs', ts)
    ensures NamesInjective(u) ==> (!ok <==> AnyFails(u, ts))
    ensures |ds| <= |ts| && (ok <==> |ds| == |ts|)
    ensures AllDefined(u, ts, ds)
    ensures defs' == MergeAll(defs, ds)
    ensures NamesInjective(u) && !ok ==> Fails(u, ts[|ds|])
  {
    var found: seq<Defs>;
    found, ok := DefineAll(u, ts);
    ds := found;
    defs' := MergeAll(defs, found);
    MergeAllGrows(defs, found);
    if ok {
      MergeAllCovers(u, defs, ts, found);
    }
  }

  /** `define` on each prototype in order, up to the first panic. */
  method DefineAll(u: Universe, ts: seq<GoType>) returns (ds: seq<Defs>, ok: bool)
    requires WellFormed(u) && forall i | 0 <= i < |ts| :: Closed(u, ts[i])
    ensures |ds| <= |ts| && (ok <==> |ds| == |ts|)
    ensures AllDefined(u, ts, ds)
    ensures NamesInjective(u) ==> (!ok <==> AnyFails(u, ts))
    ensures NamesInjective(u) && !ok ==> Fails(u, ts[|ds|])
    decreases |ts|
  {
    if |ts| == 0 {
      return [], true;
    }
    var d := Define(u, ts[0]);
    if d.None? {
      return [], false;
    }
    var rest;
    rest, ok := DefineAll(u, ts[1..]);
    ds := [d.value] + rest;
    assert ds[0] == d.value && ds[1..] == rest;
    assert !ok ==> ts[|ds|] == ts[1..][|rest|];
  }

  /** Merging maps in only ever adds entries. */
  lemma {:induction false} MergeAllGrows(defs: Defs, ds: seq<Defs>)
    ensures Grows(defs, MergeAll(defs, ds))
    decreases |ds|
  {
    if |ds| > 0 {
      MergeAllGrows(Merge(defs, ds[0]), ds[1..]);
    }
  }

  /** Merging in what `define` returned for each prototype covers them all. */
  lemma {:induction false} MergeAllCovers(u: Universe, defs: Defs, ts: seq<GoType>, ds: seq<Defs>)
    requires WellFormed(u) && |ds| == |ts| && AllDefined(u, ts, ds)
    ensures AllCovered(u, MergeAll(defs, ds), ts)
    decreases |ds|
  {
    if |ds| > 0 {
      var m := Merge(defs, ds[0]);
      DefinedCovers(u, defs, ts[0], ds[0]);
      MergeAllCovers(u, m, ts[1..], ds[1..]);
      MergeAllGrows(m, ds[1..]);
      CoversGrows(u, m, MergeAll(m, ds[1..]), ts[0]);
    }
  }

  /** A map `define(t)` returned, merged into any definitions, covers `t`. */
  lemma DefinedCovers(u: Universe, defs: Defs, t: GoType, d: Defs)
    requires WellFormed(u) && Defined(u, t, d)
    ensures Covers(u, Merge(defs, d), t)
  {
    DefinitionNameAgrees(u, t);
  }

  /** `ds[i]` is a map `define(ts[i])` may return, for every `i` below
      `|ds|`; see `AllDefinedAt`. */
  predicate AllDefined(u: Universe, ts: seq<GoType>, ds: seq<Defs>)
    requires WellFormed(u)
    decreases |ds|
  {
    |ds| <= |ts| && (|ds| > 0 ==> Defined(u, ts[0], ds[0]) && AllDefined(u, ts[1..], ds[1..]))
  }

  lemma {:induction false} AllDefinedAt(u: Universe, ts: seq<GoType>, ds: seq<Defs>)
    requires WellFormed(u) && AllDefined(u, ts, ds)
    ensures forall i | 0 <= i < |ds| :: Defined(u, ts[i], ds[i])
    decreases |ds|
  {
    if |ds| > 0 {
      AllDefinedAt(u, ts[1..], ds[1..]);
      ghost var defined := (t, d) => WellFormed(u) && Defined(u, t, d);
      PairwiseCons(defined, ts, ds[0], ds[1..]);
      assert [ds[0]] + ds[1..] == ds;
    }
  }

  /** A relation that holds of the heads and, pairwise, of the tails holds
      pairwise of the whole sequences. */
  lemma PairwiseCons<A, B>(rel: (A, B) -> bool, ts: seq<A>, d0: B, rest: seq<B>)
    requires 0 < |ts| && |rest| < |ts|
    requires rel(ts[0], d0)
    requires forall i | 0 <= i < |rest| :: rel(ts[1..][i], rest[i])
    ensures forall i | 0 <= i < |rest| + 1 :: rel(ts[i], ([d0] + rest)[i])
  {
    forall i | 0 < i < |rest| + 1
      ensures rel(ts[i], ([d0] + rest)[i])
    {
      assert ts[i] == ts[1..][i - 1] && ([d0] + rest)[i] == rest[i - 1];
    }
  }


  /** Every prototype of the list is covered. */
  predicate AllCovered(u: Universe, defs: Defs, ts: seq<GoType>)
    requires WellFormed(u)
    decreases |ts|
  {
    |ts| > 0 ==> Covers(u, defs, ts[0]) && AllCovered(u, defs, ts[1..])
  }

  /** Some prototype of the list makes `define` panic. */
  predicate AnyFails(u: Universe, ts: seq<GoType>)
    requires WellFormed(u)
    decreases |ts|
  {
    |ts| > 0 && (Fails(u, ts[0]) || AnyFails(u, ts[1..]))
  }

  lemma {:induction false} AllCoveredAt(u: Universe, defs: Defs, ts: seq<GoType>, t: GoType)
    requires WellFormed(u) && AllCovered(u, defs, ts) && t in ts
    ensures Covers(u, defs, t)
    decreases |ts|
  {
    if ts[0] != t {
      assert t in ts[1..];
      AllCoveredAt(u, defs, ts[1..], t);
    }
  }

  lemma {:induction false} AnyFailsAt(u: Universe, ts: seq<GoType>)
    requires WellFormed(u)
    ensures AnyFails(u, ts) <==> exists t | t in ts :: Fails(u, t)
    decreases |ts|
  {
    if |ts| > 0 {
      AnyFailsAt(u, ts[1..]);
      if exists t | t in ts :: Fails(u, t) {
        var t :| t in ts && Fails(u, t);
        if t != ts[0] {
          assert t in ts[1..];
        }
      }
      if exists t | t in ts[1..] :: Fails(u, t) {
        var t :| t in ts[1..] && Fails(u, t);
        assert t in ts;
      }
    }
  }

  /** The keys of a map, each exactly once, in some order. */
  method Codes(rs: map<string, Response>) returns (codes: seq<string>)
    ensures forall c :: c in codes <==> c in rs
    ensures forall i, j | 0 <= i < j < |codes| :: codes[i] != codes[j]
    ensures |codes| == |rs|
  {
    codes := [];
    var todo := rs.Keys;
    while todo != {}
      invariant todo <= rs.Keys
      invariant forall c :: c in codes <==> c in rs && c !in todo
      invariant forall i, j | 0 <= i < j < |codes| :: codes[i] != codes[j]
      invariant |codes| + |todo| == |rs|
      decreases |todo|
    {
      var c :| c in todo;
      codes := codes + [c];
      todo := todo - {c};
    }
  }

  /** The message of the panic a nil Go type raises inside `define`. */
  const NilDereference: string := "runtime error: invalid memory address or nil pointer dereference"

  /** `addDefinition(e)`: the definitions of every parameter schema, in
      order, then of every response schema, in the map's (arbitrary) order,
      merged first-wins. A panic inside `define` stops the walk with what was
      merged so far. */
  method AddDefinition(u: Universe, a: API, e: Endpoint) returns (r: Outcome<API>, ghost codes: seq<string>, ghost ds: seq<Defs>)
    requires WellFormed(u) && SchemasClosed(u, e)
    ensures r.State().(definitions := a.definitions) == a
    ensures Grows(a.definitions, r.State().definitions)
    ensures r.Done? ==> forall t | t in Prototypes(e) :: Covers(u, r.value.definitions, t)
    ensures NamesInjective(u) ==> (r.Panicked? <==> exists t | t in Prototypes(e) :: Fails(u, t))
    ensures forall c :: c in codes <==> c in e.responses
    ensures forall i, j | 0 <= i < j < |codes| :: codes[i] != codes[j]
    ensures var ts := ParamPrototypes(e.parameters) + ResponsePrototypes(e.responses, codes);
      && |ds| <= |ts| && (r.Done? <==> |ds| == |ts|)
      && AllDefined(u, ts, ds)
      && r.State().definitions == MergeAll(a.definitions, ds)
  {
    var cs := Codes(e.responses);
    codes := cs;
    var ts := ParamPrototypes(e.parameters) + ResponsePrototypes(e.responses, cs);
    assert forall t :: t in ts <==> t in Prototypes(e);
    var defs, ok;
    defs, ok, ds := AbsorbAll(u, a.definitions, ts);
    if ok {
      forall t | t in Prototypes(e)
        ensures Covers(u, defs, t)
      {
        AllCoveredAt(u, defs, ts, t);
      }
    }
    AnyFailsAt(u, ts);
    if ok {
      r := Done(a.(definitions := defs));
    } else {
      r := Panicked(a.(definitions := defs), NilDereference);
    }
  }

  /** The names of tags, in order. */
  function TagNames(ts: seq<Tag>): (r: seq<string>)
    ensures |r| == |ts| && forall i | 0 <= i < |ts| :: r[i] == ts[i].name
  {
    if |ts| == 0 then [] else TagNames(ts[..|ts| - 1]) + [ts[|ts| - 1].name]
  }

  /** The tags of `vs` whose names are not yet among `ts`, appended in
      order; a name repeated within `vs` is appended once. */
  function AppendNew(ts: seq<Tag>, vs: seq<Tag>): (r: seq<Tag>)
    decreases |vs|
  {
    if |vs| == 0 then ts
    else
      var ts' := if vs[0].name in TagNames(ts) then ts else ts + [vs[0]];
      AppendNew(ts', vs[1..])
  }

  /** Tags with pairwise different names. */
  predicate DistinctNames(ts: seq<Tag>) {
    forall i, j | 0 <= i < j < |ts| :: ts[i].name != ts[j].name
  }

  /** `AppendNew` keeps the existing tags in front, only appends tags of
      `vs`, leaves every name of `vs` present, and never duplicates a name
      that was unique. */
  lemma AppendNewFacts(ts: seq<Tag>, vs: seq<Tag>)
    ensures |ts| <= |AppendNew(ts, vs)| && AppendNew(ts, vs)[..|ts|] == ts
    ensures forall i | |ts| <= i < |AppendNew(ts, vs)| :: AppendNew(ts, vs)[i] in vs
    ensures forall v | v in vs :: v.name in TagNames(AppendNew(ts, vs))
    ensures DistinctNames(ts) ==> DistinctNames(AppendNew(ts, vs))
  {
    AppendNewExtends(ts, vs);
    AppendNewCovers(ts, vs);
    AppendNewDistinct(ts, vs);
  }

  lemma {:induction false} AppendNewExtends(ts: seq<Tag>, vs: seq<Tag>)
    ensures |ts| <= |AppendNew(ts, vs)| && AppendNew(ts, vs)[..|ts|] == ts
    ensures forall i | |ts| <= i < |AppendNew(ts, vs)| :: AppendNew(ts, vs)[i] in vs
    decreases |vs|
  {
    if |vs| > 0 {
      var ts' := if vs[0].name in TagNames(ts) then ts else ts + [vs[0]];
      AppendNewExtends(ts', vs[1..]);
      var r := AppendNew(ts, vs);
      assert r == AppendNew(ts', vs[1..]);
      assert r[..|ts|] == ts by {
        assert ts'[..|ts|] == ts;
        assert r[..|ts'|][..|ts|] == r[..|ts|];
      }
      forall i | |ts| <= i < |r|
        ensures r[i] in vs
      {
        if i < |ts'| {
          assert r[i] == ts'[i] == vs[0];
        } else {
          assert r[i] in vs[1..];
        }
      }
    }
  }

  lemma {:induction false} AppendNewCovers(ts: seq<Tag>, vs: seq<Tag>)
    ensures forall v | v in vs :: v.name in TagNames(AppendNew(ts, vs))
    decreases |vs|
  {
    if |vs| > 0 {
      var ts' := if vs[0].name in TagNames(ts) then ts else ts + [vs[0]];
      AppendNewCovers(ts', vs[1..]);
      AppendNewExtends(ts', vs[1..]);
      var r := AppendNew(ts, vs);
      assert r == AppendNew(ts', vs[1..]);
      forall v | v in vs
        ensures v.name in TagNames(r)
      {
        if v == vs[0] {
          var k :| 0 <= k < |ts'| && ts'[k].name == v.name;
          assert r[..|ts'|] == ts';
          assert r[k] == ts'[k];
        } else {
          assert v in vs[1..];
        }
      }
    }
  }

  lemma {:induction false} AppendNewDistinct(ts: seq<Tag>, vs: seq<Tag>)
    ensures DistinctNames(ts) ==> DistinctNames(AppendNew(ts, vs))
    decreases |vs|
  {
    if |vs| > 0 {
      var ts' := if vs[0].name in TagNames(ts) then ts else ts + [vs[0]];
      if DistinctNames(ts) && vs[0].name !in TagNames(ts) {
        forall i | 0 <= i < |ts|
          ensures ts'[i].name != ts'[|ts|].name
        {
          assert TagNames(ts)[i] == ts[i].name;
        }
      }
      AppendNewDistinct(ts', vs[1..]);
    }
  }

  /** Once every name of `vs` is present, appending `vs` again adds
      nothing. */
  lemma {:induction false} AppendNewPresent(ts: seq<Tag>, vs: seq<Tag>)
    requires forall v | v in vs :: v.name in TagNames(ts)
    ensures AppendNew(ts, vs) == ts
    decreases |vs|
  {
    if |vs| > 0 {
      assert vs[0] in vs;
      forall v | v in vs[1..]
        ensures v.name in TagNames(ts)
      {
        assert v in vs;
      }
      AppendNewPresent(ts, vs[1..]);
    }
  }

  /** `WithTags(tags...)`: each tag whose name is new is appended to the
      document's tags, and the whole argument list becomes the pending tags
      of the next `AddEndpoint`. */
  function WithTags(a: API, vs: seq<Tag>): (r: API)
    ensures r.pending == vs
    ensures |a.tags| <= |r.tags| && r.tags[..|a.tags|] == a.tags
    ensures forall i | |a.tags| <= i < |r.tags| :: r.tags[i] in vs
    ensures forall v | v in vs :: v.name in TagNames(r.tags)
    ensures DistinctNames(a.tags) ==> DistinctNames(r.tags)
    ensures r.(tags := a.tags, pending := a.pending) == a
  {
    AppendNewFacts(a.tags, vs);
    a.(tags := AppendNew(a.tags, vs), pending := vs)
  }

  /** Calling `WithTags` twice with the same tags adds no tag the second
      time. */
  lemma WithTagsIdempotent(a: API, vs: seq<Tag>)
    ensures WithTags(WithTags(a, vs), vs) == WithTags(a, vs)
  {
    AppendNewPresent(WithTags(a, vs).tags, vs);
  }

  /** The unit test's sequence: two tags, then one new and one repeated
      name, give three tags. */
  lemma WithTagsExample(a: API)
    requires a.tags == []
    ensures var t1 := Tag("a", "", None);
      var t2 := Tag("b", "", None);
      var t3 := Tag("c", "", None);
      var t2b := Tag("b", "again", None);
      WithTags(WithTags(a, [t1, t2]), [t3, t2b]).tags == [t1, t2, t3]
  {
    var t1 := Tag("a", "", None);
    var t2 := Tag("b", "", None);
    var t3 := Tag("c", "", None);
    var t2b := Tag("b", "again", None);
    AppendNewFirstCall(t1, t2);
    AppendNewSecondCall(t1, t2, t3, t2b);
  }

  lemma AppendNewFirstCall(t1: Tag, t2: Tag)
    requires t1.name == "a" && t2.name == "b"
    ensures AppendNew([], [t1, t2]) == [t1, t2]
  {
    assert TagNames([t1]) == ["a"];
    assert AppendNew([], [t1, t2]) == AppendNew([t1], [t2]);
    assert [t2][1..] == [];
    assert AppendNew([t1], [t2]) == AppendNew([t1, t2], []);
  }

  lemma AppendNewSecondCall(t1: Tag, t2: Tag, t3: Tag, t2b: Tag)
    requires t1.name == "a" && t2.name == "b" && t3.name == "c" && t2b.name == "b"
    ensures AppendNew([t1, t2], [t3, t2b]) == [t1, t2, t3]
  {
    assert TagNames([t1, t2]) == ["a", "b"];
    assert TagNames([t1, t2, t3]) == ["a", "b", "c"];
    assert "c" !in TagNames([t1, t2]);
    assert [t3, t2b][1..] == [t2b];
    assert [t1, t2] + [t3] == [t1, t2, t3];
    assert AppendNew([t1, t2], [t3, t2b]) == AppendNew([t1, t2, t3], [t2b]);
    assert "b" in TagNames([t1, t2, t3]);
    assert [t2b][1..] == [];
    assert AppendNew([t1, t2, t3], [t2b]) == AppendNew([t1, t2, t3], []);
  }

  /** An endpoint with the pending tag names appended to its own. */
  function Tagged(e: Endpoint, names: seq<string>): (r: Endpoint)
    ensures r.tags == e.tags + names && r.(tags := e.tags) == e
  {
    e.(tags := e.tags + names)
  }

  /** The slot an endpoint's method selects. */
  function SlotOf(e: Endpoint): Option<Method> {
    ParseMethod(ToUpper(e.verb))
  }

  /** No later endpoint of `es` than the `i`-th, up to `k`, takes the same
      path and slot. */
  predicate LastUpTo(es: seq<Endpoint>, i: nat, k: nat)
    requires i < |es| && k <= |es|
  {
    forall j | i < j < k :: !(es[j].path == es[i].path && SlotOf(es[j]) == SlotOf(es[i]))
  }

  /** The document holds endpoint `e`, tagged, in its slot. */
  predicate Holds(a: API, e: Endpoint, names: seq<string>) {
    && SlotOf(e).Some? && e.path in a.paths && SlotOf(e).value in a.paths[e.path]
    && a.paths[e.path][SlotOf(e).value] == Tagged(e, names)
  }

  /** One endpoint registered: `addPath`, then `addDefinition`. */
  method Register(u: Universe, a: API, e: Endpoint) returns (r: Outcome<API>)
    requires WellFormed(u) && SchemasClosed(u, e)
    ensures r.State().(paths := a.paths, definitions := a.definitions) == a
    ensures r.State().paths == PathEffect(a.paths, e)
    ensures r.State().paths.Keys == a.paths.Keys + {e.path}
    ensures Keeps(a, r.State(), e) && AddsOnly(a, r.State(), e)
    ensures Grows(a.definitions, r.State().definitions)
    ensures r.Done? ==>
      && SlotOf(e).Some? && e.path in r.value.paths && SlotOf(e).value in r.value.paths[e.path]
      && r.value.paths[e.path][SlotOf(e).value] == e
    ensures r.Done? ==> forall t | t in Prototypes(e) :: Covers(u, r.value.definitions, t)
    ensures NamesInjective(u) && SlotOf(e).Some? && (forall t | t in Prototypes(e) :: !Fails(u, t)) ==> r.Done?
  {
    var p := AddPath(a, e);
    AddPathFrame(a, e);
    AddPathEffect(a, e);
    if p.Panicked? {
      return p;
    }
    ghost var codes: seq<string>, ds: seq<Defs>;
    r, codes, ds := AddDefinition(u, p.value, e);
  }

  /** `AddEndpoint(es...)`: each endpoint, with the pending tag names
      appended, is registered with `addPath` and then `addDefinition`; the
      pending tags are then cleared. A panic stops the loop and leaves the
      pending tags in place. */
  method AddEndpoint(u: Universe, a: API, es: seq<Endpoint>) returns (r: Outcome<API>)
    requires WellFormed(u) && forall i | 0 <= i < |es| :: SchemasClosed(u, es[i])
    ensures r.Done? ==> r.value.pending == []
    ensures r.Panicked? ==> r.state.pending == a.pending
    ensures r.State().(paths := a.paths, definitions := a.definitions, pending := a.pending) == a
    ensures a.paths.Keys <= r.State().paths.Keys
    ensures Grows(a.definitions, r.State().definitions)
    ensures r.Done? ==> Framed(a, es, |es|, r.value)
    ensures r.Panicked? ==> exists n | 0 < n <= |es| :: Framed(a, es, n, r.state)
    ensures r.Done? ==> forall i | 0 <= i < |es| :: SlotOf(es[i]).Some?
    ensures r.Done? ==> forall i | 0 <= i < |es| && LastUpTo(es, i, |es|) :: Holds(r.value, es[i], TagNames(a.pending))
    ensures r.Done? ==> forall i, t | 0 <= i < |es| && t in Prototypes(es[i]) :: Covers(u, r.value.definitions, t)
    ensures NamesInjective(u) && (forall i | 0 <= i < |es| :: SlotOf(es[i]).Some? && forall t | t in Prototypes(es[i]) :: !Fails(u, t)) ==>
      r.Done?
  {
    var names := TagNames(a.pending);
    var d, n := RegisterAll(u, a, es, names);
    PathsAfterFramed(a, es, names, n);
    FramedPaths(a, es, n, a.(paths := PathsAfter(a, es, names, n)), d.State());
    if d.Panicked? {
      return d;
    }
    PathsAfterHolds(a, es, names, n);
    FramedPaths(a, es, n, d.value, d.value.(pending := []));
    r := Done(d.value.(pending := []));
    HoldsPaths(a.(paths := PathsAfter(a, es, names, n)), r.value, es, names);
  }

  /** The loop of `AddEndpoint`: every endpoint, tagged with `names`,
      registered in order until one panics; `n` counts the endpoints tried,
      and the path table is what `addPath` of those `n` leaves. */
  method RegisterAll(u: Universe, a: API, es: seq<Endpoint>, names: seq<string>) returns (r: Outcome<API>, n: nat)
    requires WellFormed(u) && forall i | 0 <= i < |es| :: SchemasClosed(u, es[i])
    ensures r.Done? ==> n == |es| && Progress(u, a, es, names, r.value, |es|)
    ensures r.Panicked? ==> 0 < n <= |es|
    ensures r.State().paths == PathsAfter(a, es, names, n)
    ensures r.Panicked? ==> r.state.(paths := a.paths, definitions := a.definitions) == a && Grows(a.definitions, r.state.definitions)
    ensures NamesInjective(u) && (forall i | 0 <= i < |es| :: Admits(u, es[i])) ==>
      r.Done?
  {
    var cur := a;
    var k := 0;
    while k < |es|
      invariant 0 <= k <= |es|
      invariant Progress(u, a, es, names, cur, k)
    {
      var d := Step(u, a, es, names, cur, k);
      if d.Panicked? {
        return d, k + 1;
      }
      cur := d.value;
      k := k + 1;
    }
    r, n := Done(cur), k;
  }

  /** What the first `k` endpoints registered have done to `a`: the path
      table is what their `addPath` leaves, and the definitions cover every
      type they name. */
  predicate Progress(u: Universe, a: API, es: seq<Endpoint>, names: seq<string>, cur: API, k: nat)
    requires WellFormed(u) && k <= |es|
  {
    && cur.(paths := a.paths, definitions := a.definitions) == a
    && cur.paths == PathsAfter(a, es, names, k)
    && Grows(a.definitions, cur.definitions)
    && (forall i | 0 <= i < k :: SlotOf(es[i]).Some?)
    && (forall i, t | 0 <= i < k && t in Prototypes(es[i]) :: Covers(u, cur.definitions, t))
  }

  /** The `k`-th endpoint, tagged and registered. */
  method Step(u: Universe, a: API, es: seq<Endpoint>, names: seq<string>, cur: API, k: nat) returns (r: Outcome<API>)
    requires WellFormed(u) && k < |es| && SchemasClosed(u, es[k])
    requires Progress(u, a, es, names, cur, k)
    ensures r.Done? ==> Progress(u, a, es, names, r.value, k + 1)
    ensures r.State().paths == PathsAfter(a, es, names, k + 1)
    ensures r.Panicked? ==> r.state.(paths := a.paths, definitions := a.definitions) == a
    ensures r.Panicked? ==> Grows(a.definitions, r.state.definitions)
    ensures NamesInjective(u) && Admits(u, es[k]) ==> r.Done?
  {
    var e := Tagged(es[k], names);
    assert Prototypes(e) == Prototypes(es[k]);
    r := Register(u, cur, e);
    if r.Done? {
      assert SlotOf(e) == SlotOf(es[k]);
      KeepCovers(u, es, k, cur.definitions, r.value.definitions);
    }
  }

  /** The path table the first `k` endpoints leave, when none panicked,
      holds every one of them that no later one replaced. */
  lemma {:induction false} PathsAfterHolds(a: API, es: seq<Endpoint>, names: seq<string>, k: nat)
    requires k <= |es| && forall i | 0 <= i < k :: SlotOf(es[i]).Some?
    ensures forall i | 0 <= i < k && LastUpTo(es, i, k) :: Holds(a.(paths := PathsAfter(a, es, names, k)), es[i], names)
  {
    if k > 0 {
      PathsAfterHolds(a, es, names, k - 1);
      HoldsStep(es, k, names, a.(paths := PathsAfter(a, es, names, k - 1)), a.(paths := PathsAfter(a, es, names, k)));
    }
  }

  /** `addPath` of the `k`-th endpoint, counting from one, when its method
      is known, keeps every earlier endpoint no later one replaced and holds
      the `k`-th. */
  lemma HoldsStep(es: seq<Endpoint>, k: nat, names: seq<string>, cur: API, next: API)
    requires 0 < k <= |es| && SlotOf(es[k - 1]).Some?
    requires next.paths == PathEffect(cur.paths, Tagged(es[k - 1], names))
    requires forall i | 0 <= i < k - 1 && LastUpTo(es, i, k - 1) :: Holds(cur, es[i], names)
    ensures forall i | 0 <= i < k && LastUpTo(es, i, k) :: Holds(next, es[i], names)
  {
    PathEffectHolds(cur, next, es[k - 1], names);
    KeepHolds(es, k - 1, names, cur, next);
  }

  /** `addPath` of an endpoint with a known method holds it and keeps every
      other slot. */
  lemma PathEffectHolds(cur: API, next: API, e: Endpoint, names: seq<string>)
    requires SlotOf(e).Some? && next.paths == PathEffect(cur.paths, Tagged(e, names))
    ensures Holds(next, e, names) && Keeps(cur, next, e)
  {
    assert SlotOf(Tagged(e, names)) == SlotOf(e);
  }

  /** `Holds` reads only the path table. */
  lemma HoldsPaths(s: API, s': API, es: seq<Endpoint>, names: seq<string>)
    requires s'.paths == s.paths
    ensures forall i | 0 <= i < |es| :: Holds(s, es[i], names) == Holds(s', es[i], names)
  {
  }

  /** Registering the `k`-th endpoint keeps every earlier one that no later
      endpoint replaced, and holds the `k`-th. */
  lemma KeepHolds(es: seq<Endpoint>, k: nat, names: seq<string>, cur: API, next: API)
    requires k < |es|
    requires forall i | 0 <= i < k && LastUpTo(es, i, k) :: Holds(cur, es[i], names)
    requires Holds(next, es[k], names)
    requires Keeps(cur, next, es[k])
    ensures forall i | 0 <= i < k + 1 && LastUpTo(es, i, k + 1) :: Holds(next, es[i], names)
  {
    forall i | 0 <= i < k + 1 && LastUpTo(es, i, k + 1)
      ensures Holds(next, es[i], names)
    {
      if i < k {
        assert LastUpTo(es, i, k);
        KeepHoldsOne(es[i], es[k], names, cur, next);
      }
    }
  }

  /** Every slot but the one `e` selects is carried over. */
  predicate Keeps(cur: API, next: API, e: Endpoint) {
    KeepsBut(cur, next, e.path, SlotOf(e))
  }

  /** Every slot but `slot` of `path` is carried over. */
  predicate KeepsBut(cur: API, next: API, path: string, slot: Option<Method>) {
    forall p, m | p in cur.paths && m in cur.paths[p] && !(p == path && slot.Some? && slot.value == m) ::
      p in next.paths && m in next.paths[p] && next.paths[p][m] == cur.paths[p][m]
  }

  lemma KeepHoldsOne(ei: Endpoint, ek: Endpoint, names: seq<string>, cur: API, next: API)
    requires Holds(cur, ei, names) && Keeps(cur, next, ek)
    requires !(ek.path == ei.path && SlotOf(ek) == SlotOf(ei))
    ensures Holds(next, ei, names)
  {
  }

  /** Every slot of `next` was a slot of `cur` or is the one `e` selects. */
  predicate AddsOnly(cur: API, next: API, e: Endpoint) {
    forall p, m | p in next.paths && m in next.paths[p] ::
      (p in cur.paths && m in cur.paths[p]) || (p == e.path && SlotOf(e).Some? && SlotOf(e).value == m)
  }

  /** Whether it succeeds or panics, `addPath` touches only the path and slot
      the endpoint names: it adds that path, keeps every other slot, and
      adds no slot but the endpoint's. */
  lemma AddPathFrame(a: API, e: Endpoint)
    ensures AddPath(a, e).State().paths.Keys == a.paths.Keys + {e.path}
    ensures Keeps(a, AddPath(a, e).State(), e)
    ensures AddsOnly(a, AddPath(a, e).State(), e)
  {
  }

  /** The slots, as path and method, the first `k` endpoints select. */
  function Selected(es: seq<Endpoint>, k: nat): set<(string, Method)>
    requires k <= |es|
  {
    if k == 0 then {}
    else if SlotOf(es[k - 1]).Some? then Selected(es, k - 1) + {(es[k - 1].path, SlotOf(es[k - 1]).value)}
    else Selected(es, k - 1)
  }

  /** The paths of the first `k` endpoints. */
  function PathsOf(es: seq<Endpoint>, k: nat): set<string>
    requires k <= |es|
  {
    if k == 0 then {} else PathsOf(es, k - 1) + {es[k - 1].path}
  }

  /** A slot is selected exactly when one of the first `k` endpoints names
      its path and, upper-cased, its method. */
  lemma {:induction false} SelectedMeans(es: seq<Endpoint>, k: nat, p: string, m: Method)
    requires k <= |es|
    ensures (p, m) in Selected(es, k) <==> exists i | 0 <= i < k :: es[i].path == p && SlotOf(es[i]) == Some(m)
  {
    if k > 0 {
      SelectedMeans(es, k - 1, p, m);
      var last := es[k - 1].path == p && SlotOf(es[k - 1]) == Some(m);
      assert (p, m) in Selected(es, k) <==> (p, m) in Selected(es, k - 1) || last;
      if exists i | 0 <= i < k :: es[i].path == p && SlotOf(es[i]) == Some(m) {
        var i :| 0 <= i < k && es[i].path == p && SlotOf(es[i]) == Some(m);
        assert i < k - 1 ==> exists j | 0 <= j < k - 1 :: es[j].path == p && SlotOf(es[j]) == Some(m);
      }
    }
  }

  /** A path is among those of the first `k` endpoints exactly when one of
      them names it. */
  lemma {:induction false} PathsOfMeans(es: seq<Endpoint>, k: nat, p: string)
    requires k <= |es|
    ensures p in PathsOf(es, k) <==> exists i | 0 <= i < k :: es[i].path == p
  {
    if k > 0 {
      PathsOfMeans(es, k - 1, p);
      if exists i | 0 <= i < k :: es[i].path == p {
        var i :| 0 <= i < k && es[i].path == p;
        assert i < k - 1 ==> exists j | 0 <= j < k - 1 :: es[j].path == p;
      }
    }
  }

  /** What `addPath` leaves in the path table, whether or not it panics. */
  function PathEffect(paths: map<string, Endpoints>, e: Endpoint): map<string, Endpoints> {
    var slots := if e.path in paths then paths[e.path] else map[];
    match SlotOf(e)
    case None => paths[e.path := slots]
    case Some(m) => paths[e.path := slots[m := e]]
  }

  lemma AddPathEffect(a: API, e: Endpoint)
    ensures AddPath(a, e).State().paths == PathEffect(a.paths, e)
  {
  }

  /** The path table after `addPath` of the first `k` endpoints, tagged
      with `names`; the last may have panicked, leaving its path entry. */
  function PathsAfter(a: API, es: seq<Endpoint>, names: seq<string>, k: nat): map<string, Endpoints>
    requires k <= |es|
  {
    if k == 0 then a.paths
    else PathEffect(PathsAfter(a, es, names, k - 1), Tagged(es[k - 1], names))
  }

  /** The path table the first `k` endpoints leave is framed by them. */
  lemma {:induction false} PathsAfterFramed(a: API, es: seq<Endpoint>, names: seq<string>, k: nat)
    requires k <= |es|
    ensures Framed(a, es, k, a.(paths := PathsAfter(a, es, names, k)))
  {
    if k == 0 {
      FramedStart(a, es);
    } else {
      PathsAfterFramed(a, es, names, k - 1);
      FramedStep(a, es, names, k);
    }
  }

  /** `addPath` of the `k`-th endpoint, counting from one, extends the
      frame of the path table by that endpoint. */
  lemma FramedStep(a: API, es: seq<Endpoint>, names: seq<string>, k: nat)
    requires 0 < k <= |es| && Framed(a, es, k - 1, a.(paths := PathsAfter(a, es, names, k - 1)))
    ensures Framed(a, es, k, a.(paths := PathsAfter(a, es, names, k)))
  {
    var cur := a.(paths := PathsAfter(a, es, names, k - 1));
    var next := a.(paths := PathsAfter(a, es, names, k));
    PathsAfterStep(a, es, names, k);
    AdvanceFrame(a, es, k - 1, cur, next);
  }

  /** One more endpoint's `addPath`, tagged or not, adds exactly its path,
      keeps every slot but its own and adds no other. */
  lemma PathsAfterStep(a: API, es: seq<Endpoint>, names: seq<string>, k: nat)
    requires 0 < k <= |es|
    ensures var cur := a.(paths := PathsAfter(a, es, names, k - 1));
      var next := a.(paths := PathsAfter(a, es, names, k));
      next.paths.Keys == cur.paths.Keys + {es[k - 1].path} && Keeps(cur, next, es[k - 1]) && AddsOnly(cur, next, es[k - 1])
  {
    var e := Tagged(es[k - 1], names);
    PathEffectFrame(a.(paths := PathsAfter(a, es, names, k - 1)), e);
    assert e.path == es[k - 1].path && SlotOf(e) == SlotOf(es[k - 1]);
  }

  /** The path table `addPath` leaves adds exactly the endpoint's path,
      keeps every slot but its own and adds no other. */
  lemma PathEffectFrame(cur: API, e: Endpoint)
    ensures var next := cur.(paths := PathEffect(cur.paths, e));
      next.paths.Keys == cur.paths.Keys + {e.path} && Keeps(cur, next, e) && AddsOnly(cur, next, e)
  {
    AddPathFrame(cur, e);
    AddPathEffect(cur, e);
  }

  /** `s` differs from `a` in its paths only where the first `k` endpoints
      reach: its paths are `a`'s and theirs, every slot none of them
      selects is `a`'s, and every slot is `a`'s or one they select. */
  predicate Framed(a: API, es: seq<Endpoint>, k: nat, s: API)
    requires k <= |es|
  {
    && s.paths.Keys == a.paths.Keys + PathsOf(es, k)
    && (forall p, m | p in a.paths && m in a.paths[p] && (p, m) !in Selected(es, k) ::
          p in s.paths && m in s.paths[p] && s.paths[p][m] == a.paths[p][m])
    && (forall p, m | p in s.paths && m in s.paths[p] :: (p in a.paths && m in a.paths[p]) || (p, m) in Selected(es, k))
  }

  /** The frame speaks only of the path table. */
  lemma FramedPaths(a: API, es: seq<Endpoint>, k: nat, s: API, s': API)
    requires k <= |es| && Framed(a, es, k, s) && s'.paths == s.paths
    ensures Framed(a, es, k, s')
  {
  }

  /** Before any endpoint, the document is framed by none. */
  lemma FramedStart(a: API, es: seq<Endpoint>)
    ensures Framed(a, es, 0, a)
  {
  }

  /** A step that adds the `k`-th endpoint's path, keeps every other slot and
      adds no slot but its own extends the frame by that endpoint. */
  lemma AdvanceFrame(a: API, es: seq<Endpoint>, k: nat, cur: API, next: API)
    requires k < |es| && Framed(a, es, k, cur)
    requires next.paths.Keys == cur.paths.Keys + {es[k].path}
    requires Keeps(cur, next, es[k]) && AddsOnly(cur, next, es[k])
    ensures Framed(a, es, k + 1, next)
  {
    FrameKept(a, es, k, cur, next);
    FrameOnly(a, es, k, cur, next);
  }

  /** A slot none of the first `k + 1` endpoints selects survives the step. */
  lemma FrameKept(a: API, es: seq<Endpoint>, k: nat, cur: API, next: API)
    requires k < |es|
    requires forall p, m | p in a.paths && m in a.paths[p] && (p, m) !in Selected(es, k) ::
      p in cur.paths && m in cur.paths[p] && cur.paths[p][m] == a.paths[p][m]
    requires Keeps(cur, next, es[k])
    ensures forall p, m | p in a.paths && m in a.paths[p] && (p, m) !in Selected(es, k + 1) ::
      p in next.paths && m in next.paths[p] && next.paths[p][m] == a.paths[p][m]
  {
    forall p, m | p in a.paths && m in a.paths[p] && (p, m) !in Selected(es, k + 1)
      ensures p in next.paths && m in next.paths[p] && next.paths[p][m] == a.paths[p][m]
    {
      assert (p, m) !in Selected(es, k) && !(p == es[k].path && Some(m) == SlotOf(es[k]));
      assert p in cur.paths && m in cur.paths[p] && cur.paths[p][m] == a.paths[p][m];
    }
  }

  /** After the step, every slot is `a`'s or one of the first `k + 1`
      endpoints selects it. */
  lemma FrameOnly(a: API, es: seq<Endpoint>, k: nat, cur: API, next: API)
    requires k < |es|
    requires forall p, m | p in cur.paths && m in cur.paths[p] :: (p in a.paths && m in a.paths[p]) || (p, m) in Selected(es, k)
    requires AddsOnly(cur, next, es[k])
    ensures forall p, m | p in next.paths && m in next.paths[p] :: (p in a.paths && m in a.paths[p]) || (p, m) in Selected(es, k + 1)
  {
    forall p, m | p in next.paths && m in next.paths[p]
      ensures (p in a.paths && m in a.paths[p]) || (p, m) in Selected(es, k + 1)
    {
      assert (p in cur.paths && m in cur.paths[p]) || (p == es[k].path && SlotOf(es[k]) == Some(m));
    }
  }

  /** Coverage of the earlier endpoints' prototypes survives growth. */
  lemma KeepCovers(u: Universe, es: seq<Endpoint>, k: nat, defs: Defs, defs': Defs)
    requires WellFormed(u) && k < |es| && Grows(defs, defs')
    requires forall i, t | 0 <= i < k && t in Prototypes(es[i]) :: Covers(u, defs, t)
    requires forall t | t in Prototypes(es[k]) :: Covers(u, defs', t)
    ensures forall i, t | 0 <= i < k + 1 && t in Prototypes(es[i]) :: Covers(u, defs', t)
  {
    forall i, t | 0 <= i < k + 1 && t in Prototypes(es[i])
      ensures Covers(u, defs', t)
    {
      if i < k {
        CoversGrows(u, defs, defs', t);
      }
    }
  }

  /** `AddTag(name, description)`: always appends, even a name already
      present. */
  function AddTag(a: API, name: string, description: string): (r: API)
    ensures |r.tags| == |a.tags| + 1 && r.tags[..|a.tags|] == a.tags
    ensures r.tags[|a.tags|] == Tag(name, description, None)
    ensures r.(tags := a.tags) == a
  {
    a.(tags := a.tags + [Tag(name, description, None)])
  }

  /** `AddTag` keeps the tag names distinct exactly when they were and the
      new name is not among them. */
  lemma AddTagDistinct(a: API, name: string, description: string)
    ensures DistinctNames(AddTag(a, name, description).tags) <==> DistinctNames(a.tags) && name !in TagNames(a.tags)
  {
    var ts := AddTag(a, name, description).tags;
    if DistinctNames(ts) {
      forall i, j | 0 <= i < j < |a.tags|
        ensures a.tags[i].name != a.tags[j].name
      {
        assert ts[i] == a.tags[i] && ts[j] == a.tags[j];
      }
      forall i | 0 <= i < |a.tags|
        ensures TagNames(a.tags)[i] != name
      {
        assert ts[i] == a.tags[i] && ts[i].name != ts[|a.tags|].name;
      }
    }
    if DistinctNames(a.tags) && name !in TagNames(a.tags) {
      forall i, j | 0 <= i < j < |ts|
        ensures ts[i].name != ts[j].name
      {
        if j == |a.tags| {
          assert TagNames(a.tags)[i] == a.tags[i].name;
        } else {
          assert ts[i] == a.tags[i] && ts[j] == a.tags[j];
        }
      }
    }
  }

  /** `AddTag` may duplicate a name, which `WithTags` never does. */
  lemma AddTagDuplicates(a: API, name: string)
    requires a.tags == []
    ensures var r := AddTag(AddTag(a, name, ""), name, "");
      |r.tags| == 2 && !DistinctNames(r.tags)
      && WithTags(WithTags(a, [Tag(name, "", None)]), [Tag(name, "", None)]).tags == [Tag(name, "", None)]
  {
    var t := Tag(name, "", None);
    assert TagNames([t]) == [name];
    assert AppendNew([], [t]) == AppendNew([t], []);
    assert AppendNew([t], [t]) == AppendNew([t], []);
  }

  /** One visit of `API.Walk`: a registered endpoint with its joined
      path. */
  predicate Visit(a: API, x: (string, Endpoint)) {
    exists p, m | p in a.paths && m in a.paths[p] :: x == (PathJoin(a.basePath, p), a.paths[p][m])
  }

  /** `API.Walk`: every registered endpoint with its joined path. The paths
      are visited in an arbitrary order `ps`, each exactly once, and the
      slots of each path in walk order. */
  method Walk(a: API) returns (r: seq<(string, Endpoint)>, ghost ps: seq<string>)
    ensures forall p :: p in ps <==> p in a.paths
    ensures forall i, j | 0 <= i < j < |ps| :: ps[i] != ps[j]
    ensures (forall p | p in ps :: p in a.paths) && r == VisitsOf(a, ps)
    ensures forall p, m | p in a.paths && m in a.paths[p] :: (PathJoin(a.basePath, p), a.paths[p][m]) in r
    ensures forall i | 0 <= i < |r| :: Visit(a, r[i])
  {
    r, ps := [], [];
    var todo := a.paths.Keys;
    while todo != {}
      invariant todo <= a.paths.Keys
      invariant forall p :: p in ps <==> p in a.paths && p !in todo
      invariant forall i, j | 0 <= i < j < |ps| :: ps[i] != ps[j]
      invariant r == VisitsOf(a, ps)
      invariant forall p, m | p in a.paths && p !in todo && m in a.paths[p] :: (PathJoin(a.basePath, p), a.paths[p][m]) in r
      invariant forall i | 0 <= i < |r| :: Visit(a, r[i])
      decreases |todo|
    {
      var p :| p in todo;
      var visits := PathVisits(a, p);
      VisitsOfSnoc(a, ps, p);
      r, ps := r + visits, ps + [p];
      todo := todo - {p};
    }
  }

  /** The visits of the paths `ps`, one path after the other. */
  function VisitsOf(a: API, ps: seq<string>): seq<(string, Endpoint)>
    requires forall p | p in ps :: p in a.paths
  {
    if |ps| == 0 then [] else VisitsOf(a, ps[..|ps| - 1]) + PathVisits(a, ps[|ps| - 1])
  }

  lemma VisitsOfSnoc(a: API, ps: seq<string>, p: string)
    requires (forall q | q in ps :: q in a.paths) && p in a.paths
    ensures VisitsOf(a, ps + [p]) == VisitsOf(a, ps) + PathVisits(a, p)
  {
    assert (ps + [p])[..|ps|] == ps;
  }

  /** The visits of one path: each filled slot exactly once, in walk
      order. */
  function PathVisits(a: API, p: string): (r: seq<(string, Endpoint)>)
    requires p in a.paths
    ensures |r| == |WalkSlots(a.paths[p])| == |a.paths[p].Keys|
    ensures forall i | 0 <= i < |r| :: r[i] == (PathJoin(a.basePath, p), WalkSlots(a.paths[p])[i].1)
    ensures forall m | m in a.paths[p] :: (PathJoin(a.basePath, p), a.paths[p][m]) in r
    ensures forall i | 0 <= i < |r| :: Visit(a, r[i])
  {
    var slots := WalkSlots(a.paths[p]);
    var visits := seq(|slots|, i requires 0 <= i < |slots| => (PathJoin(a.basePath, p), slots[i].1));
    WalkSlotsCount(a.paths[p]);
    VisitsComplete(a, p, slots, visits);
    VisitsSound(a, p, slots, visits);
    visits
  }

  lemma VisitsComplete(a: API, p: string, slots: seq<(Method, Endpoint)>, visits: seq<(string, Endpoint)>)
    requires p in a.paths && slots == WalkSlots(a.paths[p])
    requires |visits| == |slots| && forall i | 0 <= i < |slots| :: visits[i] == (PathJoin(a.basePath, p), slots[i].1)
    ensures forall m | m in a.paths[p] :: (PathJoin(a.basePath, p), a.paths[p][m]) in visits
  {
    forall m | m in a.paths[p]
      ensures (PathJoin(a.basePath, p), a.paths[p][m]) in visits
    {
      var i :| 0 <= i < |slots| && slots[i] == (m, a.paths[p][m]);
      assert visits[i] == (PathJoin(a.basePath, p), a.paths[p][m]);
    }
  }

  lemma VisitsSound(a: API, p: string, slots: seq<(Method, Endpoint)>, visits: seq<(string, Endpoint)>)
    requires p in a.paths && slots == WalkSlots(a.paths[p])
    requires |visits| == |slots| && forall i | 0 <= i < |slots| :: visits[i] == (PathJoin(a.basePath, p), slots[i].1)
    ensures forall i | 0 <= i < |visits| :: Visit(a, visits[i])
  {
    forall i | 0 <= i < |visits|
      ensures Visit(a, visits[i])
    {
      assert visits[i] == (PathJoin(a.basePath, p), a.paths[p][slots[i].0]);
    }
  }
}
