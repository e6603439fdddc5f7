/** The document aggregator of the legacy `swagger` package
    (swagger/api.go): the first-wins merge of the legacy definitions and an
    `AddEndpoint` with no tag handling. Its `addPath`, `AddTag`,
    `Endpoints.Walk`, `API.Walk`, `clone`, security-scheme options and the
    scheme choice of `Handler` are the root package's code again and are
    modelled once, by `Api`, `Document` and `Swag`. */
module LegacyApi {
  import opened Wrappers
  import opened GoTypes
  import opened Document
  import Api
  import LegacyUtil
  import LegacyReflect
  import Objects

  type Defs = LegacyReflect.Defs

  /** The name the legacy `defineObject` gives a prototype: the legacy
      definition name of a struct, the kind of anything else. */
  function DefinitionName(u: Universe, t: GoType): string {
    var g := Objects.DefinedType(t);
    if g.Struct? then LegacyUtil.MakeName(u, g) else KindString(KindOf(g))
  }

  /** It is the name of the object the legacy `defineObject` builds. */
  lemma DefinitionNameAgrees(u: Universe, t: GoType)
    requires Typed(u) && Closed(u, t)
    ensures LegacyReflect.DefineObject(u, t).name == DefinitionName(u, t)
  {
  }

  /** The definitions hold a prototype's own legacy definition name. */
  predicate Covers(u: Universe, defs: Defs, t: GoType) {
    Closed(u, t) && DefinitionName(u, t) in defs
  }

  /** Coverage survives growth. */
  lemma CoversGrows(u: Universe, defs: Defs, defs': Defs, t: GoType)
    requires Covers(u, defs, t) && Api.Grows(defs, defs')
    ensures Covers(u, defs', t)
  {
  }

  /** Every struct a stored property records has a definition. */
  predicate Complete(u: Universe, defs: Defs) {
    LegacyReflect.Complete(u, defs)
  }

  /** First-wins merging keeps the definitions closed: every struct a stored
      property records still has a definition, whichever side each stored
      object came from. */
  lemma MergeComplete(u: Universe, defs: Defs, d: Defs)
    requires Complete(u, defs) && Complete(u, d)
    ensures Complete(u, Api.Merge(defs, d))
  {
    var r := Api.Merge(defs, d);
    forall n, k | n in r && k in r[n].properties
      ensures r[n].properties[k].goType.Some? && r[n].properties[k].goType.value.Struct? ==>
        LegacyUtil.MakeName(u, r[n].properties[k].goType.value) in r
    {
      if n in defs {
        assert r[n] == defs[n];
      } else {
        assert r[n] == d[n];
      }
    }
  }

  /** One prototype's legacy definitions merged in. The legacy `define`
      cannot panic, so neither can this. `d` is the map `define` returned. */
  method Absorb(u: Universe, defs: Defs, t: GoType) returns (r: Defs, ghost d: Defs)
    requires Typed(u) && Closed(u, t)
    ensures Api.Grows(defs, r) && Covers(u, r, t)
    ensures Complete(u, defs) ==> Complete(u, r)
    ensures LegacyReflect.Defined(u, t, d) && r == Api.Merge(defs, d)
  {
    var m := LegacyReflect.Define(u, t);
    d := m;
    DefinitionNameAgrees(u, t);
    if Complete(u, defs) {
      MergeComplete(u, defs, m);
    }
    r := Api.Merge(defs, m);
  }

  /** The definitions of several prototypes merged in, in order. `ds` holds
      the maps the legacy `define` returned, one per prototype; `define`
      does not read the definitions merged so far, so running it on every
      prototype first and merging afterwards is the same loop. */
  method AbsorbAll(u: Universe, defs: Defs, ts: seq<GoType>) returns (defs': Defs, ghost ds: seq<Defs>)
    requires Typed(u) && forall i | 0 <= i < |ts| :: Closed(u, ts[i])
    ensures Api.Grows(defs, defs')
    ensures forall i | 0 <= i < |ts| :: Covers(u, defs', ts[i])
    ensures Complete(u, defs) ==> Complete(u, defs')
    ensures |ds| == |ts| && AllDefined(u, ts, ds)
    ensures defs' == Api.MergeAll(defs, ds)
  {
    var found := DefineAll(u, ts);
    ds := found;
    defs' := Api.MergeAll(defs, found);
    Api.MergeAllGrows(defs, found);
    MergeAllCovers(u, defs, ts, found);
    if Complete(u, defs) {
      MergeAllComplete(u, defs, ts, found);
    }
  }

  /** `ds[i]` is a map the legacy `define(ts[i])` may return, for every `i`
      below `|ds|`; see `AllDefinedAt`. */
  predicate AllDefined(u: Universe, ts: seq<GoType>, ds: seq<Defs>)
    requires Typed(u)
    decreases |ds|
  {
    |ds| <= |ts| && (|ds| > 0 ==> LegacyReflect.Defined(u, ts[0], ds[0]) && AllDefined(u, ts[1..], ds[1..]))
  }

  lemma {:induction false} AllDefinedAt(u: Universe, ts: seq<GoType>, ds: seq<Defs>)
    requires Typed(u) && AllDefined(u, ts, ds)
    ensures forall i | 0 <= i < |ds| :: LegacyReflect.Defined(u, ts[i], ds[i])
    decreases |ds|
  {
    if |ds| > 0 {
      AllDefinedAt(u, ts[1..], ds[1..]);
      ghost var defined := (t, d) => Typed(u) && LegacyReflect.Defined(u, t, d);
      Api.PairwiseCons(defined, ts, ds[0], ds[1..]);
      assert [ds[0]] + ds[1..] == ds;
    }
  }

  /** The legacy `define` on each prototype in order. */
  method DefineAll(u: Universe, ts: seq<GoType>) returns (ds: seq<Defs>)
    requires Typed(u) && forall i | 0 <= i < |ts| :: Closed(u, ts[i])
    ensures |ds| == |ts| && AllDefined(u, ts, ds)
    decreases |ts|
  {
    if |ts| == 0 {
      return [];
    }
    var d := LegacyReflect.Define(u, ts[0]);
    var rest := DefineAll(u, ts[1..]);
    ds := [d] + rest;
    assert ds[0] == d && ds[1..] == rest;
  }

  /** Merging in what `define` returned for each prototype covers them all. */
  lemma {:induction false} MergeAllCovers(u: Universe, defs: Defs, ts: seq<GoType>, ds: seq<Defs>)
    requires Typed(u) && |ds| == |ts| && AllDefined(u, ts, ds)
    ensures forall i | 0 <= i < |ts| :: Covers(u, Api.MergeAll(defs, ds), ts[i])
    decreases |ds|
  {
    if |ds| > 0 {
      var m := Api.Merge(defs, ds[0]);
      var all := Api.MergeAll(defs, ds);
      assert all == Api.MergeAll(m, ds[1..]);
      DefinitionNameAgrees(u, ts[0]);
      assert Covers(u, m, ts[0]);
      Api.MergeAllGrows(m, ds[1..]);
      CoversGrows(u, m, all, ts[0]);
      MergeAllCovers(u, m, ts[1..], ds[1..]);
      forall i | 0 < i < |ts|
        ensures Covers(u, all, ts[i])
      {
        assert ts[i] == ts[1..][i - 1];
      }
    }
  }

  /** Merging complete maps into complete definitions keeps them complete. */
  lemma {:induction false} MergeAllComplete(u: Universe, defs: Defs, ts: seq<GoType>, ds: seq<Defs>)
    requires Typed(u) && AllDefined(u, ts, ds) && Complete(u, defs)
    ensures Complete(u, Api.MergeAll(defs, ds))
    decreases |ds|
  {
    if |ds| > 0 {
      MergeComplete(u, defs, ds[0]);
      MergeAllComplete(u, Api.Merge(defs, ds[0]), ts[1..], ds[1..]);
    }
  }

  /** `addDefinition(e)` of the legacy package: the legacy definitions of
      every parameter schema, in order, then of every response schema, in
      the map's (arbitrary) order, merged first-wins. */
  method AddDefinition(u: Universe, a: API, e: Endpoint) returns (r: API, ghost codes: seq<string>, ghost ds: seq<Defs>)
    requires Typed(u) && Api.SchemasClosed(u, e)
    ensures r.(definitions := a.definitions) == a
    ensures Api.Grows(a.definitions, r.definitions)
    ensures forall t | t in Api.Prototypes(e) :: Covers(u, r.definitions, t)
    ensures Complete(u, a.definitions) ==> Complete(u, r.definitions)
    ensures forall c :: c in codes <==> c in e.responses
    ensures forall i, j | 0 <= i < j < |codes| :: codes[i] != codes[j]
    ensures var ts := Api.ParamPrototypes(e.parameters) + Api.ResponsePrototypes(e.responses, codes);
      && |ds| == |ts| && AllDefined(u, ts, ds)
      && r.definitions == Api.MergeAll(a.definitions, ds)
  {
    var cs := Api.Codes(e.responses);
    codes := cs;
    var ts := Api.ParamPrototypes(e.parameters) + Api.ResponsePrototypes(e.responses, cs);
    assert forall t :: t in ts <==> t in Api.Prototypes(e);
    var defs;
    defs, ds := AbsorbAll(u, a.definitions, ts);
    forall t | t in Api.Prototypes(e)
      ensures Covers(u, defs, t)
    {
      assert t in ts;
      var i :| 0 <= i < |ts| && ts[i] == t;
    }
    r := a.(definitions := defs);
  }

  /** One endpoint registered: `addPath`, which panics on an unknown method,
      then the legacy `addDefinition`, which never does. */
  method Register(u: Universe, a: API, e: Endpoint) returns (r: Outcome<API>)
    requires Typed(u) && Api.SchemasClosed(u, e)
    ensures r.State().(paths := a.paths, definitions := a.definitions) == a
    ensures r.State().paths == Api.PathEffect(a.paths, e)
    ensures r.State().paths.Keys == a.paths.Keys + {e.path}
    ensures Api.Keeps(a, r.State(), e) && Api.AddsOnly(a, r.State(), e)
    ensures Api.Grows(a.definitions, r.State().definitions)
    ensures r.Panicked? <==> Api.SlotOf(e).None?
    ensures r.Done? ==> Api.Holds(r.value, e, [])
    ensures r.Done? ==> forall t | t in Api.Prototypes(e) :: Covers(u, r.value.definitions, t)
    ensures Complete(u, a.definitions) ==> Complete(u, r.State().definitions)
  {
    var p := Api.AddPath(a, e);
    Api.AddPathFrame(a, e);
    Api.AddPathEffect(a, e);
    if p.Panicked? {
      return p;
    }
    var next: API;
    ghost var codes: seq<string>, ds: seq<Defs>;
    next, codes, ds := AddDefinition(u, p.value, e);
    assert Api.Tagged(e, []) == e;
    r := Done(next);
  }

  /** What the first `k` endpoints registered have done to `a`'s paths: no
      other field changed, every method was known, and the path table is
      what their `addPath` leaves. */
  predicate PathsProgress(a: API, es: seq<Endpoint>, cur: API, k: nat)
    requires k <= |es|
  {
    && cur.(paths := a.paths, definitions := a.definitions) == a
    && (forall i | 0 <= i < k :: Api.SlotOf(es[i]).Some?)
    && cur.paths == Api.PathsAfter(a, es, [], k)
  }

  /** What they have done to its definitions: grown them, covered every
      prototype, kept them closed. */
  predicate DefsProgress(u: Universe, a: API, es: seq<Endpoint>, cur: API, k: nat)
    requires k <= |es|
  {
    && Api.Grows(a.definitions, cur.definitions)
    && (forall i, t | 0 <= i < k && t in Api.Prototypes(es[i]) :: Covers(u, cur.definitions, t))
    && (Complete(u, a.definitions) ==> Complete(u, cur.definitions))
  }

  /** `AddEndpoint(es...)` of the legacy package: each endpoint, untagged,
      registered with `addPath` and then the legacy `addDefinition`. Only an
      unknown method panics, and that stops the loop. */
  method AddEndpoint(u: Universe, a: API, es: seq<Endpoint>) returns (r: Outcome<API>)
    requires Typed(u) && forall i | 0 <= i < |es| :: Api.SchemasClosed(u, es[i])
    ensures r.State().(paths := a.paths, definitions := a.definitions) == a
    ensures a.paths.Keys <= r.State().paths.Keys
    ensures Api.Grows(a.definitions, r.State().definitions)
    ensures r.Panicked? <==> exists i | 0 <= i < |es| :: Api.SlotOf(es[i]).None?
    ensures r.Done? ==> Api.Framed(a, es, |es|, r.value)
    ensures r.Panicked? ==> exists n | 0 < n <= |es| :: PanicsAt(es, n) && Api.Framed(a, es, n, r.state)
    ensures r.Done? ==> forall i | 0 <= i < |es| && Api.LastUpTo(es, i, |es|) :: Api.Holds(r.value, es[i], [])
    ensures r.Done? ==> forall i, t | 0 <= i < |es| && t in Api.Prototypes(es[i]) :: Covers(u, r.value.definitions, t)
    ensures Complete(u, a.definitions) ==> Complete(u, r.State().definitions)
  {
    var d, n := RegisterAll(u, a, es);
    if d.Panicked? {
      PanicFramed(a, es, n - 1, d.state);
      return d;
    }
    DoneFacts(a, es, d.value);
    DoneDefs(u, a, es, d.value);
    r := d;
  }

  /** What a run that registered every endpoint leaves in the definitions. */
  lemma DoneDefs(u: Universe, a: API, es: seq<Endpoint>, s: API)
    requires DefsProgress(u, a, es, s, |es|)
    ensures Api.Grows(a.definitions, s.definitions)
    ensures forall i, t | 0 <= i < |es| && t in Api.Prototypes(es[i]) :: Covers(u, s.definitions, t)
    ensures Complete(u, a.definitions) ==> Complete(u, s.definitions)
  {
  }

  /** A run that registered every endpoint met no unknown method, leaves
      the paths framed by all of them, and holds each endpoint no later one
      replaced. */
  lemma DoneFacts(a: API, es: seq<Endpoint>, s: API)
    requires PathsProgress(a, es, s, |es|)
    ensures !exists i | 0 <= i < |es| :: Api.SlotOf(es[i]).None?
    ensures Api.Framed(a, es, |es|, s)
    ensures forall i | 0 <= i < |es| && Api.LastUpTo(es, i, |es|) :: Api.Holds(s, es[i], [])
  {
    Api.PathsAfterFramed(a, es, [], |es|);
    Api.FramedPaths(a, es, |es|, a.(paths := Api.PathsAfter(a, es, [], |es|)), s);
    Api.PathsAfterHolds(a, es, [], |es|);
    Api.HoldsPaths(a.(paths := Api.PathsAfter(a, es, [], |es|)), s, es, []);
  }

  /** The loop of `AddEndpoint`: every endpoint registered in order until
      one panics; `n` counts the endpoints tried, and the path table is what
      `addPath` of those `n` leaves. */
  method RegisterAll(u: Universe, a: API, es: seq<Endpoint>) returns (r: Outcome<API>, n: nat)
    requires Typed(u) && forall i | 0 <= i < |es| :: Api.SchemasClosed(u, es[i])
    ensures r.Done? ==> n == |es| && PathsProgress(a, es, r.value, n) && DefsProgress(u, a, es, r.value, n)
    ensures r.Panicked? ==> PanicsAt(es, n)
    ensures r.State().paths == Api.PathsAfter(a, es, [], n)
    ensures r.Panicked? ==> r.state.(paths := a.paths, definitions := a.definitions) == a && Api.Grows(a.definitions, r.state.definitions)
    ensures r.Panicked? ==> (Complete(u, a.definitions) ==> Complete(u, r.state.definitions))
  {
    var cur := a;
    var k := 0;
    while k < |es|
      invariant 0 <= k <= |es|
      invariant PathsProgress(a, es, cur, k)
      invariant DefsProgress(u, a, es, cur, k)
    {
      var d := Step(u, a, es, cur, k);
      if d.Panicked? {
        return d, k + 1;
      }
      cur := d.value;
      k := k + 1;
    }
    r, n := Done(cur), k;
  }

  /** A panic at the `k`-th endpoint, the first with an unknown method,
      leaves the paths framed by the first `k + 1`. */
  lemma PanicFramed(a: API, es: seq<Endpoint>, k: nat, s: API)
    requires k < |es| && PanicsAt(es, k + 1)
    requires s.paths == Api.PathsAfter(a, es, [], k + 1)
    ensures exists n | 0 < n <= |es| :: PanicsAt(es, n) && Api.Framed(a, es, n, s)
    ensures exists i | 0 <= i < |es| :: Api.SlotOf(es[i]).None?
    ensures a.paths.Keys <= s.paths.Keys
  {
    Api.PathsAfterFramed(a, es, [], k + 1);
    Api.FramedPaths(a, es, k + 1, a.(paths := Api.PathsAfter(a, es, [], k + 1)), s);
  }

  /** The `n`-th endpoint, counting from one, is the first whose method is
      unknown. */
  predicate PanicsAt(es: seq<Endpoint>, n: nat) {
    0 < n <= |es| && Api.SlotOf(es[n - 1]).None? && forall i | 0 <= i < n - 1 :: Api.SlotOf(es[i]).Some?
  }

  /** The `k`-th endpoint registered. */
  method Step(u: Universe, a: API, es: seq<Endpoint>, cur: API, k: nat) returns (r: Outcome<API>)
    requires Typed(u) && k < |es| && Api.SchemasClosed(u, es[k])
    requires PathsProgress(a, es, cur, k) && DefsProgress(u, a, es, cur, k)
    ensures r.Done? ==> PathsProgress(a, es, r.value, k + 1) && DefsProgress(u, a, es, r.value, k + 1)
    ensures r.Panicked? ==> PanicsAt(es, k + 1)
    ensures r.State().paths == Api.PathsAfter(a, es, [], k + 1)
    ensures r.Panicked? ==> r.state.(paths := a.paths, definitions := a.definitions) == a
    ensures r.Panicked? ==> Api.Grows(a.definitions, r.state.definitions)
    ensures r.Panicked? ==> (Complete(u, a.definitions) ==> Complete(u, r.state.definitions))
  {
    r := Register(u, cur, es[k]);
    assert Api.Tagged(es[k], []) == es[k];
    if r.Done? {
      AdvanceDefs(u, a, es, cur.definitions, r.value, k);
    }
  }

  /** One that grew the definitions, covered the `k`-th endpoint's
      prototypes and kept them closed advances their progress by one. */
  lemma AdvanceDefs(u: Universe, a: API, es: seq<Endpoint>, defs: Defs, next: API, k: nat)
    requires k < |es| && DefsProgress(u, a, es, a.(definitions := defs), k)
    requires Api.Grows(defs, next.definitions)
    requires forall t | t in Api.Prototypes(es[k]) :: Covers(u, next.definitions, t)
    requires Complete(u, defs) ==> Complete(u, next.definitions)
    ensures DefsProgress(u, a, es, next, k + 1)
  {
    KeepCovers(u, es, k, defs, next.definitions);
  }

  /** Coverage of the earlier endpoints' prototypes survives growth. */
  lemma KeepCovers(u: Universe, es: seq<Endpoint>, k: nat, defs: Defs, defs': Defs)
    requires k < |es| && Api.Grows(defs, defs')
    requires forall i, t | 0 <= i < k && t in Api.Prototypes(es[i]) :: Covers(u, defs, t)
    requires forall t | t in Api.Prototypes(es[k]) :: Covers(u, defs', t)
    ensures forall i, t | 0 <= i < k + 1 && t in Api.Prototypes(es[i]) :: Covers(u, defs', t)
  {
    forall i, t | 0 <= i < k + 1 && t in Api.Prototypes(es[i])
      ensures Covers(u, defs', t)
    {
      if i < k {
        CoversGrows(u, defs, defs', t);
      }
    }
  }

  /** `AddEndpointFunc(fs...)` of the legacy package: the functions applied
      in order. Unlike the root package's, it clears no pending tags. */
  function AddEndpointFunc(a: API, fs: seq<API -> API>): (r: API)
    ensures |fs| == 1 ==> r == fs[0](a)
    decreases |fs|
  {
    if |fs| == 0 then a else AddEndpointFunc(fs[0](a), fs[1..])
  }

  /** Applying two lists of functions is applying the first, then the
      second. */
  lemma {:induction false} AddEndpointFuncConcat(a: API, fs: seq<API -> API>, gs: seq<API -> API>)
    ensures AddEndpointFunc(a, fs + gs) == AddEndpointFunc(AddEndpointFunc(a, fs), gs)
    decreases |fs|
  {
    if |fs| > 0 {
      assert (fs + gs)[0] == fs[0];
      assert (fs + gs)[1..] == fs[1..] + gs;
      AddEndpointFuncConcat(fs[0](a), fs[1..], gs);
    } else {
      assert fs + gs == gs;
    }
  }
}
