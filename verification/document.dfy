/** The Swagger document of the root package (api.go) and the records it is
    built from. Go's nil and empty maps serialise alike, so maps here are
    plain Dafny maps; pointers that the code checks for nil are `Option`s. */
module Document {
  import opened Wrappers
  import opened Text
  import opened Schema

  datatype Contact = Contact(email: string)

  datatype License = License(name: string, url: string)

  datatype Info = Info(
    description: string,
    version: string,
    termsOfService: string,
    title: string,
    contact: Option<Contact>,
    license: License)

  /** A security definition. `scopes` is `None` while the Go map is nil. */
  datatype SecurityScheme = SecurityScheme(
    typ: string,
    description: string,
    name: string,
    location: string,
    flow: string,
    authorizationURL: string,
    tokenURL: string,
    scopes: Option<map<string, string>>)

  /** A zero `SecurityScheme`. */
  const ZeroScheme := SecurityScheme("", "", "", "", "", "", "", None)

  /** One requirement: scheme name to scopes; `None` is a nil scope list. */
  type Requirement = map<string, Option<seq<string>>>

  datatype SecurityRequirement = SecurityRequirement(requirements: seq<Requirement>, disableSecurity: bool)

  datatype TagDocs = TagDocs(description: string, url: string)

  datatype Tag = Tag(name: string, description: string, docs: Option<TagDocs>)

  datatype Header = Header(typ: string, format: string, description: string)

  datatype Response = Response(description: string, schema: Option<SchemaRef>, headers: map<string, Header>)

  /** A parameter; `location` is Swagger's `in`. */
  datatype Parameter = Parameter(
    location: string,
    name: string,
    description: string,
    required: bool,
    schema: Option<SchemaRef>,
    typ: string,
    format: string,
    default: string)

  /** An operation. The web handler it may carry is not modelled. */
  datatype Endpoint = Endpoint(
    tags: seq<string>,
    verb: string,
    path: string,
    summary: string,
    description: string,
    operationId: string,
    produces: seq<string>,
    consumes: seq<string>,
    parameters: seq<Parameter>,
    responses: map<string, Response>,
    security: Option<SecurityRequirement>,
    deprecated: bool)

  /** The nine slots of an `Endpoints` record. */
  datatype Method = Delete | Head | Get | Options | Post | Put | Patch | Trace | Connect

  /** The methods in the order `Endpoints.Walk` visits their slots. */
  const WalkOrder: seq<Method> := [Delete, Head, Get, Options, Post, Put, Patch, Trace, Connect]

  /** The `net/http` constant of a method. */
  function MethodName(m: Method): string {
    match m
    case Delete => "DELETE"
    case Head => "HEAD"
    case Get => "GET"
    case Options => "OPTIONS"
    case Post => "POST"
    case Put => "PUT"
    case Patch => "PATCH"
    case Trace => "TRACE"
    case Connect => "CONNECT"
  }

  /** The slot a request method selects: an exact, case-sensitive match
      against the nine constants, as the switch of `Endpoints.ServeHTTP`. */
  function ParseMethod(s: string): Option<Method> {
    FindMethod(s, WalkOrder)
  }

  /** The first of `ms` whose constant is `s`. */
  function FindMethod(s: string, ms: seq<Method>): Option<Method> {
    if |ms| == 0 then None
    else if MethodName(ms[0]) == s then Some(ms[0])
    else FindMethod(s, ms[1..])
  }

  /** No two slots share a constant. */
  lemma MethodNameInjective(m1: Method, m2: Method)
    ensures MethodName(m1) == MethodName(m2) ==> m1 == m2
  {
  }

  /** A constant of one of `ms` is found, as that method. */
  lemma {:induction false} FindMethodComplete(s: string, ms: seq<Method>, m: Method)
    requires m in ms && s == MethodName(m)
    ensures FindMethod(s, ms) == Some(m)
  {
    MethodNameInjective(ms[0], m);
    if ms[0] != m {
      FindMethodComplete(s, ms[1..], m);
    }
  }

  /** A method found is one of `ms`, and `s` is its constant. */
  lemma {:induction false} FindMethodSound(s: string, ms: seq<Method>, m: Method)
    requires FindMethod(s, ms) == Some(m)
    ensures m in ms && MethodName(m) == s
  {
    if MethodName(ms[0]) != s {
      FindMethodSound(s, ms[1..], m);
    }
  }

  /** A method string selects a slot exactly when it is that slot's name. */
  lemma ParseMethodName(s: string, m: Method)
    ensures ParseMethod(s) == Some(m) <==> s == MethodName(m)
  {
    if ParseMethod(s) == Some(m) {
      FindMethodSound(s, WalkOrder, m);
    }
    if s == MethodName(m) {
      FindMethodComplete(s, WalkOrder, m);
    }
  }

  /** Slot lookup does not fold case; registration upper-cases first. */
  lemma ParseMethodCaseSensitive()
    ensures ParseMethod("get") == None
    ensures ParseMethod(ToUpper("get")) == Some(Get)
  {
    assert ToUpper("get") == "GET";
  }

  /** Upper-casing folds long s into ASCII, so that spelling selects a
      slot too; an accented letter keeps a method from matching. */
  lemma ParseMethodFoldsLongS()
    ensures ParseMethod(ToUpper("po\U{017F}t")) == Some(Post)
    ensures ParseMethod(ToUpper("g\U{00E9}t")) == None
  {
    assert ToUpper("po\U{017F}t") == "POST";
    assert ToUpper("g\U{00E9}t") == "G\U{00E9}T";
  }

  /** Upper-casing folds dotless i into ASCII as well. */
  lemma ParseMethodFoldsDotlessI()
    ensures ParseMethod(ToUpper("opt\U{0131}ons")) == Some(Options)
  {
    assert ToUpper("opt\U{0131}ons") == "OPTIONS";
  }

  /** The endpoints of one path: at most one per method. */
  type Endpoints = map<Method, Endpoint>

  /** The position of a method in `WalkOrder`. */
  function Rank(m: Method): (r: nat)
    ensures r < 9 && MethodAt(r) == m
  {
    match m
    case Delete => 0
    case Head => 1
    case Get => 2
    case Options => 3
    case Post => 4
    case Put => 5
    case Patch => 6
    case Trace => 7
    case Connect => 8
  }

  /** The method at a position of `WalkOrder`. */
  function MethodAt(k: nat): (m: Method)
    requires k < 9
    ensures k < |WalkOrder| && WalkOrder[k] == m
  {
    if k == 0 then Delete
    else if k == 1 then Head
    else if k == 2 then Get
    else if k == 3 then Options
    else if k == 4 then Post
    else if k == 5 then Put
    else if k == 6 then Patch
    else if k == 7 then Trace
    else Connect
  }

  /** `Endpoints.Walk`: the filled slots, in `WalkOrder`. */
  function WalkSlots(es: Endpoints): (r: seq<(Method, Endpoint)>)
    ensures forall i, j | 0 <= i < j < |r| :: Rank(r[i].0) < Rank(r[j].0)
    ensures forall i | 0 <= i < |r| :: r[i].0 in es && es[r[i].0] == r[i].1
    ensures forall m | m in es :: (m, es[m]) in r
  {
    var r := WalkFrom(es, 0);
    WalkFromSound(es, 0);
    WalkFromComplete(es, 0);
    assert forall i, j | 0 <= i < j < |r| :: Rank(r[i].0) < Rank(r[j].0);
    assert forall i | 0 <= i < |r| :: r[i].0 in es && es[r[i].0] == r[i].1;
    r
  }

  /** The filled slots from position `k` of `WalkOrder` on. */
  function WalkFrom(es: Endpoints, k: nat): seq<(Method, Endpoint)>
    requires k <= 9
    decreases 9 - k
  {
    if k == 9 then []
    else if MethodAt(k) in es then [(MethodAt(k), es[MethodAt(k)])] + WalkFrom(es, k + 1)
    else WalkFrom(es, k + 1)
  }

  lemma {:induction false} WalkFromSound(es: Endpoints, k: nat)
    requires k <= 9
    ensures forall i | 0 <= i < |WalkFrom(es, k)| ::
      k <= Rank(WalkFrom(es, k)[i].0) && WalkFrom(es, k)[i].0 in es && es[WalkFrom(es, k)[i].0] == WalkFrom(es, k)[i].1
    ensures forall i, j | 0 <= i < j < |WalkFrom(es, k)| :: Rank(WalkFrom(es, k)[i].0) < Rank(WalkFrom(es, k)[j].0)
    decreases 9 - k
  {
    if k < 9 {
      var rest := WalkFrom(es, k + 1);
      WalkFromSound(es, k + 1);
      var m := MethodAt(k);
      assert Rank(m) == k;
      if m in es {
        var r := [(m, es[m])] + rest;
        assert forall i | 0 < i < |r| :: r[i] == rest[i - 1];
      }
    }
  }

  lemma {:induction false} WalkFromComplete(es: Endpoints, k: nat)
    requires k <= 9
    ensures forall m | m in es && k <= Rank(m) :: (m, es[m]) in WalkFrom(es, k)
    decreases 9 - k
  {
    if k < 9 {
      WalkFromComplete(es, k + 1);
      forall m | m in es && k <= Rank(m)
        ensures (m, es[m]) in WalkFrom(es, k)
      {
        if Rank(m) == k {
          assert m == MethodAt(k);
        }
      }
    }
  }

  /** Each filled slot is visited exactly once. */
  lemma WalkSlotsCount(es: Endpoints)
    ensures |WalkSlots(es)| == |es.Keys|
  {
    var r := WalkSlots(es);
    assert KeySet(r) == es.Keys by {
      forall m | m in es ensures m in KeySet(r) {
        var i :| 0 <= i < |r| && r[i] == (m, es[m]);
      }
    }
    DistinctCard(r);
  }

  /** The methods of a list of slots. */
  function KeySet(r: seq<(Method, Endpoint)>): set<Method> {
    set i | 0 <= i < |r| :: r[i].0
  }

  lemma {:induction false} DistinctCard(r: seq<(Method, Endpoint)>)
    requires forall i, j | 0 <= i < j < |r| :: Rank(r[i].0) < Rank(r[j].0)
    ensures |KeySet(r)| == |r|
  {
    if |r| > 0 {
      var t := r[1..];
      assert forall i, j | 0 <= i < j < |t| :: Rank(t[i].0) < Rank(t[j].0) by {
        forall i, j | 0 <= i < j < |t|
          ensures Rank(t[i].0) < Rank(t[j].0)
        {
          assert t[i] == r[i + 1] && t[j] == r[j + 1];
        }
      }
      DistinctCard(t);
      KeySetCons(r);
      HeadFresh(r);
    }
  }

  lemma KeySetCons(r: seq<(Method, Endpoint)>)
    requires |r| > 0
    ensures KeySet(r) == {r[0].0} + KeySet(r[1..])
  {
    var t := r[1..];
    forall m | m in KeySet(r)
      ensures m in {r[0].0} + KeySet(t)
    {
      var i :| 0 <= i < |r| && r[i].0 == m;
      if i > 0 {
        assert t[i - 1].0 == m;
      }
    }
    forall m | m in KeySet(t)
      ensures m in KeySet(r)
    {
      var i :| 0 <= i < |t| && t[i].0 == m;
      assert r[i + 1].0 == m;
    }
  }

  lemma HeadFresh(r: seq<(Method, Endpoint)>)
    requires |r| > 0
    requires forall i, j | 0 <= i < j < |r| :: Rank(r[i].0) < Rank(r[j].0)
    ensures r[0].0 !in KeySet(r[1..])
  {
  }

  /** The top-level document. `pending` holds the tags the last `WithTags`
      set for the next `AddEndpoint`; it is never serialised. */
  datatype API = API(
    swagger: string,
    info: Info,
    basePath: string,
    schemes: seq<string>,
    paths: map<string, Endpoints>,
    definitions: map<string, Object>,
    tags: seq<Tag>,
    host: string,
    securityDefinitions: map<string, SecurityScheme>,
    security: Option<SecurityRequirement>,
    pending: seq<Tag>)

  /** `API.Clone`: the public fields, with the pending tags dropped. */
  function Clone(a: API): (r: API)
    ensures r.pending == []
    ensures r.(pending := a.pending) == a
  {
    a.(pending := [])
  }

  /** The scheme the document handler reports: a non-empty
      `X-Forwarded-Proto` first, then "https" for a TLS connection, then the
      request URL's scheme, and "http" when all are empty. */
  function Scheme(tls: bool, forwardedProto: string, urlScheme: string): (r: string)
    ensures r != ""
    ensures forwardedProto != "" ==> r == forwardedProto
    ensures forwardedProto == "" && tls ==> r == "https"
    ensures forwardedProto == "" && !tls && urlScheme != "" ==> r == urlScheme
    ensures forwardedProto == "" && !tls && urlScheme == "" ==> r == "http"
  {
    var s1 := if tls then "https" else "";
    var s2 := if forwardedProto != "" then forwardedProto else s1;
    var s3 := if s2 == "" then urlScheme else s2;
    if s3 == "" then "http" else s3
  }

  /** The document the handler serves for one request: a clone whose host is
      the request's and whose only scheme is the chosen one. */
  function Served(a: API, tls: bool, forwardedProto: string, urlScheme: string, host: string): (r: API)
    ensures r.host == host && |r.schemes| == 1 && r.schemes[0] == Scheme(tls, forwardedProto, urlScheme)
    ensures r.pending == []
    ensures r.(host := a.host, schemes := a.schemes, pending := a.pending) == a
  {
    Clone(a).(host := host, schemes := [Scheme(tls, forwardedProto, urlScheme)])
  }

  /** Two documents clone alike exactly when they differ at most in their
      pending tags; in particular cloning a clone changes nothing. */
  lemma CloneIgnoresPending(a: API, b: API)
    ensures Clone(a) == Clone(b) <==> a.(pending := b.pending) == b
    ensures Clone(Clone(a)) == Clone(a)
  {
    if Clone(a) == Clone(b) {
      assert Clone(a).(pending := b.pending) == b;
    }
  }

  /** The served document does not depend on the pending tags, and serving
      a served document again gives what serving the original would. */
  lemma ServedIgnoresPending(a: API, tags: seq<Tag>, tls: bool, forwardedProto: string, urlScheme: string, host: string,
                             tls2: bool, forwardedProto2: string, urlScheme2: string, host2: string)
    ensures Served(a.(pending := tags), tls, forwardedProto, urlScheme, host) == Served(a, tls, forwardedProto, urlScheme, host)
    ensures Served(Served(a, tls, forwardedProto, urlScheme, host), tls2, forwardedProto2, urlScheme2, host2)
         == Served(a, tls2, forwardedProto2, urlScheme2, host2)
  {
  }

  /** A reported scheme, forwarded again, is reported unchanged. */
  lemma SchemeForwarded(tls: bool, forwardedProto: string, urlScheme: string, tls2: bool, urlScheme2: string)
    ensures Scheme(tls2, Scheme(tls, forwardedProto, urlScheme), urlScheme2) == Scheme(tls, forwardedProto, urlScheme)
  {
  }
}
