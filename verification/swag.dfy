/** The document builder's options: the constructors and setters of swag.go
    and of the option package (option/option.go, option/security.go,
    option/tag.go), written as datatypes of options and the functions that
    apply them. */
module Swag {
  import opened Wrappers
  import opened GoTypes
  import opened Registry
  import opened Document
  import opened Api

  /** An option of a security scheme (`SecuritySchemeOption`). */
  datatype SchemeOption =
    | SchemeDescription(description: string)
    | BasicAuth
    | APIKey(name: string, location: string)
    | OAuth2Scope(scope: string, description: string)
    | OAuth2(flow: string, authorizationURL: string, tokenURL: string)

  /** The two places an API key may travel. */
  predicate ValidKeyLocation(location: string) {
    location == "header" || location == "query"
  }

  /** `option.APIKeySecurity(name, in)`: the location is checked when the
      option is built, before it is applied; `None` stands for the panic. */
  function APIKeySecurityOption(name: string, location: string): (r: Option<SchemeOption>)
    ensures r.Some? <==> ValidKeyLocation(location)
    ensures r.Some? ==> r.value == APIKey(name, location)
  {
    if location != "header" && location != "query" then None else Some(APIKey(name, location))
  }

  /** One scheme option applied. */
  function ApplyScheme(s: SecurityScheme, o: SchemeOption): (r: SecurityScheme)
    ensures o.SchemeDescription? ==> r == s.(description := o.description)
    ensures o.BasicAuth? ==> r == s.(typ := "basic")
    ensures o.APIKey? ==> r == s.(typ := "apiKey", name := o.name, location := o.location)
    ensures o.OAuth2Scope? ==>
      && r.scopes.Some? && r.scopes.value == s.scopes.GetOr(map[])[o.scope := o.description]
      && r.(scopes := s.scopes) == s
    ensures o.OAuth2? ==>
      && r.typ == "oauth2" && r.flow == o.flow && r.authorizationURL == o.authorizationURL && r.tokenURL == o.tokenURL
      && r.scopes == Some(s.scopes.GetOr(map[]))
      && r.(typ := s.typ, flow := s.flow, authorizationURL := s.authorizationURL, tokenURL := s.tokenURL, scopes := s.scopes) == s
  {
    match o
    case SchemeDescription(d) => s.(description := d)
    case BasicAuth => s.(typ := "basic")
    case APIKey(n, l) => s.(typ := "apiKey", name := n, location := l)
    case OAuth2Scope(scope, d) =>
      var m := if s.scopes.Some? then s.scopes.value else map[];
      s.(scopes := Some(m[scope := d]))
    case OAuth2(f, au, tu) =>
      var m := if s.scopes.Some? then s.scopes.value else map[];
      s.(typ := "oauth2", flow := f, authorizationURL := au, tokenURL := tu, scopes := Some(m))
  }

  /** Scheme options applied in order. */
  function ApplySchemes(s: SecurityScheme, opts: seq<SchemeOption>): SecurityScheme
    decreases |opts|
  {
    if |opts| == 0 then s else ApplySchemes(ApplyScheme(s, opts[0]), opts[1..])
  }

  /** Scopes accumulate, and a later `OAuth2Security` keeps them. */
  lemma OAuth2ScopesAccumulate(flow: string, au: string, tu: string)
    ensures var s := ApplySchemes(ZeroScheme, [OAuth2Scope("read", "r"), OAuth2Scope("write", "w"), OAuth2(flow, au, tu)]);
      s.scopes == Some(map["read" := "r", "write" := "w"]) && s.typ == "oauth2" && s.flow == flow
  {
    var s1 := ApplyScheme(ZeroScheme, OAuth2Scope("read", "r"));
    var s2 := ApplyScheme(s1, OAuth2Scope("write", "w"));
    var s3 := ApplyScheme(s2, OAuth2(flow, au, tu));
    var l := [OAuth2Scope("read", "r"), OAuth2Scope("write", "w"), OAuth2(flow, au, tu)];
    assert l[1..] == [OAuth2Scope("write", "w"), OAuth2(flow, au, tu)];
    assert l[1..][1..] == [OAuth2(flow, au, tu)];
    assert l[1..][1..][1..] == [];
    assert ApplySchemes(s2, l[1..][1..]) == s3;
    assert ApplySchemes(s1, l[1..]) == s3;
    assert s3.scopes == Some(map["read" := "r", "write" := "w"]);
    assert ApplySchemes(ZeroScheme, [OAuth2Scope("read", "r"), OAuth2Scope("write", "w"), OAuth2(flow, au, tu)]) == s3;
  }

  /** A scheme option applied twice has the effect of applying it once. */
  lemma ApplySchemeIdempotent(s: SecurityScheme, o: SchemeOption)
    ensures ApplyScheme(ApplyScheme(s, o), o) == ApplyScheme(s, o)
  {
    if o.OAuth2Scope? {
      var m := s.scopes.GetOr(map[])[o.scope := o.description];
      assert m[o.scope := o.description] == m;
    }
  }

  /** `swag.BasicSecurity()`: a scheme of type "basic". */
  function BasicSecurity(): (r: SecurityScheme)
    ensures r == ApplyScheme(ZeroScheme, BasicAuth)
  {
    ZeroScheme.(typ := "basic")
  }

  /** `swag.APIKeySecurity(name, in)`: panics (`None`) unless the location
      is "header" or "query". */
  function APIKeySecurity(name: string, location: string): (r: Option<SecurityScheme>)
    ensures r.Some? <==> ValidKeyLocation(location)
    ensures r.Some? ==> r.value.typ == "apiKey" && r.value.name == name && r.value.location == location
  {
    if location != "header" && location != "query" then None
    else Some(ZeroScheme.(typ := "apiKey", name := name, location := location))
  }

  /** `swag.OAuth2Security(flow, authorizationURL, tokenURL)`: an "oauth2"
      scheme with an empty, allocated scope map. */
  function OAuth2Security(flow: string, authorizationURL: string, tokenURL: string): (r: SecurityScheme)
    ensures r.typ == "oauth2" && r.flow == flow && r.authorizationURL == authorizationURL && r.tokenURL == tokenURL
    ensures r.scopes == Some(map[])
    ensures r.description == "" && r.name == "" && r.location == ""
  {
    SecurityScheme("oauth2", "", "", "", flow, authorizationURL, tokenURL, Some(map[]))
  }

  /** The constructors of swag.go build the same schemes as the options of
      the option package applied to a zero scheme. */
  lemma ConstructorsAgreeWithOptions(name: string, location: string, flow: string, au: string, tu: string)
    ensures BasicSecurity() == ApplySchemes(ZeroScheme, [BasicAuth])
    ensures APIKeySecurity(name, location).Some? <==> APIKeySecurityOption(name, location).Some?
    ensures APIKeySecurity(name, location).Some? ==>
      APIKeySecurity(name, location).value == ApplySchemes(ZeroScheme, [APIKeySecurityOption(name, location).value])
    ensures OAuth2Security(flow, au, tu) == ApplySchemes(ZeroScheme, [OAuth2(flow, au, tu)])
  {
    assert [BasicAuth][1..] == [];
    assert [OAuth2(flow, au, tu)][1..] == [];
    if ValidKeyLocation(location) {
      assert [APIKey(name, location)][1..] == [];
    }
  }

  /** An option of a tag (`TagOption`). */
  datatype TagOption = TagDescription(v: string) | TagURL(v: string)

  /** One tag option applied: the external docs are allocated on first use
      and only the named field changes. */
  function ApplyTag(t: Tag, o: TagOption): (r: Tag)
    ensures r.docs.Some? && r.name == t.name && r.description == t.description
    ensures o.TagDescription? ==> r.docs.value == t.docs.GetOr(TagDocs("", "")).(description := o.v)
    ensures o.TagURL? ==> r.docs.value == t.docs.GetOr(TagDocs("", "")).(url := o.v)
  {
    var d := if t.docs.Some? then t.docs.value else TagDocs("", "");
    match o
    case TagDescription(v) => t.(docs := Some(d.(description := v)))
    case TagURL(v) => t.(docs := Some(d.(url := v)))
  }

  /** Tag options applied in order. */
  function ApplyTags(t: Tag, opts: seq<TagOption>): Tag
    decreases |opts|
  {
    if |opts| == 0 then t else ApplyTags(ApplyTag(t, opts[0]), opts[1..])
  }

  /** `TagURL` keeps the description `TagDescription` set, and the other way
      round. */
  lemma TagDocsIndependent(t: Tag, d: string, url: string)
    ensures ApplyTag(ApplyTag(t, TagDescription(d)), TagURL(url)).docs == Some(TagDocs(d, url))
    ensures ApplyTag(ApplyTag(t, TagURL(url)), TagDescription(d)).docs == Some(TagDocs(d, url))
  {
  }

  /** `option.Tag(name, description, options...)`'s tag. */
  function MakeTag(name: string, description: string, opts: seq<TagOption>): (r: Tag)
    ensures r.name == name && r.description == description
  {
    ApplyTagsKeepsName(Tag(name, description, None), opts);
    ApplyTags(Tag(name, description, None), opts)
  }

  lemma {:induction false} ApplyTagsKeepsName(t: Tag, opts: seq<TagOption>)
    ensures ApplyTags(t, opts).name == t.name && ApplyTags(t, opts).description == t.description
    decreases |opts|
  {
    if |opts| > 0 {
      ApplyTagsKeepsName(ApplyTag(t, opts[0]), opts[1..]);
    }
  }

  /** An option of the document (`swag.Option`). The options of swag.go and
      of option/option.go with the same effect share a constructor. */
  datatype ApiOption =
    | Description(v: string)
    | Version(v: string)
    | TermsOfService(v: string)
    | Title(v: string)
    | ContactEmail(v: string)
    | LicenseOf(name: string, url: string)
    | BasePath(v: string)
    | Schemes(vs: seq<string>)
    | Host(v: string)
    | AddTagOption(tag: Tag)
    | SecurityDefinition(name: string, scheme: SecurityScheme)
    | Security(schemeName: string, scopes: seq<string>)
    | Endpoints(es: seq<Endpoint>)

  /** `option.SecurityScheme(name, options...)`: a zero scheme with the
      options applied, stored under `name`. */
  function SecuritySchemeOption(name: string, opts: seq<SchemeOption>): (r: ApiOption)
    ensures r.SecurityDefinition? && r.name == name && r.scheme == ApplySchemes(ZeroScheme, opts)
  {
    SecurityDefinition(name, ApplySchemes(ZeroScheme, opts))
  }

  /** `option.Tag(name, description, options...)` */
  function TagWith(name: string, description: string, opts: seq<TagOption>): (r: ApiOption)
    ensures r.AddTagOption? && r.tag == MakeTag(name, description, opts)
  {
    AddTagOption(MakeTag(name, description, opts))
  }

  /** The requirements the document carries so far. */
  function Requirements(a: API): seq<Requirement> {
    if a.security.Some? then a.security.value.requirements else []
  }

  /** One option other than `Endpoints` applied: each changes its own field
      and nothing else. */
  function Set(a: API, o: ApiOption): (r: API)
    requires !o.Endpoints?
    ensures o.Description? ==> r == a.(info := a.info.(description := o.v))
    ensures o.Version? ==> r == a.(info := a.info.(version := o.v))
    ensures o.TermsOfService? ==> r == a.(info := a.info.(termsOfService := o.v))
    ensures o.Title? ==> r == a.(info := a.info.(title := o.v))
    ensures o.ContactEmail? ==> r == a.(info := a.info.(contact := Some(Contact(o.v))))
    ensures o.LicenseOf? ==> r == a.(info := a.info.(license := Document.License(o.name, o.url)))
    ensures o.BasePath? ==> r == a.(basePath := o.v)
    ensures o.Schemes? ==> r == a.(schemes := o.vs)
    ensures o.Host? ==> r == a.(host := o.v)
    ensures o.AddTagOption? ==> r == a.(tags := a.tags + [o.tag])
    ensures o.SecurityDefinition? ==> r == a.(securityDefinitions := a.securityDefinitions[o.name := o.scheme])
    ensures o.Security? ==>
      && r.security.Some? && r.security.value.requirements == Requirements(a) + [map[o.schemeName := Some(o.scopes)]]
      && r.security.value.disableSecurity == (a.security.Some? && a.security.value.disableSecurity)
      && r.(security := a.security) == a
  {
    match o
    case Description(v) => a.(info := a.info.(description := v))
    case Version(v) => a.(info := a.info.(version := v))
    case TermsOfService(v) => a.(info := a.info.(termsOfService := v))
    case Title(v) => a.(info := a.info.(title := v))
    case ContactEmail(v) =>
      var c := if a.info.contact.Some? then a.info.contact.value else Contact("");
      a.(info := a.info.(contact := Some(c.(email := v))))
    case LicenseOf(n, url) => a.(info := a.info.(license := a.info.license.(name := n, url := url)))
    case BasePath(v) => a.(basePath := v)
    case Schemes(vs) => a.(schemes := vs)
    case Host(v) => a.(host := v)
    case AddTagOption(t) => a.(tags := a.tags + [t])
    case SecurityDefinition(n, s) => a.(securityDefinitions := a.securityDefinitions[n := s])
    case Security(scheme, scopes) =>
      var sec := if a.security.Some? then a.security.value else SecurityRequirement([], false);
      a.(security := Some(sec.(requirements := sec.requirements + [map[scheme := Some(scopes)]])))
  }

  /** The options that overwrite a field. */
  predicate Overwrites(o: ApiOption) {
    !(o.AddTagOption? || o.Security? || o.Endpoints?)
  }

  /** Setting a field twice is setting it once. */
  lemma SetIdempotent(a: API, o: ApiOption)
    requires Overwrites(o)
    ensures Set(Set(a, o), o) == Set(a, o)
  {
  }

  /** Setting one field leaves every other option's effect alone: two
      overwriting options of different kinds commute. */
  lemma SetCommutes(a: API, o1: ApiOption, o2: ApiOption)
    requires Overwrites(o1) && Overwrites(o2)
    requires !(o1.SecurityDefinition? && o2.SecurityDefinition? && o1.name == o2.name)
    requires o1.Description? ==> !o2.Description?
    requires o1.Version? ==> !o2.Version?
    requires o1.TermsOfService? ==> !o2.TermsOfService?
    requires o1.Title? ==> !o2.Title?
    requires o1.ContactEmail? ==> !o2.ContactEmail?
    requires o1.LicenseOf? ==> !o2.LicenseOf?
    requires o1.BasePath? ==> !o2.BasePath?
    requires o1.Schemes? ==> !o2.Schemes?
    requires o1.Host? ==> !o2.Host?
    ensures Set(Set(a, o1), o2) == Set(Set(a, o2), o1)
  {
    if o1.SecurityDefinition? && o2.SecurityDefinition? {
      assert a.securityDefinitions[o1.name := o1.scheme][o2.name := o2.scheme]
        == a.securityDefinitions[o2.name := o2.scheme][o1.name := o1.scheme];
    }
  }

  /** The tag option appends even a name already present, unlike
      `WithTags`. */
  lemma TagOptionDuplicates(a: API, t: Tag)
    ensures |Set(Set(a, AddTagOption(t)), AddTagOption(t)).tags| == |a.tags| + 2
  {
  }

  /** Every endpoint of an `Endpoints` option carries only program types. */
  predicate OptionOk(u: Universe, o: ApiOption) {
    o.Endpoints? ==> WellFormed(u) && forall i | 0 <= i < |o.es| :: SchemasClosed(u, o.es[i])
  }

  /** Options other than `Endpoints` applied in order. */
  function SetAll(a: API, opts: seq<ApiOption>): API
    requires forall i | 0 <= i < |opts| :: !opts[i].Endpoints?
    decreases |opts|
  {
    if |opts| == 0 then a else SetAll(Set(a, opts[0]), opts[1..])
  }

  /** One option applied; `Endpoints` is `AddEndpoint` on its endpoints. */
  method ApplyOption(u: Universe, a: API, o: ApiOption) returns (r: Outcome<API>)
    requires OptionOk(u, o)
    ensures !o.Endpoints? ==> r == Done(Set(a, o))
    ensures o.Endpoints? && r.Done? ==>
      && r.value.pending == []
      && (forall i | 0 <= i < |o.es| && LastUpTo(o.es, i, |o.es|) :: Holds(r.value, o.es[i], TagNames(a.pending)))
      && r.value.(paths := a.paths, definitions := a.definitions, pending := a.pending) == a
  {
    if o.Endpoints? {
      r := AddEndpoint(u, a, o.es);
    } else {
      r := Done(Set(a, o));
    }
  }

  /** `AddOptions(options...)`: the options applied in order, stopping at a
      panic. */
  method AddOptions(u: Universe, a: API, opts: seq<ApiOption>) returns (r: Outcome<API>)
    requires forall i | 0 <= i < |opts| :: OptionOk(u, opts[i])
    ensures (forall i | 0 <= i < |opts| :: !opts[i].Endpoints?) ==> r == Done(SetAll(a, opts))
  {
    var cur := a;
    var k := 0;
    while k < |opts|
      invariant 0 <= k <= |opts|
      invariant (forall i | 0 <= i < |opts| :: !opts[i].Endpoints?) ==> SetAll(cur, opts[k..]) == SetAll(a, opts)
    {
      var s := ApplyOption(u, cur, opts[k]);
      if s.Panicked? {
        return s;
      }
      assert opts[k..][1..] == opts[k + 1..];
      cur := s.value;
      k := k + 1;
    }
    r := Done(cur);
  }

  /** `AddEndpointFunc(fs...)`: the functions applied in order, then the
      pending tags cleared. The functions are written as options. */
  method AddEndpointFunc(u: Universe, a: API, fs: seq<ApiOption>) returns (r: Outcome<API>)
    requires forall i | 0 <= i < |fs| :: OptionOk(u, fs[i])
    ensures r.Done? ==> r.value.pending == []
    ensures (forall i | 0 <= i < |fs| :: !fs[i].Endpoints?) ==> r == Done(SetAll(a, fs).(pending := []))
  {
    r := AddOptions(u, a, fs);
    if r.Done? {
      r := Done(r.value.(pending := []));
    }
  }

  /** The document `New` starts from. */
  function Defaults(): (a: API)
    ensures a.basePath == "/" && a.swagger == "2.0" && a.schemes == ["http"]
    ensures a.info.description == "Describe your API" && a.info.title == "Your API Title"
    ensures a.info.version == "SNAPSHOT" && a.info.termsOfService == "http://swagger.io/terms/"
    ensures a.info.license == Document.License("Apache 2.0", "http://www.apache.org/licenses/LICENSE-2.0.html")
    ensures a.info.contact.None?
    ensures a.paths == map[] && a.definitions == map[] && a.tags == [] && a.host == ""
    ensures a.securityDefinitions == map[] && a.security.None? && a.pending == []
  {
    API(
      "2.0",
      Info("Describe your API", "SNAPSHOT", "http://swagger.io/terms/", "Your API Title", None,
        Document.License("Apache 2.0", "http://www.apache.org/licenses/LICENSE-2.0.html")),
      "/", ["http"], map[], map[], [], "", map[], None, [])
  }

  /** `New(options...)`: the defaults with the options applied in order. */
  method New(u: Universe, opts: seq<ApiOption>) returns (r: Outcome<API>)
    requires forall i | 0 <= i < |opts| :: OptionOk(u, opts[i])
    ensures (forall i | 0 <= i < |opts| :: !opts[i].Endpoints?) ==> r == Done(SetAll(Defaults(), opts))
  {
    r := AddOptions(u, Defaults(), opts);
  }

  /** Options apply left to right: a later option sees what the earlier
      ones set. */
  lemma {:induction false} SetAllSnoc(a: API, opts: seq<ApiOption>, o: ApiOption)
    requires forall i | 0 <= i < |opts| :: !opts[i].Endpoints?
    requires !o.Endpoints?
    ensures SetAll(a, opts + [o]) == Set(SetAll(a, opts), o)
    decreases |opts|
  {
    if |opts| == 0 {
      assert [o][1..] == [];
    } else {
      assert (opts + [o])[1..] == opts[1..] + [o];
      SetAllSnoc(Set(a, opts[0]), opts[1..], o);
    }
  }

  /** Two successive security options append two requirements in order,
      the scope-less one with an empty scope list. */
  lemma SecurityExample()
    ensures var a := SetAll(Defaults(), [Security("basic", []), Security("oauth2", ["read"])]);
      && a.security.Some? && !a.security.value.disableSecurity
      && a.security.value.requirements == [map["basic" := Some([])], map["oauth2" := Some(["read"])]]
  {
    var o1 := Security("basic", []);
    var o2 := Security("oauth2", ["read"]);
    assert [o1, o2][1..] == [o2];
    assert [o2][1..] == [];
    var a1 := Set(Defaults(), o1);
    assert Requirements(Defaults()) == [];
    assert a1.security.value.requirements == [map["basic" := Some([])]];
  }
}
