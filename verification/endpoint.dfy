/** The endpoint builder (endpoint/endpoint.go): `New` and its functional
    options, written as a datatype of options and one function that applies
    an option to an endpoint. */
module EndpointBuilder {
  import opened Wrappers
  import opened Text
  import opened GoTypes
  import opened Naming
  import opened Schema
  import opened Objects
  import opened Document

  const Json: string := "application/json"
  const Multipart: string := "multipart/form-data"

  /** A response option. */
  datatype ResponseOption =
    | SchemaOf(prototype: GoType)
    | HeaderOf(name: string, typ: string, format: string, description: string)

  /** An endpoint option. `Param` stands for every helper that appends one
      prebuilt parameter (`PathDefault`, `QueryDefault` and their
      shorthands); `Security` carries `None` when no scope was passed. */
  datatype EndpointOption =
    | Summary(v: string)
    | Description(v: string)
    | OperationID(v: string)
    | Produces(vs: seq<string>)
    | Consumes(vs: seq<string>)
    | Param(p: Parameter)
    | FormData(name: string, typ: string, description: string, required: bool)
    | BodyType(prototype: GoType, description: string, required: bool)
    | Tags(ts: seq<string>)
    | Security(scheme: string, scopes: Option<seq<string>>)
    | NoSecurity
    | ResponseType(code: int, description: string, opts: seq<ResponseOption>)
    | Deprecated

  /** Every prototype an option reflects on is a well-formed type. */
  predicate OptionOk(u: Universe, o: EndpointOption) {
    WellFormed(u) &&
    match o
    case BodyType(t, _, _) => Closed(u, t)
    case ResponseType(_, _, ros) => forall i | 0 <= i < |ros| :: ResponseOptionOk(u, ros[i])
    case _ => true
  }

  predicate ResponseOptionOk(u: Universe, o: ResponseOption) {
    WellFormed(u) && (o.SchemaOf? ==> Closed(u, o.prototype))
  }

  /** `PathDefault`: a path parameter. */
  function PathDefault(name: string, typ: string, description: string, defVal: string, required: bool): EndpointOption {
    Param(Parameter("path", name, description, required, None, typ, "", defVal))
  }

  /** `Path`: a path parameter without default. */
  function Path(name: string, typ: string, description: string, required: bool): (o: EndpointOption)
    ensures o.Param? && o.p.location == "path" && o.p.default == "" && o.p.required == required
  {
    PathDefault(name, typ, description, "", required)
  }

  /** `PathString`: a required string path parameter. */
  function PathString(name: string, description: string): (o: EndpointOption)
    ensures o.Param? && o.p.location == "path" && o.p.typ == StringType && o.p.required && o.p.default == ""
  {
    PathDefault(name, StringType, description, "", true)
  }

  /** `QueryDefault`: a query parameter. */
  function QueryDefault(name: string, typ: string, description: string, defVal: string, required: bool): EndpointOption {
    Param(Parameter("query", name, description, required, None, typ, "", defVal))
  }

  /** `Query`: a query parameter without default. */
  function Query(name: string, typ: string, description: string, required: bool): (o: EndpointOption)
    ensures o.Param? && o.p.location == "query" && o.p.default == "" && o.p.required == required
  {
    QueryDefault(name, typ, description, "", required)
  }

  /** `QueryString`: an optional string query parameter. */
  function QueryString(name: string, description: string): (o: EndpointOption)
    ensures o.Param? && o.p.location == "query" && o.p.typ == StringType && !o.p.required && o.p.default == ""
  {
    QueryDefault(name, StringType, description, "", false)
  }

  /** `ResponseSuccess`: the response for status 200, described "success". */
  function ResponseSuccess(opts: seq<ResponseOption>): (o: EndpointOption)
    ensures o.ResponseType? && IntToString(o.code) == "200" && o.description == "success"
  {
    assert IntToString(200) == "200" by {
      ItoaExample();
    }
    ResponseType(200, "success", opts)
  }

  lemma ItoaExample()
    ensures IntToString(200) == "200"
  {
    assert Itoa(2) == "2";
    assert Itoa(20) == "20";
  }

  /** The string set `sets.NewString(xs...).Add(x).List()` holds: `xs` without
      repeats, plus `x` when absent. The library sorts the list; the model
      keeps first-occurrence order and promises only the set. */
  function AddToSet(xs: seq<string>, x: string): (r: seq<string>)
    ensures forall y :: y in r <==> y in xs || y == x
    ensures forall i, j | 0 <= i < j < |r| :: r[i] != r[j]
  {
    var d := Dedup(xs);
    if x in d then d else d + [x]
  }

  function Dedup(xs: seq<string>): (r: seq<string>)
    ensures forall y :: y in r <==> y in xs
    ensures forall i, j | 0 <= i < j < |r| :: r[i] != r[j]
  {
    if |xs| == 0 then []
    else
      var d := Dedup(xs[..|xs| - 1]);
      var x := xs[|xs| - 1];
      assert forall y :: y in xs <==> y in xs[..|xs| - 1] || y == x by {
        assert xs == xs[..|xs| - 1] + [x];
      }
      if x in d then d else d + [x]
  }

  /** A response option applied to a response. */
  function ApplyResponse(u: Universe, r: Response, o: ResponseOption): (r': Response)
    requires ResponseOptionOk(u, o)
    ensures o.SchemaOf? ==> r' == r.(schema := Some(MakeSchema(u, o.prototype)))
    ensures o.HeaderOf? ==>
      r'.headers == r.headers[o.name := Header(o.typ, o.format, o.description)]
      && r'.description == r.description && r'.schema == r.schema
  {
    match o
    case SchemaOf(t) => r.(schema := Some(MakeSchema(u, t)))
    case HeaderOf(name, typ, format, description) =>
      r.(headers := r.headers[name := Header(typ, format, description)])
  }

  /** The response options applied in order. */
  function ApplyResponses(u: Universe, r: Response, opts: seq<ResponseOption>): (r': Response)
    requires forall i | 0 <= i < |opts| :: ResponseOptionOk(u, opts[i])
    ensures (forall i | 0 <= i < |opts| :: opts[i].HeaderOf?) ==> r'.description == r.description && r'.schema == r.schema
    decreases |opts|
  {
    if |opts| == 0 then r
    else ApplyResponses(u, ApplyResponse(u, r, opts[0]), opts[1..])
  }

  /** One option applied to an endpoint. */
  function Apply(u: Universe, e: Endpoint, o: EndpointOption): (r: Endpoint)
    requires OptionOk(u, o)
    ensures o.Summary? ==> r == e.(summary := o.v)
    ensures o.Description? ==> r == e.(description := o.v)
    ensures o.OperationID? ==> r == e.(operationId := o.v)
    ensures o.Produces? ==> r == e.(produces := o.vs)
    ensures o.Consumes? ==> r == e.(consumes := o.vs)
    ensures o.Param? ==> r == e.(parameters := e.parameters + [o.p])
    ensures o.FormData? ==>
      && r.parameters == e.parameters + [Parameter("formData", o.name, o.description, o.required, None, o.typ, "", "")]
      && (forall y :: y in r.consumes <==> y in e.consumes || y == Multipart)
      && r.(parameters := e.parameters, consumes := e.consumes) == e
    ensures o.BodyType? ==>
      r == e.(parameters := e.parameters + [Parameter("body", "body", o.description, o.required, Some(MakeSchema(u, o.prototype)), "", "", "")])
    ensures o.Tags? ==> r == e.(tags := e.tags + o.ts)
    ensures o.Security? ==>
      && r.security.Some? && r.security.value.requirements == RequirementsOf(e) + [map[o.scheme := o.scopes]]
      && r.security.value.disableSecurity == (e.security.Some? && e.security.value.disableSecurity)
      && r.(security := e.security) == e
    ensures o.NoSecurity? ==> r == e.(security := Some(SecurityRequirement([], true)))
    ensures o.ResponseType? ==>
      && r.responses.Keys == e.responses.Keys + {IntToString(o.code)}
      && r.responses[IntToString(o.code)] == ApplyResponses(u, Response(o.description, None, map[]), o.opts)
      && (forall c | c in e.responses && c != IntToString(o.code) :: r.responses[c] == e.responses[c])
      && r.(responses := e.responses) == e
    ensures o.Deprecated? ==> r == e.(deprecated := true)
  {
    match o
    case Summary(v) => e.(summary := v)
    case Description(v) => e.(description := v)
    case OperationID(v) => e.(operationId := v)
    case Produces(vs) => e.(produces := vs)
    case Consumes(vs) => e.(consumes := vs)
    case Param(p) => e.(parameters := e.parameters + [p])
    case FormData(name, typ, description, required) =>
      var p := Parameter("formData", name, description, required, None, typ, "", "");
      e.(parameters := e.parameters + [p], consumes := AddToSet(e.consumes, Multipart))
    case BodyType(t, description, required) => AddBody(u, e, t, description, required)
    case Tags(ts) => e.(tags := e.tags + ts)
    case Security(scheme, scopes) =>
      var sec := if e.security.Some? then e.security.value else SecurityRequirement([], false);
      e.(security := Some(sec.(requirements := sec.requirements + [map[scheme := scopes]])))
    case NoSecurity => e.(security := Some(SecurityRequirement([], true)))
    case ResponseType(code, description, ros) => SetResponse(u, e, code, description, ros)
    case Deprecated => e.(deprecated := true)
  }

  /** The `Body` option: a body parameter whose schema reflects `t`. */
  function AddBody(u: Universe, e: Endpoint, t: GoType, description: string, required: bool): (r: Endpoint)
    requires WellFormed(u) && Closed(u, t)
    ensures r == e.(parameters := e.parameters + [Parameter("body", "body", description, required, Some(MakeSchema(u, t)), "", "", "")])
  {
    e.(parameters := e.parameters + [Parameter("body", "body", description, required, Some(MakeSchema(u, t)), "", "", "")])
  }

  /** The `ResponseType` option: the response built from its options,
      stored under the printed code. */
  function SetResponse(u: Universe, e: Endpoint, code: int, description: string, ros: seq<ResponseOption>): (r: Endpoint)
    requires forall i | 0 <= i < |ros| :: ResponseOptionOk(u, ros[i])
    ensures r.responses.Keys == e.responses.Keys + {IntToString(code)}
    ensures r.responses[IntToString(code)] == ApplyResponses(u, Response(description, None, map[]), ros)
    ensures forall c | c in e.responses && c != IntToString(code) :: r.responses[c] == e.responses[c]
    ensures r.(responses := e.responses) == e
  {
    e.(responses := e.responses[IntToString(code) := ApplyResponses(u, Response(description, None, map[]), ros)])
  }

  /** The requirements an endpoint carries so far. */
  function RequirementsOf(e: Endpoint): seq<Requirement> {
    if e.security.Some? then e.security.value.requirements else []
  }

  /** The options applied in order. */
  function ApplyAll(u: Universe, e: Endpoint, opts: seq<EndpointOption>): (r: Endpoint)
    requires forall i | 0 <= i < |opts| :: OptionOk(u, opts[i])
    decreases |opts|
  {
    if |opts| == 0 then e else ApplyAll(u, Apply(u, e, opts[0]), opts[1..])
  }

  /** The endpoint `New` starts from: the method upper-cased, JSON produced
      and consumed, and the operation id the method and path give. */
  function Initial(verb: string, path: string): (e: Endpoint)
    ensures e.verb == ToUpper(verb) && e.path == path
    ensures e.produces == [Json] && e.consumes == [Json]
    ensures e.operationId == Naming.OperationID(ToUpper(verb), path)
    ensures e.tags == [] && e.parameters == [] && e.responses == map[] && e.security.None? && !e.deprecated
  {
    Endpoint([], ToUpper(verb), path, "", "", Naming.OperationID(ToUpper(verb), path), [Json], [Json], [], map[], None, false)
  }

  /** `New(method, path, options...)`: the initial endpoint, then the
      options in order. No option changes the method or the path, and
      without an `OperationID` option the derived operation id stays. */
  function New(u: Universe, verb: string, path: string, opts: seq<EndpointOption>): (e: Endpoint)
    requires forall i | 0 <= i < |opts| :: OptionOk(u, opts[i])
    ensures e.verb == ToUpper(verb) && e.path == path
    ensures (forall i | 0 <= i < |opts| :: !opts[i].OperationID?) ==> e.operationId == Naming.OperationID(ToUpper(verb), path)
    ensures forall k | 0 <= k < |opts| && opts[k].OperationID? && (forall j | k < j < |opts| :: !opts[j].OperationID?) ::
      e.operationId == opts[k].v
  {
    var init := Initial(verb, path);
    ApplyAllKeepsRoute(u, init, opts);
    DerivedIDKept(u, init, opts);
    LastOperationIDWins(u, init, opts);
    ApplyAll(u, init, opts)
  }

  /** No option changes an endpoint's method or path. */
  lemma {:induction false} ApplyAllKeepsRoute(u: Universe, e: Endpoint, opts: seq<EndpointOption>)
    requires forall i | 0 <= i < |opts| :: OptionOk(u, opts[i])
    ensures ApplyAll(u, e, opts).verb == e.verb && ApplyAll(u, e, opts).path == e.path
    decreases |opts|
  {
    if |opts| > 0 {
      ApplyAllKeepsRoute(u, Apply(u, e, opts[0]), opts[1..]);
    }
  }

  /** Without an `OperationID` option, the operation id is kept. */
  lemma DerivedIDKept(u: Universe, e: Endpoint, opts: seq<EndpointOption>)
    requires forall i | 0 <= i < |opts| :: OptionOk(u, opts[i])
    ensures (forall i | 0 <= i < |opts| :: !opts[i].OperationID?) ==> ApplyAll(u, e, opts).operationId == e.operationId
  {
    if forall i | 0 <= i < |opts| :: !opts[i].OperationID? {
      assert e.(operationId := e.operationId) == e;
      OperationIDWins(u, e, opts, e.operationId);
    }
  }

  /** Options apply left to right: applying `opts + [o]` is applying `opts`,
      then `o`. */
  lemma {:induction false} ApplyAllSnoc(u: Universe, e: Endpoint, opts: seq<EndpointOption>, o: EndpointOption)
    requires forall i | 0 <= i < |opts| :: OptionOk(u, opts[i])
    requires OptionOk(u, o)
    ensures ApplyAll(u, e, opts + [o]) == Apply(u, ApplyAll(u, e, opts), o)
    decreases |opts|
  {
    if |opts| == 0 {
      assert [o][1..] == [];
    } else {
      assert (opts + [o])[1..] == opts[1..] + [o];
      ApplyAllSnoc(u, Apply(u, e, opts[0]), opts[1..], o);
    }
  }

  /** Options apply as a fold: applying `a + b` is applying `a`, then `b`. */
  lemma {:induction false} ApplyAllConcat(u: Universe, e: Endpoint, a: seq<EndpointOption>, b: seq<EndpointOption>)
    requires forall i | 0 <= i < |a| :: OptionOk(u, a[i])
    requires forall i | 0 <= i < |b| :: OptionOk(u, b[i])
    ensures ApplyAll(u, e, a + b) == ApplyAll(u, ApplyAll(u, e, a), b)
    decreases |a|
  {
    if |a| > 0 {
      assert (a + b)[0] == a[0] && (a + b)[1..] == a[1..] + b;
      ApplyAllConcat(u, Apply(u, e, a[0]), a[1..], b);
    } else {
      assert a + b == b;
    }
  }

  /** The last `OperationID` option among the options decides the operation
      id, whatever id the endpoint had before and whatever other options
      come before or after it. */
  lemma LastOperationIDWins(u: Universe, e: Endpoint, opts: seq<EndpointOption>)
    requires forall i | 0 <= i < |opts| :: OptionOk(u, opts[i])
    ensures forall k | 0 <= k < |opts| && opts[k].OperationID? && (forall j | k < j < |opts| :: !opts[j].OperationID?) ::
      ApplyAll(u, e, opts).operationId == opts[k].v
  {
    forall k | 0 <= k < |opts| && opts[k].OperationID? && (forall j | k < j < |opts| :: !opts[j].OperationID?)
      ensures ApplyAll(u, e, opts).operationId == opts[k].v
    {
      LastOperationIDAt(u, e, opts, k);
    }
  }

  lemma LastOperationIDAt(u: Universe, e: Endpoint, opts: seq<EndpointOption>, k: nat)
    requires forall i | 0 <= i < |opts| :: OptionOk(u, opts[i])
    requires k < |opts| && opts[k].OperationID?
    requires forall j | k < j < |opts| :: !opts[j].OperationID?
    ensures ApplyAll(u, e, opts).operationId == opts[k].v
  {
    var pre, rest := opts[..k], opts[k + 1..];
    assert opts == (pre + [opts[k]]) + rest;
    ApplyAllConcat(u, e, pre + [opts[k]], rest);
    ApplyAllSnoc(u, e, pre, opts[k]);
    var withId := ApplyAll(u, e, pre + [opts[k]]);
    assert withId.operationId == opts[k].v;
    assert withId.(operationId := opts[k].v) == withId;
    OperationIDWins(u, withId, rest, opts[k].v);
  }

  /** A parameter option keeps the earlier parameters and appends exactly
      one. */
  lemma ParamAppends(u: Universe, e: Endpoint, o: EndpointOption)
    requires OptionOk(u, o) && (o.Param? || o.FormData? || o.BodyType?)
    ensures |Apply(u, e, o).parameters| == |e.parameters| + 1
    ensures Apply(u, e, o).parameters[..|e.parameters|] == e.parameters
  {
  }

  /** An operation id in place before the options survives every option
      that does not set it again; `LastOperationIDWins` builds on this for
      an id set anywhere among the options. */
  lemma {:induction false} OperationIDWins(u: Universe, e: Endpoint, opts: seq<EndpointOption>, v: string)
    requires forall i | 0 <= i < |opts| :: OptionOk(u, opts[i]) && !opts[i].OperationID?
    ensures ApplyAll(u, e.(operationId := v), opts).operationId == v
    decreases |opts|
  {
    if |opts| > 0 {
      var e1 := Apply(u, e.(operationId := v), opts[0]);
      assert e1.operationId == v;
      assert e1 == Apply(u, e, opts[0]).(operationId := v) by {
        ApplyOperationID(u, e, opts[0], v);
      }
      OperationIDWins(u, Apply(u, e, opts[0]), opts[1..], v);
    }
  }

  lemma ApplyOperationID(u: Universe, e: Endpoint, o: EndpointOption, v: string)
    requires OptionOk(u, o) && !o.OperationID?
    ensures Apply(u, e.(operationId := v), o) == Apply(u, e, o).(operationId := v)
  {
  }

  /** A `NoSecurity` followed by a `Security` keeps security disabled; the
      requirement is still recorded. */
  lemma SecurityAfterNoSecurity(u: Universe, e: Endpoint, scheme: string, scopes: Option<seq<string>>)
    requires WellFormed(u)
    ensures var r := Apply(u, Apply(u, e, NoSecurity), Security(scheme, scopes));
      r.security == Some(SecurityRequirement([map[scheme := scopes]], true))
  {
    var e1 := Apply(u, e, NoSecurity);
    assert RequirementsOf(e1) == [];
    assert [] + [map[scheme := scopes]] == [map[scheme := scopes]];
  }

  /** The unit test of `Security`: two calls give two requirements, in
      order, with security enabled. */
  lemma SecurityExample(u: Universe, e: Endpoint)
    requires WellFormed(u) && e.security.None?
    ensures var r := Apply(u, Apply(u, e, Security("basic", None)), Security("oauth2", Some(["scope1", "scope2"])));
      && r.security.Some? && !r.security.value.disableSecurity
      && |r.security.value.requirements| == 2
      && "basic" in r.security.value.requirements[0]
      && "oauth2" in r.security.value.requirements[1]
      && r.security.value.requirements[1]["oauth2"] == Some(["scope1", "scope2"])
  {
  }
}
