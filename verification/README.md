# swag: Go types to a Swagger 2.0 document, in Dafny

This project models the core of `swag`, a Go library that describes an HTTP
API as a Swagger 2.0 document. Two parts make up that core:

- a **schema engine** that reflects on Go types and turns them into
  definitions and references;
- a **document builder** that collects endpoints, definitions, tags and
  security schemes.

The repository carries two generations of the engine:

- the root package (`reflect.go`, `util.go`, `api.go`, `swag.go`,
  `endpoint/`, `option/`);
- the older `swagger/` package. It has its own `swag:"…"` tag syntax,
  no handling of maps, and definition names without a dot.

Each generation is modelled on its own where the two behave differently.

## Layout

| file | module | what it models |
|---|---|---|
| `wrappers.dfy` | `Wrappers` | `Option`, and `Outcome`: the result of a Go call that can panic |
| `text.dfy` | `Text` | the `strings`/`strconv` functions the code calls |
| `gopath.dfy` | `GoPath` | `filepath.Base`, `path.Clean`, `path.Join` |
| `gotypes.dfy` | `GoTypes` | Go types as reflection sees them |
| `naming.dfy` | `Naming` | `makeRef`, `makeName`, `camel` |
| `colonpath.dfy` | `ColonPaths` | `ColonPath` |
| `schema.dfy` | `Schema` | the records `inspect` and `buildMapType` return, and those functions |
| `objects.dfy` | `Objects` | `buildProperty`, `defineObject`, `MakeSchema` |
| `registry.dfy` | `Registry` | `define` |
| `document.dfy` | `Document` | the document records, method slots, `Clone`, the scheme choice of `Handler` |
| `api.dfy` | `Api` | the document's methods: `addPath`, `addDefinition`, `WithTags`, `AddEndpoint`, `AddTag`, `Walk` |
| `endpoint.dfy` | `EndpointBuilder` | `endpoint.New` and its options |
| `swag.dfy` | `Swag` | `swag.New`, the document options, security schemes, tags |
| `legacy_util.dfy` | `LegacyUtil` | the legacy `makeName` |
| `legacy_reflect.dfy` | `LegacyReflect` | the legacy `inspect`, `defineObject` with `swag` tags, `define`, `MakeSchema` |
| `legacy_api.dfy` | `LegacyApi` | the legacy `addDefinition`, `AddEndpoint`, `AddEndpointFunc` |

### Go types

A Go type is a `GoTypes.GoType`. Its variants are:

- the boolean, integer, floating-point and string scalars, optionally
  named (every integer width, but not `uintptr`);
- pointers, slices, arrays, maps and the empty interface;
- `Struct(id)`, where `id` points into an arena of struct declarations.

The arena is what lets a struct refer to itself, as `MapOption` does in the
reflection tests. A struct tag is the map of key/value pairs that
`StructTag.Get` and `StructTag.Lookup` read.

`GoTypes.Typed` states what the Go compiler guarantees of a program's
types:

- every struct a field mentions is declared;
- every field name is non-empty and has no comma.

The legacy package needs nothing more, because it never asks whether a
field is embedded. `GoTypes.WellFormed` adds what the root package's
`buildProperty` needs: an exported embedded field is a struct embedded by
value, so the embedding it recurses into is acyclic. An unexported
embedded field is skipped before `Anonymous` is read, so it may have any
type. `GoTypes.WellFormedTyped` proves that a well-formed universe is
typed.

The runtime address `reflect2.PtrOf` gives a type is an uninterpreted
function `addr` of the universe.

### Panics, map order and effects

A Go panic is modelled as `Outcome.Panicked(state, message)`. The state is
the document as it was when the panic happened. For example, `addPath` has
already inserted the path entry when it panics on an unknown method.

Go's map iteration order is arbitrary. The model handles it in three ways:

- `define` picks the next pending property with `:|`;
- `addDefinition` receives its response codes from a method that promises
  only that each code appears once, and hands back that order, together
  with the maps `define` returned, as ghost outputs its contract is stated
  over;
- `API.Walk` hands back, as a ghost output, the order in which it visited
  the paths, each exactly once.

Every contract about these operations holds for every order.

The document and its endpoints are immutable values. Go's pointer sharing
between a document and its `Clone` is therefore plain value equality of
the shared fields.

### The legacy package

The legacy package repeats code from the root package in several places,
and those parts are modelled once:

- its `makeRef` is `Naming.MakeRef`;
- `addPath`, `AddTag`, `Endpoints.Walk`, `API.Walk` and `clone` are
  `Api.AddPath`, `Api.AddTag`, `Document.WalkSlots`, `Api.Walk` and
  `Document.Clone`;
- the slot lookup of `Endpoints.ServeHTTP` is `Api.Lookup`;
- the scheme choice of `Handler` is `Document.Scheme` and `Document.Served`;
- the security-scheme options are `Swag.ApplyScheme` and
  `Swag.APIKeySecurityOption`.

The legacy document is the root document with no pending tags.

The parts that differ are modelled separately:

- `LegacyUtil.MakeName`;
- `LegacyReflect.Inspect`, the `swag` tag and `LegacyReflect.DefineObject`;
- the legacy `define`, which cannot panic because it has no map case;
- `LegacyApi.AddEndpoint`, which adds no tags to the endpoints.

Lemmas relate each legacy member to its root counterpart:

- `LegacyReflect.InspectScalarAgrees`;
- `LegacyReflect.DefineObjectScalarAgrees`;
- `LegacyUtil.MakeNameDropsDot`;
- `LegacyReflect.MakeSchemaAgrees`.

## Model

| member | source | states |
|---|---|---|
| Text.UpperRune | api.go:217 | a rune upper-cased is never lower case; it is an upper-case ASCII letter exactly when it was an ASCII letter, dotless i or long s, and only those change |
| Text.LowerRune | endpoint_test.go:13-70 | a rune lower-cased is never upper case; it is a lower-case ASCII letter exactly when it was an ASCII letter, the Kelvin sign or capital I with dot above, and only those change; this lower-cases the verb at the head of the operation id |
| Text.ParseItoa | endpoint/endpoint.go:269 | the decimal digits `strconv.Itoa` prints read back as the number |
| Text.IntToStringInjective | endpoint/endpoint.go:269 | two response codes print to the same key exactly when they are equal, negative codes included |
| GoTypes.WellFormedTyped | reflect.go:279-289 | the root package's restriction on exported embedded fields only adds to what every Go program's types satisfy |
| GoTypes.ExportedNameByByte | reflect.go:282 | a field counts as exported exactly when lower-casing the one-byte string of its name's leading UTF-8 byte changes it: an ASCII capital, or any leading byte from 0x80 on, which becomes U+FFFD |
| Naming.MakeRef | util.go:62-64 | a reference starts with the definitions prefix and is exactly as long as the prefix and the name together |
| Naming.RefTargetMakeRef | util.go:62-64 | every reference resolves back to the name it was made from, so distinct names never share a reference |
| Naming.MakeName | util.go:66-74 | a root definition name never holds '-' and always holds the '.' separator |
| Naming.MakeNameNamed | util.go:66-74 | a named type is called Base(package path) + "." + its name, with each '-' turned into '_' |
| Naming.MakeNameAnonymous | util.go:67-73 | a type literal is called "..ptr" and its decimal address, because the base of an empty package path is "." |
| Naming.MakeNameAnonymousDiffersFromTest | util.go:72 | that name is never the ".ptr"+address the `makeName` unit test expects |
| Naming.MakeNameAnonymousInjective | util.go:67-72 | two type literals get the same name exactly when their descriptor addresses are equal |
| Naming.CamelSegment | util.go:50-57 | a segment in camel form holds only ASCII letters and digits, as many as the segment has, and does not start in lower case |
| Naming.Camel | util.go:46-60 | `camel` produces ASCII letters and digits only |
| Naming.CamelIdempotent | util.go:46-60 | applying `camel` to its own output changes nothing |
| Naming.CamelOfSegments | util.go:46-60 | the camel form of slash-joined segments is the concatenation of each segment's camel form |
| Naming.OperationID | endpoint_test.go:13-70 | the operation id the tests expect is at least as long as the method, holds no upper-case letter in the method's positions, and only letters and digits after them |
| Naming.OperationIDExamplesShort | endpoint_test.go:22-34 | no method and path give "", and GET "/" gives "get" |
| Naming.OperationIDExampleOneSegment | endpoint_test.go:35-41 | POST "/test" gives "postTest" |
| Naming.CamelExample | endpoint_test.go:50-57 | the camel form of "/test/{id}/sub" is "TestIdSub" |
| ColonPaths.BraceMatches | util.go:29 | every match of the path pattern is "{" + group + "}" with a non-empty group that holds no '}' |
| ColonPaths.ColonPath | util.go:38-44 | when no parameter name holds '{', the result is the single left-to-right pass that turns each {name} into :name; a path without '{' is returned unchanged |
| ColonPaths.ColonPathIsScan | util.go:38-44 | when no group holds '{', replacing each match everywhere equals one left-to-right pass that turns every {name} into :name and copies every other character |
| ColonPaths.ColonPathNoBraces | util.go:38-44 | a path without '{' comes back unchanged |
| ColonPaths.OneParam | util.go:38-44 | a prefix without braces followed by one {name} becomes the prefix followed by :name |
| ColonPaths.ColonPathExampleOne | util_test.go:28 | "/api/{id}" becomes "/api/:id" |
| ColonPaths.ColonPathExampleTwo | util_test.go:29 | "/api/{a}/{b}/{c}" becomes "/api/:a/:b/:c" |
| GoPath.Base | util.go:72 | the base is never empty, is "." for the empty package path, and holds no '/' unless it is "/" |
| GoPath.BaseIdempotent | util.go:72 | taking the base of a base changes nothing |
| GoPath.Clean | api.go:358 | the cleaned path is never empty and is rooted exactly when the input is |
| GoPath.CleanIdempotent | api.go:358 | cleaning a cleaned path changes nothing |
| GoPath.PathJoin | api.go:358 | the join is empty exactly when both parts are, rooted when the base path is, and already clean |
| Schema.NumericFormat | reflect.go:37-58 | the scalar table gives a format only to integers and numbers, and gives no type exactly to bool and plain uint |
| Schema.JsonSchemaType | reflect.go:240-273 | the three well-known type names map to string, integer and number; any other name of a non-scalar is returned unchanged |
| Schema.MakeMapRef | reflect.go:198-201 | the map reference resolves to the printed type name with leading and trailing '*' removed |
| Schema.BuildMapType | reflect.go:135-183 | an interface value gives an empty shape; the Go type is absent exactly for interface values and byte arrays after one slice level is removed, and otherwise is the value with one slice level and one pointer removed; items exist exactly when that Go type exists and the value is a slice or array; a reference comes without items and resolves to the printed value type with '*' trimmed |
| Schema.SliceItems | reflect.go:88-128 | an item reference carries no type or format, and a format goes only with integer or number items |
| Schema.Inspect | reflect.go:23-132 | a ",string" json tag yields a plain string property and nothing else; otherwise the kind switch applies; the type is array exactly when items exist; a reference resolves to the definition name of the recorded Go type; the recorded type mentions only structs the field type mentions |
| Schema.InspectKind | reflect.go:33-129 | after one pointer is stripped, items exist exactly for slices and a value shape exactly for maps |
| Schema.ScalarProperty | reflect.go:37-58 | a scalar records itself and has no reference or items; its type is empty exactly for plain uint |
| Schema.MapProperty | reflect.go:69-73 | a map is an object whose value shape is `buildMapType`'s, and it records the Go type of that shape |
| Schema.SliceProperty | reflect.go:75-128 | a slice is an array whose items describe the element, and it records the element with one pointer stripped |
| Schema.RefProperty | reflect.go:60-67 | a struct, or a pointer to one, refers to the definition of that struct and records it |
| Schema.InspectThroughPointer | reflect.go:33-35 | one pointer in front of a non-pointer type does not change the property |
| Schema.InspectScalarAgrees | reflect.go:37-58 | for every scalar but plain uint, the type `inspect` gives equals the type `jsonSchemaType` gives |
| Schema.InspectUintUntyped | reflect.go:38-44 | plain uint gets no type from `inspect`, although `jsonSchemaType` calls it integer |
| Schema.PrimitiveStructByName | reflect.go:213-238 | a struct counts as primitive exactly when its name is non-empty and occurs in "time.Time time.Duration json.Number" |
| Schema.PrimitiveNamesHoldTime | reflect.go:237 | the substring test accepts the bare name "Time" |
| Schema.BuildMapTypeBytes | reflect.go:145-160 | a map of byte slices has array values with integer items, and a map of slices of byte slices has string values |
| Schema.BuildMapTypeStructRef | reflect.go:169-177 | a map of struct pointers records the struct and refers to its printed name without '*' |
| Schema.BuildMapTypePrimitive | reflect.go:145-173 | for every map whose value is not an interface, slice or array and counts as primitive, the value shape is exactly the value's `jsonSchemaType` under its printed name, with the value's Go type and no reference or items |
| Schema.BuildMapTypeScalarAgrees | reflect.go:171-173 | for every scalar map value but plain uint, the value shape and `inspect` of the same type record the same Go type, and give the same schema type unless the printed name is one of the three well-known names |
| Objects.JsonName | reflect.go:295-306 | the json name holds no comma; it is a prefix of the field name when the trimmed tag is empty or starts with a comma, and otherwise a non-empty prefix of the trimmed tag |
| Objects.BeforeIdempotent | reflect.go:301-306 | cutting at the first comma a second time changes nothing |
| Objects.Decorate | reflect.go:317-328 | a non-empty example tag sets the example; desc beats description; a non-empty enum tag becomes comma-separated values that join back to the tag; nothing else changes |
| Objects.BuildProperty | reflect.go:275-332 | the required names are the json names of the struct's own fields that carry a required key, in order; each is a property; keys are non-empty, comma-free and never "-" |
| Objects.AddField | reflect.go:278-330 | an unexported field changes nothing; an embedded one merges its struct's properties without its required names; a direct one stores its decorated property under its json name |
| Objects.BuildPropertyKeys | reflect.go:278-330 | a key is present exactly when some field provides it, directly or through an embedded struct |
| Objects.HonorJsonIgnore | reflect.go:281-310 | a struct whose fields are all unexported or tagged "-" has no properties |
| Objects.DefinedType | reflect.go:343-349 | the described type is the slice element with one pointer stripped, and mentions no new structs |
| Objects.DefineObject | reflect.go:334-372 | IsArray holds exactly for slices; a struct becomes an object named by `makeName` with its properties, required names and the given description; anything else is named by its kind, with the type and format `inspect` gives and no properties |
| Objects.DefineObjectNameDot | reflect.go:351-367 | a definition name holds a dot exactly when it names a struct |
| Objects.DefineObjectScalarExamples | reflect_test.go:108-128 | int32, uint64 and string are defined under their kind names with the types and formats the tests expect |
| Objects.DefineObjectByteExamples | reflect_test.go:129-147 | uint8 and []uint8 are both defined as "uint8" integers of format int32, the slice as an array |
| Objects.MakeSchema | reflect.go:402-419 | a slice prototype gives an array whose item refers to the definition; any other prototype gives only a reference to it |
| Registry.Saturate | reflect.go:382-396 | the structs reached from a set include it and are closed under "a stored property records this struct" |
| Registry.SaturateLeast | reflect.go:382-396 | they are the least such closed set |
| Registry.Define | reflect.go:374-399 | on success the map holds the prototype's definition, keys its objects by name, and is complete and nil-free, with keys among the reachable structs' names; under distinct names it panics exactly when a reachable struct has a property with no Go type, and otherwise its keys are exactly the root and the reachable structs' names, whatever the map order |
| Registry.DefineDone | reflect.go:382-396 | a map with no pending property is complete, and has the key set `Define` promises |
| Registry.RootSound | reflect.go:377-378 | the map holding only the prototype's definition satisfies the loop invariant |
| Registry.Grow | reflect.go:386-392 | defining one pending struct keeps the invariant and strictly adds a key within the names `define` can store, so the loop ends |
| Registry.GrowSound | reflect.go:386-390 | a pending child is a declared, reachable struct, defined with its referrer's description |
| Registry.KeysReached | reflect.go:374-399 | every stored name is the root's or a reachable struct's |
| Registry.ReachedKeys | reflect.go:374-399 | under distinct names a complete map stores every reachable struct under its name |
| Registry.NilReached | reflect.go:386 | under distinct names a stored property has no Go type exactly when some reachable struct has such a property |
| Registry.MakeNameCollision | util.go:66-74 | two structs with the same name in packages with the same base share a definition name, so names need not be distinct |
| Document.ParseMethodName | api.go:106-125 | a method string selects a slot exactly when it is that slot's upper-case constant |
| Document.ParseMethodCaseSensitive | api.go:106-125 | slot lookup is case-sensitive: "get" selects nothing, while its upper-cased form selects Get |
| Document.ParseMethodFoldsLongS | api.go:217-234 | upper-casing folds long s, so "poſt" selects Post, while "gét" selects nothing |
| Document.ParseMethodFoldsDotlessI | api.go:217-234 | upper-casing folds dotless i, so "optıons" selects Options |
| Document.Rank | api.go:146-174 | each slot's position in the walk order is below 9, and the walk order at that position is the slot |
| Document.WalkSlots | api.go:146-174 | the walk visits only stored slots, in strictly increasing walk order, and visits every stored slot |
| Document.WalkSlotsCount | api.go:146-174 | the walk visits as many slots as are stored, so each exactly once |
| Document.Clone | api.go:191-204 | a clone equals the document in every public field and has no pending tags |
| Document.CloneIgnoresPending | api.go:191-204 | two documents clone alike exactly when they differ at most in their pending tags, and cloning a clone changes nothing |
| Document.Scheme | api.go:334-346 | the scheme is a non-empty X-Forwarded-Proto, else https under TLS, else the URL scheme, else http |
| Document.Served | api.go:331-352 | the served copy has the request host, one scheme, the chosen one, and no pending tags; nothing else changes |
| Document.ServedIgnoresPending | api.go:331-352 | the served document does not depend on the pending tags, and serving a served document gives what serving the original would |
| Document.SchemeForwarded | api.go:338-340 | forwarding the chosen scheme chooses it again, whatever the TLS state and URL |
| Api.AddPath | api.go:206-239 | the path set gains exactly the endpoint's path; an unknown upper-cased method panics, with the path entry already created; otherwise the endpoint fills exactly its slot and every other slot and path is unchanged |
| Api.AddPathOverwrites | api.go:217-235 | adding a path and method again replaces the earlier endpoint |
| Api.AddPathCommutes | api.go:206-239 | endpoints in different slots can be added in either order |
| Api.SamePathCommutes | api.go:206-239 | two methods of one path can be added in either order |
| Api.OtherPathsCommute | api.go:206-239 | endpoints of different paths can be added in either order |
| Api.Lookup | api.go:103-125 | dispatch finds an endpoint only for a stored path and a known method constant |
| Api.LookupAfterAddPath | api.go:103-125 | after `addPath`, dispatch with the upper-cased method finds the endpoint, and a newly found endpoint was added under that method |
| Api.Merge | api.go:250-254 | first-wins merge: the keys are the union, existing entries never change, new keys take the incoming objects |
| Api.MergeIdempotent | api.go:250-254 | merging the same definitions twice changes nothing more |
| Api.MergeAssociative | api.go:250-254 | merging is associative |
| Api.MergeIdentity | api.go:250-254 | the empty definitions are a two-sided identity of merging |
| Api.ParamPrototypes | api.go:246-257 | the prototypes are exactly those of the parameters that carry a schema |
| Api.ResponsePrototypes | api.go:259-270 | the prototypes are exactly those of the listed responses that carry a schema |
| Api.Codes | api.go:260 | the response codes, each of them exactly once and nothing else, in the map's order |
| Api.DefinitionNameAgrees | reflect.go:343-367 | the name `defineObject` gives a prototype is its struct's definition name or its kind |
| Api.CoversGrows | api.go:250-254 | a covered prototype stays covered as the definitions grow |
| Api.Absorb | api.go:249-254 | merging one prototype's definitions grows them and covers it; on success the result is exactly the old definitions merged first-wins with a map meeting `define`'s contract, so a new key holds the object `define` built and no other key is added; under distinct names it fails exactly when `define` panics |
| Api.AbsorbAll | api.go:246-270 | the result is the old definitions merged, in order, with one map per prototype up to the first panic, each meeting `define`'s contract for its prototype; it grows the definitions and covers all prototypes, or, under distinct names, fails exactly at the first prototype whose `define` panics |
| Api.DefineAll | api.go:246-270 | `define` of each prototype in order, stopping at the first panic, which under distinct names happens exactly when some prototype's `define` panics, and at that prototype |
| Api.MergeAllGrows | api.go:250-254 | merging maps in one after another never changes or removes an entry |
| Api.MergeAllCovers | api.go:246-270 | merging in what `define` returned for every prototype covers each of them |
| Api.DefinedCovers | api.go:249-254 | a map `define(t)` returned, merged into any definitions, covers `t` |
| Api.AllDefinedAt | api.go:246-270 | the pairwise `define` relation read at each index: the `i`-th map meets `define`'s contract for the `i`-th prototype |
| Api.AddDefinition | api.go:241-271 | only the definitions change; they are the old ones merged, in order, with one `define` map per prototype, parameters first and then the responses in the map's order, each code once, up to the first panic; they only grow; on success they cover every prototype of the endpoint; under distinct names it panics exactly when one prototype's `define` does |
| Api.TagNames | api.go:293-296 | the pending tag names, in order |
| Api.AppendNewFacts | api.go:274-286 | appending tags keeps the old ones as a prefix, adds only given tags, leaves every given name present, and never duplicates a name |
| Api.AppendNewPresent | api.go:274-286 | tags whose names are all present change nothing |
| Api.WithTags | api.go:273-289 | the pending tags become the argument list; the document tags keep their prefix, gain only given tags, hold every given name and stay duplicate-free; nothing else changes |
| Api.WithTagsIdempotent | api.go:273-289 | calling `WithTags` twice with the same tags is calling it once |
| Api.WithTagsExample | api.go:273-289 | a repeated name with a new description is not appended again |
| Api.Tagged | api.go:298 | the pending names are appended to the endpoint's tags, in order and without removing duplicates |
| Api.Register | api.go:299-300 | one endpoint: the path table is what `addPath` leaves, gaining exactly the endpoint's path, keeping every other slot and adding no other; definitions only grow; on success its slot holds it and its prototypes are covered |
| Api.AddEndpoint | api.go:292-303 | every endpoint gets the pending names; the paths gain exactly the endpoints' paths, every slot no endpoint selects survives, and no other slot appears, also up to the endpoint that panics; on success the pending tags are cleared, the last endpoint of each slot holds it, and all prototypes are covered; a panic keeps the pending tags |
| Api.Step | api.go:297-301 | one loop round leaves the path table `addPath` of one more endpoint leaves and advances the coverage of `AddEndpoint` by that endpoint |
| Api.RegisterAll | api.go:297-301 | the loop registers the endpoints in order; it stops at the first panic, having tried that many, and otherwise tries them all; the path table is what their `addPath` calls leave |
| Api.AddPathFrame | api.go:206-239 | whether or not it panics, `addPath` adds exactly the endpoint's path, keeps every slot but its own and adds no other |
| Api.AddPathEffect | api.go:206-239 | `addPath` leaves the path table with the endpoint's path entry created and, for a known method, that slot filled, whether or not it panics |
| Api.PathsAfterFramed | api.go:297-301 | after `addPath` of the first k endpoints the paths are the old ones and theirs, unselected slots are the old ones, and every slot is old or selected |
| Api.PathsAfterHolds | api.go:297-301 | after `addPath` of the first k endpoints, all with known methods, each endpoint no later one replaces holds its slot |
| Api.AdvanceFrame | api.go:297-301 | a step that adds one endpoint's path, keeps every other slot and adds no other extends the frame by that endpoint |
| Api.SelectedMeans | api.go:217-235 | a slot is selected exactly when one of the endpoints names its path and, upper-cased, its method |
| Api.PathsOfMeans | api.go:207-215 | a path is among the endpoints' paths exactly when one of them names it |
| Api.KeepHolds | api.go:297-301 | an endpoint no later one replaces keeps its slot |
| Api.KeepCovers | api.go:297-301 | earlier endpoints' prototypes stay covered |
| Api.AddTag | api.go:322-327 | exactly one tag is appended with the given name and description; nothing else changes |
| Api.AddTagDuplicates | api.go:322-327 | `AddTag` appends a name twice, whereas `WithTags` stores it once |
| Api.AddTagDistinct | api.go:322-327 | after `AddTag` the tag names are distinct exactly when they were and the new name is not among them |
| Api.Walk | api.go:355-362 | the visits are those of the stored paths taken one after another, each path exactly once in some order; so every stored endpoint is visited under the base path joined to its path, and every visit is such a pair |
| Api.PathVisits | api.go:146-174 | one path's visits are its filled slots, each exactly once, in the order Delete, Head, Get, Options, Post, Put, Patch, Trace, Connect, each under the joined path |
| EndpointBuilder.Path | endpoint/endpoint.go:107-109 | a path parameter with an empty default and the given required flag |
| EndpointBuilder.PathString | endpoint/endpoint.go:115-117 | a required string path parameter with an empty default |
| EndpointBuilder.Query | endpoint/endpoint.go:135-137 | a query parameter with an empty default and the given required flag |
| EndpointBuilder.QueryString | endpoint/endpoint.go:143-145 | an optional string query parameter with an empty default |
| EndpointBuilder.ResponseSuccess | endpoint/endpoint.go:278-280 | the response is stored under "200" with description "success" |
| EndpointBuilder.AddToSet | endpoint/endpoint.go:174-176 | the result holds the old elements and the new one, each once |
| EndpointBuilder.Dedup | endpoint/endpoint.go:174-176 | the result holds the same elements, each once |
| EndpointBuilder.ApplyResponse | endpoint/endpoint.go:236-254 | a schema option sets the schema to `MakeSchema` of the prototype; a header option overwrites that header by name and changes nothing else |
| EndpointBuilder.ApplyResponses | endpoint/endpoint.go:258-271 | header options alone keep the description and schema |
| EndpointBuilder.Apply | endpoint/endpoint.go:62-286 | each option changes only its field: `Summary`, `Description`, `OperationID`, `Produces` and `Consumes` set theirs; a parameter is appended; form data also adds multipart to the consumed types as a set; a body carries `MakeSchema`; tags append; a security option appends one requirement and keeps the disabled flag; `NoSecurity` disables with no requirements; a response is stored under its code and overwrites; `Deprecated` only sets the flag |
| EndpointBuilder.Initial | endpoint/endpoint.go:31-38 | the method is upper-cased; produces and consumes default to JSON; the operation id is derived from method and path before any option |
| EndpointBuilder.New | endpoint/endpoint.go:31-44 | the endpoint keeps the upper-cased method and the path whatever the options; its operation id is the one the last `OperationID` option gives, and the derived one when there is none |
| EndpointBuilder.ApplyAllKeepsRoute | endpoint/endpoint.go:39-41 | no option changes the method or the path |
| EndpointBuilder.DerivedIDKept | endpoint/endpoint.go:38-41 | without an `OperationID` option the operation id is kept |
| EndpointBuilder.ApplyAllSnoc | endpoint/endpoint.go:39-41 | options apply in order: one more option is one more step at the end |
| EndpointBuilder.ParamAppends | endpoint/endpoint.go:96-103 | every parameter option appends exactly one parameter and keeps the earlier ones |
| EndpointBuilder.OperationIDWins | endpoint/endpoint.go:38-41 | an operation id set before the options survives every option other than `OperationID` |
| EndpointBuilder.ApplyAllConcat | endpoint/endpoint.go:39-41 | options apply as a fold: two lists one after the other are applied one after the other |
| EndpointBuilder.LastOperationIDWins | endpoint/endpoint.go:38-41 | the last `OperationID` option decides the operation id, whatever the id was before and whatever options surround it |
| EndpointBuilder.ApplyOperationID | endpoint/endpoint.go:76-80 | options other than `OperationID` commute with setting the operation id |
| EndpointBuilder.SecurityAfterNoSecurity | endpoint/endpoint.go:211-230 | a security requirement added after `NoSecurity` is appended while security stays disabled |
| EndpointBuilder.SecurityExample | endpoint/endpoint_test.go:278-290 | two security options give two requirements in order, not disabled, with the scopes as given |
| Swag.APIKeySecurityOption | option/security.go:58-67 | building the option panics exactly when the location is neither "header" nor "query" |
| Swag.ApplyScheme | option/security.go:42-91 | each scheme option changes only its fields; `OAuth2Scope` adds one scope to a possibly new map; `OAuth2Security` keeps scopes added earlier |
| Swag.OAuth2ScopesAccumulate | option/security.go:70-91 | scopes added before `OAuth2Security` accumulate and survive it |
| Swag.ApplySchemeIdempotent | option/security.go:42-91 | applying the same scheme option twice is applying it once |
| Swag.BasicSecurity | swag.go:155-157 | the basic scheme is the zero scheme after the basic option |
| Swag.APIKeySecurity | swag.go:162-171 | panics exactly on an invalid location; otherwise an apiKey scheme with the given name and location |
| Swag.OAuth2Security | swag.go:175-183 | an oauth2 scheme with the given flow and URLs and an empty, allocated scope map; nothing else set |
| Swag.ConstructorsAgreeWithOptions | swag.go:155-183 | the document-level constructors equal the zero scheme after the matching option |
| Swag.ApplyTag | option/tag.go:39-56 | `TagDescription` and `TagURL` allocate the docs when absent and set only their own field |
| Swag.TagDocsIndependent | option/tag.go:39-56 | description and URL survive each other in either order |
| Swag.MakeTag | option/tag.go:22-33 | the tag keeps the given name and description whatever its options |
| Swag.ApplyTagsKeepsName | option/tag.go:28-30 | tag options never change the name or description |
| Swag.SecuritySchemeOption | option/security.go:24-36 | the stored scheme is the zero scheme after the options, in order |
| Swag.TagWith | option/tag.go:22-33 | the option appends the tag `MakeTag` builds |
| Swag.Set | option/option.go:22-110 | each setter changes only its own field; `ContactEmail` sets the contact; `Tag` appends; a security scheme overwrites by name; `Security` appends one requirement with an empty, non-nil scope list and keeps the disabled flag |
| Swag.SetIdempotent | option/option.go:22-86 | a setter applied twice is applied once |
| Swag.SetCommutes | option/option.go:22-86 | setters of different fields commute |
| Swag.TagOptionDuplicates | option/tag.go:31 | the tag option appends even a tag already present |
| Swag.ApplyOption | api.go:306-310 | a setter option applies `Set`; the endpoints option is `AddEndpoint`, which clears the pending tags |
| Swag.AddOptions | api.go:306-310 | setter options apply in order |
| Swag.AddEndpointFunc | api.go:315-320 | the functions apply in order and the pending tags are cleared |
| Swag.Defaults | swag.go:20-35 | the base path, Swagger version, schemes and Info defaults are the literal ones, and nothing else is set |
| Swag.New | swag.go:20-41 | the options apply in order to the defaults |
| Swag.SetAllSnoc | swag.go:37-39 | one more option is one more step at the end |
| Swag.SecurityExample | option/option.go:96-110 | two security options give two requirements in order, with empty and given scopes |
| LegacyUtil.MakeName | swagger/util.go:30-38 | a legacy name holds no '-'; it is the package base, with '-' turned into '_', followed by the local name |
| LegacyUtil.MakeNameDropsDot | swagger/util.go:36 | the legacy name is the root name with its separating dot removed |
| LegacyUtil.MakeNameAnonymous | swagger/util.go:32-37 | a type literal is called ".ptr" and its decimal address |
| LegacyUtil.MakeNamePredeclared | swagger/util.go:30-38 | a predeclared scalar is called "." followed by its kind |
| LegacyUtil.MakeNameCollision | swagger/util.go:36 | types whose package base and name concatenate alike collide, even where the root names differ |
| LegacyReflect.RecordedType | swagger/reflect.go:67-79 | the recorded Go type mentions only structs the field type mentions |
| LegacyReflect.RefTo | swagger/util.go:26-28 | a legacy reference resolves to the legacy definition name |
| LegacyReflect.SliceItems | swagger/reflect.go:76-105 | an element has an item reference exactly when it is a pointer or struct, whatever the pointer points to; items have no type exactly for bool, uint and non-scalars |
| LegacyReflect.Plain | swagger/reflect.go:40-61 | a scalar records itself with the table's type and format and nothing else |
| LegacyReflect.Inspect | swagger/reflect.go:30-109 | the ",string" short-cut as in the root package; a reference exactly for pointers and structs, with no pointer stripped first; items exactly for slices; no map case, so a map records only its type |
| LegacyReflect.InspectScalarAgrees | swagger/reflect.go:40-61 | on scalars the legacy and root `inspect` agree |
| LegacyReflect.InspectPointerToScalar | swagger/reflect.go:67-70 | a pointer to a scalar becomes a typeless reference to ".kind", where the root package describes the scalar |
| LegacyReflect.InspectMapBare | swagger/reflect.go:40-106 | a map field only records its type, where the root package makes it an object with a value shape |
| LegacyReflect.InspectStructRefs | swagger/reflect.go:63-65 | both packages refer to a struct field's own definition, each under its own naming |
| LegacyReflect.Classify | swagger/reflect.go:175-191 | a trimmed entry is required exactly when it starts with "required", an example only if it starts with "example", a description only if it starts with "desc", and ignored exactly when it starts with none of them; an example's value is the entry with every leading character of "example:" cut away |
| LegacyReflect.ClassifyExampleSwallowed | swagger/reflect.go:180-181 | an example whose value uses only characters of "example:" comes out empty |
| LegacyReflect.ClassifyExampleApple | swagger/reflect.go:181 | "example:apple" gives the empty example |
| LegacyReflect.ClassifyDescriptionValue | swagger/reflect.go:184-186 | "description:" followed by a value that starts outside that cut set and ends unpadded gives the value |
| LegacyReflect.ApplyExtrasRequired | swagger/reflect.go:174-179 | the required names gain the field name once per required entry |
| LegacyReflect.ApplyExtrasValues | swagger/reflect.go:180-191 | the last example and the last description entry win, and nothing else of the property changes |
| LegacyReflect.FieldEntry | swagger/reflect.go:153-193 | the field's property records a Go type mentioning only the field's structs, and every required name it gives is its json name |
| LegacyReflect.Entry | swagger/reflect.go:147-168 | a field gives an entry exactly when it is exported and not tagged "-" |
| LegacyReflect.FoldLastWins | swagger/reflect.go:144-196 | the property under a key is that of the last field with that key |
| LegacyReflect.BuildFieldsKeys | swagger/reflect.go:144-196 | a key is present exactly when some kept field has that json name |
| LegacyReflect.BuildFieldsLastWins | swagger/reflect.go:144-196 | a kept field that no later field shadows supplies its own property |
| LegacyReflect.BuildFieldsShape | swagger/reflect.go:144-196 | every required name is a key, keys are never "-" or comma-bearing, and every property records a declared Go type |
| LegacyReflect.DefineObject | swagger/reflect.go:111-206 | as the root `defineObject` but with legacy names, `swag` tags, no embedded flattening and no description |
| LegacyReflect.DefineObjectScalarAgrees | swagger/reflect.go:132-142 | on scalars the legacy and root definitions are equal |
| LegacyReflect.DefineObjectStructName | swagger/reflect.go:198-205 | a struct's legacy definition name is the root one without its dot |
| LegacyReflect.Define | swagger/reflect.go:208-233 | the map holds the prototype's definition, keys its objects by name, is complete and nil-free, and every child is the definition of a struct a stored property records |
| LegacyReflect.InitInv | swagger/reflect.go:211-212 | the map holding only the root satisfies the loop invariant |
| LegacyReflect.Grow | swagger/reflect.go:220-226 | defining one pending struct keeps the invariant and strictly shrinks the set of names still to be added |
| LegacyReflect.NoPendingComplete | swagger/reflect.go:216-230 | a map with no pending property is complete |
| LegacyReflect.MakeSchema | swagger/reflect.go:236-253 | a slice prototype gives an array whose item refers to the legacy definition; any other only a reference |
| LegacyReflect.MakeSchemaAgrees | swagger/reflect.go:236-253 | the legacy and root schemas have the same shape, and are equal for non-struct prototypes |
| LegacyApi.DefinitionNameAgrees | swagger/reflect.go:123-205 | the legacy definition name of a prototype is its struct's legacy name or its kind |
| LegacyApi.CoversGrows | swagger/api.go:303-307 | a covered prototype stays covered as the definitions grow |
| LegacyApi.MergeComplete | swagger/api.go:301-307 | first-wins merging of two complete maps is complete |
| LegacyApi.Absorb | swagger/api.go:301-307 | merging one prototype's definitions grows them, covers it, keeps them complete, and is exactly the old definitions merged first-wins with a map meeting the legacy `define`'s contract |
| LegacyApi.AbsorbAll | swagger/api.go:299-322 | the result is the old definitions merged, in order, with one legacy `define` map per prototype; it grows the definitions, covers all of them and keeps them complete |
| LegacyApi.DefineAll | swagger/api.go:299-322 | the legacy `define` of each prototype in order, one map per prototype |
| LegacyApi.MergeAllCovers | swagger/api.go:299-322 | merging in what the legacy `define` returned for every prototype covers each of them |
| LegacyApi.MergeAllComplete | swagger/api.go:299-322 | merging complete `define` maps into complete definitions keeps them complete |
| LegacyApi.AllDefinedAt | swagger/api.go:299-322 | the pairwise legacy `define` relation read at each index |
| LegacyApi.AddDefinition | swagger/api.go:294-324 | only the definitions change; they are the old ones merged, in order, with one legacy `define` map per prototype, parameters first and then the responses in the map's order, each code once; they only grow, never panic, cover every prototype and stay complete |
| LegacyApi.Register | swagger/api.go:328-331 | one endpoint: it panics exactly on an unknown method; the path table is what `addPath` leaves, keeping every other slot and adding no other; on success it holds its slot untagged and its prototypes are covered |
| LegacyApi.AddEndpoint | swagger/api.go:327-332 | the pending tags and tags are untouched; it panics exactly when some endpoint's method is unknown, at the first such; the paths gain exactly the endpoints' paths tried, every slot none of them selects survives and no other appears; on success the last endpoint of each slot holds it and every prototype is covered |
| LegacyApi.Step | swagger/api.go:328-331 | one loop round leaves the path table `addPath` of one more endpoint leaves and advances the coverage, or panics, at that endpoint as the first with an unknown method |
| LegacyApi.RegisterAll | swagger/api.go:328-331 | the loop registers the endpoints in order and stops at the first with an unknown method; the path table is what the `addPath` calls tried leave |
| LegacyApi.PanicFramed | swagger/api.go:328-331 | a panic at the first unknown method leaves the paths framed by the endpoints up to it |
| LegacyApi.KeepCovers | swagger/api.go:328-331 | earlier endpoints' prototypes stay covered |
| LegacyApi.AddEndpointFunc | swagger/api.go:334-338 | a single function is just applied |
| LegacyApi.AddEndpointFuncConcat | swagger/api.go:334-338 | applying two lists of functions is applying the first, then the second |

## Where the code and its tests disagree

The model follows the code. Its tests disagree with it in these places:

- An anonymous type is named "..ptrN" by `util.go:72`, because the base of
  an empty package path is ".". The test helper at `util_test.go:32-35`
  expects ".ptrN". `Naming.MakeNameAnonymous` and
  `Naming.MakeNameAnonymousDiffersFromTest` state the code's behaviour.
  The legacy `makeName` has no dot and does produce ".ptrN"
  (`LegacyUtil.MakeNameAnonymous`).
- The default Info URLs in `swag.go:29,32` use `http://`. The test at
  `api_test.go:109,112` expects `https://`. `Swag.Defaults` states the
  code's values.
- `api_test.go` is ahead of `api.go`:
  - it uses `WithGroup` and `prefixPath` (`api_test.go:231,740-779`);
  - it expects `AddEndpoint` to fill the operation id (`api_test.go:672`).

  None of these exists in `api.go:292-303`, so `Api.AddEndpoint` does none
  of them.
- `endpoint/endpoint_test.go` calls `PathS`, `QueryS`,
  `SchemaResponseOption` and `HeaderResponseOption`, which
  `endpoint/endpoint.go` does not define. It also expects the dot-less
  legacy reference name. Those expectations are not modelled.
- Plain `uint` is missing from the kind switches of both `inspect`
  functions, so a `uint` field gets no type. `Schema.InspectUintUntyped`
  states this. `jsonSchemaType` calls the same kind "integer".
- The legacy `swag` tag values go through `strings.TrimLeft`, which cuts a
  character set, not a prefix. "example:apple" therefore yields an empty
  example (`LegacyReflect.ClassifyExampleApple`).
- Without the dot, legacy definition names of different types can coincide
  (`LegacyUtil.MakeNameCollision`). The root names can also coincide, for
  same-named types in packages with the same base
  (`Registry.MakeNameCollision`). The root `Registry.Define` therefore
  states its exact key set only when names are distinct.

## Left out

- UI and asset serving: `UIPatterns` and `UIHandler` in `api.go`, and the
  legacy `registerMux`, `RegisterMux*` and `DirFS`. These are HTTP and
  embedded-filesystem I/O.
- Handler invocation in `Endpoints.ServeHTTP`, JSON writing, and the CORS
  headers of the legacy `Handler`. These are HTTP writes; only slot lookup
  and the scheme choice are modelled.
- `encoding/json` serialisation, including `SecurityRequirement.MarshalJSON`.
  `Endpoint.BuildOperationID` is not part of this model. The operation id
  its tests expect is `Naming.OperationID`, and `EndpointBuilder.Initial`
  uses it.
- The context helpers of `types/types.go`. This is `context.Context`
  plumbing; only the `ParameterType` strings are kept.
- `examples/builtin/main.go`, which is demo wiring.
- The order of the set library behind `FormData`. `Consumes` is promised
  only as a set.
- Go map iteration order in `define`, `addDefinition` and `API.Walk`.
  Every contract holds for any order.
- Root-package structs with an exported embedded pointer or an exported
  embedded non-struct are excluded by `GoTypes.WellFormed`: on those
  `buildProperty` calls `NumField` on a non-struct type, which panics in
  Go. The legacy package requires only `GoTypes.Typed` and accepts them.
- The scalar kinds `uintptr`, `complex64` and `complex128`, and the kinds
  `chan`, `func` and `unsafe.Pointer`, have no `GoTypes.GoType`. Both
  `inspect` functions give such a field a property with no type; the model
  cannot express those fields.
- Api.AddEndpoint: Go appends the pending tags to the caller's `*Endpoint`
  in place. The same pointer passed twice gets the tags twice; an endpoint
  registered in two documents piles up both documents' tags; the caller's
  endpoint is changed even when `addPath` then panics. The model passes
  endpoints by value: each stored endpoint carries the tags once, and the
  caller's value is untouched.
- Api.AddPath, EndpointBuilder.Initial and Naming.OperationID: `ToUpper`
  and `ToLower` fold only the runes whose other case is ASCII (the ASCII
  letters, dotless i, long s, the Kelvin sign and capital I with dot
  above); every other rune is kept. The method slot `addPath` selects is
  therefore exactly Go's, but for a verb holding another non-ASCII letter
  the stored verb and the operation id keep that letter in its original
  case, where Go changes it.
- The `Handler` endpoint option and the handler field: the handler is a Go
  function that the document never inspects.
- Panics on nil arguments. `GoTypes.GoType`, `Document.Tag`,
  `Document.SecurityScheme` and `Document.Endpoint` have no nil value, so the
  model cannot pass nil where Go panics on it: `MakeSchema(nil)` and
  `endpoint.Body(nil, …)` call `Kind()` on the nil type `reflect.TypeOf(nil)`
  returns, in both packages' `defineObject`; `TagOption(nil)` and
  `SecuritySchemeOption(name, nil)` dereference the pointer, the latter
  after allocating the scheme map; and `AddEndpoint` with a nil endpoint
  dereferences it after registering the endpoints before it.
  `Objects.MakeSchema`, `EndpointBuilder.Apply`, `Swag.Set` and
  `Api.AddEndpoint` therefore never panic on such inputs.
- Nil and empty slices and maps are not told apart, except for the scope
  maps the code checks for nil.
- `filepath.Base` is modelled concretely for Unix paths rather than as an
  opaque function. The "..ptrN" naming follows from that definition.
- Registry.Define: the key set is stated exactly only when definition
  names are distinct (`Registry.NamesInjective`). Otherwise the model states
  only a bound on it, because which of two colliding structs is stored
  depends on map order.
- LegacyReflect.Define: the key set is only bounded by the root's name and
  the names of all declared structs. There is no exact characterisation by
  reachability as for the root package.
- Swag.AddEndpointFunc: the functions of the root `AddEndpointFunc` are
  modelled as document options, not as arbitrary functions. The legacy
  `LegacyApi.AddEndpointFunc` takes arbitrary functions.
- Swag.AddOptions and Swag.New: their contracts cover only option lists
  without the endpoints option; an endpoints option is covered by
  `Swag.ApplyOption`.
