/** The reflection engine of the legacy `swagger` package
    (swagger/reflect.go): `inspect`, `defineObject`, `define` and
    `MakeSchema` as they stood before the root package replaced them. The
    legacy engine strips no pointer before its kind switch, ignores
    embedding and maps, reads its documentation from one comma-separated
    `swag` tag, and always records a Go type, so its `define` cannot
    panic. */
module LegacyReflect {
  import opened Wrappers
  import opened Text
  import opened GoTypes
  import Naming
  import Schema
  import Objects
  import LegacyUtil
  import Registry

  type Property = Schema.Property
  type Object = Schema.Object

  /** Definitions by name. */
  type Defs = map<string, Object>

  // ---------------------------------------------------------------------
  // inspect

  /** The Go type the legacy `inspect` records: a pointer's element, a
      slice's element with one more pointer stripped, the type itself
      otherwise. */
  function RecordedType(t: GoType): (r: GoType)
    ensures StructIds(r) <= StructIds(t)
  {
    match t
    case Ptr(e) => e
    case Slice(e) => Deref(e)
    case _ => t
  }

  /** A reference to the legacy definition of `g`. */
  function RefTo(u: Universe, g: GoType): (r: string)
    ensures r != "" && Naming.RefTarget(r) == Some(LegacyUtil.MakeName(u, g))
  {
    Naming.RefTargetMakeRef(LegacyUtil.MakeName(u, g));
    Naming.MakeRef(LegacyUtil.MakeName(u, g))
  }

  /** The array item the legacy `inspect` builds for a slice element `e`:
      a reference for a struct or a pointer, the numeric or string row of
      the kind table for a scalar (nothing for `bool` and plain `uint`),
      nothing for any other element. */
  function SliceItems(u: Universe, e: GoType): (r: Schema.Items)
    ensures r.ref != "" <==> e.Ptr? || e.Struct?
    ensures r.ref != "" ==> r.typ == "" && r.format == "" && Naming.RefTarget(r.ref) == Some(LegacyUtil.MakeName(u, Deref(e)))
    ensures r.format != "" ==> r.typ in {Schema.Integer, Schema.Number}
    ensures r.typ == "" <==> !e.Basic? || e.scalar in {Bool, Uint}
  {
    match e
    case Ptr(x) => Schema.Items("", "", RefTo(u, x))
    case Struct(_) => Schema.Items("", "", RefTo(u, e))
    case Basic(s, _) => Schema.Items(Schema.NumericFormat(s).0, Schema.NumericFormat(s).1, "")
    case _ => Schema.NoItems
  }

  /** A property that records `g` and nothing else. */
  function Plain(g: GoType, typ: string, format: string): (r: Property)
    ensures r.goType == Some(g) && r.typ == typ && r.format == format && r.ref == "" && r.items.None?
    ensures r.addProps.None? && r.description == "" && r.example == "" && r.enum == []
  {
    Schema.Property(Some(g), typ, "", [], format, "", "", None, None)
  }

  /** `inspect(t, jsonTag)` of the legacy package. */
  function Inspect(u: Universe, t: GoType, jsonTag: string): (r: Property)
    ensures r.goType == Some(if Contains(jsonTag, ",string") then t else RecordedType(t))
    ensures Contains(jsonTag, ",string") ==>
      r.typ == Schema.StringType && r.format == "" && r.ref == "" && r.items.None?
    ensures r.ref != "" ==> Naming.RefTarget(r.ref) == Some(LegacyUtil.MakeName(u, r.goType.value))
    ensures !Contains(jsonTag, ",string") ==> (r.ref != "" <==> t.Ptr? || t.Struct?)
    ensures !Contains(jsonTag, ",string") ==> (r.items.Some? <==> t.Slice?)
    ensures r.typ == Schema.ArrayType <==> r.items.Some?
    ensures r.format != "" ==> r.typ in {Schema.Integer, Schema.Number}
    ensures r.addProps.None? && r.description == "" && r.example == "" && r.enum == []
  {
    if Contains(jsonTag, ",string") then
      Plain(t, Schema.StringType, "")
    else
      match t
      case Basic(s, _) =>
        if s == Bool then Plain(t, Schema.Boolean, "")
        else Plain(t, Schema.NumericFormat(s).0, Schema.NumericFormat(s).1)
      case Struct(_) => Schema.Property(Some(t), "", "", [], "", RefTo(u, t), "", None, None)
      case Ptr(e) => Schema.Property(Some(e), "", "", [], "", RefTo(u, e), "", None, None)
      case Slice(e) => Schema.Property(Some(Deref(e)), Schema.ArrayType, "", [], "", "", "", Some(SliceItems(u, e)), None)
      case _ => Plain(t, "", "")
  }

  /** On scalars the legacy and the root `inspect` agree exactly. */
  lemma InspectScalarAgrees(u: Universe, s: Scalar, n: Option<TypeName>, jsonTag: string)
    ensures Inspect(u, Basic(s, n), jsonTag) == Schema.Inspect(u, Basic(s, n), jsonTag)
  {
  }

  /** A pointer to a scalar is not dereferenced: the legacy `inspect` makes
      it a reference to a definition named after the scalar's kind, where the
      root package reports the scalar's own type. */
  lemma InspectPointerToScalar(u: Universe, s: Scalar)
    requires s != Uint
    ensures Naming.RefTarget(Inspect(u, Ptr(Basic(s, None)), "").ref) == Some("." + ScalarString(s))
    ensures Schema.Inspect(u, Ptr(Basic(s, None)), "").ref == ""
    ensures Schema.Inspect(u, Ptr(Basic(s, None)), "").typ != ""
    ensures Inspect(u, Ptr(Basic(s, None)), "").typ == ""
  {
    LegacyUtil.MakeNamePredeclared(u, s);
    assert !Contains("", ",string");
  }

  /** A map is recorded bare, with no type and no value shape, where the
      root package makes it an object with additional properties. */
  lemma InspectMapBare(u: Universe, k: GoType, v: GoType)
    ensures Inspect(u, Map(k, v), "") == Schema.Bare(Map(k, v))
    ensures Schema.Inspect(u, Map(k, v), "").typ == Schema.ObjectType
    ensures Schema.Inspect(u, Map(k, v), "").addProps.Some?
  {
    assert !Contains("", ",string");
  }

  /** A struct is referred to in both packages, each under its own naming
      scheme (the legacy one drops the dot, see `LegacyUtil.MakeNameDropsDot`);
      both record the struct itself as the type to define. */
  lemma InspectStructRefs(u: Universe, id: StructId)
    ensures Naming.RefTarget(Inspect(u, Struct(id), "").ref) == Some(LegacyUtil.MakeName(u, Struct(id)))
    ensures Naming.RefTarget(Schema.Inspect(u, Struct(id), "").ref) == Some(Naming.MakeName(u, Struct(id)))
    ensures Inspect(u, Struct(id), "").goType == Schema.Inspect(u, Struct(id), "").goType == Some(Struct(id))
  {
    assert !Contains("", ",string");
  }

  // ---------------------------------------------------------------------
  // the `swag` tag

  /** What one comma-separated entry of a `swag` tag says, after trimming
      white space. The prefixes are tested in order, so an entry starting
      with "description" is never read with the "desc:" cut set. A value is
      what `strings.TrimLeft` leaves with the key and colon as a cut SET:
      every leading character from that set goes, not the prefix once. */
  datatype Extra = Required | Example(value: string) | Describe(value: string) | Ignored

  function Classify(entry: string): (x: Extra)
    ensures x.Required? <==> HasPrefix(TrimSpace(entry), "required")
    ensures x.Example? ==> HasPrefix(TrimSpace(entry), "example") && x.value == TrimLeft(TrimSpace(entry), "example:")
    ensures x.Describe? ==> HasPrefix(TrimSpace(entry), "desc")
    ensures x.Ignored? <==>
      !HasPrefix(TrimSpace(entry), "required") && !HasPrefix(TrimSpace(entry), "example") && !HasPrefix(TrimSpace(entry), "desc")
  {
    ClassifyTrimmed(TrimSpace(entry))
  }

  /** `Classify` of an entry already trimmed. */
  function ClassifyTrimmed(e: string): (x: Extra)
    ensures x.Required? <==> HasPrefix(e, "required")
    ensures x.Example? ==> HasPrefix(e, "example") && x.value == TrimLeft(e, "example:")
    ensures x.Describe? ==> HasPrefix(e, "desc")
    ensures x.Ignored? <==> !HasPrefix(e, "required") && !HasPrefix(e, "example") && !HasPrefix(e, "desc")
  {
    if HasPrefix(e, "required") then Required
    else if HasPrefix(e, "example") then Example(TrimLeft(e, "example:"))
    else if HasPrefix(e, "description") then
      DescriptionIsDesc(e);
      Describe(TrimLeft(e, "description:"))
    else if HasPrefix(e, "desc") then Describe(TrimLeft(e, "desc:"))
    else Ignored
  }

  lemma DescriptionIsDesc(e: string)
    requires HasPrefix(e, "description")
    ensures HasPrefix(e, "desc")
  {
    assert e[..4] == e[..11][..4];
  }

  /** An entry the trimming leaves alone: no white space at either end. */
  lemma TrimSpaceUnpadded(e: string)
    requires |e| > 0 && !IsSpace(e[0]) && !IsSpace(e[|e| - 1])
    ensures TrimSpace(e) == e
  {
  }

  /** An example value made only of the cut set's characters is swallowed
      whole: "example:apple" gives an empty example. */
  lemma ClassifyExampleSwallowed(v: string)
    requires |v| > 0 && forall i | 0 <= i < |v| :: v[i] in "example:"
    ensures Classify("example:" + v) == Example("")
  {
    var e := "example:" + v;
    assert e[0] == 'e' && e[|e| - 1] == v[|v| - 1];
    TrimSpaceUnpadded(e);
    ExamplePrefixes(v);
    ExampleKeyCut(v);
    TrimLeftAll(e, "example:");
  }

  lemma ExamplePrefixes(v: string)
    ensures HasPrefix("example:" + v, "example") && !HasPrefix("example:" + v, "required")
  {
    var e := "example:" + v;
    assert e[..7] == "example:"[..7] == "example";
    assert e[0] == 'e';
  }

  lemma ExampleKeyCut(v: string)
    requires forall i | 0 <= i < |v| :: v[i] in "example:"
    ensures forall i | 0 <= i < |"example:" + v| :: ("example:" + v)[i] in "example:"
  {
    var key := "example:";
    var e := key + v;
    forall i | 0 <= i < |e|
      ensures e[i] in key
    {
      if i < |key| {
        assert e[i] == key[i];
      } else {
        assert e[i] == v[i - |key|];
      }
    }
  }

  lemma ClassifyExampleApple()
    ensures Classify("example:apple") == Example("")
  {
    var v := "apple";
    assert forall i | 0 <= i < |v| :: v[i] in "example:";
    ClassifyExampleSwallowed(v);
    assert "example:" + v == "example:apple";
  }

  /** A description value whose first character is outside the cut set
      survives whole. */
  lemma ClassifyDescriptionValue(v: string)
    requires |v| > 0 && v[0] !in "description:" && !IsSpace(v[|v| - 1])
    ensures Classify("description:" + v) == Describe(v)
  {
    var e := "description:" + v;
    assert e[0] == 'd' && e[|e| - 1] == v[|v| - 1];
    TrimSpaceUnpadded(e);
    DescriptionPrefixes(v);
    DescriptionKeyCut(v);
  }

  lemma DescriptionPrefixes(v: string)
    ensures var e := "description:" + v;
      HasPrefix(e, "description") && !HasPrefix(e, "required") && !HasPrefix(e, "example")
  {
    var e := "description:" + v;
    assert e[..11] == "description:"[..11] == "description";
    assert e[0] == 'd';
  }

  lemma DescriptionKeyCut(v: string)
    requires |v| > 0 && v[0] !in "description:"
    ensures TrimLeft("description:" + v, "description:") == v
  {
    var key := "description:";
    var e := key + v;
    assert forall i | 0 <= i < |key| :: e[i] == key[i];
    assert e[|key|] == v[0];
    TrimLeftSkip(e, key, |key|);
    assert e[|key|..] == v;
  }

  /** `TrimLeft` removes a whole string drawn from the cut set. */
  lemma {:induction false} TrimLeftAll(s: string, cutset: string)
    requires forall i | 0 <= i < |s| :: s[i] in cutset
    ensures TrimLeft(s, cutset) == ""
    decreases |s|
  {
    if |s| > 0 {
      assert forall i | 0 <= i < |s[1..]| :: s[1..][i] == s[i + 1];
      TrimLeftAll(s[1..], cutset);
    }
  }

  /** `TrimLeft` stops at the first character outside the cut set. */
  lemma {:induction false} TrimLeftSkip(s: string, cutset: string, n: nat)
    requires n < |s| && s[n] !in cutset
    requires forall i | 0 <= i < n :: s[i] in cutset
    ensures TrimLeft(s, cutset) == s[n..]
    decreases n
  {
    if n > 0 {
      assert forall i | 0 <= i < n - 1 :: s[1..][i] == s[i + 1];
      TrimLeftSkip(s[1..], cutset, n - 1);
      assert s[1..][n - 1..] == s[n..];
    }
  }

  /** A property with the required names its field contributes. */
  datatype Decorated = Decorated(p: Property, required: seq<string>)

  /** The entries of a `swag` tag applied in order to the field's property:
      `required` appends the field's json name, `example` and
      `description`/`desc` overwrite, anything else is skipped. */
  function ApplyExtras(d: Decorated, name: string, entries: seq<string>): (r: Decorated)
    decreases |entries|
  {
    if |entries| == 0 then d
    else ApplyExtras(ApplyOne(d, name, entries[0]), name, entries[1..])
  }

  /** One entry of a `swag` tag applied to the field's property. */
  function ApplyOne(d: Decorated, name: string, entry: string): (r: Decorated) {
    match Classify(entry)
    case Required => d.(required := d.required + [name])
    case Example(v) => d.(p := d.p.(example := v))
    case Describe(v) => d.(p := d.p.(description := v))
    case Ignored => d
  }

  /** How many entries are `required`. */
  function RequiredCount(entries: seq<string>): nat {
    if |entries| == 0 then 0
    else (if Classify(entries[0]).Required? then 1 else 0) + RequiredCount(entries[1..])
  }

  /** The value of the last `example` entry, if any. */
  function LastExample(entries: seq<string>): Option<string>
    decreases |entries|
  {
    if |entries| == 0 then None
    else
      var later := LastExample(entries[1..]);
      if later.Some? then later
      else if Classify(entries[0]).Example? then Some(Classify(entries[0]).value)
      else None
  }

  /** The value of the last `description` or `desc` entry, if any. */
  function LastDescription(entries: seq<string>): Option<string>
    decreases |entries|
  {
    if |entries| == 0 then None
    else
      var later := LastDescription(entries[1..]);
      if later.Some? then later
      else if Classify(entries[0]).Describe? then Some(Classify(entries[0]).value)
      else None
  }

  /** The name `n` repeated `k` times. */
  function Repeat(n: string, k: nat): (r: seq<string>)
    ensures |r| == k && forall i | 0 <= i < k :: r[i] == n
  {
    seq(k, _ => n)
  }

  /** Applying the entries in order appends the name once per `required`
      entry. */
  lemma {:induction false} ApplyExtrasRequired(d: Decorated, name: string, entries: seq<string>)
    ensures ApplyExtras(d, name, entries).required == d.required + Repeat(name, RequiredCount(entries))
    decreases |entries|
  {
    if |entries| > 0 {
      var d' := ApplyOne(d, name, entries[0]);
      ApplyExtrasRequired(d', name, entries[1..]);
      var k := RequiredCount(entries[1..]);
      if Classify(entries[0]).Required? {
        assert Repeat(name, k + 1) == [name] + Repeat(name, k);
      }
    }
  }

  /** Applying the entries in order: the last `example` and the last
      description win, and nothing else of the property changes. */
  lemma {:induction false} ApplyExtrasValues(d: Decorated, name: string, entries: seq<string>)
    ensures ApplyExtras(d, name, entries).p.example ==
      (if LastExample(entries).Some? then LastExample(entries).value else d.p.example)
    ensures ApplyExtras(d, name, entries).p.description ==
      (if LastDescription(entries).Some? then LastDescription(entries).value else d.p.description)
    ensures ApplyExtras(d, name, entries).p.(example := d.p.example, description := d.p.description) == d.p
    decreases |entries|
  {
    if |entries| > 0 {
      ApplyExtrasValues(ApplyOne(d, name, entries[0]), name, entries[1..]);
    }
  }

  // ---------------------------------------------------------------------
  // defineObject

  /** A field the legacy fold turns into a property: exported and not
      ignored with `json:"-"`. Embedded fields are not treated apart. */
  predicate Kept(f: Field) {
    IsExportedName(f.name) && Objects.JsonName(f) != "-"
  }

  /** The property and required names a kept field contributes: `inspect`
      of its type under its raw json tag, decorated by its `swag` tag. */
  function FieldEntry(u: Universe, f: Field): (r: Decorated)
    ensures r.p.goType.Some? && StructIds(r.p.goType.value) <= StructIds(f.typ)
    ensures forall i | 0 <= i < |r.required| :: r.required[i] == Objects.JsonName(f)
  {
    var p := Inspect(u, f.typ, Objects.TagGet(f.tag, "json"));
    var swag := Objects.TagGet(f.tag, "swag");
    var d := Decorated(p, []);
    if swag == "" then d
    else
      var entries := Split(swag, ',');
      ApplyExtrasRequired(d, Objects.JsonName(f), entries);
      ApplyExtrasValues(d, Objects.JsonName(f), entries);
      ApplyExtras(d, Objects.JsonName(f), entries)
  }

  /** Every property records a Go type, so `define` never meets nil. */
  predicate NoNil(props: map<string, Property>) {
    forall k | k in props :: props[k].goType.Some?
  }

  /** What one field gives the fold: its json name and decorated property,
      or nothing when the field is skipped. */
  type FieldSlot = Option<(string, Decorated)>

  function Entry(u: Universe, f: Field): (r: FieldSlot)
    ensures r.Some? <==> Kept(f)
  {
    if Kept(f) then Some((Objects.JsonName(f), FieldEntry(u, f))) else None
  }

  /** A left fold of field slots into properties and required names: a
      later name overwrites an earlier one, required names accumulate. */
  function Fold(fields: seq<Field>, entry: Field -> FieldSlot): (r: Objects.Built)
    decreases |fields|
  {
    if |fields| == 0 then Objects.Built(map[], [])
    else
      var acc := Fold(fields[..|fields| - 1], entry);
      match entry(fields[|fields| - 1])
      case None => acc
      case Some((name, d)) => Objects.Built(acc.props[name := d.p], acc.required + d.required)
  }

  /** The legacy fold over a struct's fields. */
  function BuildFields(u: Universe, fields: seq<Field>): Objects.Built {
    Fold(fields, f => Entry(u, f))
  }

  /** The last field adds its name, if it has a slot, and nothing else. */
  lemma FoldStepKeys(fields: seq<Field>, entry: Field -> FieldSlot)
    requires |fields| > 0
    ensures var x := entry(fields[|fields| - 1]);
      Fold(fields, entry).props.Keys ==
        Fold(fields[..|fields| - 1], entry).props.Keys + (if x.Some? then {x.value.0} else {})
  {
  }

  /** Every key comes from some field's slot. */
  lemma {:induction false} FoldKeySource(fields: seq<Field>, entry: Field -> FieldSlot, k: string)
    requires k in Fold(fields, entry).props
    ensures exists i | 0 <= i < |fields| :: entry(fields[i]).Some? && entry(fields[i]).value.0 == k
    decreases |fields|
  {
    var init := fields[..|fields| - 1];
    FoldStepKeys(fields, entry);
    if k in Fold(init, entry).props {
      FoldKeySource(init, entry, k);
      var i :| 0 <= i < |init| && entry(init[i]).Some? && entry(init[i]).value.0 == k;
      assert fields[i] == init[i];
    } else {
      assert entry(fields[|fields| - 1]).Some? && entry(fields[|fields| - 1]).value.0 == k;
    }
  }

  /** Every slot's name is a key. */
  lemma {:induction false} FoldKeyKept(fields: seq<Field>, entry: Field -> FieldSlot, i: nat)
    requires i < |fields| && entry(fields[i]).Some?
    ensures entry(fields[i]).value.0 in Fold(fields, entry).props
    decreases |fields|
  {
    var init := fields[..|fields| - 1];
    FoldStepKeys(fields, entry);
    if i < |init| {
      assert fields[i] == init[i];
      FoldKeyKept(init, entry, i);
    }
  }

  /** A name maps to the property of the last slot carrying it. */
  lemma {:induction false} FoldLastWins(fields: seq<Field>, entry: Field -> FieldSlot, i: nat)
    requires i < |fields| && entry(fields[i]).Some?
    requires forall j | i < j < |fields| ::
      !(entry(fields[j]).Some? && entry(fields[j]).value.0 == entry(fields[i]).value.0)
    ensures entry(fields[i]).value.0 in Fold(fields, entry).props
    ensures Fold(fields, entry).props[entry(fields[i]).value.0] == entry(fields[i]).value.1.p
    decreases |fields|
  {
    var init := fields[..|fields| - 1];
    if i < |fields| - 1 {
      assert forall j | i < j < |init| :: init[j] == fields[j];
      assert init[i] == fields[i];
      FoldLastWins(init, entry, i);
    }
  }

  /** A slot the fold can store safely: a usable key, a recorded Go type,
      and required names that are the slot's own name. */
  predicate GoodSlot(x: FieldSlot) {
    x.Some? ==>
      && x.value.0 != "-" && ',' !in x.value.0
      && x.value.1.p.goType.Some?
      && forall j | 0 <= j < |x.value.1.required| :: x.value.1.required[j] == x.value.0
  }

  /** A slot whose recorded Go type is the program's. */
  predicate ClosedSlot(u: Universe, x: FieldSlot) {
    x.Some? && x.value.1.p.goType.Some? ==> Closed(u, x.value.1.p.goType.value)
  }

  /** Good slots fold into a map whose required names are keys, whose keys
      are usable and whose properties all record a Go type of the program. */
  lemma {:induction false} FoldShape(u: Universe, fields: seq<Field>, entry: Field -> FieldSlot)
    requires forall i | 0 <= i < |fields| :: GoodSlot(entry(fields[i])) && ClosedSlot(u, entry(fields[i]))
    ensures var r := Fold(fields, entry);
      && (forall i | 0 <= i < |r.required| :: r.required[i] in r.props)
      && (forall k | k in r.props :: k != "-" && ',' !in k)
      && NoNil(r.props) && Objects.ClosedProps(u, r.props)
    decreases |fields|
  {
    if |fields| > 0 {
      var init := fields[..|fields| - 1];
      assert forall i | 0 <= i < |init| :: init[i] == fields[i];
      FoldShape(u, init, entry);
      assert GoodSlot(entry(fields[|fields| - 1]));
    }
  }

  /** The keys of the legacy fold are the json names of the kept fields. */
  lemma BuildFieldsKeys(u: Universe, fields: seq<Field>, k: string)
    ensures k in BuildFields(u, fields).props <==>
      exists i | 0 <= i < |fields| :: Kept(fields[i]) && Objects.JsonName(fields[i]) == k
  {
    var e := f => Entry(u, f);
    if k in BuildFields(u, fields).props {
      FoldKeySource(fields, e, k);
      var i :| 0 <= i < |fields| && e(fields[i]).Some? && e(fields[i]).value.0 == k;
      assert Kept(fields[i]) && Objects.JsonName(fields[i]) == k;
    }
    if exists i | 0 <= i < |fields| :: Kept(fields[i]) && Objects.JsonName(fields[i]) == k {
      var i :| 0 <= i < |fields| && Kept(fields[i]) && Objects.JsonName(fields[i]) == k;
      FoldKeyKept(fields, e, i);
    }
  }

  /** A json name maps to the decorated property of the last kept field
      carrying it. */
  lemma BuildFieldsLastWins(u: Universe, fields: seq<Field>, i: nat)
    requires i < |fields| && Kept(fields[i])
    requires forall j | i < j < |fields| :: !(Kept(fields[j]) && Objects.JsonName(fields[j]) == Objects.JsonName(fields[i]))
    ensures Objects.JsonName(fields[i]) in BuildFields(u, fields).props
    ensures BuildFields(u, fields).props[Objects.JsonName(fields[i])] == FieldEntry(u, fields[i]).p
  {
    var e := f => Entry(u, f);
    forall j | i < j < |fields|
      ensures !(e(fields[j]).Some? && e(fields[j]).value.0 == e(fields[i]).value.0)
    {
    }
    FoldLastWins(fields, e, i);
  }

  /** Every required name is a key, no key is "-" or holds a comma, no
      property lacks a Go type, and, for a field list of the program, every
      recorded Go type is the program's. */
  lemma BuildFieldsShape(u: Universe, fields: seq<Field>)
    requires forall i | 0 <= i < |fields| :: Closed(u, fields[i].typ)
    ensures var r := BuildFields(u, fields);
      && (forall i | 0 <= i < |r.required| :: r.required[i] in r.props)
      && (forall k | k in r.props :: k != "-" && ',' !in k)
      && NoNil(r.props) && Objects.ClosedProps(u, r.props)
  {
    var e := f => Entry(u, f);
    forall i | 0 <= i < |fields|
      ensures GoodSlot(e(fields[i])) && ClosedSlot(u, e(fields[i]))
    {
      var f := fields[i];
      if Kept(f) {
        var d := FieldEntry(u, f);
        assert e(f) == Some((Objects.JsonName(f), d));
        assert StructIds(d.p.goType.value) <= StructIds(f.typ);
      }
    }
    FoldShape(u, fields, e);
  }

  /** The type `defineObject` describes: a slice's element, then one pointer
      stripped. */
  function DefineObject(u: Universe, t: GoType): (r: Object)
    requires Typed(u) && Closed(u, t)
    ensures r.isArray <==> t.Slice?
    ensures r.goType == Objects.DefinedType(t) && Closed(u, r.goType)
    ensures r.description == ""
    ensures r.goType.Struct? ==>
      && r.name == LegacyUtil.MakeName(u, r.goType) && r.typ == Schema.ObjectType && r.format == ""
      && r.properties == BuildFields(u, u.decls[r.goType.id].fields).props
      && r.required == BuildFields(u, u.decls[r.goType.id].fields).required
    ensures !r.goType.Struct? ==>
      && r.name == KindString(KindOf(r.goType))
      && r.typ == Inspect(u, r.goType, "").typ && r.format == Inspect(u, r.goType, "").format
      && r.required == [] && r.properties == map[]
    ensures forall i | 0 <= i < |r.required| :: r.required[i] in r.properties
    ensures Objects.ClosedProps(u, r.properties) && NoNil(r.properties)
  {
    var g := Objects.DefinedType(t);
    if !g.Struct? then
      var p := Inspect(u, g, "");
      Schema.Object(t.Slice?, g, KindString(KindOf(g)), p.typ, "", p.format, [], map[])
    else
      var fields := u.decls[g.id].fields;
      assert forall i | 0 <= i < |fields| :: Closed(u, fields[i].typ) by {
        forall i | 0 <= i < |fields|
          ensures Closed(u, fields[i].typ)
        {
          assert FieldTyped(u, fields[i]);
        }
      }
      var b := BuildFields(u, fields);
      BuildFieldsShape(u, fields);
      Schema.Object(t.Slice?, g, LegacyUtil.MakeName(u, g), Schema.ObjectType, "", "", b.required, b.props)
  }

  /** On a scalar prototype the legacy and the root definitions agree. */
  lemma DefineObjectScalarAgrees(u: Universe, s: Scalar, n: Option<TypeName>)
    requires WellFormed(u)
    ensures DefineObject(u, Basic(s, n)) == Objects.DefineObject(u, Basic(s, n), "")
  {
    InspectScalarAgrees(u, s, n, "");
  }

  /** On a struct prototype both describe the struct; the legacy name drops
      the root package's dot. */
  lemma DefineObjectStructName(u: Universe, id: StructId)
    requires WellFormed(u) && id in u.decls
    ensures DefineObject(u, Struct(id)).goType == Objects.DefineObject(u, Struct(id), "").goType
    ensures var n := Objects.DefineObject(u, Struct(id), "").name; var b := |PkgBase(u, Struct(id))|;
      b < |n| && n[..b] + n[b + 1..] == DefineObject(u, Struct(id)).name
  {
    LegacyUtil.MakeNameDropsDot(u, Struct(id));
  }

  // ---------------------------------------------------------------------
  // define

  /** A property of a stored object records a struct with no definition
      yet. */
  predicate Pending(u: Universe, m: Defs, n: string, k: string) {
    && n in m && k in m[n].properties
    && m[n].properties[k].goType.Some? && m[n].properties[k].goType.value.Struct?
    && LegacyUtil.MakeName(u, m[n].properties[k].goType.value) !in m
  }

  /** Every struct a stored property records has a definition. */
  predicate Complete(u: Universe, m: Defs) {
    forall n, k | n in m && k in m[n].properties ::
      m[n].properties[k].goType.Some? && m[n].properties[k].goType.value.Struct? ==>
        LegacyUtil.MakeName(u, m[n].properties[k].goType.value) in m
  }

  /** The object stored under `n` describes a type some stored property
      records. */
  predicate Referred(m: Defs, n: string)
    requires n in m
  {
    exists n1, k | n1 in m && k in m[n1].properties :: m[n1].properties[k].goType == Some(m[n].goType)
  }

  /** Every object is stored under its own name, records Go types of the
      program only, and never a nil one. */
  predicate Named(u: Universe, m: Defs) {
    forall n | n in m :: m[n].name == n && Objects.ClosedProps(u, m[n].properties) && NoNil(m[n].properties)
  }

  /** Every object but the root is the definition of a declared struct some
      stored property records. */
  predicate Children(u: Universe, rootName: string, m: Defs)
    requires Typed(u)
  {
    forall n | n in m && n != rootName ::
      && m[n].goType.Struct? && m[n].goType.id in u.decls
      && m[n] == DefineObject(u, m[n].goType)
      && Referred(m, n)
  }

  /** The loop invariant of the legacy `define`. */
  predicate Inv(u: Universe, root: Object, m: Defs)
    requires Typed(u)
  {
    root.name in m && m[root.name] == root && Named(u, m) && Children(u, root.name, m)
  }

  /** Every name the legacy `define` can store. */
  function AllNames(u: Universe, rootName: string): set<string> {
    {rootName} + set i | i in u.decls :: LegacyUtil.MakeName(u, Struct(i))
  }

  /** What the legacy `define(t)` promises of the map it returns: the
      prototype's own object, every other entry the definition of a struct
      some stored property refers to, closed under references, and under no
      name but the root's and the structs'. */
  predicate Defined(u: Universe, t: GoType, m: Defs)
    requires Typed(u)
  {
    && Closed(u, t)
    && Inv(u, DefineObject(u, t), m) && Complete(u, m)
    && m.Keys <= AllNames(u, DefineObject(u, t).name)
  }

  /** `define(v)` of the legacy package: starting from the prototype's own
      definition, add the definition of every struct some stored property
      records, in any order, until none is missing. */
  method Define(u: Universe, t: GoType) returns (m: Defs)
    requires Typed(u) && Closed(u, t)
    ensures Inv(u, DefineObject(u, t), m) && Complete(u, m)
    ensures m.Keys <= AllNames(u, DefineObject(u, t).name)
    ensures Defined(u, t, m)
  {
    var root := DefineObject(u, t);
    m := map[root.name := root];
    InitInv(u, root);
    while exists n, k | n in m && k in m[n].properties :: Pending(u, m, n, k)
      invariant Inv(u, root, m) && m.Keys <= AllNames(u, root.name)
      decreases |AllNames(u, root.name) - m.Keys|
    {
      var n, k :| n in m && k in m[n].properties && Pending(u, m, n, k);
      m := Grow(u, root, m, n, k);
    }
    NoPendingComplete(u, m);
  }

  /** The map holding the prototype's own definition alone. */
  lemma InitInv(u: Universe, root: Object)
    requires Typed(u) && Objects.ClosedProps(u, root.properties) && NoNil(root.properties)
    ensures Inv(u, root, map[root.name := root]) && map[root.name := root].Keys <= AllNames(u, root.name)
  {
  }

  /** Adding a missing member of a finite set shrinks what is left of it. */
  lemma ShrinkMeasure<T>(all: set<T>, a: set<T>, x: T)
    requires a <= all && x in all && x !in a
    ensures |all - (a + {x})| < |all - a|
  {
    assert x in all - a;
    Registry.ProperSubsetCard(all - (a + {x}), all - a);
  }

  lemma NoPendingComplete(u: Universe, m: Defs)
    requires !exists n, k | n in m && k in m[n].properties :: Pending(u, m, n, k)
    ensures Complete(u, m)
  {
    forall n, k | n in m && k in m[n].properties
      ensures m[n].properties[k].goType.Some? && m[n].properties[k].goType.value.Struct? ==>
        LegacyUtil.MakeName(u, m[n].properties[k].goType.value) in m
    {
      assert !Pending(u, m, n, k);
    }
  }

  /** One turn of the loop: store the definition of the struct a pending
      property records. */
  function Grow(u: Universe, root: Object, m: Defs, n: string, k: string): (m': Defs)
    requires Typed(u) && Inv(u, root, m) && m.Keys <= AllNames(u, root.name)
    requires Pending(u, m, n, k)
    ensures Inv(u, root, m') && m'.Keys <= AllNames(u, root.name)
    ensures |AllNames(u, root.name) - m'.Keys| < |AllNames(u, root.name) - m.Keys|
  {
    var g := m[n].properties[k].goType.value;
    assert Closed(u, g);
    var child := DefineObject(u, g);
    GrowStep(u, root, m, n, k, child);
    m[child.name := child]
  }

  /** One turn of the loop: storing the definition of the struct a pending
      property records keeps the invariant and shrinks what is left. */
  lemma GrowStep(u: Universe, root: Object, m: Defs, n: string, k: string, child: Object)
    requires Typed(u) && Inv(u, root, m) && m.Keys <= AllNames(u, root.name)
    requires Pending(u, m, n, k)
    requires child.goType.Struct? && child.goType.id in u.decls && m[n].properties[k].goType == Some(child.goType)
    requires child == DefineObject(u, child.goType)
    ensures Inv(u, root, m[child.name := child]) && m[child.name := child].Keys <= AllNames(u, root.name)
    ensures |AllNames(u, root.name) - m[child.name := child].Keys| < |AllNames(u, root.name) - m.Keys|
  {
    var m' := m[child.name := child];
    assert child.name !in m && child.name in AllNames(u, root.name);
    GrowNamed(u, m, child, m');
    GrowChildren(u, root.name, m, n, k, child, m');
    ShrinkMeasure(AllNames(u, root.name), m.Keys, child.name);
  }

  lemma GrowNamed(u: Universe, m: Defs, child: Object, m': Defs)
    requires Named(u, m) && child.name !in m
    requires Objects.ClosedProps(u, child.properties) && NoNil(child.properties)
    requires m' == m[child.name := child]
    ensures Named(u, m')
  {
  }

  lemma GrowChildren(u: Universe, rootName: string, m: Defs, n: string, k: string, child: Object, m': Defs)
    requires Typed(u) && Children(u, rootName, m)
    requires n in m && k in m[n].properties && child.name !in m && child.name != rootName
    requires m[n].properties[k].goType == Some(child.goType)
    requires child.goType.Struct? && child.goType.id in u.decls
    requires child == DefineObject(u, child.goType)
    requires m' == m[child.name := child]
    ensures Children(u, rootName, m')
  {
    forall x | x in m' && x != rootName
      ensures m'[x].goType.Struct? && m'[x].goType.id in u.decls
      ensures m'[x] == DefineObject(u, m'[x].goType)
      ensures Referred(m', x)
    {
      if x == child.name {
        assert m'[n] == m[n];
        assert m'[n].properties[k].goType == Some(m'[x].goType);
      } else {
        assert m'[x] == m[x];
        var n1, k1 :| n1 in m && k1 in m[n1].properties && m[n1].properties[k1].goType == Some(m[x].goType);
        assert m'[n1] == m[n1];
      }
    }
  }

  // ---------------------------------------------------------------------
  // MakeSchema

  /** `MakeSchema(prototype)` of the legacy package: a reference to the
      prototype's legacy definition, wrapped in an "array" schema when the
      prototype is a slice. */
  function MakeSchema(u: Universe, t: GoType): (r: Schema.SchemaRef)
    requires Typed(u) && Closed(u, t)
    ensures r.prototype == t
    ensures r.typ == Schema.ArrayType <==> t.Slice?
    ensures t.Slice? ==>
      && r.ref == "" && r.items.Some? && r.items.value.typ == "" && r.items.value.format == ""
      && Naming.RefTarget(r.items.value.ref) == Some(DefineObject(u, t).name)
    ensures !t.Slice? ==> r.typ == "" && r.items.None? && Naming.RefTarget(r.ref) == Some(DefineObject(u, t).name)
  {
    var obj := DefineObject(u, t);
    Naming.RefTargetMakeRef(obj.name);
    if obj.isArray then Schema.SchemaRef(t, Schema.ArrayType, "", Some(Schema.Items("", "", Naming.MakeRef(obj.name))))
    else Schema.SchemaRef(t, "", Naming.MakeRef(obj.name), None)
  }

  /** The legacy and the root schema have the same shape, and for a
      non-struct prototype the same reference. */
  lemma MakeSchemaAgrees(u: Universe, t: GoType)
    requires WellFormed(u) && Closed(u, t)
    ensures MakeSchema(u, t).typ == Objects.MakeSchema(u, t).typ
    ensures MakeSchema(u, t).items.Some? == Objects.MakeSchema(u, t).items.Some?
    ensures !Objects.DefinedType(t).Struct? ==> MakeSchema(u, t) == Objects.MakeSchema(u, t)
  {
  }
}
