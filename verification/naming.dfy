/** Naming helpers of the root package (util.go): the camel form used for
    operation ids, definition references and definition names. */
module Naming {
  import opened Wrappers
  import opened Text
  import opened GoTypes

  const DefinitionsPrefix: string := "#/definitions/"

  /** `makeRef(n)`: a JSON reference into the document's definitions. */
  function MakeRef(n: string): (r: string)
    ensures HasPrefix(r, DefinitionsPrefix)
    ensures |r| == |DefinitionsPrefix| + |n|
  {
    DefinitionsPrefix + n
  }

  /** The definition name a reference points at, if it is a definitions
      reference. */
  function RefTarget(r: string): Option<string> {
    if HasPrefix(r, DefinitionsPrefix) then Some(r[|DefinitionsPrefix|..]) else None
  }

  /** A reference always resolves back to the name it was made from, so two
      different names never share a reference. */
  lemma RefTargetMakeRef(n: string)
    ensures RefTarget(MakeRef(n)) == Some(n)
  {
    assert MakeRef(n)[|DefinitionsPrefix|..] == n;
  }

  /** The part of a definition name that identifies the type inside its
      package: the type's own name, or "ptr" and the descriptor address for a
      type literal. */
  function LocalName(u: Universe, t: GoType): (r: string)
    ensures |r| > 0 || Name(u, t) == ""
  {
    var n := Name(u, t);
    if n == "" then "ptr" + Itoa(u.addr(t)) else n
  }

  /** `makeName(t)`: `Base(PkgPath) + "." + name`, with every '-' turned into
      '_'. */
  function MakeName(u: Universe, t: GoType): (r: string)
    ensures '-' !in r
    ensures '.' in r
  {
    var full := PkgBase(u, t) + "." + LocalName(u, t);
    var r := ReplaceChar(full, '-', '_');
    assert r[|PkgBase(u, t)|] == '.';
    r
  }

  /** A named type's definition name is its package base and type name,
      hyphens replaced. */
  lemma MakeNameNamed(u: Universe, t: GoType)
    requires Name(u, t) != ""
    ensures MakeName(u, t) == ReplaceChar(GoPath.Base(PkgPath(u, t)) + "." + Name(u, t), '-', '_')
  {
  }

  /** A type literal has no package path, and `filepath.Base("")` is ".", so
      its name starts with two dots: "..ptr" followed by the address. */
  lemma MakeNameAnonymous(u: Universe, t: GoType)
    requires IsLiteral(u, t)
    ensures MakeName(u, t) == "..ptr" + Itoa(u.addr(t))
  {
    var digits := Itoa(u.addr(t));
    assert PkgBase(u, t) == ".";
    assert LocalName(u, t) == "ptr" + digits;
    var full := "." + "." + ("ptr" + digits);
    assert full == "..ptr" + digits;
    assert forall i :: 0 <= i < |full| ==> full[i] != '-' by {
      forall i | 0 <= i < |full| ensures full[i] != '-' {
        if i >= 5 {
          assert full[i] == digits[i - 5];
        }
      }
    }
    ReplaceCharAbsent(full, '-', '_');
  }

  /** The name the unit test for `makeName` expects for a type literal has a
      single leading dot; the function as written never produces it. */
  lemma MakeNameAnonymousDiffersFromTest(u: Universe, t: GoType)
    requires IsLiteral(u, t)
    ensures MakeName(u, t) != ".ptr" + Itoa(u.addr(t))
  {
    MakeNameAnonymous(u, t);
    var a := MakeName(u, t);
    var b := ".ptr" + Itoa(u.addr(t));
    assert a[1] == '.' && b[1] == 'p';
  }

  /** Type literals at different descriptor addresses get different names,
      and the same type always gets the same one. */
  lemma MakeNameAnonymousInjective(u: Universe, t1: GoType, t2: GoType)
    requires IsLiteral(u, t1) && IsLiteral(u, t2)
    ensures MakeName(u, t1) == MakeName(u, t2) <==> u.addr(t1) == u.addr(t2)
  {
    MakeNameAnonymous(u, t1);
    MakeNameAnonymous(u, t2);
    if MakeName(u, t1) == MakeName(u, t2) {
      var a := MakeName(u, t1);
      assert a[5..] == Itoa(u.addr(t1));
      assert MakeName(u, t2)[5..] == Itoa(u.addr(t2));
      ItoaInjective(u.addr(t1), u.addr(t2));
    }
  }

  // ---------------------------------------------------------------------
  // camel

  /** One path segment in camel form: drop everything outside [0-9a-zA-Z],
      then upper-case the first remaining character. */
  function CamelSegment(seg: string): (r: string)
    ensures forall i :: 0 <= i < |r| ==> IsAlnum(r[i])
    ensures |r| > 0 ==> !IsLower(r[0])
    ensures |r| == |KeepAlnum(seg)|
  {
    var w := KeepAlnum(seg);
    if w == "" then "" else [UpperChar(w[0])] + w[1..]
  }

  function CamelSegments(segs: seq<string>): (r: string)
    ensures forall i :: 0 <= i < |r| ==> IsAlnum(r[i])
  {
    if |segs| == 0 then "" else CamelSegment(segs[0]) + CamelSegments(segs[1..])
  }

  /** `camel(v)`: the camel forms of the '/'-separated segments, concatenated. */
  function Camel(v: string): (r: string)
    ensures forall i :: 0 <= i < |r| ==> IsAlnum(r[i])
  {
    CamelSegments(Split(v, '/'))
  }

  /** Camel form is a fixed point of itself: its output is one segment of
      alphanumerics that does not start with a lower-case letter. */
  lemma CamelIdempotent(v: string)
    ensures Camel(Camel(v)) == Camel(v)
  {
    var c := Camel(v);
    CamelSegmentsFirst(Split(v, '/'));
    assert forall i :: 0 <= i < |c| ==> c[i] != '/';
    assert Split(c, '/') == [c];
    assert KeepAlnum(c) == c;
    assert CamelSegments([c]) == CamelSegment(c) + CamelSegments([]);
    if c != "" {
      assert [UpperChar(c[0])] + c[1..] == c;
    }
  }

  lemma {:induction false} CamelSegmentsFirst(segs: seq<string>)
    ensures var r := CamelSegments(segs); |r| > 0 ==> !IsLower(r[0])
  {
    if |segs| > 0 {
      CamelSegmentsFirst(segs[1..]);
      var h := CamelSegment(segs[0]);
      if |h| == 0 {
        assert CamelSegments(segs) == CamelSegments(segs[1..]);
      } else {
        assert CamelSegments(segs)[0] == h[0];
      }
    }
  }

  /** Camel form of a path given by its segments. */
  lemma CamelOfSegments(segs: seq<string>)
    requires |segs| >= 1
    requires forall i :: 0 <= i < |segs| ==> '/' !in segs[i]
    ensures Camel(Join(segs, '/')) == CamelSegments(segs)
  {
    SplitJoin(segs, '/');
  }

  /** The operation id the endpoint constructor derives: the lower-cased
      method followed by the camel form of the path. */
  function OperationID(verb: string, path: string): (r: string)
    ensures |r| >= |verb|
    ensures forall i :: |verb| <= i < |r| ==> IsAlnum(r[i])
    ensures forall i :: 0 <= i < |verb| ==> !IsUpper(r[i])
  {
    ToLower(verb) + Camel(path)
  }

  /** Cases of the unit test for the operation id: an empty method and
      path, and the root path. */
  lemma OperationIDExamplesShort()
    ensures OperationID("", "") == ""
    ensures OperationID("GET", "/") == "get"
  {
    CamelOfSegments(["", ""]);
    assert Join(["", ""], '/') == "/";
  }

  lemma OperationIDExampleOneSegment()
    ensures OperationID("POST", "/test") == "postTest"
  {
    CamelOfSegments(["", "test"]);
    assert Join(["", "test"], '/') == "/test";
    CamelSegmentsTwo("", "test");
    CamelTest();
    LowerPost();
    assert "post" + ("" + "Test") == "postTest";
  }

  /** Two segments, each in camel form, concatenated. */
  lemma CamelSegmentsTwo(a: string, b: string)
    ensures CamelSegments([a, b]) == CamelSegment(a) + CamelSegment(b)
  {
    assert [a, b][1..] == [b];
    assert [b][1..] == [];
    assert CamelSegments([b]) == CamelSegment(b);
  }

  lemma LowerPost()
    ensures ToLower("POST") == "post"
  {
  }

  lemma CamelTest()
    ensures CamelSegment("test") == "Test"
  {
    assert KeepAlnum("test") == "test";
  }

  /** The camel form of the test's parameterised path. */
  lemma CamelExample()
    ensures Camel("/test/{id}/sub") == "TestIdSub"
  {
    JoinExample();
    CamelOfSegments(["", "test", "{id}", "sub"]);
    CamelSegmentsExample();
  }

  lemma JoinExample()
    ensures Join(["", "test", "{id}", "sub"], '/') == "/test/{id}/sub"
  {
    assert Join(["{id}", "sub"], '/') == "{id}/sub";
    assert Join(["test", "{id}", "sub"], '/') == "test/{id}/sub";
  }

  lemma CamelSegmentsExample()
    ensures CamelSegments(["", "test", "{id}", "sub"]) == "TestIdSub"
  {
    CamelSegmentsFour("", "test", "{id}", "sub");
    CamelTest();
    CamelId();
    CamelSub();
    assert "" + ("Test" + ("Id" + "Sub")) == "TestIdSub";
  }

  lemma CamelId()
    ensures CamelSegment("{id}") == "Id"
  {
    assert KeepAlnum("{id}") == "id";
  }

  lemma CamelSub()
    ensures CamelSegment("sub") == "Sub"
  {
    assert KeepAlnum("sub") == "sub";
  }

  /** Four segments, each in camel form, concatenated. */
  lemma CamelSegmentsFour(a: string, b: string, c: string, d: string)
    ensures CamelSegments([a, b, c, d]) == CamelSegment(a) + (CamelSegment(b) + (CamelSegment(c) + CamelSegment(d)))
  {
    assert [a, b, c, d][1..] == [b, c, d];
    assert [b, c, d][1..] == [c, d];
    CamelSegmentsTwo(c, d);
    assert CamelSegments([b, c, d]) == CamelSegment(b) + CamelSegments([c, d]);
    assert CamelSegments([a, b, c, d]) == CamelSegment(a) + CamelSegments([b, c, d]);
  }
}
