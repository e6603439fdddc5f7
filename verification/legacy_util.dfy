/** Definition names of the legacy `swagger` package (swagger/util.go). Its
    `makeRef` is the root package's `Naming.MakeRef`; its `makeName` differs
    in leaving out the dot between the package and the type name. */
module LegacyUtil {
  import opened Wrappers
  import opened Text
  import opened GoTypes
  import Naming
  import GoPath

  /** `makeName(t)`: `Base(PkgPath) + name`, with every '-' turned into
      '_'; a type literal's name is "ptr" and its descriptor address. */
  function MakeName(u: Universe, t: GoType): (r: string)
    ensures '-' !in r
    ensures |r| == |PkgBase(u, t)| + |Naming.LocalName(u, t)|
    ensures forall i | 0 <= i < |PkgBase(u, t)| :: r[i] == (if PkgBase(u, t)[i] == '-' then '_' else PkgBase(u, t)[i])
  {
    ReplaceChar(PkgBase(u, t) + Naming.LocalName(u, t), '-', '_')
  }

  /** Replacing a character commutes with concatenation. */
  lemma {:induction false} ReplaceCharConcat(a: string, b: string, x: char, y: char)
    ensures ReplaceChar(a + b, x, y) == ReplaceChar(a, x, y) + ReplaceChar(b, x, y)
  {
    var l := ReplaceChar(a + b, x, y);
    var r := ReplaceChar(a, x, y) + ReplaceChar(b, x, y);
    assert |l| == |r|;
    forall i | 0 <= i < |l|
      ensures l[i] == r[i]
    {
      if i < |a| {
        assert (a + b)[i] == a[i];
      } else {
        assert (a + b)[i] == b[i - |a|];
      }
    }
  }

  /** The legacy name of a type is the root package's name for it with the
      separating dot removed. */
  lemma MakeNameDropsDot(u: Universe, t: GoType)
    ensures var n := Naming.MakeName(u, t); var b := |PkgBase(u, t)|;
      b < |n| && n[b] == '.' && n[..b] + n[b + 1..] == MakeName(u, t)
  {
    var base := PkgBase(u, t);
    var local := Naming.LocalName(u, t);
    ReplaceCharConcat(base + ".", local, '-', '_');
    ReplaceCharConcat(base, ".", '-', '_');
    ReplaceCharConcat(base, local, '-', '_');
    var rb := ReplaceChar(base, '-', '_');
    var rl := ReplaceChar(local, '-', '_');
    assert ReplaceChar(".", '-', '_') == ".";
    var n := Naming.MakeName(u, t);
    assert n == rb + "." + rl;
    assert n[..|base|] == rb;
    assert n[|base| + 1..] == rl;
  }

  /** A type literal has no package path, so its name is ".ptr" and the
      address: one leading dot. */
  lemma MakeNameAnonymous(u: Universe, t: GoType)
    requires IsLiteral(u, t)
    ensures MakeName(u, t) == ".ptr" + Itoa(u.addr(t))
  {
    var digits := Itoa(u.addr(t));
    assert PkgBase(u, t) == ".";
    assert Naming.LocalName(u, t) == "ptr" + digits;
    var full := "." + ("ptr" + digits);
    assert full == ".ptr" + digits;
    assert forall i | 0 <= i < |full| :: full[i] != '-' by {
      forall i | 0 <= i < |full|
        ensures full[i] != '-'
      {
        if i >= 4 {
          assert full[i] == digits[i - 4];
        }
      }
    }
    ReplaceCharAbsent(full, '-', '_');
  }

  /** A predeclared scalar is named after its kind behind the dot that the
      base of an empty package path gives. */
  lemma MakeNamePredeclared(u: Universe, s: Scalar)
    ensures MakeName(u, Basic(s, None)) == "." + ScalarString(s)
  {
    var name := ScalarString(s);
    var full := "." + name;
    assert PkgBase(u, Basic(s, None)) == ".";
    assert Naming.LocalName(u, Basic(s, None)) == name;
    assert forall i | 0 <= i < |full| :: full[i] != '-' by {
      forall i | 0 <= i < |full| ensures full[i] != '-' {
        if i > 0 {
          assert full[i] == name[i - 1];
        }
      }
    }
    ReplaceCharAbsent(full, '-', '_');
  }

  /** Without the separator, two named types collide whenever package base
      and type name concatenate to the same text (type `bC` of package `a`
      and type `C` of package `ab`), even where the root package's names
      differ. */
  lemma MakeNameCollision(u: Universe, t1: GoType, t2: GoType)
    requires Name(u, t1) != "" && Name(u, t2) != ""
    requires PkgBase(u, t1) + Name(u, t1) == PkgBase(u, t2) + Name(u, t2)
    ensures MakeName(u, t1) == MakeName(u, t2)
  {
  }
}
