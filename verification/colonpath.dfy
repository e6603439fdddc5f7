/** `ColonPath` (util.go): rewrites the `{name}` parameters of a templated
    path into the `:name` form of colon-style routers. The source finds the
    matches of `\{([^}]+)}` and then, match by match, replaces every
    occurrence of the match's text; this module models exactly that and
    proves it equal to a single left-to-right rewrite whenever no parameter
    name contains '{'. */
module ColonPaths {
  import opened Text

  /** The group length of a `\{([^}]+)}` match at offset 0 of `s`, or 0 when
      none starts there. */
  function MatchLen(s: string): (j: nat)
    ensures j > 0 ==> j + 2 <= |s| && s[0] == '{' && s[j + 1] == '}'
    ensures j > 0 ==> forall k :: 1 <= k <= j ==> s[k] != '}'
    ensures j == 0 && |s| > 1 && s[0] == '{' && s[1] != '}' ==> forall k :: 1 <= k < |s| ==> s[k] != '}'
  {
    if |s| > 0 && s[0] == '{' then
      var j := IndexOf(s[1..], '}');
      assert forall k :: 1 <= k <= j && k < |s| ==> s[k] == s[1..][k - 1];
      if 0 < j < |s| - 1 then j else 0
    else 0
  }

  /** A match is determined by its text: a string that starts with `{g}`
      (`g` non-empty, without '}') has its match there, with group `g`. */
  lemma MatchLenOfPrefix(s: string, g: string)
    requires |g| > 0 && '}' !in g
    requires HasPrefix(s, "{" + g + "}")
    ensures MatchLen(s) == |g|
  {
    var p := "{" + g + "}";
    assert s[..|p|] == p;
    assert s[1..][..|g| + 1] == g + "}";
    IndexOfPrefix(g, '}', s[1..][|g| + 1..]);
    assert s[1..] == g + ['}'] + s[1..][|g| + 1..];
  }

  /** The matches of `\{([^}]+)}` in `s`, left to right, as (whole match,
      group) pairs: `FindAllStringSubmatch(path, -1)`. */
  function BraceMatches(s: string): (r: seq<(string, string)>)
    ensures forall i :: 0 <= i < |r| ==> r[i].0 == "{" + r[i].1 + "}" && |r[i].1| > 0 && '}' !in r[i].1
    decreases |s|
  {
    if |s| == 0 then []
    else
      var j := MatchLen(s);
      if j > 0 then
        assert s[..j + 2] == "{" + s[1..j + 1] + "}";
        [(s[..j + 2], s[1..j + 1])] + BraceMatches(s[j + 2..])
      else BraceMatches(s[1..])
  }

  /** Applies `strings.Replace(path, whole, ":"+group, -1)` for each match in
      turn, as the loop over the matches does. */
  function ReplaceMatches(path: string, ms: seq<(string, string)>): string
    requires forall i :: 0 <= i < |ms| ==> |ms[i].0| > 0
    decreases |ms|
  {
    if |ms| == 0 then path
    else ReplaceMatches(ReplaceAll(path, ms[0].0, ":" + ms[0].1), ms[1..])
  }

  /** `ColonPath(path)`: `/api/orgs/{org}` becomes `/api/orgs/:org`. When no
      parameter name holds '{', this is the single left-to-right pass; a
      path without '{' comes back unchanged. */
  function ColonPath(path: string): (r: string)
    ensures Flat(path) ==> r == ColonScan(path)
    ensures '{' !in path ==> r == path
  {
    ReplaceAllIsScan(path);
    ReplaceAllKeepsPlain(path);
    ReplaceMatches(path, BraceMatches(path))
  }

  lemma ReplaceAllIsScan(path: string)
    ensures Flat(path) ==> ReplaceMatches(path, BraceMatches(path)) == ColonScan(path)
  {
    if Flat(path) {
      ReplaceMatchesScan(path, BraceMatches(path));
    }
  }

  lemma ReplaceAllKeepsPlain(path: string)
    ensures '{' !in path ==> ReplaceMatches(path, BraceMatches(path)) == path
  {
    if '{' !in path {
      PrefixFree(path, "");
      assert path + "" == path;
    }
  }

  /** The reference reading: one left-to-right pass that turns each match
      into ':' and its group and copies every other character. */
  function ColonScan(s: string): string
    decreases |s|
  {
    if |s| == 0 then ""
    else
      var j := MatchLen(s);
      if j > 0 then ":" + s[1..j + 1] + ColonScan(s[j + 2..])
      else [s[0]] + ColonScan(s[1..])
  }

  /** The set of parameter names among some matches. */
  function Groups(ms: seq<(string, string)>): set<string> {
    if |ms| == 0 then {} else {ms[0].1} + Groups(ms[1..])
  }

  /** No parameter name of `s` contains '{'. */
  predicate Flat(s: string) {
    forall i :: 0 <= i < |BraceMatches(s)| ==> '{' !in BraceMatches(s)[i].1
  }

  /** A path whose parameter names contain no '{' is rewritten by the source
      exactly as by the single left-to-right pass. */
  lemma ColonPathIsScan(path: string)
    requires Flat(path)
    ensures ColonPath(path) == ColonScan(path)
  {
    var ms := BraceMatches(path);
    ReplaceMatchesScan(path, ms);
  }

  /** A path without '{' has no parameters and is returned unchanged. */
  lemma ColonPathNoBraces(path: string)
    requires '{' !in path
    ensures ColonPath(path) == path
  {
    PrefixFree(path, "");
    assert path + "" == path;
  }

  /** One parameter, with plain text before it, is rewritten in place and the
      rest of the path is rewritten on its own: `a + "{g}" + b` becomes
      `a + ":g" + ColonScan(b)`. */
  lemma ColonScanParam(a: string, g: string, b: string)
    requires '{' !in a
    requires |g| > 0 && '}' !in g
    ensures ColonScan(a + "{" + g + "}" + b) == a + ":" + g + ColonScan(b)
  {
    var t := "{" + g + "}" + b;
    assert a + "{" + g + "}" + b == a + t;
    PrefixFree(a, t);
    ScanAtParam(g, b);
  }

  /** Flatness, like the single pass, looks through plain text and one
      parameter at a time. */
  lemma FlatParam(a: string, g: string, b: string)
    requires '{' !in a && |g| > 0 && '{' !in g && '}' !in g && Flat(b)
    ensures Flat(a + "{" + g + "}" + b)
  {
    var t := "{" + g + "}" + b;
    assert a + "{" + g + "}" + b == a + t;
    PrefixFree(a, t);
    ParamUnfold(g, b);
  }

  /** The first case of the package's unit test for `ColonPath`. */
  lemma ColonPathExampleOne()
    ensures ColonPath("/api/{id}") == "/api/:id"
  {
    OneParam("/api/", "id");
    assert "/api/" + "{" + "id" + "}" == "/api/{id}";
    assert "/api/" + ":" + "id" == "/api/:id";
  }

  /** A path ending in its only parameter. */
  lemma OneParam(a: string, g: string)
    requires '{' !in a && |g| > 0 && '{' !in g && '}' !in g
    ensures ColonPath(a + "{" + g + "}") == a + ":" + g
  {
    NoMatchesScan("");
    FlatParam(a, g, "");
    ColonScanParam(a, g, "");
    assert a + "{" + g + "}" + "" == a + "{" + g + "}";
    assert a + ":" + g + "" == a + ":" + g;
    ColonPathIsScan(a + "{" + g + "}");
  }

  /** The second case: several parameters. */
  lemma ColonPathExampleTwo()
    ensures ColonPath("/api/{a}/{b}/{c}") == "/api/:a/:b/:c"
  {
    ScanExampleTwo();
    ColonPathIsScan("/api/{a}/{b}/{c}");
  }

  lemma ScanExampleTwo()
    ensures Flat("/api/{a}/{b}/{c}")
    ensures ColonScan("/api/{a}/{b}/{c}") == "/api/:a/:b/:c"
  {
    ChainOfThree("/api/", "a", "/", "b", "/", "c");
    BracedThree();
    ColonThree();
  }

  lemma BracedThree()
    ensures "/api/" + "{" + "a" + "}" + ("/" + "{" + "b" + "}" + ("/" + "{" + "c" + "}" + "")) == "/api/{a}/{b}/{c}"
  {
    assert "/" + "{" + "c" + "}" + "" == "/{c}";
    assert "/" + "{" + "b" + "}" + "/{c}" == "/{b}/{c}";
  }

  lemma ColonThree()
    ensures "/api/" + ":" + "a" + ("/" + ":" + "b" + ("/" + ":" + "c" + "")) == "/api/:a/:b/:c"
  {
    assert "/" + ":" + "c" + "" == "/:c";
    assert "/" + ":" + "b" + "/:c" == "/:b/:c";
  }

  /** Three parameters, each after plain text. */
  lemma ChainOfThree(a1: string, g1: string, a2: string, g2: string, a3: string, g3: string)
    requires '{' !in a1 && |g1| > 0 && '{' !in g1 && '}' !in g1
    requires '{' !in a2 && |g2| > 0 && '{' !in g2 && '}' !in g2
    requires '{' !in a3 && |g3| > 0 && '{' !in g3 && '}' !in g3
    ensures var p := a1 + "{" + g1 + "}" + (a2 + "{" + g2 + "}" + (a3 + "{" + g3 + "}" + ""));
      Flat(p) && ColonScan(p) == a1 + ":" + g1 + (a2 + ":" + g2 + (a3 + ":" + g3 + ""))
  {
    NoMatchesScan("");
    var p3 := a3 + "{" + g3 + "}" + "";
    ScanChain(a3, g3, "", "");
    var p2 := a2 + "{" + g2 + "}" + p3;
    ScanChain(a2, g2, p3, a3 + ":" + g3 + "");
    ScanChain(a1, g1, p2, a2 + ":" + g2 + (a3 + ":" + g3 + ""));
  }

  /** `FlatParam` and `ColonScanParam` together, with the rest's rewrite
      given. */
  lemma ScanChain(a: string, g: string, b: string, rb: string)
    requires '{' !in a && |g| > 0 && '{' !in g && '}' !in g && Flat(b)
    requires ColonScan(b) == rb
    ensures Flat(a + "{" + g + "}" + b)
    ensures ColonScan(a + "{" + g + "}" + b) == a + ":" + g + rb
  {
    FlatParam(a, g, b);
    ColonScanParam(a, g, b);
  }

  lemma ScanAtParam(g: string, b: string)
    requires |g| > 0 && '}' !in g
    ensures ColonScan("{" + g + "}" + b) == ":" + g + ColonScan(b)
  {
    var t := "{" + g + "}" + b;
    assert t[..|g| + 2] == "{" + g + "}";
    MatchLenOfPrefix(t, g);
    assert t[1..|g| + 1] == g;
    assert t[|g| + 2..] == b;
  }

  // ---------------------------------------------------------------------
  // Equality of the source's replace loop and the single pass

  /** Unfolding both readings at a match. */
  lemma MatchUnfold(t: string)
    requires MatchLen(t) > 0
    ensures var j := MatchLen(t);
      && BraceMatches(t) == [(t[..j + 2], t[1..j + 1])] + BraceMatches(t[j + 2..])
      && ColonScan(t) == ":" + t[1..j + 1] + ColonScan(t[j + 2..])
      && Groups(BraceMatches(t)) == {t[1..j + 1]} + Groups(BraceMatches(t[j + 2..]))
      && (Flat(t) <==> '{' !in t[1..j + 1] && Flat(t[j + 2..]))
  {
    var j := MatchLen(t);
    var ms := BraceMatches(t);
    var rest := BraceMatches(t[j + 2..]);
    assert ms == [(t[..j + 2], t[1..j + 1])] + rest;
    assert ms[1..] == rest;
    if '{' !in t[1..j + 1] && Flat(t[j + 2..]) {
      forall i | 0 <= i < |ms|
        ensures '{' !in ms[i].1
      {
        if i > 0 {
          assert ms[i] == rest[i - 1];
        }
      }
    }
    if Flat(t) {
      assert '{' !in ms[0].1;
      forall i | 0 <= i < |rest|
        ensures '{' !in rest[i].1
      {
        assert rest[i] == ms[i + 1];
      }
    }
  }

  lemma FlatAfterMatch(t: string)
    requires MatchLen(t) > 0 && Flat(t)
    ensures Flat(t[MatchLen(t) + 2..])
  {
    MatchUnfold(t);
  }

  /** Unfolding both readings at a character that starts no match. */
  lemma NoMatchUnfold(t: string)
    requires |t| > 0 && MatchLen(t) == 0
    ensures BraceMatches(t) == BraceMatches(t[1..])
    ensures ColonScan(t) == [t[0]] + ColonScan(t[1..])
    ensures Flat(t) <==> Flat(t[1..])
  {
  }

  /** Text without '{' passes through both readings unchanged. */
  lemma {:induction false} PrefixFree(a: string, x: string)
    requires '{' !in a
    ensures BraceMatches(a + x) == BraceMatches(x)
    ensures ColonScan(a + x) == a + ColonScan(x)
    decreases |a|
  {
    if |a| == 0 {
      assert a + x == x;
    } else {
      assert a[0] in a;
      assert (a + x)[1..] == a[1..] + x;
      NoMatchUnfold(a + x);
      PrefixFree(a[1..], x);
    }
  }

  /** A replacement whose pattern starts with a character absent from `a`
      copies `a` and carries on after it. */
  lemma {:induction false} ReplaceAllPrefixFree(a: string, x: string, pat: string, rep: string)
    requires |pat| > 0 && pat[0] !in a
    ensures ReplaceAll(a + x, pat, rep) == a + ReplaceAll(x, pat, rep)
    decreases |a|
  {
    if |a| == 0 {
      assert a + x == x;
    } else {
      assert a[0] in a;
      assert (a + x)[0] == a[0];
      assert !HasPrefix(a + x, pat);
      assert (a + x)[1..] == a[1..] + x;
      ReplaceAllPrefixFree(a[1..], x, pat, rep);
    }
  }

  /** A pattern containing '}' does not occur in text without '}'. */
  lemma ReplaceAllNoClose(t: string, pat: string, rep: string)
    requires |pat| > 0 && '}' in pat && '}' !in t
    ensures ReplaceAll(t, pat, rep) == t
  {
    ContainsAt(t, pat);
    ReplaceAllAbsent(t, pat, rep);
  }

  /** What one `strings.Replace` of `{g}` by `:g` preserves on a flat path:
      the single pass's result, flatness, and every parameter name but `g`. */
  predicate StepKeeps(t: string, g: string)
    requires |g| > 0
  {
    var t' := ReplaceAll(t, "{" + g + "}", ":" + g);
    && ColonScan(t') == ColonScan(t)
    && Flat(t')
    && Groups(BraceMatches(t')) == Groups(BraceMatches(t)) - {g}
  }

  /** The step at a match of `g` itself. */
  lemma StepAtHit(t: string, g: string)
    requires |g| > 0 && '{' !in g && '}' !in g
    requires Flat(t) && MatchLen(t) == |g| && t[1..|g| + 1] == g
    requires StepKeeps(t[|g| + 2..], g)
    ensures StepKeeps(t, g)
  {
    var pat := "{" + g + "}";
    var rep := ":" + g;
    var rest := t[|g| + 2..];
    var rest' := ReplaceAll(rest, pat, rep);
    MatchUnfold(t);
    assert t[..|pat|] == pat;
    assert t[|pat|..] == rest;
    assert ReplaceAll(t, pat, rep) == rep + rest';
    PrefixFree(rep, rest');
  }

  /** Both readings at a string that starts with the parameter `{h}`. */
  lemma ParamUnfold(h: string, r: string)
    requires |h| > 0 && '}' !in h
    ensures var t := "{" + h + "}" + r;
      && MatchLen(t) == |h|
      && ColonScan(t) == ":" + h + ColonScan(r)
      && Groups(BraceMatches(t)) == {h} + Groups(BraceMatches(r))
      && (Flat(t) <==> '{' !in h && Flat(r))
  {
    var t := "{" + h + "}" + r;
    assert MatchLen(t) == |h| by {
      assert t[..|h| + 2] == "{" + h + "}";
      MatchLenOfPrefix(t, h);
    }
    assert t[1..|h| + 1] == h && t[|h| + 2..] == r;
    MatchUnfold(t);
  }

  /** A match is the text `{h}` followed by the rest. */
  lemma MatchSplit(t: string)
    requires MatchLen(t) > 0
    ensures var j := MatchLen(t);
      && t == "{" + t[1..j + 1] + "}" + t[j + 2..]
      && '}' !in t[1..j + 1]
  {
    var j := MatchLen(t);
    var h := t[1..j + 1];
    assert forall k :: 0 <= k < |h| ==> h[k] == t[k + 1];
  }

  /** Two parameters at the same offset are the same parameter. */
  lemma SameParam(t: string, g: string, h: string)
    requires |g| > 0 && '}' !in g && HasPrefix(t, "{" + g + "}")
    requires |h| > 0 && '}' !in h && HasPrefix(t, "{" + h + "}")
    ensures g == h
  {
    MatchLenOfPrefix(t, g);
    MatchLenOfPrefix(t, h);
    assert ("{" + g + "}")[1..|g| + 1] == g;
    assert ("{" + h + "}")[1..|h| + 1] == h;
  }

  /** Replacing `{g}` inside `{h}` + rest, `h` another name, only touches the
      rest. */
  lemma ReplaceSkipsOther(h: string, rest: string, g: string)
    requires |h| > 0 && '{' !in h && '}' !in h && h != g
    requires |g| > 0 && '}' !in g
    ensures ReplaceAll("{" + h + "}" + rest, "{" + g + "}", ":" + g)
         == "{" + h + "}" + ReplaceAll(rest, "{" + g + "}", ":" + g)
  {
    var pat := "{" + g + "}";
    var rep := ":" + g;
    var t := "{" + h + "}" + rest;
    if HasPrefix(t, pat) {
      SameParam(t, g, h);
    }
    assert t[1..] == (h + "}") + rest;
    ReplaceAllPrefixFree(h + "}", rest, pat, rep);
  }

  /** The step at a match of another name `h`: the match survives. */
  lemma StepAtOther(t: string, g: string)
    requires |g| > 0 && '{' !in g && '}' !in g
    requires Flat(t) && MatchLen(t) > 0 && t[1..MatchLen(t) + 1] != g
    requires StepKeeps(t[MatchLen(t) + 2..], g)
    ensures StepKeeps(t, g)
  {
    var j := MatchLen(t);
    var h := t[1..j + 1];
    var rest := t[j + 2..];
    MatchSplit(t);
    ParamUnfold(h, rest);
    ReplaceSkipsOther(h, rest, g);
    var rest' := ReplaceAll(rest, "{" + g + "}", ":" + g);
    ParamUnfold(h, rest');
  }

  /** The step at a character that starts no match. */
  lemma StepAtNone(t: string, g: string)
    requires |g| > 0 && '{' !in g && '}' !in g
    requires |t| > 0 && MatchLen(t) == 0 && '}' in t
    requires StepKeeps(t[1..], g)
    ensures StepKeeps(t, g)
  {
    var pat := "{" + g + "}";
    var rep := ":" + g;
    NoMatchUnfold(t);
    if HasPrefix(t, pat) {
      MatchLenOfPrefix(t, g);
    }
    var r' := ReplaceAll(t[1..], pat, rep);
    var t' := ReplaceAll(t, pat, rep);
    assert t' == [t[0]] + r';
    if t[0] == '{' {
      assert |t| > 1 && t[1] == '}';
      assert !HasPrefix(t[1..], pat);
      assert r'[0] == '}';
    }
    assert t'[1..] == r';
    NoMatchUnfold(t');
  }

  /** Replacing every `{g}` by `:g` in a flat path keeps `StepKeeps`. */
  lemma {:induction false} ReplaceStep(t: string, g: string)
    requires |g| > 0 && '{' !in g && '}' !in g
    requires Flat(t)
    ensures StepKeeps(t, g)
    decreases |t|
  {
    var pat := "{" + g + "}";
    if '}' !in t {
      ReplaceAllNoClose(t, pat, ":" + g);
      NoCloseNoMatch(t);
    } else {
      var j := MatchLen(t);
      if j > 0 {
        FlatAfterMatch(t);
        ReplaceStep(t[j + 2..], g);
        StepAtMatch(t, g);
      } else {
        assert Flat(t[1..]) by {
          NoMatchUnfold(t);
        }
        ReplaceStep(t[1..], g);
        StepAtNone(t, g);
      }
    }
  }

  /** The step at any match. */
  lemma StepAtMatch(t: string, g: string)
    requires |g| > 0 && '{' !in g && '}' !in g
    requires Flat(t) && MatchLen(t) > 0
    requires StepKeeps(t[MatchLen(t) + 2..], g)
    ensures StepKeeps(t, g)
  {
    if t[1..MatchLen(t) + 1] == g {
      StepAtHit(t, g);
    } else {
      StepAtOther(t, g);
    }
  }

  /** The source's loop agrees with the single pass as long as every
      parameter name still present is among the patterns yet to apply. */
  lemma {:induction false} ReplaceMatchesScan(t: string, ms: seq<(string, string)>)
    requires Flat(t)
    requires forall i :: 0 <= i < |ms| ==> ms[i].0 == "{" + ms[i].1 + "}" && |ms[i].1| > 0 && '}' !in ms[i].1
    requires forall i :: 0 <= i < |ms| ==> '{' !in ms[i].1
    requires Groups(BraceMatches(t)) <= Groups(ms)
    ensures ReplaceMatches(t, ms) == ColonScan(t)
    decreases |ms|
  {
    if |ms| == 0 {
      NoMatchesScan(t);
    } else {
      var g := ms[0].1;
      ReplaceStep(t, g);
      var t' := ReplaceAll(t, ms[0].0, ":" + g);
      ReplaceMatchesScan(t', ms[1..]);
    }
  }

  /** Every match ends in '}'. */
  lemma {:induction false} NoCloseNoMatch(t: string)
    requires '}' !in t
    ensures BraceMatches(t) == []
    decreases |t|
  {
    if |t| > 0 && MatchLen(t) == 0 {
      NoCloseNoMatch(t[1..]);
    }
  }

  /** Without matches the single pass copies its input. */
  lemma {:induction false} NoMatchesScan(t: string)
    requires Groups(BraceMatches(t)) == {}
    ensures ColonScan(t) == t
    decreases |t|
  {
    if |t| > 0 && MatchLen(t) == 0 {
      NoMatchesScan(t[1..]);
    }
  }
}
