/** Go's slash-separated path helpers used for naming and walking:
    `filepath.Base` (on a Unix host) and `path.Clean` / `path.Join`. */
module GoPath {
  import opened Text

  /** Drops trailing slashes. */
  function TrimTrailingSlashes(p: string): (r: string)
    ensures |r| <= |p| && r == p[..|r|]
    ensures |r| > 0 ==> r[|r| - 1] != '/'
    ensures forall i :: |r| <= i < |p| ==> p[i] == '/'
  {
    if |p| > 0 && p[|p| - 1] == '/' then TrimTrailingSlashes(p[..|p| - 1]) else p
  }

  /** Text after the last slash. */
  function LastElement(p: string): (r: string)
    ensures '/' !in r
    ensures |r| <= |p| && r == p[|p| - |r|..]
    ensures |r| < |p| ==> p[|p| - |r| - 1] == '/'
  {
    if |p| == 0 then ""
    else if p[|p| - 1] == '/' then ""
    else LastElement(p[..|p| - 1]) + [p[|p| - 1]]
  }

  /** `filepath.Base(p)`: the last element; "." for the empty path and "/"
      for a path of slashes only. */
  function Base(p: string): (r: string)
    ensures |r| > 0
    ensures p == "" ==> r == "."
    ensures r == "/" || '/' !in r
  {
    if p == "" then "."
    else
      var t := TrimTrailingSlashes(p);
      if t == "" then "/"
      else
        LastElement(t)
  }

  /** Taking the base of a base changes nothing. */
  lemma BaseIdempotent(p: string)
    ensures Base(Base(p)) == Base(p)
  {
    var b := Base(p);
    if b == "/" {
      assert TrimTrailingSlashes(b) == TrimTrailingSlashes("") == "";
    } else {
      assert b[|b| - 1] != '/';
      assert TrimTrailingSlashes(b) == b;
      LastElementNoSlash(b);
    }
  }

  lemma {:induction false} LastElementNoSlash(p: string)
    requires '/' !in p
    ensures LastElement(p) == p
  {
    if |p| > 0 {
      LastElementNoSlash(p[..|p| - 1]);
    }
  }

  /** One step of `path.Clean` over the element stack: skip empty and "."
      elements, let ".." pop a real element, keep a leading ".." only on a
      relative path. */
  function Push(stack: seq<string>, e: string, rooted: bool): seq<string> {
    if e == "" || e == "." then stack
    else if e == ".." then
      if |stack| > 0 && stack[|stack| - 1] != ".." then stack[..|stack| - 1]
      else if rooted then stack
      else stack + [".."]
    else stack + [e]
  }

  function CleanElements(elems: seq<string>, rooted: bool, stack: seq<string>): seq<string>
    decreases |elems|
  {
    if |elems| == 0 then stack else CleanElements(elems[1..], rooted, Push(stack, elems[0], rooted))
  }

  /** `path.Clean(p)`: rooted exactly when `p` is, and already clean. */
  function Clean(p: string): (r: string)
    ensures |r| > 0
    ensures r[0] == '/' <==> |p| > 0 && p[0] == '/'
  {
    var rooted := |p| > 0 && p[0] == '/';
    var stack := CleanElements(Split(p, '/'), rooted, []);
    CleanElementsNormal(Split(p, '/'), rooted, []);
    var body := Join(stack, '/');
    JoinHead(stack, '/');
    if rooted then "/" + body
    else if body == "" then "."
    else body
  }

  /** A stack `CleanElements` can leave: real elements without slashes, and
      ".." only at the front of a relative path. */
  predicate Normal(stack: seq<string>, rooted: bool) {
    forall i | 0 <= i < |stack| ::
      && stack[i] != "" && stack[i] != "." && '/' !in stack[i]
      && (stack[i] == ".." ==> !rooted && forall j | 0 <= j < i :: stack[j] == "..")
  }

  lemma {:induction false} CleanElementsNormal(elems: seq<string>, rooted: bool, stack: seq<string>)
    requires Normal(stack, rooted) && forall i | 0 <= i < |elems| :: '/' !in elems[i]
    ensures Normal(CleanElements(elems, rooted, stack), rooted)
    decreases |elems|
  {
    if |elems| > 0 {
      var next := Push(stack, elems[0], rooted);
      assert Normal(next, rooted) by {
        if elems[0] == ".." && |stack| > 0 && stack[|stack| - 1] != ".." {
          assert forall i | 0 <= i < |next| :: next[i] == stack[i];
        }
      }
      CleanElementsNormal(elems[1..], rooted, next);
    }
  }

  /** On a normal stack the walk only copies. */
  lemma {:induction false} CleanElementsFixed(elems: seq<string>, rooted: bool, acc: seq<string>)
    requires Normal(acc + elems, rooted)
    ensures CleanElements(elems, rooted, acc) == acc + elems
    decreases |elems|
  {
    if |elems| > 0 {
      var all := acc + elems;
      assert all[|acc|] == elems[0];
      assert Push(acc, elems[0], rooted) == acc + [elems[0]] by {
        if elems[0] == ".." && |acc| > 0 {
          assert all[|acc| - 1] == acc[|acc| - 1];
        }
      }
      assert acc + [elems[0]] + elems[1..] == all;
      CleanElementsFixed(elems[1..], rooted, acc + [elems[0]]);
    }
  }

  lemma JoinHead(parts: seq<string>, c: char)
    ensures |parts| >= 1 && |parts[0]| > 0 ==> |Join(parts, c)| > 0 && Join(parts, c)[0] == parts[0][0]
  {
  }

  /** Cleaning a clean path changes nothing. */
  lemma CleanIdempotent(p: string)
    ensures Clean(Clean(p)) == Clean(p)
  {
    var rooted := |p| > 0 && p[0] == '/';
    var stack := CleanElements(Split(p, '/'), rooted, []);
    CleanElementsNormal(Split(p, '/'), rooted, []);
    if |stack| == 0 {
      if rooted {
        CleanRoot();
      } else {
        CleanDot();
      }
    } else {
      CleanOfStack(stack, rooted);
    }
  }

  lemma CleanRoot()
    ensures Clean("/") == "/"
  {
    SplitCons("", '/', "");
    assert "/" == "" + ['/'] + "";
    assert Split("", '/') == [""];
    assert CleanElements(["", ""], true, []) == [];
  }

  lemma CleanDot()
    ensures Clean(".") == "."
  {
    assert Split(".", '/') == ["."];
    assert CleanElements(["."], false, []) == [];
  }

  /** The path a non-empty normal stack joins to is clean. */
  lemma CleanOfStack(stack: seq<string>, rooted: bool)
    requires Normal(stack, rooted) && |stack| > 0
    ensures var body := Join(stack, '/');
      Clean(if rooted then "/" + body else body) == (if rooted then "/" + body else body)
  {
    var body := Join(stack, '/');
    SplitJoin(stack, '/');
    assert [] + stack == stack;
    CleanElementsFixed(stack, rooted, []);
    JoinHead(stack, '/');
    if rooted {
      SplitCons("", '/', body);
      assert "/" + body == "" + ['/'] + body;
      assert ([""] + stack)[1..] == stack;
    }
  }

  /** `path.Join(a, b)`: the non-empty arguments joined by a slash and
      cleaned; "" when both are empty. The result is clean, and rooted
      when `a` is. */
  function PathJoin(a: string, b: string): (r: string)
    ensures (a == "" && b == "") <==> r == ""
    ensures |a| > 0 && a[0] == '/' ==> |r| > 0 && r[0] == '/'
    ensures r != "" ==> Clean(r) == r
  {
    if a == "" && b == "" then ""
    else
      var q := if a == "" then b else if b == "" then a else a + "/" + b;
      CleanIdempotent(q);
      Clean(q)
  }
}
