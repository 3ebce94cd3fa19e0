/**
 * The module-path resolution of the test runner's `require`: a slash-separated
 * module path is resolved against a base path segment by segment, and a path
 * without the `.js` suffix gets one before it is fetched.
 */
module ModulePath {

  /** `s.split('/')`: the text between the slashes, so "" splits to [""] and "/a" to ["", "a"]. */
  function Split(s: string): (r: seq<string>)
    ensures |r| >= 1
    ensures forall i :: 0 <= i < |r| ==> '/' !in r[i]
    ensures |r| <= |s| + 1
    decreases |s|
  {
    if s == [] then [""]
    else
      var rest := Split(s[1..]);
      if s[0] == '/' then [""] + rest else [[s[0]] + rest[0]] + rest[1..]
  }

  /** `segs.join('/')`. */
  function Join(segs: seq<string>): (r: string)
    ensures |segs| == 1 ==> r == segs[0]
    ensures |r| >= |segs| - 1
    decreases |segs|
  {
    if segs == [] then ""
    else if |segs| == 1 then segs[0]
    else segs[0] + "/" + Join(segs[1..])
  }

  lemma JoinCons(c: char, x: string, rest: seq<string>)
    ensures Join([[c] + x] + rest) == [c] + Join([x] + rest)
  {
    if rest != [] {
      assert ([[c] + x] + rest)[1..] == rest;
      assert ([x] + rest)[1..] == rest;
    }
  }

  /** Joining the pieces of a split gives the text back. */
  lemma {:induction false} JoinSplit(s: string)
    ensures Join(Split(s)) == s
    decreases |s|
  {
    if s != [] {
      var rest := Split(s[1..]);
      JoinSplit(s[1..]);
      if s[0] == '/' {
        assert ([""] + rest)[1..] == rest;
      } else {
        JoinCons(s[0], rest[0], rest[1..]);
        assert [rest[0]] + rest[1..] == rest;
      }
    }
  }

  /** Splitting a text whose first part holds no slash. */
  lemma {:induction false} SplitNoSlash(x: string, y: string)
    requires '/' !in x
    ensures Split(x + y) == [x + Split(y)[0]] + Split(y)[1..]
    decreases |x|
  {
    if x == [] {
      assert x + y == y;
      assert x + Split(y)[0] == Split(y)[0];
      assert [Split(y)[0]] + Split(y)[1..] == Split(y);
    } else {
      assert (x + y)[1..] == x[1..] + y;
      assert x[0] != '/';
      SplitNoSlash(x[1..], y);
      assert [x[0]] + (x[1..] + Split(y)[0]) == x + Split(y)[0];
    }
  }

  /** Splitting the join of a non-empty list of slash-free segments gives the list back. */
  lemma {:induction false} SplitJoin(segs: seq<string>)
    requires segs != []
    requires forall i :: 0 <= i < |segs| ==> '/' !in segs[i]
    ensures Split(Join(segs)) == segs
    decreases |segs|
  {
    if |segs| == 1 {
      SplitNoSlash(segs[0], "");
      assert segs[0] + "" == segs[0];
    } else {
      var x, rest := segs[0], segs[1..];
      SplitJoin(rest);
      assert Join(segs) == x + ("/" + Join(rest));
      SplitNoSlash(x, "/" + Join(rest));
      assert ("/" + Join(rest))[1..] == Join(rest);
      assert x + "" == x;
    }
  }

  /** A character of the class `[A-Za-z0-9_-]`. */
  predicate IsExtChar(c: char) {
    ('A' <= c <= 'Z') || ('a' <= c <= 'z') || ('0' <= c <= '9') || c == '_' || c == '-'
  }

  /** The name matches `/\.[A-Za-z0-9_-]+$/`: a dot followed by one or more such characters at its end. */
  ghost predicate MatchesExtension(s: string) {
    exists j :: 0 <= j < |s| - 1 && s[j] == '.' && forall k :: j < k < |s| ==> IsExtChar(s[k])
  }

  /** The number of `[A-Za-z0-9_-]` characters at the end of `s`. */
  function TrailingRun(s: string): (n: nat)
    ensures n <= |s|
    ensures forall k :: |s| - n <= k < |s| ==> IsExtChar(s[k])
    ensures n < |s| ==> !IsExtChar(s[|s| - 1 - n])
    decreases |s|
  {
    if s == [] || !IsExtChar(s[|s| - 1]) then 0 else TrailingRun(s[..|s| - 1]) + 1
  }

  /** The extension test as the end of `s` is scanned: a non-empty run of extension characters after a dot. */
  predicate HasExtension(s: string) {
    var n := TrailingRun(s);
    0 < n < |s| && s[|s| - 1 - n] == '.'
  }

  /** The scan answers the regular expression, both ways. */
  lemma HasExtensionMatches(s: string)
    ensures HasExtension(s) <==> MatchesExtension(s)
  {
    var n := TrailingRun(s);
    if HasExtension(s) {
      var j := |s| - 1 - n;
      assert 0 <= j < |s| - 1 && s[j] == '.' && forall k :: j < k < |s| ==> IsExtChar(s[k]);
    }
    if MatchesExtension(s) {
      var j :| 0 <= j < |s| - 1 && s[j] == '.' && forall k :: j < k < |s| ==> IsExtChar(s[k]);
      assert !IsExtChar(s[j]);
      assert |s| - 1 - n == j;
    }
  }

  /**
   * The segments of the base's directory: the base split at the slashes,
   * with its last segment dropped when it is empty or looks like a file name.
   */
  function BaseDir(base: string): (r: seq<string>)
    ensures r <= Split(base) && |r| >= |Split(base)| - 1
  {
    var segs := Split(base);
    var last := segs[|segs| - 1];
    if last != "" && !HasExtension(last) then segs else segs[..|segs| - 1]
  }

  /** The base directory keeps the last segment of the base exactly when it is non-empty and has no extension. */
  lemma BaseDirLast(base: string)
    ensures var segs := Split(base);
      |BaseDir(base)| == |segs| <==> segs[|segs| - 1] != "" && !MatchesExtension(segs[|segs| - 1])
  {
    var segs := Split(base);
    HasExtensionMatches(segs[|segs| - 1]);
  }

  /** One turn of the `switch`: "." is skipped, ".." pops (nothing on an empty list), anything else is pushed. */
  function Step(acc: seq<string>, seg: string): (r: seq<string>)
    ensures r <= acc || r == acc + [seg]
    ensures |r| <= |acc| + 1
  {
    if seg == "." then acc
    else if seg == ".." then (if acc == [] then [] else acc[..|acc| - 1])
    else acc + [seg]
  }

  /**
   * The segment list after the module path's segments were handled from left
   * to right; each of them adds at most one segment.
   */
  function Resolve(acc: seq<string>, segs: seq<string>): (r: seq<string>)
    ensures |r| <= |acc| + |segs|
    decreases |segs|
  {
    if segs == [] then acc else Step(Resolve(acc, segs[..|segs| - 1]), segs[|segs| - 1])
  }

  /** The segments that `normalize(path, base)` joins. */
  function Normalized(path: string, base: string): (r: seq<string>)
    ensures |r| <= |BaseDir(base)| + |Split(path)|
  {
    Resolve(BaseDir(base), Split(path))
  }

  /** `Array.prototype.reverse`. */
  function Reverse(s: seq<string>): (r: seq<string>)
    ensures |r| == |s|
    ensures forall k :: 0 <= k < |s| ==> r[k] == s[|s| - 1 - k]
  {
    seq(|s|, k requires 0 <= k < |s| => s[|s| - 1 - k])
  }

  /**
   * `normalize(path, base)`: the reversed module segments are popped off the
   * end one by one, each pushing onto or popping from the base's directory.
   */
  method Normalize(path: string, base: string) returns (r: string)
    ensures r == Join(Normalized(path, base))
  {
    var segs := Split(path);
    var reversed := Reverse(segs);
    var stack := BaseDir(base);
    var i := |reversed|;
    while i > 0
      invariant 0 <= i <= |segs|
      invariant stack == Resolve(BaseDir(base), segs[..|segs| - i])
    {
      i := i - 1;
      var current := reversed[i];
      ghost var before := stack;
      if current == "." {
      } else if current == ".." {
        if stack != [] {
          stack := stack[..|stack| - 1];
        }
      } else {
        stack := stack + [current];
      }
      assert stack == Step(before, current);
      ResolveSnoc(BaseDir(base), segs, |segs| - 1 - i);
    }
    assert segs[..|segs|] == segs;
    r := Join(stack);
  }

  /** One more segment handled. */
  lemma ResolveSnoc(acc: seq<string>, segs: seq<string>, n: nat)
    requires n < |segs|
    ensures Resolve(acc, segs[..n + 1]) == Step(Resolve(acc, segs[..n]), segs[n])
  {
    assert segs[..n + 1][..n] == segs[..n];
  }

  /** Handling two lists of segments one after the other. */
  lemma {:induction false} ResolveAppend(acc: seq<string>, xs: seq<string>, ys: seq<string>)
    ensures Resolve(acc, xs + ys) == Resolve(Resolve(acc, xs), ys)
    decreases |ys|
  {
    if ys == [] {
      assert xs + ys == xs;
    } else {
      var init := ys[..|ys| - 1];
      assert (xs + ys)[..|xs + ys| - 1] == xs + init;
      ResolveAppend(acc, xs, init);
    }
  }

  /** A "." segment anywhere in the module path changes nothing. */
  lemma DotIsSkipped(acc: seq<string>, xs: seq<string>, ys: seq<string>)
    ensures Resolve(acc, xs + ["."] + ys) == Resolve(acc, xs + ys)
  {
    ResolveAppend(acc, xs + ["."], ys);
    ResolveAppend(acc, xs, ys);
    assert (xs + ["."])[..|xs|] == xs;
  }

  /** A ".." segment removes the segment before it, or nothing when the list is empty. */
  lemma DotDotPops(acc: seq<string>, xs: seq<string>, ys: seq<string>)
    ensures var before := Resolve(acc, xs);
      Resolve(acc, xs + [".."] + ys)
        == Resolve(if before == [] then [] else before[..|before| - 1], ys)
  {
    ResolveAppend(acc, xs + [".."], ys);
    assert (xs + [".."])[..|xs|] == xs;
  }

  /** An ordinary segment followed by ".." leaves no trace. */
  lemma DotDotCancels(acc: seq<string>, xs: seq<string>, seg: string)
    requires seg != "." && seg != ".."
    ensures Resolve(acc, xs + [seg, ".."]) == Resolve(acc, xs)
  {
    assert xs + [seg, ".."] == (xs + [seg]) + [".."];
    assert (xs + [seg, ".."])[..|xs| + 1] == xs + [seg];
    assert (xs + [seg])[..|xs|] == xs;
    var before := Resolve(acc, xs);
    assert (before + [seg])[..|before|] == before;
  }

  /** No "." or ".." among the segments. */
  predicate Simple(segs: seq<string>) {
    forall i :: 0 <= i < |segs| ==> segs[i] != "." && segs[i] != ".."
  }

  /** Without "." and ".." every segment, empty ones too, is appended in order. */
  lemma {:induction false} ResolveSimple(acc: seq<string>, segs: seq<string>)
    requires Simple(segs)
    ensures Resolve(acc, segs) == acc + segs
    decreases |segs|
  {
    if segs != [] {
      var init := segs[..|segs| - 1];
      ResolveSimple(acc, init);
      assert init + [segs[|segs| - 1]] == segs;
    }
  }

  /** A simple module path is the base directory followed by the module path. */
  lemma NormalizedSimple(path: string, base: string)
    requires Simple(Split(path))
    ensures Normalized(path, base) == BaseDir(base) + Split(path)
    ensures |Normalized(path, base)| <= |BaseDir(base)| + |Split(path)|
  {
    ResolveSimple(BaseDir(base), Split(path));
  }

  /** The path ends with ".js" (the test `/\.js$/`). */
  predicate EndsWithJs(s: string) {
    |s| >= 3 && s[|s| - 3..] == ".js"
  }

  /** The suffix rule of `load`: ".js" is appended to a path that lacks it. */
  function EnsureJs(path: string): (r: string)
    ensures EndsWithJs(r)
    ensures path <= r && |r| <= |path| + 3
    ensures EndsWithJs(path) <==> r == path
  {
    if EndsWithJs(path) then path
    else
      var r := path + ".js";
      assert r[|r| - 3..] == ".js";
      r
  }

  /** Applying the rule to its own result changes nothing. */
  lemma EnsureJsIdempotent(path: string)
    ensures EnsureJs(EnsureJs(path)) == EnsureJs(path)
  {
  }

  /** The module path "../x" resolved against the directory of "/a/b/page.html". */
  lemma ResolveExample()
    ensures Resolve(["", "a", "b"], ["..", "x"]) == ["", "a", "x"]
    ensures Join(["", "a", "x"]) == "/a/x"
  {
    assert ["..", "x"][..1] == [".."];
    assert ["..", "x"][..1][..0] == [];
  }
}
