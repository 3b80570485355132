/** Which file an HTTP request is answered from, and that it never lies outside the document root. */
module HttpPath {
  datatype Method = Get | Head | OtherMethod

  datatype Answer = BadRequest(why: string) | Serve(path: string)

  predicate HasDotDot(s: string) {
    exists i :: 0 <= i < |s| - 1 && s[i] == '.' && s[i + 1] == '.'
  }

  /** `s` without one trailing slash. */
  function Unslashed(s: string): string {
    if s != "" && s[|s| - 1] == '/' then s[..|s| - 1] else s
  }

  predicate Acceptable(target: string) {
    target != "" && target[0] == '/' && !HasDotDot(target)
  }

  /** `pathConcat`, as built where the separator is a slash. */
  method PathConcat(base: string, path: string) returns (result: string)
    ensures result == Unslashed(base) + path
  {
    if base == "" {
      return path;
    }
    result := base;
    if result[|result| - 1] == '/' {
      result := result[..|result| - 1];
    }
    result := result + path;
  }

  method FindDotDot(s: string) returns (found: bool)
    ensures found <==> HasDotDot(s)
  {
    var i := 0;
    while i + 1 < |s|
      invariant forall j :: 0 <= j < i && j < |s| - 1 ==> !(s[j] == '.' && s[j + 1] == '.')
    {
      if s[i] == '.' && s[i + 1] == '.' {
        return true;
      }
      i := i + 1;
    }
    return false;
  }

  /** The decisions of `handleRequest` up to opening the file. */
  method HandleRequest(root: string, m: Method, target: string, customResponse: bool) returns (a: Answer)
    ensures a.Serve? <==> !customResponse && m != OtherMethod && Acceptable(target)
    ensures a.Serve? ==> a.path == Unslashed(root) + target + if target[|target| - 1] == '/' then "index.html" else ""
    ensures a.BadRequest? ==> a.why == if customResponse then "Not allowed"
                                       else if m == OtherMethod then "Unknown HTTP-method"
                                       else "Illegal request-target"
    ensures a.Serve? && root != "" && !HasDotDot(root) ==> StaysIn(Resolved(root), Resolved(a.path))
  {
    if customResponse {
      return BadRequest("Not allowed");
    }
    if m != Get && m != Head {
      return BadRequest("Unknown HTTP-method");
    }
    var dotted := FindDotDot(target);
    if target == "" || target[0] != '/' || dotted {
      return BadRequest("Illegal request-target");
    }
    var path := PathConcat(root, target);
    if target[|target| - 1] == '/' {
      path := path + "index.html";
    }
    if root != "" && !HasDotDot(root) {
      ServedPathStaysInRoot(root, target);
      if target[|target| - 1] == '/' {
        IndexPageIsAcceptable(target);
        ServedPathStaysInRoot(root, target + "index.html");
        assert Unslashed(root) + target + "index.html" == Unslashed(root) + (target + "index.html");
      }
    }
    return Serve(path);
  }

  // ---------------------------------------------------------------------------------------------
  // Dot segments, as in section 5.2.4 of RFC 3986.

  /** The length of the first segment, with its initial slash if any. */
  function SegmentEnd(input: string, from: nat): (n: nat)
    requires from <= |input|
    ensures from <= n <= |input| && (forall i :: from <= i < n ==> input[i] != '/')
    ensures n < |input| ==> input[n] == '/'
    decreases |input| - from
  {
    if from == |input| || input[from] == '/' then from else SegmentEnd(input, from + 1)
  }

  function FirstSegment(input: string): (n: nat)
    requires input != ""
    ensures 0 < n <= |input|
  {
    SegmentEnd(input, 1)
  }

  /** `output` without its last segment and the slash before it. */
  function WithoutLast(output: string): string {
    if output == "" then ""
    else if output[|output| - 1] == '/' then output[..|output| - 1]
    else WithoutLast(output[..|output| - 1])
  }

  /** The input buffer and the output buffer of the algorithm; its rules A to E in order. */
  function RemoveDotSegments(input: string, output: string): string
    decreases |input|
  {
    if input == "" then output
    else if "../" <= input then RemoveDotSegments(input[3..], output)
    else if "./" <= input then RemoveDotSegments(input[2..], output)
    else if "/./" <= input then RemoveDotSegments(input[2..], output)
    else if input == "/." then RemoveDotSegments("/", output)
    else if "/../" <= input then RemoveDotSegments(input[3..], WithoutLast(output))
    else if input == "/.." then RemoveDotSegments("/", WithoutLast(output))
    else if input == "." || input == ".." then output
    else
      var n := FirstSegment(input);
      RemoveDotSegments(input[n..], output + input[..n])
  }

  function Resolved(path: string): string {
    RemoveDotSegments(path, "")
  }

  /** `path` lies under the resolved root: it goes on with a new segment after it. */
  predicate StaysIn(root: string, path: string) {
    var r := Unslashed(root);
    r == "" || (r <= path && |r| < |path| && path[|r|] == '/')
  }

  // ---------------------------------------------------------------------------------------------
  // Without "..", the algorithm only ever appends to its output.

  lemma TailHasNoDotDot(s: string, n: nat)
    requires n <= |s| && !HasDotDot(s)
    ensures !HasDotDot(s[n..])
  {
    forall i | 0 <= i < |s| - n - 1
      ensures !(s[n..][i] == '.' && s[n..][i + 1] == '.')
    {
      assert !(s[n + i] == '.' && s[n + i + 1] == '.');
    }
  }

  lemma JoinHasNoDotDot(s: string, t: string)
    requires !HasDotDot(s) && !HasDotDot(t) && (s != "" && t != "" ==> s[|s| - 1] != '.' || t[0] != '.')
    ensures !HasDotDot(s + t)
  {
    forall i | 0 <= i < |s + t| - 1
      ensures !((s + t)[i] == '.' && (s + t)[i + 1] == '.')
    {
      if i + 1 < |s| {
        assert !(s[i] == '.' && s[i + 1] == '.');
      } else if i >= |s| {
        assert !(t[i - |s|] == '.' && t[i - |s| + 1] == '.');
      }
    }
  }

  /** What one round appends to the output, and the input it leaves. */
  function Round(input: string): (string, string)
    requires input != ""
  {
    if "./" <= input || "/./" <= input then ("", input[2..])
    else if input == "/." then ("", "/")
    else if input == "." then ("", "")
    else (input[..FirstSegment(input)], input[FirstSegment(input)..])
  }

  lemma OneRound(input: string, output: string)
    requires input != "" && !HasDotDot(input)
    ensures RemoveDotSegments(input, output) == RemoveDotSegments(Round(input).1, output + Round(input).0)
    ensures |Round(input).1| < |input| && !HasDotDot(Round(input).1)
  {
    assert |input| >= 2 ==> !(input[0] == '.' && input[1] == '.');
    assert |input| >= 3 ==> !(input[1] == '.' && input[2] == '.');
    assert output + "" == output;
    assert !("../" <= input) && !("/../" <= input) && input != "/.." && input != "..";
    if "./" <= input || "/./" <= input {
      TailHasNoDotDot(input, 2);
    } else if input != "/." && input != "." {
      TailHasNoDotDot(input, FirstSegment(input));
    }
  }

  lemma Regroup(a: string, b: string, c: string)
    ensures a + (b + c) == (a + b) + c
    ensures "" + c == c
  {
  }

  lemma {:induction false} OutputGrows(input: string, output: string)
    requires !HasDotDot(input)
    ensures RemoveDotSegments(input, output) == output + Resolved(input)
    decreases |input|
  {
    if input != "" {
      var (emitted, rest) := Round(input);
      OneRound(input, output);
      OneRound(input, "");
      OutputGrows(rest, output + emitted);
      OutputGrows(rest, "" + emitted);
      Regroup(output, emitted, Resolved(rest));
      Regroup("", "", emitted);
    }
  }

  lemma RoundResolves(input: string)
    requires input != "" && !HasDotDot(input)
    ensures Resolved(input) == Round(input).0 + Resolved(Round(input).1)
    ensures |Round(input).1| < |input| && !HasDotDot(Round(input).1)
  {
    OneRound(input, "");
    OutputGrows(Round(input).1, "" + Round(input).0);
  }

  lemma {:induction false} AbsoluteStaysAbsolute(t: string)
    requires t != "" && t[0] == '/' && !HasDotDot(t)
    ensures Resolved(t) != "" && Resolved(t)[0] == '/'
    decreases |t|
  {
    RoundResolves(t);
    if "/./" <= t || t == "/." {
      AbsoluteStaysAbsolute(Round(t).1);
    }
  }

  // ---------------------------------------------------------------------------------------------
  // Resolving a base with an absolute target behind it.

  /** Nothing but dots in the current directory, such as "././.". */
  predicate DotOnly(b: string)
    decreases |b|
  {
    b == "." || ("./" <= b && DotOnly(b[2..]))
  }

  /** What is kept of a base when a slash follows. */
  function Kept(b: string): string
    decreases |b|
  {
    if b == "" || b == "." || b == "/." then ""
    else Round(b).0 + Kept(Round(b).1)
  }

  lemma {:induction false} SegmentEndsInBase(b: string, t: string, from: nat)
    requires from <= |b| && t != "" && t[0] == '/'
    ensures SegmentEnd(b + t, from) == SegmentEnd(b, from)
    decreases |b| - from
  {
    if from < |b| && b[from] != '/' {
      SegmentEndsInBase(b, t, from + 1);
    }
  }

  lemma RoundOfJoined(b: string, t: string)
    requires b != "" && b != "." && t != "" && t[0] == '/'
    ensures Round(b + t) == if b == "/." then ("", t) else (Round(b).0, Round(b).1 + t)
  {
    var input := b + t;
    assert b <= input;
    SegmentEndsInBase(b, t, 1);
    if b == "/." {
      assert input[2..] == t;
    } else if "./" <= b || "/./" <= b {
      assert input[2..] == b[2..] + t;
    } else {
      var n := FirstSegment(b);
      assert |b| == 1 ==> b[0] != '.';
      assert |b| == 2 ==> !(b[0] == '/' && b[1] == '.');
      assert !("./" <= input) && !("/./" <= input) && input != "/.";
      assert input[..n] == b[..n] && input[n..] == b[n..] + t;
    }
  }

  lemma RoundKeepsNames(b: string)
    requires b != "" && !DotOnly(b)
    ensures !DotOnly(Round(b).1)
  {
    var rest := Round(b).1;
    assert "./" <= b || rest == "" || rest[0] == '/';
  }

  lemma {:induction false} JoinedResolves(b: string, t: string)
    requires !DotOnly(b) && t != "" && t[0] == '/' && !HasDotDot(b + t)
    ensures Resolved(b + t) == Kept(b) + Resolved(t)
    decreases |b|
  {
    if b == "" {
      assert b + t == t;
    } else {
      RoundOfJoined(b, t);
      RoundResolves(b + t);
      RoundKeepsNames(b);
      if b != "/." {
        var (emitted, rest) := Round(b);
        assert Round(b + t).1 == rest + t && !HasDotDot(rest + t);
        JoinedResolves(rest, t);
        Regroup(emitted, Kept(rest), Resolved(t));
      } else {
        Regroup("", "", Resolved(t));
      }
    }
  }

  lemma UnslashedKeepsFront(front: string, s: string)
    requires s != ""
    ensures Unslashed(front + s) == front + Unslashed(s)
  {
  }

  /** Resolving the base alone keeps the same, but for a trailing slash. */
  lemma {:induction false} BaseResolves(b: string)
    requires b != "" && b[|b| - 1] != '/' && !DotOnly(b) && !HasDotDot(b)
    ensures Unslashed(Resolved(b)) == Kept(b)
    ensures Resolved(b) != ""
    decreases |b|
  {
    RoundResolves(b);
    RoundKeepsNames(b);
    var (emitted, rest) := Round(b);
    if b == "/." {
      RoundResolves("/");
    } else if rest != "" {
      BaseResolves(rest);
      UnslashedKeepsFront(emitted, Resolved(rest));
    }
  }

  lemma {:induction false} DotOnlyResolves(b: string)
    requires DotOnly(b) && !HasDotDot(b)
    ensures Resolved(b) == "" && Resolved(b + "/") == ""
    decreases |b|
  {
    JoinHasNoDotDot(b, "/");
    RoundResolves(b);
    RoundResolves(b + "/");
    if b != "." {
      assert (b + "/")[2..] == b[2..] + "/";
      DotOnlyResolves(b[2..]);
    } else {
      assert (b + "/")[2..] == "";
    }
  }

  // ---------------------------------------------------------------------------------------------

  lemma IndexPageIsAcceptable(target: string)
    requires Acceptable(target) && target[|target| - 1] == '/'
    ensures Acceptable(target + "index.html")
  {
    JoinHasNoDotDot(target, "index.html");
  }

  /** The resolved path stays in the root: for every non-empty root without ".." and every accepted
      target, the resolved root is a segment prefix of the resolved path. */
  lemma ServedPathStaysInRoot(root: string, target: string)
    requires root != "" && !HasDotDot(root) && Acceptable(target)
    ensures StaysIn(Resolved(root), Resolved(Unslashed(root) + target))
  {
    var b := Unslashed(root);
    assert b == root[..|b|] && !HasDotDot(b);
    JoinHasNoDotDot(b, target);
    if DotOnly(b) {
      DotOnlyResolves(b);
      assert root == b || root == b + "/";
    } else {
      JoinedResolves(b, target);
      AbsoluteStaysAbsolute(target);
      if root == b {
        BaseResolves(b);
      } else {
        assert root == b + "/";
        JoinedResolves(b, "/");
        RoundResolves("/");
      }
    }
  }

  /** A path of one segment that is no dot segment is moved to the output as it is. */
  lemma SegmentIsKept(segment: string, rest: string, output: string)
    requires |segment| == 2 && segment[0] == '/' && segment[1] != '/' && segment[1] != '.'
    requires rest == "" || rest[0] == '/'
    ensures RemoveDotSegments(segment + rest, output) == RemoveDotSegments(rest, output + segment)
  {
    var input := segment + rest;
    assert input[..2] == segment && input[2..] == rest;
    assert SegmentEnd(input, 2) == 2 && SegmentEnd(input, 1) == 2;
  }

  lemma SegmentIsDropped(segment: string)
    requires |segment| == 2 && segment[0] == '/' && segment[1] != '/'
    ensures WithoutLast(segment) == ""
  {
    assert segment[..1] == "/" && "/"[..0] == "";
  }

  /** Without the refusal of ".." it would not: the target below resolves outside the root. */
  lemma DotDotWouldLeave()
    ensures !Acceptable("/../x") && Resolved(Unslashed("/s") + "/../x") == "/x"
    ensures !StaysIn(Resolved("/s"), Resolved(Unslashed("/s") + "/../x"))
  {
    var target := "/../x";
    assert target[1] == '.' && target[2] == '.';
    SegmentIsKept("/s", target, "");
    SegmentIsKept("/s", "", "");
    SegmentIsKept("/x", "", "");
    SegmentIsDropped("/s");
    assert target[3..] == "/x" && "" + "/s" == "/s" && "/s" + "" == "/s" && "/x" + "" == "/x";
    assert RemoveDotSegments(target, "/s") == RemoveDotSegments("/x", "");
    assert Resolved("/s") == "/s";
  }
}
