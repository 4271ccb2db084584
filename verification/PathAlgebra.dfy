/** Normalising, joining and relating slash-separated paths.
    A path string stands for a list of components under the root or under nowhere in particular;
    the string operations are shown to act on those lists. */
module PathAlgebra {
  import opened JsText

  datatype Path = Path(absolute: bool, parts: seq<string>)

  /** `normalizeSlashes` */
  function Slashed(s: string): string {
    seq(|s|, i requires 0 <= i < |s| => if s[i] == '\\' then '/' else s[i])
  }

  /** `posixIsAbsolute` */
  predicate Absolute(s: string) {
    s != "" && Slashed(s)[0] == '/'
  }

  /** One component read onto the components before it. */
  function Stepped(parts: seq<string>, part: string, absolute: bool): seq<string> {
    if part == "" || part == "." then parts
    else if part == ".." then
      if parts != [] && parts[|parts| - 1] != ".." then parts[..|parts| - 1]
      else if absolute then parts
      else parts + [part]
    else parts + [part]
  }

  function Walk(parts: seq<string>, todo: seq<string>, absolute: bool): seq<string>
    decreases |todo|
  {
    if todo == [] then parts else Walk(Stepped(parts, todo[0], absolute), todo[1..], absolute)
  }

  function Parse(s: string): Path {
    Path(Absolute(s), Walk([], SplitOn(Slashed(s), '/'), Absolute(s)))
  }

  function Render(p: Path): string {
    var r := (if p.absolute then "/" else "") + Join(p.parts, "/");
    if r == "" then "." else r
  }

  /** `posixNormalize` */
  function Normalize(s: string): string {
    Render(Parse(s))
  }

  method PosixNormalize(value: string) returns (r: string)
    ensures r == Normalize(value)
  {
    var normalized := Slashed(value);
    var absolute := |normalized| > 0 && normalized[0] == '/';
    var parts: seq<string> := [];
    var split := SplitOn(normalized, '/');
    assert split[0..] == split;
    for i := 0 to |split|
      invariant Walk(parts, split[i..], absolute) == Walk([], split, absolute)
    {
      var part := split[i];
      assert split[i..][1..] == split[i + 1..];
      if part == "" || part == "." {
        continue;
      }
      if part == ".." {
        if |parts| > 0 && parts[|parts| - 1] != ".." {
          parts := parts[..|parts| - 1];
        } else if !absolute {
          parts := parts + [part];
        }
        continue;
      }
      parts := parts + [part];
    }
    r := (if absolute then "/" else "") + Join(parts, "/");
    if r == "" {
      r := if absolute then "/" else ".";
    }
  }

  // ----- normal forms --------------------------------------------------------------------

  predicate Component(part: string) {
    part != "" && part != "." && '/' !in part && '\\' !in part
  }

  /** No empty or `.` component; `..` only at the front of a relative path. */
  ghost predicate Normal(p: Path) {
    && (forall i | 0 <= i < |p.parts| :: Component(p.parts[i]))
    && (forall i | 0 <= i < |p.parts| && p.parts[i] == ".." ::
          !p.absolute && forall j | 0 <= j < i :: p.parts[j] == "..")
  }

  ghost predicate Plain(todo: seq<string>) {
    forall i | 0 <= i < |todo| :: '/' !in todo[i] && '\\' !in todo[i]
  }

  lemma SteppedIsNormal(parts: seq<string>, part: string, absolute: bool)
    requires Normal(Path(absolute, parts)) && '/' !in part && '\\' !in part
    ensures Normal(Path(absolute, Stepped(parts, part, absolute)))
  {
    if part == ".." && (parts == [] || parts[|parts| - 1] == "..") && !absolute {
      assert forall j | 0 <= j < |parts| :: parts[j] == "..";
    }
  }

  lemma {:induction false} WalkIsNormal(parts: seq<string>, todo: seq<string>, absolute: bool)
    requires Normal(Path(absolute, parts)) && Plain(todo)
    ensures Normal(Path(absolute, Walk(parts, todo, absolute)))
    decreases |todo|
  {
    if todo != [] {
      SteppedIsNormal(parts, todo[0], absolute);
      WalkIsNormal(Stepped(parts, todo[0], absolute), todo[1..], absolute);
    }
  }

  lemma {:induction false} WalkKeepsNormal(parts: seq<string>, todo: seq<string>, absolute: bool)
    requires Normal(Path(absolute, parts + todo))
    ensures Walk(parts, todo, absolute) == parts + todo
    decreases |todo|
  {
    if todo == [] {
      assert parts + todo == parts;
    } else {
      var all := parts + todo;
      assert all[|parts|] == todo[0];
      assert parts != [] ==> all[|parts| - 1] == parts[|parts| - 1];
      assert parts + [todo[0]] + todo[1..] == all;
      WalkKeepsNormal(parts + [todo[0]], todo[1..], absolute);
    }
  }

  lemma {:induction false} WalkAppend(parts: seq<string>, a: seq<string>, b: seq<string>, absolute: bool)
    ensures Walk(parts, a + b, absolute) == Walk(Walk(parts, a, absolute), b, absolute)
    decreases |a|
  {
    if a == [] {
      assert a + b == b;
    } else {
      assert (a + b)[1..] == a[1..] + b;
      WalkAppend(Stepped(parts, a[0], absolute), a[1..], b, absolute);
    }
  }

  lemma PiecesOfSlashedArePlain(s: string)
    ensures Plain(SplitOn(Slashed(s), '/'))
  {
    SplitKeepsOut(Slashed(s), '/', '\\');
  }

  lemma {:induction false} SplitKeepsOut(s: string, c: char, d: char)
    requires d !in s
    ensures forall i | 0 <= i < |SplitOn(s, c)| :: d !in SplitOn(s, c)[i]
  {
    if s != [] {
      SplitKeepsOut(s[1..], c, d);
    }
  }

  lemma ParseIsNormal(s: string)
    ensures Normal(Parse(s))
  {
    PiecesOfSlashedArePlain(s);
    WalkIsNormal([], SplitOn(Slashed(s), '/'), Absolute(s));
  }

  lemma {:induction false} JoinKeepsOut(parts: seq<string>, sep: char, d: char)
    requires d != sep && forall i | 0 <= i < |parts| :: d !in parts[i]
    ensures d !in Join(parts, [sep])
  {
    if |parts| > 1 {
      JoinKeepsOut(parts[1..], sep, d);
    }
  }

  lemma SlashedId(s: string)
    requires '\\' !in s
    ensures Slashed(s) == s
  {
  }

  lemma JoinOfNormal(parts: seq<string>)
    requires forall i | 0 <= i < |parts| :: Component(parts[i])
    ensures Slashed(Join(parts, "/")) == Join(parts, "/")
    ensures parts != [] ==>
              Join(parts, "/") != "" && SplitOn(Join(parts, "/"), '/') == parts && Join(parts, "/")[0] != '/'
  {
    JoinKeepsOut(parts, '/', '\\');
    SlashedId(Join(parts, "/"));
    if parts != [] {
      SplitJoin(parts, '/');
      assert Join(parts, "/")[0] == parts[0][0];
    }
  }

  lemma SplitRendered(p: Path)
    requires Normal(p)
    ensures Slashed(Render(p)) == Render(p)
    ensures SplitOn(Render(p), '/') ==
            (if p.absolute then [""] else []) +
            (if p.parts != [] then p.parts else if p.absolute then [""] else ["."])
  {
    var s := Render(p);
    var joined := Join(p.parts, "/");
    JoinOfNormal(p.parts);
    SlashedId(joined);
    if p.absolute {
      assert s == "/" + joined && s[1..] == joined;
      SlashedId(s);
      assert p.parts == [] ==> SplitOn(joined, '/') == [""];
    } else if p.parts == [] {
      SlashedId(".");
      SplitJoin(["."], '/');
    } else {
      assert s == joined;
    }
  }

  /** A normal path is what its rendering stands for. */
  lemma ParseRender(p: Path)
    requires Normal(p)
    ensures Parse(Render(p)) == p
  {
    var s := Render(p);
    SplitRendered(p);
    JoinOfNormal(p.parts);
    assert Absolute(s) == p.absolute;
    if p.parts != [] {
      SkipFirst("", p.parts, p.absolute);
      assert [] + p.parts == p.parts;
      WalkKeepsNormal([], p.parts, p.absolute);
    } else {
      SkipFirst("", [""], p.absolute);
      SkipFirst("", [], p.absolute);
      SkipFirst(".", [], p.absolute);
      assert [""] + [] == [""] && ["."] + [] == ["."] && [] + ["."] == ["."];
    }
  }

  predicate AllComponents(parts: seq<string>) {
    parts == [] || (Component(parts[0]) && AllComponents(parts[1..]))
  }

  predicate NoDots(parts: seq<string>) {
    parts == [] || (parts[0] != ".." && NoDots(parts[1..]))
  }

  predicate DotsInFront(parts: seq<string>) {
    parts == [] || (if parts[0] == ".." then DotsInFront(parts[1..]) else NoDots(parts))
  }

  /** `Normal`, told from the front of the list. */
  predicate Canonical(p: Path) {
    AllComponents(p.parts) && if p.absolute then NoDots(p.parts) else DotsInFront(p.parts)
  }

  lemma {:induction false} AllComponentsAt(parts: seq<string>)
    ensures AllComponents(parts) <==> forall i | 0 <= i < |parts| :: Component(parts[i])
  {
    if parts != [] {
      AllComponentsAt(parts[1..]);
      assert parts == [parts[0]] + parts[1..];
    }
  }

  lemma {:induction false} NoDotsAt(parts: seq<string>)
    ensures NoDots(parts) <==> ".." !in parts
  {
    if parts != [] {
      NoDotsAt(parts[1..]);
      assert parts == [parts[0]] + parts[1..];
    }
  }

  ghost predicate DotsFirst(parts: seq<string>) {
    forall i, j | 0 <= j < i < |parts| && parts[i] == ".." :: parts[j] == ".."
  }

  lemma {:induction false} DotsInFrontAt(parts: seq<string>)
    ensures DotsInFront(parts) <==> DotsFirst(parts)
  {
    if parts != [] {
      var rest := parts[1..];
      DotsInFrontAt(rest);
      NoDotsAt(rest);
      assert forall i | 0 < i < |parts| :: parts[i] == rest[i - 1];
      if parts[0] == ".." {
        assert DotsFirst(parts) <==> DotsFirst(rest) by {
          if DotsFirst(parts) {
            forall i, j | 0 <= j < i < |rest| && rest[i] == ".." ensures rest[j] == ".." {
              assert parts[i + 1] == ".." && parts[j + 1] == rest[j];
            }
          }
        }
      } else {
        assert DotsFirst(parts) <==> ".." !in rest by {
          if DotsFirst(parts) {
            forall i | 0 <= i < |rest| ensures rest[i] != ".." {
              assert parts[i + 1] == rest[i];
            }
          }
        }
      }
    }
  }

  lemma CanonicalIsNormal(p: Path)
    ensures Canonical(p) <==> Normal(p)
  {
    AllComponentsAt(p.parts);
    NoDotsAt(p.parts);
    DotsInFrontAt(p.parts);
  }

  lemma CanonicalParses(p: Path)
    requires Canonical(p)
    ensures Parse(Render(p)) == p
  {
    CanonicalIsNormal(p);
    ParseRender(p);
  }

  lemma SkipFirst(part: string, parts: seq<string>, absolute: bool)
    requires part == "" || part == "."
    ensures Walk([], [part] + parts, absolute) == Walk([], parts, absolute)
  {
    assert ([part] + parts)[1..] == parts;
  }

  lemma NormalizeIsIdempotent(s: string)
    ensures Normalize(Normalize(s)) == Normalize(s)
  {
    ParseIsNormal(s);
    ParseRender(Parse(s));
  }

  /** A normalised absolute path is the root, or a slash before components none of which is empty,
      `.` or `..`. */
  lemma NormalizedAbsolute(s: string)
    requires Absolute(s)
    ensures Absolute(Normalize(s)) && Parse(Normalize(s)) == Parse(s)
    ensures
      var n := Normalize(s);
      || n == "/"
      || (n[0] == '/' && forall i | 0 <= i < |SplitOn(n[1..], '/')| ::
            var part := SplitOn(n[1..], '/')[i]; part != "" && part != "." && part != "..")
  {
    ParseIsNormal(s);
    ParseRender(Parse(s));
    var parts := Parse(s).parts;
    JoinOfNormal(parts);
    assert Normalize(s)[1..] == Join(parts, "/");
  }

  // ----- cleaning ------------------------------------------------------------------------

  function WithoutFinalSlash(s: string): string {
    if s != "" && s[|s| - 1] == '/' then s[..|s| - 1] else s
  }

  function CleanPosixPath(value: string): string {
    if value == "" then value
    else
      var cleaned := WithoutFinalSlash(Normalize(Slashed(value)));
      if cleaned == "" then "/" else cleaned
  }

  lemma {:induction false} JoinEnd(parts: seq<string>, sep: string)
    requires parts != [] && parts[|parts| - 1] != ""
    ensures
      var last := parts[|parts| - 1];
      Join(parts, sep) != "" && Join(parts, sep)[|Join(parts, sep)| - 1] == last[|last| - 1]
  {
    if |parts| > 1 {
      JoinEnd(parts[1..], sep);
    }
  }

  /** Cleaning is normalising: a normalised path has no slash at its end to remove, but for the root. */
  lemma CleanIsNormalize(value: string)
    requires value != ""
    ensures CleanPosixPath(value) == Normalize(value)
  {
    SlashedId(Slashed(value));
    assert Parse(Slashed(value)) == Parse(value);
    ParseIsNormal(value);
    var p := Parse(value);
    if p.parts != [] {
      JoinEnd(p.parts, "/");
      var last := p.parts[|p.parts| - 1];
      assert last[|last| - 1] != '/';
    }
  }

  // ----- joining -------------------------------------------------------------------------

  function NonEmpty(parts: seq<string>): seq<string> {
    if parts == [] then []
    else (if parts[0] == "" then [] else [parts[0]]) + NonEmpty(parts[1..])
  }

  function PosixJoin(parts: seq<string>): string {
    Normalize(Join(NonEmpty(parts), "/"))
  }

  lemma {:induction false} SplitConcat(x: string, y: string, c: char)
    ensures SplitOn(x + [c] + y, c) == SplitOn(x, c) + SplitOn(y, c)
  {
    if x == [] {
      assert x + [c] + y == [c] + y;
      assert ([c] + y)[1..] == y;
    } else {
      assert (x + [c] + y)[1..] == x[1..] + [c] + y;
      SplitConcat(x[1..], y, c);
    }
  }

  /** Joining walks the second path from the first. */
  lemma ParseOfJoin(a: string, b: string)
    requires a != ""
    ensures Parse(a + "/" + b) ==
            Path(Absolute(a), Walk(Parse(a).parts, SplitOn(Slashed(b), '/'), Absolute(a)))
  {
    assert Slashed(a + "/" + b) == Slashed(a) + "/" + Slashed(b);
    SplitConcat(Slashed(a), Slashed(b), '/');
    WalkAppend([], SplitOn(Slashed(a), '/'), SplitOn(Slashed(b), '/'), Absolute(a));
  }

  lemma JoinOfTwo(a: string, b: string)
    requires a != ""
    ensures PosixJoin([a, b]) == Normalize(if b == "" then a else a + "/" + b)
  {
    assert [a, b][1..] == [b] && [b][1..] == [];
    assert NonEmpty([b]) == if b == "" then [] else [b];
    if b != "" {
      assert NonEmpty([a, b]) == [a, b];
      assert Join([b], "/") == b;
    }
  }

  /** Joining components below a path appends them to it. */
  lemma JoinBelow(a: string, below: seq<string>)
    requires a != "" && (forall i | 0 <= i < |below| :: Component(below[i]) && below[i] != "..")
    ensures PosixJoin([a, Join(below, "/")]) == Render(Path(Absolute(a), Parse(a).parts + below))
    ensures Normal(Path(Absolute(a), Parse(a).parts + below))
  {
    ParseIsNormal(a);
    NormalBelow(Parse(a), below);
    JoinOfTwo(a, Join(below, "/"));
    JoinOfNormal(below);
    if below == [] {
      assert Parse(a).parts + below == Parse(a).parts;
    } else {
      ParseOfJoin(a, Join(below, "/"));
      WalkKeepsNormal(Parse(a).parts, below, Absolute(a));
    }
  }

  lemma NormalBelow(p: Path, below: seq<string>)
    requires Normal(p) && (forall i | 0 <= i < |below| :: Component(below[i]) && below[i] != "..")
    ensures Normal(p.(parts := p.parts + below))
  {
    var all := p.parts + below;
    forall i | 0 <= i < |all| && all[i] == ".." ensures !p.absolute && forall j | 0 <= j < i :: all[j] == ".." {
      assert i < |p.parts| && p.parts[i] == "..";
    }
  }

  // ----- relating ------------------------------------------------------------------------

  /** `cleanPosixPath(s).split("/").filter(Boolean)` */
  function Components(s: string): seq<string> {
    NonEmpty(SplitOn(CleanPosixPath(s), '/'))
  }

  function Common(a: seq<string>, b: seq<string>): (n: nat)
    ensures n <= |a| && n <= |b|
  {
    if a != [] && b != [] && a[0] == b[0] then 1 + Common(a[1..], b[1..]) else 0
  }

  function Up(n: nat): seq<string> {
    seq(n, _ => "..")
  }

  function Steps(a: seq<string>, b: seq<string>): seq<string> {
    Up(|a| - Common(a, b)) + b[Common(a, b)..]
  }

  function Relative(from: string, to: string): string {
    Join(Steps(Components(from), Components(to)), "/")
  }

  lemma {:induction false} CommonIsPrefix(a: seq<string>, b: seq<string>)
    ensures a[..Common(a, b)] == b[..Common(a, b)]
  {
    if a != [] && b != [] && a[0] == b[0] {
      CommonIsPrefix(a[1..], b[1..]);
      var n := Common(a[1..], b[1..]);
      assert a[..n + 1] == [a[0]] + a[1..][..n];
      assert b[..n + 1] == [b[0]] + b[1..][..n];
    }
  }

  lemma CommonStep(a: seq<string>, b: seq<string>, i: nat)
    requires i <= |a| && i <= |b|
    ensures Common(a[i..], b[i..]) ==
            if i < |a| && i < |b| && a[i] == b[i] then 1 + Common(a[i + 1..], b[i + 1..]) else 0
  {
    if i < |a| && i < |b| {
      assert a[i..][1..] == a[i + 1..] && b[i..][1..] == b[i + 1..];
    }
  }

  lemma CommonFromStart(a: seq<string>, b: seq<string>)
    ensures Common(a[0..], b[0..]) == Common(a, b)
  {
    assert a[0..] == a && b[0..] == b;
  }

  method PosixRelative(from: string, to: string) returns (r: string)
    ensures r == Relative(from, to)
  {
    var fromParts, toParts := Components(from), Components(to);
    var index := CommonLength(fromParts, toParts);
    r := Join(Up(|fromParts| - index) + toParts[index..], "/");
  }

  /** The loop of `posixRelative`. */
  method CommonLength(fromParts: seq<string>, toParts: seq<string>) returns (index: nat)
    ensures index == Common(fromParts, toParts)
  {
    index := 0;
    CommonFromStart(fromParts, toParts);
    while index < |fromParts| && index < |toParts| && fromParts[index] == toParts[index]
      invariant index <= |fromParts| && index <= |toParts|
      invariant index + Common(fromParts[index..], toParts[index..]) == Common(fromParts, toParts)
    {
      CommonStep(fromParts, toParts, index);
      index := index + 1;
    }
    CommonStep(fromParts, toParts, index);
  }

  lemma {:induction false} NonEmptyId(parts: seq<string>)
    requires forall i | 0 <= i < |parts| :: parts[i] != ""
    ensures NonEmpty(parts) == parts
  {
    if parts != [] {
      NonEmptyId(parts[1..]);
    }
  }

  /** The components of any path: those it stands for, but for the current directory, which is one
      dot, and the empty string, which has none. */
  lemma ComponentsOf(s: string)
    ensures
      var p := Parse(s);
      Components(s) == if s == "" then [] else if p.absolute || p.parts != [] then p.parts else ["."]
  {
    if s == "" {
      assert SplitOn("", '/') == [""] && [""][1..] == [] && NonEmpty([""]) == [];
    } else if Absolute(s) {
      ComponentsOfAbsolute(s);
    } else {
      CleanIsNormalize(s);
      ParseIsNormal(s);
      SplitRendered(Parse(s));
      var shown := if Parse(s).parts != [] then Parse(s).parts else ["."];
      assert [] + shown == shown;
      NonEmptyId(shown);
    }
  }

  lemma ComponentsOfAbsolute(s: string)
    requires Absolute(s)
    ensures Components(s) == Parse(s).parts
  {
    CleanIsNormalize(s);
    ParseIsNormal(s);
    var parts := Parse(s).parts;
    var n := Normalize(s);
    var joined := Join(parts, "/");
    JoinOfNormal(parts);
    assert n == "/" + joined && n[1..] == joined;
    assert SplitOn(n, '/') == [""] + SplitOn(joined, '/');
    assert SplitOn(n, '/')[1..] == SplitOn(joined, '/');
    if parts == [] {
      assert SplitOn(joined, '/') == [""];
      assert [""][1..] == [];
      assert NonEmpty([""]) == [];
    } else {
      NonEmptyId(parts);
    }
  }

  lemma {:induction false} WalkUp(parts: seq<string>, n: nat, absolute: bool)
    requires n <= |parts| && ".." !in parts
    ensures Walk(parts, Up(n), absolute) == parts[..|parts| - n]
    decreases n
  {
    if n == 0 {
      assert parts[..|parts|] == parts;
    } else {
      assert Up(n)[1..] == Up(n - 1);
      var parent := parts[..|parts| - 1];
      WalkUp(parent, n - 1, absolute);
      assert parent[..|parent| - (n - 1)] == parts[..|parts| - n];
    }
  }

  lemma WalkUpToCommon(a: seq<string>, b: seq<string>)
    requires Canonical(Path(true, a))
    ensures Walk(a, Up(|a| - Common(a, b)), true) == b[..Common(a, b)]
  {
    var n := Common(a, b);
    NoDotsAt(a);
    WalkUp(a, |a| - n, true);
    CommonIsPrefix(a, b);
  }

  /** Going up from `a` to what it shares with `b` and down again ends in `b`. */
  lemma WalkSteps(a: seq<string>, b: seq<string>)
    requires Canonical(Path(true, a)) && Canonical(Path(true, b))
    ensures Walk(a, Steps(a, b), true) == b
  {
    var n := Common(a, b);
    WalkAppend(a, Up(|a| - n), b[n..], true);
    WalkUpToCommon(a, b);
    CanonicalIsNormal(Path(true, b));
    WalkRest(b, n);
  }

  lemma WalkRest(parts: seq<string>, n: nat)
    requires Normal(Path(true, parts)) && n <= |parts|
    ensures Walk(parts[..n], parts[n..], true) == parts
  {
    Halves(parts, n);
    WalkKeepsNormal(parts[..n], parts[n..], true);
  }

  /** The relative path leads back: for all absolute paths, clean or not. */
  lemma JoinRelative(a: string, b: string)
    requires Absolute(a) && Absolute(b)
    ensures PosixJoin([a, Relative(a, b)]) == CleanPosixPath(b)
  {
    ComponentsOfAbsolute(a);
    ComponentsOfAbsolute(b);
    ParseIsNormal(a);
    ParseIsNormal(b);
    CleanIsNormalize(b);
    CanonicalIsNormal(Parse(a));
    CanonicalIsNormal(Parse(b));
    var from, to := Parse(a).parts, Parse(b).parts;
    StepsAreComponents(from, to);
    WalkSteps(from, to);
    JoinOfComponents(a, Steps(from, to));
  }

  lemma StepsAreComponents(a: seq<string>, b: seq<string>)
    requires forall i | 0 <= i < |b| :: Component(b[i])
    ensures forall i | 0 <= i < |Steps(a, b)| :: Component(Steps(a, b)[i])
  {
  }

  lemma JoinOfComponents(a: string, steps: seq<string>)
    requires a != "" && forall i | 0 <= i < |steps| :: Component(steps[i])
    ensures PosixJoin([a, Join(steps, "/")]) ==
            Render(Path(Absolute(a), Walk(Parse(a).parts, steps, Absolute(a))))
  {
    JoinOfTwo(a, Join(steps, "/"));
    JoinOfNormal(steps);
    if steps != [] {
      ParseOfJoin(a, Join(steps, "/"));
    }
  }
}
