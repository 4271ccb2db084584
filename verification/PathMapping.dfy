/** Paths of the host, of the container and of the workspace, and the maps between them. */
module PathMapping {
  import opened JsText
  import opened PathAlgebra

  /** The configured volumes; defaults for the two roots are filled in. */
  datatype VolumeMap = VolumeMap(hostRoot: string, containerRoot: string, containerWorkspace: Option<string>)

  datatype Error = OutsideVolumes | OutsideWorkspace | WorkspaceRoot | InvalidName

  datatype Result = Ok(value: string) | Err(error: Error)

  function ServerContainerRoot(volumes: VolumeMap): string {
    CleanPosixPath(volumes.containerRoot)
  }

  function ServerContainerWorkspace(volumes: VolumeMap): string {
    CleanPosixPath(if volumes.containerWorkspace.Some? then volumes.containerWorkspace.value
                   else PosixJoin([volumes.containerRoot, "workspace"]))
  }

  function CleanHostPath(value: string): string {
    CleanPosixPath(Slashed(value))
  }

  function ServerHostWorkspace(volumes: VolumeMap): string {
    CleanPosixPath(PosixJoin([CleanHostPath(volumes.hostRoot), "workspace"]))
  }

  predicate IsLetter(c: char) {
    'A' <= c <= 'Z' || 'a' <= c <= 'z'
  }

  function LowerChar(c: char): char {
    if 'A' <= c <= 'Z' then c - 'A' + 'a' else c
  }

  function Lower(s: string): string {
    seq(|s|, i requires 0 <= i < |s| => LowerChar(s[i]))
  }

  predicate IsWindowsDrivePath(s: string) {
    |s| >= 3 && IsLetter(s[0]) && s[1] == ':' && s[2] == '/'
  }

  function WindowsDriveToWsl(value: string): string {
    var n := Slashed(value);
    if |n| >= 2 && IsLetter(n[0]) && n[1] == ':' && (forall i | 2 <= i < |n| :: n[i] !in "\n\r\U{2028}\U{2029}") then
      PosixJoin(["/mnt", [LowerChar(n[0])], if |n| > 2 && n[2] == '/' then n[3..] else n[2..]])
    else n
  }

  predicate StartsWith(s: string, t: string) {
    t <= s
  }

  function RelativeIfInside(value: string, root: string, caseInsensitive: bool): Option<string> {
    if root == "" then None
    else
      var normalizedRoot := CleanPosixPath(root);
      var normalizedValue := CleanPosixPath(value);
      var comparableRoot := if caseInsensitive then Lower(normalizedRoot) else normalizedRoot;
      var comparableValue := if caseInsensitive then Lower(normalizedValue) else normalizedValue;
      if comparableValue == comparableRoot then Some("")
      else if StartsWith(comparableValue, comparableRoot + "/") then Some(normalizedValue[|normalizedRoot| + 1..])
      else None
  }

  function ToServerContainerPath(value: string, volumes: VolumeMap): Result {
    if Blank(value) then Ok(value)
    else
      var input := Slashed(Trim(value));
      var containerRoot := ServerContainerRoot(volumes);
      var hostRoot := CleanHostPath(volumes.hostRoot);
      var inContainer := RelativeIfInside(input, containerRoot, false);
      var onHost := RelativeIfInside(input, hostRoot, true);
      var onWsl := RelativeIfInside(input, WindowsDriveToWsl(hostRoot), false);
      if inContainer.Some? then Ok(PosixJoin([containerRoot, inContainer.value]))
      else if onHost.Some? then Ok(PosixJoin([containerRoot, onHost.value]))
      else if onWsl.Some? then Ok(PosixJoin([containerRoot, onWsl.value]))
      else if IsWindowsDrivePath(input) then Err(OutsideVolumes)
      else Ok(CleanPosixPath(input))
  }

  function ToServerProjectPath(value: string, volumes: VolumeMap): Result {
    var mapped := ToServerContainerPath(value, volumes);
    if mapped.Ok? && !Absolute(mapped.value) then Ok(PosixJoin([ServerContainerWorkspace(volumes), mapped.value]))
    else mapped
  }

  function ToServerWorkspacePath(value: string, volumes: VolumeMap): Result {
    var mapped := ToServerProjectPath(if value == "" then "." else value, volumes);
    if mapped.Err? then mapped
    else
      var relative := Relative(ServerContainerWorkspace(volumes), mapped.value);
      if StartsWith(relative, "..") || Absolute(relative) then Err(OutsideWorkspace) else mapped
  }

  function ToServerWorkspaceDescendantPath(value: string, volumes: VolumeMap): Result {
    var path := ToServerWorkspacePath(value, volumes);
    if path == Ok(ServerContainerWorkspace(volumes)) then Err(WorkspaceRoot) else path
  }

  function ToHostWorkspacePath(value: string, volumes: VolumeMap): Result {
    var path := ToServerWorkspacePath(value, volumes);
    if path.Err? then path
    else
      var relative := Relative(ServerContainerWorkspace(volumes), path.value);
      Ok(CleanPosixPath(PosixJoin([ServerHostWorkspace(volumes), relative])))
  }

  // ----- project names -------------------------------------------------------------------

  predicate ValidName(name: string) {
    && name != "" && name != "." && name != ".." && '/' !in name && '\\' !in name
    && forall i | 0 <= i < |name| :: name[i] > '\U{001F}' && name[i] != '\U{007F}'
  }

  function NormalizeWorkspaceProjectName(value: string): Result {
    var name := Trim(value);
    if ValidName(name) then Ok(name) else Err(InvalidName)
  }

  function ServerWorkspaceProjectPath(projectName: string, volumes: VolumeMap): Result {
    var name := NormalizeWorkspaceProjectName(projectName);
    if name.Err? then name else Ok(PosixJoin([ServerContainerWorkspace(volumes), name.value]))
  }

  function FirstName(relative: string): Result {
    var names := NonEmpty(SplitOn(relative, '/'));
    if names == [] then Err(WorkspaceRoot) else NormalizeWorkspaceProjectName(names[0])
  }

  function WorkspaceProjectNameFromPath(value: string, volumes: VolumeMap): Result {
    var path := ToServerWorkspaceDescendantPath(value, volumes);
    if path.Err? then path else FirstName(Relative(ServerContainerWorkspace(volumes), path.value))
  }

  // ----- containment ---------------------------------------------------------------------

  function Under(root: Path, below: seq<string>): Path {
    root.(parts := root.parts + below)
  }

  /** `path` is `root` or lies below it, component by component. */
  predicate Within(path: Path, root: Path) {
    path.absolute == root.absolute && root.parts <= path.parts
  }

  /** The first component below `root`, if any, begins with two dots. */
  predicate DottedBelow(path: Path, root: Path)
    requires Within(path, root)
  {
    |path.parts| > |root.parts| && StartsWith(path.parts[|root.parts|], "..")
  }

  lemma JoinStart(parts: seq<string>)
    requires forall i | 0 <= i < |parts| :: parts[i] != "" && parts[i][0] != '/' && parts[i][0] != '\\'
    ensures StartsWith(Join(parts, "/"), "..") <==> parts != [] && StartsWith(parts[0], "..")
    ensures !Absolute(Join(parts, "/"))
  {
    if parts != [] {
      var s, first := Join(parts, "/"), parts[0];
      assert first <= s;
      assert first[0] == s[0];
      assert |first| == 1 ==> first == [first[0]];
      if |first| >= 2 {
        assert first[1] == s[1];
      } else if |parts| > 1 {
        assert s[1] == '/';
      }
    }
  }

  lemma {:induction false} CommonOfPrefix(a: seq<string>, b: seq<string>)
    ensures Common(a, b) == |a| <==> a <= b
  {
    if a != [] && b != [] && a[0] == b[0] {
      CommonOfPrefix(a[1..], b[1..]);
      assert a <= b <==> a[1..] <= b[1..] by {
        assert a == [a[0]] + a[1..] && b == [b[0]] + b[1..];
        if a[1..] <= b[1..] { assert b[..|a|] == [b[0]] + b[1..][..|a| - 1]; }
        if a <= b { assert b[1..][..|a| - 1] == a[1..]; }
      }
    }
  }

  /** The components of `b` are those of `a` and perhaps more, the first of them no name that begins
      with two dots. */
  predicate Inside(a: seq<string>, b: seq<string>) {
    a <= b && !(|b| > |a| && StartsWith(b[|a|], ".."))
  }

  lemma ComponentStarts(s: string)
    ensures forall i | 0 <= i < |Components(s)| :: var c := Components(s)[i]; c != "" && c[0] != '/' && c[0] != '\\'
  {
    ComponentsOf(s);
    ParseIsNormal(s);
  }

  lemma StepsStart(a: seq<string>, b: seq<string>)
    requires forall i | 0 <= i < |b| :: b[i] != "" && b[i][0] != '/' && b[i][0] != '\\'
    ensures
      var relative := Join(Steps(a, b), "/");
      !(StartsWith(relative, "..") || Absolute(relative)) <==> Inside(a, b)
  {
    var steps := Steps(a, b);
    CommonOfPrefix(a, b);
    JoinStart(steps);
    if Common(a, b) < |a| {
      assert steps[0] == "..";
    } else {
      assert steps == b[|a|..];
    }
  }

  /** The test on the relative path, for any two paths. */
  lemma RelativeTest(root: string, path: string)
    ensures
      var relative := Relative(root, path);
      !(StartsWith(relative, "..") || Absolute(relative)) <==> Inside(Components(root), Components(path))
  {
    ComponentStarts(path);
    StepsStart(Components(root), Components(path));
  }

  /** Inside means within, if both paths are absolute or neither is. */
  lemma InsideIsWithin(path: string, root: string)
    requires Inside(Components(root), Components(path)) && Absolute(path) == Absolute(root)
    ensures Within(Parse(path), Parse(root))
  {
    ComponentsOf(root);
    ComponentsOf(path);
    ParseIsNormal(path);
    ParseIsNormal(root);
    var a, b := Components(root), Components(path);
    assert forall i | 0 <= i < |a| :: a[i] == b[i];
    assert Parse(root).parts != [] ==> Component(Parse(root).parts[0]);
  }

  lemma AbsoluteInside(path: string, root: string)
    requires Absolute(path) && Absolute(root)
    ensures Inside(Components(root), Components(path)) <==>
            Within(Parse(path), Parse(root)) && !DottedBelow(Parse(path), Parse(root))
  {
    ComponentsOfAbsolute(root);
    ComponentsOfAbsolute(path);
  }

  lemma ProjectPathIsAbsolute(value: string, volumes: VolumeMap)
    requires Absolute(ServerContainerWorkspace(volumes)) && ToServerProjectPath(value, volumes).Ok?
    ensures Absolute(ToServerProjectPath(value, volumes).value)
  {
    var mapped := ToServerContainerPath(value, volumes);
    if !Absolute(mapped.value) {
      var ws := ServerContainerWorkspace(volumes);
      JoinOfTwo(ws, mapped.value);
      var joined := if mapped.value == "" then ws else ws + "/" + mapped.value;
      assert Slashed(joined)[0] == Slashed(ws)[0];
      NormalizedAbsolute(joined);
    }
  }

  /** Accepted is exactly what maps to a path with the components of the workspace and perhaps more,
      the first of which does not begin with two dots. Such a path lies within the workspace if and
      only if it is absolute just when the workspace is; with an absolute workspace every accepted
      path is, and nothing outside the workspace is ever returned. */
  lemma AcceptedIsWithinWorkspace(value: string, volumes: VolumeMap)
    ensures
      var mapped := ToServerProjectPath(if value == "" then "." else value, volumes);
      var accepted := ToServerWorkspacePath(value, volumes);
      var workspace := ServerContainerWorkspace(volumes);
      && (mapped.Err? ==> accepted == mapped)
      && (mapped.Ok? ==>
            accepted ==
            if Inside(Components(workspace), Components(mapped.value)) then mapped else Err(OutsideWorkspace))
      && (accepted.Ok? ==>
            (Within(Parse(accepted.value), Parse(workspace)) <==> Absolute(accepted.value) == Absolute(workspace)))
      && (accepted.Ok? && Absolute(workspace) ==>
            Within(Parse(accepted.value), Parse(workspace)) && !DottedBelow(Parse(accepted.value), Parse(workspace)))
  {
    var workspace := ServerContainerWorkspace(volumes);
    var mapped := ToServerProjectPath(if value == "" then "." else value, volumes);
    if mapped.Ok? {
      RelativeTest(workspace, mapped.value);
      if Inside(Components(workspace), Components(mapped.value)) {
        if Absolute(mapped.value) == Absolute(workspace) {
          InsideIsWithin(mapped.value, workspace);
        }
        if Absolute(workspace) {
          ProjectPathIsAbsolute(if value == "" then "." else value, volumes);
          AbsoluteInside(mapped.value, workspace);
        }
      }
    }
  }

  /** With an absolute workspace: accepted is exactly what maps to the workspace or below it, by a
      first name that does not begin with two dots. */
  lemma AcceptedByAbsoluteWorkspace(value: string, volumes: VolumeMap)
    requires Absolute(ServerContainerWorkspace(volumes)) && value != "" && ToServerProjectPath(value, volumes).Ok?
    ensures
      var mapped := ToServerProjectPath(value, volumes);
      var workspace := Parse(ServerContainerWorkspace(volumes));
      ToServerWorkspacePath(value, volumes) ==
      if Within(Parse(mapped.value), workspace) && !DottedBelow(Parse(mapped.value), workspace) then mapped
      else Err(OutsideWorkspace)
  {
    var mapped := ToServerProjectPath(value, volumes);
    ProjectPathIsAbsolute(value, volumes);
    RelativeTest(ServerContainerWorkspace(volumes), mapped.value);
    AbsoluteInside(mapped.value, ServerContainerWorkspace(volumes));
  }

  lemma ComponentsOutside(ws: string, below: seq<string>)
    requires !Absolute(ws) && Parse(ws).parts != [] && ".." !in Parse(ws).parts && Below(below)
    ensures
      var outside := Path(true, Parse(ws).parts + below);
      Components(Render(outside)) == Components(ws) + below && Parse(Render(outside)) == outside
  {
    var outside := Path(true, Parse(ws).parts + below);
    ParseIsNormal(ws);
    BelowAt(below);
    assert Normal(outside);
    ParseRender(outside);
    ComponentsOf(ws);
    ComponentsOf(Render(outside));
  }

  /** A relative workspace accepts the absolute path that has its components, and every path below. */
  lemma RelativeWorkspaceAcceptsOutside(value: string, volumes: VolumeMap, below: seq<string>)
    requires value != "" && !Absolute(ServerContainerWorkspace(volumes))
    requires
      var workspace := Parse(ServerContainerWorkspace(volumes));
      && workspace.parts != [] && ".." !in workspace.parts
      && Below(below) && (below == [] || !StartsWith(below[0], ".."))
      && ToServerProjectPath(value, volumes) == Ok(Render(Path(true, workspace.parts + below)))
    ensures
      var accepted := ToServerWorkspacePath(value, volumes);
      accepted.Ok? && !Within(Parse(accepted.value), Parse(ServerContainerWorkspace(volumes)))
  {
    var ws := ServerContainerWorkspace(volumes);
    var mapped := ToServerProjectPath(value, volumes).value;
    ComponentsOutside(ws, below);
    assert Inside(Components(ws), Components(ws) + below);
    RelativeTest(ws, mapped);
  }

  // ----- paths that are already where they belong ----------------------------------------

  lemma CleanOfCanonical(p: Path)
    requires Canonical(p)
    ensures Render(p) != "" && CleanPosixPath(Render(p)) == Render(p) && Slashed(Render(p)) == Render(p)
    ensures Absolute(Render(p)) == p.absolute
  {
    CanonicalIsNormal(p);
    CanonicalParses(p);
    CleanIsNormalize(Render(p));
    SplitRendered(p);
  }

  lemma {:induction false} JoinConcat(a: seq<string>, b: seq<string>)
    requires a != [] && b != []
    ensures Join(a + b, "/") == Join(a, "/") + "/" + Join(b, "/")
  {
    if |a| == 1 {
      assert a + b == [a[0]] + b && ([a[0]] + b)[1..] == b;
    } else {
      assert (a + b)[1..] == a[1..] + b;
      JoinConcat(a[1..], b);
      var rest, end := Join(a[1..], "/"), Join(b, "/");
      assert a[0] + "/" + (rest + "/" + end) == a[0] + "/" + rest + "/" + end;
    }
  }

  /** Components of a path below some directory. */
  predicate Below(below: seq<string>) {
    AllComponents(below) && NoDots(below)
  }

  lemma BelowAt(below: seq<string>)
    ensures Below(below) <==> forall i | 0 <= i < |below| :: Component(below[i]) && below[i] != ".."
  {
    AllComponentsAt(below);
    NoDotsAt(below);
  }

  lemma CanonicalBelow(root: Path, below: seq<string>)
    requires Canonical(root) && Below(below)
    ensures Canonical(Under(root, below))
  {
    BelowAt(below);
    CanonicalIsNormal(root);
    NormalBelow(root, below);
    CanonicalIsNormal(Under(root, below));
  }

  lemma RenderBelow(root: Path, below: seq<string>)
    requires root.parts != [] && below != [] && Join(root.parts, "/") != ""
    ensures Render(Under(root, below)) == Render(root) + "/" + Join(below, "/")
  {
    JoinConcat(root.parts, below);
    assert Render(Under(root, below)) == (if root.absolute then "/" else "") + Join(root.parts + below, "/");
  }

  function Shown(p: Path): seq<string> {
    (if p.absolute then [""] else []) + (if p.parts != [] then p.parts else if p.absolute then [""] else ["."])
  }

  lemma ShownPrefix(p: Path, root: Path, rest: seq<string>)
    requires Shown(p) == Shown(root) + rest && root.parts != [] && rest != []
    requires root.parts[0] != "" && (p.parts != [] ==> p.parts[0] != "")
    ensures Within(p, root)
  {
    assert Shown(p)[0] == Shown(root)[0];
    assert p.absolute == root.absolute;
    var n := if root.absolute then 1 else 0;
    assert Shown(p)[n..] == root.parts + rest;
    assert |root.parts + rest| >= 2;
    assert Shown(p)[n..] == p.parts;
  }

  /** The prefix test on strings is the prefix test on components. */
  lemma PrefixOfRendered(p: Path, root: Path)
    requires Canonical(p) && Canonical(root) && root.parts != []
    requires StartsWith(Render(p), Render(root) + "/")
    ensures Within(p, root)
  {
    CanonicalIsNormal(p);
    CanonicalIsNormal(root);
    SplitRendered(p);
    SplitRendered(root);
    var rest := Render(p)[|Render(root)| + 1..];
    assert Render(p) == Render(root) + "/" + rest;
    SplitConcat(Render(root), rest, '/');
    ShownPrefix(p, root, SplitOn(rest, '/'));
  }

  lemma PrefixTestHolds(value: string, root: string, rest: string, caseInsensitive: bool)
    requires root != "" && CleanPosixPath(root) == root && CleanPosixPath(value) == value
    requires value == root + "/" + rest
    ensures RelativeIfInside(value, root, caseInsensitive) == Some(rest)
  {
    assert value[|root| + 1..] == rest;
    assert value[..|root| + 1] == root + "/";
    assert Lower(value)[..|root| + 1] == Lower(root) + "/";
  }

  lemma InsideRendered(root: Path, below: seq<string>, caseInsensitive: bool)
    requires root.parts != [] && Canonical(root) && Canonical(Under(root, below))
    ensures RelativeIfInside(Render(Under(root, below)), Render(root), caseInsensitive) == Some(Join(below, "/"))
  {
    CleanOfCanonical(root);
    CleanOfCanonical(Under(root, below));
    if below == [] {
      assert root.parts + below == root.parts;
    } else {
      JoinedIsNotEmpty(root);
      RenderBelow(root, below);
      PrefixTestHolds(Render(Under(root, below)), Render(root), Join(below, "/"), caseInsensitive);
    }
  }

  lemma JoinedIsNotEmpty(p: Path)
    requires Canonical(p) && p.parts != []
    ensures Join(p.parts, "/") != ""
  {
    CanonicalIsNormal(p);
    JoinOfNormal(p.parts);
  }

  lemma JoinRendered(root: Path, below: seq<string>)
    requires Canonical(root) && Below(below)
    ensures PosixJoin([Render(root), Join(below, "/")]) == Render(Under(root, below))
    ensures Canonical(Under(root, below))
  {
    CleanOfCanonical(root);
    CanonicalParses(root);
    CanonicalBelow(root, below);
    BelowAt(below);
    JoinBelow(Render(root), below);
  }

  /** No white space at either end. */
  predicate Trimmed(text: string) {
    text != "" ==> !IsSpace(text[0]) && !IsSpace(text[|text| - 1])
  }

  /** `text` is the rendering of `p`, and trimming leaves it as it is. */
  predicate Names(text: string, p: Path) {
    Canonical(p) && text == Render(p) && Trimmed(text)
  }

  lemma NamesIsNotBlank(text: string, p: Path)
    requires Names(text, p)
    ensures !Blank(text) && Slashed(Trim(text)) == text && text != ""
  {
    CleanOfCanonical(p);
    TrimId(text);
  }

  /** A path at or below the container root is mapped to itself. */
  lemma ContainerPathIsKept(text: string, root: Path, below: seq<string>, volumes: VolumeMap)
    requires Canonical(root) && root.parts != [] && ServerContainerRoot(volumes) == Render(root) && Below(below)
    requires Names(text, Under(root, below))
    ensures ToServerContainerPath(text, volumes) == Ok(text)
  {
    NamesIsNotBlank(text, Under(root, below));
    InsideRendered(root, below, false);
    JoinRendered(root, below);
  }

  // ----- name to path to name ------------------------------------------------------------

  lemma RenderTrims(p: Path)
    requires p.absolute && p.parts != []
    requires var last := p.parts[|p.parts| - 1]; last != "" && !IsSpace(last[|last| - 1])
    ensures Trimmed(Render(p))
  {
    JoinEnd(p.parts, "/");
  }

  lemma RelativeOfBelow(root: Path, below: seq<string>)
    requires Canonical(root) && root.absolute && Canonical(Under(root, below))
    ensures Relative(Render(root), Render(Under(root, below))) == Join(below, "/")
  {
    var p := Under(root, below);
    CleanOfCanonical(root);
    CleanOfCanonical(p);
    CanonicalParses(root);
    CanonicalParses(p);
    ComponentsOfAbsolute(Render(root));
    ComponentsOfAbsolute(Render(p));
    CommonOfPrefix(root.parts, p.parts);
    assert p.parts[|root.parts|..] == below;
    assert Steps(root.parts, p.parts) == below;
  }

  /** The workspace is the directory `inner` of the container root. */
  ghost predicate WorkspaceInside(root: Path, inner: seq<string>, volumes: VolumeMap) {
    && Canonical(root) && root.absolute && root.parts != [] && Below(inner)
    && ServerContainerRoot(volumes) == Render(root)
    && ServerContainerWorkspace(volumes) == Render(Under(root, inner))
  }

  lemma DefaultWorkspacePath(root: string)
    requires Absolute(root)
    ensures Below(["workspace"])
    ensures Canonical(Parse(root)) && CleanPosixPath(root) == Render(Parse(root))
    ensures CleanPosixPath(PosixJoin([root, "workspace"])) == Render(Under(Parse(root), ["workspace"]))
  {
    CleanIsNormalize(root);
    ParseIsNormal(root);
    CanonicalIsNormal(Parse(root));
    WorkspaceIsName();
    BelowAt(["workspace"]);
    JoinBelow(root, ["workspace"]);
    CanonicalBelow(Parse(root), ["workspace"]);
    CleanOfCanonical(Under(Parse(root), ["workspace"]));
  }

  lemma WorkspaceIsName()
    ensures Below(["workspace"]) && Join(["workspace"], "/") == "workspace"
  {
    BelowAt(["workspace"]);
  }

  /** With no workspace of its own configured, the workspace is inside any absolute container root
      but `/`. */
  lemma DefaultWorkspaceIsInside(root: string, volumes: VolumeMap)
    requires volumes.containerWorkspace.None? && volumes.containerRoot == root
    requires Absolute(root) && Parse(root).parts != []
    ensures WorkspaceInside(Parse(root), ["workspace"], volumes)
  {
    DefaultWorkspacePath(root);
  }

  lemma BelowTwice(root: Path, inner: seq<string>, below: seq<string>)
    requires Below(inner) && Below(below)
    ensures Below(inner + below) && Under(Under(root, inner), below) == Under(root, inner + below)
  {
    BelowAt(inner);
    BelowAt(below);
    BelowAt(inner + below);
    assert root.parts + inner + below == root.parts + (inner + below);
  }

  /** A path below the workspace that the mapping of volumes leaves alone is accepted as it is, unless
      its first name begins with two dots. */
  lemma KeptPathIsAccepted(text: string, workspace: Path, below: seq<string>, volumes: VolumeMap)
    requires Canonical(workspace) && workspace.absolute && ServerContainerWorkspace(volumes) == Render(workspace)
    requires Below(below) && Names(text, Under(workspace, below)) && ToServerContainerPath(text, volumes) == Ok(text)
    ensures ToServerWorkspacePath(text, volumes) ==
            if below != [] && StartsWith(below[0], "..") then Err(OutsideWorkspace) else Ok(text)
  {
    var p := Under(workspace, below);
    CleanOfCanonical(workspace);
    CanonicalParses(workspace);
    NamesIsNotBlank(text, p);
    CleanOfCanonical(p);
    CanonicalParses(p);
    assert p.parts[..|workspace.parts|] == workspace.parts;
    assert below != [] ==> p.parts[|workspace.parts|] == below[0];
    AcceptedByAbsoluteWorkspace(text, volumes);
  }

  /** What lies below the workspace is accepted as it is, unless its first name begins with two dots. */
  lemma WorkspacePathIsKept(text: string, root: Path, inner: seq<string>, below: seq<string>, volumes: VolumeMap)
    requires WorkspaceInside(root, inner, volumes) && Below(below)
    requires Names(text, Under(root, inner + below))
    ensures ToServerContainerPath(text, volumes) == Ok(text)
    ensures ToServerWorkspacePath(text, volumes) ==
            if below != [] && StartsWith(below[0], "..") then Err(OutsideWorkspace) else Ok(text)
  {
    BelowTwice(root, inner, below);
    CanonicalBelow(root, inner);
    ContainerPathIsKept(text, root, inner + below, volumes);
    KeptPathIsAccepted(text, Under(root, inner), below, volumes);
  }

  lemma NameIsComponent(name: string)
    requires ValidName(name)
    ensures Below([name]) && Join([name], "/") == name && NonEmpty(SplitOn(name, '/')) == [name]
  {
    BelowAt([name]);
    SplitJoin([name], '/');
    NonEmptyId([name]);
  }

  lemma NamedPathIsRendered(name: string, root: Path, inner: seq<string>)
    requires Canonical(root) && root.absolute && Below(inner)
    requires ValidName(name) && !IsSpace(name[|name| - 1])
    ensures
      var path := PosixJoin([Render(Under(root, inner)), name]);
      path == Render(Under(root, inner + [name])) && Names(path, Under(root, inner + [name]))
  {
    NameIsComponent(name);
    BelowTwice(root, inner, [name]);
    CanonicalBelow(root, inner);
    JoinRendered(Under(root, inner), [name]);
    RenderTrims(Under(root, inner + [name]));
  }

  lemma ProjectPathNames(value: string, root: Path, inner: seq<string>, volumes: VolumeMap)
    requires WorkspaceInside(root, inner, volumes) && NormalizeWorkspaceProjectName(value).Ok?
    ensures
      var name := NormalizeWorkspaceProjectName(value).value;
      var path := ServerWorkspaceProjectPath(value, volumes);
      path.Ok? && Names(path.value, Under(root, inner + [name]))
  {
    var name := NormalizeWorkspaceProjectName(value).value;
    assert ValidName(name) && !IsSpace(name[|name| - 1]);
    NamedPathIsRendered(name, root, inner);
  }

  /** A valid project name gives a path that gives the name back, exactly when the name does not begin
      with two dots; otherwise the path is refused as outside the workspace. */
  lemma NameRoundTrip(value: string, root: Path, inner: seq<string>, volumes: VolumeMap)
    requires WorkspaceInside(root, inner, volumes) && NormalizeWorkspaceProjectName(value).Ok?
    ensures
      var name := NormalizeWorkspaceProjectName(value).value;
      var path := ServerWorkspaceProjectPath(value, volumes);
      && path.Ok?
      && WorkspaceProjectNameFromPath(path.value, volumes) ==
         if StartsWith(name, "..") then Err(OutsideWorkspace) else Ok(name)
  {
    var name := NormalizeWorkspaceProjectName(value).value;
    ProjectPathNames(value, root, inner, volumes);
    NameOfProjectPath(ServerWorkspaceProjectPath(value, volumes).value, name, root, inner, volumes);
  }

  lemma NameOfProjectPath(path: string, name: string, root: Path, inner: seq<string>, volumes: VolumeMap)
    requires WorkspaceInside(root, inner, volumes) && ValidName(name) && Trimmed(name)
    requires Names(path, Under(root, inner + [name]))
    ensures WorkspaceProjectNameFromPath(path, volumes) ==
            if StartsWith(name, "..") then Err(OutsideWorkspace) else Ok(name)
  {
    NameIsComponent(name);
    WorkspacePathIsKept(path, root, inner, [name], volumes);
    RelativeOfNamed(path, name, root, inner);
    NameOfKept(path, ServerContainerWorkspace(volumes), volumes);
    FirstNameIs(name);
  }

  lemma NameOfKept(path: string, workspace: string, volumes: VolumeMap)
    requires workspace == ServerContainerWorkspace(volumes) && path != workspace
    ensures
      var kept := ToServerWorkspacePath(path, volumes);
      && (kept == Ok(path) ==> WorkspaceProjectNameFromPath(path, volumes) == FirstName(Relative(workspace, path)))
      && (kept.Err? ==> WorkspaceProjectNameFromPath(path, volumes) == kept)
  {
  }

  lemma RelativeOfNamed(path: string, name: string, root: Path, inner: seq<string>)
    requires Canonical(root) && root.absolute && Below(inner)
    requires ValidName(name) && Names(path, Under(root, inner + [name]))
    ensures path != Render(Under(root, inner)) && Relative(Render(Under(root, inner)), path) == name
  {
    var workspace := Under(root, inner);
    NameIsComponent(name);
    BelowTwice(root, inner, [name]);
    CanonicalBelow(root, inner);
    RelativeOfBelow(workspace, [name]);
    assert |Under(workspace, [name]).parts| != |workspace.parts|;
  }

  lemma FirstNameIs(name: string)
    requires ValidName(name) && Trimmed(name)
    ensures FirstName(name) == Ok(name)
  {
    TrimId(name);
    NameIsComponent(name);
  }

  lemma NamesOfBelow(below: seq<string>)
    requires Below(below) && below != []
    ensures FirstName(Join(below, "/")) == NormalizeWorkspaceProjectName(below[0])
  {
    BelowAt(below);
    SplitJoin(below, '/');
    NonEmptyId(below);
  }

  /** A path below the workspace belongs to the project of its first name; the workspace itself belongs
      to none, and is refused where a directory below it is needed. */
  lemma DescendantsHaveProjects(text: string, root: Path, inner: seq<string>, below: seq<string>, volumes: VolumeMap)
    requires WorkspaceInside(root, inner, volumes) && Below(below) && Names(text, Under(root, inner + below))
    requires below == [] || !StartsWith(below[0], "..")
    ensures ToServerWorkspaceDescendantPath(text, volumes) == if below == [] then Err(WorkspaceRoot) else Ok(text)
    ensures WorkspaceProjectNameFromPath(text, volumes) ==
            if below == [] then Err(WorkspaceRoot) else NormalizeWorkspaceProjectName(below[0])
  {
    WorkspacePathIsKept(text, root, inner, below, volumes);
    BelowTwice(root, inner, below);
    CanonicalBelow(root, inner);
    if below == [] {
      assert inner + below == inner;
    } else {
      assert |Under(root, inner).parts| != |Under(root, inner + below).parts|;
      DifferentRendered(Under(root, inner + below), Under(root, inner));
      RelativeOfBelow(Under(root, inner), below);
      NamesOfBelow(below);
    }
  }

  // ----- container to host to container --------------------------------------------------

  /** Neither path lies within the other. */
  predicate Apart(p: Path, q: Path) {
    !Within(p, q) && !Within(q, p)
  }

  lemma PrefixOfConcat(q: seq<string>, a: seq<string>, b: seq<string>)
    ensures q <= a + b ==> q <= a || a <= q
  {
    if q <= a + b {
      if |q| <= |a| {
        assert q == (a + b)[..|q|] == a[..|q|];
      } else {
        assert q[..|a|] == (a + b)[..|a|] == a;
      }
    }
  }

  lemma ApartBelow(p: Path, q: Path, below: seq<string>)
    requires Apart(p, q)
    ensures !Within(Under(p, below), q)
  {
    PrefixOfConcat(q.parts, p.parts, below);
  }

  lemma OutsideRendered(p: Path, root: Path)
    requires Canonical(p) && Canonical(root) && root.parts != [] && !Within(p, root)
    ensures RelativeIfInside(Render(p), Render(root), false).None?
  {
    CleanOfCanonical(p);
    CleanOfCanonical(root);
    DifferentRendered(p, root);
    if StartsWith(Render(p), Render(root) + "/") {
      PrefixOfRendered(p, root);
    }
  }

  lemma DifferentRendered(p: Path, q: Path)
    requires Canonical(p) && Canonical(q) && p != q
    ensures Render(p) != Render(q)
  {
    CanonicalParses(p);
    CanonicalParses(q);
  }

  /** The container root and the root on the host, which lie apart. */
  ghost predicate RootsApart(root: Path, host: Path, volumes: VolumeMap) {
    && Canonical(root) && root.parts != [] && ServerContainerRoot(volumes) == Render(root)
    && HostRoot(host, volumes)
    && Apart(host, root)
  }

  ghost predicate HostRoot(host: Path, volumes: VolumeMap) {
    Canonical(host) && host.parts != [] && CleanHostPath(volumes.hostRoot) == Render(host)
  }

  lemma HostWorkspaceIs(host: Path, volumes: VolumeMap)
    requires HostRoot(host, volumes)
    ensures ServerHostWorkspace(volumes) == Render(Under(host, ["workspace"]))
    ensures Canonical(Under(host, ["workspace"]))
  {
    assert Join(["workspace"], "/") == "workspace";
    WorkspaceIsBelow();
    JoinRendered(host, ["workspace"]);
    CleanOfCanonical(Under(host, ["workspace"]));
  }

  /** A host path is mapped to the container path with the same components below the root. */
  lemma HostPathIsMapped(text: string, root: Path, host: Path, below: seq<string>, volumes: VolumeMap)
    requires RootsApart(root, host, volumes) && Below(below)
    requires Names(text, Under(host, below))
    ensures ToServerContainerPath(text, volumes) == Ok(Render(Under(root, below)))
  {
    NamesIsNotBlank(text, Under(host, below));
    ApartBelow(host, root, below);
    OutsideRendered(Under(host, below), root);
    InsideRendered(host, below, true);
    JoinRendered(root, below);
  }

  lemma WorkspaceIsBelow()
    ensures Below(["workspace"])
  {
    BelowAt(["workspace"]);
  }

  /** The directory `workspace` of a root, and what lies below it. */
  lemma BelowWorkspace(root: Path, below: seq<string>)
    requires Canonical(root) && Below(below)
    ensures Below(["workspace"]) && Canonical(Under(root, ["workspace"]))
    ensures Below(["workspace"] + below) && Canonical(Under(root, ["workspace"] + below))
    ensures Under(Under(root, ["workspace"]), below) == Under(root, ["workspace"] + below)
  {
    WorkspaceIsBelow();
    BelowTwice(root, ["workspace"], below);
    CanonicalBelow(root, ["workspace"]);
    CanonicalBelow(root, ["workspace"] + below);
  }

  lemma RelativeToHost(workspace: Path, host: Path, below: seq<string>, volumes: VolumeMap)
    requires Canonical(workspace) && workspace.absolute && HostRoot(host, volumes) && Below(below)
    ensures
      var relative := Relative(Render(workspace), Render(Under(workspace, below)));
      CleanPosixPath(PosixJoin([ServerHostWorkspace(volumes), relative])) == Render(Under(host, ["workspace"] + below))
    ensures Canonical(Under(host, ["workspace"] + below))
  {
    CanonicalBelow(workspace, below);
    RelativeOfBelow(workspace, below);
    HostWorkspaceIs(host, volumes);
    BelowWorkspace(host, below);
    JoinOnHost(Under(host, ["workspace"]), below);
  }

  lemma JoinOnHost(hostWorkspace: Path, below: seq<string>)
    requires Canonical(hostWorkspace) && Below(below)
    ensures CleanPosixPath(PosixJoin([Render(hostWorkspace), Join(below, "/")])) == Render(Under(hostWorkspace, below))
  {
    JoinRendered(hostWorkspace, below);
    CleanOfCanonical(Under(hostWorkspace, below));
  }

  /** On the host, a path of any container workspace lies in the directory `workspace`. */
  lemma ContainerPathToHost(text: string, workspace: Path, host: Path, below: seq<string>, volumes: VolumeMap)
    requires Canonical(workspace) && workspace.absolute && ServerContainerWorkspace(volumes) == Render(workspace)
    requires HostRoot(host, volumes) && Below(below)
    requires Names(text, Under(workspace, below)) && ToServerContainerPath(text, volumes) == Ok(text)
    ensures ToHostWorkspacePath(text, volumes) ==
            if below != [] && StartsWith(below[0], "..") then Err(OutsideWorkspace)
            else Ok(Render(Under(host, ["workspace"] + below)))
  {
    KeptPathIsAccepted(text, workspace, below, volumes);
    RelativeToHost(workspace, host, below, volumes);
  }

  lemma SameWorkspace(root: Path, workspace: Path, below: seq<string>)
    requires Canonical(workspace) && Canonical(root) && Below(below)
    ensures Render(Under(root, ["workspace"] + below)) == Render(Under(workspace, below)) <==>
            workspace == Under(root, ["workspace"])
  {
    var back := Under(root, ["workspace"] + below);
    BelowWorkspace(root, below);
    CanonicalBelow(workspace, below);
    if back != Under(workspace, below) {
      DifferentRendered(back, Under(workspace, below));
    } else {
      SameFront(Under(root, ["workspace"]).parts, workspace.parts, below);
    }
  }

  lemma SameFront(a: seq<string>, b: seq<string>, end: seq<string>)
    requires a + end == b + end
    ensures a == b
  {
    assert |a| == |b|;
    assert a == (a + end)[..|a|] && b == (b + end)[..|b|];
  }

  /** The way to the host and back leads from any workspace to the directory `workspace` below the
      container root: it gives the path back exactly when that is the workspace. For roots that lie
      apart, texts that trimming does not change, and paths that the volumes do not map elsewhere. */
  lemma HostAndBack(text: string, workspace: Path, root: Path, host: Path, below: seq<string>, volumes: VolumeMap)
    requires Canonical(workspace) && workspace.absolute && ServerContainerWorkspace(volumes) == Render(workspace)
    requires RootsApart(root, host, volumes) && Below(below) && (below != [] ==> !StartsWith(below[0], ".."))
    requires Names(text, Under(workspace, below)) && ToServerContainerPath(text, volumes) == Ok(text)
    requires Trimmed(Render(Under(host, ["workspace"] + below)))
    ensures
      var onHost := ToHostWorkspacePath(text, volumes);
      && onHost == Ok(Render(Under(host, ["workspace"] + below)))
      && ToServerContainerPath(onHost.value, volumes) == Ok(Render(Under(root, ["workspace"] + below)))
      && (ToServerContainerPath(onHost.value, volumes) == Ok(text) <==> workspace == Under(root, ["workspace"]))
  {
    ContainerPathToHost(text, workspace, host, below, volumes);
    BelowWorkspace(host, below);
    HostPathIsMapped(Render(Under(host, ["workspace"] + below)), root, host, ["workspace"] + below, volumes);
    SameWorkspace(root, workspace, below);
  }

  /** So for every workspace inside the container root, wherever it was configured to lie. */
  lemma HostRoundTrip(text: string, root: Path, inner: seq<string>, host: Path, below: seq<string>, volumes: VolumeMap)
    requires WorkspaceInside(root, inner, volumes) && RootsApart(root, host, volumes) && Below(below)
    requires Names(text, Under(root, inner + below)) && (below != [] ==> !StartsWith(below[0], ".."))
    requires Trimmed(Render(Under(host, ["workspace"] + below)))
    ensures
      var onHost := ToHostWorkspacePath(text, volumes);
      && onHost == Ok(Render(Under(host, ["workspace"] + below)))
      && ToServerContainerPath(onHost.value, volumes) == Ok(Render(Under(root, ["workspace"] + below)))
      && (ToServerContainerPath(onHost.value, volumes) == Ok(text) <==> inner == ["workspace"])
  {
    WorkspacePathIsKept(text, root, inner, below, volumes);
    BelowTwice(root, inner, below);
    CanonicalBelow(root, inner);
    HostAndBack(text, Under(root, inner), root, host, below, volumes);
    if Under(root, inner) == Under(root, ["workspace"]) {
      assert inner == (root.parts + inner)[|root.parts|..];
    }
  }
}
