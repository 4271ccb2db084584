/** Paths of a Windows host, in each way they are written: with a drive letter in either case, or under
    `/mnt` as WSL sees them; foreign paths; and paths relative to the workspace. Together these say
    where every path goes. */
module HostPaths {
  import opened JsText
  import opened PathAlgebra
  import opened PathMapping

  // ----- first characters ----------------------------------------------------------------

  predicate IsDrive(s: string) {
    |s| >= 2 && IsLetter(s[0]) && s[1] == ':'
  }

  /** `s` is `t` or lies below it, as text. */
  predicate Extends(s: string, t: string) {
    s == t || StartsWith(s, t + "/")
  }

  lemma SameStart(s: string, t: string)
    ensures Extends(s, t) && t != "" ==> s != "" && s[0] == t[0]
    ensures Extends(s, t) && |t| >= 2 ==> |s| >= 2 && s[1] == t[1]
  {
    if StartsWith(s, t + "/") { assert s[..|t|] == t; }
  }

  lemma LowerStart(s: string, t: string)
    requires |t| >= 2
    ensures Extends(Lower(s), Lower(t)) ==>
              |s| >= 2 && LowerChar(s[0]) == LowerChar(t[0]) && LowerChar(s[1]) == LowerChar(t[1])
  {
    SameStart(Lower(s), Lower(t));
  }

  lemma LowerOfDrive(s: string, t: string)
    ensures |s| >= 2 && |t| >= 2 && LowerChar(s[0]) == LowerChar(t[0]) && LowerChar(s[1]) == LowerChar(t[1]) ==>
              IsDrive(s) == IsDrive(t)
  {
  }

  /** A path with a drive letter is not inside a root without one, nor the other way round. */
  lemma DriveApart(value: string, root: string, caseInsensitive: bool)
    requires CleanPosixPath(value) == value && CleanPosixPath(root) == root && |root| >= 2
    requires IsDrive(value) != IsDrive(root)
    ensures RelativeIfInside(value, root, caseInsensitive).None?
  {
    LowerStart(value, root);
    LowerOfDrive(value, root);
    SameStart(value, root);
  }

  lemma StartOfRendered(p: Path)
    requires Canonical(p)
    ensures Render(p) != "" && ((Render(p)[0] == '/') == p.absolute) && Slashed(Render(p)) == Render(p)
    ensures CleanPosixPath(Render(p)) == Render(p)
  {
    CleanOfCanonical(p);
  }

  // ----- a host root with a drive letter -------------------------------------------------

  /** Characters the pattern for drive paths does not match. */
  predicate NoLineEnd(s: string) {
    forall i | 0 <= i < |s| :: s[i] !in "\n\r\U{2028}\U{2029}"
  }

  function OnDrive(drive: char, comps: seq<string>): Path {
    Path(false, [[drive, ':']] + comps)
  }

  /** The same directory as WSL mounts it. */
  function OnMount(drive: char, comps: seq<string>): Path {
    Path(true, ["mnt", [LowerChar(drive)]] + comps)
  }

  /** The host root is a directory of a Windows drive. */
  ghost predicate DriveRoot(drive: char, comps: seq<string>, volumes: VolumeMap) {
    && IsLetter(drive) && Below(comps) && NoLineEnd(Join(comps, "/"))
    && CleanHostPath(volumes.hostRoot) == Render(OnDrive(drive, comps))
  }

  lemma DriveIsCanonical(drive: char, comps: seq<string>)
    requires IsLetter(drive) && Below(comps)
    ensures Canonical(OnDrive(drive, comps)) && Canonical(OnMount(drive, comps)) && Canonical(OnMount(drive, []))
    ensures Below([[drive, ':']]) && Below(["mnt", [LowerChar(drive)]])
  {
    BelowAt([[drive, ':']]);
    BelowAt(["mnt", [LowerChar(drive)]]);
    assert Canonical(Path(false, [])) && Canonical(Path(true, []));
    CanonicalBelow(Path(false, []), [[drive, ':']]);
    CanonicalBelow(Path(true, []), ["mnt", [LowerChar(drive)]]);
    assert Under(Path(false, []), [[drive, ':']]) == OnDrive(drive, []);
    assert Under(Path(true, []), ["mnt", [LowerChar(drive)]]) == OnMount(drive, []);
    CanonicalBelow(OnDrive(drive, []), comps);
    CanonicalBelow(OnMount(drive, []), comps);
    assert Under(OnDrive(drive, []), comps) == OnDrive(drive, comps);
    assert Under(OnMount(drive, []), comps) == OnMount(drive, comps);
  }

  lemma RenderDrive(drive: char, comps: seq<string>)
    ensures Render(OnDrive(drive, comps)) == HostText(drive, Join(comps, "/"), comps != [])
  {
    var parts := [[drive, ':']] + comps;
    if comps == [] {
      assert parts == [[drive, ':']];
    } else {
      JoinConcat([[drive, ':']], comps);
    }
  }

  /** The drive, and what lies below it if anything does. */
  function HostText(drive: char, rest: string, below: bool): string {
    [drive, ':'] + if below then "/" + rest else ""
  }

  lemma DriveStart(drive: char, comps: seq<string>)
    requires IsLetter(drive) && Below(comps)
    ensures var host := Render(OnDrive(drive, comps)); |host| >= 2 && IsDrive(host)
    ensures CleanPosixPath(Render(OnDrive(drive, comps))) == Render(OnDrive(drive, comps))
  {
    RenderDrive(drive, comps);
    DriveIsCanonical(drive, comps);
    CleanOfCanonical(OnDrive(drive, comps));
  }

  lemma RenderMount(drive: char)
    ensures Render(OnMount(drive, [])) == "/mnt/" + [LowerChar(drive)]
  {
    var parts := ["mnt", [LowerChar(drive)]];
    assert parts + [] == parts && parts[1..] == [[LowerChar(drive)]];
    assert Join(parts[1..], "/") == [LowerChar(drive)];
  }

  lemma NonEmptyOfThree(a: string, b: string, c: string)
    requires a != "" && b != ""
    ensures NonEmpty([a, b, c]) == if c == "" then [a, b] else [a, b, c]
  {
    assert [a, b, c][1..] == [b, c] && [b, c][1..] == [c] && [c][1..] == [];
    assert NonEmpty([c]) == if c == "" then [] else [c];
    assert NonEmpty([b, c]) == [b] + NonEmpty([c]);
  }

  lemma JoinedThree(a: string, b: string, c: string)
    ensures Join([a, b], "/") == a + "/" + b
    ensures Join([a, b, c], "/") == a + "/" + b + "/" + c
  {
    assert [a, b][1..] == [b] && [a, b, c][1..] == [b, c] && [b, c][1..] == [c];
    assert Join([b, c], "/") == b + "/" + c;
    assert a + "/" + (b + "/" + c) == a + "/" + b + "/" + c;
  }

  lemma JoinOfThree(a: string, b: string, c: string)
    requires a != "" && b != ""
    ensures PosixJoin([a, b, c]) == PosixJoin([a + "/" + b, c])
  {
    JoinOfTwo(a + "/" + b, c);
    NonEmptyOfThree(a, b, c);
    JoinedThree(a, b, c);
  }

  /** The WSL form of a drive path. */
  lemma WslOf(drive: char, rest: string, below: bool)
    requires IsLetter(drive) && NoLineEnd(rest) && (!below ==> rest == "")
    requires Slashed(HostText(drive, rest, below)) == HostText(drive, rest, below)
    ensures WindowsDriveToWsl(HostText(drive, rest, below)) == PosixJoin(["/mnt", [LowerChar(drive)], rest])
  {
    var n := HostText(drive, rest, below);
    assert forall i | 3 <= i < |n| :: n[i] == rest[i - 3];
    if below {
      assert n[3..] == rest;
    } else {
      assert n[2..] == rest;
    }
  }

  lemma MountJoin(drive: char, comps: seq<string>)
    requires IsLetter(drive) && Below(comps)
    ensures PosixJoin(["/mnt", [LowerChar(drive)], Join(comps, "/")]) == Render(OnMount(drive, comps))
  {
    DriveIsCanonical(drive, comps);
    JoinOfThree("/mnt", [LowerChar(drive)], Join(comps, "/"));
    RenderMount(drive);
    assert "/mnt" + "/" + [LowerChar(drive)] == "/mnt/" + [LowerChar(drive)];
    JoinRendered(OnMount(drive, []), comps);
    assert Under(OnMount(drive, []), comps) == OnMount(drive, comps);
  }

  /** The WSL form of the host root is the mounted directory. */
  lemma WslRootIs(drive: char, comps: seq<string>)
    requires IsLetter(drive) && Below(comps) && NoLineEnd(Join(comps, "/"))
    ensures WindowsDriveToWsl(Render(OnDrive(drive, comps))) == Render(OnMount(drive, comps))
  {
    DriveIsCanonical(drive, comps);
    StartOfRendered(OnDrive(drive, comps));
    RenderDrive(drive, comps);
    WslOf(drive, Join(comps, "/"), comps != []);
    MountJoin(drive, comps);
  }

  /** The container root, absolute and not the root of all. */
  ghost predicate ContainerRoot(root: Path, volumes: VolumeMap) {
    Canonical(root) && root.absolute && root.parts != [] && ServerContainerRoot(volumes) == Render(root)
  }

  /** The host root: an absolute path, or a directory of a Windows drive. */
  datatype Host = Unix(parts: seq<string>) | Windows(drive: char, comps: seq<string>)
  {
    function At(): Path {
      if Unix? then Path(true, parts) else OnDrive(drive, comps)
    }

    /** Where else it is found: on the mounted drive. */
    function Mounted(): Path {
      if Unix? then Path(true, parts) else OnMount(drive, comps)
    }
  }

  ghost predicate HasHost(host: Host, volumes: VolumeMap) {
    match host
    case Unix(parts) => HostRoot(Path(true, parts), volumes)
    case Windows(drive, comps) => DriveRoot(drive, comps, volumes)
  }

  /** The roots as texts. */
  lemma HostTexts(host: Host, volumes: VolumeMap)
    requires HasHost(host, volumes)
    ensures Canonical(host.At()) && host.At().parts != [] && Canonical(host.Mounted()) && host.Mounted().parts != []
    ensures CleanHostPath(volumes.hostRoot) == Render(host.At())
    ensures WindowsDriveToWsl(Render(host.At())) == Render(host.Mounted())
    ensures |Render(host.At())| >= 2 && IsDrive(Render(host.At())) == host.Windows?
  {
    match host
    case Unix(parts) =>
      JoinedIsNotEmpty(host.At());
      StartOfRendered(host.At());
    case Windows(drive, comps) =>
      DriveIsCanonical(drive, comps);
      DriveStart(drive, comps);
      WslRootIs(drive, comps);
  }

  lemma LowerExtends(s: string, t: string)
    ensures Extends(s, t) ==> Extends(Lower(s), Lower(t))
  {
    if StartsWith(s, t + "/") {
      assert s[..|t| + 1] == t + "/";
      assert Lower(s)[..|t| + 1] == Lower(t) + "/";
    }
  }

  lemma InsideInAnyCase(value: string, root: string)
    ensures RelativeIfInside(value, root, true).None? ==> RelativeIfInside(value, root, false).None?
  {
    LowerExtends(CleanPosixPath(value), CleanPosixPath(root));
  }

  // ----- where a path goes, case by case -------------------------------------------------

  /** As WSL sees it: the path below the mounted host root is mapped to the same below the container
      root. */
  lemma MountedPathIsMapped(text: string, root: Path, drive: char, comps: seq<string>, below: seq<string>,
                            volumes: VolumeMap)
    requires ContainerRoot(root, volumes) && DriveRoot(drive, comps, volumes) && Below(below)
    requires Names(text, Under(OnMount(drive, comps), below)) && !Within(Under(OnMount(drive, comps), below), root)
    ensures ToServerContainerPath(text, volumes) == Ok(Render(Under(root, below)))
  {
    var p := Under(OnMount(drive, comps), below);
    NamesIsNotBlank(text, p);
    StartOfRendered(p);
    DriveIsCanonical(drive, comps);
    DriveStart(drive, comps);
    OutsideRendered(p, root);
    DriveApart(text, Render(OnDrive(drive, comps)), true);
    WslRootIs(drive, comps);
    InsideRendered(OnMount(drive, comps), below, false);
    JoinRendered(root, below);
  }

  lemma AnyCaseTest(value: string, root: string, other: string, rest: string)
    requires root != "" && CleanPosixPath(root) == root && CleanPosixPath(value) == value
    requires value == other + "/" + rest && Lower(other) == Lower(root)
    ensures RelativeIfInside(value, root, true) == Some(rest)
  {
    assert |Lower(other)| == |Lower(root)|;
    assert Lower(value)[..|other| + 1] == Lower(other) + "/";
    assert |Lower(value)| > |Lower(root)|;
    assert value[|root| + 1..] == rest;
  }

  lemma InsideAnyCase(host: Path, other: Path, below: seq<string>)
    requires Canonical(host) && Canonical(other) && host.parts != [] && other.parts != []
    requires Canonical(Under(other, below)) && Lower(Render(other)) == Lower(Render(host))
    ensures RelativeIfInside(Render(Under(other, below)), Render(host), true) == Some(Join(below, "/"))
  {
    StartOfRendered(host);
    StartOfRendered(Under(other, below));
    if below == [] {
      assert other.parts + below == other.parts;
    } else {
      JoinedIsNotEmpty(other);
      RenderBelow(other, below);
      AnyCaseTest(Render(Under(other, below)), Render(host), Render(other), Join(below, "/"));
    }
  }

  /** Below the host root, written in any case: mapped likewise, the names below it as they are. */
  lemma HostPathInAnyCase(text: string, root: Path, host: Host, other: Path, below: seq<string>, volumes: VolumeMap)
    requires ContainerRoot(root, volumes) && HasHost(host, volumes) && Below(below)
    requires Canonical(other) && other.parts != [] && Lower(Render(other)) == Lower(Render(host.At()))
    requires Names(text, Under(other, below)) && !Within(Under(other, below), root)
    ensures ToServerContainerPath(text, volumes) == Ok(Render(Under(root, below)))
  {
    NamesIsNotBlank(text, Under(other, below));
    OutsideRendered(Under(other, below), root);
    BelowHost(text, host, other, below, volumes);
    JoinRendered(root, below);
    GoesToRoot(text, Render(root), CleanHostPath(volumes.hostRoot), Join(below, "/"), volumes);
  }

  lemma BelowHost(text: string, host: Host, other: Path, below: seq<string>, volumes: VolumeMap)
    requires HasHost(host, volumes) && Canonical(other) && other.parts != []
    requires Lower(Render(other)) == Lower(Render(host.At())) && Names(text, Under(other, below))
    ensures RelativeIfInside(text, CleanHostPath(volumes.hostRoot), true) == Some(Join(below, "/"))
  {
    HostTexts(host, volumes);
    InsideAnyCase(host.At(), other, below);
  }

  lemma GoesToRoot(text: string, root: string, host: string, below: string, volumes: VolumeMap)
    requires !Blank(text) && Slashed(Trim(text)) == text
    requires root == ServerContainerRoot(volumes) && host == CleanHostPath(volumes.hostRoot)
    requires RelativeIfInside(text, root, false).None? && RelativeIfInside(text, host, true) == Some(below)
    ensures ToServerContainerPath(text, volumes) == Ok(PosixJoin([root, below]))
  {
  }

  lemma GoesNowhere(text: string, root: string, host: string, mounted: string, volumes: VolumeMap)
    requires !Blank(text) && Slashed(Trim(text)) == text && CleanPosixPath(text) == text
    requires root == ServerContainerRoot(volumes) && host == CleanHostPath(volumes.hostRoot)
    requires mounted == WindowsDriveToWsl(host)
    requires RelativeIfInside(text, root, false).None? && RelativeIfInside(text, host, true).None?
    requires RelativeIfInside(text, mounted, false).None?
    ensures ToServerContainerPath(text, volumes) == if IsWindowsDrivePath(text) then Err(OutsideVolumes) else Ok(text)
  {
  }

  /** Is the text inside the host root, but for the case of letters? */
  predicate OnHost(text: string, host: Host) {
    Extends(Lower(text), Lower(Render(host.At())))
  }

  lemma NotOnHost(text: string, host: Host, volumes: VolumeMap)
    requires HasHost(host, volumes) && CleanPosixPath(text) == text && !OnHost(text, host)
    ensures RelativeIfInside(text, Render(host.At()), true).None?
  {
    HostTexts(host, volumes);
    StartOfRendered(host.At());
  }

  lemma NotMounted(text: string, host: Host, p: Path, volumes: VolumeMap)
    requires HasHost(host, volumes) && Names(text, p) && !OnHost(text, host)
    requires host.Windows? ==> !Within(p, host.Mounted())
    ensures RelativeIfInside(text, Render(host.Mounted()), false).None?
  {
    HostTexts(host, volumes);
    StartOfRendered(p);
    if host.Windows? {
      OutsideRendered(p, host.Mounted());
    } else {
      NotOnHost(text, host, volumes);
      InsideInAnyCase(text, Render(host.At()));
    }
  }

  /** Any other path stays as it is, unless it is one of a Windows drive: that is refused. */
  lemma ForeignPath(text: string, root: Path, host: Host, p: Path, volumes: VolumeMap)
    requires ContainerRoot(root, volumes) && HasHost(host, volumes) && Names(text, p)
    requires !Within(p, root) && !OnHost(text, host) && (host.Windows? ==> !Within(p, host.Mounted()))
    ensures ToServerContainerPath(text, volumes) == if IsWindowsDrivePath(text) then Err(OutsideVolumes) else Ok(text)
  {
    NamesIsNotBlank(text, p);
    StartOfRendered(p);
    OutsideRendered(p, root);
    OutsideHost(text, host, p, volumes);
    var at := CleanHostPath(volumes.hostRoot);
    GoesNowhere(text, Render(root), at, WindowsDriveToWsl(at), volumes);
  }

  lemma OutsideHost(text: string, host: Host, p: Path, volumes: VolumeMap)
    requires HasHost(host, volumes) && Names(text, p) && !OnHost(text, host)
    requires host.Windows? ==> !Within(p, host.Mounted())
    ensures
      var at := CleanHostPath(volumes.hostRoot);
      && RelativeIfInside(text, at, true).None?
      && RelativeIfInside(text, WindowsDriveToWsl(at), false).None?
  {
    HostTexts(host, volumes);
    StartOfRendered(p);
    NotOnHost(text, host, volumes);
    NotMounted(text, host, p, volumes);
  }

  /** The texts of a relative path without a drive letter and of the host root begin differently. */
  lemma RelativeIsNotOnHost(text: string, root: string)
    requires |root| >= 2 && (IsDrive(root) || root[0] == '/')
    requires text != "" && text[0] != '/' && !IsDrive(text)
    ensures !Extends(Lower(text), Lower(root))
  {
    LowerStart(text, root);
    LowerOfDrive(text, root);
  }

  /** A relative path without a drive letter is one of them. */
  lemma RelativePathIsKept(text: string, root: Path, host: Host, p: Path, volumes: VolumeMap)
    requires ContainerRoot(root, volumes) && HasHost(host, volumes)
    requires Names(text, p) && !p.absolute && !IsDrive(text)
    ensures ToServerContainerPath(text, volumes) == Ok(text)
  {
    HostStart(host, volumes);
    StartOfRendered(p);
    RelativeIsNotOnHost(text, Render(host.At()));
    ForeignPath(text, root, host, p, volumes);
  }

  lemma HostStart(host: Host, volumes: VolumeMap)
    requires HasHost(host, volumes)
    ensures var text := Render(host.At()); |text| >= 2 && (IsDrive(text) || text[0] == '/')
  {
    HostTexts(host, volumes);
    StartOfRendered(host.At());
  }

  // ----- relative paths ------------------------------------------------------------------

  /** `n` directories up, as far as there are any. */
  function Climbed(parts: seq<string>, n: nat): seq<string> {
    if n <= |parts| then parts[..|parts| - n] else []
  }

  lemma {:induction false} WalkUpFurther(n: nat)
    ensures Walk([], Up(n), true) == []
  {
    if n > 0 {
      assert Up(n)[1..] == Up(n - 1);
      WalkUpFurther(n - 1);
    }
  }

  lemma {:induction false} UpAgain(a: nat, b: nat)
    ensures Up(a) + Up(b) == Up(a + b)
  {
    if a > 0 {
      UpAgain(a - 1, b);
      assert Up(a) + Up(b) == [".."] + (Up(a - 1) + Up(b));
    } else {
      assert [] + Up(b) == Up(b);
    }
  }

  lemma WalkUpIsClimbed(parts: seq<string>, n: nat)
    requires ".." !in parts
    ensures Walk(parts, Up(n), true) == Climbed(parts, n)
  {
    if n <= |parts| {
      WalkUp(parts, n, true);
    } else {
      UpAgain(|parts|, n - |parts|);
      WalkAppend(parts, Up(|parts|), Up(n - |parts|), true);
      WalkUp(parts, |parts|, true);
      WalkUpFurther(n - |parts|);
    }
  }

  lemma ClimbedBelow(workspace: Path, n: nat, below: seq<string>)
    requires Canonical(workspace) && workspace.absolute && Below(below)
    ensures Walk(workspace.parts, Up(n) + below, true) == Climbed(workspace.parts, n) + below
  {
    CanonicalIsNormal(workspace);
    NoDotsAt(workspace.parts);
    WalkAppend(workspace.parts, Up(n), below, true);
    WalkUpIsClimbed(workspace.parts, n);
    BelowAt(below);
    NormalBelow(Path(true, Climbed(workspace.parts, n)), below);
    WalkKeepsNormal(Climbed(workspace.parts, n), below, true);
  }

  lemma {:induction false} UpAreComponents(n: nat)
    ensures forall i | 0 <= i < |Up(n)| :: Component(Up(n)[i])
  {
    if n > 0 { UpAreComponents(n - 1); }
  }

  lemma RenderRelative(p: Path)
    requires Canonical(p) && !p.absolute
    ensures Render(p) == if p.parts == [] then "." else Join(p.parts, "/")
  {
    if p.parts != [] { JoinedIsNotEmpty(p); }
  }

  lemma JoinDot(ws: string)
    requires ws != ""
    ensures PosixJoin([ws, "."]) == Normalize(ws)
  {
    JoinOfTwo(ws, ".");
    ParseOfJoin(ws, ".");
    assert Slashed(".") == "." && "."[1..] == "";
    assert SplitOn(".", '/') == ["."];
    assert ["."][1..] == [];
    assert Walk(Parse(ws).parts, ["."], Absolute(ws)) == Parse(ws).parts;
  }

  lemma JoinRelativePath(workspace: Path, p: Path)
    requires Canonical(workspace) && workspace.absolute && Canonical(p) && !p.absolute
    ensures PosixJoin([Render(workspace), Render(p)]) == Render(Path(true, Walk(workspace.parts, p.parts, true)))
  {
    var ws := Render(workspace);
    CanonicalParses(workspace);
    CleanOfCanonical(workspace);
    RenderRelative(p);
    if p.parts == [] {
      JoinDot(ws);
    } else {
      CanonicalIsNormal(p);
      JoinOfComponents(ws, p.parts);
    }
  }

  /** A relative path is read from the workspace: as many directories up as it says, then down. */
  lemma RelativePathIsWalked(text: string, root: Path, workspace: Path, host: Host, n: nat, below: seq<string>,
                             volumes: VolumeMap)
    requires ContainerRoot(root, volumes) && HasHost(host, volumes) && Below(below)
    requires Canonical(workspace) && workspace.absolute && ServerContainerWorkspace(volumes) == Render(workspace)
    requires Names(text, Path(false, Up(n) + below)) && !IsDrive(text)
    ensures ToServerProjectPath(text, volumes) == Ok(Render(Path(true, Climbed(workspace.parts, n) + below)))
  {
    var p := Path(false, Up(n) + below);
    RelativePathIsKept(text, root, host, p, volumes);
    CleanOfCanonical(p);
    JoinRelativePath(workspace, p);
    ClimbedBelow(workspace, n, below);
  }
}
