/** The decisions of the installer (install.py): which package manager the
    system dependencies are installed with, whether the launcher step may go
    on, and how the launcher folder is put on the PATH — the Windows user
    PATH value and the Unix shell profiles. Running commands, the registry
    and the files are inputs and results. */
module Installer {
  import opened Wrappers
  import opened Text
  import opened OsRelease
  import opened Seqs

  // ---------------------------------------------------------------------
  // System packages
  // ---------------------------------------------------------------------

  /** The platform branches of `install_system_packages`, tested in this
      order: `os.name == "nt"`, then `sys.platform == "darwin"`, else Linux. */
  datatype Platform = Windows | MacOS | Linux

  /** How the system dependencies are installed on Linux. */
  datatype PackageManager = Apt | Dnf | Pacman | Manual

  const AptIds: set<string> := {"ubuntu", "debian", "linuxmint", "pop"}
  const DnfIds: set<string> := {"fedora"}
  const PacmanIds: set<string> := {"arch", "manjaro", "cachyos", "endeavouros", "garuda"}

  /** An id the table knows by name. */
  predicate KnownId(id: Option<string>) {
    id.Some? && (id.value in AptIds || id.value in DnfIds || id.value in PacmanIds)
  }

  /** The `ID_LIKE` fallback, tested as substrings in a fixed order. */
  function FromIdLike(like: string): PackageManager {
    if Contains(like, "debian") || Contains(like, "ubuntu") then Apt
    else if Contains(like, "arch") then Pacman
    else if Contains(like, "fedora") || Contains(like, "rhel") then Dnf
    else Manual
  }

  /** The decision table of `install_system_packages` on Linux. An exact id
      decides first; only then does a non-empty `ID_LIKE` decide by
      substring; anything else is left to the user. */
  function ChoosePackageManager(id: Option<string>, like: Option<string>): (r: PackageManager)
    ensures id.Some? && id.value in AptIds ==> r == Apt
    ensures id.Some? && id.value in DnfIds ==> r == Dnf
    ensures id.Some? && id.value in PacmanIds ==> r == Pacman
    ensures !KnownId(id) && (like.None? || like.value == []) ==> r == Manual
    ensures !KnownId(id) && like.Some? ==> r == FromIdLike(like.value)
  {
    if id.Some? && id.value in AptIds then Apt
    else if id.Some? && id.value in DnfIds then Dnf
    else if id.Some? && id.value in PacmanIds then Pacman
    else if like.Some? && like.value != [] then FromIdLike(like.value)
    else Manual
  }

  /** An exact id beats whatever `ID_LIKE` says. */
  lemma ExactIdWins(id: string, like1: Option<string>, like2: Option<string>)
    requires KnownId(Some(id))
    ensures ChoosePackageManager(Some(id), like1) == ChoosePackageManager(Some(id), like2)
  {
  }

  /** A family naming "debian" or "ubuntu" anywhere selects apt, whatever
      else it names ("arch" included), when the id itself is not known. */
  lemma DebianLikeFirst(id: Option<string>, before: string, family: string, after: string)
    requires !KnownId(id) && family in {"debian", "ubuntu"}
    ensures ChoosePackageManager(id, Some(before + family + after)) == Apt
  {
    ContainsAppended(before, family + after, family);
    assert before + family + after == before + (family + after);
  }

  /** A family that names neither "debian" nor "ubuntu" but names "arch"
      selects pacman, even when it also names "fedora" or "rhel". */
  lemma ArchLikeBeforeFedora(id: Option<string>, before: string, after: string)
    requires !KnownId(id)
    requires !Contains(before + "arch" + after, "debian") && !Contains(before + "arch" + after, "ubuntu")
    ensures ChoosePackageManager(id, Some(before + "arch" + after)) == Pacman
  {
    ContainsAppended(before, "arch" + after, "arch");
    assert before + "arch" + after == before + ("arch" + after);
  }

  /** The commands run for each Linux installer, in order. */
  function InstallCommands(m: PackageManager): (r: seq<seq<string>>)
    ensures r == [] <==> m == Manual
    ensures forall i :: 0 <= i < |r| ==> |r[i]| >= 3 && r[i][0] == "sudo"
    ensures r != [] ==> var last := r[|r| - 1];
              && last[|last| - 2] in {"python3-pygame", "python-pygame"}
              && last[|last| - 1] in {"python3-mutagen", "python-mutagen"}
  {
    match m
    case Apt => [["sudo", "apt", "update"],
                 ["sudo", "apt", "install", "-y", "python3", "python3-pip", "python3-pygame", "python3-mutagen"]]
    case Dnf => [["sudo", "dnf", "install", "-y", "python3", "python3-pip", "python3-pygame", "python3-mutagen"]]
    case Pacman => [["sudo", "pacman", "-S", "--needed", "--noconfirm", "python", "python-pip", "python-pygame", "python-mutagen"]]
    case Manual => []
  }

  /** Only apt runs two commands, the index update before the install; the
      other installers run one, and nothing is run when the user is left to
      install by hand. */
  lemma AptUpdatesFirst(m: PackageManager)
    ensures var c := InstallCommands(m);
            && (m == Apt <==> |c| == 2)
            && (m == Manual <==> c == [])
            && (m == Apt ==> c[0] == ["sudo", "apt", "update"] && c[1][..3] == ["sudo", "apt", "install"])
  {
  }

  /** The commands run on Windows: winget for Python when it is found, then
      a plain pip install, retried with `--user` only when the plain one
      reports failure (`pipOk` is that report). */
  function WindowsCommands(wingetFound: bool, pipOk: bool, python: string): (r: seq<seq<string>>)
    ensures |r| == (if wingetFound then 1 else 0) + (if pipOk then 1 else 2)
    ensures r[0] == ["winget", "install", "--id", "Python.Python.3", "-e"] <==> wingetFound
    ensures |r[|r| - 1]| >= 6 && r[|r| - 1][..4] == [python, "-m", "pip", "install"]
    ensures |r[|r| - 1]| >= 6 && (r[|r| - 1][4] == "--user" <==> !pipOk)
  {
    (if wingetFound then [["winget", "install", "--id", "Python.Python.3", "-e"]] else [])
    + [[python, "-m", "pip", "install", "pygame", "mutagen"]]
    + (if pipOk then [] else [[python, "-m", "pip", "install", "--user", "pygame", "mutagen"]])
  }

  /** How a started command ends: it exits with status 0, exits with another
      status, its program is not found, or starting it raises some other error. */
  datatype Outcome = Exited0 | ExitedNonZero | NotFound | OtherError

  /** `run_command(command, ignore_errors)`: an empty command is refused;
      otherwise the report is yes on a zero exit and on a non-zero exit when
      errors are ignored, and no when the program could not be run. */
  function RunCommand(command: seq<string>, outcome: Outcome, ignoreErrors: bool): (r: bool)
    ensures command == [] ==> !r
    ensures command != [] && ignoreErrors ==> (r <==> outcome.Exited0? || outcome.ExitedNonZero?)
    ensures command != [] && !ignoreErrors ==> (r <==> outcome.Exited0?)
  {
    if command == [] then false
    else match outcome
      case Exited0 => true
      case ExitedNonZero => ignoreErrors
      case NotFound => false
      case OtherError => false
  }

  /** Because the plain pip install ignores errors, a pip that runs and
      fails still reports yes, so the `--user` retry follows only a pip that
      could not be started. */
  lemma PipRetryOnlyWhenNotStarted(wingetFound: bool, outcome: Outcome, python: string)
    ensures var pipOk := RunCommand([python, "-m", "pip", "install", "pygame", "mutagen"], outcome, true);
            var c := WindowsCommands(wingetFound, pipOk, python);
            (c[|c| - 1][4] == "--user" <==> outcome.NotFound? || outcome.OtherError?)
  {
  }

  /** The commands run on macOS: nothing without Homebrew; with it, three
      `brew install`s and then a user pip install, always. */
  function MacCommands(brewFound: bool, python: string): (r: seq<seq<string>>)
    ensures r == [] <==> !brewFound
    ensures brewFound ==> |r| == 4 && (forall i :: 0 <= i < 3 ==> |r[i]| == 3 && r[i][..2] == ["brew", "install"])
                          && |r[3]| == 8 && r[3][..4] == [python, "-m", "pip", "install"]
  {
    if !brewFound then []
    else [["brew", "install", "python"], ["brew", "install", "pygame"], ["brew", "install", "mutagen"],
          [python, "-m", "pip", "install", "--user", "--upgrade", "pygame", "mutagen"]]
  }

  /** What `install_system_packages` does: the Linux installer it picks
      (nothing on the other platforms), the commands it runs, and its
      answer. The answer is yes on every path, whatever the commands report. */
  datatype Install = Install(manager: Option<PackageManager>, commands: seq<seq<string>>, succeeded: bool)

  /** `install_system_packages()`. `toolFound` says whether winget (Windows)
      or brew (macOS) is on the PATH, `pipOk` what the plain pip install on
      Windows reports, and `osRelease` is the os-release file on Linux, if
      readable. */
  function InstallSystemPackages(platform: Platform, toolFound: bool, pipOk: bool,
                                 osRelease: Option<string>, python: string): (r: Install)
    ensures r.succeeded
    ensures r.manager.Some? <==> platform == Linux
    ensures platform == Linux ==>
              r.manager.value == ChoosePackageManager(DetectDistro(osRelease).id, DetectDistro(osRelease).idLike)
              && r.commands == InstallCommands(r.manager.value)
  {
    match platform
    case Windows => Install(None, WindowsCommands(toolFound, pipOk, python), true)
    case MacOS => Install(None, MacCommands(toolFound, python), true)
    case Linux =>
      var release := DetectDistro(osRelease);
      var m := ChoosePackageManager(release.id, release.idLike);
      Install(Some(m), InstallCommands(m), true)
  }

  /** Off Linux, pip installs pygame and mutagen as the last command on every
      path but macOS without Homebrew, where nothing is run. On Windows the
      `--user` retry is run exactly when the plain install failed, and
      winget exactly when it was found. */
  lemma PipIsTheLastResort(platform: Platform, toolFound: bool, pipOk: bool, osRelease: Option<string>, python: string)
    requires platform != Linux
    ensures var c := InstallSystemPackages(platform, toolFound, pipOk, osRelease, python).commands;
            && (c == [] <==> platform == MacOS && !toolFound)
            && (c != [] ==> c[|c| - 1][..4] == [python, "-m", "pip", "install"]
                            && c[|c| - 1][|c[|c| - 1]| - 2..] == ["pygame", "mutagen"])
            && (platform == Windows ==>
                  |c| == (if toolFound then 1 else 0) + (if pipOk then 1 else 2)
                  && (c[0] == ["winget", "install", "--id", "Python.Python.3", "-e"] <==> toolFound)
                  && (c[|c| - 1][4] == "--user" <==> !pipOk))
  {
    var c := InstallSystemPackages(platform, toolFound, pipOk, osRelease, python).commands;
    if platform == Windows {
      assert c == WindowsCommands(toolFound, pipOk, python);
      if toolFound {
        assert c[0] == ["winget", "install", "--id", "Python.Python.3", "-e"];
      } else {
        assert c[0][..4] == [python, "-m", "pip", "install"];
      }
    }
  }

  /** The gate in `main` after the system packages: a failed installation
      asks whether to go on, and only "y" or "yes" does. */
  function ContinuesToLaunchers(skipSystem: bool, installed: bool, answer: string): bool {
    if !skipSystem && !installed then Lower(Strip(answer)) in {"y", "yes"} else true
  }

  /** The question is never asked: installation always reports success, so
      the installer goes on to the launchers whatever the user would answer. */
  lemma LauncherStepAlwaysReached(skipSystem: bool, platform: Platform, toolFound: bool, pipOk: bool,
                                  osRelease: Option<string>, python: string, answer: string)
    ensures ContinuesToLaunchers(skipSystem, InstallSystemPackages(platform, toolFound, pipOk, osRelease, python).succeeded, answer)
  {
  }

  /** An os-release file whose last `ID=` line names a Debian-family
      system is served by apt (`apt update`, then `apt install`), whatever
      the other lines say. */
  lemma DebianFamilyFileUsesApt(before: seq<string>, line: string, after: seq<string>, python: string)
    requires forall i :: 0 <= i < |before| ==> IsLine(before[i])
    requires IsLine(line) && StartsWith(Strip(line), IdKey)
    requires forall i :: 0 <= i < |after| ==> IsLine(after[i])
    requires forall i :: 0 <= i < |after| ==> !StartsWith(Strip(after[i]), IdKey)
    requires '=' in Strip(line) && FieldValue(Strip(line)) in AptIds
    ensures InstallSystemPackages(Linux, false, false, Some(Terminated(before + [line] + after)), python).manager == Some(Apt)
  {
    var file := Terminated(before + [line] + after);
    LastKeyLineWins(before, line, after, IdKey);
    DetectDistroIsLastField(file);
    LinuxFollowsTable(file, FieldValue(Strip(line)), python);
  }

  /** On Linux, an id in the apt row selects apt. */
  lemma LinuxFollowsTable(file: string, id: string, python: string)
    requires DetectDistro(Some(file)).id == Some(id) && id in AptIds
    ensures InstallSystemPackages(Linux, false, false, Some(file), python).manager == Some(Apt)
  {
  }

  // ---------------------------------------------------------------------
  // The Windows user PATH
  // ---------------------------------------------------------------------

  /** The non-empty strings among `parts`, in order. */
  function NonEmpty(parts: seq<string>): (r: seq<string>)
    ensures forall i :: 0 <= i < |r| ==> r[i] != []
    ensures forall x :: x in r <==> x in parts && x != []
  {
    if parts == [] then []
    else (if parts[0] != [] then [parts[0]] else []) + NonEmpty(parts[1..])
  }

  /** `[p.strip() for p in current.split(";") if p.strip()]` */
  function PathEntries(current: string): seq<string> {
    NonEmpty(Map(Strip, Split(current, ';')))
  }

  /** `paths_equal(p, target)`: both resolve, to the same place. `resolve`
      is `Path(..).resolve()`, with nothing where it raises. */
  predicate SameDir(p: string, target: string, resolve: string -> Option<string>) {
    resolve(p).Some? && resolve(target).Some? && resolve(p).value == resolve(target).value
  }

  /** Some entry is the target folder. */
  predicate Listed(entries: seq<string>, target: string, resolve: string -> Option<string>) {
    exists i :: 0 <= i < |entries| && SameDir(entries[i], target, resolve)
  }

  /** What `add_to_windows_path` does to the user PATH value. */
  datatype PathEdit = AlreadyPresent | SetPath(value: string)

  /** The PATH edit: nothing is written when some entry is the target
      folder; otherwise the target is appended after a ';', or becomes the
      whole value when the current one is empty. `current` is "" when the
      value does not exist. */
  function WindowsPathEdit(current: string, target: string, resolve: string -> Option<string>): (r: PathEdit)
    ensures r == AlreadyPresent <==> Listed(PathEntries(current), target, resolve)
    ensures r.SetPath? && current == [] ==> r.value == target
    ensures r.SetPath? && current != [] ==> r.value == current + ";" + target
  {
    if Listed(PathEntries(current), target, resolve) then AlreadyPresent
    else if current != [] then SetPath(current + ";" + target)
    else SetPath(target)
  }

  /** A value without ';' splits into itself. */
  lemma {:induction false} SplitWithoutSeparator(s: string, sep: char)
    requires sep !in s
    ensures Split(s, sep) == [s]
  {
    if s != [] {
      SplitWithoutSeparator(s[1..], sep);
      assert s == [s[0]] + s[1..];
    }
  }

  /** After the edit, the target is one of the entries of the new value. */
  lemma TargetIsEntry(current: string, target: string)
    requires target != [] && ';' !in target && !IsSpace(target[0]) && !IsSpace(target[|target| - 1])
    ensures current != [] ==> target in PathEntries(current + ";" + target)
    ensures target in PathEntries(target)
  {
    SplitWithoutSeparator(target, ';');
    StripFixed(target);
    assert Map(Strip, [target]) == [target];
    SplitConcat(current, target, ';');
    assert current + ";" + target == current + [';'] + target;
    MapAppend(Strip, Split(current, ';'), Split(target, ';'));
    assert target in Map(Strip, Split(current, ';')) + [target];
  }

  /** Running the edit again after it wrote the value changes nothing: the
      target folder is then found among the entries. */
  lemma WindowsPathEditIdempotent(current: string, target: string, resolve: string -> Option<string>)
    requires target != [] && ';' !in target && !IsSpace(target[0]) && !IsSpace(target[|target| - 1])
    requires resolve(target).Some?
    requires WindowsPathEdit(current, target, resolve).SetPath?
    ensures WindowsPathEdit(WindowsPathEdit(current, target, resolve).value, target, resolve) == AlreadyPresent
  {
    TargetIsEntry(current, target);
    var v := WindowsPathEdit(current, target, resolve).value;
    var entries := PathEntries(v);
    var i :| 0 <= i < |entries| && entries[i] == target;
    assert SameDir(entries[i], target, resolve);
  }

  // ---------------------------------------------------------------------
  // The Unix shell profiles
  // ---------------------------------------------------------------------

  const MarkerStart := "# cubeplayer PATH - added by install.py\n"
  const MarkerEnd := "# end cubeplayer PATH\n"

  /** The line that puts `dir` at the end of the PATH. */
  function ExportLine(dir: string): string {
    "export PATH=\"$PATH:" + dir + "\"\n"
  }

  /** The block appended to a profile. */
  function FullBlock(dir: string): string {
    MarkerStart + ExportLine(dir) + MarkerEnd
  }

  /** One profile file: missing, present but unreadable, or its text and
      whether it can be opened for appending. */
  datatype Profile = Absent | Unreadable | Readable(text: string, appendable: bool)

  /** One pass of the loop of `add_to_unix_path` over a profile: the file
      afterwards, and whether it counts towards success. */
  function EditProfile(f: Profile, dir: string): (r: (Profile, bool))
    ensures r.1 <==> f.Readable? && (Contains(f.text, MarkerStart) || f.appendable)
    ensures r.0 != f ==> f.Readable? && !Contains(f.text, MarkerStart) && f.appendable
    ensures r.0 != f ==> r.0 == Readable(f.text + "\n" + FullBlock(dir), true)
    ensures r.0.Readable? ==> Contains(r.0.text, MarkerStart) || !r.1
  {
    match f
    case Absent => (f, false)
    case Unreadable => (f, false)
    case Readable(text, appendable) =>
      if Contains(text, MarkerStart) then (f, true)
      else if appendable then
        var t := text + "\n" + FullBlock(dir);
        assert t == (text + "\n") + FullBlock(dir);
        ContainsAppended(text + "\n", FullBlock(dir), MarkerStart);
        (Readable(t, true), true)
      else (f, false)
  }

  /** A second pass over a profile leaves it as the first pass left it and
      counts it as configured exactly when the first pass did. */
  lemma EditProfileIdempotent(f: Profile, dir: string)
    ensures EditProfile(EditProfile(f, dir).0, dir) == EditProfile(f, dir)
  {
  }

  /** The pass over all the profiles: the files afterwards, and whether any
      of them counts. */
  function EditProfiles(fs: seq<Profile>, dir: string): (r: (seq<Profile>, bool))
    ensures |r.0| == |fs|
    ensures forall i :: 0 <= i < |fs| ==> r.0[i] == EditProfile(fs[i], dir).0
    ensures r.1 <==> exists i :: 0 <= i < |fs| && EditProfile(fs[i], dir).1
  {
    if fs == [] then ([], false)
    else
      var first := EditProfile(fs[0], dir);
      var rest := EditProfiles(fs[1..], dir);
      assert forall i :: 1 <= i < |fs| ==> fs[i] == fs[1..][i - 1];
      ([first.0] + rest.0, first.1 || rest.1)
  }

  /** Installing twice writes nothing more the second time and reports the
      same result. */
  lemma {:induction false} EditProfilesIdempotent(fs: seq<Profile>, dir: string)
    ensures EditProfiles(EditProfiles(fs, dir).0, dir) == EditProfiles(fs, dir)
  {
    if fs != [] {
      var once := EditProfiles(fs, dir);
      EditProfileIdempotent(fs[0], dir);
      EditProfilesIdempotent(fs[1..], dir);
      assert once.0[1..] == EditProfiles(fs[1..], dir).0;
    }
  }

  /** `add_to_unix_path(dir)` over the profile files (.bashrc, .zshrc,
      .profile, .bash_profile, in that order): each is edited in place. */
  method AddToUnixPath(files: array<Profile>, dir: string) returns (addedToAny: bool)
    modifies files
    ensures files[..] == EditProfiles(old(files[..]), dir).0
    ensures addedToAny == EditProfiles(old(files[..]), dir).1
  {
    ghost var before := files[..];
    addedToAny := false;
    var i := 0;
    while i < files.Length
      invariant 0 <= i <= files.Length
      invariant forall k :: 0 <= k < i ==> files[k] == EditProfile(before[k], dir).0
      invariant forall k :: i <= k < files.Length ==> files[k] == before[k]
      invariant addedToAny <==> exists k :: 0 <= k < i && EditProfile(before[k], dir).1
    {
      var f := files[i];
      match f {
        case Absent =>
        case Unreadable =>
        case Readable(text, appendable) =>
          if Contains(text, MarkerStart) {
            addedToAny := true;
          } else if appendable {
            files[i] := Readable(text + "\n" + FullBlock(dir), true);
            addedToAny := true;
          }
      }
      assert files[i] == EditProfile(before[i], dir).0;
      i := i + 1;
    }
    assert files[..] == EditProfiles(before, dir).0;
  }
}
