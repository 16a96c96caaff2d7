/** The package-backend abstraction: which native package manager and which
    privilege-escalation tool to use, the per-backend command tables, the os-release
    reader, and the `PackageManager` object whose mutating calls run a privileged command. */
module PackageBackend {
  import opened Base
  import opened Text
  import opened Process

  /** The native package managers the program can drive. */
  datatype BackendKind = Apt | Yum | Dnf | Pacman | Zypper

  /** The executable each backend's commands start with (and the key of its command tables). */
  function Executable(b: BackendKind): string {
    match b
    case Apt => "apt"
    case Yum => "yum"
    case Dnf => "dnf"
    case Pacman => "pacman"
    case Zypper => "zypper"
  }

  const NoPackageManagerError := "No supported package manager found."
  const NoPrivilegeError := "No privilege escalation method found."

  // ---------------------------------------------------------------------------
  // Detection

  /** `_detect_package_manager`: the first of apt, yum, dnf, pacman, apt-get, zypper on PATH;
      apt-get also means the apt backend. With none of them it raises. */
  function DetectBackend(present: set<string>): (r: Outcome<BackendKind>)
    ensures r.Throw? <==> present !! {"apt", "yum", "dnf", "pacman", "apt-get", "zypper"}
    ensures r.Throw? ==> r.error == NoPackageManagerError
    ensures r.Return? ==> Executable(r.value) in present || (r.value == Apt && "apt-get" in present)
  {
    if "apt" in present then Return(Apt)
    else if "yum" in present then Return(Yum)
    else if "dnf" in present then Return(Dnf)
    else if "pacman" in present then Return(Pacman)
    else if "apt-get" in present then Return(Apt)
    else if "zypper" in present then Return(Zypper)
    else Throw(NoPackageManagerError)
  }

  /** The backend priority order as a table: executable probed, backend chosen. */
  const BackendPriority: seq<(string, BackendKind)> :=
    [("apt", Apt), ("yum", Yum), ("dnf", Dnf), ("pacman", Pacman), ("apt-get", Apt), ("zypper", Zypper)]

  /** The if-chain picks the first backend of the priority table whose executable is present,
      and raises exactly when none is. */
  lemma {:induction false} DetectBackendFollowsPriority(present: set<string>)
    ensures DetectBackend(present) ==
      match Probe(BackendPriority, present)
      case None => Throw(NoPackageManagerError)
      case Some(b) => Return(b)
  {
    var t := BackendPriority;
    ProbeCons(t, present);
    ProbeCons(t[1..], present);
    ProbeCons(t[2..], present);
    ProbeCons(t[3..], present);
    ProbeCons(t[4..], present);
    ProbeCons(t[5..], present);
    assert t[2..] == t[1..][1..] && t[3..] == t[2..][1..] && t[4..] == t[3..][1..];
    assert t[5..] == t[4..][1..] && t[5..][1..] == [];
  }

  /** `_get_privilege_command`: the first of pkexec, gksudo, kdesudo, sudo on PATH, as the
      argument prefix it needs. With none of them it raises. */
  function PrivilegeCommand(present: set<string>): (r: Outcome<seq<string>>)
    ensures r.Throw? <==> present !! {"pkexec", "gksudo", "kdesudo", "sudo"}
    ensures r.Throw? ==> r.error == NoPrivilegeError
    ensures r.Return? ==> r.value != [] && r.value[0] in present && IsPrivilegeTool(r.value[0])
  {
    if "pkexec" in present then Return(["pkexec"])
    else if "gksudo" in present then Return(["gksudo", "--"])
    else if "kdesudo" in present then Return(["kdesudo", "--"])
    else if "sudo" in present then Return(["sudo"])
    else Throw(NoPrivilegeError)
  }

  const PrivilegePriority: seq<(string, seq<string>)> :=
    [("pkexec", ["pkexec"]), ("gksudo", ["gksudo", "--"]), ("kdesudo", ["kdesudo", "--"]), ("sudo", ["sudo"])]

  /** The privilege prefix is the first present tool of the priority table, and the call raises
      exactly when none is present. Every prefix starts with the tool that was found. */
  lemma {:induction false} PrivilegeFollowsPriority(present: set<string>)
    ensures PrivilegeCommand(present) ==
      match Probe(PrivilegePriority, present)
      case None => Throw(NoPrivilegeError)
      case Some(p) => Return(p)
    ensures PrivilegeCommand(present).Return? ==>
      var p := PrivilegeCommand(present).value;
      p != [] && p[0] in present && IsPrivilegeTool(p[0])
  {
    var t := PrivilegePriority;
    ProbeCons(t, present);
    ProbeCons(t[1..], present);
    ProbeCons(t[2..], present);
    ProbeCons(t[3..], present);
    assert t[2..] == t[1..][1..] && t[3..] == t[2..][1..] && t[3..][1..] == [];
  }

  predicate IsPrivilegeTool(s: string) {
    s in {"pkexec", "gksudo", "kdesudo", "sudo"}
  }

  // ---------------------------------------------------------------------------
  // Command tables

  function InstallCommand(b: BackendKind, package: string): (r: seq<string>)
    ensures |r| >= 3 && r[0] == Executable(b) && r[|r| - 1] == package
    ensures "-y" in r || "--noconfirm" in r
  {
    match b
    case Apt => ["apt", "install", "-y", package]
    case Yum => ["yum", "install", "-y", package]
    case Dnf => ["dnf", "install", "-y", package]
    case Pacman => ["pacman", "-S", "--noconfirm", package]
    case Zypper => ["zypper", "install", "-y", package]
  }

  function UpdateCommand(b: BackendKind): (r: seq<string>)
    ensures |r| == 2 && r[0] == Executable(b)
  {
    match b
    case Apt => ["apt", "update"]
    case Yum => ["yum", "check-update"]
    case Dnf => ["dnf", "check-update"]
    case Pacman => ["pacman", "-Sy"]
    case Zypper => ["zypper", "refresh"]
  }

  function IsInstalledCommand(b: BackendKind, package: string): (r: seq<string>)
    ensures |r| == 3 && r[2] == package && !IsPrivilegeTool(r[0])
  {
    match b
    case Apt => ["dpkg", "-s", package]
    case Yum => ["rpm", "-q", package]
    case Dnf => ["rpm", "-q", package]
    case Pacman => ["pacman", "-Qi", package]
    case Zypper => ["rpm", "-q", package]
  }

  function UpgradeCommand(b: BackendKind, package: string): (r: seq<string>)
    ensures |r| >= 3 && r[0] == Executable(b) && r[|r| - 1] == package
    ensures "-y" in r || "--noconfirm" in r
  {
    match b
    case Apt => ["apt", "install", "--only-upgrade", "-y", package]
    case Yum => ["yum", "update", "-y", package]
    case Dnf => ["dnf", "upgrade", "-y", package]
    case Pacman => ["pacman", "-S", "--noconfirm", package]
    case Zypper => ["zypper", "update", "-y", package]
  }

  function RemoveCommand(b: BackendKind, package: string): (r: seq<string>)
    ensures |r| >= 3 && r[0] == Executable(b) && r[|r| - 1] == package
    ensures "-y" in r || "--noconfirm" in r
    ensures r != InstallCommand(b, package)
  {
    match b
    case Apt => ["apt", "remove", "-y", package]
    case Yum => ["yum", "remove", "-y", package]
    case Dnf => ["dnf", "remove", "-y", package]
    case Pacman => ["pacman", "-R", "--noconfirm", package]
    case Zypper => ["zypper", "remove", "-y", package]
  }

  function CleanupCommand(b: BackendKind, package: string): (r: seq<string>)
    ensures |r| >= 3 && r[0] == Executable(b) && r[|r| - 1] == package
    ensures "-y" in r || "--noconfirm" in r
    ensures r != RemoveCommand(b, package)
  {
    match b
    case Apt => ["apt", "autoremove", "-y", package]
    case Yum => ["yum", "autoremove", "-y", package]
    case Dnf => ["dnf", "autoremove", "-y", package]
    case Pacman => ["pacman", "-Rns", "--noconfirm", package]
    case Zypper => ["zypper", "autoremove", "-y", package]
  }

  /** Every mutating template starts with the backend's own executable and ends with the
      package it acts on. */
  lemma MutatingCommandsShape(b: BackendKind, package: string)
    ensures var cmds := [InstallCommand(b, package), UpgradeCommand(b, package),
                         RemoveCommand(b, package), CleanupCommand(b, package)];
      forall k :: 0 <= k < |cmds| ==>
        |cmds[k]| >= 3 && cmds[k][0] == Executable(b) && cmds[k][|cmds[k]| - 1] == package
    ensures |UpdateCommand(b)| == 2 && UpdateCommand(b)[0] == Executable(b)
  {
  }

  /** The installed-check is a different command from the install command, never starts with a
      privilege tool, and so differs from every privileged install command as well. */
  lemma QueryNeverEscalates(b: BackendKind, package: string, present: set<string>)
    ensures IsInstalledCommand(b, package) != InstallCommand(b, package)
    ensures !IsPrivilegeTool(IsInstalledCommand(b, package)[0])
    ensures PrivilegeCommand(present).Return? ==>
      IsInstalledCommand(b, package) != PrivilegeCommand(present).value + InstallCommand(b, package)
  {
    PrivilegeFollowsPriority(present);
    if PrivilegeCommand(present).Return? {
      var full := PrivilegeCommand(present).value + InstallCommand(b, package);
      assert full[0] == PrivilegeCommand(present).value[0];
    }
  }

  // ---------------------------------------------------------------------------
  // The os-release reader

  /** The operating-system record the program keeps. */
  datatype DistroInfo = DistroInfo(id: string, name: string, version: string, idLike: seq<string>)

  const DefaultDistro := DistroInfo("unknown", "Unknown", "", [])

  /** The text before the first `=` of `s` and the text after it (all of `s`, and nothing,
      when there is no `=`). */
  function SplitAtFirst(s: string, c: char): (r: (string, string))
    ensures c in s ==> c !in r.0 && s == r.0 + [c] + r.1
    ensures c !in s ==> r == (s, "")
  {
    if s == [] then ("", "")
    else if s[0] == c then ("", s[1..])
    else
      var (a, b) := SplitAtFirst(s[1..], c);
      assert s == [s[0]] + s[1..];
      ([s[0]] + a, b)
  }

  /** The key a line of os-release defines: `line.strip().split("=", 1)[0]`. */
  function KeyOf(line: string): string {
    SplitAtFirst(Strip(line), '=').0
  }

  /** The value it gives it: the rest after the first `=`, with surrounding `"` removed. */
  function ValueOf(line: string): string {
    StripChars(SplitAtFirst(Strip(line), '=').1, IsQuote)
  }

  predicate IsQuote(c: char) { c == '"' }

  /** What one line contributes to the dictionary: nothing unless it contains `=`. */
  function LineEntry(line: string): Option<(string, string)> {
    if '=' in line then Some((KeyOf(line), ValueOf(line))) else None
  }

  /** The line assigns the key `k`. */
  predicate Defines(line: string, k: string) {
    LineEntry(line).Some? && LineEntry(line).value.0 == k
  }

  function LineEntries(lines: seq<string>): (r: seq<Option<(string, string)>>)
    ensures |r| == |lines|
  {
    seq(|lines|, i requires 0 <= i < |lines| => LineEntry(lines[i]))
  }

  /** The dictionary `_detect_distro` fills, line by line, a later line overriding an earlier one. */
  function OsReleaseEntries(lines: seq<string>): map<string, string> {
    Assign(LineEntries(lines))
  }

  /** The dictionary that results from a sequence of optional assignments made in order. */
  function Assign<K, V>(es: seq<Option<(K, V)>>): map<K, V>
    decreases |es|
  {
    if es == [] then map[]
    else
      var info := Assign(es[..|es| - 1]);
      match es[|es| - 1]
      case None => info
      case Some((k, v)) => info[k := v]
  }

  /** `es[i]` assigns the key `k`. */
  predicate Assigns<K(==), V>(es: seq<Option<(K, V)>>, i: nat, k: K)
    requires i < |es|
  {
    es[i].Some? && es[i].value.0 == k
  }

  /** A key is in the dictionary exactly when some assignment sets it, and its value is the
      one given by the last assignment that does. */
  lemma {:induction false} AssignLastWins<K, V>(es: seq<Option<(K, V)>>, k: K)
    ensures k in Assign(es) <==> exists i :: 0 <= i < |es| && Assigns(es, i, k)
    ensures k in Assign(es) ==>
      exists i :: 0 <= i < |es| && Assigns(es, i, k) && Assign(es)[k] == es[i].value.1 &&
        forall j :: i < j < |es| ==> !Assigns(es, j, k)
    decreases |es|
  {
    if es != [] {
      var n := |es| - 1;
      var front := es[..n];
      AssignLastWins(front, k);
      assert forall i :: 0 <= i < n ==> (Assigns(front, i, k) <==> Assigns(es, i, k));
      if Assigns(es, n, k) {
        assert Assign(es)[k] == es[n].value.1;
      } else if k in Assign(es) {
        var i :| 0 <= i < n && Assigns(front, i, k) && Assign(front)[k] == front[i].value.1 &&
          forall j :: i < j < n ==> !Assigns(front, j, k);
        assert Assigns(es, i, k);
      }
    }
  }

  /** `info.get(k, default)`. */
  function Get(info: map<string, string>, k: string, default: string): string {
    if k in info then info[k] else default
  }

  /** The record built from the dictionary: missing keys take their defaults, and ID_LIKE is
      split at whitespace. */
  function DistroOf(info: map<string, string>): DistroInfo {
    DistroInfo(Get(info, "ID", "unknown"), Get(info, "NAME", "Unknown"),
               Get(info, "VERSION_ID", ""), Words(Get(info, "ID_LIKE", "")))
  }

  /** What `_detect_distro` makes of the file: the record parsed from its text, the defaults
      when it is missing, and any other read error escapes. */
  function DistroFrom(osRelease: FileRead): (r: Outcome<DistroInfo>)
    ensures r.Throw? <==> osRelease.Unreadable?
    ensures osRelease.Unreadable? ==> r.error == osRelease.error
  {
    match osRelease
    case Missing => Return(DefaultDistro)
    case Unreadable(e) => Throw(e)
    case Read(text) => Return(DistroOf(OsReleaseEntries(Lines(text))))
  }

  /** For the os-release file: a key is present exactly when some line defines it, and its
      value comes from the last line that does. */
  lemma OsReleaseLastWins(lines: seq<string>, k: string)
    ensures k in OsReleaseEntries(lines) <==> exists i :: 0 <= i < |lines| && Defines(lines[i], k)
    ensures k in OsReleaseEntries(lines) ==>
      exists i :: 0 <= i < |lines| && Defines(lines[i], k) &&
        OsReleaseEntries(lines)[k] == LineEntry(lines[i]).value.1 &&
        forall j :: i < j < |lines| ==> !Defines(lines[j], k)
  {
    var es := LineEntries(lines);
    AssignLastWins(es, k);
    assert forall i :: 0 <= i < |lines| ==> (Assigns(es, i, k) <==> Defines(lines[i], k));
  }

  /** With the file missing, or with none of the keys defined, every field takes its default. */
  lemma DistroDefaults(osRelease: FileRead)
    ensures osRelease.Missing? ==> DistroFrom(osRelease) == Return(DistroInfo("unknown", "Unknown", "", []))
    ensures osRelease.Read? ==>
      var lines := Lines(osRelease.text);
      (forall i :: 0 <= i < |lines| ==> !Defines(lines[i], "ID")) ==> DistroFrom(osRelease).value.id == "unknown"
    ensures osRelease.Read? ==>
      var lines := Lines(osRelease.text);
      (forall i :: 0 <= i < |lines| ==> !Defines(lines[i], "ID_LIKE")) ==> DistroFrom(osRelease).value.idLike == []
  {
    if osRelease.Read? {
      var lines := Lines(osRelease.text);
      OsReleaseLastWins(lines, "ID");
      OsReleaseLastWins(lines, "ID_LIKE");
      assert Words("") == [];
    }
  }

  /** Reading one more line assigns its key, if it has one, on top of what came before. */
  lemma OsReleaseStep(lines: seq<string>, i: nat)
    requires i < |lines|
    ensures OsReleaseEntries(lines[..i + 1]) ==
      if '=' in lines[i] then OsReleaseEntries(lines[..i])[KeyOf(lines[i]) := ValueOf(lines[i])]
      else OsReleaseEntries(lines[..i])
  {
    assert LineEntries(lines[..i + 1])[..i] == LineEntries(lines[..i]);
  }

  /** `_detect_distro`: read the lines of the file into a dictionary, then build the record;
      only a missing file is caught. */
  method DetectDistro(osRelease: FileRead) returns (r: Outcome<DistroInfo>)
    ensures r == DistroFrom(osRelease)
  {
    match osRelease {
      case Missing => return Return(DefaultDistro);
      case Unreadable(e) => return Throw(e);
      case Read(_) =>
    }
    var lines := Lines(osRelease.text);
    var info: map<string, string> := map[];
    var i := 0;
    while i < |lines|
      invariant 0 <= i <= |lines|
      invariant info == OsReleaseEntries(lines[..i])
    {
      OsReleaseStep(lines, i);
      var line := lines[i];
      if '=' in line {
        var (key, value) := SplitAtFirst(Strip(line), '=');
        info := info[key := StripChars(value, IsQuote)];
      }
      i := i + 1;
    }
    assert lines[..|lines|] == lines;
    r := Return(DistroOf(info));
  }

  // ---------------------------------------------------------------------------
  // The PackageManager object

  /** What one mutating call did to the host: with no privilege tool on PATH it ran nothing
      and raised; otherwise it ran the prefix followed by `cmd` once, and its result is the
      checked exit status of that process. */
  ghost predicate PrivilegedRun(host: Host, before: seq<Invocation>, cmd: seq<string>, r: Outcome<bool>)
    reads host
  {
    match PrivilegeCommand(host.path(|before|))
    case Throw(e) => r == Throw(e) && host.log == before
    case Return(prefix) =>
      var inv := Invocation(prefix + cmd, Inherited);
      host.log == before + [inv] && r == Checked(host.respond(|before|, inv))
  }

  /** The backend is chosen once, when the object is made, and the distribution record read
      once; neither changes afterwards. */
  class PackageManager {
    const manager: BackendKind
    const distro: DistroInfo

    constructor (manager: BackendKind, distro: DistroInfo)
      ensures this.manager == manager && this.distro == distro
    {
      this.manager := manager;
      this.distro := distro;
    }

    /** `PackageManager()`: detect the backend (raising when there is none), then read the
        os-release file (raising when it exists but cannot be read). No process is run. */
    static method Open(host: Host, osRelease: FileRead) returns (r: Outcome<PackageManager>)
      ensures DetectBackend(host.OnPath()).Throw? ==> r == Throw(DetectBackend(host.OnPath()).error)
      ensures DetectBackend(host.OnPath()).Return? && osRelease.Unreadable? ==> r == Throw(osRelease.error)
      ensures DetectBackend(host.OnPath()).Return? && !osRelease.Unreadable? ==>
        r.Return? && fresh(r.value) &&
        r.value.manager == DetectBackend(host.OnPath()).value && r.value.distro == DistroFrom(osRelease).value
    {
      var b := DetectBackend(host.OnPath());
      if b.Throw? {
        return Throw(b.error);
      }
      var d := DetectDistro(osRelease);
      if d.Throw? {
        return Throw(d.error);
      }
      var pm := new PackageManager(b.value, d.value);
      r := Return(pm);
    }

    /** The shared body of the mutating calls: look up the privilege prefix afresh, run it with
        `cmd`, and report whether the process exited with status 0. */
    method RunPrivileged(host: Host, cmd: seq<string>) returns (r: Outcome<bool>)
      modifies host
      ensures PrivilegedRun(host, old(host.log), cmd, r)
    {
      var prefix := PrivilegeCommand(host.OnPath());
      if prefix.Throw? {
        return Throw(prefix.error);
      }
      var c := host.Run(prefix.value + cmd, Inherited);
      r := Checked(c);
    }

    method Install(host: Host, package: string) returns (r: Outcome<bool>)
      modifies host
      ensures PrivilegedRun(host, old(host.log), InstallCommand(manager, package), r)
    {
      r := RunPrivileged(host, InstallCommand(manager, package));
    }

    method Update(host: Host) returns (r: Outcome<bool>)
      modifies host
      ensures PrivilegedRun(host, old(host.log), UpdateCommand(manager), r)
    {
      r := RunPrivileged(host, UpdateCommand(manager));
    }

    method Upgrade(host: Host, package: string) returns (r: Outcome<bool>)
      modifies host
      ensures PrivilegedRun(host, old(host.log), UpgradeCommand(manager, package), r)
    {
      r := RunPrivileged(host, UpgradeCommand(manager, package));
    }

    method Remove(host: Host, package: string) returns (r: Outcome<bool>)
      modifies host
      ensures PrivilegedRun(host, old(host.log), RemoveCommand(manager, package), r)
    {
      r := RunPrivileged(host, RemoveCommand(manager, package));
    }

    method Cleanup(host: Host, package: string) returns (r: Outcome<bool>)
      modifies host
      ensures PrivilegedRun(host, old(host.log), CleanupCommand(manager, package), r)
    {
      r := RunPrivileged(host, CleanupCommand(manager, package));
    }

    /** `is_installed`: run the backend's query without any privilege prefix. */
    method IsInstalled(host: Host, package: string) returns (r: Outcome<bool>)
      modifies host
      ensures host.log == old(host.log) + [Invocation(IsInstalledCommand(manager, package), Inherited)]
      ensures r == Checked(host.respond(|old(host.log)|, Invocation(IsInstalledCommand(manager, package), Inherited)))
    {
      var c := host.Run(IsInstalledCommand(manager, package), Inherited);
      r := Checked(c);
    }
  }
}
