/** The dashboard's system facts: the package manager's display name, the operating system's
    pretty name, and the package counters read off the standard output of the native tools. */
module Home {
  import opened Base
  import opened Text
  import opened Process
  import opened PackageBackend

  // ---------------------------------------------------------------------------
  // The package manager's display name

  /** The tools `detect_package_manager` probes, in order, with their display names. */
  const DisplayManagers: seq<(string, string)> :=
    [("pacman", "Pacman"), ("apt", "APT"), ("dnf", "DNF"), ("yum", "YUM"), ("zypper", "Zypper"), ("emerge", "Portage")]

  const UnknownManager := "Unknown"

  /** `detect_package_manager`: the display name of the first tool on PATH, else "Unknown". */
  function DetectPackageManager(present: set<string>): (r: string)
    ensures r == UnknownManager ||
      exists j :: 0 <= j < |DisplayManagers| && DisplayManagers[j].0 in present && DisplayManagers[j].1 == r
  {
    match Probe(DisplayManagers, present)
    case None => UnknownManager
    case Some(name) => name
  }

  /** "Unknown" exactly when none of the six tools is on PATH; otherwise the display name of
      the first one that is. */
  lemma DetectPackageManagerMeaning(present: set<string>)
    ensures DetectPackageManager(present) == UnknownManager <==>
      forall j :: 0 <= j < |DisplayManagers| ==> DisplayManagers[j].0 !in present
    ensures forall i :: (0 <= i < |DisplayManagers| && DisplayManagers[i].0 in present &&
                         (forall j :: 0 <= j < i ==> DisplayManagers[j].0 !in present)) ==>
      DetectPackageManager(present) == DisplayManagers[i].1
  {
    var t := DisplayManagers;
    match FirstPresent(t, present)
    case None =>
    case Some(k) =>
      assert t[k].1 in {"Pacman", "APT", "DNF", "YUM", "Zypper", "Portage"};
  }

  /** The dashboard probes pacman before apt while the backend probes apt first, so a system
      with both shows "Pacman" but drives apt. */
  lemma DisplayOrderDiffersFromBackend()
    ensures DetectPackageManager({"apt", "pacman"}) == "Pacman"
    ensures DetectBackend({"apt", "pacman"}) == Return(Apt)
  {
    ProbeCons(DisplayManagers, {"apt", "pacman"});
  }

  // ---------------------------------------------------------------------------
  // The operating system's name

  const PrettyKey := "PRETTY_NAME="

  /** The first line that starts with "PRETTY_NAME=". */
  function PrettyLine(lines: seq<string>): (r: Option<string>)
    ensures r.None? <==> forall k :: 0 <= k < |lines| ==> !StartsWith(lines[k], PrettyKey)
    ensures r.Some? ==> StartsWith(r.value, PrettyKey) && r.value in lines
  {
    if lines == [] then None
    else if StartsWith(lines[0], PrettyKey) then Some(lines[0])
    else PrettyLine(lines[1..])
  }

  /** A "PRETTY_NAME=" line has at least two '='-separated fields. */
  lemma PrettyFields(line: string)
    requires StartsWith(line, PrettyKey)
    ensures |SplitOn(line, '=')| >= 2
    ensures SplitOn(line, '=')[1] == SplitOn(line[|PrettyKey|..], '=')[0]
  {
    var key := "PRETTY_NAME";
    assert '=' !in key;
    assert line == key + ['='] + line[|PrettyKey|..];
    SplitOnConcat(key, line[|PrettyKey|..], '=');
  }

  predicate IsQuote(c: char) { c == '"' }

  /** `line.split("=")[1].strip().strip('"')`. */
  function PrettyValue(line: string): (r: string)
    requires StartsWith(line, PrettyKey)
    ensures '=' !in r
  {
    PrettyFields(line);
    SplitOnPieces(line, '=');
    StripCharsKeepsOut(SplitOn(line, '=')[1], IsSpace, '=');
    StripCharsKeepsOut(Strip(SplitOn(line, '=')[1]), IsQuote, '=');
    StripChars(Strip(SplitOn(line, '=')[1]), IsQuote)
  }

  /** `get_os_info`, given the contents of /etc/os-release (None when it cannot be read) and
      what `platform.system()` returns. */
  function OsInfo(osRelease: Option<string>, system: string): (r: string)
    ensures osRelease.None? ==> r == system
    ensures osRelease.Some? && PrettyLine(Lines(osRelease.value)).None? ==> r == system
    ensures r == system || '=' !in r
  {
    match osRelease
    case None => system
    case Some(text) =>
      match PrettyLine(Lines(text))
      case None => system
      case Some(line) => PrettyValue(line)
  }

  /** Stripping characters keeps a character out if it was not there. */
  lemma StripCharsKeepsOut(s: string, drop: char -> bool, c: char)
    requires c !in s
    ensures c !in StripChars(s, drop)
  {
    var r := TrimStart(s, drop);
    TrimStartSpec(s, drop);
    TrimEndSpec(r, drop);
    assert forall i :: 0 <= i < |r| ==> r[i] == s[|s| - |r| + i];
  }

  /** The name is cut at the first '=' after the key: it never holds a '='. */
  lemma OsInfoHasNoEquals(text: string, system: string)
    requires PrettyLine(Lines(text)).Some?
    ensures '=' !in OsInfo(Some(text), system)
  {
    var line := PrettyLine(Lines(text)).value;
    PrettyFields(line);
    var field := SplitOn(line, '=')[1];
    SplitOnPieces(line, '=');
    StripCharsKeepsOut(field, IsSpace, '=');
    StripCharsKeepsOut(Strip(field), IsQuote, '=');
  }

  /** Lines that do not start with the key are passed over. */
  lemma {:induction false} PrettyLineSkips(before: seq<string>, rest: seq<string>)
    requires forall k :: 0 <= k < |before| ==> !StartsWith(before[k], PrettyKey)
    ensures PrettyLine(before + rest) == PrettyLine(rest)
  {
    if before != [] {
      assert (before + rest)[0] == before[0] && (before + rest)[1..] == before[1..] + rest;
      assert !StartsWith((before + rest)[0], PrettyKey);
      PrettyLineSkips(before[1..], rest);
      assert PrettyLine(before + rest) == PrettyLine(before[1..] + rest);
    } else {
      assert before + rest == rest;
    }
  }

  /** A quoted value without '"' or '=' reads back without its quotes. */
  lemma QuotedValue(name: string)
    requires name != [] && '"' !in name && '=' !in name
    ensures var q := "\"" + name + "\"";
      SplitOn(q, '=') == [q] && Strip(q) == q && StripChars(q, IsQuote) == name
  {
    var q := "\"" + name + "\"";
    assert '=' !in q;
    SplitOnPiece(q, '=');
    StripUnchanged(q);
    assert q[1..] == name + "\"" && !IsQuote(name[0]);
    assert TrimStart(q, IsQuote) == name + "\"";
    assert (name + "\"")[..|name|] == name && !IsQuote(name[|name| - 1]);
    assert TrimEnd(name + "\"", IsQuote) == name;
  }

  /** The value of a PRETTY_NAME line with a quoted name is the name. */
  lemma PrettyValueOfQuoted(name: string)
    requires name != [] && '"' !in name && '=' !in name
    ensures StartsWith(PrettyKey + "\"" + name + "\"", PrettyKey)
    ensures PrettyValue(PrettyKey + "\"" + name + "\"") == name
  {
    var q := "\"" + name + "\"";
    var line := PrettyKey + q;
    assert PrettyKey + "\"" + name + "\"" == line;
    assert line[..|PrettyKey|] == PrettyKey;
    PrettyFields(line);
    assert line[|PrettyKey|..] == q;
    QuotedValue(name);
    assert SplitOn(line, '=')[1] == q;
  }

  /** The lines of an os-release file written line by line. */
  lemma LinesOfFile(lines: seq<string>)
    requires |lines| >= 1 && forall k :: 0 <= k < |lines| ==> '\n' !in lines[k]
    ensures Lines(Join("\n", lines)) == lines
  {
    SplitOnJoin(lines, '\n');
  }

  lemma KeyHasNoNewline()
    ensures '\n' !in PrettyKey
  {
  }

  /** The lines around the PRETTY_NAME line, and that line, hold no newline. */
  lemma NoNewlines(before: seq<string>, line: string, after: seq<string>)
    requires forall k :: 0 <= k < |before| ==> '\n' !in before[k]
    requires forall k :: 0 <= k < |after| ==> '\n' !in after[k]
    requires '\n' !in line
    ensures forall k :: 0 <= k < |before + [line] + after| ==> '\n' !in (before + [line] + after)[k]
  {
    var lines := before + [line] + after;
    forall k | 0 <= k < |lines|
      ensures '\n' !in lines[k]
    {
      if k < |before| {
        assert lines[k] == before[k];
      } else if k > |before| {
        assert lines[k] == after[k - |before| - 1];
      }
    }
  }

  /** The first PRETTY_NAME line after lines without the key is that line. */
  lemma FirstPrettyLine(before: seq<string>, line: string, after: seq<string>)
    requires forall k :: 0 <= k < |before| ==> !StartsWith(before[k], PrettyKey)
    requires StartsWith(line, PrettyKey)
    ensures PrettyLine(before + [line] + after) == Some(line)
  {
    ConcatAssoc(before, [line], after);
    PrettyLineSkips(before, [line] + after);
    assert ([line] + after)[0] == line;
  }

  /** The OS name comes from the first PRETTY_NAME line of the file. */
  lemma OsInfoOfLine(text: string, line: string, system: string)
    requires PrettyLine(Lines(text)) == Some(line)
    ensures StartsWith(line, PrettyKey) && OsInfo(Some(text), system) == PrettyValue(line)
  {
  }

  /** An os-release file whose first PRETTY_NAME line holds a quoted name yields that name. */
  lemma OsInfoRoundTrip(before: seq<string>, name: string, after: seq<string>, system: string)
    requires forall k :: 0 <= k < |before| ==> !StartsWith(before[k], PrettyKey) && '\n' !in before[k]
    requires forall k :: 0 <= k < |after| ==> '\n' !in after[k]
    requires name != [] && '"' !in name && '=' !in name && '\n' !in name
    ensures OsInfo(Some(Join("\n", before + [PrettyKey + "\"" + name + "\""] + after)), system) == name
  {
    var line := PrettyKey + "\"" + name + "\"";
    var lines := before + [line] + after;
    KeyHasNoNewline();
    NoNewlines(before, line, after);
    LinesOfFile(lines);
    PrettyValueOfQuoted(name);
    FirstPrettyLine(before, line, after);
    OsInfoOfLine(Join("\n", lines), line, system);
  }

  // ---------------------------------------------------------------------------
  // Counting lines of output

  /** `len([l for l in lines if keep(l)])`. */
  function CountLines(lines: seq<string>, keep: string -> bool): (n: nat)
    ensures n <= |lines|
  {
    if lines == [] then 0 else (if keep(lines[0]) then 1 else 0) + CountLines(lines[1..], keep)
  }

  predicate NonEmpty(l: string) { l != [] }

  predicate Installed(l: string) { StartsWith(l, "ii") }

  predicate NamesARelease(l: string) { '/' in l }

  /** `len([l for l in out.strip().split('\n') if l])`: pacman -Q and rpm -qa. */
  function NonEmptyCount(out: string): (r: nat)
    ensures r <= |SplitOn(Strip(out), '\n')|
    ensures Strip(out) == [] ==> r == 0
  {
    assert Strip(out) == [] ==> SplitOn(Strip(out), '\n') == [""];
    CountLines(SplitOn(Strip(out), '\n'), NonEmpty)
  }

  /** The same count behind `if out.strip() else 0`: pacman -Qu and pacman -Qm. */
  function GuardedCount(out: string): (r: nat)
    ensures r == NonEmptyCount(out)
  {
    if Strip(out) != [] then NonEmptyCount(out) else 0
  }

  /** `len([l for l in out.split('\n') if l.startswith('ii')])`: dpkg -l. */
  function DpkgCount(out: string): (r: nat)
    ensures r <= |SplitOn(out, '\n')|
    ensures out == [] ==> r == 0
  {
    assert out == [] ==> SplitOn(out, '\n') == [""];
    CountLines(SplitOn(out, '\n'), Installed)
  }

  /** `len([l for l in out.split('\n') if '/' in l])`: apt list --upgradable. */
  function UpgradableCount(out: string): (r: nat)
    ensures r <= |SplitOn(out, '\n')|
    ensures out == [] ==> r == 0
  {
    assert out == [] ==> SplitOn(out, '\n') == [""];
    CountLines(SplitOn(out, '\n'), NamesARelease)
  }

  /** A count over the lines of a text counts the joined lines that pass. */
  lemma CountLinesJoin(lines: seq<string>, keep: string -> bool)
    requires |lines| >= 1 && forall k :: 0 <= k < |lines| ==> '\n' !in lines[k]
    ensures CountLines(SplitOn(Join("\n", lines), '\n'), keep) == CountLines(lines, keep)
  {
    SplitOnJoin(lines, '\n');
  }

  lemma {:induction false} CountLinesAll(lines: seq<string>, keep: string -> bool)
    requires forall k :: 0 <= k < |lines| ==> keep(lines[k])
    ensures CountLines(lines, keep) == |lines|
  {
    if lines != [] {
      CountLinesAll(lines[1..], keep);
    }
  }

  /** A listing as the tools print it: one non-empty line per package, each starting and
      ending with a non-blank character. */
  predicate Listing(rows: seq<string>) {
    forall k :: 0 <= k < |rows| ==>
      rows[k] != [] && '\n' !in rows[k] && !IsSpace(rows[k][0]) && !IsSpace(rows[k][|rows[k]| - 1])
  }

  /** The first and last characters of joined rows are those of the first and last rows. */
  lemma {:induction false} JoinEnds(rows: seq<string>)
    requires rows != [] && Listing(rows)
    ensures var j := Join("\n", rows);
      j != [] && j[0] == rows[0][0] && j[|j| - 1] == rows[|rows| - 1][|rows[|rows| - 1]| - 1]
  {
    if |rows| > 1 {
      JoinEnds(rows[1..]);
      var tail := Join("\n", rows[1..]);
      assert Join("\n", rows) == rows[0] + "\n" + tail;
    }
  }

  /** Stripping a listing followed by its final newline gives the joined rows back. */
  lemma StripListing(rows: seq<string>)
    requires rows != [] && Listing(rows)
    ensures Strip(Join("\n", rows) + "\n") == Join("\n", rows)
  {
    var j := Join("\n", rows);
    JoinEnds(rows);
    assert TrimStart(j + "\n", IsSpace) == j + "\n";
    assert (j + "\n")[..|j|] == j;
    assert TrimEnd(j + "\n", IsSpace) == TrimEnd(j, IsSpace) == j;
  }

  /** The installed and pending counts of a printed listing are its number of rows. */
  lemma ListingCount(rows: seq<string>)
    requires Listing(rows)
    ensures NonEmptyCount(Join("\n", rows) + "\n") == |rows|
    ensures GuardedCount(Join("\n", rows) + "\n") == |rows|
  {
    var out := Join("\n", rows) + "\n";
    if rows == [] {
      assert Strip(out) == [] by {
        assert out == "\n";
        assert TrimStart("\n", IsSpace) == TrimStart([], IsSpace) == [];
      }
    } else {
      RowsCount(rows);
    }
  }

  /** A listing of at least one row counts its rows. */
  lemma RowsCount(rows: seq<string>)
    requires Listing(rows) && rows != []
    ensures NonEmptyCount(Join("\n", rows) + "\n") == |rows|
  {
    StripListing(rows);
    CountLinesJoin(rows, NonEmpty);
    CountLinesAll(rows, NonEmpty);
  }

  /** dpkg -l: exactly the printed lines that start with "ii" count. */
  lemma DpkgCountMeaning(rows: seq<string>)
    requires |rows| >= 1 && forall k :: 0 <= k < |rows| ==> '\n' !in rows[k]
    ensures DpkgCount(Join("\n", rows)) == CountLines(rows, Installed)
  {
    CountLinesJoin(rows, Installed);
  }

  /** apt list --upgradable: exactly the printed lines that hold a '/' count, so the
      "Listing..." header does not. */
  lemma UpgradableCountMeaning(rows: seq<string>)
    requires |rows| >= 1 && forall k :: 0 <= k < |rows| ==> '\n' !in rows[k]
    ensures UpgradableCount(Join("\n", rows)) == CountLines(rows, NamesARelease)
  {
    CountLinesJoin(rows, NamesARelease);
  }

  // ---------------------------------------------------------------------------
  // The counters

  /** The standard output of a run, or nothing when launching it raised. */
  function Stdout(c: Completion): Option<string> {
    match c
    case Exited(_, out) => Some(out)
    case Raised(_) => None
  }

  /** `get_installed_packages_count`: pacman, else dpkg, else rpm; 0 without any of them or
      when the run raised. `run` gives the completion of each command. */
  function InstalledPackagesCount(present: set<string>, run: seq<string> -> Completion): (r: nat)
    ensures present !! {"pacman", "dpkg", "rpm"} ==> r == 0
  {
    if "pacman" in present then
      match Stdout(run(["pacman", "-Q"])) case None => 0 case Some(out) => NonEmptyCount(out)
    else if "dpkg" in present then
      match Stdout(run(["dpkg", "-l"])) case None => 0 case Some(out) => DpkgCount(out)
    else if "rpm" in present then
      match Stdout(run(["rpm", "-qa"])) case None => 0 case Some(out) => NonEmptyCount(out)
    else 0
  }

  /** `get_available_updates_count`: pacman -Qu, else apt list --upgradable; else 0. */
  function AvailableUpdatesCount(present: set<string>, run: seq<string> -> Completion): (r: nat)
    ensures present !! {"pacman", "apt"} ==> r == 0
  {
    if "pacman" in present then
      match Stdout(run(["pacman", "-Qu"])) case None => 0 case Some(out) => GuardedCount(out)
    else if "apt" in present then
      match Stdout(run(["apt", "list", "--upgradable"])) case None => 0 case Some(out) => UpgradableCount(out)
    else 0
  }

  /** `get_aur_packages_count`: pacman -Qm; else 0. */
  function AurPackagesCount(present: set<string>, run: seq<string> -> Completion): (r: nat)
    ensures "pacman" !in present ==> r == 0
  {
    if "pacman" in present then
      match Stdout(run(["pacman", "-Qm"])) case None => 0 case Some(out) => GuardedCount(out)
    else 0
  }

  /** With pacman on PATH the installed count is the number of packages `pacman -Q` lists,
      whatever its exit status. */
  lemma PacmanInstalledCount(present: set<string>, run: seq<string> -> Completion, rows: seq<string>)
    requires "pacman" in present && Listing(rows)
    requires run(["pacman", "-Q"]).Exited? && run(["pacman", "-Q"]).stdout == Join("\n", rows) + "\n"
    ensures InstalledPackagesCount(present, run) == |rows|
  {
    ListingCount(rows);
  }

  /** With pacman on PATH the updates count is the number of packages `pacman -Qu` lists. */
  lemma PacmanUpdatesCount(present: set<string>, run: seq<string> -> Completion, rows: seq<string>)
    requires "pacman" in present && Listing(rows)
    requires run(["pacman", "-Qu"]).Exited? && run(["pacman", "-Qu"]).stdout == Join("\n", rows) + "\n"
    ensures AvailableUpdatesCount(present, run) == |rows|
  {
    ListingCount(rows);
  }

  /** With pacman on PATH the AUR count is the number of foreign packages `pacman -Qm` lists. */
  lemma PacmanAurCount(present: set<string>, run: seq<string> -> Completion, rows: seq<string>)
    requires "pacman" in present && Listing(rows)
    requires run(["pacman", "-Qm"]).Exited? && run(["pacman", "-Qm"]).stdout == Join("\n", rows) + "\n"
    ensures AurPackagesCount(present, run) == |rows|
  {
    ListingCount(rows);
  }

  /** Without pacman, dpkg lists the packages: the installed count is its "ii" rows. */
  lemma DpkgInstalledCount(present: set<string>, run: seq<string> -> Completion, rows: seq<string>)
    requires "pacman" !in present && "dpkg" in present
    requires |rows| >= 1 && forall k :: 0 <= k < |rows| ==> '\n' !in rows[k]
    requires run(["dpkg", "-l"]).Exited? && run(["dpkg", "-l"]).stdout == Join("\n", rows)
    ensures InstalledPackagesCount(present, run) == CountLines(rows, Installed)
  {
    DpkgCountMeaning(rows);
  }

  /** Without pacman and dpkg, rpm lists the packages: the installed count is the number of
      packages `rpm -qa` lists. */
  lemma RpmInstalledCount(present: set<string>, run: seq<string> -> Completion, rows: seq<string>)
    requires "pacman" !in present && "dpkg" !in present && "rpm" in present && Listing(rows)
    requires run(["rpm", "-qa"]).Exited? && run(["rpm", "-qa"]).stdout == Join("\n", rows) + "\n"
    ensures InstalledPackagesCount(present, run) == |rows|
  {
    ListingCount(rows);
  }

  /** Without pacman, apt lists the upgrades: the updates count is the number of printed
      lines holding `/`. */
  lemma AptUpdatesCount(present: set<string>, run: seq<string> -> Completion, rows: seq<string>)
    requires "pacman" !in present && "apt" in present
    requires |rows| >= 1 && forall k :: 0 <= k < |rows| ==> '\n' !in rows[k]
    requires run(["apt", "list", "--upgradable"]).Exited? && run(["apt", "list", "--upgradable"]).stdout == Join("\n", rows)
    ensures AvailableUpdatesCount(present, run) == CountLines(rows, NamesARelease)
  {
    UpgradableCountMeaning(rows);
  }

  /** Without the tools, or when launching them raises, every counter shows 0. */
  lemma CountersFallBack(present: set<string>, run: seq<string> -> Completion)
    requires forall argv :: run(argv).Raised? || ("pacman" !in present && "dpkg" !in present && "rpm" !in present && "apt" !in present)
    ensures InstalledPackagesCount(present, run) == 0
    ensures AvailableUpdatesCount(present, run) == 0
    ensures AurPackagesCount(present, run) == 0
  {
  }
}
