/** The AUR manager: which AUR helper is active, bootstrapping a helper from its AUR
    recipe, removing it, the package operations that go through the active helper, and the
    parsers for `<helper> -Ss` and `pacman -Qm` output. */
module AurManager {
  import opened Base
  import opened Text
  import opened Process

  // ---------------------------------------------------------------------------
  // The supported helpers

  /** A supported AUR helper: its name, a one-line description, the git repository of its
      AUR recipe, and the packages needed to build it. */
  datatype HelperSpec = HelperSpec(name: string, description: string, gitUrl: string, deps: seq<string>)

  /** The helpers, in declaration order, which is also the detection priority. */
  const HelperNames: seq<string> := ["yay", "paru", "trizen"]

  /** `SUPPORTED_HELPERS`: the helpers the program can bootstrap, keyed by name. */
  const SupportedHelpers: map<string, HelperSpec> := map[
    "yay" := HelperSpec("yay", "Yet Another Yogurt - An AUR Helper written in Go",
                        "https://aur.archlinux.org/yay.git", ["git", "base-devel"]),
    "paru" := HelperSpec("paru", "Feature packed AUR helper written in Rust",
                         "https://aur.archlinux.org/paru.git", ["git", "base-devel", "rust"]),
    "trizen" := HelperSpec("trizen", "Lightweight AUR Package Manager written in Perl",
                           "https://aur.archlinux.org/trizen.git", ["git", "base-devel", "perl"])]

  /** `SUPPORTED_HELPERS[name]`, or nothing for a name the program does not know. */
  function Lookup(name: string): (r: Option<HelperSpec>)
    ensures r.Some? <==> name in HelperNames
    ensures r.Some? ==> r.value.name == name
    ensures r.Some? ==> r.value.gitUrl == "https://aur.archlinux.org/" + name + ".git"
    ensures r.Some? ==> |r.value.deps| >= 2 && r.value.deps[0] == "git" && r.value.deps[1] == "base-devel"
  {
    if name in SupportedHelpers then Some(SupportedHelpers[name]) else None
  }

  // ---------------------------------------------------------------------------
  // Detection

  /** Scan `names` in order and give the first one on PATH. */
  function FirstInstalled(names: seq<string>, present: set<string>): (r: Option<string>)
    ensures r.Some? ==> r.value in names && r.value in present
    ensures r.None? <==> forall j :: 0 <= j < |names| ==> names[j] !in present
  {
    if names == [] then None
    else if names[0] in present then Some(names[0])
    else FirstInstalled(names[1..], present)
  }

  /** The entries of `names` that are on PATH, in the order of `names`. */
  function Installed(names: seq<string>, present: set<string>): (r: seq<string>)
    ensures |r| <= |names|
    ensures forall x :: x in r <==> x in names && x in present
  {
    if names == [] then []
    else (if names[0] in present then [names[0]] else []) + Installed(names[1..], present)
  }

  /** The first name found by the scan is the head of the list of installed ones. */
  lemma {:induction false} FirstInstalledIsHead(names: seq<string>, present: set<string>)
    ensures FirstInstalled(names, present) ==
      if Installed(names, present) == [] then None else Some(Installed(names, present)[0])
  {
    if names != [] && names[0] !in present {
      FirstInstalledIsHead(names[1..], present);
    }
  }

  /** `_detect_aur_helper`. */
  function DetectHelper(present: set<string>): (r: Option<string>)
    ensures r.Some? ==> r.value in HelperNames && r.value in present
    ensures r.None? <==> present !! {"yay", "paru", "trizen"}
  {
    assert HelperNames[0] == "yay" && HelperNames[1] == "paru" && HelperNames[2] == "trizen";
    FirstInstalled(HelperNames, present)
  }

  /** `get_installed_helpers`. */
  function InstalledHelpers(present: set<string>): (r: seq<string>)
    ensures |r| <= |HelperNames|
    ensures forall x :: x in r <==> x in HelperNames && x in present
  {
    Installed(HelperNames, present)
  }

  /** `is_helper_installed`: the name is on PATH, whether or not it is a supported helper; for
      a supported one this is membership in the list of installed helpers. */
  function IsHelperInstalled(name: string, present: set<string>): (r: bool)
    ensures name in HelperNames ==> (r <==> name in InstalledHelpers(present))
    ensures name !in present ==> !r
  {
    name in present
  }

  /** The active helper is the first of yay, paru, trizen on PATH; the installed helpers are
      listed in that same order; and the active one is the head of that list. */
  lemma HelperPriority(present: set<string>)
    ensures DetectHelper(present) ==
      if "yay" in present then Some("yay")
      else if "paru" in present then Some("paru")
      else if "trizen" in present then Some("trizen")
      else None
    ensures InstalledHelpers(present) ==
      (if "yay" in present then ["yay"] else []) + (if "paru" in present then ["paru"] else [])
        + (if "trizen" in present then ["trizen"] else [])
    ensures DetectHelper(present) ==
      if InstalledHelpers(present) == [] then None else Some(InstalledHelpers(present)[0])
  {
    var t := HelperNames;
    assert t[1..] == ["paru", "trizen"] && t[1..][1..] == ["trizen"] && t[1..][1..][1..] == [];
    assert Installed(t[1..][1..], present) == (if "trizen" in present then ["trizen"] else []);
    assert Installed(t[1..], present) ==
      (if "paru" in present then ["paru"] else []) + (if "trizen" in present then ["trizen"] else []);
    FirstInstalledIsHead(t, present);
  }

  /** `_check_arch_based`: the lower-cased os-release text mentions "arch", or pacman is on
      PATH; with the file missing only pacman counts, and any other read error escapes. */
  function CheckArchBased(osRelease: FileRead, present: set<string>): (r: Outcome<bool>)
    ensures r.Throw? <==> osRelease.Unreadable?
    ensures r.Return? && "pacman" in present ==> r.value
  {
    match osRelease
    case Missing => Return("pacman" in present)
    case Unreadable(e) => Throw(e)
    case Read(text) => Return(Contains(Lower(text), "arch") || "pacman" in present)
  }

  /** Lower-casing distributes over concatenation. */
  lemma LowerConcat(a: string, b: string)
    ensures Lower(a + b) == Lower(a) + Lower(b)
  {
  }

  /** A string contains any piece of it. */
  lemma {:induction false} ContainsMiddle(a: string, w: string, b: string)
    ensures Contains(a + w + b, w)
    decreases |a|
  {
    if a == [] {
      assert (a + w + b)[..|w|] == w;
    } else {
      ContainsMiddle(a[1..], w, b);
      assert (a + w + b)[1..] == a[1..] + w + b;
    }
  }

  /** The os-release check is case-insensitive: a file that mentions "arch" in any mix of
      cases marks the host as Arch-based whatever is on PATH; without the file only pacman
      counts; and a file that cannot be read raises its error. */
  lemma ArchBasedCases(before: string, word: string, after: string, present: set<string>, error: string)
    requires Lower(word) == "arch"
    ensures CheckArchBased(Read(before + word + after), present) == Return(true)
    ensures CheckArchBased(Missing, present) == Return("pacman" in present)
    ensures CheckArchBased(Unreadable(error), present) == Throw(error)
  {
    LowerConcat(before + word, after);
    LowerConcat(before, word);
    ContainsMiddle(Lower(before), "arch", Lower(after));
  }

  // ---------------------------------------------------------------------------
  // Bootstrapping a helper

  /** The command that installs one build dependency. */
  function DepInstallCommand(dep: string): seq<string> {
    ["sudo", "pacman", "-S", "--noconfirm", "--needed", dep]
  }

  /** One privileged pacman install per dependency, in order. */
  function DepSteps(deps: seq<string>): (steps: seq<Invocation>)
    ensures |steps| == |deps|
  {
    if deps == [] then [] else [Invocation(DepInstallCommand(deps[0]), Inherited)] + DepSteps(deps[1..])
  }

  lemma {:induction false} DepStepAt(deps: seq<string>, k: nat)
    requires k < |deps|
    ensures DepSteps(deps)[k] == Invocation(DepInstallCommand(deps[k]), Inherited)
    decreases k
  {
    if k > 0 {
      DepStepAt(deps[1..], k - 1);
    }
  }

  /** The processes `install_helper` launches for a helper, in order: one pacman install
      per dependency, the clone inside the temporary workspace, and the build inside the
      cloned tree `<workspace>/<name>`. */
  function BootstrapPlan(h: HelperSpec): (plan: seq<Invocation>)
    ensures |plan| == |h.deps| + 2
    ensures plan[|h.deps|] == Invocation(["git", "clone", h.gitUrl], Workspace(""))
    ensures plan[|h.deps| + 1] == Invocation(["makepkg", "-si", "--noconfirm"], Workspace(h.name))
  {
    DepSteps(h.deps)
      + [Invocation(["git", "clone", h.gitUrl], Workspace("")),
         Invocation(["makepkg", "-si", "--noconfirm"], Workspace(h.name))]
  }

  /** Every dependency of the helper is installed, in the order the table lists them,
      before anything is cloned. */
  lemma BootstrapPlanDeps(h: HelperSpec, k: nat)
    requires k < |h.deps|
    ensures BootstrapPlan(h)[k] == Invocation(DepInstallCommand(h.deps[k]), Inherited)
  {
    DepStepAt(h.deps, k);
  }

  /** Running the steps of `plan` one after another from time `t`, each with `check=True`:
      the index of the first step that does not exit with status 0, or nothing when all do. */
  function FirstFailure(respond: (nat, Invocation) -> Completion, t: nat, plan: seq<Invocation>): (r: Option<nat>)
    ensures r.Some? ==> r.value < |plan| && Fails(respond(t + r.value, plan[r.value]))
    ensures r.Some? ==> forall j :: 0 <= j < r.value ==> !Fails(respond(t + j, plan[j]))
    ensures r.None? <==> forall j :: 0 <= j < |plan| ==> !Fails(respond(t + j, plan[j]))
    decreases |plan|
  {
    if plan == [] then None
    else if Fails(respond(t, plan[0])) then Some(0)
    else
      match FirstFailure(respond, t + 1, plan[1..])
      case None => None
      case Some(i) => Some(i + 1)
  }

  /** The step that fails after all earlier ones succeeded is the first failure. */
  lemma FirstFailureAt(respond: (nat, Invocation) -> Completion, t: nat, plan: seq<Invocation>, i: nat)
    requires i < |plan| && Fails(respond(t + i, plan[i]))
    requires forall j :: 0 <= j < i ==> !Fails(respond(t + j, plan[j]))
    ensures FirstFailure(respond, t, plan) == Some(i)
  {
    var r := FirstFailure(respond, t, plan);
    assert r.Some? && !(r.value < i);
  }

  /** The message of a failed bootstrap step: a non-zero exit is a `CalledProcessError`,
      anything else that escapes `subprocess.run` is reported by its text. */
  function StageFailure(name: string, argv: seq<string>, c: Completion): string {
    match c
    case Exited(code, _) => "Failed to install " + name + ": " + CalledProcessErrorText(argv, code)
    case Raised(e) => "Error installing " + name + ": " + e
  }

  /** What a call that either succeeded or failed with a `CalledProcessError` reports, and
      what it lets escape otherwise. */
  function Report(c: Completion, done: string, failed: string): (r: Outcome<(bool, string)>)
    ensures r.Throw? <==> c.Raised?
    ensures r.Return? ==> (r.value.0 <==> c.code == 0)
  {
    match Checked(c)
    case Throw(e) => Throw(e)
    case Return(ok) => Return(if ok then (true, done) else (false, failed))
  }

  // ---------------------------------------------------------------------------
  // The search output parser

  /** One search hit, with the votes and popularity columns kept as the text they were
      printed as. */
  datatype PackageRecord = PackageRecord(name: string, version: string, description: string,
                                         votes: string, popularity: string)

  /** A line that starts a search hit. */
  predicate IsMarkerLine(line: string) {
    StartsWith(line, "aur/")
  }

  predicate IsVoteMark(c: char) { c == '(' || c == ')' || c == '+' }

  predicate IsPercent(c: char) { c == '%' }

  /** The votes column of a hit's tokens: the last token starting with `(+`, stripped of
      `(`, `)` and `+` at both ends; `"0"` when there is none. */
  function VotesOf(parts: seq<string>): string {
    if parts == [] then "0"
    else
      var last := parts[|parts| - 1];
      if StartsWith(last, "(+") then StripChars(last, IsVoteMark) else VotesOf(parts[..|parts| - 1])
  }

  /** The popularity column: the last token that does not start with `(+` and ends with `%`,
      stripped of `%`; `"0"` when there is none. */
  function PopularityOf(parts: seq<string>): string {
    if parts == [] then "0"
    else
      var last := parts[|parts| - 1];
      if !StartsWith(last, "(+") && EndsWith(last, "%") then StripChars(last, IsPercent)
      else PopularityOf(parts[..|parts| - 1])
  }

  /** The record for a hit line with tokens `parts` and the given description. */
  function RecordOf(parts: seq<string>, description: string): PackageRecord
    requires |parts| >= 2
  {
    PackageRecord(RemoveAll(parts[0], "aur/"), parts[1], description, VotesOf(parts), PopularityOf(parts))
  }

  /** The records the search loop builds from a list of lines: a marker line with at least
      two tokens makes a record, taking the next line as its description when that line is
      not a marker line itself; every other line is skipped. */
  function SearchRecords(lines: seq<string>): (r: seq<PackageRecord>)
    ensures |r| <= |lines|
    ensures (forall i :: 0 <= i < |lines| ==> !IsMarkerLine(lines[i])) ==> r == []
    decreases |lines|
  {
    if lines == [] then []
    else if IsMarkerLine(lines[0]) && |Words(lines[0])| >= 2 then
      if |lines| > 1 && !IsMarkerLine(lines[1]) then
        [RecordOf(Words(lines[0]), Strip(lines[1]))] + SearchRecords(lines[2..])
      else
        [RecordOf(Words(lines[0]), "")] + SearchRecords(lines[1..])
    else SearchRecords(lines[1..])
  }

  /** What `search_aur` makes of the helper's standard output. */
  function ParseSearch(stdout: string): (r: seq<PackageRecord>)
    ensures |r| <= |Lines(Strip(stdout))|
    ensures (forall i :: 0 <= i < |Lines(Strip(stdout))| ==> !IsMarkerLine(Lines(Strip(stdout))[i])) ==> r == []
  {
    SearchRecords(Lines(Strip(stdout)))
  }

  /** The token loop of the search parser: later matches override earlier ones, and a token
      starting with `(+` is never read as popularity. */
  method ScanStats(parts: seq<string>) returns (votes: string, popularity: string)
    ensures votes == VotesOf(parts) && popularity == PopularityOf(parts)
  {
    votes, popularity := "0", "0";
    var k := 0;
    while k < |parts|
      invariant 0 <= k <= |parts|
      invariant votes == VotesOf(parts[..k]) && popularity == PopularityOf(parts[..k])
    {
      assert parts[..k + 1][..k] == parts[..k];
      var part := parts[k];
      if StartsWith(part, "(+") {
        votes := StripChars(part, IsVoteMark);
      } else if EndsWith(part, "%") {
        popularity := StripChars(part, IsPercent);
      }
      k := k + 1;
    }
    assert parts[..k] == parts;
  }

  /** The records from line `i` on: a hit at `i` takes the next line as its description
      unless that line is a hit itself; any other line is skipped. */
  lemma SearchRecordsFrom(lines: seq<string>, i: nat)
    requires i < |lines|
    ensures SearchRecords(lines[i..]) ==
      if IsMarkerLine(lines[i]) && |Words(lines[i])| >= 2 then
        if i + 1 < |lines| && !IsMarkerLine(lines[i + 1]) then
          [RecordOf(Words(lines[i]), Strip(lines[i + 1]))] + SearchRecords(lines[i + 2..])
        else [RecordOf(Words(lines[i]), "")] + SearchRecords(lines[i + 1..])
      else SearchRecords(lines[i + 1..])
  {
    assert lines[i..][0] == lines[i];
    assert lines[i..][1..] == lines[i + 1..];
    if i + 1 < |lines| {
      assert lines[i..][1] == lines[i + 1];
      assert lines[i..][2..] == lines[i + 2..];
    }
  }

  /** Moving the parse position from `start` to `next` moves the records read in between,
      `here`, into what has been parsed. */
  lemma ParsedUpTo(lines: seq<string>, start: nat, next: nat, before: seq<PackageRecord>, here: seq<PackageRecord>)
    requires start < next <= |lines|
    requires before + SearchRecords(lines[start..]) == SearchRecords(lines)
    requires SearchRecords(lines[start..]) == here + SearchRecords(lines[next..])
    ensures (before + here) + SearchRecords(lines[next..]) == SearchRecords(lines)
  {
    ConcatAssoc(before, here, SearchRecords(lines[next..]));
  }

  /** The line loop of `search_aur`, with its manually advanced index. */
  method ParseSearchOutput(stdout: string) returns (packages: seq<PackageRecord>)
    ensures packages == ParseSearch(stdout)
  {
    packages := [];
    var lines := Lines(Strip(stdout));
    var i := 0;
    while i < |lines|
      invariant 0 <= i <= |lines|
      invariant packages + SearchRecords(lines[i..]) == SearchRecords(lines)
    {
      var found, next := ReadLine(lines, i);
      ParsedUpTo(lines, i, next, packages, found);
      packages := packages + found;
      i := next;
    }
    assert lines[i..] == [];
  }

  /** One turn of the loop at line `i`: a hit line with at least two tokens makes a record,
      described by the next line unless that is a hit too, in which case the description
      stays empty; the index moves past every line consumed. */
  method ReadLine(lines: seq<string>, i: nat) returns (found: seq<PackageRecord>, next: nat)
    requires i < |lines|
    ensures i < next <= |lines| && |found| <= 1
    ensures SearchRecords(lines[i..]) == found + SearchRecords(lines[next..])
  {
    SearchRecordsFrom(lines, i);
    found, next := [], i + 1;
    if IsMarkerLine(lines[i]) {
      var parts := Words(lines[i]);
      if |parts| >= 2 {
        var name := RemoveAll(parts[0], "aur/");
        var version := parts[1];
        var description := "";
        if i + 1 < |lines| && !IsMarkerLine(lines[i + 1]) {
          description := Strip(lines[i + 1]);
          next := i + 2;
        }
        var votes, popularity := ScanStats(parts);
        found := [PackageRecord(name, version, description, votes, popularity)];
      }
    }
  }

  // Round trip: rendering hits the way the helpers print them and parsing them back.

  /** The tokens of the line a helper prints for a hit: `aur/<name> <version> (+<votes> <popularity>%)`. */
  function HeaderTokens(r: PackageRecord): seq<string> {
    ["aur/" + r.name, r.version, "(+" + r.votes, r.popularity + "%)"]
  }

  function HeaderLine(r: PackageRecord): string {
    Join(" ", HeaderTokens(r))
  }

  /** The four spaces the helpers print before a hit's description. */
  const Indent := "    "

  /** Each hit printed as its header line followed by its indented description line. */
  function RenderLines(rs: seq<PackageRecord>): seq<string> {
    if rs == [] then [] else [HeaderLine(rs[0]), Indent + rs[0].description] + RenderLines(rs[1..])
  }

  function RenderSearch(rs: seq<PackageRecord>): string {
    Join("\n", RenderLines(rs))
  }

  predicate IsDigit(c: char) { '0' <= c <= '9' }

  /** A hit as the helpers print it: names and versions are single tokens (package names
      never hold `/`), vote counts are digits, popularity a decimal number, and the
      description a non-blank line without surrounding whitespace. */
  predicate WellFormed(r: PackageRecord) {
    && r.name != [] && NoSpace(r.name) && '/' !in r.name && r.name[|r.name| - 1] != '%'
    && r.version != [] && NoSpace(r.version) && !StartsWith(r.version, "(+") && !EndsWith(r.version, "%")
    && (forall i :: 0 <= i < |r.votes| ==> IsDigit(r.votes[i]))
    && (forall i :: 0 <= i < |r.popularity| ==> IsDigit(r.popularity[i]) || r.popularity[i] == '.')
    && r.description != [] && '\n' !in r.description
    && !IsSpace(r.description[0]) && !IsSpace(r.description[|r.description| - 1])
  }

  /** An indented description line is never a hit, has no line break, ends where the
      description ends, and `strip()` gives the description back. */
  lemma IndentedDescription(d: string)
    requires d != [] && '\n' !in d && !IsSpace(d[0]) && !IsSpace(d[|d| - 1])
    ensures !IsMarkerLine(Indent + d) && '\n' !in Indent + d
    ensures (Indent + d)[|Indent + d| - 1] == d[|d| - 1]
    ensures Strip(Indent + d) == d
  {
    var s := Indent + d;
    assert IsSpace(' ');
    assert s[1..] == "   " + d && s[2..] == "  " + d && s[3..] == " " + d && s[4..] == d;
    assert TrimStart(s, IsSpace) == TrimStart(s[1..], IsSpace);
    assert TrimStart(s[1..], IsSpace) == TrimStart(s[2..], IsSpace) by { assert s[1..][1..] == s[2..]; }
    assert TrimStart(s[2..], IsSpace) == TrimStart(s[3..], IsSpace) by { assert s[2..][1..] == s[3..]; }
    assert TrimStart(s[3..], IsSpace) == TrimStart(d, IsSpace) by { assert s[3..][1..] == s[4..]; }
    StripUnchanged(d);
  }

  /** What the parser gives back for printed hits: everything but the popularity, which it
      never finds, because the printed token `<popularity>%)` ends in `)` and not in `%`. */
  function WithoutPopularity(rs: seq<PackageRecord>): (r: seq<PackageRecord>)
    ensures |r| == |rs|
  {
    if rs == [] then [] else [rs[0].(popularity := "0")] + WithoutPopularity(rs[1..])
  }

  lemma NoSpaceConcat(a: string, b: string)
    requires NoSpace(a) && NoSpace(b)
    ensures NoSpace(a + b)
  {
    assert forall i :: 0 <= i < |a + b| ==> (a + b)[i] == if i < |a| then a[i] else b[i - |a|];
  }

  lemma {:induction false} NoSlashNoMarker(s: string)
    requires '/' !in s
    ensures !Contains(s, "aur/")
    decreases |s|
  {
    if s != [] {
      assert !StartsWith(s, "aur/") by {
        if |s| >= 4 { assert s[3] == s[..4][3]; }
      }
      NoSlashNoMarker(s[1..]);
    }
  }

  /** The header tokens are what `split()` finds on the header line. */
  lemma HeaderWords(r: PackageRecord)
    requires WellFormed(r)
    ensures Words(HeaderLine(r)) == HeaderTokens(r)
  {
    var ts := HeaderTokens(r);
    NoSpaceConcat("aur/", r.name);
    NoSpaceConcat("(+", r.votes);
    NoSpaceConcat(r.popularity, "%)");
    assert AllWords(ts);
    WordsOfJoin(ts);
  }

  /** Stripping vote marks leaves a string of digits alone. */
  lemma DigitsUntouched(votes: string)
    requires forall i :: 0 <= i < |votes| ==> IsDigit(votes[i])
    ensures TrimStart(votes, IsVoteMark) == votes && TrimEnd(votes, IsVoteMark) == votes
  {
    if votes != [] {
      assert !IsVoteMark(votes[0]) && !IsVoteMark(votes[|votes| - 1]);
    }
  }

  /** `strip('()+')` of `(+<digits>` gives the digits back. */
  lemma VotesToken(votes: string)
    requires forall i :: 0 <= i < |votes| ==> IsDigit(votes[i])
    ensures StripChars("(+" + votes, IsVoteMark) == votes
  {
    var s := "(+" + votes;
    var t := "+" + votes;
    assert s[1..] == t && t[1..] == votes;
    assert IsVoteMark(s[0]) && IsVoteMark(t[0]);
    DigitsUntouched(votes);
    calc {
      TrimStart(s, IsVoteMark);
      TrimStart(t, IsVoteMark);
      TrimStart(votes, IsVoteMark);
    }
  }

  /** The fields the parser reads from a printed header line. */
  lemma HeaderFields(r: PackageRecord)
    requires WellFormed(r)
    ensures RemoveAll(HeaderTokens(r)[0], "aur/") == r.name
    ensures VotesOf(HeaderTokens(r)) == r.votes
    ensures PopularityOf(HeaderTokens(r)) == "0"
  {
    var ts := HeaderTokens(r);
    var n := "aur/" + r.name;
    assert StartsWith(n, "aur/") && n[4..] == r.name;
    NoSlashNoMarker(r.name);
    RemoveAllAbsent(r.name, "aur/");
    assert !StartsWith(ts[3], "(+") by {
      if |r.popularity| > 0 { assert ts[3][0] == r.popularity[0]; } else { assert ts[3][0] == '%'; }
    }
    assert StartsWith(ts[2], "(+");
    assert ts[..3] == ["aur/" + r.name, r.version, "(+" + r.votes];
    VotesToken(r.votes);
    assert !EndsWith(ts[3], "%") by { assert ts[3][|ts[3]| - 1] == ')'; }
    assert !EndsWith(ts[0], "%") by { assert ts[0][|ts[0]| - 1] == r.name[|r.name| - 1]; }
    var t2, t1, t0 := ts[..3][..2], ts[..3][..2][..1], ts[..3][..2][..1][..0];
    assert t2 == ["aur/" + r.name, r.version] && t1 == ["aur/" + r.name] && t0 == [];
    calc {
      PopularityOf(ts);
      PopularityOf(ts[..3]);
      PopularityOf(t2);
      PopularityOf(t1);
      PopularityOf(t0);
    }
  }

  /** A printed hit line is a marker line with four tokens. */
  lemma HeaderIsMarker(r: PackageRecord)
    requires WellFormed(r)
    ensures IsMarkerLine(HeaderLine(r))
    ensures '\n' !in HeaderLine(r)
    ensures HeaderLine(r) != [] && HeaderLine(r)[0] == 'a'
  {
    var ts := HeaderTokens(r);
    assert HeaderLine(r) == ts[0] + " " + Join(" ", ts[1..]);
    assert HeaderLine(r)[..4] == "aur/";
    NoSpaceConcat("aur/", r.name);
    NoSpaceConcat("(+", r.votes);
    NoSpaceConcat(r.popularity, "%)");
    forall k | 0 <= k < |ts| ensures '\n' !in ts[k] {
      assert NoSpace(ts[k]);
    }
    JoinAvoids(" ", ts, '\n');
  }

  /** Parsing the printed lines of well-formed hits gives back every hit, in order, with
      its name, version, description and votes, and popularity `"0"`. */
  lemma {:induction false} SearchRecordsOfRender(rs: seq<PackageRecord>)
    requires forall k :: 0 <= k < |rs| ==> WellFormed(rs[k])
    ensures SearchRecords(RenderLines(rs)) == WithoutPopularity(rs)
  {
    if rs != [] {
      SearchRecordsOfRender(rs[1..]);
      SearchRecordsOfHit(rs[0], RenderLines(rs[1..]));
    }
  }

  /** The two printed lines of a well-formed hit parse into that hit without its popularity. */
  lemma SearchRecordsOfHit(r: PackageRecord, rest: seq<string>)
    requires WellFormed(r)
    ensures SearchRecords([HeaderLine(r), Indent + r.description] + rest) == [r.(popularity := "0")] + SearchRecords(rest)
  {
    HeaderWords(r);
    HeaderFields(r);
    HeaderIsMarker(r);
    IndentedDescription(r.description);
    SearchRecordsHit(HeaderLine(r), Indent + r.description, rest);
    assert RecordOf(HeaderTokens(r), r.description) == r.(popularity := "0");
  }

  /** A hit line followed by a line that is not a hit makes one record, described by that line. */
  lemma SearchRecordsHit(header: string, line: string, rest: seq<string>)
    requires IsMarkerLine(header) && |Words(header)| >= 2 && !IsMarkerLine(line)
    ensures SearchRecords([header, line] + rest) == [RecordOf(Words(header), Strip(line))] + SearchRecords(rest)
  {
    assert ([header, line] + rest)[2..] == rest;
  }

  /** No printed line contains a line break. */
  lemma {:induction false} RenderLinesShape(rs: seq<PackageRecord>)
    requires forall k :: 0 <= k < |rs| ==> WellFormed(rs[k])
    ensures |RenderLines(rs)| == 2 * |rs|
    ensures forall k :: 0 <= k < |RenderLines(rs)| ==> '\n' !in RenderLines(rs)[k]
  {
    if rs != [] {
      var rest := RenderLines(rs[1..]);
      RenderLinesShape(rs[1..]);
      HeaderIsMarker(rs[0]);
      IndentedDescription(rs[0].description);
      var lines := RenderLines(rs);
      assert lines == [HeaderLine(rs[0]), Indent + rs[0].description] + rest;
      forall k | 0 <= k < |lines|
        ensures '\n' !in lines[k]
      {
        if k >= 2 {
          assert lines[k] == rest[k - 2];
        }
      }
    }
  }

  /** The last character of a join is the last character of its last part. */
  lemma {:induction false} JoinEnds(sep: string, parts: seq<string>)
    requires |parts| >= 1 && parts[0] != [] && parts[|parts| - 1] != []
    ensures Join(sep, parts) != []
    ensures Join(sep, parts)[0] == parts[0][0]
    ensures Join(sep, parts)[|Join(sep, parts)| - 1] == parts[|parts| - 1][|parts[|parts| - 1]| - 1]
    decreases |parts|
  {
    if |parts| > 1 {
      var last := parts[|parts| - 1];
      assert parts[1..][|parts[1..]| - 1] == last;
      if parts[1] == [] {
        // the tail's join may start with an empty part; only its end matters
        JoinLast(sep, parts[1..]);
      } else {
        JoinEnds(sep, parts[1..]);
      }
    }
  }

  lemma {:induction false} JoinLast(sep: string, parts: seq<string>)
    requires |parts| >= 1 && parts[|parts| - 1] != []
    ensures Join(sep, parts) != []
    ensures Join(sep, parts)[|Join(sep, parts)| - 1] == parts[|parts| - 1][|parts[|parts| - 1]| - 1]
    decreases |parts|
  {
    if |parts| > 1 {
      assert parts[1..][|parts[1..]| - 1] == parts[|parts| - 1];
      JoinLast(sep, parts[1..]);
    }
  }

  /** The search parser applied to the text a helper prints for well-formed hits gives back
      every hit in order, without its popularity. */
  lemma ParseSearchRoundTrip(rs: seq<PackageRecord>)
    requires forall k :: 0 <= k < |rs| ==> WellFormed(rs[k])
    ensures ParseSearch(RenderSearch(rs)) == WithoutPopularity(rs)
  {
    if rs == [] {
      ParseSearchBlank(RenderSearch(rs));
    } else {
      var text := RenderSearch(rs);
      RenderSearchStripped(rs);
      RenderSearchLines(rs);
      SearchRecordsOfRender(rs);
      calc {
        ParseSearch(text);
        SearchRecords(Lines(Strip(text)));
        SearchRecords(Lines(text));
        SearchRecords(RenderLines(rs));
      }
    }
  }

  lemma RenderSearchStripped(rs: seq<PackageRecord>)
    requires rs != [] && forall k :: 0 <= k < |rs| ==> WellFormed(rs[k])
    ensures Strip(RenderSearch(rs)) == RenderSearch(rs)
  {
    RenderSearchTrimmed(rs);
    StripUnchanged(RenderSearch(rs));
  }

  /** Splitting the printed text at line breaks gives the printed lines back. */
  lemma RenderSearchLines(rs: seq<PackageRecord>)
    requires rs != [] && forall k :: 0 <= k < |rs| ==> WellFormed(rs[k])
    ensures Lines(RenderSearch(rs)) == RenderLines(rs)
  {
    RenderLinesShape(rs);
    SplitOnJoin(RenderLines(rs), '\n');
  }

  /** The printed text of at least one hit starts with `a` and ends with the last
      description's last character, so `strip()` leaves it alone. */
  lemma RenderSearchTrimmed(rs: seq<PackageRecord>)
    requires rs != [] && forall k :: 0 <= k < |rs| ==> WellFormed(rs[k])
    ensures var text := RenderSearch(rs); text != [] && !IsSpace(text[0]) && !IsSpace(text[|text| - 1])
  {
    var text := RenderSearch(rs);
    var d := rs[|rs| - 1].description;
    assert d != [] && !IsSpace(d[|d| - 1]) by { assert WellFormed(rs[|rs| - 1]); }
    assert text != [] && text[0] == 'a' && text[|text| - 1] == d[|d| - 1] by {
      var lines := RenderLines(rs);
      RenderLinesLast(rs);
      IndentedDescription(d);
      HeaderIsMarker(rs[0]);
      JoinEnds("\n", lines);
    }
  }

  lemma {:induction false} RenderLinesLast(rs: seq<PackageRecord>)
    requires rs != []
    ensures |RenderLines(rs)| >= 2
    ensures RenderLines(rs)[0] == HeaderLine(rs[0])
    ensures RenderLines(rs)[|RenderLines(rs)| - 1] == Indent + rs[|rs| - 1].description
  {
    if |rs| > 1 {
      RenderLinesLast(rs[1..]);
      assert rs[1..][|rs[1..]| - 1] == rs[|rs| - 1];
    }
  }

  /** Printable ASCII other than the space: cheap to check on a literal, and never whitespace. */
  predicate Visible(s: string) { forall i :: 0 <= i < |s| ==> '!' <= s[i] <= '~' }

  lemma VisibleNoSpace(s: string)
    requires Visible(s)
    ensures NoSpace(s)
  {}

  /** The two hits of a typical search (the popularity as the helper prints it). */
  const CodeHit := PackageRecord("visual-studio-code-bin", "1.85.1-1", "Visual Studio Code (binary)", "12453", "9.87")
  const DiscordHit := PackageRecord("discord", "0.0.40-1", "All-in-one voice and text chat", "9876", "8.91")

  // Facts about the example's literals, one small lemma each so that no proof has to
  // look at every character of every literal at once.
  lemma CodeHitName() ensures Visible(CodeHit.name) {}
  lemma CodeHitSlash() ensures '/' !in CodeHit.name {}
  lemma CodeHitVersion()
    ensures Visible(CodeHit.version) && CodeHit.version[0] == '1' && CodeHit.version[|CodeHit.version| - 1] == '1'
  {}
  lemma CodeHitDescription()
    ensures forall i :: 0 <= i < |CodeHit.description| ==> ' ' <= CodeHit.description[i] <= '~'
  {}

  lemma CodeHitWellFormed()
    ensures WellFormed(CodeHit)
  {
    var r := CodeHit;
    CodeHitName(); CodeHitSlash(); CodeHitVersion(); CodeHitDescription();
    VisibleNoSpace(r.name); VisibleNoSpace(r.version);
    assert r.version[..2][0] == '1' && r.version[|r.version| - 1..][0] == '1';
    assert r.description[..4][0] == 'V';
  }

  lemma DiscordHitName() ensures Visible(DiscordHit.name) && '/' !in DiscordHit.name {}
  lemma DiscordHitVersion()
    ensures Visible(DiscordHit.version) && DiscordHit.version[0] == '0' && DiscordHit.version[|DiscordHit.version| - 1] == '1'
  {}
  lemma DiscordHitDescription()
    ensures forall i :: 0 <= i < |DiscordHit.description| ==> ' ' <= DiscordHit.description[i] <= '~'
  {}

  lemma DiscordHitWellFormed()
    ensures WellFormed(DiscordHit)
  {
    var r := DiscordHit;
    DiscordHitName(); DiscordHitVersion(); DiscordHitDescription();
    VisibleNoSpace(r.name); VisibleNoSpace(r.version);
    assert r.version[..2][0] == '0' && r.version[|r.version| - 1..][0] == '1';
    assert r.description[..4][0] == 'A';
  }

  /** The example as the helper prints it, line by line, each header spelled out token by token. */
  const ExampleLines := ["aur/" + "visual-studio-code-bin" + " " + "1.85.1-1" + " " + "(+" + "12453" + " " + "9.87" + "%)",
                         "    " + "Visual Studio Code (binary)",
                         "aur/" + "discord" + " " + "0.0.40-1" + " " + "(+" + "9876" + " " + "8.91" + "%)",
                         "    " + "All-in-one voice and text chat"]

  /** Two hits render as four lines: header, description, header, description. */
  lemma RenderTwo(a: PackageRecord, b: PackageRecord)
    ensures RenderLines([a, b]) == [HeaderLine(a), Indent + a.description, HeaderLine(b), Indent + b.description]
  {
    var rs := [a, b];
    assert rs[1..] == [b] && rs[1..][1..] == [];
    assert RenderLines([b]) == [HeaderLine(b), Indent + b.description] + RenderLines([]);
  }

  /** A header is the four tokens joined by single spaces. */
  lemma HeaderSpelled(r: PackageRecord)
    ensures HeaderLine(r) == "aur/" + r.name + " " + r.version + " " + "(+" + r.votes + " " + r.popularity + "%)"
  {
    JoinFour(" ", "aur/" + r.name, r.version, "(+" + r.votes, r.popularity + "%)");
  }

  lemma CodeHeader()
    ensures HeaderLine(CodeHit) == ExampleLines[0]
  {
    HeaderSpelled(CodeHit);
  }

  lemma DiscordHeader()
    ensures HeaderLine(DiscordHit) == ExampleLines[2]
  {
    HeaderSpelled(DiscordHit);
  }

  lemma ExampleText()
    ensures RenderLines([CodeHit, DiscordHit]) == ExampleLines
  {
    RenderTwo(CodeHit, DiscordHit);
    CodeHeader();
    DiscordHeader();
  }

  lemma ExampleHitsWellFormed()
    ensures forall k :: 0 <= k < |[CodeHit, DiscordHit]| ==> WellFormed([CodeHit, DiscordHit][k])
  {
    CodeHitWellFormed();
    DiscordHitWellFormed();
  }

  lemma ExampleRecords()
    ensures WithoutPopularity([CodeHit, DiscordHit])
         == [PackageRecord("visual-studio-code-bin", "1.85.1-1", "Visual Studio Code (binary)", "12453", "0"),
             PackageRecord("discord", "0.0.40-1", "All-in-one voice and text chat", "9876", "0")]
  {
    var rs := [CodeHit, DiscordHit];
    assert rs[1..] == [DiscordHit] && rs[1..][1..] == [];
  }

  /** The two hits of a typical search, as yay prints them, parse into two records in order;
      the popularity printed as `9.87%)` is not recognised and stays `"0"`. */
  lemma SearchExample()
    ensures ParseSearch(Join("\n", ExampleLines))
         == [PackageRecord("visual-studio-code-bin", "1.85.1-1", "Visual Studio Code (binary)", "12453", "0"),
             PackageRecord("discord", "0.0.40-1", "All-in-one voice and text chat", "9876", "0")]
  {
    ExampleHitsWellFormed();
    ParseSearchRoundTrip([CodeHit, DiscordHit]);
    ExampleText();
    ExampleRecords();
  }

  /** Nothing to parse gives no records. */
  lemma ParseSearchBlank(stdout: string)
    requires forall i :: 0 <= i < |stdout| ==> IsSpace(stdout[i])
    ensures ParseSearch(stdout) == []
  {
    TrimStartSpec(stdout, IsSpace);
    assert TrimStart(stdout, IsSpace) == [];
    assert Lines(Strip(stdout)) == [""];
  }

  // ---------------------------------------------------------------------------
  // The foreign-package parser (`pacman -Qm`)

  /** An installed package that no sync repository provides. */
  datatype ForeignPackage = ForeignPackage(name: string, version: string)

  /** What one line of the listing gives: a package made of its first two tokens when it
      is non-empty and has at least two, nothing otherwise. */
  function ForeignOf(line: string): seq<ForeignPackage> {
    var parts := Words(line);
    if line != [] && |parts| >= 2 then [ForeignPackage(parts[0], parts[1])] else []
  }

  /** The packages of a listing, line by line, in order. */
  function ForeignPackages(lines: seq<string>): (r: seq<ForeignPackage>)
    ensures |r| <= |lines|
    ensures (forall i :: 0 <= i < |lines| ==> |Words(lines[i])| < 2) ==> r == []
  {
    if lines == [] then [] else ForeignOf(lines[0]) + ForeignPackages(lines[1..])
  }

  lemma ForeignStep(lines: seq<string>, i: nat)
    requires i < |lines|
    ensures ForeignPackages(lines[i..]) == ForeignOf(lines[i]) + ForeignPackages(lines[i + 1..])
  {
    assert lines[i..][1..] == lines[i + 1..];
  }

  /** The loop of `get_installed_aur_packages` over the stripped output. */
  method ParseForeignOutput(stdout: string) returns (packages: seq<ForeignPackage>)
    ensures packages == ForeignPackages(Lines(Strip(stdout)))
  {
    packages := [];
    var lines := Lines(Strip(stdout));
    var i := 0;
    assert lines[i..] == lines;
    while i < |lines|
      invariant 0 <= i <= |lines|
      invariant packages + ForeignPackages(lines[i..]) == ForeignPackages(lines)
    {
      ForeignStep(lines, i);
      var found := ReadForeignLine(lines[i]);
      ConcatAssoc(packages, found, ForeignPackages(lines[i + 1..]));
      packages := packages + found;
      i := i + 1;
    }
    assert lines[i..] == [];
  }

  /** One pass of that loop's body: the package a line names, if any. */
  method ReadForeignLine(line: string) returns (found: seq<ForeignPackage>)
    ensures found == ForeignOf(line)
    ensures |found| <= 1
  {
    found := [];
    if line != [] {
      var parts := Words(line);
      if |parts| >= 2 {
        found := [ForeignPackage(parts[0], parts[1])];
      }
    }
  }

  /** The line pacman prints for a package: `<name> <version>`. */
  function ForeignLine(p: ForeignPackage): string {
    p.name + " " + p.version
  }

  function ForeignText(ps: seq<ForeignPackage>): string {
    Join("\n", seq(|ps|, k requires 0 <= k < |ps| => ForeignLine(ps[k])))
  }

  predicate IsToken(w: string) { w != [] && NoSpace(w) }

  /** Parsing pacman's listing of packages whose names and versions are single tokens
      gives the packages back, in order. */
  lemma ForeignRoundTrip(ps: seq<ForeignPackage>)
    requires forall k :: 0 <= k < |ps| ==> IsToken(ps[k].name) && IsToken(ps[k].version)
    ensures ForeignPackages(Lines(Strip(ForeignText(ps)))) == ps
  {
    var lines := seq(|ps|, k requires 0 <= k < |ps| => ForeignLine(ps[k]));
    if ps == [] {
      assert ForeignText(ps) == "";
      assert Lines(Strip("")) == [""];
    } else {
      forall k | 0 <= k < |ps|
        ensures '\n' !in lines[k] && lines[k] != []
        ensures Words(lines[k]) == [ps[k].name, ps[k].version]
      {
        ForeignLineWords(ps[k]);
      }
      assert lines[0][0] == ps[0].name[0];
      var lastP := ps[|ps| - 1];
      assert lines[|lines| - 1][|lines[|lines| - 1]| - 1] == lastP.version[|lastP.version| - 1];
      JoinEnds("\n", lines);
      StripUnchanged(ForeignText(ps));
      SplitOnJoin(lines, '\n');
      ForeignPackagesOfLines(ps, lines);
    }
  }

  lemma ForeignLineWords(p: ForeignPackage)
    requires IsToken(p.name) && IsToken(p.version)
    ensures ForeignLine(p) != [] && '\n' !in ForeignLine(p)
    ensures Words(ForeignLine(p)) == [p.name, p.version]
  {
    var ws := [p.name, p.version];
    assert AllWords(ws);
    assert Join(" ", ws) == ForeignLine(p);
    WordsOfJoin(ws);
    assert IsSpace('\n');
    JoinAvoids(" ", ws, '\n');
  }

  lemma {:induction false} ForeignPackagesOfLines(ps: seq<ForeignPackage>, lines: seq<string>)
    requires |lines| == |ps|
    requires forall k :: 0 <= k < |ps| ==> lines[k] != [] && Words(lines[k]) == [ps[k].name, ps[k].version]
    ensures ForeignPackages(lines) == ps
  {
    if ps != [] {
      ForeignPackagesOfLines(ps[1..], lines[1..]);
    }
  }

  /** What running a bootstrap plan does: the processes it launched, whether every step
      succeeded, and the failure message otherwise. */
  datatype BootstrapRun = BootstrapRun(launched: seq<Invocation>, ok: bool, msg: string)

  /** Running `plan` from time `t`: every step up to and including the first failing one is
      launched, and the failure is reported as a `CalledProcessError` or other exception. */
  function BootstrapRunOf(respond: (nat, Invocation) -> Completion, t: nat, name: string,
                          plan: seq<Invocation>): (r: BootstrapRun)
    ensures r.ok <==> forall j :: 0 <= j < |plan| ==> !Fails(respond(t + j, plan[j]))
    ensures r.ok ==> r.launched == plan && r.msg == ""
    ensures !r.ok ==> 1 <= |r.launched| <= |plan| && r.launched == plan[..|r.launched|]
  {
    match FirstFailure(respond, t, plan)
    case Some(i) => BootstrapRun(plan[..i + 1], false, StageFailure(name, plan[i].argv, respond(t + i, plan[i])))
    case None => BootstrapRun(plan, true, "")
  }

  /** A plan succeeds exactly when every step exits with status 0, and then every step was
      launched; otherwise the steps launched are a prefix of the plan ending in a failed step,
      every earlier one having succeeded, and the message is that step's error. */
  lemma BootstrapRunMeaning(respond: (nat, Invocation) -> Completion, t: nat, name: string, plan: seq<Invocation>)
    ensures var b := BootstrapRunOf(respond, t, name, plan);
      && (b.ok <==> forall j :: 0 <= j < |plan| ==> !Fails(respond(t + j, plan[j])))
      && (b.ok ==> b.launched == plan)
      && (!b.ok ==>
            var i := |b.launched| - 1;
            0 <= i < |plan| && b.launched == plan[..i + 1] && Fails(respond(t + i, plan[i]))
            && (forall j :: 0 <= j < i ==> !Fails(respond(t + j, plan[j])))
            && b.msg == StageFailure(name, plan[i].argv, respond(t + i, plan[i])))
  {
  }

  lemma BootstrapRunFailsAt(respond: (nat, Invocation) -> Completion, t: nat, name: string,
                            plan: seq<Invocation>, k: nat)
    requires k < |plan| && Fails(respond(t + k, plan[k]))
    requires forall j :: 0 <= j < k ==> !Fails(respond(t + j, plan[j]))
    ensures BootstrapRunOf(respond, t, name, plan)
         == BootstrapRun(plan[..k + 1], false, StageFailure(name, plan[k].argv, respond(t + k, plan[k])))
  {
    FirstFailureAt(respond, t, plan, k);
  }

  /** The `try` block of `install_helper` up to the re-detection: the steps of the plan
      (for a helper, `BootstrapPlan`: the dependency installs, the clone and the build),
      launched one after another, stopping at the first step that does not exit with status 0
      and reporting it the way the two `except` clauses do. */
  method Bootstrap(host: Host, name: string, plan: seq<Invocation>) returns (ok: bool, msg: string)
    modifies host
    ensures var b := BootstrapRunOf(host.respond, |old(host.log)|, name, plan);
      host.log == old(host.log) + b.launched && ok == b.ok && msg == b.msg
  {
    ghost var t := |host.log|;
    var k := 0;
    while k < |plan|
      invariant 0 <= k <= |plan|
      invariant host.log == old(host.log) + plan[..k]
      invariant forall j :: 0 <= j < k ==> !Fails(host.respond(t + j, plan[j]))
    {
      var c := host.Run(plan[k].argv, plan[k].dir);
      assert c == host.respond(t + k, plan[k]);
      assert plan[..k + 1] == plan[..k] + [plan[k]];
      if Fails(c) {
        BootstrapRunFailsAt(host.respond, t, name, plan, k);
        return false, StageFailure(name, plan[k].argv, c);
      }
      k := k + 1;
    }
    assert plan[..k] == plan;
    ok, msg := true, "";
  }

  // ---------------------------------------------------------------------------
  // The manager object

  /** The helper in use (if any), and whether the host is Arch-based, both detected when
      the object is made; only installing or removing a helper re-detects the former. */
  class AURManager {
    var activeHelper: Option<string>
    const isArchBased: bool

    constructor (activeHelper: Option<string>, isArchBased: bool)
      ensures this.activeHelper == activeHelper && this.isArchBased == isArchBased
    {
      this.activeHelper := activeHelper;
      this.isArchBased := isArchBased;
    }

    /** `AURManager()`: detect the helper, then check the host, which raises when the
        os-release file exists but cannot be read. No process is run. */
    static method Open(host: Host, osRelease: FileRead) returns (r: Outcome<AURManager>)
      ensures osRelease.Unreadable? ==> r == Throw(osRelease.error)
      ensures !osRelease.Unreadable? ==>
        r.Return? && fresh(r.value) && r.value.activeHelper == DetectHelper(host.OnPath()) &&
        r.value.isArchBased == CheckArchBased(osRelease, host.OnPath()).value
    {
      var helper := DetectHelper(host.OnPath());
      var arch := CheckArchBased(osRelease, host.OnPath());
      if arch.Throw? {
        return Throw(arch.error);
      }
      var m := new AURManager(helper, arch.value);
      r := Return(m);
    }

    /** `install_helper`: refuse an unknown name, then a host that is not Arch-based, both
        without running anything; otherwise install the dependencies one by one, clone the
        recipe and build it, stopping at the first step that fails; after a full success,
        detect the active helper again. */
    method InstallHelper(host: Host, name: string) returns (ok: bool, msg: string)
      modifies this, host
      ensures Lookup(name).None? ==>
        !ok && msg == "Unknown AUR helper: " + name && host.log == old(host.log) && activeHelper == old(activeHelper)
      ensures Lookup(name).Some? && !isArchBased ==>
        !ok && msg == "AUR helpers are only available on Arch-based systems"
        && host.log == old(host.log) && activeHelper == old(activeHelper)
      ensures Lookup(name).Some? && isArchBased ==>
        var t := |old(host.log)|;
        var b := BootstrapRunOf(host.respond, t, name, BootstrapPlan(Lookup(name).value));
        host.log == old(host.log) + b.launched && ok == b.ok
        && msg == (if b.ok then "Successfully installed " + name else b.msg)
        && activeHelper == (if b.ok then DetectHelper(host.path(t + |b.launched|)) else old(activeHelper))
    {
      var spec := Lookup(name);
      if spec.None? {
        return false, "Unknown AUR helper: " + name;
      }
      if !isArchBased {
        return false, "AUR helpers are only available on Arch-based systems";
      }
      ok, msg := Bootstrap(host, name, BootstrapPlan(spec.value));
      if ok {
        activeHelper := DetectHelper(host.OnPath());
        msg := "Successfully installed " + name;
      }
    }

    /** `remove_helper`: a helper that is not on PATH is reported without running anything;
        otherwise one privileged pacman removal runs, and only its success re-detects the
        active helper. An exception other than a non-zero exit escapes. */
    method RemoveHelper(host: Host, name: string) returns (r: Outcome<(bool, string)>)
      modifies this, host
      ensures !IsHelperInstalled(name, old(host.OnPath())) ==>
        r == Return((false, name + " is not installed")) && host.log == old(host.log)
        && activeHelper == old(activeHelper)
      ensures IsHelperInstalled(name, old(host.OnPath())) ==>
        var inv := Invocation(["sudo", "pacman", "-Rns", "--noconfirm", name], Inherited);
        var t := |old(host.log)|;
        host.log == old(host.log) + [inv] &&
        match host.respond(t, inv)
        case Raised(e) => r == Throw(e) && activeHelper == old(activeHelper)
        case Exited(code, _) =>
          if code == 0 then
            r == Return((true, "Successfully removed " + name)) && activeHelper == DetectHelper(host.path(t + 1))
          else
            r == Return((false, "Failed to remove " + name + ": " + CalledProcessErrorText(inv.argv, code)))
            && activeHelper == old(activeHelper)
    {
      if !IsHelperInstalled(name, host.OnPath()) {
        return Return((false, name + " is not installed"));
      }
      var argv := ["sudo", "pacman", "-Rns", "--noconfirm", name];
      var c := host.Run(argv, Inherited);
      match c
      case Raised(e) =>
        r := Throw(e);
      case Exited(code, _) =>
        if code == 0 {
          activeHelper := DetectHelper(host.OnPath());
          r := Return((true, "Successfully removed " + name));
        } else {
          r := Return((false, "Failed to remove " + name + ": " + CalledProcessErrorText(argv, code)));
        }
    }

    /** `search_aur`: with no active helper, nothing runs and nothing is found; otherwise the
        helper's search runs once and its output is parsed, and a failure to run it (the
        30-second timeout included) finds nothing. */
    method SearchAur(host: Host, query: string) returns (packages: seq<PackageRecord>)
      modifies host
      ensures activeHelper.None? ==> packages == [] && host.log == old(host.log)
      ensures activeHelper.Some? ==>
        var inv := Invocation([activeHelper.value, "-Ss", query], Inherited);
        host.log == old(host.log) + [inv] &&
        match host.respond(|old(host.log)|, inv)
        case Raised(_) => packages == []
        case Exited(_, stdout) => packages == ParseSearch(stdout)
    {
      if activeHelper.None? {
        return [];
      }
      var c := host.Run([activeHelper.value, "-Ss", query], Inherited);
      match c
      case Raised(_) =>
        packages := [];
      case Exited(_, stdout) =>
        packages := ParseSearchOutput(stdout);
    }

    /** `install_package`: refused without running anything when no helper is active;
        otherwise the helper installs the package. */
    method InstallPackage(host: Host, package: string) returns (r: Outcome<(bool, string)>)
      modifies host
      ensures activeHelper.None? ==> r == Return((false, "No AUR helper installed")) && host.log == old(host.log)
      ensures activeHelper.Some? ==>
        var inv := Invocation([activeHelper.value, "-S", "--noconfirm", package], Inherited);
        host.log == old(host.log) + [inv] &&
        r == Report(host.respond(|old(host.log)|, inv), "Successfully installed " + package, "Failed to install " + package)
    {
      if activeHelper.None? {
        return Return((false, "No AUR helper installed"));
      }
      var c := host.Run([activeHelper.value, "-S", "--noconfirm", package], Inherited);
      r := Report(c, "Successfully installed " + package, "Failed to install " + package);
    }

    /** `remove_package`: refused without running anything when no helper is active;
        otherwise the helper removes the package with its dependencies. */
    method RemovePackage(host: Host, package: string) returns (r: Outcome<(bool, string)>)
      modifies host
      ensures activeHelper.None? ==> r == Return((false, "No AUR helper installed")) && host.log == old(host.log)
      ensures activeHelper.Some? ==>
        var inv := Invocation([activeHelper.value, "-Rns", "--noconfirm", package], Inherited);
        host.log == old(host.log) + [inv] &&
        r == Report(host.respond(|old(host.log)|, inv), "Successfully removed " + package, "Failed to remove " + package)
    {
      if activeHelper.None? {
        return Return((false, "No AUR helper installed"));
      }
      var c := host.Run([activeHelper.value, "-Rns", "--noconfirm", package], Inherited);
      r := Report(c, "Successfully removed " + package, "Failed to remove " + package);
    }

    /** `is_package_installed`: always pacman's own query, whichever helper is active. */
    method IsPackageInstalled(host: Host, package: string) returns (r: Outcome<bool>)
      modifies host
      ensures host.log == old(host.log) + [Invocation(["pacman", "-Qi", package], Inherited)]
      ensures r == Checked(host.respond(|old(host.log)|, Invocation(["pacman", "-Qi", package], Inherited)))
    {
      var c := host.Run(["pacman", "-Qi", package], Inherited);
      r := Checked(c);
    }

    /** `get_installed_aur_packages`: list pacman's foreign packages; any failure to run
        pacman lists nothing. */
    method GetInstalledAurPackages(host: Host) returns (packages: seq<ForeignPackage>)
      modifies host
      ensures host.log == old(host.log) + [Invocation(["pacman", "-Qm"], Inherited)]
      ensures match host.respond(|old(host.log)|, Invocation(["pacman", "-Qm"], Inherited))
        case Raised(_) => packages == []
        case Exited(_, stdout) => packages == ForeignPackages(Lines(Strip(stdout)))
    {
      var c := host.Run(["pacman", "-Qm"], Inherited);
      match c
      case Raised(_) =>
        packages := [];
      case Exited(_, stdout) =>
        packages := ParseForeignOutput(stdout);
    }
  }
}
