/** The outside world as the program sees it: which executables `shutil.which` finds, and
    what `subprocess.run` reports for each command it launches. Both are oracles that may
    depend on how many processes have run so far, so installing something can put a new
    executable on PATH. */
module Process {
  import opened Base
  import opened Text

  /** The working directory of a launched process: the program's own, or a path inside the
      temporary workspace of a helper build (`""` is the workspace itself). */
  datatype Dir = Inherited | Workspace(sub: string)

  /** One `subprocess.run` call: the argument vector and the working directory. */
  datatype Invocation = Invocation(argv: seq<string>, dir: Dir)

  /** What `subprocess.run` reports: the process exited with a status and printed text, or
      the call raised (the executable could not be started, a timeout expired, ...). */
  datatype Completion = Exited(code: int, stdout: string) | Raised(message: string)

  /** What opening and reading a file gives: its text; `FileNotFoundError`; or any other
      error raised on the way (permission refused, a directory, undecodable bytes), with
      its message. */
  datatype FileRead = Read(text: string) | Missing | Unreadable(error: string)

  /** The host. `path(n)` is the set of executables on PATH once `n` processes have run, and
      `respond(n, inv)` is what the `(n+1)`-th process reports; `log` records every process
      launched, in order. */
  class Host {
    const path: nat -> set<string>
    const respond: (nat, Invocation) -> Completion
    var log: seq<Invocation>

    constructor (path: nat -> set<string>, respond: (nat, Invocation) -> Completion)
      ensures this.path == path && this.respond == respond && log == []
    {
      this.path := path;
      this.respond := respond;
      log := [];
    }

    /** The executables `shutil.which` finds now. */
    function OnPath(): set<string>
      reads this
    {
      path(|log|)
    }

    /** Launch one process and wait for it. */
    method Run(argv: seq<string>, dir: Dir) returns (c: Completion)
      modifies this
      ensures log == old(log) + [Invocation(argv, dir)]
      ensures c == respond(|old(log)|, Invocation(argv, dir))
    {
      c := respond(|log|, Invocation(argv, dir));
      log := log + [Invocation(argv, dir)];
    }
  }

  /** `subprocess.run(..., check=True)` inside `try ... except CalledProcessError: return False`:
      true on exit status 0, false on any other status, and any other exception escapes. */
  function Checked(c: Completion): (r: Outcome<bool>)
    ensures r.Return? <==> c.Exited?
    ensures r.Return? ==> (r.value <==> c.code == 0)
  {
    match c
    case Exited(code, _) => Return(code == 0)
    case Raised(msg) => Throw(msg)
  }

  /** The step of a `check=True` call fails: a non-zero status or an exception. */
  predicate Fails(c: Completion) {
    !(c.Exited? && c.code == 0)
  }

  /** The index of the first entry of a priority table whose executable is on PATH. */
  function FirstPresent<T>(table: seq<(string, T)>, present: set<string>): (r: Option<nat>)
    ensures r.Some? ==> r.value < |table| && table[r.value].0 in present
    ensures r.Some? ==> forall j :: 0 <= j < r.value ==> table[j].0 !in present
    ensures r.None? <==> forall j :: 0 <= j < |table| ==> table[j].0 !in present
  {
    if table == [] then None
    else if table[0].0 in present then Some(0)
    else
      match FirstPresent(table[1..], present)
      case None => None
      case Some(i) => Some(i + 1)
  }

  /** The value of the first entry of a priority table whose executable is on PATH. */
  function Probe<T>(table: seq<(string, T)>, present: set<string>): Option<T> {
    match FirstPresent(table, present)
    case None => None
    case Some(i) => Some(table[i].1)
  }

  /** A priority table is scanned from its first entry. */
  lemma ProbeCons<T>(table: seq<(string, T)>, present: set<string>)
    ensures Probe(table, present) ==
      if table == [] then None
      else if table[0].0 in present then Some(table[0].1)
      else Probe(table[1..], present)
  {
    if table != [] && table[0].0 !in present {
      match FirstPresent(table[1..], present)
      case None =>
      case Some(i) => assert table[1..][i] == table[i + 1];
    }
  }

  /** Python's `repr` of a list of strings, for strings without quotes or escapes. */
  function ListRepr(items: seq<string>): string {
    "[" + Join(", ", QuoteAll(items)) + "]"
  }

  function QuoteAll(items: seq<string>): (r: seq<string>)
    ensures |r| == |items|
  {
    if items == [] then [] else ["'" + items[0] + "'"] + QuoteAll(items[1..])
  }

  /** `str(e)` of the `CalledProcessError` raised by a `check=True` call that exited with `code`. */
  function CalledProcessErrorText(argv: seq<string>, code: int): string {
    "Command '" + ListRepr(argv) + "' returned non-zero exit status " + IntToString(code) + "."
  }
}
