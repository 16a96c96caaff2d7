/** The development-packs page: the worker that installs or removes the packages of a pack
    one after the other and reports progress, and the rules the page uses to decide what a
    pack still needs, how its button is labelled and how its package list is shown. */
module DevPacks {
  import opened Base
  import opened Text
  import opened Process
  import opened PackageBackend

  // ---------------------------------------------------------------------------
  // The batch worker

  /** The worker's `action` argument. The page only passes "install" and "remove"; any
      other string is kept as `Other`. */
  datatype Action = Install | Remove | Other(name: string)

  /** A signal the worker emits: `progress(percent, label)` or `finished(success, message)`. */
  datatype Event = Progress(percent: int, caption: string) | Finished(success: bool, message: string)

  /** How one package of the list went. */
  datatype Verdict =
    | AlreadyDone            // already in the requested state: counted as a success, nothing run
    | Changed                // the privileged command exited with status 0
    | Refused                // the privileged command exited with another status
    | Ignored                // the action is neither install nor remove: not counted at all
    | Aborted(error: string) // an exception escaped the package manager; the run stops
  {
    /** Counted in `success_count`. */
    predicate Succeeded() { AlreadyDone? || Changed? }
  }

  /** One package handled: the processes it launched and its verdict. */
  datatype Item = Item(package: string, launched: seq<Invocation>, verdict: Verdict)

  /** The backend command the action runs on a package that needs it. */
  function MutationCommand(b: BackendKind, action: Action, package: string): seq<string> {
    if action.Install? then InstallCommand(b, package) else RemoveCommand(b, package)
  }

  /** The query `is_installed` runs for a package. */
  function Query(b: BackendKind, package: string): Invocation {
    Invocation(IsInstalledCommand(b, package), Inherited)
  }

  /** One iteration of the loop, started when `t` processes have run: ask whether the package
      is installed; when it is not in the requested state, run the privileged install or
      remove command (the privilege prefix is looked up afresh at that moment). */
  function ItemOutcome(b: BackendKind, path: nat -> set<string>, respond: (nat, Invocation) -> Completion,
                       t: nat, action: Action, package: string): (r: Item)
    ensures r.package == package && |r.launched| <= 2
    ensures r.verdict.Ignored? <==> action.Other?
  {
    if action.Other? then Item(package, [], Ignored)
    else
      match Checked(respond(t, Query(b, package)))
      case Throw(e) => Item(package, [Query(b, package)], Aborted(e))
      case Return(present) =>
        if present == action.Install? then Item(package, [Query(b, package)], AlreadyDone)
        else
          match PrivilegeCommand(path(t + 1))
          case Throw(e) => Item(package, [Query(b, package)], Aborted(e))
          case Return(prefix) =>
            var run := Invocation(prefix + MutationCommand(b, action, package), Inherited);
            match Checked(respond(t + 1, run))
            case Throw(e) => Item(package, [Query(b, package), run], Aborted(e))
            case Return(ok) => Item(package, [Query(b, package), run], if ok then Changed else Refused)
  }

  /** The loop body as a function of how many processes have run and of the package. */
  type Step = (nat, string) -> Item

  /** `step` is the worker's loop body for this backend, host and action. (The trigger keeps
      the definition of a step out of reasoning that only follows the loop.) */
  ghost predicate Implements(step: Step, b: BackendKind, path: nat -> set<string>,
                             respond: (nat, Invocation) -> Completion, action: Action)
  {
    forall t: nat, p: string {:trigger ItemOutcome(b, path, respond, t, action, p)} ::
      step(t, p) == ItemOutcome(b, path, respond, t, action, p)
  }

  /** The loop body as a function value implements it. */
  lemma HandlerImplements(b: BackendKind, path: nat -> set<string>, respond: (nat, Invocation) -> Completion, action: Action)
    ensures Implements((t: nat, p: string) => ItemOutcome(b, path, respond, t, action, p), b, path, respond, action)
  {
  }

  /** The integer percentage reported before the `i`-th of `total` packages. */
  function Percent(i: nat, total: nat): int
    requires i < total
  {
    (i * 100) / total
  }

  /** The final message when no exception escaped, from `success_count` and
      `failed_packages`. */
  function Message(action: Action, successes: nat, failed: seq<string>): (r: string)
    ensures failed != [] ==> StartsWith(r, "Completed with ")
    ensures failed == [] ==> StartsWith(r, "Successfully ")
  {
    if failed != [] then "Completed with " + NatToString(|failed|) + " failures: " + Join(", ", failed)
    else "Successfully " + (if action.Install? then "installed" else "removed") + " " + NatToString(successes) + " packages"
  }

  /** How the loop ended: an exception escaped with this text, or every package was handled
      and the counters stand at `successes` and `failed`. */
  datatype Ending = Stopped(error: string) | Counted(successes: nat, failed: seq<string>)

  /** What the loop of a run does from some position on: the processes it launches, the
      progress events it emits, and how it ends. */
  datatype Walked = Walked(launched: seq<Invocation>, progress: seq<Event>, ending: Ending)

  /** The loop from position `i` of the list after `t` processes, with the counters
      `successes` and `failed` so far. */
  function WalkFrom(step: Step, packages: seq<string>, i: nat, t: nat, successes: nat, failed: seq<string>): Walked
    requires i <= |packages|
    decreases |packages| - i
  {
    if i == |packages| then Walked([], [], Counted(successes, failed))
    else
      var it := step(t, packages[i]);
      var head := Progress(Percent(i, |packages|), packages[i]);
      if it.verdict.Aborted? then Walked(it.launched, [head], Stopped(it.verdict.error))
      else
        var rest := WalkFrom(step, packages, i + 1, t + |it.launched|,
                             successes + (if it.verdict.Succeeded() then 1 else 0),
                             failed + (if it.verdict.Refused? then [packages[i]] else []));
        Walked(it.launched + rest.launched, [head] + rest.progress, rest.ending)
  }

  /** The events after the loop: the exception's text alone, or "Done" and the summary. */
  function Closing(action: Action, ending: Ending): seq<Event> {
    match ending
    case Stopped(error) => [Finished(false, error)]
    case Counted(successes, failed) => [Progress(100, "Done"), Finished(failed == [], Message(action, successes, failed))]
  }

  /** What a run does to the world: the processes it launches and the signals it emits. */
  datatype Trace = Trace(launched: seq<Invocation>, events: seq<Event>)

  /** A whole run started after `t` processes. */
  function RunOf(step: Step, action: Action, packages: seq<string>, t: nat): Trace {
    var w := WalkFrom(step, packages, 0, t, 0, []);
    Trace(w.launched, w.progress + Closing(action, w.ending))
  }

  /** `PackInstallWorker`: the package manager, the package list and the action are fixed when
      the worker is made; `emitted` records the signals it sends, in order. */
  class PackInstallWorker {
    const pm: PackageManager
    const packages: seq<string>
    const action: Action
    var emitted: seq<Event>

    constructor (pm: PackageManager, packages: seq<string>, action: Action)
      ensures this.pm == pm && this.packages == packages && this.action == action && emitted == []
    {
      this.pm := pm;
      this.packages := packages;
      this.action := action;
      emitted := [];
    }

    /** The body of one iteration of `run`. */
    method Handle(host: Host, package: string, ghost step: Step) returns (v: Verdict)
      requires Implements(step, pm.manager, host.path, host.respond, action)
      modifies host
      ensures var it := step(|old(host.log)|, package);
        host.log == old(host.log) + it.launched && v == it.verdict
    {
      assert step(|host.log|, package) == ItemOutcome(pm.manager, host.path, host.respond, |host.log|, action, package);
      if action.Other? {
        return Ignored;
      }
      var present := pm.IsInstalled(host, package);
      if present.Throw? {
        return Aborted(present.error);
      }
      if present.value == action.Install? {
        return AlreadyDone;
      }
      var r;
      if action.Install? {
        r := pm.Install(host, package);
      } else {
        r := pm.Remove(host, package);
      }
      if r.Throw? {
        return Aborted(r.error);
      }
      v := if r.value then Changed else Refused;
    }

    /** `run`: the loop inside the `try`, then "Done" and the summary; an exception stops the
        loop and its text becomes the failure message, with no "Done" event. */
    method Run(host: Host, ghost step: Step)
      requires Implements(step, pm.manager, host.path, host.respond, action)
      modifies this, host
      ensures var r := RunOf(step, action, packages, |old(host.log)|);
        host.log == old(host.log) + r.launched && emitted == old(emitted) + r.events
    {
      var ending := HandleAll(host, step);
      ghost var before := emitted;
      match ending
      case Stopped(error) =>
        emitted := emitted + [Finished(false, error)];
      case Counted(successes, failed) =>
        emitted := emitted + [Progress(100, "Done")];
        emitted := emitted + [Finished(failed == [], Message(action, successes, failed))];
        assert emitted == before + Closing(action, ending);
      ConcatAssoc(old(emitted), before[|old(emitted)|..], Closing(action, ending));
    }

    /** The loop of `run`: a progress event before each package, then the package handled; an
        exception leaves the loop at once. */
    method HandleAll(host: Host, ghost step: Step) returns (ending: Ending)
      requires Implements(step, pm.manager, host.path, host.respond, action)
      modifies this, host
      ensures var w := WalkFrom(step, packages, 0, |old(host.log)|, 0, []);
        host.log == old(host.log) + w.launched && emitted == old(emitted) + w.progress && ending == w.ending
    {
      ghost var whole := WalkFrom(step, packages, 0, |host.log|, 0, []);
      ghost var doneLaunched: seq<Invocation> := [];
      ghost var doneProgress: seq<Event> := [];
      var total := |packages|;
      var successCount := 0;
      var failed: seq<string> := [];
      var i := 0;
      while i < total
        invariant 0 <= i <= total
        invariant host.log == old(host.log) + doneLaunched
        invariant emitted == old(emitted) + doneProgress
        invariant whole == Prepend(doneLaunched, doneProgress, WalkFrom(step, packages, i, |host.log|, successCount, failed))
      {
        var v;
        ghost var launched, progress;
        v, successCount, failed, launched, progress :=
          Turn(host, step, i, successCount, failed, whole, old(host.log), old(emitted), doneLaunched, doneProgress);
        if v.Aborted? {
          return Stopped(v.error);
        }
        doneLaunched, doneProgress := launched, progress;
        i := i + 1;
      }
      assert doneLaunched + [] == doneLaunched && doneProgress + [] == doneProgress;
      ending := Counted(successCount, failed);
    }

    /** One turn of the loop of `run`: the progress event for the `i`-th package, the package
        handled, and the counters updated unless an exception escaped. In terms of the whole
        walk: what has been done grows by this package's processes and event, and either the
        walk stops here or the rest of it starts at the next package. */
    method Turn(host: Host, ghost step: Step, i: nat, successCount: nat, failed: seq<string>, ghost whole: Walked,
                ghost startLog: seq<Invocation>, ghost startEmitted: seq<Event>,
                ghost doneLaunched: seq<Invocation>, ghost doneProgress: seq<Event>)
      returns (v: Verdict, successes: nat, failures: seq<string>, ghost launched: seq<Invocation>, ghost progress: seq<Event>)
      requires i < |packages| && Implements(step, pm.manager, host.path, host.respond, action)
      requires host.log == startLog + doneLaunched && emitted == startEmitted + doneProgress
      requires whole == Prepend(doneLaunched, doneProgress, WalkFrom(step, packages, i, |host.log|, successCount, failed))
      modifies this, host
      ensures host.log == startLog + launched && emitted == startEmitted + progress
      ensures v == step(|old(host.log)|, packages[i]).verdict
      ensures v.Aborted? ==> whole == Walked(launched, progress, Stopped(v.error))
      ensures !v.Aborted? ==>
        whole == Prepend(launched, progress, WalkFrom(step, packages, i + 1, |host.log|, successes, failures))
    {
      ghost var t := |host.log|;
      ghost var it := step(t, packages[i]);
      var head := Progress(Percent(i, |packages|), packages[i]);
      emitted := emitted + [head];
      v := Handle(host, packages[i], step);
      launched, progress := doneLaunched + it.launched, doneProgress + [head];
      ConcatAssoc(startLog, doneLaunched, it.launched);
      ConcatAssoc(startEmitted, doneProgress, [head]);
      successes, failures := successCount, failed;
      if v.Aborted? {
        StopWalk(step, packages, i, t, successCount, failed, whole, doneLaunched, doneProgress);
        return;
      }
      if v.AlreadyDone? || v.Changed? {
        successes := successes + 1;
      } else if v.Refused? {
        failures := failures + [packages[i]];
      }
      assert |host.log| == t + |it.launched|;
      assert successes == successCount + (if it.verdict.Succeeded() then 1 else 0);
      assert failures == failed + (if it.verdict.Refused? then [packages[i]] else []);
      AdvanceWalk(step, packages, i, t, successCount, failed, whole, doneLaunched, doneProgress);
    }
  }

  /** Processes and progress events already done, ahead of the rest of the loop. */
  function Prepend(launched: seq<Invocation>, progress: seq<Event>, w: Walked): Walked {
    Walked(launched + w.launched, progress + w.progress, w.ending)
  }

  /** A turn of the loop that raised ends it. */
  lemma StopWalk(step: Step, packages: seq<string>, i: nat, t: nat, successes: nat, failed: seq<string>,
                 whole: Walked, doneLaunched: seq<Invocation>, doneProgress: seq<Event>)
    requires i < |packages| && step(t, packages[i]).verdict.Aborted?
    requires whole == Prepend(doneLaunched, doneProgress, WalkFrom(step, packages, i, t, successes, failed))
    ensures var it := step(t, packages[i]);
      whole == Walked(doneLaunched + it.launched, doneProgress + [Progress(Percent(i, |packages|), packages[i])],
                      Stopped(it.verdict.error))
  {
  }

  /** A turn of the loop that did not raise moves the handled package into what is done and
      updates the counters. */
  lemma AdvanceWalk(step: Step, packages: seq<string>, i: nat, t: nat, successes: nat, failed: seq<string>,
                    whole: Walked, doneLaunched: seq<Invocation>, doneProgress: seq<Event>)
    requires i < |packages| && !step(t, packages[i]).verdict.Aborted?
    requires whole == Prepend(doneLaunched, doneProgress, WalkFrom(step, packages, i, t, successes, failed))
    ensures var it := step(t, packages[i]);
      whole == Prepend(doneLaunched + it.launched, doneProgress + [Progress(Percent(i, |packages|), packages[i])],
                       WalkFrom(step, packages, i + 1, t + |it.launched|,
                                successes + (if it.verdict.Succeeded() then 1 else 0),
                                failed + (if it.verdict.Refused? then [packages[i]] else [])))
  {
    var it := step(t, packages[i]);
    var rest := WalkFrom(step, packages, i + 1, t + |it.launched|,
                         successes + (if it.verdict.Succeeded() then 1 else 0),
                         failed + (if it.verdict.Refused? then [packages[i]] else []));
    ConcatAssoc(doneLaunched, it.launched, rest.launched);
    ConcatAssoc(doneProgress, [Progress(Percent(i, |packages|), packages[i])], rest.progress);
  }

  // ---------------------------------------------------------------------------
  // What a run means

  /** The packages the loop handles, in order, up to and including the one whose handling
      raised (the exception leaves the loop). */
  function Items(step: Step, t: nat, packages: seq<string>): (items: seq<Item>)
    ensures |items| <= |packages|
    decreases |packages|
  {
    if packages == [] then []
    else
      var it := step(t, packages[0]);
      if it.verdict.Aborted? then [it]
      else [it] + Items(step, t + |it.launched|, packages[1..])
  }

  /** Every process the handled packages launched, in order. */
  function Launched(items: seq<Item>): seq<Invocation> {
    if items == [] then [] else items[0].launched + Launched(items[1..])
  }

  /** `success_count`: packages already in the requested state or changed successfully. */
  function Successes(items: seq<Item>): nat {
    if items == [] then 0 else (if items[0].verdict.Succeeded() then 1 else 0) + Successes(items[1..])
  }

  /** `failed_packages`: the packages whose command failed, in input order. */
  function Failures(items: seq<Item>): seq<string> {
    if items == [] then [] else (if items[0].verdict.Refused? then [items[0].package] else []) + Failures(items[1..])
  }

  /** The progress events of the `n` packages from position `i` on. */
  function ProgressFrom(packages: seq<string>, i: nat, n: nat): (ev: seq<Event>)
    requires i + n <= |packages|
    ensures |ev| == n
    decreases n
  {
    if n == 0 then [] else [Progress(Percent(i, |packages|), packages[i])] + ProgressFrom(packages, i + 1, n - 1)
  }

  /** How the loop ends when the counters before `items` stood at `successes` and `failed`:
      with the exception of the last package if it raised, otherwise with the counters
      updated by every handled package. */
  function EndingAfter(items: seq<Item>, successes: nat, failed: seq<string>): Ending {
    if items != [] && items[|items| - 1].verdict.Aborted? then Stopped(items[|items| - 1].verdict.error)
    else Counted(successes + Successes(items), failed + Failures(items))
  }

  /** How the loop of a whole run ends. */
  function EndingOf(items: seq<Item>): Ending {
    EndingAfter(items, 0, [])
  }

  /** The loop from position `i` on, told as the packages handled from there: their
      processes, their progress events and how it ends. */
  ghost predicate ToldByItems(step: Step, packages: seq<string>, i: nat, t: nat, successes: nat, failed: seq<string>)
    requires i <= |packages|
  {
    var rest := Items(step, t, packages[i..]);
    i + |rest| <= |packages| &&
    WalkFrom(step, packages, i, t, successes, failed) ==
      Walked(Launched(rest), ProgressFrom(packages, i, |rest|), EndingAfter(rest, successes, failed))
  }

  /** The loop, from any position, is told by the packages it handles. */
  lemma {:induction false} WalkItems(step: Step, packages: seq<string>, i: nat, t: nat, successes: nat, failed: seq<string>)
    requires i <= |packages|
    requires forall t': nat, p: string :: step(t', p).package == p
    ensures ToldByItems(step, packages, i, t, successes, failed)
    decreases |packages| - i
  {
    if i == |packages| {
      WalkItemsAtEnd(step, packages, t, successes, failed);
    } else if step(t, packages[i]).verdict.Aborted? {
      WalkItemsAborted(step, packages, i, t, successes, failed);
    } else {
      var it := step(t, packages[i]);
      WalkItems(step, packages, i + 1, t + |it.launched|,
                successes + (if it.verdict.Succeeded() then 1 else 0),
                failed + (if it.verdict.Refused? then [packages[i]] else []));
      WalkItemsNext(step, packages, i, t, successes, failed);
    }
  }

  lemma WalkItemsAtEnd(step: Step, packages: seq<string>, t: nat, successes: nat, failed: seq<string>)
    ensures ToldByItems(step, packages, |packages|, t, successes, failed)
  {
    assert packages[|packages|..] == [];
    assert failed + [] == failed;
  }

  lemma WalkItemsAborted(step: Step, packages: seq<string>, i: nat, t: nat, successes: nat, failed: seq<string>)
    requires i < |packages| && step(t, packages[i]).verdict.Aborted?
    ensures ToldByItems(step, packages, i, t, successes, failed)
  {
    var it := step(t, packages[i]);
    assert packages[i..][0] == packages[i];
    var rest := Items(step, t, packages[i..]);
    assert rest == [it] && [it][1..] == [];
    assert Launched(rest) == it.launched + [];
  }

  lemma WalkItemsNext(step: Step, packages: seq<string>, i: nat, t: nat, successes: nat, failed: seq<string>)
    requires i < |packages|
    requires step(t, packages[i]).package == packages[i]
    requires var it := step(t, packages[i]);
      !it.verdict.Aborted? &&
      ToldByItems(step, packages, i + 1, t + |it.launched|,
                  successes + (if it.verdict.Succeeded() then 1 else 0),
                  failed + (if it.verdict.Refused? then [packages[i]] else []))
    ensures ToldByItems(step, packages, i, t, successes, failed)
  {
    var it := step(t, packages[i]);
    var tail := Items(step, t + |it.launched|, packages[i + 1..]);
    assert packages[i..][0] == packages[i] && packages[i..][1..] == packages[i + 1..];
    var rest := Items(step, t, packages[i..]);
    assert rest == [it] + tail && ([it] + tail)[1..] == tail;
    EndingStep(it, tail, successes, failed);
  }

  /** Moving the first handled package into the counters leaves the ending unchanged. */
  lemma EndingStep(it: Item, tail: seq<Item>, successes: nat, failed: seq<string>)
    requires !it.verdict.Aborted?
    ensures EndingAfter([it] + tail, successes, failed) ==
      EndingAfter(tail, successes + (if it.verdict.Succeeded() then 1 else 0),
                  failed + (if it.verdict.Refused? then [it.package] else []))
  {
    var items := [it] + tail;
    assert items[1..] == tail;
    assert tail != [] ==> items[|items| - 1] == tail[|tail| - 1];
    ConcatAssoc(failed, if it.verdict.Refused? then [it.package] else [], Failures(tail));
  }

  /** A whole run is the handled packages' processes, one progress event per handled package
      and the closing events of how the loop ended. */
  lemma RunMeaning(step: Step, action: Action, packages: seq<string>, t: nat)
    requires forall t': nat, p: string :: step(t', p).package == p
    ensures var items := Items(step, t, packages);
      RunOf(step, action, packages, t) ==
        Trace(Launched(items), ProgressFrom(packages, 0, |items|) + Closing(action, EndingOf(items)))
  {
    WalkItems(step, packages, 0, t, 0, []);
    assert packages[0..] == packages;
    assert ToldByItems(step, packages, 0, t, 0, []);
  }

  /** One package: with install or remove, the installed-query runs first, without privilege;
      the package counts as already done exactly when the query says it is in the requested
      state, and then nothing else runs; otherwise exactly one privileged install or remove
      command follows, and its exit status alone decides success or failure. */
  lemma ItemMeaning(b: BackendKind, path: nat -> set<string>, respond: (nat, Invocation) -> Completion,
                    t: nat, action: Action, package: string)
    ensures var it := ItemOutcome(b, path, respond, t, action, package);
      && it.package == package
      && (it.verdict.Ignored? <==> action.Other?)
      && (action.Other? ==> it.launched == [])
      && (!action.Other? ==> 1 <= |it.launched| <= 2 && it.launched[0] == Query(b, package))
      && (it.verdict.AlreadyDone? <==> !action.Other? && Checked(respond(t, Query(b, package))) == Return(action.Install?))
      && (it.verdict.AlreadyDone? ==> it.launched == [Query(b, package)])
      && (it.verdict.Changed? || it.verdict.Refused? ==>
            && |it.launched| == 2
            && PrivilegeCommand(path(t + 1)).Return?
            && it.launched[1] == Invocation(PrivilegeCommand(path(t + 1)).value + MutationCommand(b, action, package), Inherited)
            && (it.verdict.Changed? <==> !Fails(respond(t + 1, it.launched[1]))))
  {
  }

  /** The loop handles the packages in input order and only an exception stops it early. */
  lemma {:induction false} ItemsShape(step: Step, t: nat, packages: seq<string>)
    requires forall t': nat, p: string :: step(t', p).package == p
    ensures var items := Items(step, t, packages);
      && (forall i :: 0 <= i < |items| ==> items[i].package == packages[i])
      && (forall i :: 0 <= i < |items| - 1 ==> !items[i].verdict.Aborted?)
      && (|items| < |packages| ==> items != [] && items[|items| - 1].verdict.Aborted?)
    decreases |packages|
  {
    if packages != [] {
      var it := step(t, packages[0]);
      if !it.verdict.Aborted? {
        var rest := Items(step, t + |it.launched|, packages[1..]);
        ItemsShape(step, t + |it.launched|, packages[1..]);
        assert Items(step, t, packages) == [it] + rest;
      }
    }
  }

  /** A property every step result has holds of every handled package. */
  lemma {:induction false} ItemsKeep(step: Step, t: nat, packages: seq<string>, ok: Item -> bool)
    requires forall t': nat, p: string :: ok(step(t', p))
    ensures forall i :: 0 <= i < |Items(step, t, packages)| ==> ok(Items(step, t, packages)[i])
    decreases |packages|
  {
    if packages != [] {
      var it := step(t, packages[0]);
      if !it.verdict.Aborted? {
        ItemsKeep(step, t + |it.launched|, packages[1..], ok);
      }
    }
  }

  /** The worker's step names the package it was given, and ignores it exactly for an action
      other than install or remove. */
  lemma StepFacts(step: Step, b: BackendKind, path: nat -> set<string>, respond: (nat, Invocation) -> Completion, action: Action)
    requires Implements(step, b, path, respond, action)
    ensures forall t': nat, p: string :: step(t', p).package == p
    ensures forall t': nat, p: string :: step(t', p).verdict.Ignored? <==> action.Other?
    ensures action.Other? ==> forall t': nat, p: string :: step(t', p) == Item(p, [], Ignored)
  {
    forall t': nat, p: string
      ensures step(t', p).package == p
      ensures step(t', p).verdict.Ignored? <==> action.Other?
      ensures action.Other? ==> step(t', p) == Item(p, [], Ignored)
    {
      ItemMeaning(b, path, respond, t', action, p);
    }
  }

  /** Every package that was handled without an exception is either a success or a failure. */
  lemma {:induction false} TallyCoversItems(items: seq<Item>)
    requires forall i :: 0 <= i < |items| ==> items[i].verdict.Succeeded() || items[i].verdict.Refused?
    ensures Successes(items) + |Failures(items)| == |items|
  {
    if items != [] {
      TallyCoversItems(items[1..]);
    }
  }

  /** Without an exception every package is handled, and with install or remove
      `success_count + len(failed_packages) == total`. */
  lemma WorkerTally(step: Step, b: BackendKind, path: nat -> set<string>, respond: (nat, Invocation) -> Completion,
                    t: nat, action: Action, packages: seq<string>)
    requires Implements(step, b, path, respond, action) && !action.Other?
    ensures var items := Items(step, t, packages);
      !(items != [] && items[|items| - 1].verdict.Aborted?) ==>
        |items| == |packages| && Successes(items) + |Failures(items)| == |packages|
  {
    var items := Items(step, t, packages);
    StepFacts(step, b, path, respond, action);
    ItemsShape(step, t, packages);
    ItemsKeep(step, t, packages, (it: Item) => !it.verdict.Ignored?);
    if !(items != [] && items[|items| - 1].verdict.Aborted?) {
      TallyCoversItems(items);
    }
  }

  /** Ignored packages launch nothing and count nothing. */
  lemma {:induction false} IgnoredItems(items: seq<Item>)
    requires forall i :: 0 <= i < |items| ==> items[i] == Item(items[i].package, [], Ignored)
    ensures Launched(items) == [] && Successes(items) == 0 && Failures(items) == []
  {
    if items != [] {
      IgnoredItems(items[1..]);
    }
  }

  /** Any other action string runs nothing, counts nothing and reports
      "Successfully removed 0 packages". */
  lemma OtherActionDoesNothing(step: Step, b: BackendKind, path: nat -> set<string>, respond: (nat, Invocation) -> Completion,
                               t: nat, name: string, packages: seq<string>)
    requires Implements(step, b, path, respond, Other(name))
    ensures var items := Items(step, t, packages);
      && |items| == |packages|
      && Launched(items) == []
      && Closing(Other(name), EndingOf(items)) == [Progress(100, "Done"), Finished(true, "Successfully removed 0 packages")]
  {
    var items := Items(step, t, packages);
    StepFacts(step, b, path, respond, Other(name));
    ItemsShape(step, t, packages);
    ItemsKeep(step, t, packages, (it: Item) => it == Item(it.package, [], Ignored));
    IgnoredItems(items);
    if items != [] {
      assert !items[|items| - 1].verdict.Aborted?;
    }
    assert [] + Failures(items) == [];
    NothingRemovedMessage(name);
  }

  lemma NothingRemovedMessage(name: string)
    ensures Message(Other(name), 0, []) == "Successfully removed 0 packages"
  {
    calc {
      Message(Other(name), 0, []);
      "Successfully " + "removed" + " " + NatToString(0) + " packages";
      { assert NatToString(0) == "0"; }
      "Successfully " + "removed" + " " + "0" + " packages";
    }
  }

  /** Multiplying by a positive number keeps a strict order. */
  lemma MulCancel(d: int, x: int, y: int)
    requires d > 0 && d * x < d * y
    ensures x < y
  {
  }

  /** The percentage is below 100 for every package and never decreases along the list. */
  lemma PercentBounds(i: nat, j: nat, total: nat)
    requires i <= j < total
    ensures 0 <= Percent(i, total) <= Percent(j, total) < 100
  {
    var p, q := Percent(i, total), Percent(j, total);
    assert total * p <= i * 100 <= j * 100 < total * (q + 1);
    MulCancel(total, p, q + 1);
    assert total * q <= j * 100 < total * 100;
    MulCancel(total, q, 100);
  }

  /** The `k`-th progress event from position `i` names the package at `i + k`. */
  lemma ProgressFromAt(packages: seq<string>, i: nat, n: nat)
    requires i + n <= |packages|
    ensures forall k :: 0 <= k < n ==> ProgressFrom(packages, i, n)[k] == Progress(Percent(i + k, |packages|), packages[i + k])
  {
    forall k | 0 <= k < n
      ensures ProgressFrom(packages, i, n)[k] == Progress(Percent(i + k, |packages|), packages[i + k])
    {
      ProgressFromIndex(packages, i, n, k);
    }
  }

  /** One progress event, by induction on its position. */
  lemma {:induction false} ProgressFromIndex(packages: seq<string>, i: nat, n: nat, k: nat)
    requires i + n <= |packages| && k < n
    ensures ProgressFrom(packages, i, n)[k] == Progress(Percent(i + k, |packages|), packages[i + k])
    decreases k
  {
    if k > 0 {
      ProgressFromIndex(packages, i + 1, n - 1, k - 1);
      assert i + 1 + (k - 1) == i + k;
    }
  }

  /** The emitted events: one progress event per handled package, with percentages below 100
      that never decrease, then exactly one `finished` event, last; it reports success
      exactly when no exception escaped and no package failed. */
  lemma WorkerEvents(packages: seq<string>, action: Action, items: seq<Item>)
    requires |items| <= |packages|
    ensures var ev := ProgressFrom(packages, 0, |items|) + Closing(action, EndingOf(items));
      && (forall i :: 0 <= i < |items| ==> ev[i] == Progress(Percent(i, |packages|), packages[i]))
      && (forall i, j :: 0 <= i <= j < |items| ==> 0 <= ev[i].percent <= ev[j].percent < 100)
      && (forall i :: 0 <= i < |ev| - 1 ==> ev[i].Progress?)
      && ev[|ev| - 1].Finished?
      && (ev[|ev| - 1].success <==> !(items != [] && items[|items| - 1].verdict.Aborted?) && Failures(items) == [])
  {
    ClosingShape(action, items);
    ProgressThenClosing(packages, |items|, Closing(action, EndingOf(items)),
      !(items != [] && items[|items| - 1].verdict.Aborted?) && Failures(items) == []);
  }

  /** The progress events of the first `n` packages followed by closing events of that
      shape, whatever they say. */
  lemma ProgressThenClosing(packages: seq<string>, n: nat, c: seq<Event>, success: bool)
    requires n <= |packages|
    requires 1 <= |c| <= 2 && c[0].Progress? == (|c| == 2) && c[|c| - 1].Finished?
    requires c[|c| - 1].success == success
    ensures var ev := ProgressFrom(packages, 0, n) + c;
      && (forall i :: 0 <= i < n ==> ev[i] == Progress(Percent(i, |packages|), packages[i]))
      && (forall i, j :: 0 <= i <= j < n ==> 0 <= ev[i].percent <= ev[j].percent < 100)
      && (forall i :: 0 <= i < |ev| - 1 ==> ev[i].Progress?)
      && ev[|ev| - 1].Finished?
      && ev[|ev| - 1].success == success
  {
    var p := ProgressFrom(packages, 0, n);
    ProgressFromAt(packages, 0, n);
    EventsShape(p, c);
    forall i, j | 0 <= i <= j < n
      ensures 0 <= p[i].percent <= p[j].percent < 100
    {
      PercentBounds(i, j, |packages|);
    }
  }

  /** The closing events: "Done" and the summary, or only the exception's text. */
  lemma ClosingShape(action: Action, items: seq<Item>)
    ensures var c := Closing(action, EndingOf(items));
      && 1 <= |c| <= 2
      && c[0].Progress? == (|c| == 2)
      && c[|c| - 1].Finished?
      && (c[|c| - 1].success <==> !(items != [] && items[|items| - 1].verdict.Aborted?) && Failures(items) == [])
  {
    assert [] + Failures(items) == Failures(items);
  }

  /** Progress events followed by one or two closing events of that shape. */
  lemma EventsShape(p: seq<Event>, c: seq<Event>)
    requires forall i :: 0 <= i < |p| ==> p[i].Progress?
    requires 1 <= |c| <= 2 && c[0].Progress? == (|c| == 2) && c[|c| - 1].Finished?
    ensures var ev := p + c;
      && (forall i :: 0 <= i < |p| ==> ev[i] == p[i])
      && (forall i :: 0 <= i < |ev| - 1 ==> ev[i].Progress?)
      && ev[|ev| - 1] == c[|c| - 1]
  {
  }

  /** An empty pack emits only "Done" and a success with a count of zero. */
  lemma EmptyPack(step: Step, action: Action, t: nat)
    ensures RunOf(step, action, [], t) ==
      Trace([], [Progress(100, "Done"), Finished(true, "Successfully " + (if action.Install? then "installed" else "removed") + " 0 packages")])
  {
    var word := if action.Install? then "installed" else "removed";
    assert Message(action, 0, []) == "Successfully " + word + " 0 packages" by {
      assert NatToString(0) == "0";
      assert "Successfully " + word + " " + "0" + " packages" == "Successfully " + word + " 0 packages";
    }
  }

  // ---------------------------------------------------------------------------
  // The page's rules for a pack, over a snapshot of which packages are installed

  /** `[pkg for pkg in packages if not is_installed(pkg)]`. */
  function ToInstall(packages: seq<string>, installed: set<string>): (r: seq<string>)
    ensures |r| <= |packages|
    ensures forall i :: 0 <= i < |r| ==> r[i] !in installed
  {
    if packages == [] then []
    else (if packages[0] in installed then [] else [packages[0]]) + ToInstall(packages[1..], installed)
  }

  /** `[pkg for pkg in packages if is_installed(pkg)]`. */
  function ToRemove(packages: seq<string>, installed: set<string>): (r: seq<string>)
    ensures |r| <= |packages|
    ensures forall i :: 0 <= i < |r| ==> r[i] in installed
  {
    if packages == [] then []
    else (if packages[0] in installed then [packages[0]] else []) + ToRemove(packages[1..], installed)
  }

  /** `sum(1 for pkg in packages if is_installed(pkg))`. */
  function InstalledCount(packages: seq<string>, installed: set<string>): (n: nat)
    ensures n <= |packages|
  {
    if packages == [] then 0 else (if packages[0] in installed then 1 else 0) + InstalledCount(packages[1..], installed)
  }

  /** The two filters split a pack: together they hold its packages (with multiplicity), one
      holds exactly the missing ones and the other exactly the installed ones, whose number
      is the installed count. */
  lemma FiltersPartition(packages: seq<string>, installed: set<string>)
    ensures multiset(ToInstall(packages, installed)) + multiset(ToRemove(packages, installed)) == multiset(packages)
    ensures forall p :: p in ToInstall(packages, installed) <==> p in packages && p !in installed
    ensures forall p :: p in ToRemove(packages, installed) <==> p in packages && p in installed
    ensures |ToRemove(packages, installed)| == InstalledCount(packages, installed)
    ensures |ToInstall(packages, installed)| == |packages| - InstalledCount(packages, installed)
  {
    FilterSizes(packages, installed);
    FilterContents(packages, installed);
  }

  /** Together the filters hold the pack's packages, each on the side its state decides. */
  lemma FilterContents(packages: seq<string>, installed: set<string>)
    ensures multiset(ToInstall(packages, installed)) + multiset(ToRemove(packages, installed)) == multiset(packages)
    ensures forall p :: p in ToInstall(packages, installed) <==> p in packages && p !in installed
    ensures forall p :: p in ToRemove(packages, installed) <==> p in packages && p in installed
  {
    FilterMultiset(packages, installed);
    FilterMembers(packages, installed);
  }

  lemma {:induction false} FilterMultiset(packages: seq<string>, installed: set<string>)
    ensures multiset(ToInstall(packages, installed)) + multiset(ToRemove(packages, installed)) == multiset(packages)
  {
    if packages != [] {
      var h, t := packages[0], packages[1..];
      FilterMultiset(t, installed);
      assert packages == [h] + t;
      assert multiset(packages) == multiset{h} + multiset(t);
      if h in installed {
        assert ToRemove(packages, installed) == [h] + ToRemove(t, installed);
        assert ToInstall(packages, installed) == ToInstall(t, installed);
      } else {
        assert ToInstall(packages, installed) == [h] + ToInstall(t, installed);
        assert ToRemove(packages, installed) == ToRemove(t, installed);
      }
    }
  }

  lemma {:induction false} FilterMembers(packages: seq<string>, installed: set<string>)
    ensures forall p :: p in ToInstall(packages, installed) <==> p in packages && p !in installed
    ensures forall p :: p in ToRemove(packages, installed) <==> p in packages && p in installed
  {
    if packages != [] {
      FilterMembers(packages[1..], installed);
      assert packages == [packages[0]] + packages[1..];
    }
  }

  /** The installed packages number the installed count, and the missing ones the rest. */
  lemma {:induction false} FilterSizes(packages: seq<string>, installed: set<string>)
    ensures |ToRemove(packages, installed)| == InstalledCount(packages, installed)
    ensures |ToInstall(packages, installed)| == |packages| - InstalledCount(packages, installed)
  {
    if packages != [] {
      FilterSizes(packages[1..], installed);
    }
  }

  /** The filters keep pack order: filtering a concatenation concatenates the filtered parts. */
  lemma {:induction false} ToInstallKeepsOrder(a: seq<string>, b: seq<string>, installed: set<string>)
    ensures ToInstall(a + b, installed) == ToInstall(a, installed) + ToInstall(b, installed)
  {
    if a == [] {
      assert a + b == b;
    } else {
      var head := if a[0] in installed then [] else [a[0]];
      ToInstallKeepsOrder(a[1..], b, installed);
      assert (a + b)[0] == a[0] && (a + b)[1..] == a[1..] + b;
      calc {
        ToInstall(a + b, installed);
        head + ToInstall(a[1..] + b, installed);
        head + (ToInstall(a[1..], installed) + ToInstall(b, installed));
        { ConcatAssoc(head, ToInstall(a[1..], installed), ToInstall(b, installed)); }
        ToInstall(a, installed) + ToInstall(b, installed);
      }
    }
  }

  lemma {:induction false} ToRemoveKeepsOrder(a: seq<string>, b: seq<string>, installed: set<string>)
    ensures ToRemove(a + b, installed) == ToRemove(a, installed) + ToRemove(b, installed)
  {
    if a == [] {
      assert a + b == b;
    } else {
      var head := if a[0] in installed then [a[0]] else [];
      ToRemoveKeepsOrder(a[1..], b, installed);
      assert (a + b)[0] == a[0] && (a + b)[1..] == a[1..] + b;
      calc {
        ToRemove(a + b, installed);
        head + ToRemove(a[1..] + b, installed);
        head + (ToRemove(a[1..], installed) + ToRemove(b, installed));
        { ConcatAssoc(head, ToRemove(a[1..], installed), ToRemove(b, installed)); }
        ToRemove(a, installed) + ToRemove(b, installed);
      }
    }
  }

  const AllInstalledLabel := "\U{2713} All Installed"
  const InstallPackLabel := "Install Pack"

  /** The install button's text for a pack. */
  function ButtonLabel(packages: seq<string>, installed: set<string>): (r: string)
    ensures packages == [] ==> r == AllInstalledLabel
    ensures r == AllInstalledLabel || r == InstallPackLabel || StartsWith(r, "Install (")
  {
    var installedCount := InstalledCount(packages, installed);
    if installedCount == |packages| then AllInstalledLabel
    else if installedCount > 0 then
      var counted := "Install (" + NatToString(|packages| - installedCount) + " remaining)";
      assert counted[..9] == "Install (";
      counted
    else InstallPackLabel
  }

  /** The label says "All Installed" exactly when nothing is left to install, "Install Pack"
      exactly when the pack is not empty and none of it is installed, and otherwise names
      the number of packages left to install. */
  lemma ButtonLabelMeaning(packages: seq<string>, installed: set<string>)
    ensures var lbl := ButtonLabel(packages, installed);
      && (lbl == AllInstalledLabel <==> ToInstall(packages, installed) == [])
      && (lbl == InstallPackLabel <==> packages != [] && ToRemove(packages, installed) == [])
      && (lbl != AllInstalledLabel && lbl != InstallPackLabel ==>
            && ToInstall(packages, installed) != [] && ToRemove(packages, installed) != []
            && lbl == "Install (" + NatToString(|ToInstall(packages, installed)|) + " remaining)")
  {
    FilterSizes(packages, installed);
    var lbl := ButtonLabel(packages, installed);
    assert AllInstalledLabel[0] != InstallPackLabel[0];
    var n := |packages| - InstalledCount(packages, installed);
    var counted := "Install (" + NatToString(n) + " remaining)";
    assert counted[0] != AllInstalledLabel[0];
    assert counted[8] != InstallPackLabel[8];
  }

  /** What clicking Install or Remove on a pack leads to: an information box when there is
      nothing to do, otherwise a confirmation question and, on "Yes", a worker over `work`. */
  datatype Prompt =
    | Notice(title: string, text: string)
    | Confirm(title: string, question: string, work: seq<string>, action: Action)

  /** `on_install_pack`: the worker gets only the packages that are not installed. */
  function OnInstallPack(name: string, packages: seq<string>, installed: set<string>): (p: Prompt)
    ensures p.Notice? <==> forall i :: 0 <= i < |packages| ==> packages[i] in installed
    ensures p.Confirm? ==> p.action == Install && p.work == ToInstall(packages, installed) && p.work != []
    ensures p.Confirm? ==> forall q :: q in p.work <==> q in packages && q !in installed
  {
    FiltersPartition(packages, installed);
    var work := ToInstall(packages, installed);
    if work == [] then
      Notice("Already Installed", "All packages in " + name + " are already installed.")
    else
      assert work[0] in packages && work[0] !in installed;
      Confirm("Install Pack",
              "Install " + NatToString(|work|) + " packages from " + name + "?\n\nPackages: " + Join(", ", work),
              work, Install)
  }

  /** `on_remove_pack`: the worker gets only the packages that are installed. */
  function OnRemovePack(name: string, packages: seq<string>, installed: set<string>): (p: Prompt)
    ensures p.Notice? <==> forall i :: 0 <= i < |packages| ==> packages[i] !in installed
    ensures p.Confirm? ==> p.action == Remove && p.work == ToRemove(packages, installed) && p.work != []
    ensures p.Confirm? ==> forall q :: q in p.work <==> q in packages && q in installed
  {
    FiltersPartition(packages, installed);
    var work := ToRemove(packages, installed);
    if work == [] then
      Notice("Not Installed", "No packages from " + name + " are installed.")
    else
      assert work[0] in packages && work[0] in installed;
      Confirm("Remove Pack",
              "Remove " + NatToString(|work|) + " packages from " + name + "?\n\nPackages: " + Join(", ", work)
                + "\n\n\U{26A0}\U{FE0F} This may affect other applications.",
              work, Remove)
  }

  const InstalledMark := "\U{2713} "
  const MissingMark := "\U{25CB} "
  const ListSeparator := "  \U{2022}  "

  /** How one package appears in a pack's list. */
  function Entry(package: string, installed: set<string>): string {
    (if package in installed then InstalledMark else MissingMark) + package
  }

  /** Reading an entry back: the package name, and whether it was shown as installed. */
  function ReadEntry(entry: string): (string, bool)
    requires |entry| >= 2
  {
    (entry[2..], entry[0] == InstalledMark[0])
  }

  /** An entry carries the package and its installed state and nothing else. */
  lemma EntryRoundTrip(package: string, installed: set<string>)
    ensures |Entry(package, installed)| >= 2
    ensures ReadEntry(Entry(package, installed)) == (package, package in installed)
  {
    var e := Entry(package, installed);
    assert InstalledMark[0] != MissingMark[0];
    assert e[2..] == package;
  }

  /** `format_packages_list`: mark each package as installed or missing, in pack order, and
      join the entries with a bullet. */
  method FormatPackagesList(packages: seq<string>, installed: set<string>) returns (text: string)
    ensures text == Join(ListSeparator, seq(|packages|, i requires 0 <= i < |packages| => Entry(packages[i], installed)))
  {
    var formatted: seq<string> := [];
    var i := 0;
    while i < |packages|
      invariant 0 <= i <= |packages| && |formatted| == i
      invariant forall j :: 0 <= j < i ==> formatted[j] == Entry(packages[j], installed)
    {
      if packages[i] in installed {
        formatted := formatted + ["\U{2713} " + packages[i]];
      } else {
        formatted := formatted + ["\U{25CB} " + packages[i]];
      }
      i := i + 1;
    }
    assert formatted == seq(|packages|, i requires 0 <= i < |packages| => Entry(packages[i], installed));
    text := Join(ListSeparator, formatted);
  }
}
