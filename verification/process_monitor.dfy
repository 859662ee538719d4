/**
 One tick of the process monitor (Services/ProcessMonitorService.cs): check the trigger
 process names in order, stop at the first one that runs, keep the set of names seen
 running, and launch the "Trigger"-mode programs, sorted by execution order, once per
 detection episode.
 */
module ProcessMonitor {
  import opened Wrappers
  import opened Seqs
  import opened Text
  import opened Models
  import opened Programs
  import TriggerSettings

  /** `_detectedProcesses` and `_isProgramsStarted`; both start empty/false. */
  datatype State = State(detected: set<string>, programsStarted: bool)

  const Initial := State({}, false)

  /** One pass of the `foreach` over the target names: the names it looked up (in order),
      the detected set it leaves, and the name that stopped it. */
  datatype Pass = Pass(checked: seq<string>, detected: set<string>, found: Option<string>)

  /** A running name is added and ends the pass; an absent name is removed; a lookup
      that throws is logged and skipped. */
  function CheckTargets(names: seq<string>, detected: set<string>, lookup: string -> Lookup): (r: Pass)
    ensures r.checked <= names
    ensures r.found.None? ==> r.checked == names
    ensures r.found.Some? ==> r.checked != [] && r.found.value == r.checked[|r.checked| - 1]
    ensures r.found.Some? ==> lookup(r.found.value) == Found
    ensures forall x :: x in r.detected <==>
      r.found == Some(x) || (x in detected && !(x in r.checked && lookup(x) == NotFound))
  {
    if names == [] then Pass([], detected, None)
    else
      match lookup(names[0])
      case Found => Pass([names[0]], detected + {names[0]}, Some(names[0]))
      case NotFound =>
        var rest := CheckTargets(names[1..], detected - {names[0]}, lookup);
        Pass([names[0]] + rest.checked, rest.detected, rest.found)
      case LookupFailed =>
        var rest := CheckTargets(names[1..], detected, lookup);
        Pass([names[0]] + rest.checked, rest.detected, rest.found)
  }

  /** The pass stops at the first running name: every name looked up before it was not
      found, and a pass that found nothing looked up every name. */
  lemma {:induction false} CheckTargetsStopsAtFirst(names: seq<string>, detected: set<string>, lookup: string -> Lookup)
    ensures var r := CheckTargets(names, detected, lookup);
      forall i :: 0 <= i < |r.checked| && r.checked[i] != r.checked[|r.checked| - 1] ==> lookup(r.checked[i]) != Found
    ensures var r := CheckTargets(names, detected, lookup);
      r.found.None? ==> forall i :: 0 <= i < |r.checked| ==> lookup(r.checked[i]) != Found
  {
    if names != [] && lookup(names[0]) != Found {
      var d := if lookup(names[0]) == NotFound then detected - {names[0]} else detected;
      CheckTargetsStopsAtFirst(names[1..], d, lookup);
    }
  }

  /** `processDetected` holds iff some target name runs; a throwing lookup never
      counts as found. */
  lemma {:induction false} CheckTargetsFindsAny(names: seq<string>, detected: set<string>, lookup: string -> Lookup)
    ensures CheckTargets(names, detected, lookup).found.Some? <==> exists n :: n in names && lookup(n) == Found
  {
    if names != [] {
      var d := if lookup(names[0]) == NotFound then detected - {names[0]} else detected;
      CheckTargetsFindsAny(names[1..], d, lookup);
      if lookup(names[0]) != Found {
        assert forall n :: n in names ==> n == names[0] || n in names[1..];
      }
    }
  }

  /** Entries the trigger launcher considers. */
  predicate IsTriggerEntry(p: ProgramInfo) {
    p.isEnabled && p.executionMode == "Trigger"
  }

  /** `xs` is in non-decreasing `ExecutionOrder`. */
  predicate SortedByOrder(xs: seq<ProgramInfo>) {
    forall i, j :: 0 <= i < j < |xs| ==> xs[i].executionOrder <= xs[j].executionOrder
  }

  /** The entries of `xs` with order `k`, in their order in `xs`. */
  function WithOrder(xs: seq<ProgramInfo>, k: int): seq<ProgramInfo> {
    Filter(xs, (p: ProgramInfo) => p.executionOrder == k)
  }

  /** Put `p` in front of the first entry whose order is not smaller. */
  function Insert(p: ProgramInfo, sorted: seq<ProgramInfo>): (r: seq<ProgramInfo>)
    ensures multiset(r) == multiset(sorted) + multiset{p}
  {
    if sorted == [] || p.executionOrder <= sorted[0].executionOrder then [p] + sorted
    else
      assert sorted == [sorted[0]] + sorted[1..];
      [sorted[0]] + Insert(p, sorted[1..])
  }

  lemma {:induction false} InsertSorted(p: ProgramInfo, sorted: seq<ProgramInfo>)
    requires SortedByOrder(sorted)
    ensures SortedByOrder(Insert(p, sorted))
  {
    if sorted != [] && p.executionOrder > sorted[0].executionOrder {
      var rest := Insert(p, sorted[1..]);
      InsertSorted(p, sorted[1..]);
      forall j | 0 <= j < |rest|
        ensures sorted[0].executionOrder <= rest[j].executionOrder
      {
        assert rest[j] in multiset(rest);
        if rest[j] != p {
          assert rest[j] in multiset(sorted[1..]);
          var m :| 0 <= m < |sorted[1..]| && sorted[1..][m] == rest[j];
          assert sorted[1..][m] == sorted[m + 1];
        }
      }
    }
  }

  /** LINQ's `OrderBy(p => p.ExecutionOrder)`: a stable sort. */
  function SortByOrder(xs: seq<ProgramInfo>): (r: seq<ProgramInfo>)
    ensures multiset(r) == multiset(xs)
    ensures SortedByOrder(r)
  {
    if xs == [] then []
    else
      assert xs == [xs[0]] + xs[1..];
      InsertSorted(xs[0], SortByOrder(xs[1..]));
      Insert(xs[0], SortByOrder(xs[1..]))
  }

  lemma WithOrderConcat(a: seq<ProgramInfo>, b: seq<ProgramInfo>, k: int)
    ensures WithOrder(a + b, k) == WithOrder(a, k) + WithOrder(b, k)
  {
    FilterConcat(a, b, (q: ProgramInfo) => q.executionOrder == k);
  }

  lemma WithOrderSingle(x: ProgramInfo, k: int)
    ensures WithOrder([x], k) == if x.executionOrder == k then [x] else []
  {
    assert [x][1..] == [];
  }

  /** Two prefixes commute when one of them is empty. */
  lemma SwapEmpty(a: seq<ProgramInfo>, b: seq<ProgramInfo>, c: seq<ProgramInfo>)
    requires a == [] || b == []
    ensures a + (b + c) == b + (a + c)
  {
    if a == [] {
      assert a + (b + c) == b + c;
      assert a + c == c;
    } else {
      assert b + c == c;
      assert b + (a + c) == a + c;
    }
  }

  /** Past an entry of smaller order, insertion carries on in the tail. */
  lemma InsertPast(p: ProgramInfo, sorted: seq<ProgramInfo>)
    requires sorted != [] && p.executionOrder > sorted[0].executionOrder
    ensures Insert(p, sorted) == [sorted[0]] + Insert(p, sorted[1..])
  {
  }

  /** Inserting `p` puts it before every other entry with the same order. */
  lemma {:induction false} InsertWithOrder(p: ProgramInfo, sorted: seq<ProgramInfo>, k: int)
    ensures WithOrder(Insert(p, sorted), k)
         == (if p.executionOrder == k then [p] else []) + WithOrder(sorted, k)
  {
    var single := if p.executionOrder == k then [p] else [];
    WithOrderSingle(p, k);
    if sorted == [] || p.executionOrder <= sorted[0].executionOrder {
      WithOrderConcat([p], sorted, k);
    } else {
      var x := sorted[0];
      var head := if x.executionOrder == k then [x] else [];
      WithOrderSingle(x, k);
      calc {
        WithOrder(Insert(p, sorted), k);
        { InsertPast(p, sorted); }
        WithOrder([x] + Insert(p, sorted[1..]), k);
        { WithOrderConcat([x], Insert(p, sorted[1..]), k); }
        head + WithOrder(Insert(p, sorted[1..]), k);
        { InsertWithOrder(p, sorted[1..], k); }
        head + (single + WithOrder(sorted[1..], k));
        { SwapEmpty(head, single, WithOrder(sorted[1..], k)); }
        single + (head + WithOrder(sorted[1..], k));
        { WithOrderConcat([x], sorted[1..], k); assert sorted == [x] + sorted[1..]; }
        single + WithOrder(sorted, k);
      }
    }
  }

  /** Stability: entries with equal `ExecutionOrder` keep their repository order. */
  lemma {:induction false} SortByOrderStable(xs: seq<ProgramInfo>, k: int)
    ensures WithOrder(SortByOrder(xs), k) == WithOrder(xs, k)
  {
    if xs != [] {
      SortByOrderStable(xs[1..], k);
      InsertWithOrder(xs[0], SortByOrder(xs[1..]), k);
      assert xs == [xs[0]] + xs[1..];
      WithOrderConcat([xs[0]], xs[1..], k);
    }
  }

  /** The launch list of the trigger launcher. */
  function TriggerQueue(programs: seq<ProgramInfo>): (r: seq<ProgramInfo>)
    ensures SortedByOrder(r)
    ensures forall p :: p in r <==> p in programs && IsTriggerEntry(p)
    ensures multiset(r) == multiset(Filter(programs, IsTriggerEntry))
  {
    var r := SortByOrder(Filter(programs, IsTriggerEntry));
    assert forall p :: p in r <==> p in multiset(r);
    r
  }

  /** Within one `ExecutionOrder`, the queue keeps the repository order of the
      trigger entries. */
  lemma TriggerQueueStable(programs: seq<ProgramInfo>, k: int)
    ensures WithOrder(TriggerQueue(programs), k) == WithOrder(Filter(programs, IsTriggerEntry), k)
  {
    SortByOrderStable(Filter(programs, IsTriggerEntry), k);
  }

  /** `StartEnabledPrograms` of the process monitor: the sorted trigger entries, in
      sequence; the flag is set only after a non-empty list has been run through. */
  function StartEnabledPrograms(programs: seq<ProgramInfo>, env: Env, programsStarted: bool): (r: LaunchRun)
    ensures var queue := TriggerQueue(programs);
      && |r.attempts| == |queue|
      && forall i :: 0 <= i < |queue| ==> r.attempts[i] == Attempt(queue[i], StartProgram(queue[i], env))
    ensures r.programsStarted <==> programsStarted || exists p :: p in programs && IsTriggerEntry(p)
  {
    var queue := TriggerQueue(programs);
    assert queue == [] <==> !exists p :: p in programs && IsTriggerEntry(p) by {
      if queue != [] {
        assert queue[0] in queue;
      }
    }
    if queue == [] then LaunchRun([], programsStarted)
    else LaunchRun(RunSequence(queue, env), true)
  }

  /** The trigger launcher starts exactly the queued entries that pass the decision,
      each once, in queue order. */
  lemma ProcessLaunchesQueue(programs: seq<ProgramInfo>, env: Env, programsStarted: bool)
    ensures StartedPrograms(StartEnabledPrograms(programs, env, programsStarted).attempts)
         == Filter(TriggerQueue(programs), (p: ProgramInfo) => Launches(p, env))
  {
    StartedByRun(TriggerQueue(programs), env);
  }

  /** What one tick did: the next state, the pass over the names (empty when the tick
      returned early), the launch attempts, and whether `AllProgramsStarted` fired. */
  datatype Tick = Tick(next: State, pass: Pass, attempts: seq<Attempt>, allProgramsStarted: bool)

  /** `CheckProcessAndStartPrograms` as one atomic step. The process table is
      `env.lookup`, the same oracle the launch decision consults. */
  function CheckProcessAndStartPrograms(
    s: State, settings: TriggerSettings.Settings, programs: seq<ProgramInfo>, env: Env): (r: Tick)
    // nothing to watch: no lookup, no change
    ensures TriggerSettings.GetProcessList(settings.targetProcesses) == [] ==>
      r == Tick(s, Pass([], s.detected, None), [], false)
    ensures TriggerSettings.GetProcessList(settings.targetProcesses) != [] ==>
      r.pass == CheckTargets(TriggerSettings.GetProcessList(settings.targetProcesses), s.detected, env.lookup)
    // detection while not started: launch and signal iff auto-start
    ensures r.pass.found.Some? && !s.programsStarted ==>
      r.next.detected == r.pass.detected && (r.allProgramsStarted <==> settings.autoStartPrograms)
    // detection while started: only the detected set moves
    ensures r.pass.found.Some? && s.programsStarted ==>
      r.next == State(r.pass.detected, true) && !r.allProgramsStarted
    // nothing detected while started: reset
    ensures TriggerSettings.GetProcessList(settings.targetProcesses) != [] && r.pass.found.None? && s.programsStarted ==>
      r.next == State({}, false) && !r.allProgramsStarted
    // nothing detected while not started: the set is only pruned
    ensures r.pass.found.None? && !s.programsStarted ==>
      r.next == State(r.pass.detected, false) && !r.allProgramsStarted
    ensures r.allProgramsStarted ==>
      var run := StartEnabledPrograms(programs, env, s.programsStarted);
      r.attempts == run.attempts && r.next.programsStarted == run.programsStarted
    ensures !r.allProgramsStarted ==> r.attempts == []
    // detection without auto-start: the flag stays as it was
    ensures r.pass.found.Some? && !r.allProgramsStarted ==> r.next.programsStarted == s.programsStarted
  {
    if IsBlank(settings.targetProcesses) then
      assert TriggerSettings.GetProcessList(settings.targetProcesses) == [] by {
        BlankHasNoTargets(settings.targetProcesses);
      }
      Tick(s, Pass([], s.detected, None), [], false)
    else
      var targets := TriggerSettings.GetProcessList(settings.targetProcesses);
      if targets == [] then Tick(s, Pass([], s.detected, None), [], false)
      else
        var pass := CheckTargets(targets, s.detected, env.lookup);
        if pass.found.Some? && !s.programsStarted then
          if settings.autoStartPrograms then
            var run := StartEnabledPrograms(programs, env, s.programsStarted);
            Tick(State(pass.detected, run.programsStarted), pass, run.attempts, true)
          else
            Tick(State(pass.detected, s.programsStarted), pass, [], false)
        else if pass.found.None? && s.programsStarted then
          Tick(State({}, false), pass, [], false)
        else
          Tick(State(pass.detected, s.programsStarted), pass, [], false)
  }

  /** A blank `TargetProcesses` parses to no name, so the early return is a shortcut
      of the empty-list return. */
  lemma BlankHasNoTargets(targetProcesses: string)
    requires IsBlank(targetProcesses)
    ensures TriggerSettings.GetProcessList(targetProcesses) == []
  {
    var segments := Split(targetProcesses, {';'});
    var trimmed := Map(segments, Trim);
    SplitBlank(targetProcesses, {';'});
    assert forall i :: 0 <= i < |trimmed| ==> trimmed[i] == [] by {
      forall i | 0 <= i < |trimmed| ensures trimmed[i] == [] {
        assert segments[i] in segments;
      }
    }
  }

  /** While programs are marked started, some trigger name is in the detected set. */
  predicate Inv(s: State) {
    s.programsStarted ==> s.detected != {}
  }

  lemma TickPreservesInv(s: State, settings: TriggerSettings.Settings, programs: seq<ProgramInfo>, env: Env)
    requires Inv(s)
    ensures Inv(CheckProcessAndStartPrograms(s, settings, programs, env).next)
  {
    var r := CheckProcessAndStartPrograms(s, settings, programs, env);
    if r.pass.found.Some? {
      assert r.pass.found.value in r.pass.detected;
    }
  }

  /** A name that is still running, or was not looked up this tick, stays in the
      detected set unless the episode ends; a name found absent leaves it. */
  lemma DetectedNamesTracked(s: State, settings: TriggerSettings.Settings, programs: seq<ProgramInfo>,
                             env: Env, x: string)
    requires x in s.detected
    ensures var r := CheckProcessAndStartPrograms(s, settings, programs, env);
      r.next.programsStarted || r.pass.found.Some? || !s.programsStarted ==>
        (x in r.next.detected <==> !(x in r.pass.checked && env.lookup(x) == NotFound))
  {
  }

  /** With no "Trigger"-mode entry, a running trigger process fires `AllProgramsStarted`
      on every tick: the launcher leaves the flag false, so the next tick launches again. */
  lemma EmptyQueueSignalsEveryTick(s: State, settings: TriggerSettings.Settings, programs: seq<ProgramInfo>, env: Env)
    requires !s.programsStarted && settings.autoStartPrograms
    requires exists n :: n in TriggerSettings.GetProcessList(settings.targetProcesses) && env.lookup(n) == Found
    requires forall p :: p in programs ==> !IsTriggerEntry(p)
    ensures var r := CheckProcessAndStartPrograms(s, settings, programs, env);
      && r.allProgramsStarted && r.attempts == [] && !r.next.programsStarted
      && CheckProcessAndStartPrograms(r.next, settings, programs, env).allProgramsStarted
  {
    var targets := TriggerSettings.GetProcessList(settings.targetProcesses);
    CheckTargetsFindsAny(targets, s.detected, env.lookup);
    var r := CheckProcessAndStartPrograms(s, settings, programs, env);
    CheckTargetsFindsAny(targets, r.next.detected, env.lookup);
  }
}
