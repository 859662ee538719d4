/**
 The per-program launch decision shared, line for line, by both monitor services
 (`StartProgram`), and the sequential launcher loop around it. The operating system
 is an `Env` of oracles: the process table, the file system and the two path helpers.
 */
module Programs {
  import opened Seqs
  import opened Text
  import opened Models

  /** The result of `Process.GetProcessesByName(name)`: some process, none, or an exception. */
  datatype Lookup = Found | NotFound | LookupFailed

  /** The operating system as one launch sequence sees it. */
  datatype Env = Env(
    lookup: string -> Lookup,
    fileExists: string -> bool,
    directoryName: string -> string,
    fileName: string -> string)

  /** The `ProcessStartInfo` handed to `Process.Start`. */
  datatype StartInfo = StartInfo(fileName: string, workingDirectory: string, useShellExecute: bool)

  /** What `StartProgram` did with one entry. `LookupError` is an exception from the
      duplicate check, caught and logged by `StartProgram`; `Started` is the one call
      of `Process.Start`. */
  datatype Outcome = AlreadyRunning | LookupError | FileMissing | Started(info: StartInfo)

  datatype Attempt = Attempt(program: ProgramInfo, outcome: Outcome)

  /** The duplicate check applies only to entries with a non-blank process name. */
  predicate ChecksDuplicate(p: ProgramInfo) {
    NotBlank(p.processName)
  }

  /** Skip when the entry's process already runs, otherwise skip when its file is
      missing, otherwise start it from its own directory. */
  function StartProgram(p: ProgramInfo, env: Env): (r: Outcome)
    ensures r.AlreadyRunning? <==> ChecksDuplicate(p) && env.lookup(p.processName) == Found
    ensures r.LookupError? <==> ChecksDuplicate(p) && env.lookup(p.processName) == LookupFailed
    ensures r.FileMissing? <==>
      (!ChecksDuplicate(p) || env.lookup(p.processName) == NotFound) && !env.fileExists(p.programPath)
    ensures r.Started? ==>
      && r.info.workingDirectory == env.directoryName(p.programPath)
      && r.info.fileName == env.fileName(p.programPath)
      && r.info.useShellExecute
  {
    var running := if ChecksDuplicate(p) then env.lookup(p.processName) else NotFound;
    match running
    case Found => AlreadyRunning
    case LookupFailed => LookupError
    case NotFound =>
      if !env.fileExists(p.programPath) then FileMissing
      else Started(StartInfo(env.fileName(p.programPath), env.directoryName(p.programPath), true))
  }

  /** `StartProgram` would call `Process.Start` for `p`. */
  predicate Launches(p: ProgramInfo, env: Env) {
    StartProgram(p, env).Started?
  }

  /** The `foreach` over a launch list: every entry is decided once, in list order;
      a skipped or failed entry does not stop the loop. */
  function RunSequence(ps: seq<ProgramInfo>, env: Env): (r: seq<Attempt>)
    ensures |r| == |ps|
    ensures forall i :: 0 <= i < |ps| ==> r[i].program == ps[i]
    ensures forall i :: 0 <= i < |ps| ==> r[i].outcome == StartProgram(ps[i], env)
  {
    if ps == [] then [] else [Attempt(ps[0], StartProgram(ps[0], env))] + RunSequence(ps[1..], env)
  }

  /** The attempts of one `StartEnabledPrograms` call and the `_isProgramsStarted`
      flag it leaves behind. */
  datatype LaunchRun = LaunchRun(attempts: seq<Attempt>, programsStarted: bool)

  /** The entries an attempt list actually started, in order. */
  function StartedPrograms(attempts: seq<Attempt>): seq<ProgramInfo> {
    if attempts == [] then []
    else (if attempts[0].outcome.Started? then [attempts[0].program] else []) + StartedPrograms(attempts[1..])
  }

  /** The sequence starts exactly the entries that pass the decision, each once,
      in list order. */
  lemma {:induction false} StartedByRun(ps: seq<ProgramInfo>, env: Env)
    ensures StartedPrograms(RunSequence(ps, env)) == Filter(ps, p => Launches(p, env))
  {
    if ps != [] {
      var r := RunSequence(ps, env);
      assert r[1..] == RunSequence(ps[1..], env);
      StartedByRun(ps[1..], env);
    }
  }
}
