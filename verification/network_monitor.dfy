/**
 One tick of the network monitor (Services/NetworkMonitorService.cs): split the stored
 address list, probe the addresses in order with the one probe kind `CheckType` names,
 and drive the two flags `_isNetworkConnected` / `_isProgramsStarted` that allow at most
 one launch sequence per connected session.
 */
module NetworkMonitor {
  import opened Wrappers
  import opened Seqs
  import opened Text
  import opened Models
  import opened Programs
  import opened Probes

  /** The service's two flags; both start false. */
  datatype State = State(connected: bool, programsStarted: bool)

  const Initial := State(false, false)

  predicate IsEnabled(p: ProgramInfo) {
    p.isEnabled
  }

  /** `StartEnabledPrograms`: the enabled entries in repository order, no mode filter
      and no sort. The flag is set only after a non-empty list has been run through. */
  function StartEnabledPrograms(programs: seq<ProgramInfo>, env: Env, programsStarted: bool): (r: LaunchRun)
    ensures var list := Filter(programs, IsEnabled);
      && |r.attempts| == |list|
      && forall i :: 0 <= i < |list| ==> r.attempts[i] == Attempt(list[i], StartProgram(list[i], env))
    ensures r.programsStarted <==> programsStarted || exists p :: p in programs && p.isEnabled
  {
    var list := Filter(programs, IsEnabled);
    assert list == [] <==> !exists p :: p in programs && p.isEnabled by {
      if list != [] {
        assert list[0] in list;
      }
    }
    if list == [] then LaunchRun([], programsStarted)
    else LaunchRun(RunSequence(list, env), true)
  }

  /** The network launcher starts exactly the enabled entries that pass the
      per-program decision, each once, in repository order. */
  lemma NetworkLaunchesEnabled(programs: seq<ProgramInfo>, env: Env, programsStarted: bool)
    ensures StartedPrograms(StartEnabledPrograms(programs, env, programsStarted).attempts)
         == Filter(programs, (p: ProgramInfo) => p.isEnabled && Launches(p, env))
  {
    var list := Filter(programs, IsEnabled);
    StartedByRun(list, env);
    FilterFilter(programs, IsEnabled, (p: ProgramInfo) => Launches(p, env), (p: ProgramInfo) => p.isEnabled && Launches(p, env));
    if list == [] {
      assert Filter(list, (p: ProgramInfo) => Launches(p, env)) == [];
    }
  }

  /** What one tick did: the next flags, the probe scan, the launch attempts, and
      whether `AllProgramsStarted` fired. */
  datatype Tick = Tick(next: State, scan: Scan, attempts: seq<Attempt>, allProgramsStarted: bool)

  function ConfigOf(settings: NetworkSettings): ProbeConfig {
    ProbeConfig(settings.checkType, settings.port, settings.timeoutMs)
  }

  /** The addresses a tick visits: the non-empty `;`-segments, each trimmed as the
      loop trims it (a whitespace-only segment is probed as ""). */
  function Addresses(settings: NetworkSettings): seq<string> {
    Map(Split(settings.targetAddresses, {';'}), Trim)
  }

  /** Some address of the list answers the configured probe. */
  predicate AnyReachable(settings: NetworkSettings, probe: ProbeRequest -> bool) {
    var addresses := Addresses(settings);
    exists i :: 0 <= i < |addresses| && Reaches(ConfigOf(settings), probe, addresses[i])
  }

  /** `CheckNetworkAndStartPrograms` as one atomic step (the retry delay is dropped). */
  function CheckNetworkAndStartPrograms(
    s: State, settings: NetworkSettings, programs: seq<ProgramInfo>,
    probe: ProbeRequest -> bool, env: Env): (r: Tick)
    // no address: no probe, nothing changes
    ensures Addresses(settings) == [] ==> r == Tick(s, Scan([], 0, None), [], false)
    ensures Addresses(settings) != [] ==> r.scan == ScanAddresses(ConfigOf(settings), probe, Addresses(settings))
    // success while disconnected: connect; launch only with auto-start and not yet started
    ensures Addresses(settings) != [] && AnyReachable(settings, probe) && !s.connected ==>
      r.next.connected && (r.allProgramsStarted <==> settings.autoStartPrograms && !s.programsStarted)
    // success while connected: nothing
    ensures AnyReachable(settings, probe) && s.connected ==> r.next == s && !r.allProgramsStarted
    // failure while connected: both flags drop
    ensures Addresses(settings) != [] && !AnyReachable(settings, probe) && s.connected ==>
      r.next == State(false, false) && !r.allProgramsStarted
    // failure while disconnected: nothing
    ensures !AnyReachable(settings, probe) && !s.connected ==> r.next == s && !r.allProgramsStarted
    // the launcher runs only when the event fires, and nothing else sets the flag
    ensures r.allProgramsStarted ==>
      var run := StartEnabledPrograms(programs, env, s.programsStarted);
      r.attempts == run.attempts && r.next.programsStarted == run.programsStarted
    ensures !r.allProgramsStarted ==>
      r.attempts == [] && r.next.programsStarted == (s.programsStarted && !(s.connected && !r.next.connected))
  {
    var addresses := Split(settings.targetAddresses, {';'});
    if addresses == [] then Tick(s, Scan([], 0, None), [], false)
    else
      var scan := ScanAddresses(ConfigOf(settings), probe, Map(addresses, Trim));
      ScanFindsAny(ConfigOf(settings), probe, Map(addresses, Trim));
      var isConnected := scan.reached.Some?;
      if isConnected && !s.connected then
        if settings.autoStartPrograms && !s.programsStarted then
          var run := StartEnabledPrograms(programs, env, s.programsStarted);
          Tick(State(true, run.programsStarted), scan, run.attempts, true)
        else
          Tick(State(true, s.programsStarted), scan, [], false)
      else if !isConnected && s.connected then
        Tick(State(false, false), scan, [], false)
      else
        Tick(s, scan, [], false)
  }

  /** `_isProgramsStarted` is only ever true while connected. */
  predicate Inv(s: State) {
    s.programsStarted ==> s.connected
  }

  lemma TickPreservesInv(s: State, settings: NetworkSettings, programs: seq<ProgramInfo>,
                         probe: ProbeRequest -> bool, env: Env)
    requires Inv(s)
    ensures Inv(CheckNetworkAndStartPrograms(s, settings, programs, probe, env).next)
  {
  }

  /** `AllProgramsStarted` fires only on a disconnected-to-connected edge. */
  lemma SignalOnlyOnConnect(s: State, settings: NetworkSettings, programs: seq<ProgramInfo>,
                            probe: ProbeRequest -> bool, env: Env)
    ensures var r := CheckNetworkAndStartPrograms(s, settings, programs, probe, env);
      r.allProgramsStarted ==> !s.connected && r.next.connected && settings.autoStartPrograms
  {
  }

  /** An unrecognised `CheckType` issues no probe and counts as a failed check:
      a connected monitor disconnects. */
  lemma UnknownCheckTypeDisconnects(s: State, settings: NetworkSettings, programs: seq<ProgramInfo>,
                                    probe: ProbeRequest -> bool, env: Env)
    requires !KnownCheckType(settings.checkType)
    requires Addresses(settings) != []
    ensures var r := CheckNetworkAndStartPrograms(s, settings, programs, probe, env);
      && r.scan.issued == []
      && !r.allProgramsStarted
      && r.next == (if s.connected then State(false, false) else s)
  {
    ScanFindsAny(ConfigOf(settings), probe, Addresses(settings));
  }

  /** The inputs of one tick: the settings and program list read fresh, the network
      and the operating system at that moment. */
  datatype TickInput = TickInput(settings: NetworkSettings, programs: seq<ProgramInfo>,
                                 probe: ProbeRequest -> bool, env: Env)

  /** One tick driven by a `TickInput`. */
  function Step(s: State, input: TickInput): Tick {
    CheckNetworkAndStartPrograms(s, input.settings, input.programs, input.probe, input.env)
  }

  /** Consecutive ticks, each starting from the flags the previous one left. */
  function Run(s: State, inputs: seq<TickInput>): (r: seq<Tick>)
    ensures |r| == |inputs|
    ensures |r| > 0 ==> r[0] == Step(s, inputs[0])
    ensures forall i :: 0 < i < |r| ==> r[i] == Step(r[i - 1].next, inputs[i])
    ensures Inv(s) ==> forall i :: 0 <= i < |r| ==> Inv(r[i].next)
    decreases |inputs|
  {
    if inputs == [] then []
    else
      var t := Step(s, inputs[0]);
      var rest := Run(t.next, inputs[1..]);
      assert Inv(s) ==> Inv(t.next) by {
        if Inv(s) {
          TickPreservesInv(s, inputs[0].settings, inputs[0].programs, inputs[0].probe, inputs[0].env);
        }
      }
      [t] + rest
  }

  /** How many ticks of a run fired `AllProgramsStarted`. */
  function Signals(ticks: seq<Tick>): nat {
    if ticks == [] then 0 else (if ticks[0].allProgramsStarted then 1 else 0) + Signals(ticks[1..])
  }

  /** How many ticks of a run, starting from `s`, moved from disconnected to connected. */
  function Connects(s: State, ticks: seq<Tick>): nat
    decreases |ticks|
  {
    if ticks == [] then 0
    else (if !s.connected && ticks[0].next.connected then 1 else 0) + Connects(ticks[0].next, ticks[1..])
  }

  /** At most one launch sequence per connected session: over any run, the event
      fires no more often than the monitor connects. */
  lemma {:induction false} AtMostOneLaunchPerSession(s: State, inputs: seq<TickInput>)
    ensures Signals(Run(s, inputs)) <= Connects(s, Run(s, inputs))
    decreases |inputs|
  {
    if inputs != [] {
      var i := inputs[0];
      var t := Step(s, i);
      SignalOnlyOnConnect(s, i.settings, i.programs, i.probe, i.env);
      AtMostOneLaunchPerSession(t.next, inputs[1..]);
      assert Run(s, inputs)[1..] == Run(t.next, inputs[1..]);
    }
  }

  /** A drop and a reconnect re-trigger one launch sequence. */
  lemma ReconnectRelaunches(settings: NetworkSettings, programs: seq<ProgramInfo>,
                            down: ProbeRequest -> bool, up: ProbeRequest -> bool, env: Env)
    requires Addresses(settings) != []
    requires !AnyReachable(settings, down) && AnyReachable(settings, up)
    requires settings.autoStartPrograms
    ensures var t1 := CheckNetworkAndStartPrograms(State(true, true), settings, programs, down, env);
      var t2 := CheckNetworkAndStartPrograms(t1.next, settings, programs, up, env);
      && t1.next == State(false, false)
      && t2.allProgramsStarted
      && t2.next.connected
      && t2.attempts == StartEnabledPrograms(programs, env, false).attempts
  {
  }

  /** With no enabled program the tick still fires `AllProgramsStarted`, launches
      nothing, and leaves `_isProgramsStarted` false. */
  lemma EmptyListStillSignals(settings: NetworkSettings, programs: seq<ProgramInfo>,
                              probe: ProbeRequest -> bool, env: Env)
    requires Addresses(settings) != [] && AnyReachable(settings, probe)
    requires settings.autoStartPrograms
    requires forall p :: p in programs ==> !p.isEnabled
    ensures var r := CheckNetworkAndStartPrograms(Initial, settings, programs, probe, env);
      r.allProgramsStarted && r.attempts == [] && r.next == State(true, false)
  {
  }
}
