/**
 The monitoring controller of the Execute tab (Views/ExecuteTabView.xaml.cs): the
 one-shot `_isInitialized` guard, the held `_monitorService`, which services have a
 running timer, and the enabled state of the Start and Stop buttons, across the
 Loaded, Start, Stop, manual-start, AllProgramsStarted and Unloaded handlers.
 */
module ExecuteTabView {
  import opened Wrappers
  import opened Seqs
  import opened Numbers
  import opened Models
  import opened Programs
  import NetworkMonitor

  /** Services are told apart by the order of their creation. `monitor` is
      `_monitorService` (None is null); `running` holds the services whose timer runs. */
  datatype View = View(
    initialized: bool,
    monitor: Option<nat>,
    running: set<nat>,
    nextId: nat,
    startEnabled: bool,
    stopEnabled: bool)

  /** The view as constructed; the buttons' initial state comes from the markup. */
  function Initial(startEnabled: bool, stopEnabled: bool): View {
    View(false, None, {}, 0, startEnabled, stopEnabled)
  }

  /** The services the view holds: at most one. */
  function Held(v: View): set<nat> {
    if v.monitor.Some? then {v.monitor.value} else {}
  }

  /** Only the held service can have a running timer, and no id is reused. */
  predicate Inv(v: View) {
    && v.running <= Held(v)
    && (v.monitor.Some? ==> v.monitor.value < v.nextId)
  }

  /** `NetworkMonitorService.StartMonitoring` succeeds: the settings were read and
      `CheckIntervalSeconds * 1000`, in Int32, is a valid timer interval. */
  predicate TimerStarts(network: Option<NetworkSettings>) {
    network.Some? && IntervalMs(network.value.checkIntervalSeconds) > 0
  }

  /** `Dispose` on the held service (stops its timer, keeps the reference). */
  function DisposeHeld(v: View): (r: View)
    ensures forall id :: id in Held(v) ==> id !in r.running
    ensures forall id :: id !in Held(v) ==> (id in r.running <==> id in v.running)
    ensures r.monitor == v.monitor && r.startEnabled == v.startEnabled && r.stopEnabled == v.stopEnabled
    ensures Inv(v) ==> Inv(r) && r.running == {}
  {
    v.(running := v.running - Held(v))
  }

  /** `StartMonitoring`: dispose the held service, hold a new one, start it. When
      starting throws, the new service stays held but idle and the buttons keep
      their state. */
  function StartMonitoring(v: View, network: Option<NetworkSettings>): (r: View)
    ensures r.monitor == Some(v.nextId) && r.nextId == v.nextId + 1
    ensures forall id :: id in Held(v) && id != v.nextId ==> id !in r.running
    ensures TimerStarts(network) ==> !r.startEnabled && r.stopEnabled
    ensures !TimerStarts(network) ==> r.startEnabled == v.startEnabled && r.stopEnabled == v.stopEnabled
    ensures Inv(v) ==> Inv(r) && r.running == (if TimerStarts(network) then {v.nextId} else {})
  {
    var disposed := DisposeHeld(v);
    var held := disposed.(monitor := Some(v.nextId), nextId := v.nextId + 1);
    if TimerStarts(network) then
      held.(running := held.running + {v.nextId}, startEnabled := false, stopEnabled := true)
    else
      held
  }

  /** Stop (also the body of the AllProgramsStarted handler): stop and release the
      held service, if any, and show the stopped buttons. */
  function StopMonitoring(v: View): (r: View)
    ensures r.monitor.None? && r.running == v.running - Held(v)
    ensures r.startEnabled && !r.stopEnabled
    ensures Inv(v) ==> Inv(r) && r.running == {}
  {
    DisposeHeld(v).(monitor := None, startEnabled := true, stopEnabled := false)
  }

  /** The inputs of the handlers. `None` for settings is a repository read that threw. */
  datatype Event =
    | Loaded(general: Option<GeneralSettings>, network: Option<NetworkSettings>)
    | StartClicked(network: Option<NetworkSettings>)
    | StopClicked
    | ManualStartClicked
    | AllProgramsStarted
    | Unloaded

  /** Loaded: only the first call does anything; it starts monitoring when the
      general settings ask for it. */
  function OnLoaded(v: View, general: Option<GeneralSettings>, network: Option<NetworkSettings>): (r: View)
    ensures v.initialized ==> r == v
    ensures r.initialized
    ensures !v.initialized ==>
      (r.nextId != v.nextId <==> general.Some? && general.value.autoStartMonitoring)
    ensures Inv(v) && !v.initialized ==>
      (r.monitor.Some? && r.monitor != v.monitor <==> general.Some? && general.value.autoStartMonitoring)
  {
    if v.initialized then v
    else
      var v1 := v.(initialized := true);
      if general.Some? && general.value.autoStartMonitoring then StartMonitoring(v1, network)
      else v1
  }

  /** One handler. The manual start launches programs through a throwaway service
      and leaves the controller as it was. */
  function Handle(v: View, e: Event): (r: View)
    ensures e.ManualStartClicked? ==> r == v
    ensures e.StopClicked? || e.AllProgramsStarted? ==> r.monitor.None? && r.startEnabled && !r.stopEnabled
    ensures e.Unloaded? ==> r.monitor == v.monitor && r.running == v.running - Held(v)
    ensures Inv(v) ==> Inv(r)
  {
    match e
    case Loaded(general, network) => OnLoaded(v, general, network)
    case StartClicked(network) => StartMonitoring(v, network)
    case StopClicked => StopMonitoring(v)
    case ManualStartClicked => v
    case AllProgramsStarted => StopMonitoring(v)
    case Unloaded => DisposeHeld(v)
  }

  /** The handlers in order. */
  function HandleAll(v: View, es: seq<Event>): View
    decreases |es|
  {
    if es == [] then v else HandleAll(Handle(v, es[0]), es[1..])
  }

  /** Whatever the users and the monitors do, at most one monitoring service has a
      running timer, and it is the one the view holds. */
  lemma {:induction false} AtMostOneMonitor(startEnabled: bool, stopEnabled: bool, es: seq<Event>)
    ensures var v := HandleAll(Initial(startEnabled, stopEnabled), es);
      v.running <= Held(v) && |v.running| <= 1
  {
    HandleAllPreservesInv(Initial(startEnabled, stopEnabled), es);
    var v := HandleAll(Initial(startEnabled, stopEnabled), es);
    if v.monitor.Some? {
      assert v.running <= {v.monitor.value};
      if v.running != {} {
        assert v.running == {v.monitor.value};
      }
    }
  }

  lemma {:induction false} HandleAllPreservesInv(v: View, es: seq<Event>)
    requires Inv(v)
    ensures Inv(HandleAll(v, es))
    decreases |es|
  {
    if es != [] {
      HandleAllPreservesInv(Handle(v, es[0]), es[1..]);
    }
  }

  /** Loaded runs its body once: a second Loaded event changes nothing. */
  lemma LoadedOnce(v: View, g1: Option<GeneralSettings>, n1: Option<NetworkSettings>,
                   g2: Option<GeneralSettings>, n2: Option<NetworkSettings>)
    ensures var w := OnLoaded(v, g1, n1); OnLoaded(w, g2, n2) == w
  {
  }

  /** The first Loaded starts a running monitor iff auto-start is on and the timer
      can start. */
  lemma FirstLoadStartsIffAuto(startEnabled: bool, stopEnabled: bool, g: GeneralSettings, n: Option<NetworkSettings>)
    ensures var v := OnLoaded(Initial(startEnabled, stopEnabled), Some(g), n);
      v.running != {} <==> g.autoStartMonitoring && TimerStarts(n)
  {
  }

  /** The manual start of the Execute tab: a fresh service (its flag false) runs the
      network launcher once; the controller is untouched. */
  datatype ManualRun = ManualRun(view: View, run: LaunchRun)

  function ManualStart(v: View, programs: seq<ProgramInfo>, env: Env): (r: ManualRun)
    ensures r.view == v
    ensures StartedPrograms(r.run.attempts) == Filter(programs, (p: ProgramInfo) => p.isEnabled && Launches(p, env))
  {
    NetworkMonitor.NetworkLaunchesEnabled(programs, env, false);
    ManualRun(v, NetworkMonitor.StartEnabledPrograms(programs, env, false))
  }
}
