/** The persisted records the monitors and settings screens exchange with the repositories. */
module Models {

  /** A launchable entry (Models/ProgramInfo.cs). `executionMode` and `executionOrder`
      are the columns the process monitor filters and sorts on. */
  datatype ProgramInfo = ProgramInfo(
    id: int,
    isEnabled: bool,
    programName: string,
    programPath: string,
    processName: string,
    executionMode: string,
    executionOrder: int)

  /** Reachability policy (Models/NetworkSettings.cs). */
  datatype NetworkSettings = NetworkSettings(
    checkType: string,
    targetAddresses: string,
    port: int,
    timeoutMs: int,
    checkIntervalSeconds: int,
    retryDelaySeconds: int,
    autoStartPrograms: bool)

  const DefaultNetworkSettings := NetworkSettings("Ping", "", 80, 3000, 30, 10, true)

  /** Application-wide options (Models/GeneralSettings.cs). */
  datatype GeneralSettings = GeneralSettings(
    autoStartMonitoring: bool,
    startInTray: bool,
    launcherItemsPerRow: int,
    launcherViewMode: string)

  const DefaultGeneralSettings := GeneralSettings(true, false, 5, "Grid")
}
