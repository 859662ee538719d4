/**
 The general settings screen (Views/GeneralSettingsView.xaml.cs): two check boxes,
 the launcher items-per-row text, and the Grid/Group radio pair.
 */
module GeneralSettingsView {
  import opened Wrappers
  import opened Numbers
  import opened Models

  const GroupMode := "Group"
  const GridMode := "Grid"

  /** The form; check box and radio states are `bool?` (`None` is null). The radio
      pair shares a group, so checking one unchecks the other. */
  datatype Form = Form(
    autoStartMonitoring: Option<bool>,
    startInTray: Option<bool>,
    itemsPerRowText: string,
    groupChecked: Option<bool>)

  /** `LoadSettings`: the Group radio is checked iff the stored mode is exactly "Group". */
  function Load(settings: GeneralSettings): (r: Form)
    ensures r.groupChecked == Some(true) <==> settings.launcherViewMode == GroupMode
    ensures r.autoStartMonitoring == Some(settings.autoStartMonitoring)
    ensures r.startInTray == Some(settings.startInTray)
  {
    Form(
      Some(settings.autoStartMonitoring),
      Some(settings.startInTray),
      FormatInt32(settings.launcherItemsPerRow),
      Some(settings.launcherViewMode == GroupMode))
  }

  /** `IsChecked ?? false`. */
  predicate IsCheckedOrFalse(state: Option<bool>) {
    state.Some? && state.value
  }

  /** An acceptable number of launcher items per row. */
  predicate ValidItemsPerRow(n: int) {
    0 < n <= 20
  }

  /** What Save leaves in `_currentSettings`, and what it handed to `UpdateSettings`. */
  datatype SaveResult = SaveResult(current: GeneralSettings, persisted: Option<GeneralSettings>)

  /** `SaveButton_Click`: the flags and the view mode are written into
      `_currentSettings` before the items-per-row check, which alone decides whether
      anything is handed to `UpdateSettings`. The repository stores only the two
      flags and the items per row, so the view mode never reaches storage. */
  function Save(current: GeneralSettings, form: Form): (r: SaveResult)
    ensures r.current.autoStartMonitoring == (form.autoStartMonitoring == Some(true))
    ensures r.current.startInTray == (form.startInTray == Some(true))
    ensures r.current.launcherViewMode == GroupMode <==> form.groupChecked == Some(true)
    ensures r.current.launcherViewMode in {GroupMode, GridMode}
    ensures var n := ParseInt32(form.itemsPerRowText);
      r.persisted.Some? <==> n.Some? && ValidItemsPerRow(n.value)
    ensures var n := ParseInt32(form.itemsPerRowText);
      r.persisted.Some? ==> r.persisted.value == r.current && r.current.launcherItemsPerRow == n.value
    ensures r.persisted.None? ==> r.current.launcherItemsPerRow == current.launcherItemsPerRow
  {
    var mode := if form.groupChecked == Some(true) then GroupMode else GridMode;
    assert mode == GroupMode <==> form.groupChecked == Some(true) by {
      assert GridMode[2] != GroupMode[2];
    }
    var c := current.(
      autoStartMonitoring := IsCheckedOrFalse(form.autoStartMonitoring),
      startInTray := IsCheckedOrFalse(form.startInTray),
      launcherViewMode := mode);
    var n := ParseInt32(form.itemsPerRowText);
    if n.Some? && ValidItemsPerRow(n.value) then
      var c := c.(launcherItemsPerRow := n.value);
      SaveResult(c, Some(c))
    else
      SaveResult(c, None)
  }

  /** Load followed by an unedited Save hands `UpdateSettings` the settings unchanged
      when the mode is "Group" or "Grid" and the items per row are valid. */
  lemma LoadSaveRoundTrip(settings: GeneralSettings)
    requires settings.launcherViewMode in {GroupMode, GridMode}
    requires ValidItemsPerRow(settings.launcherItemsPerRow)
    ensures Save(settings, Load(settings)) == SaveResult(settings, Some(settings))
  {
    ParseFormat(settings.launcherItemsPerRow);
  }

  /** The factory defaults survive an unedited Load and Save. */
  lemma DefaultsRoundTrip()
    ensures Save(DefaultGeneralSettings, Load(DefaultGeneralSettings))
         == SaveResult(DefaultGeneralSettings, Some(DefaultGeneralSettings))
  {
    LoadSaveRoundTrip(DefaultGeneralSettings);
  }

  /** Any other stored mode shows as Grid and is saved back as "Grid". */
  lemma UnknownModeBecomesGrid(settings: GeneralSettings)
    requires settings.launcherViewMode != GroupMode
    ensures Save(settings, Load(settings)).current.launcherViewMode == GridMode
  {
  }

  /** A rejected save still overwrites the in-memory flags and mode. */
  lemma RejectedSaveOverwrites(current: GeneralSettings, form: Form)
    requires ParseInt32(form.itemsPerRowText).None?
    ensures var r := Save(current, form);
      && r.persisted.None?
      && r.current.autoStartMonitoring == (form.autoStartMonitoring == Some(true))
      && r.current.launcherViewMode == (if form.groupChecked == Some(true) then GroupMode else GridMode)
  {
  }
}
