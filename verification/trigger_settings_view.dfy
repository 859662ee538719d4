/**
 The trigger settings screen (Views/TriggerSettingsView.xaml.cs): the watched process
 names one per line, the check interval as text, and the auto-start check box.
 */
module TriggerSettingsView {
  import opened Wrappers
  import opened Seqs
  import opened Text
  import opened Numbers
  import opened TriggerSettings

  /** The form's fields; `autoStart` is the check box's `IsChecked` (`None` is null). */
  datatype Form = Form(processesText: string, intervalText: string, autoStart: Option<bool>)

  /** `LoadSettings`: the parsed names joined by "\n", the interval as text, the flag. */
  function Load(settings: Settings): (r: Form)
    ensures r.autoStart == Some(settings.autoStartPrograms)
    ensures Excludes(r.processesText, {';'})
  {
    var names := GetProcessList(settings.targetProcesses);
    assert forall i :: 0 <= i < |names| ==> Excludes(names[i], {';'}) by {
      forall i | 0 <= i < |names| ensures Excludes(names[i], {';'}) {
        assert IsProcessName(names[i]);
      }
    }
    JoinExcludes("\n", names, {';'});
    Form(Join("\n", names), FormatInt32(settings.checkIntervalSeconds), Some(settings.autoStartPrograms))
  }

  /** The names of the text box: split on LF, trimmed (which also drops a CR), blanks dropped. */
  function FormProcesses(text: string): (r: seq<string>)
    ensures forall i :: 0 <= i < |r| ==> NotBlank(r[i]) && IsTrimmedWith(r[i], IsWhiteSpace)
  {
    Filter(Map(Split(text, {'\n'}), Trim), NotBlank)
  }

  /** `SaveButton_Click`: what is handed to `UpdateSettings`, if anything. The interval
      must parse and be positive; the check box counts only when exactly checked. */
  function Save(form: Form): (r: Option<Settings>)
    ensures r.Some? <==> ParseInt32(form.intervalText).Some? && ParseInt32(form.intervalText).value > 0
    ensures r.Some? ==>
      && r.value.checkIntervalSeconds == ParseInt32(form.intervalText).value
      && r.value.targetProcesses == SetProcessList(FormProcesses(form.processesText))
      && (r.value.autoStartPrograms <==> form.autoStart == Some(true))
  {
    var target := SetProcessList(FormProcesses(form.processesText));
    match ParseInt32(form.intervalText)
    case Some(interval) =>
      if interval > 0 then Some(Settings(target, interval, form.autoStart == Some(true))) else None
    case None => None
  }

  /** For text without ';', the saved list reads back as the form's names. */
  lemma SavedNames(form: Form)
    requires Excludes(form.processesText, {';'})
    requires Save(form).Some?
    ensures GetProcessList(Save(form).value.targetProcesses) == FormProcesses(form.processesText)
  {
    var lines := Split(form.processesText, {'\n'});
    var trimmed := Map(lines, Trim);
    SplitExcludes(form.processesText, {'\n'}, {';'});
    forall j | 0 <= j < |trimmed| ensures Excludes(trimmed[j], {';'}) {
      assert lines[j] in lines;
      TrimExcludes(lines[j], {';'});
    }
    var xs := FormProcesses(form.processesText);
    forall i | 0 <= i < |xs| ensures IsProcessName(xs[i]) {
      assert xs[i] in trimmed;
      assert Excludes(xs[i], {';'});
    }
    SetThenGetNormal(xs);
  }

  /** Showing the stored settings and saving them unedited keeps the watched names,
      the interval and the flag, when the stored list has no line feed and the
      interval is a positive Int32. */
  lemma LoadSaveRoundTrip(settings: Settings)
    requires Excludes(settings.targetProcesses, {'\n'})
    requires 0 < settings.checkIntervalSeconds <= Int32Max
    ensures Save(Load(settings)).Some?
    ensures var saved := Save(Load(settings)).value;
      && GetProcessList(saved.targetProcesses) == GetProcessList(settings.targetProcesses)
      && saved.checkIntervalSeconds == settings.checkIntervalSeconds
      && saved.autoStartPrograms == settings.autoStartPrograms
  {
    var names := GetProcessList(settings.targetProcesses);
    GetProcessListExcludes(settings.targetProcesses, {'\n'});
    ParseFormat(settings.checkIntervalSeconds);
    assert FormProcesses(Join("\n", names)) == names by {
      SplitJoin("\n", names, {'\n'});
      forall i | 0 <= i < |names| ensures NonEmpty(names[i]) && Trim(names[i]) == names[i] {
        assert IsProcessName(names[i]);
        TrimOfTrimmed(names[i]);
      }
      FilterAll(names, NonEmpty);
      MapIdentity(names, Trim);
      FilterAll(names, NotBlank);
    }
    NormaliseIdempotent(settings.targetProcesses);
  }

  /** The factory defaults survive an unedited Load and Save. */
  lemma DefaultsRoundTrip()
    ensures Save(Load(Default)) == Some(Default)
  {
    LoadSaveRoundTrip(Default);
  }
}
