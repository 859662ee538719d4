/**
 The network settings screen (Views/NetworkSettingsView.xaml.cs): the form shows the
 stored address list one address per line and the numbers as decimal text; saving
 turns the lines back into a `;`-list and parses the numbers; the connection test
 probes the form's addresses in order until one answers.
 */
module NetworkSettingsView {
  import opened Wrappers
  import opened Seqs
  import opened Text
  import opened Numbers
  import opened Models
  import opened Probes

  /** The check types the combo box offers. */
  const CheckTypeItems: seq<string> := ["Ping", "HTTP", "TCP"]

  /** The form's fields; `checkType` is the selected combo item, `None` when nothing
      is selected. */
  datatype Form = Form(
    checkType: Option<string>,
    addressesText: string,
    portText: string,
    timeoutText: string,
    retryDelayText: string,
    checkIntervalText: string)

  /** `Environment.NewLine` on Windows. */
  const NewLine := "\r\n"

  /** `LoadSettings`: select the item equal to the stored check type (none when no item
      matches), one address per line, numbers as text. */
  function Load(settings: NetworkSettings): (r: Form)
    ensures r.checkType.Some? <==> settings.checkType in CheckTypeItems
    ensures r.checkType.Some? ==> r.checkType.value == settings.checkType
    ensures ';' !in r.addressesText
  {
    var text := ReplaceChar(settings.targetAddresses, ';', NewLine);
    Form(
      if settings.checkType in CheckTypeItems then Some(settings.checkType) else None,
      text,
      FormatInt32(settings.port),
      FormatInt32(settings.timeoutMs),
      FormatInt32(settings.retryDelaySeconds),
      FormatInt32(settings.checkIntervalSeconds))
  }

  /** A line separator. */
  const LineBreaks: set<char> := {'\r', '\n'}

  /** An entry of the saved address list. */
  predicate IsFormAddress(a: string) {
    NotBlank(a) && IsTrimmedWith(a, IsWhiteSpace) && Excludes(a, LineBreaks)
  }

  /** The lines of the text box, trimmed: none holds a line break or surrounding white space. */
  lemma TrimmedLines(text: string)
    ensures forall a :: a in Map(Split(text, LineBreaks), Trim) ==>
      IsTrimmedWith(a, IsWhiteSpace) && Excludes(a, LineBreaks)
  {
    var lines := Split(text, LineBreaks);
    var trimmed := Map(lines, Trim);
    SplitEntries(text, LineBreaks);
    forall i | 0 <= i < |trimmed| ensures Excludes(trimmed[i], LineBreaks) {
      assert lines[i] in lines;
      TrimExcludes(lines[i], LineBreaks);
    }
  }

  /** The addresses of the text box: split on CR and LF, trimmed, blanks dropped. */
  function FormAddresses(text: string): (r: seq<string>)
    ensures forall i :: 0 <= i < |r| ==> IsFormAddress(r[i])
  {
    var r := Filter(Map(Split(text, LineBreaks), Trim), NotBlank);
    assert forall i :: 0 <= i < |r| ==> IsFormAddress(r[i]) by {
      TrimmedLines(text);
      forall i | 0 <= i < |r| ensures IsFormAddress(r[i]) {
        assert r[i] in r;
      }
    }
    r
  }

  /** What Save leaves in `_currentSettings`, and what it handed to `UpdateSettings`. */
  datatype SaveResult = SaveResult(current: NetworkSettings, persisted: Option<NetworkSettings>)

  /** `SaveButton_Click`: assign the fields in order, each parse able to throw; a
      throw leaves the earlier assignments in `_currentSettings` and persists nothing.
      No selected item throws before the first assignment. */
  function Save(current: NetworkSettings, form: Form): (r: SaveResult)
    ensures r.persisted.Some? <==>
      && form.checkType.Some?
      && ParseInt32(form.portText).Some? && ParseInt32(form.timeoutText).Some?
      && ParseInt32(form.retryDelayText).Some? && ParseInt32(form.checkIntervalText).Some?
    ensures r.persisted.Some? ==> r.persisted.value == r.current
    ensures r.persisted.Some? ==>
      && r.current.checkType == form.checkType.value
      && r.current.targetAddresses == Join(";", FormAddresses(form.addressesText))
      && r.current.port == ParseInt32(form.portText).value
      && r.current.timeoutMs == ParseInt32(form.timeoutText).value
      && r.current.retryDelaySeconds == ParseInt32(form.retryDelayText).value
      && r.current.checkIntervalSeconds == ParseInt32(form.checkIntervalText).value
    ensures r.current.autoStartPrograms == current.autoStartPrograms
    ensures form.checkType.None? ==> r.current == current
    ensures form.checkType.Some? ==>
      r.current.checkType == form.checkType.value && r.current.targetAddresses == Join(";", FormAddresses(form.addressesText))
    // a bad port stops the assignments before any number is written
    ensures ParseInt32(form.portText).None? ==>
      && r.current.port == current.port && r.current.timeoutMs == current.timeoutMs
      && r.current.retryDelaySeconds == current.retryDelaySeconds
      && r.current.checkIntervalSeconds == current.checkIntervalSeconds
  {
    match form.checkType
    case None => SaveResult(current, None)
    case Some(checkType) =>
      var c := current.(checkType := checkType, targetAddresses := Join(";", FormAddresses(form.addressesText)));
      match ParseInt32(form.portText)
      case None => SaveResult(c, None)
      case Some(port) =>
        var c := c.(port := port);
        match ParseInt32(form.timeoutText)
        case None => SaveResult(c, None)
        case Some(timeout) =>
          var c := c.(timeoutMs := timeout);
          match ParseInt32(form.retryDelayText)
          case None => SaveResult(c, None)
          case Some(retry) =>
            var c := c.(retryDelaySeconds := retry);
            match ParseInt32(form.checkIntervalText)
            case None => SaveResult(c, None)
            case Some(interval) =>
              var c := c.(checkIntervalSeconds := interval);
              SaveResult(c, Some(c))
  }

  /** Characters the text box does not contain are not in any address. */
  lemma FormAddressesExclude(text: string, cs: set<char>)
    requires Excludes(text, cs)
    ensures forall i :: 0 <= i < |FormAddresses(text)| ==> Excludes(FormAddresses(text)[i], cs)
  {
    var lines := Split(text, LineBreaks);
    var trimmed := Map(lines, Trim);
    SplitExcludes(text, LineBreaks, cs);
    forall j | 0 <= j < |trimmed| ensures Excludes(trimmed[j], cs) {
      assert lines[j] in lines;
      TrimExcludes(lines[j], cs);
    }
    var r := FormAddresses(text);
    forall i | 0 <= i < |r| ensures Excludes(r[i], cs) {
      assert r[i] in trimmed;
    }
  }

  /** The saved address list holds no line break; for lines without ';' its
      `;`-entries are the form's non-blank lines, trimmed, in order. */
  lemma SavedAddresses(text: string)
    ensures Excludes(Join(";", FormAddresses(text)), LineBreaks)
    ensures ';' !in text ==> Split(Join(";", FormAddresses(text)), {';'}) == FormAddresses(text)
  {
    var xs := FormAddresses(text);
    JoinExcludes(";", xs, LineBreaks);
    if ';' !in text {
      FormAddressesExclude(text, {';'});
      forall i | 0 <= i < |xs| ensures NonEmpty(xs[i]) {
      }
      SplitJoin(";", xs, {';'});
      FilterAll(xs, NonEmpty);
    }
  }

  /** An address list in normal form: trimmed, non-blank entries free of ';', CR and LF. */
  predicate IsAddress(a: string) {
    NotBlank(a) && IsTrimmedWith(a, IsWhiteSpace) && Excludes(a, {';', '\r', '\n'})
  }

  /** Showing a normal address list in the form and saving it gives it back. */
  lemma LoadSaveAddresses(xs: seq<string>)
    requires forall i :: 0 <= i < |xs| ==> IsAddress(xs[i])
    ensures Join(";", FormAddresses(ReplaceChar(Join(";", xs), ';', NewLine))) == Join(";", xs)
  {
    forall i | 0 <= i < |xs| ensures ';' !in xs[i] && Excludes(xs[i], LineBreaks) {
    }
    ReplaceJoin(xs, ';', NewLine);
    SplitJoin(NewLine, xs, LineBreaks);
    forall i | 0 <= i < |xs| ensures NonEmpty(xs[i]) && Trim(xs[i]) == xs[i] {
      TrimOfTrimmed(xs[i]);
    }
    FilterAll(xs, NonEmpty);
    MapIdentity(xs, Trim);
    FilterAll(xs, NotBlank);
  }

  /** Load followed by an unedited Save persists the settings unchanged, when the
      check type is one the combo box offers and the address list is in normal form. */
  lemma LoadSaveRoundTrip(settings: NetworkSettings, xs: seq<string>)
    requires settings.checkType in CheckTypeItems
    requires settings.targetAddresses == Join(";", xs)
    requires forall i :: 0 <= i < |xs| ==> IsAddress(xs[i])
    requires IsInt32(settings.port) && IsInt32(settings.timeoutMs)
    requires IsInt32(settings.retryDelaySeconds) && IsInt32(settings.checkIntervalSeconds)
    ensures Save(settings, Load(settings)) == SaveResult(settings, Some(settings))
  {
    LoadSaveAddresses(xs);
    ParseFormat(settings.port);
    ParseFormat(settings.timeoutMs);
    ParseFormat(settings.retryDelaySeconds);
    ParseFormat(settings.checkIntervalSeconds);
  }

  /** How the connection test ended: a throw (no selection or a bad number), the empty
      address warning, or the probes it issued and whether one answered. */
  datatype TestResult = Aborted | NoAddresses | Tested(scan: Scan, anySuccess: bool)

  /** `TestButton_Click`: timeout and port must parse (even for a ping), then the form's
      addresses are probed in order, stopping at the first success. */
  function TestConnection(form: Form, probe: ProbeRequest -> bool): (r: TestResult)
    ensures r.Aborted? <==>
      form.checkType.None? || ParseInt32(form.timeoutText).None? || ParseInt32(form.portText).None?
    ensures r.NoAddresses? <==> !r.Aborted? && FormAddresses(form.addressesText) == []
    ensures r.Tested? ==>
      var cfg := ProbeConfig(form.checkType.value, ParseInt32(form.portText).value, ParseInt32(form.timeoutText).value);
      var addresses := FormAddresses(form.addressesText);
      && r.scan == ScanAddresses(cfg, probe, addresses)
      && (r.anySuccess <==> r.scan.reached.Some?)
      && (r.anySuccess <==> exists i :: 0 <= i < |addresses| && Reaches(cfg, probe, addresses[i]))
    ensures r.Tested? && KnownCheckType(form.checkType.value) ==>
      var cfg := ProbeConfig(form.checkType.value, ParseInt32(form.portText).value, ParseInt32(form.timeoutText).value);
      var addresses := FormAddresses(form.addressesText);
      && |r.scan.issued| == r.scan.visited
      && (forall i :: 0 <= i < r.scan.visited ==> Some(r.scan.issued[i]) == RequestFor(cfg, addresses[i]))
      && (forall i :: 0 <= i < r.scan.visited - 1 ==> !Reaches(cfg, probe, addresses[i]))
      && (r.anySuccess ==> r.scan.reached == Some(addresses[r.scan.visited - 1]))
  {
    if form.checkType.None? then Aborted
    else
      match ParseInt32(form.timeoutText)
      case None => Aborted
      case Some(timeout) =>
        match ParseInt32(form.portText)
        case None => Aborted
        case Some(port) =>
          var addresses := FormAddresses(form.addressesText);
          if addresses == [] then NoAddresses
          else
            var cfg := ProbeConfig(form.checkType.value, port, timeout);
            var scan := ScanAddresses(cfg, probe, addresses);
            ScanFindsAny(cfg, probe, addresses);
            if KnownCheckType(cfg.checkType) then
              ScanReport(cfg, probe, addresses, scan, scan.reached.Some?);
              Tested(scan, scan.reached.Some?)
            else
              Tested(scan, scan.reached.Some?)
  }

  /** What a finished scan tells about the addresses it went through. */
  lemma ScanReport(cfg: ProbeConfig, probe: ProbeRequest -> bool, addresses: seq<string>, scan: Scan, anySuccess: bool)
    requires KnownCheckType(cfg.checkType)
    requires scan == ScanAddresses(cfg, probe, addresses) && (anySuccess <==> scan.reached.Some?)
    ensures && |scan.issued| == scan.visited
      && (forall i :: 0 <= i < scan.visited ==> Some(scan.issued[i]) == RequestFor(cfg, addresses[i]))
      && (forall i :: 0 <= i < scan.visited - 1 ==> !Reaches(cfg, probe, addresses[i]))
      && (anySuccess ==> scan.reached == Some(addresses[scan.visited - 1]))
  {
    ScanIsFirstSuccess(cfg, probe, addresses);
  }

  /** The factory defaults (no address yet) survive an unedited Load and Save. */
  lemma DefaultsRoundTrip()
    ensures Save(DefaultNetworkSettings, Load(DefaultNetworkSettings))
         == SaveResult(DefaultNetworkSettings, Some(DefaultNetworkSettings))
  {
    LoadSaveRoundTrip(DefaultNetworkSettings, []);
  }
}
