/**
 The WPF value converter between the stored execution mode ("Network"/"Trigger") and
 its Korean display name (Converters/ExecutionModeConverter.cs). A binding value is
 either a string or some other object, which both directions hand back untouched.
 */
module ExecutionModeConverter {

  /** A bound value: a string, or an object of another type identified by `id`. */
  datatype Value = Text(s: string) | NonText(id: nat)

  const NetworkMode := "Network"
  const TriggerMode := "Trigger"
  const NetworkDisplay := "네트워크 연결 실행"
  const TriggerDisplay := "프로그램 감지 실행"

  predicate IsMode(s: string) {
    s == NetworkMode || s == TriggerMode
  }

  predicate IsDisplayName(s: string) {
    s == NetworkDisplay || s == TriggerDisplay
  }

  /** Mode to display name; every other value passes through. */
  function Convert(v: Value): (r: Value)
    ensures v == Text(NetworkMode) ==> r == Text(NetworkDisplay)
    ensures v == Text(TriggerMode) ==> r == Text(TriggerDisplay)
    ensures !(v.Text? && IsMode(v.s)) ==> r == v
    ensures r.Text? <==> v.Text?
  {
    match v
    case Text(mode) =>
      if mode == NetworkMode then Text(NetworkDisplay)
      else if mode == TriggerMode then Text(TriggerDisplay)
      else v
    case NonText(_) => v
  }

  /** Display name to mode; every other value passes through. */
  function ConvertBack(v: Value): (r: Value)
    ensures v == Text(NetworkDisplay) ==> r == Text(NetworkMode)
    ensures v == Text(TriggerDisplay) ==> r == Text(TriggerMode)
    ensures !(v.Text? && IsDisplayName(v.s)) ==> r == v
    ensures r.Text? <==> v.Text?
  {
    match v
    case Text(displayName) =>
      if displayName == NetworkDisplay then Text(NetworkMode)
      else if displayName == TriggerDisplay then Text(TriggerMode)
      else v
    case NonText(_) => v
  }

  /** A mode never looks like a display name, nor a display name like a mode. */
  lemma NamesDisjoint()
    ensures !IsMode(NetworkDisplay) && !IsMode(TriggerDisplay)
    ensures !IsDisplayName(NetworkMode) && !IsDisplayName(TriggerMode)
    ensures NetworkDisplay != TriggerDisplay
  {
    assert NetworkDisplay[0] != NetworkMode[0] && NetworkDisplay[0] != TriggerMode[0];
    assert TriggerDisplay[0] != NetworkMode[0] && TriggerDisplay[0] != TriggerMode[0];
    assert NetworkDisplay[0] != TriggerDisplay[0];
  }

  /** Converting and converting back restores every value that is not itself a
      display name. */
  lemma ConvertBackConvert(v: Value)
    requires !(v.Text? && IsDisplayName(v.s))
    ensures ConvertBack(Convert(v)) == v
  {
    NamesDisjoint();
  }

  /** Converting back and converting again restores every value that is not itself
      a stored mode. */
  lemma ConvertConvertBack(v: Value)
    requires !(v.Text? && IsMode(v.s))
    ensures Convert(ConvertBack(v)) == v
  {
    NamesDisjoint();
  }

  /** The two modes show as two different names, so the display is unambiguous. */
  lemma ConvertInjectiveOnModes(a: string, b: string)
    requires IsMode(a) && IsMode(b) && a != b
    ensures Convert(Text(a)) != Convert(Text(b))
  {
    NamesDisjoint();
  }

  /** The round trip fails exactly on the display names: a stored mode equal to a
      display name comes back as "Network" or "Trigger". */
  lemma DisplayNameNotRestored()
    ensures ConvertBack(Convert(Text(NetworkDisplay))) == Text(NetworkMode)
    ensures ConvertBack(Convert(Text(NetworkDisplay))) != Text(NetworkDisplay)
  {
    NamesDisjoint();
  }
}
