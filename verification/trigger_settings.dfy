/**
 The process-watch policy (Models/TriggerSettings.cs) and its `;`-separated list of
 process names: `GetProcessList` parses it, `SetProcessList` writes it.
 */
module TriggerSettings {
  import opened Seqs
  import opened Text

  datatype Settings = Settings(
    targetProcesses: string,
    checkIntervalSeconds: int,
    autoStartPrograms: bool)

  const Default := Settings("", 5, true)

  /** An entry as `GetProcessList` produces it. */
  predicate IsProcessName(s: string) {
    NotBlank(s) && IsTrimmedWith(s, IsWhiteSpace) && ';' !in s
  }

  /** Split on ';', trim every segment, drop the blank ones. */
  function GetProcessList(targetProcesses: string): (r: seq<string>)
    ensures forall i :: 0 <= i < |r| ==> IsProcessName(r[i])
  {
    var segments := Split(targetProcesses, {';'});
    SplitEntries(targetProcesses, {';'});
    var trimmed := Map(segments, Trim);
    assert forall i :: 0 <= i < |trimmed| ==> ';' !in trimmed[i] by {
      forall i | 0 <= i < |trimmed| ensures ';' !in trimmed[i] {
        assert segments[i] in segments;
      }
    }
    Filter(trimmed, NotBlank)
  }

  /** Drops the blank entries and joins the rest, untrimmed, with ';'. */
  function SetProcessList(processes: seq<string>): (r: string)
    ensures r == [] <==> forall i :: 0 <= i < |processes| ==> IsBlank(processes[i])
    ensures (forall i :: 0 <= i < |processes| ==> ';' !in processes[i]) ==>
      Split(r, {';'}) == Filter(processes, NotBlank)
  {
    var kept := Filter(processes, NotBlank);
    JoinEmpty(kept);
    assert (forall i :: 0 <= i < |processes| ==> ';' !in processes[i]) ==> Split(Join(";", kept), {';'}) == kept by {
      if forall i :: 0 <= i < |processes| ==> ';' !in processes[i] {
        forall i | 0 <= i < |kept| ensures NotBlank(kept[i]) && ';' !in kept[i] {
          assert kept[i] in processes;
        }
        SplitJoinNames(kept);
      }
    }
    assert kept == [] <==> forall i :: 0 <= i < |processes| ==> IsBlank(processes[i]) by {
      if kept != [] {
        assert kept[0] in processes;
      }
      if exists i :: 0 <= i < |processes| && !IsBlank(processes[i]) {
        var i :| 0 <= i < |processes| && !IsBlank(processes[i]);
        assert processes[i] in kept;
      }
    }
    Join(";", kept)
  }

  /** A join of non-blank entries is empty exactly when there are no entries. */
  lemma {:induction false} JoinEmpty(xs: seq<string>)
    requires forall i :: 0 <= i < |xs| ==> NotBlank(xs[i])
    ensures Join(";", xs) == [] <==> xs == []
  {
    if |xs| > 0 {
      assert xs[0] != [];
    }
  }

  /** Segments on either side of a ';' are parsed independently, so the list keeps
      the order of the non-blank segments. */
  lemma GetProcessListConcat(a: string, b: string)
    ensures GetProcessList(a + ";" + b) == GetProcessList(a) + GetProcessList(b)
  {
    assert a + ";" + b == a + [';'] + b;
    SplitConcat(a, ';', b, {';'});
    var sa, sb := Split(a, {';'}), Split(b, {';'});
    MapConcat(sa, sb, Trim);
    FilterConcat(Map(sa, Trim), Map(sb, Trim), NotBlank);
  }

  /** Non-blank entries without ';', joined with ';', split back into themselves. */
  lemma SplitJoinNames(xs: seq<string>)
    requires forall i :: 0 <= i < |xs| ==> NotBlank(xs[i]) && ';' !in xs[i]
    ensures Split(Join(";", xs), {';'}) == xs
  {
    forall i | 0 <= i < |xs| ensures Excludes(xs[i], {';'}) {
    }
    SplitJoin(";", xs, {';'});
    FilterAll(xs, NonEmpty);
  }

  /** For entries without ';', writing then reading the list trims the entries and
      drops the blank ones. */
  lemma SetThenGet(xs: seq<string>)
    requires forall i :: 0 <= i < |xs| ==> ';' !in xs[i]
    ensures GetProcessList(SetProcessList(xs)) == Map(Filter(xs, NotBlank), Trim)
  {
    var kept := Filter(xs, NotBlank);
    var trimmed := Map(kept, Trim);
    assert Split(SetProcessList(xs), {';'}) == kept;
    assert Filter(trimmed, NotBlank) == trimmed by {
      FilterAll(trimmed, NotBlank);
    }
  }

  /** A list already in normal form survives a write and a read unchanged. */
  lemma SetThenGetNormal(xs: seq<string>)
    requires forall i :: 0 <= i < |xs| ==> IsProcessName(xs[i])
    ensures GetProcessList(SetProcessList(xs)) == xs
  {
    SetThenGet(xs);
    FilterAll(xs, NotBlank);
    forall i | 0 <= i < |xs| ensures Trim(xs[i]) == xs[i] {
      TrimOfTrimmed(xs[i]);
    }
    MapIdentity(xs, Trim);
  }

  /** Normalisation is idempotent: reading, writing and reading again gives the
      list the first read gave. */
  lemma NormaliseIdempotent(targetProcesses: string)
    ensures GetProcessList(SetProcessList(GetProcessList(targetProcesses)))
         == GetProcessList(targetProcesses)
  {
    SetThenGetNormal(GetProcessList(targetProcesses));
  }

  /** Characters the stored string does not contain are not in any parsed name. */
  lemma GetProcessListExcludes(targetProcesses: string, cs: set<char>)
    requires Excludes(targetProcesses, cs)
    ensures forall i :: 0 <= i < |GetProcessList(targetProcesses)| ==> Excludes(GetProcessList(targetProcesses)[i], cs)
  {
    var segments := Split(targetProcesses, {';'});
    var trimmed := Map(segments, Trim);
    SplitExcludes(targetProcesses, {';'}, cs);
    forall j | 0 <= j < |trimmed| ensures Excludes(trimmed[j], cs) {
      assert segments[j] in segments;
      TrimExcludes(segments[j], cs);
    }
    var r := GetProcessList(targetProcesses);
    forall i | 0 <= i < |r| ensures Excludes(r[i], cs) {
      assert r[i] in trimmed;
    }
  }
}
