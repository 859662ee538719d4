/**
 The keyword colouring of the execution log (Helpers/LogColorizer.cs): a line is
 classified by the first keyword group it contains, green before yellow before red,
 and an element's foreground brush changes only when the line's first `]` sits after
 the first character and before the last.
 */
module LogColorizer {
  import opened Wrappers
  import opened Text

  /** Foreground brushes: the three the colorizer sets, or any other. */
  datatype Brush = LightGreen | Yellow | Red | OtherBrush(name: string)

  /** The branch of `ColorizeLine` a line takes. */
  datatype Branch = GreenBranch | YellowBranch | RedBranch | NoBranch

  /** 성공 (success), 완료 (done) or ✓. */
  predicate HasGreenKeyword(t: string) {
    Contains(t, "성공") || Contains(t, "완료") || Contains(t, "✓")
  }

  /** 경고 (warning), 실패 (failure), ✗, 재시도 (retry), 중지 (stop) or 끊김 (disconnected). */
  predicate HasYellowKeyword(t: string) {
    || Contains(t, "경고") || Contains(t, "실패") || Contains(t, "✗")
    || Contains(t, "재시도") || Contains(t, "중지") || Contains(t, "끊김")
  }

  /** 오류 or 에러 (error) or "Error", or both 없습니다 (there is no) and 파일 (file). */
  predicate HasRedKeyword(t: string) {
    || Contains(t, "오류") || Contains(t, "에러") || Contains(t, "Error")
    || (Contains(t, "없습니다") && Contains(t, "파일"))
  }

  /** The branch a line takes; an empty line takes none. */
  function Classify(t: string): (r: Branch)
    ensures r == GreenBranch <==> t != [] && HasGreenKeyword(t)
    ensures r == YellowBranch <==> t != [] && !HasGreenKeyword(t) && HasYellowKeyword(t)
    ensures r == RedBranch <==> t != [] && !HasGreenKeyword(t) && !HasYellowKeyword(t) && HasRedKeyword(t)
    ensures r == NoBranch <==> t == [] || (!HasGreenKeyword(t) && !HasYellowKeyword(t) && !HasRedKeyword(t))
  {
    if |t| == 0 then NoBranch
    else if HasGreenKeyword(t) then GreenBranch
    else if HasYellowKeyword(t) then YellowBranch
    else if HasRedKeyword(t) then RedBranch
    else NoBranch
  }

  /** The timestamp guard: the first `]` exists, is not the first character and is
      not the last. */
  predicate TimestampGuard(t: string) {
    var k := IndexOf(t, ']');
    0 < k < |t| - 1
  }

  /** The guard holds exactly when some `]` at an index in 1..|t|-2 has no `]` before it. */
  lemma TimestampGuardMeans(t: string)
    ensures TimestampGuard(t) <==>
      exists k :: 0 < k < |t| - 1 && t[k] == ']' && Excludes(t[..k], {']'})
  {
    IndexOfAnySkips(t, {']'});
    if exists k :: 0 < k < |t| - 1 && t[k] == ']' && Excludes(t[..k], {']'}) {
      var k :| 0 < k < |t| - 1 && t[k] == ']' && Excludes(t[..k], {']'});
      IndexOfAnyFirst(t, {']'}, k);
    }
  }

  /** The brush of one visual element of the line after `ColorizeLine`; `None` is a
      null brush. */
  function ColorizeElement(t: string, fg: Option<Brush>): (r: Option<Brush>)
    ensures Classify(t) == NoBranch || !TimestampGuard(t) ==> r == fg
    ensures TimestampGuard(t) && Classify(t) == GreenBranch ==> r == (if fg.None? then None else Some(LightGreen))
    ensures TimestampGuard(t) && Classify(t) == YellowBranch ==> r == Some(Yellow)
    ensures TimestampGuard(t) && Classify(t) == RedBranch ==> r == Some(Red)
  {
    match Classify(t)
    case GreenBranch => if TimestampGuard(t) && fg.Some? then Some(LightGreen) else fg
    case YellowBranch => if TimestampGuard(t) then Some(Yellow) else fg
    case RedBranch => if TimestampGuard(t) then Some(Red) else fg
    case NoBranch => fg
  }

  /** A zero-length line is never recoloured. */
  lemma EmptyLineUnchanged(fg: Option<Brush>)
    ensures ColorizeElement("", fg) == fg
  {
  }

  /** A recoloured element always gets one of the three brushes, and only lines with
      a timestamp and a keyword are recoloured. */
  lemma RecolourNeedsKeywordAndTimestamp(t: string, fg: Option<Brush>)
    requires ColorizeElement(t, fg) != fg
    ensures TimestampGuard(t)
    ensures HasGreenKeyword(t) || HasYellowKeyword(t) || HasRedKeyword(t)
    ensures ColorizeElement(t, fg) in {Some(LightGreen), Some(Yellow), Some(Red)}
  {
  }

  /** A success keyword anywhere wins over every other keyword around it. */
  lemma SuccessWins(a: string, b: string)
    ensures Classify(a + "성공" + b) == GreenBranch
  {
    ContainsSelf("성공");
    ContainsAppend(a, "성공", "성공");
    ContainsAppend(a + "성공", b, "성공");
  }

  /** A failure keyword with no success keyword is yellow, even beside an error keyword. */
  lemma FailureBeatsError(a: string, b: string)
    requires !HasGreenKeyword(a + "실패" + b)
    ensures Classify(a + "실패" + b) == YellowBranch
  {
    ContainsSelf("실패");
    ContainsAppend(a, "실패", "실패");
    ContainsAppend(a + "실패", b, "실패");
  }

  /** "없습니다" alone is not an error keyword: `&&` binds tighter than `||`, so it
      needs "파일" as well. */
  lemma MissingNeedsFile(t: string)
    requires Contains(t, "없습니다") && !Contains(t, "파일")
    requires !HasGreenKeyword(t) && !HasYellowKeyword(t)
    requires !Contains(t, "오류") && !Contains(t, "에러") && !Contains(t, "Error")
    ensures Classify(t) == NoBranch
  {
  }

  /** The null-brush asymmetry: a green line leaves a null brush null, a yellow or
      red line sets it. */
  lemma NullBrushOnlyGreenKeeps(t: string)
    requires TimestampGuard(t) && Classify(t) != NoBranch
    ensures ColorizeElement(t, None).None? <==> Classify(t) == GreenBranch
  {
  }
}
