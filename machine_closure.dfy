/**
 * `check_closed_machine`: after a SURVEY, the ring is closed when the start
 * and end markers of the survey table lie within a tolerance of each other in
 * x and in z. The survey coordinates are given as reals.
 */
module MachineClosure {
  import opened Wrappers

  /** The default tolerance, 1 mm. */
  const DefaultTolerance: real := 0.001

  /** `survey.x["#s"]`, `survey.x["#e"]`, `survey.z["#s"]`, `survey.z["#e"]`. */
  datatype SurveyEnds = SurveyEnds(xStart: real, xEnd: real, zStart: real, zEnd: real)

  /** Which of the two assertions failed (both raise `AssertionError`). */
  datatype NotClosed = XNotClosed | ZNotClosed

  datatype Closure = Closure(xDiff: real, zDiff: real)

  function Abs(v: real): (a: real)
    ensures a >= 0.0 && (a == v || a == -v)
  {
    if v < 0.0 then -v else v
  }

  /**
   * The check proper: it succeeds with the two distances exactly when both are
   * strictly below `tol`, and reports the x violation before the z one.
   */
  function CheckClosure(ends: SurveyEnds, tol: real): (r: Result<Closure, NotClosed>)
    ensures r.Success? <==>
            Abs(ends.xStart - ends.xEnd) < tol && Abs(ends.zStart - ends.zEnd) < tol
    ensures r.Success? ==>
            r.value.xDiff >= 0.0 && r.value.zDiff >= 0.0
            && (r.value.xDiff == ends.xStart - ends.xEnd || r.value.xDiff == ends.xEnd - ends.xStart)
            && (r.value.zDiff == ends.zStart - ends.zEnd || r.value.zDiff == ends.zEnd - ends.zStart)
    ensures r == Failure(XNotClosed) <==> Abs(ends.xStart - ends.xEnd) >= tol
    ensures r == Failure(ZNotClosed) <==>
            Abs(ends.xStart - ends.xEnd) < tol && Abs(ends.zStart - ends.zEnd) >= tol
  {
    var xDiff := Abs(ends.xStart - ends.xEnd);
    var zDiff := Abs(ends.zStart - ends.zEnd);
    if !(xDiff < tol) then Failure(XNotClosed)
    else if !(zDiff < tol) then Failure(ZNotClosed)
    else Success(Closure(xDiff, zDiff))
  }

  /** A distance equal to the tolerance fails: the comparison is strict. */
  lemma ToleranceIsExclusive(ends: SurveyEnds)
    ensures CheckClosure(ends, Abs(ends.xStart - ends.xEnd)) == Failure(XNotClosed)
    ensures CheckClosure(ends, Abs(ends.zStart - ends.zEnd)).Failure?
  {
  }

  /** Swapping the start and end markers does not change the verdict. */
  lemma CheckClosureSymmetric(ends: SurveyEnds, tol: real)
    ensures CheckClosure(SurveyEnds(ends.xEnd, ends.xStart, ends.zEnd, ends.zStart), tol)
         == CheckClosure(ends, tol)
  {
  }

  /** A machine closed at some tolerance is closed at every larger one. */
  lemma CheckClosureMonotone(ends: SurveyEnds, tol: real, looser: real)
    requires tol <= looser
    requires CheckClosure(ends, tol).Success?
    ensures CheckClosure(ends, looser) == CheckClosure(ends, tol)
  {
  }

  /** No tolerance at or below zero accepts any survey. */
  lemma NonPositiveToleranceRejects(ends: SurveyEnds, tol: real)
    requires tol <= 0.0
    ensures CheckClosure(ends, tol) == Failure(XNotClosed)
  {
  }
}
