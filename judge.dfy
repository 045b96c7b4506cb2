/**
 * The Python judge service (judge-service/main.py): runs a submission once
 * per test case, compares each output with the expected one, stops at the
 * first failing case and reports a verdict.
 *
 * Running a case (temporary directory, generated runner script, `python3`
 * subprocess, wall-clock timeout) is outside the model: the result of each
 * run is an input, a `RunOutcome`.
 */
module Judge {
  import opened Shared

  /** `TestCase` of main.py: the argument given to the program and the output it must print. */
  datatype TestCase = TestCase(input: string, expectedOutput: string)

  /** `JudgeRequest` of main.py. The two limits default to 2000 ms and 256 MB there. */
  datatype JudgeRequest = JudgeRequest(
    language: string,
    code: string,
    testCases: seq<TestCase>,
    timeLimitMs: int,
    memoryLimitMb: int)

  /** `JudgeResult` of main.py; `errorMessage` is `None` where the source leaves it unset. */
  datatype JudgeResult = JudgeResult(
    status: AttemptStatus,
    testsPassed: nat,
    testsTotal: nat,
    execTimeMs: nat,
    memoryMb: nat,
    errorMessage: Option<string>)

  /**
   * What one `subprocess.run` of the runner script did: it exited with a
   * return code, captured output and a measured duration in milliseconds;
   * it hit the timeout (`subprocess.TimeoutExpired`); or running it raised
   * another exception, whose `str(e)` is `msg`.
   */
  datatype RunOutcome =
    | Exited(returncode: int, stdout: string, stderr: string, timeMs: nat)
    | TimedOut
    | Raised(msg: string)

  /** The verdict on one test case: it passed, or it failed with a status and an optional message. */
  datatype CaseVerdict =
    | Pass(timeMs: nat)
    | Fail(status: AttemptStatus, message: Option<string>, timeMs: nat)

  // ---------------------------------------------------------------------------
  // Output normalisation: Python's str.strip() and str.replace(" ", "")
  // ---------------------------------------------------------------------------

  /** The characters for which Python's `str.isspace()` holds, which `str.strip()` removes. */
  predicate IsSpace(c: char) {
    || c == ' ' || c == '\t' || c == '\n' || c == '\r' || c == '\U{0B}' || c == '\U{0C}'
    || ('\U{1C}' <= c <= '\U{1F}') || c == '\U{85}' || c == '\U{A0}' || c == '\U{1680}'
    || ('\U{2000}' <= c <= '\U{200A}') || c == '\U{2028}' || c == '\U{2029}' || c == '\U{202F}'
    || c == '\U{205F}' || c == '\U{3000}'
  }

  /** Every character of `s` is whitespace. */
  predicate AllSpace(s: string) {
    forall k :: 0 <= k < |s| ==> IsSpace(s[k])
  }

  /** `s` with its trailing whitespace removed, as the right half of `str.strip()`. */
  function StripRight(s: string): string {
    if |s| > 0 && IsSpace(s[|s| - 1]) then StripRight(s[..|s| - 1]) else s
  }

  /** `s` with its leading whitespace removed, as the left half of `str.strip()`. */
  function StripLeft(s: string): string {
    if |s| > 0 && IsSpace(s[0]) then StripLeft(s[1..]) else s
  }

  /** `StripRight(s)` is the longest prefix of `s` that does not end in whitespace. */
  lemma {:induction false} StripRightMeaning(s: string)
    ensures var r := StripRight(s);
            && |r| <= |s| && r == s[..|r|]
            && (forall k :: |r| <= k < |s| ==> IsSpace(s[k]))
            && (r == [] || !IsSpace(r[|r| - 1]))
  {
    if |s| > 0 && IsSpace(s[|s| - 1]) {
      StripRightMeaning(s[..|s| - 1]);
      var r := StripRight(s[..|s| - 1]);
      assert s[..|s| - 1][..|r|] == s[..|r|];
    }
  }

  /** `StripLeft(s)` is the longest suffix of `s` that does not start with whitespace. */
  lemma {:induction false} StripLeftMeaning(s: string)
    ensures var r := StripLeft(s);
            && |r| <= |s| && r == s[|s| - |r|..]
            && (forall k :: 0 <= k < |s| - |r| ==> IsSpace(s[k]))
            && (r == [] || !IsSpace(r[0]))
  {
    if |s| > 0 && IsSpace(s[0]) {
      StripLeftMeaning(s[1..]);
      var r := StripLeft(s[1..]);
      assert s[1..][|s[1..]| - |r|..] == s[|s| - |r|..];
    }
  }

  /**
   * Python's `s.strip()`: what is left once leading and trailing whitespace
   * are removed; it is a piece of `s` that neither starts nor ends with
   * whitespace, and only whitespace was cut off.
   */
  function Strip(s: string): (r: string)
    ensures |r| <= |s|
    ensures r == [] || (!IsSpace(r[0]) && !IsSpace(r[|r| - 1]))
  {
    var t := StripRight(s);
    StripRightMeaning(s);
    StripLeftMeaning(t);
    var r := StripLeft(t);
    assert r != [] ==> r[|r| - 1] == t[|t| - 1];
    r
  }

  /**
   * `Strip(s)` is the piece of `s` left once a run of leading whitespace and
   * a run of trailing whitespace are cut off, and nothing else.
   */
  lemma StripMeaning(s: string)
    ensures var r := Strip(s);
            exists a :: 0 <= a && a + |r| <= |s| && r == s[a..a + |r|] && AllSpace(s[..a]) && AllSpace(s[a + |r|..])
  {
    var t := StripRight(s);
    StripRightMeaning(s);
    StripLeftMeaning(t);
    var r := Strip(s);
    var a := |t| - |r|;
    assert r == s[a..a + |r|];
    assert AllSpace(s[..a]);
    assert AllSpace(s[a + |r|..]);
  }

  /** Python's `s.replace(" ", "")`. */
  function RemoveSpaces(s: string): string {
    if s == [] then [] else (if s[0] == ' ' then [] else [s[0]]) + RemoveSpaces(s[1..])
  }

  /**
   * `RemoveSpaces(s)` holds no space and keeps every other character of `s`
   * as often as `s` has it; a string without spaces is left as it is.
   */
  lemma {:induction false} RemoveSpacesMeaning(s: string)
    ensures var r := RemoveSpaces(s);
            && (forall k :: 0 <= k < |r| ==> r[k] != ' ')
            && multiset(r) == multiset(s)[' ' := 0]
            && ((forall k :: 0 <= k < |s| ==> s[k] != ' ') ==> r == s)
  {
    if s != [] {
      RemoveSpacesMeaning(s[1..]);
      assert s == [s[0]] + s[1..];
    }
  }

  /**
   * The comparison the judge actually applies (main.py:88, 102-104): the
   * stripped standard output and the expected output are equal once all
   * spaces are removed from both. The JSON comparison written before it
   * (main.py:91-99) never runs: `json` is not imported by main.py, so
   * `json.loads` raises a NameError that the bare `except:` catches.
   */
  predicate OutputMatches(stdout: string, expected: string) {
    RemoveSpaces(Strip(stdout)) == RemoveSpaces(expected)
  }

  /** The message of a wrong answer, main.py:108. */
  function WrongAnswerMessage(output: string, expected: string): string {
    "Got: " + output + ", Expected: " + expected
  }

  // ---------------------------------------------------------------------------
  // One test case
  // ---------------------------------------------------------------------------

  /**
   * The body of the per-case loop (main.py:72-117) as a verdict: a non-zero
   * exit is an `error` carrying the stripped stderr, a mismatch a
   * `wrong_answer`, a timeout a `tle` without message, any other exception an
   * `error` carrying its text. Only a run that exited contributes time.
   */
  function CaseVerdictOf(tc: TestCase, o: RunOutcome): (v: CaseVerdict)
    ensures v.Pass? <==> o.Exited? && o.returncode == 0 && OutputMatches(o.stdout, tc.expectedOutput)
    ensures v.timeMs == (if o.Exited? then o.timeMs else 0)
    ensures v.Fail? ==> (v.status == Error || v.status == WrongAnswer || v.status == Tle)
    ensures v.Fail? ==> (v.status == Tle <==> o.TimedOut?)
    ensures v.Fail? ==> (v.message.None? <==> v.status == Tle)
    ensures v.Fail? && v.status == WrongAnswer ==>
              o.Exited? && o.returncode == 0 && v.message == Some(WrongAnswerMessage(Strip(o.stdout), tc.expectedOutput))
    ensures o.Exited? && o.returncode != 0 ==> v == Fail(Error, Some(Strip(o.stderr)), o.timeMs)
    ensures o.Exited? && o.returncode == 0 && !OutputMatches(o.stdout, tc.expectedOutput) ==>
              v == Fail(WrongAnswer, Some(WrongAnswerMessage(Strip(o.stdout), tc.expectedOutput)), o.timeMs)
    ensures o.TimedOut? ==> v == Fail(Tle, None, 0)
    ensures o.Raised? ==> v == Fail(Error, Some(o.msg), 0)
  {
    match o
    case Exited(returncode, stdout, stderr, timeMs) =>
      if returncode != 0 then Fail(Error, Some(Strip(stderr)), timeMs)
      else if OutputMatches(stdout, tc.expectedOutput) then Pass(timeMs)
      else Fail(WrongAnswer, Some(WrongAnswerMessage(Strip(stdout), tc.expectedOutput)), timeMs)
    case TimedOut => Fail(Tle, None, 0)
    case Raised(msg) => Fail(Error, Some(msg), 0)
  }

  predicate Passes(tc: TestCase, o: RunOutcome) {
    CaseVerdictOf(tc, o).Pass?
  }

  // ---------------------------------------------------------------------------
  // The whole run
  // ---------------------------------------------------------------------------

  /** The verdict on every case, in order, as if every case were run. */
  function Verdicts(cases: seq<TestCase>, outcomes: seq<RunOutcome>): (vs: seq<CaseVerdict>)
    requires |outcomes| == |cases|
    ensures |vs| == |cases|
    ensures forall j :: 0 <= j < |cases| ==> vs[j] == CaseVerdictOf(cases[j], outcomes[j])
  {
    seq(|cases|, j requires 0 <= j < |cases| => CaseVerdictOf(cases[j], outcomes[j]))
  }

  /**
   * The reference fold over the verdicts from index `i` on, having passed
   * `passed` cases and spent `time` milliseconds so far: continue while cases
   * pass, stop at the first failure.
   */
  function Fold(vs: seq<CaseVerdict>, i: nat, passed: nat, time: nat): JudgeResult
    requires i <= |vs|
    decreases |vs| - i
  {
    if i == |vs| then JudgeResult(Accepted, passed, |vs|, time, 0, None)
    else
      match vs[i]
      case Pass(t) => Fold(vs, i + 1, passed + 1, time + t)
      case Fail(status, message, t) => JudgeResult(status, passed, |vs|, time + t, 0, message)
  }

  /** The verdict of `execute_python_code` on the given per-case outcomes. */
  function Verdict(cases: seq<TestCase>, outcomes: seq<RunOutcome>): JudgeResult
    requires |outcomes| == |cases|
  {
    Fold(Verdicts(cases, outcomes), 0, 0, 0)
  }

  /** The first `k` verdicts are passes. */
  predicate AllPass(vs: seq<CaseVerdict>, k: nat)
    requires k <= |vs|
  {
    forall j :: 0 <= j < k ==> vs[j].Pass?
  }

  /** The milliseconds spent by the first `k` cases. */
  function TimeSpent(vs: seq<CaseVerdict>, k: nat): nat
    requires k <= |vs|
  {
    if k == 0 then 0 else TimeSpent(vs, k - 1) + vs[k - 1].timeMs
  }

  /**
   * `execute_python_code` (main.py:34-128): the per-case loop with its
   * early `break`, then the final choice of status at main.py:119.
   */
  method ExecutePythonCode(code: string, testCases: seq<TestCase>, outcomes: seq<RunOutcome>) returns (r: JudgeResult)
    requires |outcomes| == |testCases|
    ensures r == Verdict(testCases, outcomes)
  {
    ghost var vs := Verdicts(testCases, outcomes);
    var testsPassed: nat := 0;
    var totalTests := |testCases|;
    var overallExecTime: nat := 0;
    var errorMsg: Option<string> := None;
    // `None` while `status` is not yet a local variable of the Python function
    var status: Option<AttemptStatus> := None;
    var i := 0;
    while i < |testCases|
      invariant i <= |testCases|
      invariant testsPassed == i && status.None? && errorMsg.None?
      invariant Fold(vs, i, testsPassed, overallExecTime) == Verdict(testCases, outcomes)
    {
      var tc := testCases[i];
      match outcomes[i] {
        case Exited(returncode, stdout, stderr, execTime) =>
          overallExecTime := overallExecTime + execTime;
          if returncode != 0 {
            status := Some(Error);
            errorMsg := Some(Strip(stderr));
            assert vs[i] == Fail(Error, errorMsg, execTime);
            break;
          }
          var output := Strip(stdout);
          var strippedOut := RemoveSpaces(output);
          var strippedExpected := RemoveSpaces(tc.expectedOutput);
          if strippedOut == strippedExpected {
            assert vs[i] == Pass(execTime);
            assert Fold(vs, i, testsPassed, overallExecTime - execTime) == Fold(vs, i + 1, testsPassed + 1, overallExecTime);
            testsPassed := testsPassed + 1;
          } else {
            errorMsg := Some(WrongAnswerMessage(output, tc.expectedOutput));
            status := Some(WrongAnswer);
            assert vs[i] == Fail(WrongAnswer, errorMsg, execTime);
            break;
          }
        case TimedOut =>
          status := Some(Tle);
          assert vs[i] == Fail(Tle, None, 0);
          break;
        case Raised(msg) =>
          status := Some(Error);
          errorMsg := Some(msg);
          assert vs[i] == Fail(Error, errorMsg, 0);
          break;
      }
      i := i + 1;
    }
    var finalStatus :=
      if testsPassed == totalTests then Accepted
      else if status.Some? then status.value
      else WrongAnswer;
    r := JudgeResult(finalStatus, testsPassed, totalTests, overallExecTime, 0, errorMsg);
  }

  /**
   * The `/judge` endpoint (main.py:130-142): Python submissions are run,
   * every other language gets an `error` result without running anything.
   */
  method Judge(request: JudgeRequest, outcomes: seq<RunOutcome>) returns (r: JudgeResult)
    requires |outcomes| == |request.testCases|
    ensures request.language == "python" ==> r == Verdict(request.testCases, outcomes)
    ensures request.language != "python" ==>
              && r.status == Error && r.testsPassed == 0 && r.testsTotal == |request.testCases|
              && r.execTimeMs == 0 && r.memoryMb == 0
              && r.errorMessage == Some("Language " + request.language + " not supported yet.")
  {
    if request.language == "python" {
      r := ExecutePythonCode(request.code, request.testCases, outcomes);
      return;
    }
    r := JudgeResult(Error, 0, |request.testCases|, 0, 0,
                     Some("Language " + request.language + " not supported yet."));
  }

  // ---------------------------------------------------------------------------
  // What the verdict means
  // ---------------------------------------------------------------------------

  /**
   * The fold from a state the loop can reach (the first `i` cases passed,
   * their time summed) ends in a result that counts the leading passes, names
   * the first failing case and sums the time of every case it ran.
   */
  lemma {:induction false} FoldMeaning(vs: seq<CaseVerdict>, i: nat, time: nat)
    requires i <= |vs| && AllPass(vs, i) && time == TimeSpent(vs, i)
    ensures var r := Fold(vs, i, i, time);
            && r.testsTotal == |vs| && i <= r.testsPassed <= |vs| && r.memoryMb == 0
            && AllPass(vs, r.testsPassed)
            && (r.testsPassed == |vs| ==>
                  r.status == Accepted && r.errorMessage.None? && r.execTimeMs == TimeSpent(vs, |vs|))
            && (r.testsPassed < |vs| ==>
                  var v := vs[r.testsPassed];
                  && v.Fail? && r.status == v.status && r.errorMessage == v.message
                  && r.execTimeMs == TimeSpent(vs, r.testsPassed + 1))
    decreases |vs| - i
  {
    if i < |vs| && vs[i].Pass? {
      FoldMeaning(vs, i + 1, time + vs[i].timeMs);
    }
  }

  /**
   * The verdict of a run: `testsTotal` is the number of cases; `testsPassed`
   * is the number of leading cases that pass; if a case failed, the status,
   * message and time are those of the first failing case (its time
   * included), otherwise the status is `accepted`, without message, and the
   * time is that of all cases; memory is always 0.
   */
  lemma VerdictMeaning(cases: seq<TestCase>, outcomes: seq<RunOutcome>)
    requires |outcomes| == |cases|
    ensures var r := Verdict(cases, outcomes);
            var vs := Verdicts(cases, outcomes);
            && r.testsTotal == |cases| && r.testsPassed <= r.testsTotal && r.memoryMb == 0
            && (forall j :: 0 <= j < r.testsPassed ==> Passes(cases[j], outcomes[j]))
            && (r.testsPassed == |cases| ==>
                  r.status == Accepted && r.errorMessage.None? && r.execTimeMs == TimeSpent(vs, |cases|))
            && (r.testsPassed < |cases| ==>
                  var v := CaseVerdictOf(cases[r.testsPassed], outcomes[r.testsPassed]);
                  && v.Fail? && r.status == v.status && r.errorMessage == v.message
                  && r.execTimeMs == TimeSpent(vs, r.testsPassed + 1))
  {
    FoldMeaning(Verdicts(cases, outcomes), 0, 0);
  }

  /** `accepted` exactly when every case passes, and then all cases are counted as passed. */
  lemma AcceptedIffAllPass(cases: seq<TestCase>, outcomes: seq<RunOutcome>)
    requires |outcomes| == |cases|
    ensures Verdict(cases, outcomes).status == Accepted <==>
              forall j :: 0 <= j < |cases| ==> Passes(cases[j], outcomes[j])
    ensures Verdict(cases, outcomes).status == Accepted <==> Verdict(cases, outcomes).testsPassed == |cases|
  {
    VerdictMeaning(cases, outcomes);
  }

  /**
   * `testsPassed` is the index of the first failing case, and the status is
   * that case's own: any index `k` whose predecessors all pass and which
   * fails is the reported count.
   */
  lemma PassedIsFirstFailure(cases: seq<TestCase>, outcomes: seq<RunOutcome>, k: nat)
    requires |outcomes| == |cases| && k < |cases|
    requires forall j :: 0 <= j < k ==> Passes(cases[j], outcomes[j])
    requires !Passes(cases[k], outcomes[k])
    ensures Verdict(cases, outcomes).testsPassed == k
    ensures Verdict(cases, outcomes).status == CaseVerdictOf(cases[k], outcomes[k]).status
  {
    VerdictMeaning(cases, outcomes);
  }

  /** The judge reports only `accepted`, `wrong_answer`, `tle` or `error`; never `mle` nor `pending`. */
  lemma StatusesProduced(cases: seq<TestCase>, outcomes: seq<RunOutcome>)
    requires |outcomes| == |cases|
    ensures var s := Verdict(cases, outcomes).status;
            s == Accepted || s == WrongAnswer || s == Tle || s == Error
  {
    VerdictMeaning(cases, outcomes);
  }

  /** There is an error message exactly when the status is neither `accepted` nor `tle`. */
  lemma MessagePresence(cases: seq<TestCase>, outcomes: seq<RunOutcome>)
    requires |outcomes| == |cases|
    ensures var r := Verdict(cases, outcomes);
            r.errorMessage.None? <==> (r.status == Accepted || r.status == Tle)
  {
    VerdictMeaning(cases, outcomes);
  }

  /**
   * The reported time is the sum of the times of the cases that exited, up
   * to and including the first failing case: a case that timed out or
   * raised adds nothing.
   */
  lemma TimeOfFailingRun(cases: seq<TestCase>, outcomes: seq<RunOutcome>)
    requires |outcomes| == |cases|
    ensures var r := Verdict(cases, outcomes);
            var vs := Verdicts(cases, outcomes);
            r.testsPassed < |cases| ==>
              r.execTimeMs == TimeSpent(vs, r.testsPassed)
                              + (if outcomes[r.testsPassed].Exited? then outcomes[r.testsPassed].timeMs else 0)
  {
    VerdictMeaning(cases, outcomes);
  }

  /** No test cases: `accepted`, 0 of 0, no time, no message. */
  lemma EmptyRunAccepted(outcomes: seq<RunOutcome>)
    requires |outcomes| == 0
    ensures Verdict([], outcomes) == JudgeResult(Accepted, 0, 0, 0, 0, None)
  {
  }

  // ---------------------------------------------------------------------------
  // What the comparison ignores and what it does not
  // ---------------------------------------------------------------------------

  lemma {:induction false} StripRightDropsTrailingSpace(s: string, w: string)
    requires AllSpace(w)
    ensures StripRight(s + w) == StripRight(s)
    decreases |w|
  {
    if w != [] {
      var w' := w[..|w| - 1];
      assert (s + w)[..|s + w| - 1] == s + w';
      StripRightDropsTrailingSpace(s, w');
    } else {
      assert s + w == s;
    }
  }

  /** Whitespace the program prints after its answer (a trailing newline, say) never changes the comparison. */
  lemma TrailingWhitespaceIgnored(stdout: string, w: string, expected: string)
    requires AllSpace(w)
    ensures OutputMatches(stdout + w, expected) <==> OutputMatches(stdout, expected)
  {
    StripRightDropsTrailingSpace(stdout, w);
  }

  lemma {:induction false} RemoveSpacesAppend(a: string, b: string)
    ensures RemoveSpaces(a + b) == RemoveSpaces(a) + RemoveSpaces(b)
    decreases |a|
  {
    if a == [] {
      assert a + b == b;
    } else {
      assert (a + b)[1..] == a[1..] + b;
      RemoveSpacesAppend(a[1..], b);
    }
  }

  /** A space anywhere in the expected output is irrelevant to the comparison. */
  lemma SpaceInExpectedIgnored(stdout: string, before: string, after: string)
    ensures OutputMatches(stdout, before + " " + after) <==> OutputMatches(stdout, before + after)
  {
    RemoveSpacesAppend(before + " ", after);
    RemoveSpacesAppend(before, " ");
    RemoveSpacesAppend(before, after);
  }

  /**
   * The expected output is not stripped: a trailing newline there is a
   * mismatch, while the same newline printed by the program is not.
   */
  lemma NewlineExamples()
    ensures OutputMatches("5\n", "5")
    ensures !OutputMatches("5\n", "5\n")
  {
    assert Strip("5\n") == "5" by {
      assert StripRight("5\n") == StripRight("5");
    }
    assert RemoveSpaces("5\n") == "5\n";
  }

  /** A trailing space printed by the program is ignored. */
  lemma TrailingSpaceExample()
    ensures OutputMatches("5 ", "5")
  {
    assert StripRight("5 ") == "5" by {
      assert "5 "[..1] == "5";
    }
    assert StripLeft("5") == "5";
  }

  /** Spaces inside a printed list are ignored. */
  lemma ListSpaceExample()
    ensures OutputMatches("[1, 2]", "[1,2]")
  {
    assert StripRight("[1, 2]") == "[1, 2]";
    assert StripLeft("[1, 2]") == "[1, 2]";
    assert RemoveSpaces("[1, 2]") == "[1,2]" by {
      assert "[1, 2]" == "[1," + " 2]";
      RemoveSpacesAppend("[1,", " 2]");
      assert RemoveSpaces(" 2]") == "2]";
    }
  }

  /** A tab that ends both the output and the expected output makes them differ: only the former is stripped. */
  lemma TabExample()
    ensures !OutputMatches("[1,2]\t", "[1,2]\t")
  {
    assert Strip("[1,2]\t") == "[1,2]" by {
      assert StripRight("[1,2]\t") == StripRight("[1,2]");
    }
    assert Strip("[1,2]\t") != "[1,2]\t";
    assert RemoveSpaces("[1,2]") == "[1,2]";
    assert RemoveSpaces("[1,2]\t") != RemoveSpaces("[1,2]");
  }
}
