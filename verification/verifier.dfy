/**
  The verifier (src/core/verifier.ts): runs the test, lint and build probes
  and folds their results into one `VerificationResult`.

  Each probe shells out; here a probe run is given as a `ProbeRun`: the
  command is not available, it succeeded, or it failed with the rendered
  text of the thrown error. Each probe catches its own failures, so a call
  into a probe is a `Call<ProbeRun>` only to keep the catch branch of
  `verify` in the model.
*/
module Verifier {
  import opened Wrappers
  import opened Strings
  import opened Types

  /** What a probe's shell command did. `error` is the text `${error}` of what it threw. */
  datatype ProbeRun = Unavailable | Succeeded(duration: int) | CommandFailed(error: string)

  /** The three probe runs of one verification, in the order they are awaited. */
  datatype Probes = Probes(tests: Call<ProbeRun>, lint: Call<ProbeRun>, build: Call<ProbeRun>)

  // ---------------------------------------------------------------------------
  // Probes

  /** `runTests`: absent when `npm` is missing, else one `npm test` record. */
  function RunTests(run: ProbeRun): (r: Option<seq<TestResult>>)
    ensures r.None? <==> run.Unavailable?
    ensures r.Some? ==> |r.value| == 1 && r.value[0].name == "npm test"
                        && (r.value[0].passed <==> run.Succeeded?)
    ensures run.CommandFailed? ==> r.value[0].error == Some("Tests failed: " + run.error)
  {
    match run
    case Unavailable => None
    case Succeeded(_) => Some([TestResult("npm test", true, Some(0), None)])
    case CommandFailed(e) => Some([TestResult("npm test", false, None, Some("Tests failed: " + e))])
  }

  /** `runLinting`: a failed run counts one error and no warnings. */
  function RunLinting(run: ProbeRun): (r: Option<LintingResult>)
    ensures r.None? <==> run.Unavailable?
    ensures r.Some? ==> (r.value.passed <==> run.Succeeded?)
    ensures run.CommandFailed? ==>
              r.value.errors == 1 && r.value.warnings == 0 && r.value.details == Some("Linting failed: " + run.error)
    ensures run.Succeeded? ==> r.value.errors == 0 && r.value.warnings == 0
  {
    match run
    case Unavailable => None
    case Succeeded(_) => Some(LintingResult(true, 0, 0, None))
    case CommandFailed(e) => Some(LintingResult(false, 1, 0, Some("Linting failed: " + e)))
  }

  /** `runBuild`: a successful run records how long the build took. */
  function RunBuild(run: ProbeRun): (r: Option<BuildResult>)
    ensures r.None? <==> run.Unavailable?
    ensures r.Some? ==> (r.value.passed <==> run.Succeeded?)
    ensures run.Succeeded? ==> r.value.duration == Some(run.duration) && r.value.error == None
    ensures run.CommandFailed? ==> r.value.error == Some("Build failed: " + run.error)
  {
    match run
    case Unavailable => None
    case Succeeded(d) => Some(BuildResult(true, Some(d), None))
    case CommandFailed(e) => Some(BuildResult(false, None, Some("Build failed: " + e)))
  }

  // ---------------------------------------------------------------------------
  // Aggregation

  /** `!tests || tests.every(t => t.passed)`. */
  predicate TestsPassed(tests: Option<seq<TestResult>>) {
    tests.None? || forall i :: 0 <= i < |tests.value| ==> tests.value[i].passed
  }

  /** `allChecksPassed`: every present check passed. */
  predicate AllChecksPassed(r: VerificationResult) {
    && TestsPassed(r.tests)
    && (r.linting.None? || r.linting.value.passed)
    && (r.build.None? || r.build.value.passed)
  }

  /** `tests && tests.some(t => !t.passed)`. */
  predicate SomeTestFailed(tests: Option<seq<TestResult>>) {
    tests.Some? && exists i :: 0 <= i < |tests.value| && !tests.value[i].passed
  }

  /** The failure categories in the fixed order tests, linting, build. */
  function FailingCategories(r: VerificationResult): seq<string> {
    (if SomeTestFailed(r.tests) then ["Tests failed"] else [])
    + (if r.linting.Some? && !r.linting.value.passed then ["Linting failed"] else [])
    + (if r.build.Some? && !r.build.value.passed then ["Build failed"] else [])
  }

  /** `generateFailureMessage`: the failing categories joined by ", ". */
  function FailureMessage(r: VerificationResult): (m: string)
    ensures m == "" <==> AllChecksPassed(r)
  {
    var cats := FailingCategories(r);
    JoinNonEmpty(cats, ", ");
    Join(cats, ", ")
  }

  lemma JoinNonEmpty(parts: seq<string>, sep: string)
    requires forall i :: 0 <= i < |parts| ==> parts[i] != ""
    ensures Join(parts, sep) == "" <==> |parts| == 0
  {
    if |parts| > 1 {
      assert |Join(parts, sep)| >= |parts[0]|;
    }
  }

  /** The three conditions of the failure message are the negations of the three
      conjuncts of `allChecksPassed`, and the message names the failing checks in
      order: tests, linting, build. */
  lemma FailureMessageNamesFailingChecks(r: VerificationResult)
    ensures var cats := FailingCategories(r);
      && ("Tests failed" in cats <==> !TestsPassed(r.tests))
      && ("Linting failed" in cats <==> r.linting.Some? && !r.linting.value.passed)
      && ("Build failed" in cats <==> r.build.Some? && !r.build.value.passed)
      && (forall i, j :: 0 <= i < j < |cats| ==> CategoryRank(cats[i]) < CategoryRank(cats[j]))
      && FailureMessage(r) == Join(cats, ", ")
  {
  }

  /** Position of a category in the fixed order. */
  function CategoryRank(c: string): nat {
    if c == "Tests failed" then 0 else if c == "Linting failed" then 1 else 2
  }

  // ---------------------------------------------------------------------------
  // verify

  /** `verify`: await the three probes in order, then decide. A probe that throws
      leaves the later fields unset and turns the result into a failure with a
      "Verification error" message. */
  function Verify(p: Probes): (r: VerificationResult)
    ensures (p.tests.Throws? || p.lint.Throws? || p.build.Throws?) ==>
              !r.passed && r.message.Some? && |r.message.value| >= |"Verification error: "|
              && r.message.value[..|"Verification error: "|] == "Verification error: "
    ensures !(p.tests.Throws? || p.lint.Throws? || p.build.Throws?) ==>
              && r.tests == RunTests(p.tests.value)
              && r.linting == RunLinting(p.lint.value)
              && r.build == RunBuild(p.build.value)
              && (r.passed <==> AllChecksPassed(r))
              && (r.message.Some? <==> !r.passed)
              && (!r.passed ==> r.message == Some(FailureMessage(r)))
  {
    var base := VerificationResult(true, None, None, None, None);
    match p.tests
    case Throws(e) => VerifyError(base, e)
    case Returns(t) =>
      var withTests := base.(tests := RunTests(t));
      match p.lint
      case Throws(e) => VerifyError(withTests, e)
      case Returns(l) =>
        var withLint := withTests.(linting := RunLinting(l));
        match p.build
        case Throws(e) => VerifyError(withLint, e)
        case Returns(b) =>
          var checked := withLint.(build := RunBuild(b));
          var passed := AllChecksPassed(checked);
          if passed then checked
          else checked.(passed := false, message := Some(FailureMessage(checked)))
  }

  /** The `catch` branch of `verify`. */
  function VerifyError(partial: VerificationResult, error: string): VerificationResult {
    partial.(passed := false, message := Some("Verification error: " + ErrorText(error)))
  }

  /** End to end: verification passes exactly when no probe threw and no
      available probe's command failed. */
  lemma VerifyPassesIff(p: Probes)
    ensures Verify(p).passed <==>
              && p.tests.Returns? && p.lint.Returns? && p.build.Returns?
              && !p.tests.value.CommandFailed? && !p.lint.value.CommandFailed? && !p.build.value.CommandFailed?
  {
  }

  /** With every probe unavailable, verification passes with nothing recorded. */
  lemma NoProbesPasses()
    ensures Verify(Probes(Returns(Unavailable), Returns(Unavailable), Returns(Unavailable)))
            == VerificationResult(true, None, None, None, None)
  {
  }
}
