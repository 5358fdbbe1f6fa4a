/**
 The verification runner that publishes a record after every event (tools/dev/verify_source_evidence.js). Commands, the
 file system, clock and hash are one `World` value: any command may throw, any publication may fail.
 */
module SourceEvidence {
  import opened Wrappers
  import opened EvidenceSchema

  // ---- the fixed steps ----

  function Underscored(s: string): string {
    seq(|s|, i requires 0 <= i < |s| => if s[i] == '/' then '_' else s[i])
  }

  function WithoutJs(s: string): string {
    if |s| >= 3 && s[|s| - 3..] == ".js" then s[..|s| - 3] else s
  }

  function RootLabel(root: string): string {
    if root == "." then "root" else Underscored(root)
  }

  function InstallLabels(roots: seq<string>): seq<string> {
    if roots == [] then []
    else ["npm_ci_" + RootLabel(roots[0]), "npm_ls_" + RootLabel(roots[0])] + InstallLabels(roots[1..])
  }

  function SyntaxLabels(paths: seq<string>): seq<string> {
    if paths == [] then [] else ["syntax_" + WithoutJs(Underscored(paths[0]))] + SyntaxLabels(paths[1..])
  }

  const SYNTAX_PATHS := ["shared/lib/market/quote_router.js", "backend/scripts/data_ops/ingest_market_data.js",
                         "backend/scripts/data_ops/ingest_market_data/index.js", "frontend/cli-tui/sovereign_cli.js",
                         "frontend/cli-tui/tui/intersection.js", "backend/api/app.js"]

  /** The names of the fixed steps, in execution order. */
  function FixedSteps(): seq<string> {
    InstallLabels(PACKAGE_ROOTS)
    + ["build_mcp", "build_dashboard", "typecheck_gateway"]
    + SyntaxLabels(SYNTAX_PATHS)
    + ["test_native_core", "check_environment", "test_secrets", "test_api", "test_contracts", "test_structure",
       "test_aggregate_node"]
  }

  // ---- the world ----

  /** `error` is the error code of a command that could not be run; `status` its exit status. */
  datatype CommandResult = CommandResult(error: Option<string>, signal: Option<string>, status: Option<int>,
                                         stdout: string, stderr: string)

  datatype World = World(
    mode: string,
    jobs: int,
    evidenceId: string,
    acquire: Option<Option<Source>>,
    lockSha: string -> Option<string>,
    command: string -> Option<CommandResult>,
    writable: nat -> bool,
    clock: nat -> string,
    digest: string -> string,
    cleaned: bool)
  {
    /** Timestamps and ids are never empty, digests are SHA-256 in hex. */
    ghost predicate Sane() {
      evidenceId != "" && (forall i :: clock(i) != "") && (forall s :: IsSha256(digest(s)))
    }
  }

  function LockfilePath(root: string): string {
    if root == "." then "package-lock.json" else root + "/package-lock.json"
  }

  predicate CommandPasses(w: World, step: string) {
    && w.command(step).Some?
    && var r := w.command(step).value; r.error.None? && r.signal.None? && r.status == Some(0)
  }

  function FailureDiagnostic(w: World, failureClass: string, stdout: string, stderr: string): Diagnostic {
    Diagnostic(failureClass, if stderr != "" then stderr else stdout, w.digest(stdout), w.digest(stderr))
  }

  function RecordOf(w: World, step: string, r: CommandResult): StepRecord {
    var passed := r.error.None? && r.signal.None? && r.status == Some(0);
    StepRecord(step,
               if r.error.None? then r.status else None,
               r.signal,
               if passed then Pass else if r.signal.Some? then Inconclusive else Fail,
               if passed then None else Some(FailureDiagnostic(w, "command", r.stdout, r.stderr)))
  }

  // ---- what a run should say ----

  predicate Clean(r: CommandResult) {
    r.error.None? && r.signal.None? && r.status == Some(0)
  }

  /** A step's record tells its command's exit code, if the command ran, and its signal; it passes a clean command,
      leaves a signalled one inconclusive and fails any other. */
  predicate Tells(r: CommandResult, step: string, s: StepRecord) {
    && s.name == step && s.signal == r.signal && s.exitCode == (if r.error.None? then r.status else None)
    && (s.status.Pass? <==> Clean(r)) && (s.status.Inconclusive? <==> r.signal.Some?)
    && (s.diagnostic.None? <==> Clean(r))
    && (s.diagnostic.Some? ==> s.diagnostic.value.summary == if r.stderr != "" then r.stderr else r.stdout)
  }

  ghost predicate StepTold(w: World, i: nat, s: StepRecord) {
    && i < |FixedSteps()| && w.command(FixedSteps()[i]).Some?
    && Tells(w.command(FixedSteps()[i]).value, FixedSteps()[i], s)
  }

  ghost predicate StepsTell(w: World, steps: seq<StepRecord>) {
    forall i :: 0 <= i < |steps| ==> StepTold(w, i, steps[i])
  }

  /** The n-th fixed step is the first whose command is not clean, and no command before it threw. */
  ghost predicate FirstUnclean(w: World, n: nat) {
    && n < |FixedSteps()|
    && (forall i :: 0 <= i <= n ==> w.command(FixedSteps()[i]).Some?)
    && (forall i :: 0 <= i < n ==> Clean(w.command(FixedSteps()[i]).value))
    && !Clean(w.command(FixedSteps()[n]).value)
  }

  ghost predicate Signalled(w: World, n: nat)
    requires FirstUnclean(w, n)
  {
    w.command(FixedSteps()[n]).value.signal.Some?
  }

  ghost predicate AllClean(w: World) {
    forall step <- FixedSteps() :: CommandPasses(w, step)
  }

  ghost predicate Writable(w: World, n: int) {
    forall i :: 0 <= i < n ==> w.writable(i)
  }

  /** The arguments, the source and the lockfiles let the first command run. A source that the acquisition leaves out,
      instead of throwing, is refused only for a pass. */
  ghost predicate Startable(w: World) {
    && w.mode in MODES && 1 <= w.jobs <= 8
    && w.acquire.Some? && (w.acquire.value.Some? ==> w.acquire.value.value.keys == SOURCE_KEYS)
    && Locked(w)
  }

  ghost predicate Locked(w: World) {
    forall root <- PACKAGE_ROOTS :: w.lockSha(root).Some?
  }

  /** One entry for each package root, in order, with the digest of its own lockfile. */
  ghost predicate Locks(w: World, lockfiles: seq<Lockfile>) {
    && |lockfiles| == |PACKAGE_ROOTS|
    && forall i :: 0 <= i < |PACKAGE_ROOTS| ==>
         && w.lockSha(PACKAGE_ROOTS[i]) == Some(lockfiles[i].sha256)
         && lockfiles[i].path == LockfilePath(PACKAGE_ROOTS[i])
  }

  /** The run gets as far as recording its first unclean step. */
  ghost predicate StopsAt(w: World, n: nat) {
    Startable(w) && FirstUnclean(w, n) && Writable(w, 4 + 2 * n)
  }

  ghost predicate StopsSignalled(w: World, n: nat) {
    StopsAt(w, n) && Signalled(w, n)
  }

  /** The last of these steps is the first unclean one, and its signal alone makes the verdict inconclusive. */
  ghost predicate Judges(w: World, steps: seq<StepRecord>, verdict: Status) {
    && |steps| > 0 && FirstUnclean(w, |steps| - 1)
    && verdict == if Signalled(w, |steps| - 1) then Inconclusive else Fail
  }

  /** The command of this step threw, or the record that announces it could not be written. */
  ghost predicate NotRun(w: World, i: nat) {
    i < |FixedSteps()| && (w.command(FixedSteps()[i]).None? || !w.writable(2 + 2 * i))
  }

  /** The last step of an interrupted run threw, or could not be announced: it fails, without exit code or signal. */
  ghost predicate LastThrew(w: World, steps: seq<StepRecord>) {
    && 0 < |steps| <= |FixedSteps()| && StepsTell(w, steps[..|steps| - 1])
    && var i := |steps| - 1;
       && steps[i].name == FixedSteps()[i] && steps[i].status.Fail? && steps[i].exitCode.None? && steps[i].signal.None?
       && NotRun(w, i)
  }

  /** A pass gives no reason; otherwise the reason names the last step and how it ended. */
  function Reason(steps: seq<StepRecord>): Option<string> {
    if steps == [] || steps[|steps| - 1].status.Pass? then None
    else if steps[|steps| - 1].signal.Some? then Some("step terminated by signal: " + steps[|steps| - 1].name)
    else Some("step failed: " + steps[|steps| - 1].name)
  }

  /** Step i was published as running, after the steps before it, and then with its outcome. */
  ghost predicate StepLogged(announced: Evidence, told: Evidence, steps: seq<StepRecord>, i: nat)
    requires i < |steps|
  {
    && announced.active == Some(ActiveStep(steps[i].name, "running", "unfinished_step"))
    && announced.steps == steps[..i]
    && told.active.None? && told.steps == steps[..i + 1]
  }

  /** After the two records that start a run, two for each step. */
  ghost predicate Logged(published: seq<Evidence>, steps: seq<StepRecord>) {
    && |published| == 2 + 2 * |steps|
    && forall i :: 0 <= i < |steps| ==> StepLogged(published[2 + 2 * i], published[3 + 2 * i], steps, i)
  }

  lemma NothingLogged(published: seq<Evidence>)
    requires |published| == 2
    ensures Logged(published, [])
  {
  }

  lemma LogStep(published: seq<Evidence>, steps: seq<StepRecord>, announced: Evidence, told: Evidence, s: StepRecord)
    requires Logged(published, steps)
    requires announced.active == Some(ActiveStep(s.name, "running", "unfinished_step")) && announced.steps == steps
    requires told.active.None? && told.steps == steps + [s]
    ensures Logged(published + [announced, told], steps + [s])
  {
    var p, more := published + [announced, told], steps + [s];
    forall i | 0 <= i < |more| ensures StepLogged(p[2 + 2 * i], p[3 + 2 * i], more, i) {
      if i < |steps| {
        assert StepLogged(published[2 + 2 * i], published[3 + 2 * i], steps, i);
        assert p[2 + 2 * i] == published[2 + 2 * i] && p[3 + 2 * i] == published[3 + 2 * i];
        assert more[..i] == steps[..i] && more[..i + 1] == steps[..i + 1];
      } else {
        assert more[..i] == steps && more[..i + 1] == more;
      }
    }
  }

  lemma RecordTells(w: World, step: string, r: CommandResult)
    ensures Tells(r, step, RecordOf(w, step, r))
  {
  }

  lemma PassesIsClean(w: World, step: string)
    ensures CommandPasses(w, step) <==> w.command(step).Some? && Clean(w.command(step).value)
  {
  }

  // ---- what is safe to find on disk ----

  /** The steps of a record follow the fixed list, and only the last may not have passed. */
  ghost predicate StepsInOrder(steps: seq<StepRecord>) {
    && |steps| <= |FixedSteps()|
    && (forall i :: 0 <= i < |steps| ==> steps[i].name == FixedSteps()[i])
    && (forall i :: 0 <= i < |steps| - 1 ==> PassedStep(steps[i]))
  }

  /** A record that validates, whose steps are in order, and that says "pass" only for a complete run. */
  ghost predicate SafeRecord(e: Evidence) {
    && Valid(e, FixedSteps())
    && StepsInOrder(e.steps)
    && (e.active.Some? ==> |e.steps| < |FixedSteps()| && e.active.value.name == FixedSteps()[|e.steps|])
    && (e.status.Pass? ==> |e.steps| == |FixedSteps()| && forall s <- e.steps :: PassedStep(s))
  }

  /** The parts of the record in memory that never go wrong. */
  ghost predicate Identified(e: Evidence, w: World) {
    && e.schemaVersion == 2 && e.evidenceId != "" && e.startedAt != "" && e.endedAt != ""
    && e.mode == w.mode && e.jobLimit == w.jobs && e.excludedClaims == EXCLUDED_CLAIMS
  }

  ghost predicate GoodSource(e: Evidence) {
    e.source.Some? ==> e.source.value.keys == SOURCE_KEYS
  }

  ghost predicate AllPassed(steps: seq<StepRecord>) {
    forall s <- steps :: PassedStep(s)
  }

  /** A record under construction: undecided, with nothing claimed. */
  ghost predicate Undecided(e: Evidence, w: World) {
    && Identified(e, w) && GoodSource(e) && e.status.Inconclusive? && e.provenClaims == []
    && StepsInOrder(e.steps) && (forall s <- e.steps :: ValidStep(s))
    && (e.active.Some? ==>
          && AllPassed(e.steps) && |e.steps| < |FixedSteps()|
          && e.active.value == ActiveStep(FixedSteps()[|e.steps|], "running", "unfinished_step"))
  }

  /** Everything a passing run needs: sane arguments, a source identity, five lockfiles, every command, every write. */
  ghost predicate CleanWorld(w: World) {
    Startable(w) && w.acquire.value.Some? && AllClean(w) && Writable(w, 3 + 2 * |FixedSteps()|)
  }

  /** A record under construction is refused only for a bad mode or job limit. */
  lemma UndecidedIsSafe(e: Evidence, w: World)
    requires Undecided(e, w)
    ensures Valid(e, FixedSteps()) <==> w.mode in MODES && 1 <= w.jobs <= 8
    ensures Valid(e, FixedSteps()) ==> SafeRecord(e)
  {
    hide FixedSteps, Sorted, IsSha256;
    MembersOfSelf(EXCLUDED_CLAIMS);
  }

  /** The record of a failed or interrupted run is refused only for those or a malformed source identity. */
  lemma FailedIsSafe(e: Evidence, w: World)
    requires Identified(e, w) && !e.status.Pass? && e.provenClaims == [] && e.active.None?
    requires StepsInOrder(e.steps) && (forall s <- e.steps :: ValidStep(s))
    ensures Valid(e, FixedSteps()) <==> w.mode in MODES && 1 <= w.jobs <= 8 && GoodSource(e)
    ensures Valid(e, FixedSteps()) ==> SafeRecord(e)
  {
    hide FixedSteps, Sorted, IsSha256;
    MembersOfSelf(EXCLUDED_CLAIMS);
  }

  /** The record of a complete run is refused only for those or a missing source identity. */
  lemma PassedIsSafe(e: Evidence, w: World)
    requires Identified(e, w) && GoodSource(e) && e.status.Pass? && e.active.None?
    requires e.provenClaims == ExpectedClaims(w.mode) && |e.lockfiles| == |PACKAGE_ROOTS|
    requires StepsInOrder(e.steps) && AllPassed(e.steps) && |e.steps| == |FixedSteps()|
             && (forall s <- e.steps :: ValidStep(s))
    ensures Valid(e, FixedSteps()) <==> w.mode in MODES && 1 <= w.jobs <= 8 && e.source.Some?
    ensures Valid(e, FixedSteps()) ==> SafeRecord(e)
  {
    hide FixedSteps, Sorted, IsSha256;
    MembersOfSelf(EXCLUDED_CLAIMS);
    ClaimsAreProven(w.mode);
    NamesOfCompleteRun(e.steps);
  }

  lemma FailedStepIsValid(w: World, s: StepRecord)
    requires w.Sane() && s.status.Fail? && s.diagnostic == Some(FailureDiagnostic(w, "thrown", "", ""))
    ensures ValidStep(s)
  {
  }

  lemma BadSourceIsRefused(e: Evidence)
    requires !GoodSource(e)
    ensures !Valid(e, FixedSteps())
  {
    hide FixedSteps, Sorted;
  }

  lemma RecordIsValid(w: World, step: string, r: CommandResult)
    requires w.Sane()
    ensures var s := RecordOf(w, step, r);
            && ValidStep(s) && s.name == step
            && (s.status.Pass? <==> r.error.None? && r.signal.None? && r.status == Some(0))
            && (s.status.Pass? <==> PassedStep(s))
  {
  }

  // ---- what a run leaves on disk over time ----

  /** Every record is safe, only the last can carry a verdict, and each one extends the steps of those before it. */
  ghost predicate Trail(p: seq<Evidence>) {
    && (forall e <- p :: SafeRecord(e))
    && (forall i :: 0 <= i < |p| - 1 ==> p[i].status.Inconclusive?)
    && (forall i, j :: 0 <= i < j < |p| ==> p[i].steps <= p[j].steps)
  }

  /** A trail without a verdict so far, to be continued with a record of at least the given steps. */
  ghost predicate OpenTrail(p: seq<Evidence>, steps: seq<StepRecord>) {
    Trail(p) && forall e <- p :: e.status.Inconclusive? && e.steps <= steps
  }

  lemma ExtendTrail(p: seq<Evidence>, e: Evidence)
    requires OpenTrail(p, e.steps) && SafeRecord(e)
    ensures Trail(p + [e])
    ensures e.status.Inconclusive? ==> OpenTrail(p + [e], e.steps)
  {
    hide SafeRecord;
  }

  lemma OpenTrailIsTrail(p: seq<Evidence>, steps: seq<StepRecord>)
    requires OpenTrail(p, steps)
    ensures Trail(p) && (p != [] ==> p[|p| - 1].status.Inconclusive?)
  {
  }

  lemma RaiseTrail(p: seq<Evidence>, s: seq<StepRecord>, t: seq<StepRecord>)
    requires OpenTrail(p, s) && s <= t
    ensures OpenTrail(p, t)
  {
    hide SafeRecord;
  }

  /** Publishing a record under construction keeps the trail going. */
  lemma UndecidedExtendsTrail(p: seq<Evidence>, e: Evidence, w: World)
    requires Undecided(e, w) && OpenTrail(p, e.steps)
    ensures Valid(e, FixedSteps()) <==> w.mode in MODES && 1 <= w.jobs <= 8
    ensures Valid(e, FixedSteps()) ==> OpenTrail(p + [e], e.steps)
  {
    hide FixedSteps, Valid, SafeRecord, Trail, OpenTrail;
    UndecidedIsSafe(e, w);
    if SafeRecord(e) {
      ExtendTrail(p, e);
    }
  }

  datatype Failure = Failure(status: Status, reason: string)
  datatype Execution = Finished(steps: seq<StepRecord>, failure: Option<Failure>) | Threw

  class Verifier {
    const w: World
    var evidence: Evidence
    var disk: Option<Evidence>
    /** What this run has put on disk, oldest first: a crash at any moment leaves the last element behind. */
    ghost var published: seq<Evidence>
    var writes: nat
    var ticks: nat

    ghost predicate Consistent()
      reads this
    {
      (published != [] ==> disk == Some(published[|published| - 1])) && Trail(published)
    }

    ghost predicate MidRun()
      reads this
    {
      && (published != [] ==> disk == Some(published[|published| - 1]))
      && OpenTrail(published, evidence.steps)
      && Undecided(evidence, w)
    }

    constructor (w: World, before: Option<Evidence>)
      ensures this.w == w && disk == before && published == [] && writes == 0
      ensures w.Sane() ==> Fresh()
    {
      hide FixedSteps;
      this.w := w;
      disk, published, writes, ticks := before, [], 0, 0;
      evidence := Evidence(2, w.evidenceId, Inconclusive, w.mode, w.clock(0), w.clock(0), None, [], w.jobs, None,
                           [], [], EXCLUDED_CLAIMS, None);
    }

    /** Validates, then replaces the record on disk by renaming a complete file. A refused or failed write changes
        nothing. */
    method WriteEvidenceAtomic() returns (ok: bool)
      modifies this`disk, this`published, this`writes
      ensures ok == (Valid(evidence, FixedSteps()) && w.writable(old(writes)))
      ensures writes == if Valid(evidence, FixedSteps()) then old(writes) + 1 else old(writes)
      ensures disk == if ok then Some(evidence) else old(disk)
      ensures published == if ok then old(published) + [evidence] else old(published)
    {
      hide *;
      if !Valid(evidence, FixedSteps()) {
        return false;
      }
      writes := writes + 1;
      if !w.writable(writes - 1) {
        return false;
      }
      disk := Some(evidence);
      published := published + [evidence];
      return true;
    }

    method Stamp()
      requires w.Sane()
      modifies this`evidence, this`ticks
      ensures exists t :: t != "" && evidence == old(evidence).(endedAt := t)
    {
      ticks := ticks + 1;
      evidence := evidence.(endedAt := w.clock(ticks));
    }

    method OnStepStart(step: string, completed: seq<StepRecord>) returns (ok: bool)
      requires w.Sane() && MidRun() && evidence.active.None? && evidence.steps <= completed
      requires StepsInOrder(completed) && AllPassed(completed) && (forall s <- completed :: ValidStep(s))
      requires |completed| < |FixedSteps()| && step == FixedSteps()[|completed|]
      modifies this`evidence, this`ticks, this`disk, this`published, this`writes
      ensures MidRun() && evidence.steps == completed
      ensures evidence.active == Some(ActiveStep(step, "running", "unfinished_step"))
      ensures evidence.source == old(evidence.source) && evidence.lockfiles == old(evidence.lockfiles)
      ensures |old(published)| <= |published|
      ensures ok == (w.mode in MODES && 1 <= w.jobs <= 8 && w.writable(old(writes)))
      ensures ok ==> writes == old(writes) + 1 && published == old(published) + [evidence]
    {
      hide FixedSteps, Valid, SafeRecord, ValidStep, RecordOf, SameMembers, ExpectedClaims, CommandPasses, Trail,
        OpenTrail;
      evidence := evidence.(active := Some(ActiveStep(step, "running", "unfinished_step")));
      evidence := evidence.(steps := completed);
      evidence := evidence.(failureReason := Some("verification_in_progress: " + step));
      Stamp();
      RaiseTrail(published, old(evidence.steps), completed);
      UndecidedExtendsTrail(published, evidence, w);
      ok := WriteEvidenceAtomic();
    }

    method OnStepComplete(completed: seq<StepRecord>) returns (ok: bool)
      requires w.Sane() && MidRun() && evidence.steps <= completed
      requires StepsInOrder(completed) && (forall s <- completed :: ValidStep(s))
      modifies this`evidence, this`ticks, this`disk, this`published, this`writes
      ensures MidRun() && evidence.active.None? && evidence.steps == completed
      ensures evidence.source == old(evidence.source) && evidence.lockfiles == old(evidence.lockfiles)
      ensures |old(published)| <= |published|
      ensures ok == (w.mode in MODES && 1 <= w.jobs <= 8 && w.writable(old(writes)))
      ensures ok ==> writes == old(writes) + 1 && published == old(published) + [evidence]
    {
      hide FixedSteps, Valid, SafeRecord, ValidStep, RecordOf, SameMembers, ExpectedClaims, CommandPasses, Trail,
        OpenTrail;
      evidence := evidence.(active := None);
      evidence := evidence.(steps := completed);
      evidence := evidence.(failureReason := Some("step_result_pending"));
      Stamp();
      RaiseTrail(published, old(evidence.steps), completed);
      UndecidedExtendsTrail(published, evidence, w);
      ok := WriteEvidenceAtomic();
    }

    /** One step: announce it, run it, publish its outcome. Nothing is returned when an exception leaves the loop. */
    method RunStep(step: string, done: seq<StepRecord>) returns (completed: Option<StepRecord>)
      requires w.Sane() && MidRun() && evidence.active.None? && evidence.steps == done
      requires AllPassed(done) && |done| < |FixedSteps()| && step == FixedSteps()[|done|]
      modifies this`evidence, this`ticks, this`disk, this`published, this`writes
      ensures MidRun() && evidence.source == old(evidence.source) && evidence.lockfiles == old(evidence.lockfiles)
      ensures |old(published)| <= |published|
      ensures completed.Some? ==>
                && evidence.active.None? && evidence.steps == done + [completed.value]
                && w.command(step).Some? && completed.value == RecordOf(w, step, w.command(step).value)
                && (completed.value.status.Pass? <==> CommandPasses(w, step))
                     && (completed.value.status.Pass? <==> PassedStep(completed.value))
                && writes == old(writes) + 2 && w.writable(old(writes)) && w.writable(old(writes) + 1)
      ensures completed.Some? ==> Tells(w.command(step).value, step, completed.value)
      ensures StepsTell(w, done) ==> StepsTell(w, evidence.steps)
      ensures completed.Some? && Logged(old(published), done) ==> Logged(published, done + [completed.value])
      ensures w.mode in MODES && 1 <= w.jobs <= 8 && evidence.active.Some? ==>
                evidence.steps == done && (w.command(step).None? || !w.writable(old(writes)))
      ensures w.mode in MODES && 1 <= w.jobs <= 8 && w.writable(old(writes)) && w.writable(old(writes) + 1)
              && w.command(step).Some? ==>
                completed.Some?
    {
      hide FixedSteps, Valid, SafeRecord, ValidStep, RecordOf, SameMembers, ExpectedClaims, Trail, OpenTrail,
        Logged;
      var ok := OnStepStart(step, done);
      if !ok {
        return None;
      }
      ghost var announced := evidence;
      var result := w.command(step);
      if result.None? {
        return None;
      }
      var stepEvidence := RecordOf(w, step, result.value);
      RecordIsValid(w, step, result.value);
      RecordTells(w, step, result.value);
      assert StepsTell(w, done) ==> StepTold(w, |done|, stepEvidence);
      ok := OnStepComplete(done + [stepEvidence]);
      if !ok {
        return None;
      }
      if Logged(old(published), done) {
        LogStep(old(published), done, announced, evidence, stepEvidence);
        assert published == old(published) + [announced, evidence];
      }
      return Some(stepEvidence);
    }

    method ExecuteSteps() returns (x: Execution)
      requires w.Sane() && MidRun() && evidence.active.None? && evidence.steps == []
      requires Startable(w) && writes == 2 && Writable(w, 2) && |published| == 2
      modifies this`evidence, this`ticks, this`disk, this`published, this`writes
      ensures MidRun() && |old(published)| <= |published| && StepsTell(w, evidence.steps)
      ensures evidence.source == old(evidence.source) && evidence.lockfiles == old(evidence.lockfiles)
      ensures x.Finished? ==> evidence.active.None? && x.steps == evidence.steps
                              && writes == 2 + 2 * |x.steps| && Writable(w, writes) && Logged(published, x.steps)
      ensures x.Finished? ==> (x.failure.None? <==> AllPassed(x.steps))
      ensures x.Finished? && x.failure.None? ==> AllClean(w) && |x.steps| == |FixedSteps()|
      ensures x.Finished? && x.failure.Some? ==>
                Judges(w, x.steps, x.failure.value.status) && Reason(x.steps) == Some(x.failure.value.reason)
      ensures AllClean(w) && Writable(w, 2 + 2 * |FixedSteps()|) ==> x.Finished? && x.failure.None?
      ensures forall n: nat :: FirstUnclean(w, n) && Writable(w, 4 + 2 * n) ==>
                                 x.Finished? && x.failure.Some? && |x.steps| == n + 1
      ensures x.Threw? && evidence.active.Some? ==> NotRun(w, |evidence.steps|)
    {
      hide FixedSteps, Valid, SafeRecord, ValidStep, RecordOf, SameMembers, ExpectedClaims, Trail, OpenTrail,
        StepTold, Logged;
      var done: seq<StepRecord> := [];
      NothingLogged(published);
      var all := FixedSteps();
      for k := 0 to |all|
        invariant |old(published)| <= |published|
        invariant MidRun() && evidence.active.None? && evidence.steps == done && |done| == k
        invariant AllPassed(done)
        invariant evidence.source == old(evidence.source) && evidence.lockfiles == old(evidence.lockfiles)
        invariant writes == 2 + 2 * k && Writable(w, writes)
        invariant forall i :: 0 <= i < k ==> CommandPasses(w, all[i])
        invariant StepsTell(w, done) && Logged(published, done)
      {
        var step := all[k];
        assert step in all;
        var completed := RunStep(step, done);
        if completed.None? {
          return Threw;
        }
        done := done + [completed.value];
        if !completed.value.status.Pass? {
          assert completed.value in done;
          var signalled := w.command(step).value.signal.Some?;
          var failure := if signalled
                         then Failure(Inconclusive, "step terminated by signal: " + step)
                         else Failure(Fail, "step failed: " + step);
          return Finished(done, Some(failure));
        }
      }
      return Finished(done, None);
    }

    method LockfileEvidence() returns (lockfiles: Option<seq<Lockfile>>)
      ensures lockfiles.Some? <==> Locked(w)
      ensures lockfiles.Some? ==> Locks(w, lockfiles.value) && |lockfiles.value| == |PACKAGE_ROOTS|
    {
      var found: seq<Lockfile> := [];
      for k := 0 to |PACKAGE_ROOTS|
        invariant |found| == k
        invariant forall i :: 0 <= i < k ==>
                    w.lockSha(PACKAGE_ROOTS[i]) == Some(found[i].sha256)
                      && found[i].path == LockfilePath(PACKAGE_ROOTS[i])
      {
        var root := PACKAGE_ROOTS[k];
        if w.lockSha(root).None? {
          return None;
        }
        found := found + [Lockfile(LockfilePath(root), w.lockSha(root).value)];
      }
      return Some(found);
    }

    ghost predicate Fresh()
      reads this
    {
      && MidRun() && writes == 0 && published == []
      && evidence.active.None? && evidence.steps == [] && evidence.source.None? && evidence.lockfiles == []
    }

    /** What is left when something in the try block threw. */
    ghost predicate Interrupted()
      reads this
    {
      && Identified(evidence, w) && evidence.provenClaims == []
      && StepsInOrder(evidence.steps) && (forall s <- evidence.steps :: ValidStep(s))
      && (evidence.active.Some? ==>
            && AllPassed(evidence.steps) && |evidence.steps| < |FixedSteps()|
            && evidence.active.value.name == FixedSteps()[|evidence.steps|])
    }

    /** The start of the try block: the first record, the source, the lockfiles, the second record. */
    method Prepare() returns (ok: bool)
      requires w.Sane() && Fresh()
      modifies this`evidence, this`disk, this`published, this`writes
      ensures Consistent()
      ensures OpenTrail(published, evidence.steps)
      ensures published == [] ==> disk == old(disk)
      ensures !ok ==> Interrupted()
      ensures ok ==>
              MidRun() && evidence.active.None? && evidence.steps == [] && |evidence.lockfiles| == |PACKAGE_ROOTS|
      ensures ok ==> |published| == 2 && w.acquire == Some(evidence.source) && writes == 2
                     && Locks(w, evidence.lockfiles)
      ensures ok <==> Startable(w) && Writable(w, 2)
      ensures evidence.steps == [] && (!ok ==> evidence.active.None?)
    {
      hide FixedSteps, Valid, SafeRecord, ValidStep, RecordOf, SameMembers, ExpectedClaims, CommandPasses, Trail,
        OpenTrail, Locked, Locks, StepsInOrder, AllPassed;
      evidence := evidence.(failureReason := Some("verification_in_progress"));
      UndecidedExtendsTrail(published, evidence, w);
      ok := WriteEvidenceAtomic();
      OpenTrailIsTrail(published, evidence.steps);
      if !ok {
        return;
      }
      if w.acquire.None? {
        return false;
      }
      evidence := evidence.(source := w.acquire.value);
      var lockfiles := LockfileEvidence();
      if lockfiles.None? {
        return false;
      }
      evidence := evidence.(lockfiles := lockfiles.value);
      if GoodSource(evidence) {
        UndecidedExtendsTrail(published, evidence, w);
      } else {
        BadSourceIsRefused(evidence);
      }
      ok := WriteEvidenceAtomic();
      OpenTrailIsTrail(published, evidence.steps);
    }

    /** A record that carries its verdict: a pass claims everything its mode proves, anything else claims nothing. */
    ghost predicate Decided()
      reads this
    {
      && Identified(evidence, w) && evidence.active.None?
      && StepsInOrder(evidence.steps) && (forall s <- evidence.steps :: ValidStep(s))
      && (if evidence.status.Pass?
          then && GoodSource(evidence) && |evidence.lockfiles| == |PACKAGE_ROOTS|
               && AllPassed(evidence.steps) && |evidence.steps| == |FixedSteps()|
               && evidence.provenClaims == ExpectedClaims(w.mode)
          else evidence.provenClaims == [])
    }

    /** The body of the try block. */
    method Attempt() returns (ok: bool)
      requires w.Sane() && Fresh()
      modifies this`evidence, this`ticks, this`disk, this`published, this`writes
      ensures Consistent()
      ensures OpenTrail(published, evidence.steps)
      ensures published == [] ==> disk == old(disk)
      ensures !ok ==> Interrupted()
      ensures ok ==> Decided() && GoodSource(evidence) && (AllPassed(evidence.steps) ==> evidence.status.Pass?)
      ensures ok ==> Startable(w) && w.acquire == Some(evidence.source)
                     && writes == 2 + 2 * |evidence.steps| && Writable(w, writes)
                     && Logged(published, evidence.steps) && Locks(w, evidence.lockfiles)
      ensures ok && evidence.status.Pass? ==> AllClean(w) && evidence.failureReason.None?
      ensures ok && !evidence.status.Pass? ==>
                Judges(w, evidence.steps, evidence.status) && evidence.failureReason == Reason(evidence.steps)
      ensures CleanWorld(w) ==> ok && evidence.status.Pass?
      ensures forall n: nat :: StopsAt(w, n) ==> ok && !evidence.status.Pass? && |evidence.steps| == n + 1
      ensures StepsTell(w, evidence.steps)
      ensures !ok && evidence.active.Some? ==> NotRun(w, |evidence.steps|)
    {
      hide FixedSteps, Valid, SafeRecord, ValidStep, RecordOf, SameMembers, ExpectedClaims, CommandPasses, Trail,
        OpenTrail, FirstUnclean, Signalled, Startable, AllClean, NotRun, Logged, Reason, Locks;
      ok := Prepare();
      if !ok {
        return;
      }
      var execution := ExecuteSteps();
      OpenTrailIsTrail(published, evidence.steps);
      if execution.Threw? {
        return false;
      }
      evidence := evidence.(steps := execution.steps);
      evidence := evidence.(active := None);
      evidence := evidence.(status := if execution.failure.Some? then execution.failure.value.status else Pass);
      evidence := evidence.(failureReason := if execution.failure.Some? then Some(execution.failure.value.reason)
                            else None);
      if execution.failure.None? {
        evidence := evidence.(provenClaims := ExpectedClaims(w.mode));
      }
      return true;
    }

    /** The handler of an exception: an announced step becomes a failed one, and the verdict is "fail". */
    method RecordThrown()
      requires w.Sane() && Interrupted()
      modifies this`evidence
      ensures Decided() && evidence.status.Fail?
      ensures old(evidence.active).None? ==> evidence.steps == old(evidence.steps)
      ensures old(evidence.active).Some? ==>
                && |evidence.steps| == |old(evidence.steps)| + 1 && old(evidence.steps) <= evidence.steps
                && var s := evidence.steps[|evidence.steps| - 1];
                   && s.name == old(evidence.active).value.name && s.status.Fail? && s.exitCode.None? && s.signal.None?
    {
      hide FixedSteps, ValidStep;
      if evidence.active.Some? {
        var failed := StepRecord(evidence.active.value.name, None, None, Fail,
                                 Some(FailureDiagnostic(w, "thrown", "", "")));
        FailedStepIsValid(w, failed);
        evidence := evidence.(steps := evidence.steps + [failed]);
        evidence := evidence.(active := None);
      }
      evidence := evidence.(status := Fail);
      evidence := evidence.(failureReason := Some("error"));
    }

    /** The last publication, whatever the verdict. */
    method PublishVerdict(ghost attempted: seq<StepRecord>) returns (written: bool)
      requires w.Sane() && Decided() && Consistent() && OpenTrail(published, attempted) && attempted <= evidence.steps
      modifies this`evidence, this`ticks, this`disk, this`published, this`writes
      ensures Consistent() && evidence.status == old(evidence.status)
      ensures written ==> disk == Some(evidence) && published == old(published) + [evidence]
      ensures !written ==> disk == old(disk) && published == old(published)
      ensures evidence.status.Pass? ==>
                written == (w.mode in MODES && 1 <= w.jobs <= 8 && old(evidence.source).Some?
                            && w.writable(old(writes)))
      ensures !evidence.status.Pass? ==>
                written == (w.mode in MODES && 1 <= w.jobs <= 8 && old(GoodSource(evidence)) && w.writable(old(writes)))
      ensures evidence.steps == old(evidence.steps) && evidence.failureReason == old(evidence.failureReason)
      ensures evidence.source == old(evidence.source) && evidence.lockfiles == old(evidence.lockfiles)
    {
      hide FixedSteps, Valid, SafeRecord, ValidStep, RecordOf, SameMembers, ExpectedClaims, CommandPasses, Trail,
        OpenTrail;
      Stamp();
      if evidence.status.Pass? {
        PassedIsSafe(evidence, w);
      } else {
        FailedIsSafe(evidence, w);
      }
      RaiseTrail(published, attempted, evidence.steps);
      if SafeRecord(evidence) {
        ExtendTrail(published, evidence);
      }
      written := WriteEvidenceAtomic();
    }

    /** The whole run. `exit` is missing when the last publication throws, or the clean-up after it. The record it
        leaves says "pass" exactly of a clean world, "inconclusive" exactly if the first unclean command was signalled,
        and "fail" of any other command and of every exception. */
    method RunVerification() returns (exit: Option<int>, ghost written: bool)
      requires w.Sane() && Fresh()
      modifies this
      ensures Consistent()
      ensures published == [] ==> disk == old(disk)
      ensures CleanWorld(w) <==> disk.Some? && published != [] && disk.value.status.Pass?
      ensures exit == Some(0) <==> CleanWorld(w) && w.cleaned
      ensures exit.Some? <==> written && w.cleaned
      ensures written ==> disk == Some(evidence) && published != []
      ensures written ==> (disk.value.status.Inconclusive? <==> exists n: nat :: StopsSignalled(w, n))
      ensures written ==> StepsTell(w, disk.value.steps) || (disk.value.status.Fail? && LastThrew(w, disk.value.steps))
      ensures forall n: nat :: StopsAt(w, n) ==>
                && (w.writable(4 + 2 * n) ==> written)
                && (written ==> |disk.value.steps| == n + 1 && StepsTell(w, disk.value.steps)
                                && !disk.value.status.Pass? && disk.value.failureReason == Reason(disk.value.steps))
      ensures written && (CleanWorld(w) || exists n: nat :: StopsAt(w, n)) ==>
                Logged(published[..|published| - 1], disk.value.steps)
      ensures CleanWorld(w) ==> disk.value.failureReason.None? && Some(disk.value.source) == w.acquire
                                && Locks(w, disk.value.lockfiles)
    {
      hide FixedSteps, Valid, SafeRecord, ValidStep, RecordOf, SameMembers, ExpectedClaims, CommandPasses, Trail,
        OpenTrail, FirstUnclean, AllClean, NotRun, StepTold, StepsInOrder, Logged, Reason, Locks, Locked;
      var ok := Attempt();
      ghost var attempted := evidence.steps;
      OpenTrailIsTrail(published, attempted);
      if !ok {
        RecordThrown();
      }
      ghost var before := writes;
      var replaced := PublishVerdict(attempted);
      assert replaced && ok ==> Writable(w, before + 1);
      assert CleanWorld(w) <==> replaced && evidence.status.Pass?;
      assert evidence.status.Inconclusive? ==> StopsSignalled(w, |evidence.steps| - 1);
      written := replaced;
      if !replaced || !w.cleaned {
        return None, written;
      }
      return Some(if evidence.status.Pass? then 0 else 1), written;
    }
  }

  lemma MembersOfSelf(s: seq<string>)
    ensures SameMembers(s, s)
  {
  }

  lemma ClaimsAreProven(mode: string)
    ensures forall c <- ExpectedClaims(mode) :: c in PROVEN_CLAIMS
    ensures SameMembers(ExpectedClaims(mode), ExpectedClaims(mode))
  {
  }

  lemma NamesOfCompleteRun(steps: seq<StepRecord>)
    requires StepsInOrder(steps) && |steps| == |FixedSteps()|
    ensures SameMembers(Labels(steps), FixedSteps())
  {
    assert Labels(steps) == FixedSteps();
  }
}
