/**
 The schema of source-evidence records (tools/dev/source_evidence_schema.js). Records are typed, so the checks that an
 object has exactly the expected keys are left to the types, except for the source identity, which an injected
 acquisition function may return in any shape.
 */
module EvidenceSchema {
  import opened Wrappers

  const MODES: set<string> := {"worktree_snapshot", "committed_archive"}
  const PACKAGE_ROOTS := [".", "backend/api", "backend/execution", "backend/mcp_server", "frontend/dashboard"]
  const PROVEN_CLAIMS: set<string> := {"worktree_snapshot_source_evidence", "committed_archive_source_evidence",
                                       "five_root_lockfile_install", "declared_build_and_test_steps"}
  const EXCLUDED_CLAIMS := ["authenticated_ci_result", "deployed_host_health", "provider_connectivity",
                            "backup_restore",
                            "restart_rollback", "single_writer", "recovery", "soak", "live_execution"]
  const SOURCE_KEYS: set<string> := {"commit", "tree", "dirty", "file_count", "source_list_sha256", "content_sha256"}

  datatype Status = Pass | Fail | Inconclusive
  datatype Diagnostic = Diagnostic(failureClass: string, summary: string, stdoutSha256: string, stderrSha256: string)
  datatype StepRecord = StepRecord(name: string, exitCode: Option<int>, signal: Option<string>, status: Status,
                                   diagnostic: Option<Diagnostic>)
  datatype ActiveStep = ActiveStep(name: string, state: string, failureClass: string)
  datatype Source = Source(keys: set<string>)
  datatype Lockfile = Lockfile(path: string, sha256: string)

  datatype Evidence = Evidence(
    schemaVersion: int,
    evidenceId: string,
    status: Status,
    mode: string,
    startedAt: string,
    endedAt: string,
    source: Option<Source>,
    lockfiles: seq<Lockfile>,
    jobLimit: int,
    active: Option<ActiveStep>,
    steps: seq<StepRecord>,
    provenClaims: seq<string>,
    excludedClaims: seq<string>,
    failureReason: Option<string>)

  // ---- comparing lists up to order ----

  /** The order strings are sorted in: by code unit, a prefix first. */
  predicate AtMost(a: string, b: string) {
    a == [] || (b != [] && (a[0] < b[0] || (a[0] == b[0] && AtMost(a[1..], b[1..]))))
  }

  function Sorted(s: seq<string>): seq<string> {
    if s == [] then [] else Insert(s[0], Sorted(s[1..]))
  }

  function Insert(x: string, s: seq<string>): seq<string> {
    if s == [] || AtMost(x, s[0]) then [x] + s else [s[0]] + Insert(x, s[1..])
  }

  predicate SameMembers(actual: seq<string>, expected: seq<string>) {
    |actual| == |expected| && Sorted(actual) == Sorted(expected)
  }

  ghost predicate Ascending(s: seq<string>) {
    forall i, j :: 0 <= i < j < |s| ==> AtMost(s[i], s[j])
  }

  lemma {:induction false} AtMostIsTotalOrder(a: string, b: string, c: string)
    ensures AtMost(a, a)
    ensures AtMost(a, b) || AtMost(b, a)
    ensures AtMost(a, b) && AtMost(b, a) ==> a == b
    ensures AtMost(a, b) && AtMost(b, c) ==> AtMost(a, c)
  {
    if a != [] {
      AtMostIsTotalOrder(a[1..], if b == [] then [] else b[1..], if c == [] then [] else c[1..]);
      assert a == [a[0]] + a[1..];
      assert b != [] ==> b == [b[0]] + b[1..];
    }
  }

  lemma {:induction false} SortedSorts(s: seq<string>)
    ensures Ascending(Sorted(s)) && multiset(Sorted(s)) == multiset(s) && |Sorted(s)| == |s|
  {
    if s != [] {
      SortedSorts(s[1..]);
      InsertSorts(s[0], Sorted(s[1..]));
      assert s == [s[0]] + s[1..];
    }
  }

  lemma {:induction false} InsertSorts(x: string, s: seq<string>)
    requires Ascending(s)
    ensures Ascending(Insert(x, s))
    ensures multiset(Insert(x, s)) == multiset{x} + multiset(s) && |Insert(x, s)| == |s| + 1
    ensures forall y <- Insert(x, s) :: y == x || y in s
  {
    if s == [] {
    } else if AtMost(x, s[0]) {
      forall y | y in s ensures AtMost(x, y) {
        AtMostIsTotalOrder(x, s[0], y);
        assert y == s[0] || exists i :: 0 < i < |s| && s[i] == y;
      }
      PrependAscends(x, s);
    } else {
      InsertSorts(x, s[1..]);
      assert s == [s[0]] + s[1..];
      AtMostIsTotalOrder(x, s[0], x);
      PrependAscends(s[0], Insert(x, s[1..]));
    }
  }

  lemma PrependAscends(x: string, s: seq<string>)
    requires Ascending(s) && forall y <- s :: AtMost(x, y)
    ensures Ascending([x] + s)
  {
  }

  lemma {:induction false} AscendingIsUnique(a: seq<string>, b: seq<string>)
    requires Ascending(a) && Ascending(b) && multiset(a) == multiset(b)
    ensures a == b
  {
    hide AtMost;
    if a == [] {
      assert |multiset(b)| == |b|;
    } else {
      assert a[0] in multiset(b);
      HeadIsLeast(a, b);
      HeadIsLeast(b, a);
      AtMostIsTotalOrder(a[0], b[0], a[0]);
      SameTails(a, b);
      AscendingIsUnique(a[1..], b[1..]);
    }
  }

  lemma HeadIsLeast(a: seq<string>, b: seq<string>)
    requires Ascending(a) && a != [] && b != [] && multiset(a) == multiset(b)
    ensures AtMost(a[0], b[0])
  {
    assert b[0] in multiset(a);
    var i :| 0 <= i < |a| && a[i] == b[0];
    AtMostIsTotalOrder(a[0], a[0], a[0]);
  }

  lemma SameTails(a: seq<string>, b: seq<string>)
    requires a != [] && b != [] && a[0] == b[0] && multiset(a) == multiset(b)
    ensures multiset(a[1..]) == multiset(b[1..])
  {
    assert a == [a[0]] + a[1..] && b == [b[0]] + b[1..];
    assert multiset(a[1..]) == multiset(a) - multiset{a[0]};
    assert multiset(b[1..]) == multiset(b) - multiset{b[0]};
  }

  /** Comparing sorted copies is comparing the lists as multisets: order never matters, repetition does. */
  lemma SameMembersExactly(actual: seq<string>, expected: seq<string>)
    ensures SameMembers(actual, expected) <==> multiset(actual) == multiset(expected)
  {
    SortedSorts(actual);
    SortedSorts(expected);
    if multiset(actual) == multiset(expected) {
      AscendingIsUnique(Sorted(actual), Sorted(expected));
      assert |multiset(actual)| == |actual| && |multiset(expected)| == |expected|;
    }
  }

  // ---- validation ----

  predicate IsSha256(s: string) {
    |s| == 64 && forall c <- s :: '0' <= c <= '9' || 'a' <= c <= 'f'
  }

  predicate ValidStep(s: StepRecord) {
    && (s.diagnostic.Some? ==> IsSha256(s.diagnostic.value.stdoutSha256) && IsSha256(s.diagnostic.value.stderrSha256))
    && (s.status.Pass? ==> s.diagnostic.None?)
    && (!s.status.Pass? ==> s.diagnostic.Some?)
  }

  function Labels(steps: seq<StepRecord>): seq<string> {
    seq(|steps|, i requires 0 <= i < |steps| => steps[i].name)
  }

  function ExpectedClaims(mode: string): seq<string> {
    [if mode == "committed_archive" then "committed_archive_source_evidence" else "worktree_snapshot_source_evidence",
     "five_root_lockfile_install", "declared_build_and_test_steps"]
  }

  /** The claim about the source is the one of the run's own mode. */
  lemma ClaimsNameTheMode(mode: string)
    ensures "committed_archive_source_evidence" in ExpectedClaims(mode) <==> mode == "committed_archive"
    ensures "worktree_snapshot_source_evidence" in ExpectedClaims(mode) <==> mode != "committed_archive"
    ensures |ExpectedClaims(mode)| == 3
  {
    assert "committed_archive_source_evidence"[0] == 'c' && "worktree_snapshot_source_evidence"[0] == 'w';
    assert "five_root_lockfile_install"[0] == 'f' && "declared_build_and_test_steps"[0] == 'd';
  }

  predicate PassedStep(s: StepRecord) {
    s.status.Pass? && s.exitCode == Some(0)
  }

  /** validateEvidence accepts the record. */
  predicate Valid(e: Evidence, expectedLabels: seq<string>) {
    && e.schemaVersion == 2
    && e.mode in MODES
    && e.evidenceId != "" && e.startedAt != "" && e.endedAt != ""
    && (e.status.Pass? ==> e.source.Some?)
    && (forall c <- e.provenClaims :: c in PROVEN_CLAIMS)
    && SameMembers(e.excludedClaims, EXCLUDED_CLAIMS)
    && (e.source.Some? ==> e.source.value.keys == SOURCE_KEYS)
    && (e.active.Some? ==>
          e.active.value.state == "running" && e.active.value.failureClass == "unfinished_step"
            && e.status.Inconclusive?)
    && 1 <= e.jobLimit <= 8
    && (forall s <- e.steps :: ValidStep(s))
    && (e.status.Pass? ==>
          && e.active.None?
          && |e.lockfiles| == |PACKAGE_ROOTS|
          && SameMembers(Labels(e.steps), expectedLabels)
          && (forall s <- e.steps :: PassedStep(s))
          && SameMembers(e.provenClaims, ExpectedClaims(e.mode)))
  }

  /** A valid pass has every expected step once and all five lockfiles, claims exactly what its mode proves, and
      excludes exactly what no run proves. */
  lemma PassSays(e: Evidence, expected: seq<string>)
    requires e.status.Pass? && Valid(e, expected)
    ensures multiset(Labels(e.steps)) == multiset(expected) && |e.lockfiles| == 5
    ensures multiset(e.provenClaims) == multiset(ExpectedClaims(e.mode))
    ensures multiset(e.excludedClaims) == multiset(EXCLUDED_CLAIMS)
  {
    hide Sorted, IsSha256, SameMembers, ValidStep, AtMost, ExpectedClaims, PassedStep, Labels;
    SameMembersExactly(Labels(e.steps), expected);
    SameMembersExactly(e.provenClaims, ExpectedClaims(e.mode));
    SameMembersExactly(e.excludedClaims, EXCLUDED_CLAIMS);
  }
}
