/**
 The backup service's loop (backend/scripts/ops/host_backup.js), as turns of its two loops. What the host does is one
 `World` value: how long things take, when the abort signal comes, what each call answers at each turn. A run of `n`
 turns is what can be seen of the service up to some moment, so a statement about every `n` is about every finite
 prefix.
 */
module BackupLoop {
  import opened Wrappers

  datatype Backup = Backup(ok: bool, backupOk: bool, errorCode: string)
  datatype Answer = Returned(backup: Backup) | Thrown(code: string)

  /** The service heartbeat as read back: missing or unreadable, or readable with perhaps a next run time. */
  datatype LastBeat = Unusable | Usable(nextRunAt: Option<int>)

  /** The backups found, by their times of creation, or the code of the error met. */
  datatype Listing = Listed(times: seq<int>) | Unreadable(code: string)

  datatype Options = Options(watch: bool, intervalMs: int, maxCycles: int, checkStartupDisk: bool)

  datatype World = World(
    start: int,
    abortAt: Option<int>,
    disk: Option<string>,
    pause: nat -> nat,
    late: nat -> nat,
    heartbeat: nat -> LastBeat,
    listing: nat -> Listing,
    answer: nat -> Answer,
    took: nat -> nat)

  datatype Health = Running | Healthy | Degraded | Stopped
  datatype Beat = Beat(health: Health, attempted: bool, success: bool, errorCode: string, nextRunAt: Option<int>)
  datatype Event = Attempted(at: int, done: int, backup: Backup) | Published(at: int, beat: Beat)

  datatype Phase = Scheduling | Attempting | Done(exitCode: Option<int>)
  datatype State = State(clock: int, cycles: nat, result: Option<Backup>, trace: seq<Event>, phase: Phase)

  // ---- timers ----

  const TIMER_MAX := 2147483647

  /** What `setTimeout` makes of a delay in whole milliseconds: beyond the range it is one millisecond. */
  function TimerDelay(ms: int): (d: int)
    ensures d >= 1
  {
    if 1 <= ms <= TIMER_MAX then ms else 1
  }

  predicate Aborted(w: World, now: int) {
    w.abortAt.Some? && w.abortAt.value <= now
  }

  datatype Waited = Waited(completed: bool, at: int)

  function Wait(w: World, now: int, ms: int, k: nat): (r: Waited)
    ensures r.at >= now
    ensures r.completed ==> r.at >= now + TimerDelay(ms) && !Aborted(w, r.at)
    ensures !r.completed <==> Aborted(w, r.at)
  {
    var fire := now + TimerDelay(ms) + w.late(k);
    if Aborted(w, now) then Waited(false, now)
    else if Aborted(w, fire) then Waited(false, w.abortAt.value)
    else Waited(true, fire)
  }

  // ---- when the first backup is due ----

  function Newest(backups: seq<int>): (m: Option<int>)
    ensures m.None? <==> backups == []
    ensures m.Some? ==> m.value in backups && forall i :: 0 <= i < |backups| ==> backups[i] <= m.value
  {
    if backups == [] then None
    else
      var rest := Newest(backups[1..]);
      if rest.Some? && rest.value > backups[0] then rest else Some(backups[0])
  }

  /** An announced run still to come; else one interval after the newest backup, if still to come; else now. */
  function ResolveInitialBackupDueAt(now: int, intervalMs: int, beat: LastBeat, completedAt: Option<int>): (due: int)
    ensures due >= now
  {
    if beat.Usable? && beat.nextRunAt.Some? && beat.nextRunAt.value > now then beat.nextRunAt.value
    else if completedAt.Some? && completedAt.value + intervalMs > now then completedAt.value + intervalMs
    else now
  }

  // ---- one turn ----

  function RunBackupAttempt(a: Answer): Backup {
    match a
    case Returned(b) => b
    case Thrown(code) => Backup(false, false, if code == "" then "backup_failed" else code)
  }

  /** None when a one-shot run was aborted before its attempt: reading the missing result throws. */
  function ExitCode(o: Options, result: Option<Backup>): Option<int> {
    if o.watch then Some(0)
    else match result
      case None => None
      case Some(b) => Some(if b.ok then 0 else if b.backupOk then 3 else 1)
  }

  function BeatAfter(o: Options, b: Backup, done: int): Beat {
    Beat(if b.ok then Healthy else Degraded, true, b.backupOk,
         if b.ok then "" else if b.backupOk then "backup_retention_failed"
           else if b.errorCode == "" then "backup_failed" else b.errorCode,
         Some(done + o.intervalMs))
  }

  const STOPPED := Beat(Stopped, false, false, "", None)

  function Publish(s: State, beat: Beat): State {
    s.(trace := s.trace + [Published(s.clock, beat)])
  }

  function Stop(o: Options, s: State): State {
    Publish(s, STOPPED).(phase := Done(ExitCode(o, s.result)))
  }

  /** Waits and goes on to `phase`, or stops. */
  function WaitThen(o: Options, w: World, s: State, ms: int, k: nat, phase: Phase): State {
    var r := Wait(w, s.clock, ms, k);
    if r.completed then s.(clock := r.at, phase := phase) else Stop(o, s.(clock := r.at))
  }

  function DelayUntil(o: Options, w: World, s: State, due: int, k: nat): State {
    var t := s.(clock := s.clock + w.pause(k));
    if due > t.clock then
      WaitThen(o, w, Publish(t, Beat(Running, false, false, "", Some(due))), due - t.clock, k, Attempting)
    else t.(phase := Attempting)
  }

  function DueWithoutListing(o: Options, w: World, s: State, k: nat): int {
    ResolveInitialBackupDueAt(s.clock, o.intervalMs, w.heartbeat(k), None)
  }

  function ScheduleTurn(o: Options, w: World, s: State, k: nat): State {
    var due := DueWithoutListing(o, w, s, k);
    if due > s.clock then DelayUntil(o, w, s, due, k)
    else match w.listing(k)
      case Listed(backups) =>
        DelayUntil(o, w, s, ResolveInitialBackupDueAt(s.clock, o.intervalMs, w.heartbeat(k), Newest(backups)), k)
      case Unreadable(code) =>
        var told := Publish(s, Beat(Degraded, false, false, code, Some(s.clock + o.intervalMs)));
        WaitThen(o, w, told, o.intervalMs, k, Scheduling)
  }

  function Attempt(o: Options, w: World, s: State, k: nat): State {
    var b := RunBackupAttempt(w.answer(k));
    var done := s.clock + w.took(k);
    s.(clock := done, cycles := s.cycles + 1, result := Some(b),
       trace := s.trace + [Attempted(s.clock, done, b), Published(done, BeatAfter(o, b, done))])
  }

  predicate LastCycle(o: Options, cycles: nat) {
    !o.watch || (o.maxCycles > 0 && cycles >= o.maxCycles)
  }

  function AttemptTurn(o: Options, w: World, s: State, k: nat): State {
    if Aborted(w, s.clock) then Stop(o, s)
    else
      var t := Attempt(o, w, s, k);
      if LastCycle(o, t.cycles) then t.(phase := Done(ExitCode(o, t.result)))
      else WaitThen(o, w, t, o.intervalMs, k, Attempting)
  }

  function Turn(o: Options, w: World, s: State, k: nat): State {
    match s.phase
    case Scheduling => ScheduleTurn(o, w, s, k)
    case Attempting => AttemptTurn(o, w, s, k)
    case Done(_) => s
  }

  function Begin(o: Options, w: World): State {
    if o.checkStartupDisk && w.disk.Some? then
      State(w.start, 0, Some(Backup(false, false, w.disk.value)),
            [Published(w.start, Beat(Degraded, false, false, w.disk.value, None))], Done(Some(1)))
    else State(w.start, 0, None, [], if o.watch then Scheduling else Attempting)
  }

  function Run(o: Options, w: World, n: nat): State {
    if n == 0 then Begin(o, w) else Turn(o, w, Run(o, w, n - 1), n - 1)
  }

  // ---- what holds of every trace ----

  /** Each attempt has its own heartbeat right after it, and no other heartbeat speaks of an attempt. */
  ghost predicate Reported(o: Options, trace: seq<Event>) {
    && (forall i :: 0 <= i < |trace| && trace[i].Attempted? ==>
          i + 1 < |trace| && trace[i + 1] == Published(trace[i].done, BeatAfter(o, trace[i].backup, trace[i].done)))
    && (forall i :: 0 <= i < |trace| && trace[i].Published? && trace[i].beat.attempted ==>
        i > 0 && trace[i - 1].Attempted?)
  }

  /** Each attempt begins at least the timer's delay after every earlier one ended. */
  ghost predicate Spaced(o: Options, trace: seq<Event>) {
    forall i, j :: 0 <= i < j < |trace| && trace[i].Attempted? && trace[j].Attempted? ==>
      trace[j].at >= trace[i].done + TimerDelay(o.intervalMs)
  }

  /** Whoever attempts next begins late enough after every attempt so far. */
  ghost predicate Rested(o: Options, trace: seq<Event>, clock: int) {
    forall i :: 0 <= i < |trace| && trace[i].Attempted? ==> clock >= trace[i].done + TimerDelay(o.intervalMs)
  }

  /** No attempt begins before `from`, nor once the abort signal is given. */
  ghost predicate Within(w: World, from: int, trace: seq<Event>) {
    forall i :: 0 <= i < |trace| && trace[i].Attempted? ==> trace[i].at >= from && !Aborted(w, trace[i].at)
  }

  ghost predicate NotStopped(trace: seq<Event>) {
    forall i :: 0 <= i < |trace| && trace[i].Published? ==> trace[i].beat.health != Stopped
  }

  function Attempts(trace: seq<Event>): nat {
    if trace == [] then 0
    else Attempts(trace[..|trace| - 1]) + if trace[|trace| - 1].Attempted? then 1 else 0
  }

  ghost predicate Inv(o: Options, w: World, from: int, s: State) {
    && Reported(o, s.trace) && Spaced(o, s.trace) && Within(w, from, s.trace)
    && s.cycles == Attempts(s.trace)
    && (s.phase.Attempting? ==> Rested(o, s.trace, s.clock) && s.clock >= from)
    && (!o.watch ==> s.cycles <= 1) && (o.maxCycles > 0 ==> s.cycles <= o.maxCycles)
    && (!s.phase.Done? ==> NotStopped(s.trace) && !LastReached(o, s.cycles))
    && (s.phase.Scheduling? ==> s.cycles == 0)
    && (s.phase.Done? ==> Ended(o, w, s))
  }

  predicate LastReached(o: Options, cycles: nat) {
    cycles > 0 && LastCycle(o, cycles)
  }

  /** An ended run was stopped by the signal, with one closing heartbeat that says so, or did all its cycles, or never
      began. */
  ghost predicate Ended(o: Options, w: World, s: State) {
    || (StoppedByAbort(w, s) && !LastReached(o, s.cycles))
    || (NotStopped(s.trace) && LastReached(o, s.cycles))
    || (NotStopped(s.trace) && s.cycles == 0 && o.checkStartupDisk && w.disk.Some? && s == Begin(o, w))
  }

  ghost predicate StoppedByAbort(w: World, s: State) {
    && s.trace != []
    && s.trace[|s.trace| - 1] == Published(s.clock, STOPPED)
    && NotStopped(s.trace[..|s.trace| - 1])
    && Aborted(w, s.clock)
  }

  lemma AttemptsOfBeat(trace: seq<Event>, at: int, beat: Beat)
    ensures Attempts(trace + [Published(at, beat)]) == Attempts(trace)
  {
    assert (trace + [Published(at, beat)])[..|trace|] == trace;
  }

  lemma AttemptsOfAttempt(o: Options, trace: seq<Event>, at: int, done: int, b: Backup, beat: Beat)
    ensures Attempts(trace + [Attempted(at, done, b), Published(done, beat)]) == Attempts(trace) + 1
  {
    var one := trace + [Attempted(at, done, b)];
    assert one[..|trace|] == trace;
    assert trace + [Attempted(at, done, b), Published(done, beat)] == one + [Published(done, beat)];
    AttemptsOfBeat(one, done, beat);
  }

  /** A heartbeat that is not about an attempt keeps everything. */
  lemma PublishKeeps(o: Options, w: World, from: int, trace: seq<Event>, at: int, beat: Beat)
    requires Reported(o, trace) && Spaced(o, trace) && Within(w, from, trace) && !beat.attempted
    ensures var t := trace + [Published(at, beat)];
            Reported(o, t) && Spaced(o, t) && Within(w, from, t) && Attempts(t) == Attempts(trace)
    ensures forall c :: Rested(o, trace, c) ==> Rested(o, trace + [Published(at, beat)], c)
    ensures NotStopped(trace) && beat.health != Stopped ==> NotStopped(trace + [Published(at, beat)])
  {
    hide BeatAfter;
    AttemptsOfBeat(trace, at, beat);
  }

  lemma AttemptReported(o: Options, trace: seq<Event>, at: int, done: int, b: Backup)
    requires Reported(o, trace)
    ensures Reported(o, trace + [Attempted(at, done, b), Published(done, BeatAfter(o, b, done))])
  {
    hide BeatAfter;
    var t := trace + [Attempted(at, done, b), Published(done, BeatAfter(o, b, done))];
    assert t[|trace|] == Attempted(at, done, b);
    assert forall i :: 0 <= i < |trace| ==> t[i] == trace[i];
  }

  lemma AttemptSpaced(o: Options, w: World, from: int, trace: seq<Event>, at: int, done: int, b: Backup)
    requires Spaced(o, trace) && Within(w, from, trace) && Rested(o, trace, at)
    requires at >= from && !Aborted(w, at) && done >= at
    ensures var t := trace + [Attempted(at, done, b), Published(done, BeatAfter(o, b, done))];
            && Spaced(o, t) && Within(w, from, t)
            && forall c :: c >= done + TimerDelay(o.intervalMs) ==> Rested(o, t, c)
    ensures NotStopped(trace) ==> NotStopped(trace + [Attempted(at, done, b), Published(done, BeatAfter(o, b, done))])
  {
    hide TimerDelay, Aborted;
    assert BeatAfter(o, b, done).health != Stopped;
  }

  lemma StopEnds(o: Options, w: World, from: int, s: State)
    requires Reported(o, s.trace) && Spaced(o, s.trace) && Within(w, from, s.trace) && s.cycles == Attempts(s.trace)
    requires NotStopped(s.trace) && Aborted(w, s.clock) && !LastReached(o, s.cycles)
    requires (!o.watch ==> s.cycles <= 1) && (o.maxCycles > 0 ==> s.cycles <= o.maxCycles)
    ensures Inv(o, w, from, Stop(o, s))
  {
    hide Reported, Spaced, Within, NotStopped, Attempts, Aborted, LastReached;
    PublishKeeps(o, w, from, s.trace, s.clock, STOPPED);
    assert Stop(o, s).trace[..|s.trace|] == s.trace;
  }

  lemma AttemptTurnKeeps(o: Options, w: World, from: int, s: State, k: nat)
    requires Inv(o, w, from, s) && s.phase.Attempting?
    ensures Inv(o, w, from, AttemptTurn(o, w, s, k))
  {
    hide Reported, Spaced, Within, NotStopped, Attempts, Aborted, Rested, Stop, BeatAfter, RunBackupAttempt,
      TimerDelay, Wait;
    if Aborted(w, s.clock) {
      StopEnds(o, w, from, s);
    } else {
      var t := Attempt(o, w, s, k);
      AttemptReported(o, s.trace, s.clock, t.clock, t.result.value);
      AttemptSpaced(o, w, from, s.trace, s.clock, t.clock, t.result.value);
      AttemptsOfAttempt(o, s.trace, s.clock, t.clock, t.result.value, BeatAfter(o, t.result.value, t.clock));
      if !LastCycle(o, t.cycles) {
        var r := Wait(w, t.clock, o.intervalMs, k);
        if !r.completed {
          StopEnds(o, w, from, t.(clock := r.at));
        }
      }
    }
  }

  /** The moment a schedule turn settles on. */
  function SettledDue(o: Options, w: World, s: State, k: nat): Option<int> {
    var due := DueWithoutListing(o, w, s, k);
    if due > s.clock then Some(due)
    else match w.listing(k)
      case Listed(backups) => Some(ResolveInitialBackupDueAt(s.clock, o.intervalMs, w.heartbeat(k), Newest(backups)))
      case Unreadable(_) => None
  }

  /** The earliest moment a wait from `clock` for `due` can end: `due` itself, if a timer can span the delay. */
  function Earliest(clock: int, due: int): int {
    if due > clock then clock + TimerDelay(due - clock) else clock
  }

  lemma DelayKeeps(o: Options, w: World, from: int, s: State, due: int, k: nat)
    requires Inv(o, w, from, s) && s.phase.Scheduling? && from <= Earliest(s.clock, due)
    ensures Inv(o, w, from, DelayUntil(o, w, s, due, k))
  {
    hide Reported, Spaced, Within, NotStopped, Attempts, Aborted, Stop, LastReached, Wait;
    var at := s.clock + w.pause(k);
    NoAttempts(o, s.trace);
    if due > at {
      var beat := Beat(Running, false, false, "", Some(due));
      PublishKeeps(o, w, from, s.trace, at, beat);
      NoAttempts(o, s.trace + [Published(at, beat)]);
      var r := Wait(w, at, due - at, k);
      if !r.completed {
        StopEnds(o, w, from, Publish(s.(clock := at), beat).(clock := r.at));
      }
    }
  }

  lemma {:induction false} NoAttempts(o: Options, trace: seq<Event>)
    requires Attempts(trace) == 0
    ensures forall c :: Rested(o, trace, c)
  {
    if trace != [] {
      NoAttempts(o, trace[..|trace| - 1]);
      forall c ensures Rested(o, trace, c) {
        assert Rested(o, trace[..|trace| - 1], c);
      }
    }
  }

  /** A schedule turn keeps the invariant for any `from` that it does not undercut. */
  lemma ScheduleTurnKeeps(o: Options, w: World, from: int, s: State, k: nat)
    requires Inv(o, w, from, s) && s.phase.Scheduling?
    requires SettledDue(o, w, s, k).Some? ==> from <= Earliest(s.clock, SettledDue(o, w, s, k).value)
    ensures Inv(o, w, from, ScheduleTurn(o, w, s, k))
  {
    hide Reported, Spaced, Within, NotStopped, Attempts, Aborted, Stop, LastReached, ResolveInitialBackupDueAt, Wait,
      Earliest;
    var settled := SettledDue(o, w, s, k);
    if settled.Some? {
      DelayKeeps(o, w, from, s, settled.value, k);
    } else {
      var beat := Beat(Degraded, false, false, w.listing(k).code, Some(s.clock + o.intervalMs));
      PublishKeeps(o, w, from, s.trace, s.clock, beat);
      var told := Publish(s, beat);
      var r := Wait(w, s.clock, o.intervalMs, k);
      if !r.completed {
        StopEnds(o, w, from, told.(clock := r.at));
      }
    }
  }

  // ---- over whole runs ----

  lemma TurnKeeps(o: Options, w: World, from: int, s: State, k: nat)
    requires Inv(o, w, from, s)
    requires s.phase.Scheduling? && SettledDue(o, w, s, k).Some? ==>
             from <= Earliest(s.clock, SettledDue(o, w, s, k).value)
    ensures Inv(o, w, from, Turn(o, w, s, k))
  {
    hide Inv, ScheduleTurn, AttemptTurn, SettledDue, Earliest;
    match s.phase
    case Scheduling => ScheduleTurnKeeps(o, w, from, s, k);
    case Attempting => AttemptTurnKeeps(o, w, from, s, k);
    case Done(_) =>
  }

  lemma BeginInv(o: Options, w: World, from: int)
    requires o.watch || from <= w.start
    ensures Inv(o, w, from, Begin(o, w))
  {
    if o.checkStartupDisk && w.disk.Some? {
      AttemptsOfBeat([], w.start, Begin(o, w).trace[0].beat);
      assert [] + Begin(o, w).trace == Begin(o, w).trace;
    }
  }

  lemma ClockAdvances(o: Options, w: World, s: State, k: nat)
    ensures Turn(o, w, s, k).clock >= s.clock
  {
    hide Wait, ResolveInitialBackupDueAt, BeatAfter, RunBackupAttempt, Aborted, Newest;
  }

  lemma {:induction false} ClockFrom(o: Options, w: World, m: nat, n: nat)
    requires m <= n
    ensures Run(o, w, n).clock >= Run(o, w, m).clock
  {
    hide Turn;
    if m < n {
      ClockFrom(o, w, m, n - 1);
      ClockAdvances(o, w, Run(o, w, n - 1), n - 1);
    }
  }

  /**
   At every moment of every run: each attempt is followed by its own healthy or degraded heartbeat, attempts are a
   timer's delay apart, none begins once the abort signal is given, and a run that ended was stopped (one closing
   "stopped" heartbeat, no attempt after it), did all its cycles, or was refused by the disk check.
   */
  lemma {:induction false} EveryRun(o: Options, w: World, n: nat)
    ensures Inv(o, w, w.start, Run(o, w, n))
  {
    hide Inv, Turn, SettledDue;
    if n == 0 {
      BeginInv(o, w, w.start);
    } else {
      EveryRun(o, w, n - 1);
      ClockFrom(o, w, 0, n - 1);
      assert Run(o, w, 0).clock == w.start;
      TurnKeeps(o, w, w.start, Run(o, w, n - 1), n - 1);
    }
  }

  lemma {:induction false} StillScheduling(o: Options, w: World, k: nat, n: nat)
    requires n <= k && Run(o, w, k).phase.Scheduling?
    ensures Run(o, w, n).phase.Scheduling?
    decreases k - n
  {
    hide ScheduleTurn, AttemptTurn;
    if n < k {
      StillScheduling(o, w, k, n + 1);
      AttemptTurnNeverSchedules(o, w, Run(o, w, n), n);
    }
  }

  lemma AttemptTurnNeverSchedules(o: Options, w: World, s: State, k: nat)
    ensures !AttemptTurn(o, w, s, k).phase.Scheduling?
  {
    hide Wait, BeatAfter, RunBackupAttempt, Aborted;
  }

  lemma {:induction false} AttemptsZero(trace: seq<Event>)
    ensures Attempts(trace) == 0 <==> forall i :: 0 <= i < |trace| ==> !trace[i].Attempted?
  {
    if trace != [] {
      AttemptsZero(trace[..|trace| - 1]);
      assert forall i :: 0 <= i < |trace| - 1 ==> trace[..|trace| - 1][i] == trace[i];
    }
  }

  lemma NothingYet(o: Options, w: World, from: int, n: nat)
    requires Run(o, w, n).phase.Scheduling?
    ensures Inv(o, w, from, Run(o, w, n))
  {
    hide Run, Attempts, Reported, Spaced, NotStopped, Ended, LastReached;
    EveryRun(o, w, n);
    AttemptsZero(Run(o, w, n).trace);
  }

  /** Once a schedule turn has settled on a due time that the timer can reach, no attempt of the run begins before
      it. */
  lemma {:induction false} FirstAttemptNotBeforeDue(o: Options, w: World, k: nat, due: int, n: nat)
    requires Run(o, w, k).phase.Scheduling? && SettledDue(o, w, Run(o, w, k), k) == Some(due)
    requires due - Run(o, w, k).clock <= TIMER_MAX
    ensures Inv(o, w, due, Run(o, w, n))
  {
    hide Inv, Turn, ResolveInitialBackupDueAt, Newest;
    if n <= k {
      StillScheduling(o, w, k, n);
      NothingYet(o, w, due, n);
    } else {
      FirstAttemptNotBeforeDue(o, w, k, due, n - 1);
      if n - 1 > k {
        SettledOnce(o, w, k, due, n - 1);
      }
      TurnKeeps(o, w, due, Run(o, w, n - 1), n - 1);
    }
  }

  lemma {:induction false} SettledOnce(o: Options, w: World, k: nat, due: int, n: nat)
    requires Run(o, w, k).phase.Scheduling? && SettledDue(o, w, Run(o, w, k), k) == Some(due) && n > k
    ensures !Run(o, w, n).phase.Scheduling?
  {
    if Run(o, w, n).phase.Scheduling? {
      StillScheduling(o, w, n, k + 1);
      SettlingEndsScheduling(o, w, Run(o, w, k), k);
      assert false;
    }
  }

  lemma SettlingEndsScheduling(o: Options, w: World, s: State, k: nat)
    requires s.phase.Scheduling? && SettledDue(o, w, s, k).Some?
    ensures !ScheduleTurn(o, w, s, k).phase.Scheduling?
  {
    hide Wait, ResolveInitialBackupDueAt, Newest;
  }

  /** With timers that fire on time, the first attempt waits for its due time exactly when the timer's range spans the
      delay. */
  lemma DueReachedExactly(o: Options, w: World, s: State, due: int, k: nat)
    requires s.phase.Scheduling? && w.abortAt.None? && w.late(k) == 0 && w.pause(k) == 0 && due > s.clock
    ensures DelayUntil(o, w, s, due, k).phase.Attempting?
    ensures DelayUntil(o, w, s, due, k).clock >= due <==> due - s.clock <= TIMER_MAX
  {
  }

  // ---- the interval ----

  ghost predicate SpacedBy(trace: seq<Event>, ms: int) {
    forall i, j :: 0 <= i < j < |trace| && trace[i].Attempted? && trace[j].Attempted? ==>
      trace[j].at >= trace[i].done + ms
  }

  ghost predicate AlwaysSpaced(o: Options) {
    forall w: World, n: nat :: SpacedBy(Run(o, w, n).trace, o.intervalMs)
  }

  function PunctualWorld(): World {
    World(0, None, None, k => 0, k => 0, k => Unusable, k => Listed([]), k => Returned(Backup(true, true, "")), k => 0)
  }

  lemma PunctualRun(o: Options)
    requires o.watch && o.maxCycles != 1
    ensures var trace := Run(o, PunctualWorld(), 3).trace;
            |trace| == 4 && trace[0].Attempted? && trace[2].Attempted?
              && trace[2].at == trace[0].done + TimerDelay(o.intervalMs)
  {
    hide TimerDelay, BeatAfter, Newest;
    var w := PunctualWorld();
    assert Newest([]).None?;
    assert Run(o, w, 0) == Begin(o, w);
    assert ResolveInitialBackupDueAt(0, o.intervalMs, w.heartbeat(0), None) == 0;
    var s1 := Run(o, w, 1);
    assert s1 == ScheduleTurn(o, w, Begin(o, w), 0);
    assert s1 == State(0, 0, None, [], Attempting);
    var s2 := AttemptTurn(o, w, s1, 1);
    assert Run(o, w, 2) == s2;
    assert s2.phase.Attempting? && s2.clock == TimerDelay(o.intervalMs) && |s2.trace| == 2;
    assert Run(o, w, 3) == AttemptTurn(o, w, s2, 2);
  }

  /** Watching for more than one cycle keeps attempts one interval apart, on every host, exactly when a timer can span
      the interval. */
  lemma SpacingExactly(o: Options)
    requires o.watch && o.maxCycles != 1 && o.intervalMs >= 1
    ensures AlwaysSpaced(o) <==> o.intervalMs <= TIMER_MAX
  {
    hide Run, Reported, Within, Rested, Attempts, NotStopped, Ended;
    if o.intervalMs <= TIMER_MAX {
      forall w: World, n: nat ensures SpacedBy(Run(o, w, n).trace, o.intervalMs) {
        EveryRun(o, w, n);
        assert Spaced(o, Run(o, w, n).trace);
      }
    } else {
      PunctualRun(o);
      assert !SpacedBy(Run(o, PunctualWorld(), 3).trace, o.intervalMs);
    }
  }

  // ---- across restarts ----

  /** What a life finds when it starts: the time, the heartbeat left behind, and the backups. */
  ghost predicate Found(w: World, start: int, beat: LastBeat, listing: Listing) {
    w.start == start && w.heartbeat(0) == beat && w.listing(0) == listing
  }

  /** Whatever else happens, heartbeats that get lost included, a life that finds this makes no attempt before
      `from`. */
  ghost predicate KeepsFrom(o: Options, start: int, beat: LastBeat, listing: Listing, from: int) {
    forall w: World, n: nat :: Found(w, start, beat, listing) ==> Within(w, from, Run(o, w, n).trace)
  }

  /** The earliest attempt of a life that finds this. */
  function FoundEarliest(o: Options, start: int, beat: LastBeat, listing: Listing): int {
    var announced := ResolveInitialBackupDueAt(start, o.intervalMs, beat, None);
    if announced > start then Earliest(start, announced)
    else match listing
      case Listed(backups) => Earliest(start, ResolveInitialBackupDueAt(start, o.intervalMs, beat, Newest(backups)))
      case Unreadable(_) => start + TimerDelay(o.intervalMs)
  }

  lemma FirstTurnUnsettled(o: Options, w: World, n: nat)
    requires n >= 1 && Run(o, w, n).phase.Scheduling?
    ensures FoundEarliest(o, w.start, w.heartbeat(0), w.listing(0)) <= Run(o, w, n).clock
  {
    hide ResolveInitialBackupDueAt, Newest, AttemptTurn, DelayUntil, Wait;
    StillScheduling(o, w, n, 0);
    StillScheduling(o, w, n, 1);
    assert Run(o, w, 0) == Begin(o, w) && Run(o, w, 1) == ScheduleTurn(o, w, Begin(o, w), 0);
    if SettledDue(o, w, Begin(o, w), 0).Some? {
      SettlingEndsScheduling(o, w, Begin(o, w), 0);
      assert false;
    } else {
      ClockFrom(o, w, 1, n);
    }
  }

  lemma {:induction false} NotBeforeEarliest(o: Options, w: World, n: nat)
    requires o.watch
    ensures Inv(o, w, FoundEarliest(o, w.start, w.heartbeat(0), w.listing(0)), Run(o, w, n))
  {
    hide Inv, Turn, Earliest, ResolveInitialBackupDueAt, Newest;
    var from := FoundEarliest(o, w.start, w.heartbeat(0), w.listing(0));
    if n == 0 {
      BeginInv(o, w, from);
    } else {
      NotBeforeEarliest(o, w, n - 1);
      var s := Run(o, w, n - 1);
      if n > 1 && s.phase.Scheduling? {
        FirstTurnUnsettled(o, w, n - 1);
        if SettledDue(o, w, s, n - 1).Some? {
          NeverEarlier(s.clock, SettledDue(o, w, s, n - 1).value);
        }
      }
      TurnKeeps(o, w, from, s, n - 1);
    }
  }

  lemma NeverEarlier(clock: int, due: int)
    ensures Earliest(clock, due) >= clock
  {
  }

  /** A host that finds this, on which nothing takes any time, and which loses the heartbeats written after it. */
  function FoundWorld(start: int, beat: LastBeat, listing: Listing): World {
    World(start, None, None, k => 0, k => 0, k => if k == 0 then beat else Unusable,
          k => if k == 0 then listing else Listed([]), k => Returned(Backup(true, true, "")), k => 0)
  }

  lemma PunctualDelay(o: Options, w: World, s: State, due: int, k: nat)
    requires w.abortAt.None? && w.late(k) == 0 && w.pause(k) == 0
    ensures var t := DelayUntil(o, w, s, due, k);
            t.phase == Attempting && t.clock == Earliest(s.clock, due)
  {
  }

  lemma AttemptNow(o: Options, w: World, n: nat)
    requires w.abortAt.None? && Run(o, w, n).phase.Attempting?
    ensures var s, t := Run(o, w, n), Run(o, w, n + 1);
            |t.trace| > |s.trace| && t.trace[|s.trace|].Attempted? && t.trace[|s.trace|].at == s.clock
  {
    hide BeatAfter, RunBackupAttempt, Wait;
  }

  lemma FoundWorldAttempts(o: Options, start: int, beat: LastBeat, listing: Listing) returns (n: nat, i: nat)
    requires o.watch
    ensures var trace := Run(o, FoundWorld(start, beat, listing), n).trace;
            i < |trace| && trace[i].Attempted? && trace[i].at == FoundEarliest(o, start, beat, listing)
  {
    hide ResolveInitialBackupDueAt, Earliest, TimerDelay, DelayUntil, AttemptTurn;
    var w := FoundWorld(start, beat, listing);
    var s0 := Begin(o, w);
    assert Run(o, w, 0) == s0 && s0.phase.Scheduling?;
    var s1 := ScheduleTurn(o, w, s0, 0);
    assert Run(o, w, 1) == s1;
    var settled := SettledDue(o, w, s0, 0);
    if settled.Some? {
      PunctualDelay(o, w, s0, settled.value, 0);
      assert s1 == DelayUntil(o, w, s0, settled.value, 0);
      n := 2;
    } else {
      assert s1.phase.Scheduling? && s1.clock == start + TimerDelay(o.intervalMs);
      NothingFound(s1.clock, o.intervalMs);
      PunctualDelay(o, w, s1, s1.clock, 1);
      EarliestNow(s1.clock);
      assert Run(o, w, 2) == ScheduleTurn(o, w, s1, 1) == DelayUntil(o, w, s1, s1.clock, 1);
      n := 3;
    }
    AttemptNow(o, w, n - 1);
    i := |Run(o, w, n - 1).trace|;
  }

  lemma NothingFound(now: int, intervalMs: int)
    ensures ResolveInitialBackupDueAt(now, intervalMs, Unusable, None) == now
    ensures ResolveInitialBackupDueAt(now, intervalMs, Unusable, Newest([])) == now
  {
  }

  lemma EarliestNow(clock: int)
    ensures Earliest(clock, clock) == clock
  {
  }

  /** Main result: a life keeps clear of everything before `from` exactly if what it finds puts it off that long. */
  lemma KeepsFromExactly(o: Options, start: int, beat: LastBeat, listing: Listing, from: int)
    requires o.watch
    ensures KeepsFrom(o, start, beat, listing, from) <==> from <= FoundEarliest(o, start, beat, listing)
  {
    hide Run, FoundEarliest, Reported, Spaced, Rested, Attempts, NotStopped, Ended;
    if from <= FoundEarliest(o, start, beat, listing) {
      forall w: World, n: nat | Found(w, start, beat, listing) ensures Within(w, from, Run(o, w, n).trace) {
        NotBeforeEarliest(o, w, n);
      }
    } else {
      var n, i := FoundWorldAttempts(o, start, beat, listing);
      var w := FoundWorld(start, beat, listing);
      assert Found(w, start, beat, listing) && !Within(w, from, Run(o, w, n).trace);
    }
  }

  /** A service that finds a heartbeat announcing `next` makes no attempt before it, whatever the backup listing
      says. */
  lemma AnnouncedRunIsHonoured(o: Options, w: World, next: int, n: nat)
    requires o.watch && w.heartbeat(0) == Usable(Some(next)) && next - w.start <= TIMER_MAX
    ensures Within(w, next, Run(o, w, n).trace)
  {
    hide Run, Reported, Spaced, Rested, Attempts, NotStopped, Ended, Newest;
    NotBeforeEarliest(o, w, n);
  }

  /** The heartbeat that a life leaves behind. */
  function LeftBehind(trace: seq<Event>): LastBeat {
    if trace == [] then Unusable
    else match trace[|trace| - 1]
      case Published(_, beat) => Usable(beat.nextRunAt)
      case Attempted(_, _, _) => LeftBehind(trace[..|trace| - 1])
  }

  /**
   A service killed after reporting an attempt, and started again, keeps the interval to that attempt exactly if a
   timer can span what is left of it: the heartbeat it left carries the schedule over, whatever the backup listing
   says.
   */
  lemma CrashKeepsSpacingExactly(o: Options, first: World, m: nat, start: int, listing: Listing)
    requires o.watch
    requires var trace := Run(o, first, m).trace;
             trace != [] && trace[|trace| - 1].Published? && trace[|trace| - 1].beat.attempted
    ensures var trace := Run(o, first, m).trace;
            && |trace| >= 2 && trace[|trace| - 2].Attempted?
            && var from := trace[|trace| - 2].done + o.intervalMs;
               (from > start ==>
                  (KeepsFrom(o, start, LeftBehind(trace), listing, from) <==> from - start <= TIMER_MAX))
               && (from <= start ==> KeepsFrom(o, start, LeftBehind(trace), listing, from))
  {
    hide Run, Spaced, Within, Rested, Attempts, NotStopped, Ended, KeepsFrom, Newest;
    var trace := Run(o, first, m).trace;
    EveryRun(o, first, m);
    assert Reported(o, trace);
    KeepsFromExactly(o, start, LeftBehind(trace), listing, trace[|trace| - 2].done + o.intervalMs);
  }

  /**
   A service that was stopped keeps the interval to an attempt exactly if it starts that late, or if a completed
   backup puts it off that long, or if it cannot list the backups and its retry comes that late: its own schedule is
   forgotten.
   */
  lemma StopKeepsSpacingExactly(o: Options, first: World, m: nat, i: nat, start: int, listing: Listing)
    requires o.watch && StoppedByAbort(first, Run(o, first, m))
    requires i < |Run(o, first, m).trace| && Run(o, first, m).trace[i].Attempted?
    ensures var trace := Run(o, first, m).trace;
            var from := trace[i].done + o.intervalMs;
            && LeftBehind(trace) == Usable(None)
            && (KeepsFrom(o, start, LeftBehind(trace), listing, from) <==>
                match listing
                case Unreadable(_) => from <= start + TimerDelay(o.intervalMs)
                case Listed(backups) =>
                  from <= start ||
                  (Newest(backups).Some? && var due := Newest(backups).value + o.intervalMs;
                     due > start && from <= start + TimerDelay(due - start)))
  {
    hide Run, NotStopped, KeepsFrom, Newest, TimerDelay;
    var trace := Run(o, first, m).trace;
    KeepsFromExactly(o, start, LeftBehind(trace), listing, trace[i].done + o.intervalMs);
  }

  lemma ReportIsNoStop(o: Options, b: Backup, done: int)
    ensures BeatAfter(o, b, done).health != Stopped
  {
  }

  /** A life whose only attempt fails, stopped a millisecond later: the next life attempts again at once. */
  lemma StopForgetsTheSchedule() returns (o: Options, first: World, m: nat)
    ensures o.watch && o.intervalMs == 86_400_000 && StoppedByAbort(first, Run(o, first, m))
    ensures var trace := Run(o, first, m).trace;
            && |trace| == 3 && trace[0].Attempted? && !trace[0].backup.ok && trace[0].done == 0
            && FoundEarliest(o, 1, LeftBehind(trace), Listed([])) == 1
            && !KeepsFrom(o, 1, LeftBehind(trace), Listed([]), trace[0].done + o.intervalMs)
  {
    hide BeatAfter, KeepsFrom;
    o := Options(true, 86_400_000, 0, false);
    first := FoundWorld(0, Unusable, Listed([])).(abortAt := Some(1), answer := _ => Thrown("disk"));
    m := 2;
    NothingFound(0, o.intervalMs);
    assert Run(o, first, 0) == Begin(o, first);
    var s1 := Run(o, first, 1);
    assert s1 == ScheduleTurn(o, first, Begin(o, first), 0) == State(0, 0, None, [], Attempting);
    var s2 := AttemptTurn(o, first, s1, 1);
    assert Run(o, first, 2) == s2 && |s2.trace| == 3 && s2.clock == 1;
    ReportIsNoStop(o, s2.trace[0].backup, 0);
    StopKeepsSpacingExactly(o, first, m, 0, 1, Listed([]));
  }

  /** A failing disk check is one degraded heartbeat and no attempt, ever. */
  lemma {:induction false} RefusedStays(o: Options, w: World, n: nat)
    requires o.checkStartupDisk && w.disk.Some?
    ensures Run(o, w, n) == Begin(o, w) && !Begin(o, w).trace[0].Attempted? && |Begin(o, w).trace| == 1
  {
    if n > 0 {
      RefusedStays(o, w, n - 1);
    }
  }

  /** After its first turn a run has ended without an exit code exactly if it is a one-shot run that passed the disk
      check and was aborted before its attempt. */
  lemma {:induction false} ExitCodesExactly(o: Options, w: World, n: nat)
    requires n >= 1
    ensures Run(o, w, n).phase == Done(None) <==>
              !o.watch && Aborted(w, w.start) && !(o.checkStartupDisk && w.disk.Some?)
  {
    hide Aborted, ScheduleTurn;
    if n == 1 {
      assert Run(o, w, 0) == Begin(o, w);
      FirstTurnExit(o, w);
    } else {
      ExitCodesExactly(o, w, n - 1);
      if o.watch {
        WatchExits(o, w, Run(o, w, n - 1), n - 1);
      } else {
        OneShotEnds(o, w, n - 1);
      }
    }
  }

  lemma FirstTurnExit(o: Options, w: World)
    ensures Turn(o, w, Begin(o, w), 0).phase == Done(None) <==>
              !o.watch && Aborted(w, w.start) && !(o.checkStartupDisk && w.disk.Some?)
  {
    hide Aborted, Wait, BeatAfter, RunBackupAttempt, ResolveInitialBackupDueAt, Newest;
  }

  /** A one-shot run is over after one turn. */
  lemma {:induction false} OneShotEnds(o: Options, w: World, n: nat)
    requires n >= 1 && !o.watch
    ensures Run(o, w, n).phase.Done?
  {
    hide BeatAfter, RunBackupAttempt, Wait, Aborted;
    if n > 1 {
      OneShotEnds(o, w, n - 1);
    }
  }

  lemma WatchExits(o: Options, w: World, s: State, k: nat)
    requires o.watch && s.phase != Done(None)
    ensures Turn(o, w, s, k).phase != Done(None)
  {
    hide BeatAfter, RunBackupAttempt, Wait, Aborted, ResolveInitialBackupDueAt, Newest;
  }

  // ---- the loops themselves ----

  class HostBackup {
    var clock: int
    var cycles: nat
    var result: Option<Backup>
    var trace: seq<Event>

    function Now(phase: Phase): State reads this {
      State(clock, cycles, result, trace, phase)
    }

    method PublishHeartbeat(beat: Beat)
      modifies this`trace
      ensures trace == old(trace) + [Published(clock, beat)]
    {
      trace := trace + [Published(clock, beat)];
    }

    method WaitOrStop(o: Options, w: World, ms: int, k: nat, next: Phase) returns (phase: Phase)
      modifies this`clock, this`trace
      ensures Now(phase) == WaitThen(o, w, old(Now(next)), ms, k, next)
    {
      hide Wait;
      var waited := Wait(w, clock, ms, k);
      clock := waited.at;
      if !waited.completed {
        PublishHeartbeat(STOPPED);
        return Done(ExitCode(o, result));
      }
      phase := next;
    }

    method Schedule(o: Options, w: World, k: nat) returns (phase: Phase)
      modifies this`clock, this`trace
      ensures Now(phase) == ScheduleTurn(o, w, old(Now(Scheduling)), k)
    {
      hide WaitThen, ResolveInitialBackupDueAt;
      var scheduleNow := clock;
      var dueAt := ResolveInitialBackupDueAt(scheduleNow, o.intervalMs, w.heartbeat(k), None);
      if dueAt <= scheduleNow {
        var backups := w.listing(k);
        if backups.Unreadable? {
          PublishHeartbeat(Beat(Degraded, false, false, backups.code, Some(scheduleNow + o.intervalMs)));
          phase := WaitOrStop(o, w, o.intervalMs, k, Scheduling);
          return;
        }
        dueAt := ResolveInitialBackupDueAt(scheduleNow, o.intervalMs, w.heartbeat(k), Newest(backups.times));
      }
      clock := clock + w.pause(k);
      if dueAt > clock {
        PublishHeartbeat(Beat(Running, false, false, "", Some(dueAt)));
        ghost var before := Now(Attempting);
        phase := WaitOrStop(o, w, dueAt - clock, k, Attempting);
        WaitIgnoresPhase(o, w, before, dueAt - before.clock, k);
      } else {
        phase := Attempting;
      }
    }

    method AttemptOnce(o: Options, w: World, k: nat) returns (phase: Phase)
      modifies this
      ensures Now(phase) == AttemptTurn(o, w, old(Now(Attempting)), k)
    {
      hide WaitThen, RunBackupAttempt, BeatAfter, Aborted;
      if Aborted(w, clock) {
        PublishHeartbeat(STOPPED);
        return Done(ExitCode(o, result));
      }
      cycles := cycles + 1;
      var b := RunBackupAttempt(w.answer(k));
      var done := clock + w.took(k);
      result, trace := Some(b), trace + [Attempted(clock, done, b)];
      clock := done;
      PublishHeartbeat(BeatAfter(o, b, done));
      assert trace == old(trace) + [Attempted(old(clock), done, b), Published(done, BeatAfter(o, b, done))];
      if LastCycle(o, cycles) {
        return Done(ExitCode(o, result));
      }
      phase := WaitOrStop(o, w, o.intervalMs, k, Attempting);
    }

    /** The service as seen for `horizon` turns. */
    method RunHostBackupLoop(o: Options, w: World, horizon: nat) returns (phase: Phase)
      requires Now(Scheduling) == State(w.start, 0, None, [], Scheduling)
      modifies this
      ensures Now(phase) == Run(o, w, horizon)
    {
      hide ScheduleTurn, AttemptTurn;
      if o.checkStartupDisk && w.disk.Some? {
        PublishHeartbeat(Beat(Degraded, false, false, w.disk.value, None));
        result := Some(Backup(false, false, w.disk.value));
        RefusedStays(o, w, horizon);
        return Done(Some(1));
      }
      phase := if o.watch then Scheduling else Attempting;
      var k := 0;
      while phase.Scheduling? && k < horizon
        invariant k <= horizon && Now(phase) == Run(o, w, k)
      {
        phase := Schedule(o, w, k);
        k := k + 1;
      }
      while phase.Attempting? && k < horizon
        invariant k <= horizon && Now(phase) == Run(o, w, k)
        invariant phase.Scheduling? ==> k == horizon
      {
        phase := AttemptOnce(o, w, k);
        AttemptTurnNeverSchedules(o, w, Run(o, w, k), k);
        k := k + 1;
      }
      DoneStays(o, w, k, horizon);
    }
  }

  lemma WaitIgnoresPhase(o: Options, w: World, s: State, ms: int, k: nat)
    ensures WaitThen(o, w, s, ms, k, Attempting) == WaitThen(o, w, s.(phase := Scheduling), ms, k, Attempting)
  {
  }

  lemma {:induction false} DoneStays(o: Options, w: World, k: nat, n: nat)
    requires k <= n && (Run(o, w, k).phase.Done? || k == n)
    ensures Run(o, w, n) == Run(o, w, k)
  {
    if k < n {
      DoneStays(o, w, k, n - 1);
    }
  }
}
