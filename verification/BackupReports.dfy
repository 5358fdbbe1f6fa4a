/**
 What the backup service tells the outside (backend/scripts/ops/host_backup.js): its heartbeats, the times they
 announce, and its exit code, in terms of what the host answered.
 */
module BackupReports {
  import opened Wrappers
  import opened BackupLoop

  // ---- what an event says ----

  /** An exception counts as a backup that is neither ok nor there, under its own code if it has one. */
  ghost predicate Counts(a: Answer, b: Backup) {
    match a
    case Returned(returned) => b == returned
    case Thrown(code) =>
      && !b.ok && !b.backupOk
      && b.errorCode == if code != "" then code else "backup_failed"
  }

  /** The heartbeat after an attempt is healthy exactly if the backup is ok, and names what went wrong otherwise. */
  ghost predicate TellsOf(o: Options, b: Backup, done: int, beat: Beat) {
    && beat.attempted && (beat.health.Healthy? <==> b.ok) && (beat.health.Degraded? <==> !b.ok)
    && beat.success == b.backupOk
    && (beat.errorCode == "" <==> b.ok)
    && (!b.ok && b.backupOk ==> beat.errorCode == "backup_retention_failed")
    && (!b.ok && !b.backupOk && b.errorCode != "" ==> beat.errorCode == b.errorCode)
    && (!b.ok && !b.backupOk && b.errorCode == "" ==> beat.errorCode == "backup_failed")
    && beat.nextRunAt == Some(done + o.intervalMs)
  }

  ghost predicate AttemptTold(o: Options, w: World, n: nat, at: int, done: int, b: Backup) {
    exists k :: 0 <= k < n && Counts(w.answer(k), b) && done == at + w.took(k)
  }

  ghost predicate ListingFailed(w: World, n: nat, code: string) {
    exists k :: 0 <= k < n && w.listing(k) == Unreadable(code)
  }

  /** A heartbeat that is not about an attempt: a wait that is still going on, a stop once the signal is given, a
      failing disk check, or backups that could not be listed. */
  ghost predicate BeatTold(o: Options, w: World, n: nat, at: int, beat: Beat) {
    && !beat.attempted && !beat.success
    && match beat.health
       case Healthy => false
       case Running => o.watch && beat.errorCode == "" && beat.nextRunAt.Some? && beat.nextRunAt.value > at
       case Stopped => beat.errorCode == "" && beat.nextRunAt.None? && Aborted(w, at)
       case Degraded =>
         || (o.checkStartupDisk && w.disk == Some(beat.errorCode) && at == w.start && beat.nextRunAt.None?)
         || (o.watch && ListingFailed(w, n, beat.errorCode) && beat.nextRunAt == Some(at + o.intervalMs))
  }

  ghost predicate EventTold(o: Options, w: World, n: nat, trace: seq<Event>, i: nat)
    requires i < |trace|
  {
    match trace[i]
    case Attempted(at, done, b) =>
      && AttemptTold(o, w, n, at, done, b)
      && i + 1 < |trace| && trace[i + 1].Published? && trace[i + 1].at == done && TellsOf(o, b, done, trace[i + 1].beat)
    case Published(at, beat) =>
      if beat.attempted then i > 0 && trace[i - 1].Attempted? else BeatTold(o, w, n, at, beat)
  }

  ghost predicate Told(o: Options, w: World, n: nat, trace: seq<Event>) {
    forall i :: 0 <= i < |trace| ==> EventTold(o, w, n, trace, i)
  }

  lemma BeatAppended(o: Options, w: World, n: nat, trace: seq<Event>, at: int, beat: Beat)
    requires Told(o, w, n, trace) && BeatTold(o, w, n, at, beat)
    ensures Told(o, w, n, trace + [Published(at, beat)])
  {
    hide BeatTold, AttemptTold, TellsOf;
    var t := trace + [Published(at, beat)];
    forall i | 0 <= i < |t| ensures EventTold(o, w, n, t, i) {
      assert i < |trace| ==> EventTold(o, w, n, trace, i) && t[i] == trace[i];
      assert beat.attempted ==> !BeatTold(o, w, n, at, beat) by { NotAttempted(o, w, n, at, beat); }
    }
  }

  lemma NotAttempted(o: Options, w: World, n: nat, at: int, beat: Beat)
    ensures BeatTold(o, w, n, at, beat) ==> !beat.attempted
  {
  }

  lemma AttemptAppended(o: Options, w: World, n: nat, trace: seq<Event>, at: int, done: int, b: Backup, beat: Beat)
    requires Told(o, w, n, trace) && AttemptTold(o, w, n, at, done, b) && TellsOf(o, b, done, beat)
    ensures Told(o, w, n, trace + [Attempted(at, done, b), Published(done, beat)])
  {
    hide BeatTold, AttemptTold;
    var t := trace + [Attempted(at, done, b), Published(done, beat)];
    forall i | 0 <= i < |t| ensures EventTold(o, w, n, t, i) {
      assert i < |trace| ==> EventTold(o, w, n, trace, i) && t[i] == trace[i];
    }
  }

  lemma ToldLater(o: Options, w: World, n: nat, later: nat, trace: seq<Event>)
    requires Told(o, w, n, trace) && n <= later
    ensures Told(o, w, later, trace)
  {
    forall i | 0 <= i < |trace| ensures EventTold(o, w, later, trace, i) {
      assert EventTold(o, w, n, trace, i);
    }
  }

  lemma StopTold(o: Options, w: World, n: nat, s: State)
    requires Told(o, w, n, s.trace) && Aborted(w, s.clock)
    ensures Told(o, w, n, Stop(o, s).trace)
  {
    hide Told, Aborted;
    BeatAppended(o, w, n, s.trace, s.clock, STOPPED);
  }

  lemma WaitTold(o: Options, w: World, n: nat, s: State, ms: int, k: nat, phase: Phase)
    requires Told(o, w, n, s.trace)
    ensures Told(o, w, n, WaitThen(o, w, s, ms, k, phase).trace)
  {
    hide Told, Aborted, Stop;
    var r := Wait(w, s.clock, ms, k);
    if !r.completed {
      StopTold(o, w, n, s.(clock := r.at));
    }
  }

  lemma AttemptAnswered(o: Options, w: World, s: State, k: nat)
    ensures var b := RunBackupAttempt(w.answer(k));
            && AttemptTold(o, w, k + 1, s.clock, s.clock + w.took(k), b)
            && TellsOf(o, b, s.clock + w.took(k), BeatAfter(o, b, s.clock + w.took(k)))
  {
    assert Counts(w.answer(k), RunBackupAttempt(w.answer(k)));
  }

  lemma AttemptTurnTold(o: Options, w: World, s: State, k: nat)
    requires Told(o, w, k + 1, s.trace)
    ensures Told(o, w, k + 1, AttemptTurn(o, w, s, k).trace)
  {
    hide Told, AttemptTold, TellsOf, Aborted, BeatAfter, RunBackupAttempt, Stop, WaitThen;
    if Aborted(w, s.clock) {
      StopTold(o, w, k + 1, s);
    } else {
      var t := Attempt(o, w, s, k);
      AttemptAnswered(o, w, s, k);
      AttemptAppended(o, w, k + 1, s.trace, s.clock, t.clock, t.result.value, BeatAfter(o, t.result.value, t.clock));
      WaitTold(o, w, k + 1, t, o.intervalMs, k, Attempting);
    }
  }

  lemma DelayTold(o: Options, w: World, s: State, due: int, k: nat)
    requires o.watch && Told(o, w, k + 1, s.trace)
    ensures Told(o, w, k + 1, DelayUntil(o, w, s, due, k).trace)
  {
    hide Told, WaitThen;
    var t := s.(clock := s.clock + w.pause(k));
    if due > t.clock {
      var beat := Beat(Running, false, false, "", Some(due));
      BeatAppended(o, w, k + 1, t.trace, t.clock, beat);
      WaitTold(o, w, k + 1, Publish(t, beat), due - t.clock, k, Attempting);
    }
  }

  lemma ScheduleTurnTold(o: Options, w: World, s: State, k: nat)
    requires o.watch && Told(o, w, k + 1, s.trace)
    ensures Told(o, w, k + 1, ScheduleTurn(o, w, s, k).trace)
  {
    hide Told, WaitThen, DelayUntil, ResolveInitialBackupDueAt, Newest;
    var due := DueWithoutListing(o, w, s, k);
    if due > s.clock {
      DelayTold(o, w, s, due, k);
    } else {
      match w.listing(k)
      case Listed(backups) =>
        DelayTold(o, w, s, ResolveInitialBackupDueAt(s.clock, o.intervalMs, w.heartbeat(k), Newest(backups)), k);
      case Unreadable(code) =>
        var beat := Beat(Degraded, false, false, code, Some(s.clock + o.intervalMs));
        assert ListingFailed(w, k + 1, code);
        BeatAppended(o, w, k + 1, s.trace, s.clock, beat);
        WaitTold(o, w, k + 1, Publish(s, beat), o.intervalMs, k, Scheduling);
    }
  }

  lemma {:induction false} SchedulesOnlyWatching(o: Options, w: World, n: nat)
    ensures Run(o, w, n).phase.Scheduling? ==> o.watch
  {
    hide ScheduleTurn, AttemptTurn;
    if n > 0 {
      SchedulesOnlyWatching(o, w, n - 1);
      AttemptTurnNeverSchedules(o, w, Run(o, w, n - 1), n - 1);
    }
  }

  /** Main result: at every moment of every run each attempt counts what the host answered and is followed by a
      heartbeat that tells its outcome, and every other heartbeat says what is going on. */
  lemma {:induction false} EveryRunTells(o: Options, w: World, n: nat)
    ensures Told(o, w, n, Run(o, w, n).trace)
  {
    hide Told, ScheduleTurn, AttemptTurn;
    if n == 0 {
      FirstBeatTells(o, w);
    } else {
      EveryRunTells(o, w, n - 1);
      var s := Run(o, w, n - 1);
      ToldLater(o, w, n - 1, n, s.trace);
      SchedulesOnlyWatching(o, w, n - 1);
      match s.phase
      case Scheduling => ScheduleTurnTold(o, w, s, n - 1);
      case Attempting => AttemptTurnTold(o, w, s, n - 1);
      case Done(_) =>
    }
  }

  lemma FirstBeatTells(o: Options, w: World)
    ensures Told(o, w, 0, Begin(o, w).trace)
  {
    var trace := Begin(o, w).trace;
    if trace != [] {
      assert EventTold(o, w, 0, trace, 0);
    }
  }

  // ---- announced times are kept ----

  /** A time announced by this event, if timers can span the wait for it. */
  ghost predicate Announces(e: Event, next: int) {
    e.Published? && e.beat.nextRunAt == Some(next) && next - e.at <= TIMER_MAX
  }

  ghost predicate Reached(trace: seq<Event>, clock: int) {
    forall i, next :: 0 <= i < |trace| && Announces(trace[i], next) ==> clock >= next
  }

  ghost predicate Kept(trace: seq<Event>) {
    forall i, j, next :: 0 <= i < j < |trace| && Announces(trace[i], next) && trace[j].Attempted? ==>
      trace[j].at >= next
  }

  ghost predicate Punctual(s: State) {
    Kept(s.trace) && (!s.phase.Done? ==> Reached(s.trace, s.clock))
  }

  lemma BeatKeeps(trace: seq<Event>, at: int, beat: Beat, clock: int)
    requires Kept(trace)
    ensures Kept(trace + [Published(at, beat)])
    ensures Reached(trace, at) && clock >= at
            && (beat.nextRunAt.Some? && beat.nextRunAt.value - at <= TIMER_MAX ==> clock >= beat.nextRunAt.value) ==>
              Reached(trace + [Published(at, beat)], clock)
  {
    var t := trace + [Published(at, beat)];
    assert forall i :: 0 <= i < |trace| ==> t[i] == trace[i];
  }

  lemma AttemptKeeps(trace: seq<Event>, at: int, done: int, b: Backup)
    requires Kept(trace) && Reached(trace, at) && done >= at
    ensures Kept(trace + [Attempted(at, done, b)]) && Reached(trace + [Attempted(at, done, b)], done)
  {
    var t := trace + [Attempted(at, done, b)];
    assert forall i :: 0 <= i < |trace| ==> t[i] == trace[i];
  }

  /** Announcing a time and waiting for it keeps that announcement and all earlier ones. */
  lemma WaitKeeps(o: Options, w: World, s: State, beat: Beat, ms: int, k: nat, phase: Phase)
    requires Kept(s.trace) && Reached(s.trace, s.clock) && beat.nextRunAt == Some(s.clock + ms)
    ensures Punctual(WaitThen(o, w, Publish(s, beat), ms, k, phase))
  {
    hide Kept, Reached, Aborted;
    var t := Publish(s, beat);
    var r := Wait(w, s.clock, ms, k);
    BeatKeeps(s.trace, s.clock, beat, r.at);
    BeatKeeps(t.trace, r.at, STOPPED, r.at);
  }

  lemma AttemptTurnPunctual(o: Options, w: World, s: State, k: nat)
    requires Punctual(s) && s.phase.Attempting?
    ensures Punctual(AttemptTurn(o, w, s, k))
  {
    hide Kept, Reached, Aborted, WaitThen, RunBackupAttempt;
    if Aborted(w, s.clock) {
      BeatKeeps(s.trace, s.clock, STOPPED, s.clock);
    } else {
      var t := Attempt(o, w, s, k);
      var b, beat := t.result.value, BeatAfter(o, t.result.value, t.clock);
      AttemptKeeps(s.trace, s.clock, t.clock, b);
      var told := t.(trace := s.trace + [Attempted(s.clock, t.clock, b)]);
      assert t.trace == told.trace + [Published(t.clock, beat)];
      assert Publish(told, beat) == t;
      BeatKeeps(told.trace, t.clock, beat, t.clock);
      WaitKeeps(o, w, told, beat, o.intervalMs, k, Attempting);
    }
  }

  lemma DelayPunctual(o: Options, w: World, s: State, due: int, k: nat)
    requires Punctual(s) && s.phase.Scheduling?
    ensures Punctual(DelayUntil(o, w, s, due, k))
  {
    hide Kept, Reached, WaitThen;
    var t := s.(clock := s.clock + w.pause(k));
    ReachedLater(s.trace, s.clock, t.clock);
    if due > t.clock {
      WaitKeeps(o, w, t, Beat(Running, false, false, "", Some(due)), due - t.clock, k, Attempting);
    }
  }

  lemma ReachedLater(trace: seq<Event>, clock: int, later: int)
    requires Reached(trace, clock) && later >= clock
    ensures Reached(trace, later)
  {
  }

  lemma ScheduleTurnPunctual(o: Options, w: World, s: State, k: nat)
    requires Punctual(s) && s.phase.Scheduling?
    ensures Punctual(ScheduleTurn(o, w, s, k))
  {
    hide Kept, Reached, WaitThen, DelayUntil, ResolveInitialBackupDueAt, Newest;
    var due := DueWithoutListing(o, w, s, k);
    if due > s.clock {
      DelayPunctual(o, w, s, due, k);
    } else {
      match w.listing(k)
      case Listed(backups) =>
        DelayPunctual(o, w, s, ResolveInitialBackupDueAt(s.clock, o.intervalMs, w.heartbeat(k), Newest(backups)), k);
      case Unreadable(code) =>
        WaitKeeps(o, w, s, Beat(Degraded, false, false, code, Some(s.clock + o.intervalMs)), o.intervalMs, k,
                  Scheduling);
    }
  }

  /** Main result: no run attempts a backup before a time that any earlier heartbeat of it announced, if the timer's
      range spans the wait: those after attempts, those while waiting, and those after a failed listing. */
  lemma {:induction false} AnnouncementsAreKept(o: Options, w: World, n: nat)
    ensures Punctual(Run(o, w, n))
  {
    hide Punctual, ScheduleTurn, AttemptTurn;
    if n == 0 {
      assert Punctual(Begin(o, w)) by { NothingAnnounced(o, w); }
    } else {
      AnnouncementsAreKept(o, w, n - 1);
      var s := Run(o, w, n - 1);
      match s.phase
      case Scheduling => ScheduleTurnPunctual(o, w, s, n - 1);
      case Attempting => AttemptTurnPunctual(o, w, s, n - 1);
      case Done(_) =>
    }
  }

  lemma NothingAnnounced(o: Options, w: World)
    ensures Punctual(Begin(o, w))
  {
  }

  // ---- exit codes ----

  /** A one-shot run that is not refused makes one attempt at once, unless aborted, and its exit code tells the outcome:
      0 if the backup is ok, 3 if only the retention failed, else 1. A refused run exits with 1. */
  lemma OneShotExitsExactly(o: Options, w: World, n: nat)
    requires !o.watch && n >= 1
    ensures var s := Run(o, w, n);
            if o.checkStartupDisk && w.disk.Some? then s.phase == Done(Some(1)) && s.cycles == 0
            else if Aborted(w, w.start) then s.phase == Done(None) && s.cycles == 0
            else
              && s.cycles == 1 && |s.trace| == 2 && s.trace[0].Attempted? && s.trace[0].at == w.start
              && Counts(w.answer(0), s.trace[0].backup)
              && (s.phase == Done(Some(0)) <==> s.trace[0].backup.ok)
              && (s.phase == Done(Some(3)) <==> !s.trace[0].backup.ok && s.trace[0].backup.backupOk)
              && (s.phase == Done(Some(1)) <==> !s.trace[0].backup.ok && !s.trace[0].backup.backupOk)
  {
    hide Aborted, BeatAfter;
    assert Run(o, w, 0) == Begin(o, w) && Run(o, w, 1) == Turn(o, w, Begin(o, w), 0);
    OneShotEnds(o, w, 1);
    DoneStays(o, w, 1, n);
  }

  /** A watching run that ends exits with 0, unless the disk check refused it. */
  lemma {:induction false} WatchExitsExactly(o: Options, w: World, n: nat)
    requires o.watch && Run(o, w, n).phase.Done?
    ensures Run(o, w, n).phase == Done(Some(if o.checkStartupDisk && w.disk.Some? then 1 else 0))
  {
    hide BeatAfter, RunBackupAttempt, Wait, Aborted, ResolveInitialBackupDueAt, Newest;
    if n > 0 {
      if Run(o, w, n - 1).phase.Done? {
        WatchExitsExactly(o, w, n - 1);
      } else if o.checkStartupDisk && w.disk.Some? {
        RefusedStays(o, w, n - 1);
      }
    }
  }
}
