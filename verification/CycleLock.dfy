/**
 The bot's cycle lock (backend/execution/src/bot_state.ts): a file naming a process and a start time. Acquiring,
 breaking a stale lock and releasing are each one atomic step of a system of processes and a clock.
 */
module CycleLock {
  type Pid = int

  const LOCK_MAX_AGE_MS := 10 * 60 * 1000

  /** `Garbage` is a file whose content is not a lock record. */
  datatype LockFile = Absent | Held(pid: Pid, startedMs: int) | Garbage

  /** `alive` holds the pids the liveness probe does not report as missing. */
  predicate Stale(file: LockFile, nowMs: int, alive: set<Pid>) {
    file.Held? && !(nowMs - file.startedMs < LOCK_MAX_AGE_MS && file.pid in alive)
  }

  predicate CanAcquire(file: LockFile, nowMs: int, alive: set<Pid>) {
    file.Absent? || Stale(file, nowMs, alive)
  }

  function Released(file: LockFile, pid: Pid): LockFile {
    if file.Held? && file.pid == pid then Absent else file
  }

  /** The lock file of one installation. */
  class LockPath {
    var file: LockFile

    constructor ()
      ensures file == Absent
    {
      file := Absent;
    }

    method BreakStaleLock(pid: Pid, nowMs: int, alive: set<Pid>) returns (ok: bool)
      requires !file.Absent?
      modifies this
      ensures ok == Stale(old(file), nowMs, alive)
      ensures file == if ok then Held(pid, nowMs) else old(file)
    {
      if file.Garbage? {
        return false;
      }
      var age := nowMs - file.startedMs;
      if age < LOCK_MAX_AGE_MS && file.pid in alive {
        return false;
      }
      file := Absent;
      file := Held(pid, nowMs);
      return true;
    }

    method AcquireLock(pid: Pid, nowMs: int, alive: set<Pid>) returns (ok: bool)
      modifies this
      ensures ok == CanAcquire(old(file), nowMs, alive)
      ensures file == if ok then Held(pid, nowMs) else old(file)
    {
      if file.Absent? {
        file := Held(pid, nowMs);
        return true;
      }
      ok := BreakStaleLock(pid, nowMs, alive);
    }

    method ReleaseLock(pid: Pid)
      modifies this
      ensures file == Released(old(file), pid)
    {
      if file.Held? && file.pid == pid {
        file := Absent;
      }
    }
  }

  // ---- the system ----

  /** One successful acquisition that its process has not released yet. */
  datatype Session = Session(pid: Pid, startedMs: int, serial: nat)

  datatype System = System(file: LockFile, sessions: set<Session>, alive: set<Pid>, nowMs: int, nextSerial: nat)

  datatype Event =
    | Acquire(pid: Pid)
    | Release(session: Session)
    | Wait(ms: nat)
    | Die(pid: Pid)
    | Spawn(pid: Pid)

  function Step(sys: System, ev: Event): System {
    match ev
    case Acquire(pid) =>
      if pid in sys.alive && CanAcquire(sys.file, sys.nowMs, sys.alive) then
        sys.(file := Held(pid, sys.nowMs),
             sessions := sys.sessions + {Session(pid, sys.nowMs, sys.nextSerial)},
             nextSerial := sys.nextSerial + 1)
      else sys
    case Release(s) =>
      if s in sys.sessions then sys.(file := Released(sys.file, s.pid), sessions := sys.sessions - {s}) else sys
    case Wait(ms) => sys.(nowMs := sys.nowMs + ms)
    case Die(pid) => sys.(alive := sys.alive - {pid}, sessions := set s <- sys.sessions | s.pid != pid)
    case Spawn(pid) => sys.(alive := sys.alive + {pid})
  }

  function Run(sys: System, evs: seq<Event>): System {
    if evs == [] then sys else Step(Run(sys, evs[..|evs| - 1]), evs[|evs| - 1])
  }

  predicate Young(sys: System, s: Session) {
    sys.nowMs - s.startedMs < LOCK_MAX_AGE_MS
  }

  /** Bookkeeping that every step keeps. */
  predicate Sound(sys: System) {
    && (forall s <- sys.sessions :: s.pid in sys.alive && s.startedMs <= sys.nowMs && s.serial < sys.nextSerial)
    && (forall s, t :: s in sys.sessions && t in sys.sessions && s.serial == t.serial ==> s == t)
  }

  /** At most one live holder is younger than ten minutes, and the lock file names it. */
  predicate Exclusive(sys: System) {
    && (forall s, t :: s in sys.sessions && t in sys.sessions && Young(sys, s) && Young(sys, t) ==> s == t)
    && (forall s <- sys.sessions :: Young(sys, s) ==> sys.file == Held(s.pid, s.startedMs))
  }

  predicate Initial(sys: System) {
    sys.sessions == {}
  }

  lemma StepKeepsSound(sys: System, ev: Event)
    requires Sound(sys)
    ensures Sound(Step(sys, ev))
  {
  }

  /** The one event that can break exclusion: a release while the same process holds another, young session. */
  predicate Overlaps(sys: System, ev: Event) {
    && ev.Release? && ev.session in sys.sessions
    && exists t <- sys.sessions :: t != ev.session && t.pid == ev.session.pid && Young(sys, t)
  }

  /** Exclusion survives a step exactly when the step is not such a release. */
  lemma StepExclusiveExactly(sys: System, ev: Event)
    requires Sound(sys) && Exclusive(sys)
    ensures Exclusive(Step(sys, ev)) <==> !Overlaps(sys, ev)
  {
    var next := Step(sys, ev);
    if Overlaps(sys, ev) {
      var t :| t in sys.sessions && t != ev.session && t.pid == ev.session.pid && Young(sys, t);
      assert t in next.sessions && Young(next, t) && next.file == Absent;
    }
  }

  /** An expired holder's release takes away a successor's lock exactly when the successor runs in the same process. */
  lemma ReleaseRemovesSuccessorExactly(sys: System, s: Session, t: Session)
    requires s in sys.sessions && t in sys.sessions && s != t
    requires sys.file == Held(t.pid, t.startedMs)
    ensures Step(sys, Release(s)).file != sys.file <==> s.pid == t.pid
  {
  }

  /** Exclusion over whole runs: it holds at the end of every run without an overlapping release. */
  lemma {:induction false} RunExclusive(sys: System, evs: seq<Event>)
    requires Initial(sys)
    requires forall k :: 0 <= k < |evs| ==> !Overlaps(Run(sys, evs[..k]), evs[k])
    ensures Sound(Run(sys, evs)) && Exclusive(Run(sys, evs))
  {
    if evs != [] {
      var n := |evs| - 1;
      forall k | 0 <= k < n ensures !Overlaps(Run(sys, evs[..n][..k]), evs[..n][k]) {
        assert evs[..n][..k] == evs[..k];
      }
      RunExclusive(sys, evs[..n]);
      StepKeepsSound(Run(sys, evs[..n]), evs[n]);
      StepExclusiveExactly(Run(sys, evs[..n]), evs[n]);
    }
  }

  lemma {:induction false} RunSound(sys: System, evs: seq<Event>)
    requires Initial(sys)
    ensures Sound(Run(sys, evs))
  {
    if evs != [] {
      RunSound(sys, evs[..|evs| - 1]);
      StepKeepsSound(Run(sys, evs[..|evs| - 1]), evs[|evs| - 1]);
    }
  }

  /** A run is exclusive at every moment exactly if none of its steps is an overlapping release. */
  lemma RunExclusiveExactly(sys: System, evs: seq<Event>)
    requires Initial(sys)
    ensures (forall k :: 0 <= k <= |evs| ==> Exclusive(Run(sys, evs[..k]))) <==>
            (forall k :: 0 <= k < |evs| ==> !Overlaps(Run(sys, evs[..k]), evs[k]))
  {
    hide Run, Exclusive, Overlaps, Sound;
    if forall k :: 0 <= k < |evs| ==> !Overlaps(Run(sys, evs[..k]), evs[k]) {
      forall k | 0 <= k <= |evs| ensures Exclusive(Run(sys, evs[..k])) {
        forall j | 0 <= j < k ensures !Overlaps(Run(sys, evs[..k][..j]), evs[..k][j]) {
          assert evs[..k][..j] == evs[..j];
        }
        RunExclusive(sys, evs[..k]);
      }
    }
    if forall k :: 0 <= k <= |evs| ==> Exclusive(Run(sys, evs[..k])) {
      forall k | 0 <= k < |evs| ensures !Overlaps(Run(sys, evs[..k]), evs[k]) {
        RunSound(sys, evs[..k]);
        RunSplit(sys, evs, k);
        assert Exclusive(Run(sys, evs[..k])) && Exclusive(Run(sys, evs[..k + 1]));
        StepExclusiveExactly(Run(sys, evs[..k]), evs[k]);
      }
    }
  }

  /** A process starts a cycle only when it has none outstanding. */
  predicate SingleFlight(sys: System, ev: Event) {
    ev.Acquire? ==> forall s <- sys.sessions :: s.pid != ev.pid
  }

  predicate OneSessionPerProcess(sys: System) {
    forall s, t :: s in sys.sessions && t in sys.sessions && s.pid == t.pid ==> s == t
  }

  lemma {:induction false} SingleFlightKeepsOnePerProcess(sys: System, evs: seq<Event>)
    requires Initial(sys)
    requires forall k :: 0 <= k < |evs| ==> SingleFlight(Run(sys, evs[..k]), evs[k])
    ensures OneSessionPerProcess(Run(sys, evs))
  {
    if evs != [] {
      var n := |evs| - 1;
      forall k | 0 <= k < n ensures SingleFlight(Run(sys, evs[..n][..k]), evs[..n][k]) {
        assert evs[..n][..k] == evs[..k];
      }
      SingleFlightKeepsOnePerProcess(sys, evs[..n]);
      assert evs[..n] == evs[..|evs| - 1];
      assert SingleFlight(Run(sys, evs[..n]), evs[n]);
    }
  }

  /** Main result: any number of processes that each run one cycle at a time, dying and being replaced at will, never
      have two live holders younger than ten minutes. */
  lemma ExclusionForAnyProcesses(sys: System, evs: seq<Event>)
    requires Initial(sys)
    requires forall k :: 0 <= k < |evs| ==> SingleFlight(Run(sys, evs[..k]), evs[k])
    ensures Exclusive(Run(sys, evs))
  {
    forall k | 0 <= k < |evs| ensures !Overlaps(Run(sys, evs[..k]), evs[k]) {
      forall j | 0 <= j < k ensures SingleFlight(Run(sys, evs[..k][..j]), evs[..k][j]) {
        assert evs[..k][..j] == evs[..j];
      }
      SingleFlightKeepsOnePerProcess(sys, evs[..k]);
    }
    RunExclusive(sys, evs);
  }

  /** One process that starts a second cycle after ten minutes and then finishes the first leaves its young second
      session without a lock, and another process gets in beside it. */
  lemma OverlappingCyclesCollide() returns (sys: System, evs: seq<Event>)
    ensures Initial(sys) && !Exclusive(Run(sys, evs))
    ensures exists s, t :: s in Run(sys, evs).sessions && t in Run(sys, evs).sessions && s.pid != t.pid
                           && Young(Run(sys, evs), s) && Young(Run(sys, evs), t)
  {
    sys := System(Absent, {}, {1, 2}, 0, 0);
    var first, second, third := Session(1, 0, 0), Session(1, LOCK_MAX_AGE_MS, 1), Session(2, LOCK_MAX_AGE_MS, 2);
    evs := [Acquire(1), Wait(LOCK_MAX_AGE_MS), Acquire(1), Release(first), Acquire(2)];
    var s1, s2, s3, s4, s5 := FiveSteps(sys, evs);
    assert s2 == System(Held(1, 0), {first}, {1, 2}, LOCK_MAX_AGE_MS, 1);
    assert s4 == System(Absent, {second}, {1, 2}, LOCK_MAX_AGE_MS, 2);
    assert s5.sessions == {second, third};
    assert second in s5.sessions && third in s5.sessions && Young(s5, second) && Young(s5, third);
  }

  lemma FiveSteps(sys: System, evs: seq<Event>) returns (s1: System, s2: System, s3: System, s4: System, s5: System)
    requires |evs| == 5
    ensures s1 == Step(sys, evs[0]) && s2 == Step(s1, evs[1]) && s3 == Step(s2, evs[2])
    ensures s4 == Step(s3, evs[3]) && s5 == Step(s4, evs[4]) && Run(sys, evs) == s5
  {
    hide Step;
    assert Run(sys, evs[..0]) == sys && evs[..5] == evs;
    s1, s2, s3 := Run(sys, evs[..1]), Run(sys, evs[..2]), Run(sys, evs[..3]);
    s4, s5 := Run(sys, evs[..4]), Run(sys, evs);
    RunSplit(sys, evs, 0);
    RunSplit(sys, evs, 1);
    RunSplit(sys, evs, 2);
    RunSplit(sys, evs, 3);
    RunSplit(sys, evs, 4);
  }

  lemma RunSplit(sys: System, evs: seq<Event>, k: nat)
    requires k < |evs|
    ensures Run(sys, evs[..k + 1]) == Step(Run(sys, evs[..k]), evs[k])
  {
    assert evs[..k + 1][..k] == evs[..k];
  }

  // ---- getting the lock back ----

  /** A record older than ten minutes, or of a missing process, never blocks an acquisition. */
  lemma RecordNeverBlocksForLong(sys: System, pid: Pid)
    requires pid in sys.alive && sys.file.Held?
    ensures sys.nowMs - sys.file.startedMs >= LOCK_MAX_AGE_MS || sys.file.pid !in sys.alive <==>
            Step(sys, Acquire(pid)) != sys
  {
    var next := Step(sys, Acquire(pid));
    assert CanAcquire(sys.file, sys.nowMs, sys.alive) ==> next.nextSerial == sys.nextSerial + 1;
  }

  /** An unreadable lock file is never broken: from then on no run ever acquires the lock again. */
  lemma {:induction false} GarbageBlocksForever(sys: System, evs: seq<Event>)
    requires sys.file == Garbage
    ensures Run(sys, evs).file == Garbage && Run(sys, evs).sessions <= sys.sessions
    ensures Run(sys, evs).nextSerial == sys.nextSerial
  {
    if evs != [] {
      GarbageBlocksForever(sys, evs[..|evs| - 1]);
    }
  }

  /** Some run acquires the lock exactly if its file is not unreadable. */
  lemma LockObtainableExactly(sys: System)
    ensures (exists evs :: Run(sys, evs).nextSerial > sys.nextSerial) <==> sys.file != Garbage
  {
    if sys.file == Garbage {
      forall evs ensures Run(sys, evs).nextSerial == sys.nextSerial {
        GarbageBlocksForever(sys, evs);
      }
    } else {
      var age := if sys.file.Held? then sys.nowMs - sys.file.startedMs else 0;
      var evs := [Spawn(1), Wait(if age < LOCK_MAX_AGE_MS then LOCK_MAX_AGE_MS - age else 0), Acquire(1)];
      assert Run(sys, evs[..0]) == sys;
      RunSplit(sys, evs, 0);
      RunSplit(sys, evs, 1);
      RunSplit(sys, evs, 2);
      assert evs[..3] == evs;
    }
  }
}
