/** Passes drain the stops, and an abandoned claim waits for a recovery or a completion (internal/ocpp16hal/v1.go). */
module StopProgress {
  import opened Base
  import opened MeterEvidence
  import opened LifecycleTables
  import opened LifecycleSystem
  import opened Sorting
  import StartSafety
  import StopSafety
  import LifecycleTheorems

  // ----- abandoned claims -----

  /** Claimed, not attempted, and nobody is dispatching it. */
  ghost predicate Abandoned(s: State, t: Id) {
    && OpenWorkflow(s.db, t) && s.db.workflows[t].state == PendingDelivery
    && (forall i :: !StopSafety.On(s, i, t))
  }

  /** A dispatcher that gives up between claim and attempt leaves the claim abandoned. */
  lemma GivingUpAbandons(steps: seq<Step>, t: Id, i: Id)
    requires OneProcess(steps) || StopSafety.Undisturbed(INITIAL, steps, t)
    requires LifecycleTheorems.Dispatching(Run(INITIAL, steps), i, t, Claimed)
    ensures Abandoned(Apply(Run(INITIAL, steps), Abandon(i)), t)
  {
    var s := LifecycleTheorems.Reached(steps);
    LifecycleTheorems.CoveredStops(steps, t);
    assert StopSafety.On(s, i, t) && StopSafety.ThreadRow(s.db, s.wire, t, Claimed) && StopSafety.WorkflowRow(s.db, t);
    LastOneLeaves(s, t, i);
  }

  lemma LastOneLeaves(s: State, t: Id, i: Id)
    requires LifecycleTheorems.Dispatching(s, i, t, Claimed) && s.db.workflows[t].state == PendingDelivery
    requires forall j, k :: StopSafety.On(s, j, t) && StopSafety.On(s, k, t) ==> j == k
    ensures Abandoned(Apply(s, Abandon(i)), t)
  {
    var s' := Apply(s, Abandon(i));
    assert s'.db == s.db && s'.threads == s.threads - {i} && StopSafety.On(s, i, t);
    forall j ensures !StopSafety.On(s', j, t) {
      assert StopSafety.On(s', j, t) ==> StopSafety.On(s, j, t) && j != i;
    }
  }

  /** The steps that free an abandoned claim: the claim recovery of any process, and an accepted completion. */
  predicate Releases(s: State, step: Step, t: Id) {
    || step == OtherRecover(STOP_CLAIMS)
    || (step.Recover? && s.recovery == STOP_CLAIMS)
    || (step.ChargerStopped? && step.transaction == t && s.recovery >= RECOVERY_STATEMENTS
        && t in s.db.transactions && !s.db.transactions[t].Done() && StopAdmissible(s.db.transactions[t], step.stopped))
  }

  /** Open transactions stay open and keep their row in the table, apart from completion. */
  ghost predicate StaysClaimed(db: Db, db': Db, t: Id)
    requires OpenWorkflow(db, t)
  {
    OpenWorkflow(db', t) && db'.workflows[t] == db.workflows[t]
  }

  lemma CreateStopStays(db: Db, i: StopInput, t: Id)
    requires OpenWorkflow(db, t)
    ensures StaysClaimed(db, CreateStop(db, i).0, t)
  {}

  lemma TelemetryStays(db: Db, u: Id, m: Telemetry, t: Id)
    requires OpenWorkflow(db, t)
    ensures StaysClaimed(db, UpdateTelemetry(db, u, m).0, t)
  {
    if u in db.transactions && (m.energyWh.Some? || m.soc.Some?) {
      var rows := TelemetryRows(db, u, m);
      assert StaysClaimed(db, rows, t);
      assert SameTables(rows, UpdateTelemetry(db, u, m).0);
    }
  }

  lemma MaterializeStays(db: Db, i: StartEvidence, halId: Id, t: Id)
    requires OpenWorkflow(db, t) && halId !in db.transactions
    ensures StaysClaimed(db, Materialize(db, i, halId).0, t)
  {
    if Materialize(db, i, halId).0 != db {
      StartSafety.MaterializedShape(db, StartCommandFor(db, i.idTag).value, i, halId);
    }
  }

  lemma RequestStays(s: State, step: Step, t: Id)
    requires OpenWorkflow(s.db, t) && s.recovery >= RECOVERY_STATEMENTS && !Releases(s, step, t)
    requires step.RequestStart? || step.RequestStop? || step.EnsureStop?
             || step.ChargerStarted? || step.ChargerStopped? || step.ChargerMetered?
    ensures StaysClaimed(s.db, Work(s, step).db, t) && Work(s, step) == s.(db := Work(s, step).db)
  {
    match step
    case RequestStart(i) =>
    case RequestStop(i) => CreateStopStays(s.db, i, t);
    case EnsureStop(u, cause) =>
    case ChargerStarted(i, halId) => if halId !in s.db.transactions { MaterializeStays(s.db, i, halId, t); }
    case ChargerStopped(u, e) =>
    case ChargerMetered(u, m) => TelemetryStays(s.db, u, m, t);
  }

  lemma StartStepStays(s: State, step: Step, t: Id)
    requires OpenWorkflow(s.db, t) && StartSafety.Bound(s) && StartSafety.IsStartStep(step)
    ensures StaysClaimed(s.db, Work(s, step).db, t)
  {
    StopSafety.StartStepMoves(s, step);
  }

  lemma TableStepStays(s: State, step: Step, t: Id)
    requires OpenWorkflow(s.db, t) && (step.StopClaim? || step.StopBegin? || step.StopMark?) && !StopSafety.About(s, step, t)
    ensures StaysClaimed(s.db, Work(s, step).db, t)
  {
    if step.StopMark? && Work(s, step) != s {
      StopSafety.MarkMovesOwnRow(s.db, s.threads[step.thread].transaction, step.status, step.order);
    }
  }

  lemma DispatchStays(s: State, step: Step, t: Id)
    requires Abandoned(s, t) && StartSafety.Bound(s) && (StartSafety.IsStartStep(step) || StartSafety.IsStopStep(step))
    ensures Stays(s, Work(s, step), t)
  {
    if step.StopClaim? && step.transaction == t {
      assert Work(s, step) == s;
    } else {
      if StartSafety.IsStartStep(step) {
        StopSafety.StartStepFrame(s, step, t);
        StartStepStays(s, step, t);
      } else if step.StopClaim? || step.StopBegin? || step.StopMark? {
        StopSafety.TableStepFrame(s, step, t);
        TableStepStays(s, step, t);
      } else {
        StopSafety.WireStepFrame(s, step, t);
        assert Work(s, step).db == s.db;
      }
    }
  }

  /** The claim is as abandoned as before, and nothing was sent for it. */
  ghost predicate Stays(s: State, s': State, t: Id) {
    && OpenWorkflow(s.db, t) && Abandoned(s', t) && s'.db.workflows[t] == s.db.workflows[t]
    && s'.wire[StopSent(t)] == s.wire[StopSent(t)]
  }

  lemma WorkStays(s: State, step: Step, t: Id)
    requires Abandoned(s, t) && StartSafety.Bound(s) && step.Works()
    requires s.recovery >= RECOVERY_STATEMENTS && !Releases(s, step, t)
    ensures Stays(s, Work(s, step), t)
  {
    if StartSafety.IsStartStep(step) || StartSafety.IsStopStep(step) {
      DispatchStays(s, step, t);
    } else {
      RequestStays(s, step, t);
      SameThreads(s, Work(s, step), t);
    }
  }

  lemma SameThreads(s: State, s': State, t: Id)
    requires Abandoned(s, t) && s' == s.(db := s'.db) && StaysClaimed(s.db, s'.db, t)
    ensures Stays(s, s', t)
  {
    forall i ensures !StopSafety.On(s', i, t) { assert !StopSafety.On(s, i, t); }
  }

  lemma RecoveryStays(s: State, s': State, n: nat, t: Id)
    requires Abandoned(s, t) && s'.db == RecoveredTables(s.db, n) && s'.threads == s.threads && s'.wire == s.wire
    ensures if n == STOP_CLAIMS then t in s'.db.workflows && s'.db.workflows[t] == s.db.workflows[t].(state := Persisted)
            else Stays(s, s', t)
  {
    if n != STOP_CLAIMS {
      assert StaysClaimed(s.db, s'.db, t);
      forall i ensures !StopSafety.On(s', i, t) { assert !StopSafety.On(s, i, t); }
    }
  }

  lemma CompletionReleases(s: State, t: Id, e: StopEvidence)
    requires OpenWorkflow(s.db, t) && StopAdmissible(s.db.transactions[t], e)
    ensures var s' := Work(s, ChargerStopped(t, e));
            && t in s'.db.workflows && s'.db.workflows[t].state == Completed && s'.wire == s.wire
  {
    assert SameTables(CompletedRows(s.db, t, e), Complete(s.db, t, e).0);
  }

  /** What a releasing step makes of the claim. */
  ghost predicate Released(s: State, s': State, t: Id) {
    && t in s'.db.workflows && s'.db.workflows[t].state in {Persisted, Completed}
    && s'.wire[StopSent(t)] == s.wire[StopSent(t)]
  }

  /** An abandoned claim stays as it is, and no RemoteStop leaves for it, exactly until a step releases it. */
  lemma StepReleasesIff(s: State, step: Step, t: Id)
    requires StartSafety.Sound(s) && Abandoned(s, t)
    ensures if Releases(s, step, t) then Released(s, Apply(s, step), t) else Stays(s, Apply(s, step), t)
  {
    if step.Works() {
      if s.recovery < RECOVERY_STATEMENTS {
        assert Apply(s, step) == s;
      } else if Releases(s, step, t) {
        CompletionReleases(s, t, step.stopped);
      } else {
        WorkStays(s, step, t);
      }
    } else {
      RestartReleasesIff(s, step, t);
    }
  }

  lemma RestartReleasesIff(s: State, step: Step, t: Id)
    requires Abandoned(s, t) && !step.Works()
    ensures if Releases(s, step, t) then Released(s, Apply(s, step), t) else Stays(s, Apply(s, step), t)
  {
    if step.Crash? {
      assert forall i :: !StopSafety.On(Apply(s, step), i, t);
    } else if step.OtherRecover? || s.recovery < RECOVERY_STATEMENTS {
      RecoveryStays(s, Apply(s, step), if step.OtherRecover? then step.statement else s.recovery, t);
    }
  }

  ghost predicate NeverReleased(s: State, steps: seq<Step>, t: Id)
    decreases |steps|
  {
    steps == [] || (!Releases(s, steps[0], t) && NeverReleased(Apply(s, steps[0]), steps[1..], t))
  }

  lemma {:induction false} StuckUntilReleased(s: State, steps: seq<Step>, t: Id)
    requires StartSafety.Sound(s) && Abandoned(s, t) && NeverReleased(s, steps, t)
    ensures Stays(s, Run(s, steps), t)
    decreases |steps|
  {
    if steps != [] {
      StepReleasesIff(s, steps[0], t);
      StartSafety.StepSound(s, steps[0]);
      StuckUntilReleased(Apply(s, steps[0]), steps[1..], t);
    }
  }

  /** The first releasing step of a run. */
  lemma {:induction false} FirstRelease(s: State, steps: seq<Step>, t: Id) returns (n: nat)
    requires !NeverReleased(s, steps, t)
    ensures n < |steps| && NeverReleased(s, steps[..n], t) && Releases(Run(s, steps[..n]), steps[n], t)
    decreases |steps|
  {
    n := 0;
    if !Releases(s, steps[0], t) {
      var m := FirstRelease(Apply(s, steps[0]), steps[1..], t);
      n := m + 1;
      assert steps[..n][0] == steps[0] && steps[..n][1..] == steps[1..][..m];
    }
  }

  /** If some step of a run releases the claim, the row has moved after it. */
  lemma ReleaseMoves(s: State, steps: seq<Step>, t: Id) returns (n: nat)
    requires StartSafety.Sound(s) && Abandoned(s, t) && !NeverReleased(s, steps, t)
    ensures n <= |steps| && !Stays(s, Run(s, steps[..n]), t)
  {
    var k := FirstRelease(s, steps, t);
    StuckUntilReleased(s, steps[..k], t);
    StartSafety.RunSound(s, steps[..k]);
    ReleaseIsMove(s, Run(s, steps[..k]), steps[k], t);
    n := k + 1;
    assert steps[..n] == steps[..k] + [steps[k]];
    RunOne(s, steps[..k], steps[k]);
  }

  lemma ReleaseIsMove(s: State, now: State, step: Step, t: Id)
    requires StartSafety.Sound(now) && Stays(s, now, t) && Releases(now, step, t)
    ensures !Stays(s, Apply(now, step), t)
  {
    StepReleasesIff(now, step, t);
  }

  lemma {:induction false} PrefixNeverReleased(s: State, steps: seq<Step>, n: nat, t: Id)
    requires n <= |steps| && NeverReleased(s, steps, t)
    ensures NeverReleased(s, steps[..n], t)
    decreases n
  {
    if n > 0 {
      PrefixNeverReleased(Apply(s, steps[0]), steps[1..], n - 1, t);
      assert steps[..n][1..] == steps[1..][..n - 1];
    }
  }

  lemma StuckFrom(s: State, steps: seq<Step>, t: Id)
    requires StartSafety.Sound(s) && Abandoned(s, t)
    ensures NeverReleased(s, steps, t) <==> forall n: nat :: n <= |steps| ==> Stays(s, Run(s, steps[..n]), t)
  {
    if NeverReleased(s, steps, t) {
      forall n: nat | n <= |steps| ensures Stays(s, Run(s, steps[..n]), t) {
        PrefixNeverReleased(s, steps, n, t);
        StuckUntilReleased(s, steps[..n], t);
      }
    } else {
      var n := ReleaseMoves(s, steps, t);
    }
  }

  /**
   * In any run of any number of processes: an abandoned claim stays where it is after every further
   * step if and only if none of them is a claim recovery or its accepted completion.
   */
  lemma StuckIff(steps: seq<Step>, more: seq<Step>, t: Id)
    requires Abandoned(Run(INITIAL, steps), t)
    ensures var s := Run(INITIAL, steps);
            NeverReleased(s, more, t) <==> forall n: nat :: n <= |more| ==> Stays(s, Run(s, more[..n]), t)
  {
    var s := LifecycleTheorems.Reached(steps);
    StuckFrom(s, more, t);
  }

  // ----- draining -----

  /** PERSISTED workflows of open transactions. */
  ghost function Dispatchable(db: Db): set<Id> {
    set t | t in db.workflows && OpenWorkflow(db, t) && db.workflows[t].state == Persisted
  }

  const BATCH: nat := 100

  /** Up to 100 dispatchable workflows, each once. */
  ghost predicate IsBatch(batch: seq<Id>, db: Db) {
    && |batch| == Least(BATCH, |Dispatchable(db)|)
    && ElementsOf(batch) <= Dispatchable(db)
    && (forall j, k :: 0 <= j < k < |batch| ==> batch[j] != batch[k])
  }

  /** A pass whose claims are executed: what it took is no longer dispatchable, the rest still is. */
  ghost predicate IsPass(before: Db, after: Db) {
    exists batch: seq<Id> :: IsBatch(batch, before) && Dispatchable(after) == Dispatchable(before) - ElementsOf(batch)
  }

  /** A pass lowers the number of dispatchable workflows by min(100, number). */
  lemma PassLowers(before: Db, after: Db)
    requires IsPass(before, after)
    ensures |Dispatchable(after)| == |Dispatchable(before)| - Least(BATCH, |Dispatchable(before)|)
    ensures Dispatchable(after) <= Dispatchable(before)
  {
    var batch: seq<Id> :| IsBatch(batch, before) && Dispatchable(after) == Dispatchable(before) - ElementsOf(batch);
    DistinctElements(batch);
  }

  ghost predicate ArePasses(dbs: seq<Db>) {
    dbs != [] && forall k :: 0 <= k < |dbs| - 1 ==> PassAt(dbs, k)
  }

  ghost predicate PassAt(dbs: seq<Db>, k: nat)
    requires k + 1 < |dbs|
  {
    IsPass(dbs[k], dbs[k + 1])
  }

  /** Passes drain: each takes a batch, down to none. */
  lemma {:induction false} PassesDrain(dbs: seq<Db>)
    requires ArePasses(dbs)
    ensures var n, taken := |Dispatchable(dbs[0])|, Times(BATCH, |dbs| - 1);
            |Dispatchable(dbs[|dbs| - 1])| == if taken <= n then n - taken else 0
    decreases |dbs|
  {
    if |dbs| > 1 {
      var front, k := dbs[..|dbs| - 1], |dbs| - 2;
      forall j | 0 <= j < |front| - 1 ensures PassAt(front, j) { assert PassAt(dbs, j); }
      PassesDrain(front);
      assert PassAt(dbs, k);
      PassLowers(dbs[k], dbs[k + 1]);
    }
  }

  /** So ceil(n / 100) passes leave nothing dispatchable. */
  lemma EnoughPasses(dbs: seq<Db>)
    requires ArePasses(dbs) && |dbs| - 1 >= (|Dispatchable(dbs[0])| + BATCH - 1) / BATCH
    ensures Dispatchable(dbs[|dbs| - 1]) == {}
  {
    PassesDrain(dbs);
    TimesIsProduct(BATCH, |dbs| - 1);
  }
}
