/** What a charger's answer to a remote call becomes in the tables, and what the tables say about the answers. */
module Outcomes {
  import opened Base
  import opened MeterEvidence
  import opened LifecycleTables
  import opened LifecycleSystem
  import opened LifecycleHistory
  import opened Finality
  import StartSafety
  import StopSafety
  import FactSafety

  /** A delivery state and the answer it stands for; a lost answer is AMBIGUOUS. */
  predicate Tells(state: Delivery, status: Status) {
    && (state == OcppAccepted <==> status == Accepted)
    && (state == OcppRejected <==> status == Rejected)
    && (state == Ambiguous <==> status == ResultUnavailable)
    && (state == DeliveryAttempted <==> status == OtherStatus)
  }

  /** `fact` publishes the delivery columns of command `c`. */
  predicate Publishes(fact: Fact, db: Db, c: Id) {
    c in db.commands && fact == Fact(CommandFact, c, None, CommandStatus(db.commands[c].state, db.commands[c].attempts))
  }

  // ----- one mark -----

  /** Nothing but the delivery states of `t`, its transaction and its live commands differs. */
  ghost predicate OnlyDelivery(a: Db, b: Db, t: Id)
    requires OpenWorkflow(a, t)
  {
    && b.credentials == a.credentials && b.completionKeys == a.completionKeys
    && t in b.workflows && b.workflows == a.workflows[t := a.workflows[t].(state := b.workflows[t].state)]
    && t in b.transactions && b.transactions == a.transactions[t := a.transactions[t].(stopState := b.transactions[t].stopState)]
    && b.commands.Keys == a.commands.Keys
    && (forall c :: c in a.commands ==>
          b.commands[c] == if LiveStopOf(a.commands[c], t) then a.commands[c].(state := b.commands[c].state) else a.commands[c])
  }

  /**
   * The answer to a RemoteStop: workflow, transaction and every live command of an open transaction tell it,
   * each command in one new fact; on a closed one, or without a workflow, nothing moves.
   */
  lemma StopMarkTells(db: Db, t: Id, status: Status, order: seq<Id>)
    requires Enumerates(order, LiveStops(db, t))
    ensures var after := MarkStop(db, t, status, order);
            if OpenWorkflow(db, t) && db.workflows[t].state !in {Completed, Superseded} then
              && OnlyDelivery(db, after, t)
              && Tells(after.workflows[t].state, status)
              && after.transactions[t].stopState.Some? && Tells(after.transactions[t].stopState.value, status)
              && (forall c :: c in LiveStops(db, t) ==> Tells(after.commands[c].state, status))
              && |after.facts| == |db.facts| + |order| && after.facts[..|db.facts|] == db.facts
              && (forall k :: 0 <= k < |order| ==> Publishes(after.facts[|db.facts| + k], after, order[k]))
            else after == db
  {
    if OpenWorkflow(db, t) && db.workflows[t].state !in {Completed, Superseded} {
      var rows, after := MarkedRows(db, t, DeliveryOf(status)), MarkStop(db, t, status, order);
      assert forall c :: c in order ==> c in LiveStops(db, t);
      RowsTell(db, t, status);
      MarkPublishes(rows, order, after);
      OnlyOutboxMoved(db, rows, after, t);
    }
  }

  lemma MarkPublishes(rows: Db, order: seq<Id>, after: Db)
    requires (forall c :: c in order ==> c in rows.commands) && after == CommandFacts(rows, order)
    ensures SameTables(rows, after) && after.completionKeys == rows.completionKeys
    ensures |after.facts| == |rows.facts| + |order| && after.facts[..|rows.facts|] == rows.facts
    ensures forall k :: 0 <= k < |order| ==> Publishes(after.facts[|rows.facts| + k], after, order[k])
  {
    FactsAppended(rows, order);
  }

  lemma OnlyOutboxMoved(db: Db, rows: Db, after: Db, t: Id)
    requires OpenWorkflow(db, t) && OnlyDelivery(db, rows, t) && SameTables(rows, after) && after.completionKeys == rows.completionKeys
    ensures OnlyDelivery(db, after, t)
  {}

  lemma RowsTell(db: Db, t: Id, status: Status)
    requires OpenWorkflow(db, t)
    ensures var rows := MarkedRows(db, t, DeliveryOf(status));
            && OnlyDelivery(db, rows, t) && rows.facts == db.facts && Tells(rows.workflows[t].state, status)
            && rows.transactions[t].stopState.Some? && Tells(rows.transactions[t].stopState.value, status)
            && (forall c :: c in LiveStops(db, t) ==> Tells(rows.commands[c].state, status))
  {}

  lemma {:induction false} FactsAppended(db: Db, order: seq<Id>)
    requires forall c :: c in order ==> c in db.commands
    ensures var r := CommandFacts(db, order);
            && r.completionKeys == db.completionKeys
            && |r.facts| == |db.facts| + |order| && r.facts[..|db.facts|] == db.facts
            && forall k :: 0 <= k < |order| ==> Publishes(r.facts[|db.facts| + k], db, order[k])
  {
    if order != [] { FactsAppended(db, order[..|order| - 1]); }
  }

  /** The answer to a RemoteStart: the command tells it, in one new fact, unless it is past its delivery. */
  lemma StartMarkTells(db: Db, c: Id, status: Status)
    ensures var after := MarkStart(db, c, status);
            if c in db.commands && db.commands[c].state !in {Materialized, Superseded} then
              && c in after.commands && Tells(after.commands[c].state, status)
              && Publishes(after.facts[|after.facts| - 1], after, c)
              && after == db.(commands := db.commands[c := db.commands[c].(state := after.commands[c].state)],
                              facts := db.facts + [after.facts[|after.facts| - 1]])
            else after == db
  {}

  // ----- whole runs -----

  /** The step stores the charger's answer to a RemoteStop for the still open transaction `t`. */
  ghost predicate StopAnswered(s: State, step: Step, t: Id) {
    && s.recovery >= RECOVERY_STATEMENTS && step.StopMark? && StopAt(s, step.thread, Sent)
    && s.threads[step.thread].transaction == t && Enumerates(step.order, LiveStops(s.db, t)) && OpenWorkflow(s.db, t)
  }

  predicate StopTells(db: Db, t: Id, status: Status) {
    t in db.workflows && Tells(db.workflows[t].state, status)
  }

  /** An answer decides what the workflow tells; without one only completion changes it. */
  lemma StopStepTells(s: State, step: Step, t: Id, status: Status)
    requires Sound(s) && status in {Accepted, Rejected}
    ensures var after := Apply(s, step).db;
            StopTells(after, t, status) <==>
              if StopAnswered(s, step, t) then step.status == status else StopTells(s.db, t, status) && !Done(after, t)
  {
    if StopAnswered(s, step, t) {
      AnswerStep(s, step, t);
      AnswerTells(s.db, t, step.status, step.order, status);
    } else {
      StepSound(s, step);
      StopUnanswered(s, step, t);
      TellsUnanswered(s.db, Apply(s, step).db, t, status);
    }
  }

  lemma AnswerStep(s: State, step: Step, t: Id)
    requires StopAnswered(s, step, t)
    ensures Apply(s, step).db == MarkStop(s.db, t, step.status, step.order)
  {}

  lemma AnswerTells(db: Db, t: Id, answer: Status, order: seq<Id>, status: Status)
    requires StopSafety.Rows(db) && OpenWorkflow(db, t) && Enumerates(order, LiveStops(db, t)) && status in {Accepted, Rejected}
    ensures StopTells(MarkStop(db, t, answer, order), t, status) <==> answer == status
  {
    assert StopSafety.WorkflowRow(db, t);
    StopMarkTells(db, t, answer, order);
  }

  lemma TellsUnanswered(a: Db, b: Db, t: Id, status: Status)
    requires StopSafety.Rows(a) && StopSafety.Rows(b) && Unanswered(a, b, t) && status in {Accepted, Rejected}
    ensures StopTells(b, t, status) <==> StopTells(a, t, status) && !Done(b, t)
  {
    assert t in a.workflows ==> StopSafety.WorkflowRow(a, t);
    assert t in b.workflows ==> StopSafety.WorkflowRow(b, t);
  }

  /** Without an answer the workflow keeps its state, is completed, or stays undelivered or unanswered. */
  ghost predicate Unanswered(a: Db, b: Db, t: Id) {
    && (t in a.workflows ==> t in b.workflows)
    && (t in b.workflows ==>
          || (t in a.workflows && b.workflows[t].state == a.workflows[t].state)
          || b.workflows[t].state == Completed
          || (b.workflows[t].state in {Persisted, PendingDelivery, DeliveryAttempted, Ambiguous}
              && (t in a.workflows ==> a.workflows[t].state in {Persisted, PendingDelivery, DeliveryAttempted})))
  }

  lemma StopUnanswered(s: State, step: Step, t: Id)
    requires Sound(s) && !StopAnswered(s, step, t)
    ensures Unanswered(s.db, Apply(s, step).db, t)
  {
    if !step.Works() {
      RecoveryUnanswered(s.db, if step.OtherRecover? then step.statement else s.recovery, t);
    } else if s.recovery >= RECOVERY_STATEMENTS {
      WorkUnanswered(s, step, t);
    }
  }

  lemma RecoveryUnanswered(db: Db, n: nat, t: Id)
    ensures Unanswered(db, RecoveredTables(db, n), t) && Unanswered(db, db, t)
  {}

  lemma WorkUnanswered(s: State, step: Step, t: Id)
    requires Sound(s) && step.Works() && s.recovery >= RECOVERY_STATEMENTS && !StopAnswered(s, step, t)
    ensures Unanswered(s.db, Work(s, step).db, t)
  {
    if StartSafety.IsStartStep(step) {
      StopSafety.StartStepMoves(s, step);
    } else if step.StopMark? {
      FactSafety.StopMarkStep(s, step.thread, step.status, step.order);
      if Work(s, step).db != s.db {
        MarkUnanswered(s.db, s.threads[step.thread].transaction, step.status, step.order, t);
      }
    } else if StartSafety.IsStopStep(step) {
      ClaimUnanswered(s, step, t);
    } else {
      RequestUnanswered(s, step, t);
    }
  }

  lemma MarkUnanswered(db: Db, u: Id, status: Status, order: seq<Id>, t: Id)
    requires Enumerates(order, LiveStops(db, u)) && (u == t ==> !OpenWorkflow(db, t))
    ensures Unanswered(db, MarkStop(db, u, status, order), t)
  {
    StopSafety.MarkMovesOwnRow(db, u, status, order);
  }

  lemma ClaimUnanswered(s: State, step: Step, t: Id)
    requires StartSafety.IsStopStep(step) && !step.StopMark?
    ensures Unanswered(s.db, Work(s, step).db, t)
  {}

  lemma RequestUnanswered(s: State, step: Step, t: Id)
    requires Sound(s) && step.Works() && !StartSafety.IsStartStep(step) && !StartSafety.IsStopStep(step)
    ensures Unanswered(s.db, Work(s, step).db, t)
  {
    var after := Work(s, step).db;
    match step
    case RequestStart(i) => StartRequestUnanswered(s.db, i, t); assert after == CreateStart(s.db, i).0;
    case RequestStop(i) => StopRequestUnanswered(s.db, i, t); assert after == CreateStop(s.db, i).0;
    case EnsureStop(u, cause) => EnsureUnanswered(s.db, u, cause, t); assert after == EnsureWorkflow(s.db, u, cause).0;
    case ChargerStarted(i, halId) =>
      MaterializeUnanswered(s.db, i, halId, t);
      assert after == if halId in s.db.transactions then s.db else Materialize(s.db, i, halId).0;
    case ChargerStopped(u, e) => CompleteUnanswered(s.db, u, e, t); assert after == Complete(s.db, u, e).0;
    case ChargerMetered(u, m) => TelemetryUnanswered(s.db, u, m, t); assert after == UpdateTelemetry(s.db, u, m).0;
  }

  lemma StartRequestUnanswered(db: Db, i: StartInput, t: Id)
    ensures Unanswered(db, CreateStart(db, i).0, t)
  {}

  lemma EnsureUnanswered(db: Db, u: Id, cause: StopCause, t: Id)
    ensures Unanswered(db, EnsureWorkflow(db, u, cause).0, t)
  {}

  lemma StopRequestUnanswered(db: Db, i: StopInput, t: Id)
    ensures Unanswered(db, CreateStop(db, i).0, t)
  {
    EnsureUnanswered(db, i.transaction, i.cause, t);
    if CreateStop(db, i).0 != db { StartSafety.CreateStopAdds(db, i); }
  }

  lemma MaterializeUnanswered(db: Db, i: StartEvidence, halId: Id, t: Id)
    ensures Unanswered(db, Materialize(db, i, halId).0, t) && Unanswered(db, db, t)
  {
    if Materialize(db, i, halId).0 != db {
      StartSafety.MaterializedShape(db, StartCommandFor(db, i.idTag).value, i, halId);
    }
  }

  lemma CompleteUnanswered(db: Db, u: Id, e: StopEvidence, t: Id)
    ensures Unanswered(db, Complete(db, u, e).0, t)
  {
    if u in db.transactions && !db.transactions[u].Done() && StopAdmissible(db.transactions[u], e) {
      StopSafety.CompleteCloses(db, u, e);
    }
  }

  lemma TelemetryUnanswered(db: Db, u: Id, m: Telemetry, t: Id)
    ensures Unanswered(db, UpdateTelemetry(db, u, m).0, t)
  {
    if u in db.transactions && (m.energyWh.Some? || m.soc.Some?) {
      var current := UpdatedRow(db.transactions[u], m);
      EnsureUnanswered(db.(transactions := db.transactions[u := current]), u, EnergyStopCause(current.limits), t);
      assert SameTables(TelemetryRows(db, u, m), UpdateTelemetry(db, u, m).0);
    }
  }

  ghost predicate AnsweredLast(steps: seq<Step>, n: nat, k: nat, t: Id, status: Status)
    requires n <= |steps|
  {
    && k < n && StopAnswered(Before(steps, k), steps[k], t) && steps[k].status == status
    && forall j :: k < j < n ==> !StopAnswered(Before(steps, j), steps[j], t)
  }

  ghost predicate HasLastAnswer(steps: seq<Step>, n: nat, t: Id, status: Status)
    requires n <= |steps|
  {
    exists k :: AnsweredLast(steps, n, k, t, status)
  }

  /**
   * In every run of any number of processes the workflow of a transaction is OCPP_ACCEPTED, or OCPP_REJECTED,
   * if and only if the transaction is open and the last answer stored for it was Accepted, or Rejected.
   */
  lemma {:induction false} StopTellsLastAnswer(steps: seq<Step>, n: nat, t: Id, status: Status)
    requires n <= |steps| && status in {Accepted, Rejected}
    ensures StopTells(Before(steps, n).db, t, status) <==>
              !Done(Before(steps, n).db, t) && HasLastAnswer(steps, n, t, status)
    decreases n
  {
    if n > 0 {
      StopTellsLastAnswer(steps, n - 1, t, status);
      StopTellsOn(steps, n - 1, t, status);
    }
  }

  lemma StopTellsOn(steps: seq<Step>, n: nat, t: Id, status: Status)
    requires n < |steps| && status in {Accepted, Rejected}
    requires StopTells(Before(steps, n).db, t, status) <==> !Done(Before(steps, n).db, t) && HasLastAnswer(steps, n, t, status)
    ensures StopTells(Before(steps, n + 1).db, t, status) <==> !Done(Before(steps, n + 1).db, t) && HasLastAnswer(steps, n + 1, t, status)
  {
    NextTells(steps, n, t, status);
    LastAnswerMoves(steps, n, t, status);
  }

  lemma NextTells(steps: seq<Step>, n: nat, t: Id, status: Status)
    requires n < |steps| && status in {Accepted, Rejected}
    ensures StopTells(Before(steps, n + 1).db, t, status) <==>
              if StopAnswered(Before(steps, n), steps[n], t) then steps[n].status == status
              else StopTells(Before(steps, n).db, t, status) && !Done(Before(steps, n + 1).db, t)
    ensures if StopAnswered(Before(steps, n), steps[n], t) then !Done(Before(steps, n + 1).db, t)
            else Done(Before(steps, n).db, t) ==> Done(Before(steps, n + 1).db, t)
  {
    Holds(steps, n);
    Next(steps, n);
    StopStepTells(Before(steps, n), steps[n], t, status);
    if StopAnswered(Before(steps, n), steps[n], t) {
      AnswerKeepsOpen(Before(steps, n), steps[n], t);
    } else if Done(Before(steps, n).db, t) {
      StaysDone(steps, n, n + 1, t);
    }
  }

  lemma AnswerKeepsOpen(s: State, step: Step, t: Id)
    requires StopAnswered(s, step, t)
    ensures !Done(Apply(s, step).db, t)
  {
    StopMarkTells(s.db, t, step.status, step.order);
    AnswerStep(s, step, t);
  }

  lemma LastAnswerMoves(steps: seq<Step>, n: nat, t: Id, status: Status)
    requires n < |steps|
    ensures HasLastAnswer(steps, n + 1, t, status) <==>
              if StopAnswered(Before(steps, n), steps[n], t) then steps[n].status == status else HasLastAnswer(steps, n, t, status)
  {
    if StopAnswered(Before(steps, n), steps[n], t) {
      if steps[n].status == status { assert AnsweredLast(steps, n + 1, n, t, status); }
    } else {
      if HasLastAnswer(steps, n, t, status) {
        var k :| AnsweredLast(steps, n, k, t, status);
        assert AnsweredLast(steps, n + 1, k, t, status);
      }
      if HasLastAnswer(steps, n + 1, t, status) {
        var k :| AnsweredLast(steps, n + 1, k, t, status);
        assert AnsweredLast(steps, n, k, t, status);
      }
    }
  }

  // ----- starts -----

  /** The step stores the charger's answer to a RemoteStart for command `c`, not yet past its delivery. */
  ghost predicate StartAnswered(s: State, step: Step, c: Id) {
    && s.recovery >= RECOVERY_STATEMENTS && step.StartMark? && StartAt(s, step.thread, Sent)
    && s.threads[step.thread].command == c && StartSafety.IsStart(s.db, c)
    && s.db.commands[c].state !in {Materialized, Superseded}
  }

  predicate StartTells(db: Db, c: Id, status: Status) {
    StartSafety.IsStart(db, c) && Tells(db.commands[c].state, status)
  }

  predicate BecameTransaction(db: Db, c: Id) {
    StartSafety.IsStart(db, c) && db.commands[c].state == Materialized
  }

  /** Without an answer a START command keeps its state, is materialized, or stays undelivered or unanswered. */
  ghost predicate StartUnanswered(a: Db, b: Db, c: Id) {
    && (StartSafety.IsStart(a, c) ==> StartSafety.IsStart(b, c))
    && (BecameTransaction(a, c) ==> BecameTransaction(b, c))
    && (StartSafety.IsStart(b, c) ==>
          || (StartSafety.IsStart(a, c) && b.commands[c].state == a.commands[c].state)
          || BecameTransaction(b, c)
          || (b.commands[c].state in {Persisted, PendingDelivery, DeliveryAttempted, Ambiguous}
              && (StartSafety.IsStart(a, c) ==> a.commands[c].state in {Persisted, PendingDelivery, DeliveryAttempted})))
  }

  lemma StartStepUnanswered(s: State, step: Step, c: Id)
    requires Sound(s) && !StartAnswered(s, step, c)
    ensures StartUnanswered(s.db, Apply(s, step).db, c)
  {
    if !step.Works() {
      RecoveryStartUnanswered(s.db, if step.OtherRecover? then step.statement else s.recovery, c);
    } else if s.recovery >= RECOVERY_STATEMENTS {
      if StartSafety.IsStopStep(step) {
        StartSafety.StopStepMoves(s, step);
      } else if !StartSafety.IsStartStep(step) {
        StartSafety.RequestAdvances(s, step);
      } else if step.StartMark? {
        FactSafety.StartMarkStep(s, step.thread, step.status);
        if StartAt(s, step.thread, Sent) { MarkStartUnanswered(s.db, s.threads[step.thread].command, step.status, c); }
      } else {
        ClaimStartUnanswered(s, step, c);
      }
    }
  }

  lemma RecoveryStartUnanswered(db: Db, n: nat, c: Id)
    ensures StartUnanswered(db, RecoveredTables(db, n), c)
  {}

  lemma MarkStartUnanswered(db: Db, d: Id, status: Status, c: Id)
    requires StartSafety.IsStart(db, d) && (c == d ==> db.commands[c].state in {Materialized, Superseded})
    ensures StartUnanswered(db, MarkStart(db, d, status), c)
  {
    StartMarkTells(db, d, status);
  }

  lemma ClaimStartUnanswered(s: State, step: Step, c: Id)
    requires step.StartClaim? || step.StartBegin? || step.StartSend?
    ensures StartUnanswered(s.db, Work(s, step).db, c)
  {}

  lemma StartStepTells(s: State, step: Step, c: Id, status: Status)
    requires Sound(s) && status in {Accepted, Rejected}
    ensures var after := Apply(s, step).db;
            StartTells(after, c, status) <==>
              if StartAnswered(s, step, c) then step.status == status else StartTells(s.db, c, status) && !BecameTransaction(after, c)
    ensures var after := Apply(s, step).db;
            if StartAnswered(s, step, c) then !BecameTransaction(after, c) else BecameTransaction(s.db, c) ==> BecameTransaction(after, c)
  {
    if StartAnswered(s, step, c) {
      StartMarkTells(s.db, c, step.status);
      assert Apply(s, step).db == MarkStart(s.db, c, step.status);
    } else {
      StartStepUnanswered(s, step, c);
    }
  }

  ghost predicate StartAnsweredLast(steps: seq<Step>, n: nat, k: nat, c: Id, status: Status)
    requires n <= |steps|
  {
    && k < n && StartAnswered(Before(steps, k), steps[k], c) && steps[k].status == status
    && forall j :: k < j < n ==> !StartAnswered(Before(steps, j), steps[j], c)
  }

  ghost predicate HasLastStartAnswer(steps: seq<Step>, n: nat, c: Id, status: Status)
    requires n <= |steps|
  {
    exists k :: StartAnsweredLast(steps, n, k, c, status)
  }

  /**
   * In every run a START command is OCPP_ACCEPTED, or OCPP_REJECTED, if and only if no transaction has come
   * of it and the last answer stored for it was Accepted, or Rejected.
   */
  lemma {:induction false} StartTellsLastAnswer(steps: seq<Step>, n: nat, c: Id, status: Status)
    requires n <= |steps| && status in {Accepted, Rejected}
    ensures StartTells(Before(steps, n).db, c, status) <==>
              !BecameTransaction(Before(steps, n).db, c) && HasLastStartAnswer(steps, n, c, status)
    decreases n
  {
    if n > 0 {
      StartTellsLastAnswer(steps, n - 1, c, status);
      StartTellsOn(steps, n - 1, c, status);
    }
  }

  lemma StartTellsOn(steps: seq<Step>, n: nat, c: Id, status: Status)
    requires n < |steps| && status in {Accepted, Rejected}
    requires StartTells(Before(steps, n).db, c, status) <==>
               !BecameTransaction(Before(steps, n).db, c) && HasLastStartAnswer(steps, n, c, status)
    ensures StartTells(Before(steps, n + 1).db, c, status) <==>
              !BecameTransaction(Before(steps, n + 1).db, c) && HasLastStartAnswer(steps, n + 1, c, status)
  {
    NextStartTells(steps, n, c, status);
    LastStartAnswerMoves(steps, n, c, status);
  }

  lemma NextStartTells(steps: seq<Step>, n: nat, c: Id, status: Status)
    requires n < |steps| && status in {Accepted, Rejected}
    ensures StartTells(Before(steps, n + 1).db, c, status) <==>
              if StartAnswered(Before(steps, n), steps[n], c) then steps[n].status == status
              else StartTells(Before(steps, n).db, c, status) && !BecameTransaction(Before(steps, n + 1).db, c)
    ensures if StartAnswered(Before(steps, n), steps[n], c) then !BecameTransaction(Before(steps, n + 1).db, c)
            else BecameTransaction(Before(steps, n).db, c) ==> BecameTransaction(Before(steps, n + 1).db, c)
  {
    Holds(steps, n);
    Next(steps, n);
    StartStepTells(Before(steps, n), steps[n], c, status);
  }

  lemma LastStartAnswerMoves(steps: seq<Step>, n: nat, c: Id, status: Status)
    requires n < |steps|
    ensures HasLastStartAnswer(steps, n + 1, c, status) <==>
              if StartAnswered(Before(steps, n), steps[n], c) then steps[n].status == status
              else HasLastStartAnswer(steps, n, c, status)
  {
    if StartAnswered(Before(steps, n), steps[n], c) {
      if steps[n].status == status { assert StartAnsweredLast(steps, n + 1, n, c, status); }
    } else {
      if HasLastStartAnswer(steps, n, c, status) {
        var k :| StartAnsweredLast(steps, n, k, c, status);
        assert StartAnsweredLast(steps, n + 1, k, c, status);
      }
      if HasLastStartAnswer(steps, n + 1, c, status) {
        var k :| StartAnsweredLast(steps, n + 1, k, c, status);
        assert StartAnsweredLast(steps, n, k, c, status);
      }
    }
  }

  // ----- recovery -----

  predicate Recovered(before: Delivery, after: Delivery) {
    && (before == PendingDelivery ==> after == Persisted)
    && (before == DeliveryAttempted ==> after == Ambiguous)
    && (before !in {PendingDelivery, DeliveryAttempted} ==> after == before)
  }

  const RECOVERY: seq<Step> := [Recover, Recover, Recover, Recover]

  /** The recovery of a start frees unsent claims and gives attempts up as AMBIGUOUS; no other column or row moves. */
  lemma RecoverySettles(s: State)
    requires s.recovery == 0
    ensures var after := Run(s, RECOVERY);
            && after.recovery == RECOVERY_STATEMENTS && after.threads == s.threads && after.wire == s.wire
            && after.db == s.db.(commands := after.db.commands, workflows := after.db.workflows)
            && after.db.commands.Keys == s.db.commands.Keys && after.db.workflows.Keys == s.db.workflows.Keys
            && (forall c :: c in s.db.commands ==>
                  && after.db.commands[c] == s.db.commands[c].(state := after.db.commands[c].state)
                  && if s.db.commands[c].kind.Start? then Recovered(s.db.commands[c].state, after.db.commands[c].state)
                     else after.db.commands[c] == s.db.commands[c])
            && (forall t :: t in s.db.workflows ==>
                  && after.db.workflows[t] == s.db.workflows[t].(state := after.db.workflows[t].state)
                  && Recovered(s.db.workflows[t].state, after.db.workflows[t].state))
  {
    FourStatements(s);
    StartsSettle(s.db);
    StopsSettle(BothStarts(s.db));
  }

  function BothStarts(db: Db): Db {
    RecoveredTables(RecoveredTables(db, START_CLAIMS), START_ATTEMPTS)
  }

  function BothStops(db: Db): Db {
    RecoveredTables(RecoveredTables(db, STOP_CLAIMS), STOP_ATTEMPTS)
  }

  lemma FourStatements(s: State)
    requires s.recovery == 0
    ensures Run(s, RECOVERY) == s.(db := BothStops(BothStarts(s.db)), recovery := RECOVERY_STATEMENTS)
  {
    var s1 := Apply(s, Recover);
    var s2 := Apply(s1, Recover);
    var s3 := Apply(s2, Recover);
    Unroll(s, RECOVERY);
    Unroll(s1, RECOVERY[1..]);
    Unroll(s2, RECOVERY[2..]);
    Unroll(s3, RECOVERY[3..]);
  }

  lemma StartsSettle(db: Db)
    ensures var r := BothStarts(db);
            && r == db.(commands := r.commands) && r.commands.Keys == db.commands.Keys
            && forall c :: c in db.commands ==>
                 && r.commands[c] == db.commands[c].(state := r.commands[c].state)
                 && if db.commands[c].kind.Start? then Recovered(db.commands[c].state, r.commands[c].state)
                    else r.commands[c] == db.commands[c]
  {}

  lemma StopsSettle(db: Db)
    ensures var r := BothStops(db);
            && r == db.(workflows := r.workflows) && r.workflows.Keys == db.workflows.Keys
            && forall t :: t in db.workflows ==>
                 && r.workflows[t] == db.workflows[t].(state := r.workflows[t].state)
                 && Recovered(db.workflows[t].state, r.workflows[t].state)
  {}
}
