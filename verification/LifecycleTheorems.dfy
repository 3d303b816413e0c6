/**
 * The promises of the transaction lifecycle. What the tables say holds over every run of any number of processes with
 * crashes; at most one send holds exactly as long as no process recovers a claim from under another one's dispatcher.
 */
module LifecycleTheorems {
  import opened Base
  import opened MeterEvidence
  import opened LifecycleTables
  import opened LifecycleSystem
  import opened Finality
  import StartSafety
  import StopSafety
  import FactSafety

  lemma {:induction false} Reached(steps: seq<Step>) returns (s: State)
    ensures s == Run(INITIAL, steps) && Sound(s) && FactSafety.Inv(s.db)
  {
    s := Run(INITIAL, steps);
    RunFinal(INITIAL, steps);
    assert forall t :: FactSafety.FactsFor([], t) == FactSafety.NOTHING;
    FactSafety.RunKeeps(INITIAL, steps);
  }

  // ----- physical sends -----

  lemma CoveredStops(steps: seq<Step>, t: Id)
    requires OneProcess(steps) || StopSafety.Undisturbed(INITIAL, steps, t)
    ensures StopSafety.Guarded(Run(INITIAL, steps), t)
  {
    if OneProcess(steps) {
      StopSafety.OneProcessIsUndisturbed(INITIAL, steps, t);
    }
    StopSafety.RunGuarded(INITIAL, steps, t);
  }

  /** At most one RemoteStop per transaction, and only under a committed delivery attempt. */
  lemma AtMostOneRemoteStop(steps: seq<Step>, t: Id)
    ensures var s := Run(INITIAL, steps);
            && StopSafety.Attempts(s.db, t) <= 1
            && (OneProcess(steps) || StopSafety.Undisturbed(INITIAL, steps, t) ==>
                  s.wire[StopSent(t)] <= StopSafety.Attempts(s.db, t))
  {
    var s := Reached(steps);
    assert t in s.db.workflows ==> StopSafety.WorkflowRow(s.db, t);
    if OneProcess(steps) || StopSafety.Undisturbed(INITIAL, steps, t) {
      CoveredStops(steps, t);
    }
  }

  /** At most one RemoteStart per command, and none before its delivery was claimed. */
  lemma AtMostOneRemoteStart(steps: seq<Step>, c: Id)
    ensures OneProcess(steps) || StartSafety.Undisturbed(INITIAL, steps, c) ==>
              var s := Run(INITIAL, steps);
              && s.wire[StartSent(c)] <= 1
              && (s.wire[StartSent(c)] == 1 ==>
                    && StartSafety.IsStart(s.db, c) && s.db.commands[c].state !in {Persisted, PendingDelivery}
                    && (s.db.commands[c].attempts == 1 || s.db.commands[c].state == Materialized))
  {
    if OneProcess(steps) {
      StartSafety.OneProcessIsUndisturbed(INITIAL, steps, c);
    }
    if StartSafety.Undisturbed(INITIAL, steps, c) {
      StartSafety.RunGuarded(INITIAL, steps, c);
    }
  }

  // ----- a second process -----

  /** However a run goes on without disturbing claims of `t`, no second RemoteStop leaves for it. */
  ghost predicate StopsOnce(s: State, t: Id) {
    forall more: seq<Step> :: StopSafety.Undisturbed(s, more, t) ==> Run(s, more).wire[StopSent(t)] <= 1
  }

  /**
   * A recovery statement of another process keeps RemoteStops at one per transaction if and only if
   * it does not return claims to PERSISTED while a dispatcher stands between its claim and the attempt
   * on the still open transaction.
   */
  lemma OtherRecoveryIff(steps: seq<Step>, t: Id, n: nat)
    requires StopSafety.Undisturbed(INITIAL, steps, t)
    ensures var s := Run(INITIAL, steps);
            StopsOnce(Apply(s, OtherRecover(n)), t) <==> !(n == STOP_CLAIMS && StopSafety.Exposed(s, t))
  {
    var s := Reached(steps);
    StopSafety.RunGuarded(INITIAL, steps, t);
    if n == STOP_CLAIMS && StopSafety.Exposed(s, t) {
      ExposedStopsTwice(s, t);
    } else {
      StopSafety.StepGuarded(s, OtherRecover(n), t);
      StepSound(s, OtherRecover(n));
      GuardedStopsOnce(Apply(s, OtherRecover(n)), t);
    }
  }

  lemma ExposedStopsTwice(s: State, t: Id)
    requires Sound(s) && StopSafety.Guarded(s, t) && StopSafety.Exposed(s, t)
    ensures !StopsOnce(Apply(s, OtherRecover(STOP_CLAIMS)), t)
  {
    var i :| StopSafety.On(s, i, t) && s.threads[i].pc == Claimed;
    assert StopSafety.ThreadRow(s.db, s.wire, t, Claimed) && StopSafety.WorkflowRow(s.db, t);
    ClaimReturned(s, t, i);
  }

  lemma ClaimReturned(s: State, t: Id, i: Id)
    requires Dispatching(s, i, t, Claimed) && s.db.workflows[t].state == PendingDelivery
    ensures !StopsOnce(Apply(s, OtherRecover(STOP_CLAIMS)), t)
  {
    var j := FreshThread(s);
    SecondProcessSendsTwice(s, t, i, j);
    var after, more := Apply(s, OtherRecover(STOP_CLAIMS)), BothStop(t, i, j);
    StopSafety.OneProcessIsUndisturbed(after, more, t);
    assert StopSafety.Undisturbed(after, more, t) && Run(after, more).wire[StopSent(t)] > 1;
  }

  lemma GuardedStopsOnce(s: State, t: Id)
    requires Sound(s) && StopSafety.Guarded(s, t)
    ensures StopsOnce(s, t)
  {
    forall more: seq<Step> | StopSafety.Undisturbed(s, more, t) ensures Run(s, more).wire[StopSent(t)] <= 1 {
      StopSafety.RunGuarded(s, more, t);
      RunFinal(s, more);
      assert t in Run(s, more).db.workflows ==> StopSafety.WorkflowRow(Run(s, more).db, t);
    }
  }

  lemma FreshThread(s: State) returns (j: Id)
    ensures j !in s.threads
  {
    j := Above(s.threads.Keys);
    assert j !in s.threads.Keys;
  }

  lemma {:induction false} Above(ids: set<Id>) returns (bound: Id)
    ensures forall i :: i in ids ==> i < bound
    decreases |ids|
  {
    bound := 0;
    if ids != {} {
      var i :| i in ids;
      var rest := Above(ids - {i});
      bound := if i < rest then rest else i + 1;
      assert forall k :: k in ids ==> k == i || k in ids - {i};
    }
  }

  /** What a dispatcher does once it holds a claim. */
  function StopDelivery(i: Id): seq<Step> {
    [StopBegin(i), StopCheck(i), StopSend(i)]
  }

  /** A dispatcher of the other process claims and sends, then the first one goes on. */
  function BothStop(t: Id, i: Id, j: Id): seq<Step> {
    [StopClaim(j, t)] + StopDelivery(j) + StopDelivery(i)
  }

  /** Dispatcher `i` of `t` at `pc`, the transaction open and the process up. */
  ghost predicate Dispatching(s: State, i: Id, t: Id, pc: Pc) {
    s.recovery >= RECOVERY_STATEMENTS && i in s.threads && s.threads[i] == StopThread(t, pc) && OpenWorkflow(s.db, t)
  }

  lemma Begins(s: State, i: Id, t: Id)
    requires Dispatching(s, i, t, Claimed)
    ensures var s' := Apply(s, StopBegin(i));
            Dispatching(s', i, t, Begun) && s'.wire == s.wire && s'.threads == s.threads[i := StopThread(t, Begun)]
  {}

  lemma Checks(s: State, i: Id, t: Id)
    requires Dispatching(s, i, t, Begun)
    ensures var s' := Apply(s, StopCheck(i));
            Dispatching(s', i, t, Ready) && s'.wire == s.wire && s'.threads == s.threads[i := StopThread(t, Ready)]
  {}

  lemma Sends(s: State, i: Id, t: Id)
    requires Dispatching(s, i, t, Ready)
    ensures var s' := Apply(s, StopSend(i));
            && Dispatching(s', i, t, Sent) && s'.wire == s.wire + multiset{StopSent(t)}
            && s'.threads == s.threads[i := StopThread(t, Sent)]
  {}

  /** On an open transaction a claimed dispatcher sends, whatever state the row is in. */
  lemma ClaimedDispatcherSends(s: State, i: Id, t: Id)
    requires Dispatching(s, i, t, Claimed)
    ensures var s' := Run(s, StopDelivery(i));
            && Dispatching(s', i, t, Sent) && s'.wire == s.wire + multiset{StopSent(t)}
            && s'.threads == s.threads[i := StopThread(t, Sent)]
  {
    var s1 := Apply(s, StopBegin(i));
    var s2 := Apply(s1, StopCheck(i));
    Begins(s, i, t);
    Checks(s1, i, t);
    Sends(s2, i, t);
    ThreeSteps(s, StopBegin(i), StopCheck(i), StopSend(i));
  }

  lemma ThreeSteps(s: State, a: Step, b: Step, c: Step)
    ensures Run(s, [a, b, c]) == Apply(Apply(Apply(s, a), b), c)
  {
    assert [a, b, c] == [a, b] + [c] && [a, b] == [a] + [b] && [a] == [] + [a];
    RunOne(s, [a, b], c);
    RunOne(s, [a], b);
    RunOne(s, [], a);
  }

  lemma ReclaimedByOther(s: State, t: Id, i: Id, j: Id)
    requires Dispatching(s, i, t, Claimed) && s.db.workflows[t].state == PendingDelivery && j !in s.threads
    ensures var s' := Apply(Apply(s, OtherRecover(STOP_CLAIMS)), StopClaim(j, t));
            && s'.wire == s.wire && s'.threads == s.threads[j := StopThread(t, Claimed)]
            && Dispatching(s', i, t, Claimed) && Dispatching(s', j, t, Claimed)
  {}

  /**
   * Another process that returns the claim of any dispatcher still before its attempt makes two
   * RemoteStops possible: its own and the one of the dispatcher that goes on.
   */
  lemma SecondProcessSendsTwice(s: State, t: Id, i: Id, j: Id)
    requires Dispatching(s, i, t, Claimed) && s.db.workflows[t].state == PendingDelivery && j !in s.threads
    ensures Run(Apply(s, OtherRecover(STOP_CLAIMS)), BothStop(t, i, j)).wire[StopSent(t)] == s.wire[StopSent(t)] + 2
  {
    var recovered := Apply(s, OtherRecover(STOP_CLAIMS));
    var reclaimed := Apply(recovered, StopClaim(j, t));
    ReclaimedByOther(s, t, i, j);
    ClaimedDispatcherSends(reclaimed, j, t);
    ClaimedDispatcherSends(Run(reclaimed, StopDelivery(j)), i, t);
    RunConcat(recovered, [StopClaim(j, t)] + StopDelivery(j), StopDelivery(i));
    RunConcat(recovered, [StopClaim(j, t)], StopDelivery(j));
    RunOne(recovered, [], StopClaim(j, t));
    assert [] + [StopClaim(j, t)] == [StopClaim(j, t)];
  }

  /** However a run goes on without disturbing claims of `c`, no second RemoteStart leaves for it. */
  ghost predicate StartsOnce(s: State, c: Id) {
    forall more: seq<Step> :: StartSafety.Undisturbed(s, more, c) ==> Run(s, more).wire[StartSent(c)] <= 1
  }

  /** The same for RemoteStart: only a claim returned from under its dispatcher makes a second send possible. */
  lemma OtherStartRecoveryIff(steps: seq<Step>, c: Id, n: nat)
    requires StartSafety.Undisturbed(INITIAL, steps, c)
    ensures var s := Run(INITIAL, steps);
            StartsOnce(Apply(s, OtherRecover(n)), c) <==> !(n == START_CLAIMS && StartSafety.Exposed(s, c))
  {
    var s := Reached(steps);
    StartSafety.RunGuarded(INITIAL, steps, c);
    if n == START_CLAIMS && StartSafety.Exposed(s, c) {
      ExposedStartsTwice(s, c);
    } else {
      StartSafety.StepGuarded(s, OtherRecover(n), c);
      StepSound(s, OtherRecover(n));
      GuardedStartsOnce(Apply(s, OtherRecover(n)), c);
    }
  }

  lemma ExposedStartsTwice(s: State, c: Id)
    requires Recovering(s) && StartSafety.Exposed(s, c)
    ensures !StartsOnce(Apply(s, OtherRecover(START_CLAIMS)), c)
  {
    var i :| StartSafety.On(s, i, c) && s.threads[i].pc == Claimed;
    var j := FreshThread(s);
    SecondProcessStartsTwice(s, c, i, j);
    var after, more := Apply(s, OtherRecover(START_CLAIMS)), BothStart(c, i, j);
    StartSafety.OneProcessIsUndisturbed(after, more, c);
    assert StartSafety.Undisturbed(after, more, c) && Run(after, more).wire[StartSent(c)] > 1;
  }

  lemma GuardedStartsOnce(s: State, c: Id)
    requires Sound(s) && StartSafety.Guarded(s, c)
    ensures StartsOnce(s, c)
  {
    forall more: seq<Step> | StartSafety.Undisturbed(s, more, c) ensures Run(s, more).wire[StartSent(c)] <= 1 {
      StartSafety.RunGuarded(s, more, c);
    }
  }

  function StartDelivery(i: Id): seq<Step> {
    [StartBegin(i), StartSend(i)]
  }

  function BothStart(c: Id, i: Id, j: Id): seq<Step> {
    [StartClaim(j, c)] + StartDelivery(j) + StartDelivery(i)
  }

  /** A claimed RemoteStart dispatcher sends, whatever state the row is in. */
  lemma ClaimedStartSends(s: State, i: Id, c: Id)
    requires s.recovery >= RECOVERY_STATEMENTS && i in s.threads && s.threads[i] == StartThread(c, Claimed)
    ensures var s' := Run(s, StartDelivery(i));
            && s'.recovery == s.recovery && s'.wire == s.wire + multiset{StartSent(c)}
            && s'.threads == s.threads[i := StartThread(c, Sent)]
  {
    var s1 := Apply(s, StartBegin(i));
    assert s1.threads == s.threads[i := StartThread(c, Begun)] && s1.wire == s.wire;
    assert StartDelivery(i) == [StartBegin(i)] + [StartSend(i)] && [StartBegin(i)] == [] + [StartBegin(i)];
    RunOne(s, [StartBegin(i)], StartSend(i));
    RunOne(s, [], StartBegin(i));
  }

  lemma SecondProcessStartsTwice(s: State, c: Id, i: Id, j: Id)
    requires s.recovery >= RECOVERY_STATEMENTS && i in s.threads && s.threads[i] == StartThread(c, Claimed) && j !in s.threads
    requires StartSafety.IsStart(s.db, c) && s.db.commands[c].state == PendingDelivery
    ensures Run(Apply(s, OtherRecover(START_CLAIMS)), BothStart(c, i, j)).wire[StartSent(c)] == s.wire[StartSent(c)] + 2
  {
    var recovered := Apply(s, OtherRecover(START_CLAIMS));
    var reclaimed := Apply(recovered, StartClaim(j, c));
    assert reclaimed.threads == s.threads[j := StartThread(c, Claimed)] && reclaimed.wire == s.wire;
    ClaimedStartSends(reclaimed, j, c);
    ClaimedStartSends(Run(reclaimed, StartDelivery(j)), i, c);
    RunConcat(recovered, [StartClaim(j, c)] + StartDelivery(j), StartDelivery(i));
    RunConcat(recovered, [StartClaim(j, c)], StartDelivery(j));
    RunOne(recovered, [], StartClaim(j, c));
    assert [] + [StartClaim(j, c)] == [StartClaim(j, c)];
  }

  // ----- attempts on record -----

  /**
   * Whatever the state, a claimed RemoteStart dispatcher that begins and sends puts an attempt on
   * record if and only if the row still shows a claim; otherwise it sends and no table moves.
   */
  lemma AttemptRecordedIff(s: State, c: Id, i: Id)
    requires s.recovery >= RECOVERY_STATEMENTS && i in s.threads && s.threads[i] == StartThread(c, Claimed)
    requires StartSafety.IsStart(s.db, c)
    ensures var s' := Apply(Apply(s, StartBegin(i)), StartSend(i));
            && s'.wire[StartSent(c)] == s.wire[StartSent(c)] + 1
            && c in s'.db.commands
            && (s'.db.commands[c].attempts == s.db.commands[c].attempts + 1 <==> s.db.commands[c].state == PendingDelivery)
            && (s.db.commands[c].state != PendingDelivery ==> s'.db == s.db)
  {
    var s1 := Apply(s, StartBegin(i));
    assert StartAt(s1, i, Begun) && s1.threads[i].command == c;
  }

  /** In particular a materialized command is sent for with nothing recorded. */
  lemma StartSentWithoutAttempt(s: State, c: Id, i: Id)
    requires s.recovery >= RECOVERY_STATEMENTS && i in s.threads && s.threads[i] == StartThread(c, Claimed)
    requires StartSafety.IsStart(s.db, c) && s.db.commands[c].state == Materialized
    ensures var s' := Apply(Apply(s, StartBegin(i)), StartSend(i));
            s'.wire[StartSent(c)] == s.wire[StartSent(c)] + 1 && s'.db == s.db
  {
    AttemptRecordedIff(s, c, i);
  }

  /** The same of RemoteStop on an open transaction: the recheck does not look at the delivery state. */
  lemma StopAttemptRecordedIff(s: State, t: Id, i: Id)
    requires Dispatching(s, i, t, Claimed)
    ensures var s' := Run(s, StopDelivery(i));
            && s'.wire[StopSent(t)] == s.wire[StopSent(t)] + 1 && t in s'.db.workflows
            && (s'.db.workflows[t].attempts == s.db.workflows[t].attempts + 1 <==> s.db.workflows[t].state == PendingDelivery)
            && (s.db.workflows[t].state != PendingDelivery ==> s'.db == s.db)
  {
    ClaimedDispatcherSends(s, i, t);
    var s1 := Apply(s, StopBegin(i));
    var s2 := Apply(s1, StopCheck(i));
    Begins(s, i, t);
    Checks(s1, i, t);
    ThreeSteps(s, StopBegin(i), StopCheck(i), StopSend(i));
    assert Apply(s2, StopSend(i)).db == s2.db == s1.db == BeginStop(s.db, t);
  }

  /** The step is a move of thread `i` or kills it. */
  predicate Moves(step: Step, i: Id) {
    match step
    case StartBegin(j) => i == j
    case StartSend(j) => i == j
    case StartMark(j, _) => i == j
    case StopBegin(j) => i == j
    case StopCheck(j) => i == j
    case StopSend(j) => i == j
    case StopMark(j, _, _) => i == j
    case Abandon(j) => i == j
    case Crash => true
    case _ => false
  }

  predicate LeaveAlone(steps: seq<Step>, i: Id) {
    forall k :: 0 <= k < |steps| ==> !Moves(steps[k], i)
  }

  lemma {:induction false} ThreadStays(s: State, steps: seq<Step>, i: Id)
    requires i in s.threads && s.recovery >= RECOVERY_STATEMENTS && LeaveAlone(steps, i)
    ensures var s' := Run(s, steps); i in s'.threads && s'.threads[i] == s.threads[i] && s'.recovery == s.recovery
    decreases |steps|
  {
    if steps != [] {
      assert !Moves(steps[0], i);
      ThreadStays(Apply(s, steps[0]), steps[1..], i);
    }
  }

  /** A run in which thread `i`, claimed for `c` after `steps`, begins after `before` and is about to send after `between`. */
  function Attempted(steps: seq<Step>, before: seq<Step>, between: seq<Step>, i: Id): seq<Step> {
    steps + before + [StartBegin(i)] + between
  }

  /**
   * Over runs, with anything happening between claim, attempt and send: the send leaves in any case, and
   * the attempt is recorded iff the row shows the claim when the dispatcher begins.
   */
  lemma AttemptOverRuns(steps: seq<Step>, before: seq<Step>, between: seq<Step>, c: Id, i: Id)
    requires StartAt(Run(INITIAL, steps), i, Claimed) && Run(INITIAL, steps).threads[i].command == c
    requires LeaveAlone(before, i) && LeaveAlone(between, i)
    ensures var claimed := Run(INITIAL, steps + before);
            var begun := Apply(claimed, StartBegin(i));
            var ready := Run(INITIAL, Attempted(steps, before, between, i));
            && StartSafety.IsStart(claimed.db, c) && c in begun.db.commands
            && (begun.db.commands[c].attempts == claimed.db.commands[c].attempts + 1
                <==> claimed.db.commands[c].state == PendingDelivery)
            && (claimed.db.commands[c].state != PendingDelivery ==> begun.db == claimed.db)
            && StartAt(ready, i, Begun) && ready.threads[i].command == c
            && Apply(ready, StartSend(i)).wire[StartSent(c)] == ready.wire[StartSent(c)] + 1
  {
    ClaimStays(steps, before, c, i);
    var claimed := Run(INITIAL, steps + before);
    AttemptRecordedIff(claimed, c, i);
    BegunStays(claimed, between, c, i);
    RunOne(INITIAL, steps + before, StartBegin(i));
    RunConcat(INITIAL, steps + before + [StartBegin(i)], between);
    SendsFromBegun(Run(INITIAL, Attempted(steps, before, between, i)), c, i);
  }

  lemma ClaimStays(steps: seq<Step>, before: seq<Step>, c: Id, i: Id)
    requires StartAt(Run(INITIAL, steps), i, Claimed) && Run(INITIAL, steps).threads[i].command == c && LeaveAlone(before, i)
    ensures var claimed := Run(INITIAL, steps + before);
            && StartAt(claimed, i, Claimed) && claimed.threads[i].command == c && claimed.recovery >= RECOVERY_STATEMENTS
            && StartSafety.IsStart(claimed.db, c)
  {
    var s := Reached(steps);
    var claimed := Reached(steps + before);
    RunConcat(INITIAL, steps, before);
    ThreadStays(s, before, i);
  }

  lemma BegunStays(claimed: State, between: seq<Step>, c: Id, i: Id)
    requires claimed.recovery >= RECOVERY_STATEMENTS && i in claimed.threads && claimed.threads[i] == StartThread(c, Claimed)
    requires LeaveAlone(between, i)
    ensures var ready := Run(Apply(claimed, StartBegin(i)), between);
            StartAt(ready, i, Begun) && ready.threads[i].command == c && ready.recovery >= RECOVERY_STATEMENTS
  {
    var begun := Apply(claimed, StartBegin(i));
    assert begun.threads[i] == StartThread(c, Begun) && begun.recovery == claimed.recovery;
    ThreadStays(begun, between, i);
  }

  lemma SendsFromBegun(ready: State, c: Id, i: Id)
    requires StartAt(ready, i, Begun) && ready.threads[i].command == c && ready.recovery >= RECOVERY_STATEMENTS
    ensures Apply(ready, StartSend(i)).wire[StartSent(c)] == ready.wire[StartSent(c)] + 1
  {}

  /** In a run that does not disturb the claims of `c`, the row shows the claim unless it was materialized. */
  lemma UndisturbedAttempt(steps: seq<Step>, before: seq<Step>, c: Id, i: Id)
    requires StartAt(Run(INITIAL, steps), i, Claimed) && Run(INITIAL, steps).threads[i].command == c && LeaveAlone(before, i)
    requires OneProcess(steps + before) || StartSafety.Undisturbed(INITIAL, steps + before, c)
    ensures var row := Run(INITIAL, steps + before).db.commands;
            c in row && row[c].attempts == 0 && (row[c].state == PendingDelivery <==> row[c].state != Materialized)
  {
    var s := Reached(steps);
    RunConcat(INITIAL, steps, before);
    ThreadStays(s, before, i);
    if OneProcess(steps + before) {
      StartSafety.OneProcessIsUndisturbed(INITIAL, steps + before, c);
    }
    StartSafety.RunGuarded(INITIAL, steps + before, c);
    assert StartSafety.On(Run(INITIAL, steps + before), i, c);
  }

  // ----- completion -----

  /** Transaction, stop state, workflow, stop commands and facts agree about completion. */
  lemma CompletionAgrees(steps: seq<Step>, t: Id)
    ensures var db := Run(INITIAL, steps).db;
            t in db.transactions ==>
              var done := db.transactions[t].Done();
              && (done <==> db.transactions[t].stopState == Some(Completed))
              && (t in db.workflows ==> (done <==> db.workflows[t].state == Completed))
              && (forall c :: c in db.commands && db.commands[c].kind.Stop? && db.commands[c].kind.workflow == t ==>
                    (done <==> db.commands[c].state == Superseded))
              && |FactsOf(db.facts, CompletedFact, t)| == (if done then 1 else 0)
              && (done ==> FactsOf(db.facts, CompletedFact, t)[0].payload ==
                           Completion(db.transactions[t].meterStart, db.transactions[t].stop, db.transactions[t].cause))
  {
    var s := Reached(steps);
    if t in s.db.transactions {
      assert StopSafety.TransactionRow(s.db, t) && FactSafety.TransactionFacts(s.db, t);
      assert t in s.db.workflows ==> StopSafety.WorkflowRow(s.db, t);
      forall c | c in s.db.commands && s.db.commands[c].kind.Stop? && s.db.commands[c].kind.workflow == t
        ensures s.db.transactions[t].Done() <==> s.db.commands[c].state == Superseded
      {
        assert StopSafety.StopCommandRow(s.db, c);
      }
    }
  }

  /** Nothing a completed transaction consists of ever changes, and nobody stops it again. */
  lemma CompletionIsFinal(steps: seq<Step>, more: seq<Step>, t: Id)
    requires Done(Run(INITIAL, steps).db, t)
    ensures var a := Run(INITIAL, steps).db;
            var b := Run(Run(INITIAL, steps), more).db;
            && t in b.transactions && b.transactions[t] == a.transactions[t]
            && (t in a.workflows <==> t in b.workflows)
            && (t in a.workflows ==> b.workflows[t] == a.workflows[t])
            && (forall c :: c in b.commands && b.commands[c].kind.Stop? && b.commands[c].kind.workflow == t ==>
                  c in a.commands && a.commands[c] == b.commands[c])
  {
    var s := Reached(steps);
    RunFinal(s, more);
    FinalCompletion(s.db, Run(s, more).db, t);
  }

  lemma FinalCompletion(a: Db, b: Db, t: Id)
    requires Final(a, b) && Done(a, t)
    ensures t in b.transactions && b.transactions[t] == a.transactions[t]
    ensures t in a.workflows <==> t in b.workflows
    ensures t in a.workflows ==> b.workflows[t] == a.workflows[t]
    ensures forall c :: c in b.commands && b.commands[c].kind.Stop? && b.commands[c].kind.workflow == t ==>
              c in a.commands && a.commands[c] == b.commands[c]
  {
    assert FinalTransaction(a, b, t);
    assert t in a.workflows ==> FinalWorkflow(a, b, t);
    forall c | c in b.commands && b.commands[c].kind.Stop? && b.commands[c].kind.workflow == t
      ensures c in a.commands && a.commands[c] == b.commands[c]
    {
      assert c in a.commands ==> FinalCommand(a, b, c);
    }
  }

  /** Later states respect what the step just committed. */
  lemma AfterStep(steps: seq<Step>, step: Step, more: seq<Step>)
    ensures var s1 := Apply(Run(INITIAL, steps), step);
            Final(s1.db, Run(s1, more).db)
  {
    var s := Reached(steps);
    StepFinal(s, step);
    RunFinal(Apply(s, step), more);
  }

  /** The first stop cause wins: later requests, limits and deadlines never overwrite it. */
  lemma FirstCauseWins(steps: seq<Step>, more: seq<Step>, t: Id)
    requires t in Run(INITIAL, steps).db.workflows
    ensures var a := Run(INITIAL, steps).db;
            var b := Run(Run(INITIAL, steps), more).db;
            && t in b.workflows && b.workflows[t].cause == a.workflows[t].cause
            && t in b.transactions && b.transactions[t].cause == Some(a.workflows[t].cause)
  {
    var s := Reached(steps);
    RunFinal(s, more);
    assert FinalWorkflow(s.db, Run(s, more).db, t);
    assert StopSafety.WorkflowRow(Run(s, more).db, t);
  }

  /**
   * Retransmitted stop evidence after any further run: no table moves, and it is answered as the
   * recorded completion exactly when meter, reason and the stored microsecond agree.
   */
  lemma RetransmittedStop(steps: seq<Step>, t: Id, e: StopEvidence, more: seq<Step>, again: StopEvidence)
    requires var s := Run(INITIAL, steps);
             && s.recovery >= RECOVERY_STATEMENTS && !Done(s.db, t) && Complete(s.db, t, e).1.Ok?
    ensures var s := Run(INITIAL, steps);
            var later := Run(Apply(s, ChargerStopped(t, e)), more).db;
            var reply := Complete(later, t, again);
            && reply.0 == later
            && (reply.1.Ok? <==> again.meterStop == e.meterStop && again.reason == e.reason && again.completedAt == Stored(e.completedAt))
            && (reply.1.Ok? ==> reply.1 == Complete(s.db, t, e).1)
            && (reply.1.Err? ==> reply.1.error == InvalidEvidence)
  {
    var s := Run(INITIAL, steps);
    AfterStep(steps, ChargerStopped(t, e), more);
    CompletedAgain(s.db, t, e, Run(Apply(s, ChargerStopped(t, e)), more).db, again);
  }

  lemma CompletedAgain(db: Db, t: Id, e: StopEvidence, later: Db, again: StopEvidence)
    requires !Done(db, t) && Complete(db, t, e).1.Ok? && Final(Complete(db, t, e).0, later)
    ensures var reply := Complete(later, t, again);
            && reply.0 == later
            && (reply.1.Ok? <==> again.meterStop == e.meterStop && again.reason == e.reason && again.completedAt == Stored(e.completedAt))
            && (reply.1.Ok? ==> reply.1 == Complete(db, t, e).1)
            && (reply.1.Err? ==> reply.1.error == InvalidEvidence)
  {
    var db1 := Complete(db, t, e).0;
    assert db1.transactions[t] == CompletedRow(db.transactions[t], e);
    assert FinalTransaction(db1, later, t);
  }

  /** So an exact retransmission is honoured if and only if its timestamp is a whole microsecond. */
  lemma ExactRetransmission(steps: seq<Step>, t: Id, e: StopEvidence, more: seq<Step>)
    requires var s := Run(INITIAL, steps);
             && s.recovery >= RECOVERY_STATEMENTS && !Done(s.db, t) && Complete(s.db, t, e).1.Ok?
    ensures var later := Run(Apply(Run(INITIAL, steps), ChargerStopped(t, e)), more).db;
            Complete(later, t, e).1.Ok? <==> e.completedAt % MICROSECOND == 0
  {
    RetransmittedStop(steps, t, e, more, e);
  }

  // ----- start -----

  /** Transactions, consumed credentials and materialized commands are in one-to-one correspondence. */
  lemma StartsAreOneToOne(steps: seq<Step>)
    ensures var db := Run(INITIAL, steps).db;
            && (forall t, u :: t in db.transactions && u in db.transactions &&
                  (db.transactions[t].idTag == db.transactions[u].idTag || db.transactions[t].command == db.transactions[u].command)
                  ==> t == u)
            && (forall t :: t in db.transactions ==>
                  && StartSafety.IsStart(db, db.transactions[t].command)
                  && db.commands[db.transactions[t].command].state == Materialized
                  && db.transactions[t].idTag in db.credentials
                  && db.credentials[db.transactions[t].idTag].consumedAt.Some?)
            && (forall c :: StartSafety.IsStart(db, c) && db.commands[c].state == Materialized ==>
                  db.commands[c].transaction.Some? && db.commands[c].transaction.value in db.transactions
                  && db.transactions[db.commands[c].transaction.value].command == c)
            && (forall g :: g in db.credentials && db.credentials[g].consumedAt.Some? ==>
                  db.credentials[g].transaction.Some? && db.credentials[g].transaction.value in db.transactions
                  && db.transactions[db.credentials[g].transaction.value].idTag == g)
  {
    var s := Reached(steps);
    var db := s.db;
    forall t, u | t in db.transactions && u in db.transactions &&
                  (db.transactions[t].idTag == db.transactions[u].idTag || db.transactions[t].command == db.transactions[u].command)
      ensures t == u
    {
      assert StartSafety.TransactionLink(db, t) && StartSafety.TransactionLink(db, u);
    }
    forall t | t in db.transactions
      ensures StartSafety.IsStart(db, db.transactions[t].command)
      ensures db.commands[db.transactions[t].command].state == Materialized
      ensures db.transactions[t].idTag in db.credentials && db.credentials[db.transactions[t].idTag].consumedAt.Some?
    {
      assert StartSafety.TransactionLink(db, t);
      assert StartSafety.CommandLink(db, db.transactions[t].command);
      assert StartSafety.CredentialLink(db, db.transactions[t].idTag);
    }
    assert forall c :: StartSafety.IsStart(db, c) ==> StartSafety.CommandLink(db, c);
    assert forall g :: g in db.credentials ==> StartSafety.CredentialLink(db, g);
  }

  /** The reply to StartTransaction for a tag that `e` used up as transaction `halId`. */
  function ReplyAgain(e: StartEvidence, halId: Id, again: StartEvidence): Result<(Id, bool)> {
    if again.meterStart < 0 || again.ocppId <= 0 || again.connector <= 0 || !Plausible(again.actualStartedAt, again.observedAt)
    then Err(InvalidEvidence)
    else if again.charger == e.charger && again.connector == e.connector && again.meterStart == e.meterStart
    then Ok((halId, true))
    else Err(CredentialRejected)
  }

  /** StartTransaction for a used tag, at any later time: the same transaction or a refusal, no change. */
  lemma RetransmittedStart(steps: seq<Step>, e: StartEvidence, halId: Id, more: seq<Step>, again: StartEvidence, halId': Id)
    requires var s := Run(INITIAL, steps);
             && s.recovery >= RECOVERY_STATEMENTS && halId !in s.db.transactions
             && Materialize(s.db, e, halId).1 == Ok((halId, false))
    requires again.idTag == e.idTag
    ensures var later := Run(Apply(Run(INITIAL, steps), ChargerStarted(e, halId)), more).db;
            Materialize(later, again, halId') == (later, ReplyAgain(e, halId, again))
  {
    var s := Run(INITIAL, steps);
    AfterStep(steps, ChargerStarted(e, halId), more);
    MaterializedRow(s.db, e, halId);
  }

  lemma MaterializedRow(db: Db, e: StartEvidence, halId: Id)
    requires Materialize(db, e, halId).1 == Ok((halId, false))
    ensures var db' := Materialize(db, e, halId).0;
            && e.idTag in db'.credentials && db'.credentials[e.idTag].transaction == Some(halId)
            && halId in db'.transactions
            && var tx := db'.transactions[halId];
            tx.binding.charger == e.charger && tx.binding.connector == e.connector
            && tx.idTag == e.idTag && tx.meterStart == e.meterStart
  {}

  // ----- meters -----

  /** An open transaction whose latest reading has reached its energy limit already has a stop workflow. */
  lemma LimitImpliesWorkflow(steps: seq<Step>, t: Id)
    ensures var db := Run(INITIAL, steps).db;
            t in db.transactions && !db.transactions[t].Done() && LimitReached(db.transactions[t]) ==> t in db.workflows
  {
    var s := Reached(steps);
    if t in s.db.transactions { assert FactSafety.TransactionFacts(s.db, t); }
  }

  /** Meter and SoC facts carry exactly 1..n, each once and in order, n being the row's counter. */
  lemma GaplessFacts(steps: seq<Step>, t: Id)
    ensures var db := Run(INITIAL, steps).db;
            t in db.transactions ==>
              && FactSafety.Numbered(FactsOf(db.facts, MeterFact, t), db.transactions[t].meter.sequence)
              && FactSafety.Numbered(FactsOf(db.facts, SoCFact, t), db.transactions[t].soc.sequence)
  {
    var s := Reached(steps);
    if t in s.db.transactions { assert FactSafety.TransactionFacts(s.db, t); }
  }

  /** The stored meter never falls below the start, and trails no published reading by more than the counted rollbacks. */
  lemma DriftIsCounted(steps: seq<Step>, t: Id, i: nat)
    ensures var db := Run(INITIAL, steps).db;
            t in db.transactions ==>
              var tx := db.transactions[t];
              var readings := FactsOf(db.facts, MeterFact, t);
              && (tx.meter.latest.Some? ==> tx.meter.latest.value >= tx.meterStart)
              && (i < |readings| ==>
                    && readings[i].payload.MeterReading? && tx.meter.latest.Some?
                    && readings[i].payload.wh <= tx.meter.latest.value + tx.meter.anomalies)
  {
    var s := Reached(steps);
    if t in s.db.transactions { assert FactSafety.TransactionFacts(s.db, t); }
  }

  /**
   * A stored reading can fall, contrary to what the test of the PostgreSQL path expects: by one Wh,
   * exactly on a reading one under the latest that is not under the start, and it is counted.
   */
  lemma MeterFallsIff(tx: Transaction, m: Telemetry)
    requires !tx.Done() && tx.meter.latest.Some?
    ensures var current := UpdatedRow(tx, m);
            && current.meter.latest.Some?
            && (current.meter.latest.value < tx.meter.latest.value <==>
                  m.energyWh == Some(tx.meter.latest.value - 1) && m.energyAt.Some? && tx.meter.latest.value - 1 >= tx.meterStart)
            && (current.meter.latest.value < tx.meter.latest.value ==> current.meter.anomalies == tx.meter.anomalies + 1)
  {
    if EnergyAccepted(tx, m) {
      assert m.energyWh.value >= tx.meter.latest.value - 1;
    }
  }

  /** The readings of that test: 21345 Wh are stored, then 21344 Wh arrive. */
  lemma MeterFalls(tx: Transaction, at: Time)
    requires !tx.Done() && tx.meterStart == 12345 && tx.meter.latest == Some(21345)
    ensures UpdatedRow(tx, Telemetry(Some(21344), Some(at), None, None)).meter.latest == Some(21344)
  {
    MeterFallsIff(tx, Telemetry(Some(21344), Some(at), None, None));
  }

  /** A stop meter is the maximum of the latest and the raw reading: the raw one plus 0 or 1 Wh. */
  lemma StopMeterIsNormalized(steps: seq<Step>, t: Id, e: StopEvidence)
    ensures var db := Run(INITIAL, steps).db;
            var reply := Complete(db, t, e).1;
            && (reply.Ok? ==> FactSafety.StopMeter(reply.value) && reply.value.stop.rawMeterStop == Some(e.meterStop))
            && (reply.Ok? && !Done(db, t) ==>
                  var latest := db.transactions[t].meter.latest;
                  reply.value.stop.meterStop ==
                  Some(if latest.Some? && latest.value > e.meterStop then latest.value else e.meterStop))
  {
    var s := Reached(steps);
    if t in s.db.transactions {
      assert FactSafety.TransactionFacts(s.db, t);
      NormalizedReply(s.db, t, e);
    }
  }

  lemma NormalizedReply(db: Db, t: Id, e: StopEvidence)
    requires t in db.transactions && (Done(db, t) ==> FactSafety.StopMeter(db.transactions[t]))
    requires var tx := db.transactions[t]; tx.meter.latest.Some? ==> tx.meter.latest.value >= tx.meterStart
    ensures var reply := Complete(db, t, e).1;
            && (reply.Ok? ==> FactSafety.StopMeter(reply.value) && reply.value.stop.rawMeterStop == Some(e.meterStop))
            && (reply.Ok? && !Done(db, t) ==>
                  var latest := db.transactions[t].meter.latest;
                  reply.value.stop.meterStop ==
                  Some(if latest.Some? && latest.value > e.meterStop then latest.value else e.meterStop))
  {
    if !Done(db, t) && StopAdmissible(db.transactions[t], e) {
      FactSafety.CompletedRowMeter(db.transactions[t], e);
    }
  }
}
