/**
 * The dispatchers over the store (internal/ocpp16hal/v1.go, internal/httpapi/v1.go): calls that claim,
 * begin, send and mark, each of which may fail or lose its reply, proved to be runs of the system the
 * send theorems are about. A dispatcher that fails abandons what it has claimed. Between two of its
 * calls the charger may end the transaction, the one event that makes a stop dispatcher turn back.
 * The passes over pending stops and the recovery at the start of a process are built from them.
 */
module Dispatchers {
  import opened Base
  import opened MeterEvidence
  import opened LifecycleTables
  import opened LifecycleSystem
  import opened Sorting
  import PostgresStore
  import ChargerOperations
  import StopSafety
  import StopProgress
  import Outcomes

  /** How the store calls of one dispatch end; `read` is whether the transaction can be reread before the send. */
  datatype Faults = Faults(claim: Reply, begin: Reply, read: bool, mark: Reply)

  // ----- runs -----

  /** `steps` of this process lead from `from` to tables `db`, with the threads of `start` and `sent` added to its wire. */
  ghost predicate Ends(start: State, from: State, steps: seq<Step>, db: Db, sent: multiset<Message>) {
    var end := Run(from, steps);
    && OneProcess(steps) && end.db == db && end.recovery == start.recovery
    && end.threads == start.threads && end.wire == start.wire + sent
  }

  /** Thread `i` was added to `start` and stands as `thread` says; `sent` messages of it are on the wire. */
  ghost predicate Stands(start: State, now: State, i: Id, thread: Thread, sent: multiset<Message>) {
    && start.recovery >= RECOVERY_STATEMENTS && i !in start.threads
    && now.recovery == start.recovery && now.threads == start.threads[i := thread] && now.wire == start.wire + sent
  }

  lemma OneThenEnds(start: State, from: State, step: Step, rest: seq<Step>, db: Db, sent: multiset<Message>)
    requires !step.OtherRecover? && Ends(start, Apply(from, step), rest, db, sent)
    ensures Ends(start, from, [step] + rest, db, sent)
  {
    assert ([step] + rest)[1..] == rest;
  }

  lemma EndsHere(start: State, sent: multiset<Message>)
    requires sent == multiset{}
    ensures Ends(start, start, [], start.db, sent)
  {}

  lemma GivesUp(start: State, now: State, i: Id, thread: Thread, sent: multiset<Message>)
    requires Stands(start, now, i, thread, sent)
    ensures Ends(start, now, [Abandon(i)], now.db, sent)
  {
    var end := Apply(now, Abandon(i));
    assert end.threads == start.threads;
    RunOne(now, [], Abandon(i));
    assert [] + [Abandon(i)] == [Abandon(i)];
  }

  // ----- the steps of a stop -----

  lemma StopBegun(start: State, now: State, i: Id, t: Id)
    requires Stands(start, now, i, StopThread(t, Claimed), multiset{})
    ensures var next := Apply(now, StopBegin(i));
            next.db == BeginStop(now.db, t) && Stands(start, next, i, StopThread(t, Begun), multiset{})
  {}

  lemma StopChecked(start: State, now: State, i: Id, t: Id)
    requires Stands(start, now, i, StopThread(t, Begun), multiset{}) && t in now.db.transactions
    ensures var next := Apply(now, StopCheck(i));
            && next.db == now.db
            && if now.db.transactions[t].Done() then Ends(start, next, [], now.db, multiset{})
               else Stands(start, next, i, StopThread(t, Ready), multiset{})
  {}

  lemma StopWasSent(start: State, now: State, i: Id, t: Id)
    requires Stands(start, now, i, StopThread(t, Ready), multiset{})
    ensures var next := Apply(now, StopSend(i));
            next.db == now.db && Stands(start, next, i, StopThread(t, Sent), multiset{StopSent(t)})
  {}

  lemma StopMarked(start: State, now: State, i: Id, t: Id, status: Status, order: seq<Id>)
    requires Stands(start, now, i, StopThread(t, Sent), multiset{StopSent(t)}) && Enumerates(order, LiveStops(now.db, t))
    ensures Ends(start, now, [StopMark(i, status, order)], MarkStop(now.db, t, status, order), multiset{StopSent(t)})
  {
    var end := Apply(now, StopMark(i, status, order));
    assert end.threads == start.threads;
    RunOne(now, [], StopMark(i, status, order));
    assert [] + [StopMark(i, status, order)] == [StopMark(i, status, order)];
  }

  // ----- what a stop touches -----

  /** Apart from `t`, transactions and workflows are as before. */
  ghost predicate OnlyTouches(a: Db, b: Db, t: Id) {
    && b.workflows.Keys == a.workflows.Keys && b.transactions.Keys == a.transactions.Keys
    && (forall u :: u in a.workflows && u != t ==> b.workflows[u] == a.workflows[u])
    && (forall u :: u in a.transactions && u != t ==> b.transactions[u] == a.transactions[u])
  }

  /** No longer claimable. */
  predicate Taken(db: Db, t: Id) {
    t in db.transactions && t in db.workflows && db.workflows[t].state != Persisted
  }

  lemma ClaimTakes(db: Db, t: Id)
    requires ClaimStop(db, t).1
    ensures var r := ClaimStop(db, t).0; OnlyTouches(db, r, t) && Taken(r, t) && r.transactions == db.transactions
  {}

  lemma BeginTakes(db: Db, t: Id)
    requires Taken(db, t)
    ensures var r := BeginStop(db, t); OnlyTouches(db, r, t) && Taken(r, t) && r.transactions == db.transactions
  {}

  lemma CompleteTakes(db: Db, t: Id, e: StopEvidence)
    requires Taken(db, t)
    ensures var r := Complete(db, t, e).0; OnlyTouches(db, r, t) && Taken(r, t)
    ensures !db.transactions[t].Done() ==> (Complete(db, t, e).0.transactions[t].Done() <==> StopAdmissible(db.transactions[t], e))
    ensures !db.transactions[t].Done() && !StopAdmissible(db.transactions[t], e) ==> Complete(db, t, e).0 == db
  {
    if !db.transactions[t].Done() && StopAdmissible(db.transactions[t], e) {
      assert SameTables(CompletedRows(db, t, e), Complete(db, t, e).0);
    }
  }

  lemma MarkTakes(db: Db, t: Id, status: Status, order: seq<Id>)
    requires Taken(db, t) && Enumerates(order, LiveStops(db, t))
    ensures var r := MarkStop(db, t, status, order); OnlyTouches(db, r, t) && Taken(r, t)
  {
    StopSafety.MarkMovesOwnRow(db, t, status, order);
    if OpenWorkflow(db, t) && db.workflows[t].state !in {Completed, Superseded} {
      assert forall c :: c in order ==> c in LiveStops(db, t);
      assert SameTables(MarkedRows(db, t, DeliveryOf(status)), MarkStop(db, t, status, order));
    }
  }

  // ----- dispatching a stop -----

  /** No confirmation counts as an unavailable result. */
  function StatusOf(answer: Option<Status>): (status: Status)
    ensures answer.None? ==> status == ResultUnavailable
    ensures answer.Some? ==> status == answer.value
  {
    if answer.None? then ResultUnavailable else answer.value
  }

  /** Workflow, transaction and live commands tell the answer. */
  predicate StopAnswerStored(db: Db, t: Id, answer: Option<Status>) {
    && t in db.workflows && Outcomes.Tells(db.workflows[t].state, StatusOf(answer))
    && t in db.transactions && db.transactions[t].stopState == Some(db.workflows[t].state)
    && forall c :: c in LiveStops(db, t) ==> db.commands[c].state == db.workflows[t].state
  }

  /** What a sent stop leaves behind: its answer, or the open attempt when the mark is not executed. */
  predicate StopConcluded(db: Db, t: Id, answer: Option<Status>, mark: Reply) {
    if mark == NotExecuted then t in db.workflows && db.workflows[t].state == DeliveryAttempted else StopAnswerStored(db, t, answer)
  }

  lemma MarkStores(db: Db, t: Id, answer: Option<Status>, order: seq<Id>)
    requires OpenWorkflow(db, t) && db.workflows[t].state == DeliveryAttempted && Enumerates(order, LiveStops(db, t))
    ensures StopAnswerStored(MarkStop(db, t, StatusOf(answer), order), t, answer)
  {
    var after := MarkStop(db, t, StatusOf(answer), order);
    Outcomes.StopMarkTells(db, t, StatusOf(answer), order);
    assert forall c :: c in LiveStops(after, t) ==> c in LiveStops(db, t);
  }

  /** The call and its mark, after the recheck found the transaction open or completed. */
  method DeliverStop(store: PostgresStore.Store, t: Id, answer: Option<Status>, mark: Reply, ghost start: State, ghost begun: State, ghost i: Id)
    returns (r: Result<Workflow>, sent: bool, ghost steps: seq<Step>)
    requires begun.db == store.Tables() && Stands(start, begun, i, StopThread(t, Begun), multiset{}) && Taken(begun.db, t)
    requires !begun.db.transactions[t].Done() ==> begun.db.workflows[t].state == DeliveryAttempted
    modifies store
    ensures Ends(start, begun, steps, store.Tables(), if sent then multiset{StopSent(t)} else multiset{})
    ensures sent <==> !begun.db.transactions[t].Done()
    ensures sent ==> StopConcluded(store.Tables(), t, answer, mark)
    ensures OnlyTouches(begun.db, store.Tables(), t) && Taken(store.Tables(), t)
    ensures r == if mark != Replied then Err(StorageFailure) else Ok(store.workflows[t])
  {
    StopChecked(start, begun, i, t);
    ghost var checked := Apply(begun, StopCheck(i));
    var completed := store.transactions[t].Done();
    sent := !completed;
    steps := [];
    var status := if completed then ResultUnavailable else StatusOf(answer);
    ghost var now := checked;
    if sent {
      StopWasSent(start, checked, i, t);
      now := Apply(checked, StopSend(i));
    }
    var order: seq<Id> := [];
    if mark != NotExecuted {
      r, order := store.MarkStopDelivery(t, status);
      MarkTakes(begun.db, t, status, order);
      if sent { MarkStores(begun.db, t, answer, order); }
    }
    if sent {
      if mark == NotExecuted {
        GivesUp(start, now, i, StopThread(t, Sent), multiset{StopSent(t)});
        steps := [Abandon(i)];
      } else {
        StopMarked(start, now, i, t, status, order);
        steps := [StopMark(i, status, order)];
      }
      OneThenEnds(start, checked, StopSend(i), steps, store.Tables(), multiset{StopSent(t)});
      steps := [StopSend(i)] + steps;
    }
    OneThenEnds(start, begun, StopCheck(i), steps, store.Tables(), if sent then multiset{StopSent(t)} else multiset{});
    steps := [StopCheck(i)] + steps;
    r := if mark != Replied then Err(StorageFailure) else Ok(store.workflows[t]);
  }

  /** From the claim on. `meanwhile` is stop evidence of the charger that arrives between attempt and recheck. */
  method AttemptStop(store: PostgresStore.Store, t: Id, answer: Option<Status>, meanwhile: Option<StopEvidence>, faults: Faults,
                     ghost start: State, ghost claimed: State, ghost i: Id)
    returns (r: Result<Workflow>, sent: bool, ghost steps: seq<Step>)
    requires claimed.db == store.Tables() && Stands(start, claimed, i, StopThread(t, Claimed), multiset{})
    requires OpenWorkflow(claimed.db, t) && claimed.db.workflows[t].state == PendingDelivery
    modifies store
    ensures Ends(start, claimed, steps, store.Tables(), if sent then multiset{StopSent(t)} else multiset{})
    ensures sent <==> faults.begin == Replied && faults.read && !Overtakes(claimed.db, t, meanwhile)
    ensures sent ==> StopConcluded(store.Tables(), t, answer, faults.mark)
    ensures OnlyTouches(claimed.db, store.Tables(), t) && Taken(store.Tables(), t)
    ensures r == if faults.begin != Replied || !faults.read || faults.mark != Replied then Err(StorageFailure) else Ok(store.workflows[t])
  {
    sent := false;
    r := Err(StorageFailure);
    if faults.begin == NotExecuted {
      GivesUp(start, claimed, i, StopThread(t, Claimed), multiset{});
      return r, false, [Abandon(i)];
    }
    BeginTakes(claimed.db, t);
    var _ := store.BeginStopDelivery(t);
    StopBegun(start, claimed, i, t);
    ghost var begun := Apply(claimed, StopBegin(i));
    if faults.begin == ReplyLost {
      GivesUp(start, begun, i, StopThread(t, Begun), multiset{});
      steps := [Abandon(i)];
    } else {
      r, sent, steps := CheckedStop(store, t, answer, meanwhile, faults, start, begun, i);
    }
    OneThenEnds(start, claimed, StopBegin(i), steps, store.Tables(), if sent then multiset{StopSent(t)} else multiset{});
    steps := [StopBegin(i)] + steps;
  }

  predicate Overtakes(db: Db, t: Id, meanwhile: Option<StopEvidence>) {
    meanwhile.Some? && t in db.transactions && StopAdmissible(db.transactions[t], meanwhile.value)
  }

  /** From the attempt on. */
  method CheckedStop(store: PostgresStore.Store, t: Id, answer: Option<Status>, meanwhile: Option<StopEvidence>, faults: Faults,
                     ghost start: State, ghost begun: State, ghost i: Id)
    returns (r: Result<Workflow>, sent: bool, ghost steps: seq<Step>)
    requires begun.db == store.Tables() && Stands(start, begun, i, StopThread(t, Begun), multiset{})
    requires OpenWorkflow(begun.db, t) && begun.db.workflows[t].state == DeliveryAttempted
    modifies store
    ensures Ends(start, begun, steps, store.Tables(), if sent then multiset{StopSent(t)} else multiset{})
    ensures sent <==> faults.read && !Overtakes(begun.db, t, meanwhile)
    ensures sent ==> StopConcluded(store.Tables(), t, answer, faults.mark)
    ensures OnlyTouches(begun.db, store.Tables(), t) && Taken(store.Tables(), t)
    ensures r == if !faults.read || faults.mark != Replied then Err(StorageFailure) else Ok(store.workflows[t])
  {
    ghost var now := begun;
    if meanwhile.Some? {
      CompleteTakes(begun.db, t, meanwhile.value);
      var _ := store.CompleteTransaction(t, meanwhile.value);
      now := Apply(begun, ChargerStopped(t, meanwhile.value));
    }
    if !faults.read {
      GivesUp(start, now, i, StopThread(t, Begun), multiset{});
      r, sent, steps := Err(StorageFailure), false, [Abandon(i)];
    } else {
      r, sent, steps := DeliverStop(store, t, answer, faults.mark, start, now, i);
    }
    if meanwhile.Some? {
      OneThenEnds(start, begun, ChargerStopped(t, meanwhile.value), steps, store.Tables(),
                  if sent then multiset{StopSent(t)} else multiset{});
      steps := [ChargerStopped(t, meanwhile.value)] + steps;
    }
  }

  /** DispatchV1Stop by thread `i`; `answer` is the charger's confirmation, none when the call fails. */
  method DispatchStop(store: PostgresStore.Store, t: Id, answer: Option<Status>, meanwhile: Option<StopEvidence>, faults: Faults,
                      ghost start: State, ghost i: Id)
    returns (r: Result<Workflow>, sent: bool, ghost steps: seq<Step>)
    requires start.db == store.Tables() && start.recovery >= RECOVERY_STATEMENTS && i !in start.threads
    modifies store
    ensures Ends(start, start, steps, store.Tables(), if sent then multiset{StopSent(t)} else multiset{})
    ensures sent <==>
            && ClaimStop(start.db, t).1 && faults.claim == Replied && faults.begin == Replied && faults.read
            && !Overtakes(start.db, t, meanwhile)
    ensures sent ==> StopConcluded(store.Tables(), t, answer, faults.mark)
    ensures OnlyTouches(start.db, store.Tables(), t)
    ensures ClaimStop(start.db, t).1 && faults.claim != NotExecuted ==> Taken(store.Tables(), t)
    ensures !ClaimStop(start.db, t).1 || faults.claim == NotExecuted ==> store.Tables() == start.db
    ensures r == if faults.claim != Replied then Err(StorageFailure)
                 else if t !in store.transactions || t !in store.workflows then Err(NotFound)
                 else if ClaimStop(start.db, t).1 && (faults.begin != Replied || !faults.read || faults.mark != Replied)
                 then Err(StorageFailure)
                 else Ok(store.workflows[t])
  {
    r, sent, steps := Err(StorageFailure), false, [];
    if faults.claim == NotExecuted {
      EndsHere(start, multiset{});
      return;
    }
    var claim := store.ClaimStopDelivery(t);
    if claim.Err? || !claim.value.1 {
      EndsHere(start, multiset{});
      if faults.claim == Replied {
        r := if claim.Err? then Err(NotFound) else Ok(claim.value.0);
      }
      return;
    }
    ClaimTakes(start.db, t);
    ghost var claimed := Apply(start, StopClaim(i, t));
    if faults.claim == ReplyLost {
      GivesUp(start, claimed, i, StopThread(t, Claimed), multiset{});
      steps := [Abandon(i)];
    } else {
      r, sent, steps := AttemptStop(store, t, answer, meanwhile, faults, start, claimed, i);
    }
    OneThenEnds(start, start, StopClaim(i, t), steps, store.Tables(), if sent then multiset{StopSent(t)} else multiset{});
    steps := [StopClaim(i, t)] + steps;
  }

  // ----- one pass over the pending stops -----

  /** The workflows of a batch whose claim was executed. */
  ghost function Executed(batch: seq<Id>, faults: Id -> Faults): set<Id> {
    set t | t in batch && faults(t).claim != NotExecuted
  }

  lemma OneMoreExecuted(batch: seq<Id>, k: nat, faults: Id -> Faults)
    requires k < |batch|
    ensures Executed(batch[..k + 1], faults) ==
            Executed(batch[..k], faults) + (if faults(batch[k]).claim != NotExecuted then {batch[k]} else {})
  {
    assert batch[..k + 1] == batch[..k] + [batch[k]];
  }

  lemma DispatchedLeaves(a: Db, b: Db, t: Id, executed: bool)
    requires t in StopProgress.Dispatchable(a) && OnlyTouches(a, b, t) && (if executed then Taken(b, t) else b == a)
    ensures StopProgress.Dispatchable(b) == StopProgress.Dispatchable(a) - (if executed then {t} else {})
  {}

  /**
   * DispatchPendingV1Stops: the listed workflows one after the other; a failed row stops nobody. Every one
   * whose claim is executed is no longer dispatchable, whatever becomes of it, and the others still are.
   */
  method DispatchPendingStops(store: PostgresStore.Store, listed: bool, answers: Id -> Option<Status>,
                              meanwhile: Id -> Option<StopEvidence>, faults: Id -> Faults, ghost start: State, ghost i: Id)
    returns (r: Result<()>, batch: seq<Id>, ghost steps: seq<Step>)
    requires start.db == store.Tables() && start.recovery >= RECOVERY_STATEMENTS && i !in start.threads
    modifies store
    ensures r == if listed then Ok(()) else Err(StorageFailure)
    ensures !listed ==> store.Tables() == start.db && steps == []
    ensures listed ==> StopProgress.IsBatch(batch, start.db)
    ensures OneProcess(steps) && Run(start, steps).db == store.Tables() && Run(start, steps).threads == start.threads
    ensures listed ==> StopProgress.Dispatchable(store.Tables()) == StopProgress.Dispatchable(start.db) - Executed(batch, faults)
  {
    batch, steps := [], [];
    if !listed {
      return Err(StorageFailure), [], [];
    }
    batch := store.ListDispatchableStops(StopProgress.BATCH);
    steps := DispatchBatch(store, batch, answers, meanwhile, faults, start, i);
    r := Ok(());
  }

  /** The run so far handled some of the batch and left the threads as they were. */
  ghost predicate Handled(start: State, steps: seq<Step>, db: Db, handled: seq<Id>, faults: Id -> Faults) {
    var now := Run(start, steps);
    && OneProcess(steps) && now.db == db && now.threads == start.threads && now.recovery == start.recovery
    && StopProgress.Dispatchable(db) == StopProgress.Dispatchable(start.db) - Executed(handled, faults)
  }

  lemma HandledOneMore(start: State, steps: seq<Step>, before: Db, batch: seq<Id>, k: nat, faults: Id -> Faults,
                       more: seq<Step>, after: Db, sent: multiset<Message>)
    requires k < |batch| && Handled(start, steps, before, batch[..k], faults)
    requires ElementsOf(batch) <= StopProgress.Dispatchable(start.db) && forall a, b :: 0 <= a < b < |batch| ==> batch[a] != batch[b]
    requires Ends(Run(start, steps), Run(start, steps), more, after, sent)
    requires OnlyTouches(before, after, batch[k]) && if faults(batch[k]).claim != NotExecuted then Taken(after, batch[k]) else after == before
    ensures Handled(start, steps + more, after, batch[..k + 1], faults)
  {
    StillDispatchable(batch, k, faults, StopProgress.Dispatchable(start.db));
    DispatchedLeaves(before, after, batch[k], faults(batch[k]).claim != NotExecuted);
    OneMoreExecuted(batch, k, faults);
    RunConcat(start, steps, more);
  }

  method DispatchBatch(store: PostgresStore.Store, batch: seq<Id>, answers: Id -> Option<Status>,
                       meanwhile: Id -> Option<StopEvidence>, faults: Id -> Faults, ghost start: State, ghost i: Id)
    returns (ghost steps: seq<Step>)
    requires start.db == store.Tables() && start.recovery >= RECOVERY_STATEMENTS && i !in start.threads
    requires ElementsOf(batch) <= StopProgress.Dispatchable(start.db) && forall a, b :: 0 <= a < b < |batch| ==> batch[a] != batch[b]
    modifies store
    ensures Handled(start, steps, store.Tables(), batch, faults)
  {
    steps := [];
    var k := 0;
    assert Executed(batch[..0], faults) == {};
    while k < |batch|
      invariant 0 <= k <= |batch| && Handled(start, steps, store.Tables(), batch[..k], faults)
    {
      var t := batch[k];
      ghost var before := store.Tables();
      StillDispatchable(batch, k, faults, StopProgress.Dispatchable(start.db));
      var _, sent, more := DispatchStop(store, t, answers(t), meanwhile(t), faults(t), Run(start, steps), i);
      HandledOneMore(start, steps, before, batch, k, faults, more, store.Tables(), if sent then multiset{StopSent(t)} else multiset{});
      steps := steps + more;
      k := k + 1;
    }
    assert batch[..k] == batch;
  }

  lemma StillDispatchable(batch: seq<Id>, k: nat, faults: Id -> Faults, all: set<Id>)
    requires k < |batch| && ElementsOf(batch) <= all && forall a, b :: 0 <= a < b < |batch| ==> batch[a] != batch[b]
    ensures batch[k] in all - Executed(batch[..k], faults)
  {
    assert batch[k] in ElementsOf(batch);
    assert forall a :: 0 <= a < k ==> batch[a] != batch[k];
  }

  /** With all claims executed this is a pass of StopProgress, which drains. */
  lemma ExecutedIsPass(before: Db, after: Db, batch: seq<Id>, faults: Id -> Faults)
    requires StopProgress.IsBatch(batch, before) && forall t :: t in batch ==> faults(t).claim != NotExecuted
    requires StopProgress.Dispatchable(after) == StopProgress.Dispatchable(before) - Executed(batch, faults)
    ensures StopProgress.IsPass(before, after)
  {
    assert Executed(batch, faults) == ElementsOf(batch);
  }

  // ----- the steps of a start -----

  lemma StartBegun(start: State, now: State, i: Id, c: Id)
    requires Stands(start, now, i, StartThread(c, Claimed), multiset{})
    ensures var next := Apply(now, StartBegin(i));
            next.db == BeginStart(now.db, c) && Stands(start, next, i, StartThread(c, Begun), multiset{})
  {}

  lemma StartMarked(start: State, now: State, i: Id, c: Id, status: Status)
    requires Stands(start, now, i, StartThread(c, Sent), multiset{StartSent(c)})
    ensures Ends(start, now, [StartMark(i, status)], MarkStart(now.db, c, status), multiset{StartSent(c)})
  {
    var end := Apply(now, StartMark(i, status));
    assert end.threads == start.threads;
    RunOne(now, [], StartMark(i, status));
    assert [] + [StartMark(i, status)] == [StartMark(i, status)];
  }

  /** What a sent start leaves behind. */
  predicate StartConcluded(db: Db, c: Id, answer: Option<Status>, mark: Reply) {
    c in db.commands && if mark == NotExecuted then db.commands[c].state == DeliveryAttempted
                        else Outcomes.Tells(db.commands[c].state, StatusOf(answer))
  }

  /** The call and its mark. */
  method DeliverStart(store: PostgresStore.Store, c: Id, answer: Option<Status>, mark: Reply, ghost start: State, ghost begun: State, ghost i: Id)
    returns (r: Result<Command>, ghost steps: seq<Step>)
    requires begun.db == store.Tables() && Stands(start, begun, i, StartThread(c, Begun), multiset{})
    requires c in store.commands && store.commands[c].state == DeliveryAttempted
    modifies store
    ensures Ends(start, begun, steps, store.Tables(), multiset{StartSent(c)})
    ensures StartConcluded(store.Tables(), c, answer, mark)
    ensures c in store.commands && r == if mark != Replied then Err(StorageFailure) else Ok(store.commands[c])
  {
    ghost var now := Apply(begun, StartSend(i));
    var status := StatusOf(answer);
    if mark == NotExecuted {
      GivesUp(start, now, i, StartThread(c, Sent), multiset{StartSent(c)});
      r, steps := Err(StorageFailure), [Abandon(i)];
    } else {
      Outcomes.StartMarkTells(begun.db, c, status);
      r := store.MarkCommandDelivery(c, status);
      StartMarked(start, now, i, c, status);
      steps := [StartMark(i, status)];
      if mark == ReplyLost {
        r := Err(StorageFailure);
      }
    }
    OneThenEnds(start, begun, StartSend(i), steps, store.Tables(), multiset{StartSent(c)});
    steps := [StartSend(i)] + steps;
  }

  predicate ClaimedStart(db: Db, c: Id) {
    c in db.commands && db.commands[c].kind.Start? && db.commands[c].state == PendingDelivery
  }

  /** From the claim on. */
  method AttemptStart(store: PostgresStore.Store, c: Id, answer: Option<Status>, faults: Faults,
                      ghost start: State, ghost claimed: State, ghost i: Id)
    returns (r: Result<Command>, sent: bool, ghost steps: seq<Step>)
    requires claimed.db == store.Tables() && Stands(start, claimed, i, StartThread(c, Claimed), multiset{})
    requires ClaimedStart(claimed.db, c)
    modifies store
    ensures Ends(start, claimed, steps, store.Tables(), if sent then multiset{StartSent(c)} else multiset{})
    ensures sent <==> faults.begin == Replied
    ensures sent ==> StartConcluded(store.Tables(), c, answer, faults.mark)
    ensures c in store.commands
    ensures r == if faults.begin != Replied || faults.mark != Replied then Err(StorageFailure) else Ok(store.commands[c])
  {
    r, sent := Err(StorageFailure), false;
    if faults.begin == NotExecuted {
      GivesUp(start, claimed, i, StartThread(c, Claimed), multiset{});
      return r, false, [Abandon(i)];
    }
    var _ := store.BeginCommandDelivery(c);
    StartBegun(start, claimed, i, c);
    ghost var begun := Apply(claimed, StartBegin(i));
    if faults.begin == ReplyLost {
      GivesUp(start, begun, i, StartThread(c, Begun), multiset{});
      steps := [Abandon(i)];
    } else {
      r, steps := DeliverStart(store, c, answer, faults.mark, start, begun, i);
      sent := true;
    }
    OneThenEnds(start, claimed, StartBegin(i), steps, store.Tables(), if sent then multiset{StartSent(c)} else multiset{});
    steps := [StartBegin(i)] + steps;
  }

  /** The delivery part of v1Start by thread `i`. */
  method DispatchStart(store: PostgresStore.Store, c: Id, answer: Option<Status>, faults: Faults, ghost start: State, ghost i: Id)
    returns (r: Result<Command>, sent: bool, ghost steps: seq<Step>)
    requires start.db == store.Tables() && start.recovery >= RECOVERY_STATEMENTS && i !in start.threads
    modifies store
    ensures Ends(start, start, steps, store.Tables(), if sent then multiset{StartSent(c)} else multiset{})
    ensures sent <==> ClaimStart(start.db, c).1 && faults.claim == Replied && faults.begin == Replied
    ensures sent ==> StartConcluded(store.Tables(), c, answer, faults.mark)
    ensures r == if faults.claim != Replied then Err(StorageFailure)
                 else if c !in store.commands then Err(NotFound)
                 else if ClaimStart(start.db, c).1 && (faults.begin != Replied || faults.mark != Replied) then Err(StorageFailure)
                 else Ok(store.commands[c])
  {
    r, sent, steps := Err(StorageFailure), false, [];
    if faults.claim == NotExecuted {
      EndsHere(start, multiset{});
      return;
    }
    var claim := store.ClaimStartDelivery(c);
    if claim.Err? || !claim.value.1 {
      EndsHere(start, multiset{});
      if faults.claim == Replied {
        r := if claim.Err? then Err(NotFound) else Ok(claim.value.0);
      }
      return;
    }
    ghost var claimed := Apply(start, StartClaim(i, c));
    if faults.claim == ReplyLost {
      GivesUp(start, claimed, i, StartThread(c, Claimed), multiset{});
      steps := [Abandon(i)];
    } else {
      r, sent, steps := AttemptStart(store, c, answer, faults, start, claimed, i);
    }
    OneThenEnds(start, start, StartClaim(i, c), steps, store.Tables(), if sent then multiset{StartSent(c)} else multiset{});
    steps := [StartClaim(i, c)] + steps;
  }

  // ----- the recovery of a starting process -----

  /** The first `n` statements of a recovery. */
  function RecoverSteps(n: nat): (steps: seq<Step>)
    ensures |steps| == n && OneProcess(steps)
  {
    if n == 0 then [] else RecoverSteps(n - 1) + [Recover]
  }

  lemma RecoveredBy(start: State, n: nat)
    requires start.recovery == 0 && n < RECOVERY_STATEMENTS && Run(start, RecoverSteps(n)).recovery == n
    ensures var s, s' := Run(start, RecoverSteps(n)), Run(start, RecoverSteps(n + 1));
            s' == s.(db := RecoveredTables(s.db, n), recovery := n + 1)
  {
    RunOne(start, RecoverSteps(n), Recover);
  }

  /**
   * The recovery part of RecoverV1Lifecycle: four statements over commands and workflows, then the one over
   * charger operations. `executed` statements succeed; the first failure ends it with an error.
   */
  method RecoverLifecycle(store: PostgresStore.Store, operations: ChargerOperations.OperationStore, executed: nat, now: Time,
                          ghost start: State)
    returns (r: Result<()>, ghost steps: seq<Step>)
    requires start.db == store.Tables() && start.recovery == 0
    modifies store, operations
    ensures steps == RecoverSteps(Least(executed, RECOVERY_STATEMENTS))
    ensures Recovered(start, steps, store.Tables())
    ensures operations.operations == if executed > RECOVERY_STATEMENTS
                                     then ChargerOperations.Recovered(old(operations.operations), now) else old(operations.operations)
    ensures r == if executed > RECOVERY_STATEMENTS then Ok(()) else Err(StorageFailure)
  {
    steps := RecoverTables(store, executed, start);
    if executed <= RECOVERY_STATEMENTS {
      return Err(StorageFailure), steps;
    }
    operations.RecoverAll(now);
    r := Ok(());
  }

  method RecoverTables(store: PostgresStore.Store, executed: nat, ghost start: State) returns (ghost steps: seq<Step>)
    requires start.db == store.Tables() && start.recovery == 0
    modifies store
    ensures steps == RecoverSteps(Least(executed, RECOVERY_STATEMENTS)) && Recovered(start, steps, store.Tables())
  {
    steps := [];
    if executed == 0 { return; }
    store.MoveStartCommands(PendingDelivery, Persisted);
    RecoveredBy(start, 0);
    steps := RecoverSteps(1);
    if executed == 1 { return; }
    store.MoveStartCommands(DeliveryAttempted, Ambiguous);
    RecoveredBy(start, 1);
    steps := RecoverSteps(2);
    if executed == 2 { return; }
    store.MoveWorkflows(PendingDelivery, Persisted);
    RecoveredBy(start, 2);
    steps := RecoverSteps(3);
    if executed == 3 { return; }
    store.MoveWorkflows(DeliveryAttempted, Ambiguous);
    RecoveredBy(start, 3);
    steps := RecoverSteps(4);
  }

  /** So many statements are committed; threads and wire are as before. */
  ghost predicate Recovered(start: State, steps: seq<Step>, db: Db) {
    var end := Run(start, steps);
    end.db == db && end.recovery == |steps| && end.threads == start.threads && end.wire == start.wire
  }
}
