/**
 * Charger operations, persisted, claimed once, sent, finalized (internal/store/v1_memory.go, internal/ocpp16hal/v1.go).
 * Any number of processes dispatch concurrently, may crash, and may run the recovery statement at any time.
 */
module ChargerOperations {
  import opened Base
  import opened Sorting

  datatype Delivery = Persisted | DeliveryAttempted | Confirmed | ReconciliationRequired {
    predicate Terminal() {
      Confirmed? || ReconciliationRequired?
    }
  }

  datatype Category = NoCategory | DeliveryAmbiguous | RecoveryAmbiguous

  datatype Operation = Operation(
    id: Id, charger: Id, digest: Id, createdAt: Time, state: Delivery, attempts: nat,
    result: Option<Id>, category: Category, completedAt: Option<Time>)

  type Table = map<Id, Operation>

  // ----- one atomic statement each -----

  function Created(ops: Table, id: Id, charger: Id, digest: Id, now: Time): Table {
    if id in ops then ops
    else ops[id := Operation(id, charger, digest, now, Persisted, 0, None, NoCategory, None)]
  }

  predicate Claimable(ops: Table, id: Id) {
    id in ops && ops[id].state == Persisted
  }

  function Claimed(ops: Table, id: Id): Table {
    if Claimable(ops, id)
    then ops[id := ops[id].(state := DeliveryAttempted, attempts := ops[id].attempts + 1)] else ops
  }

  /** What the charger call came to, and when the result was finalized. */
  datatype Answer = Answered(result: Id, at: Time) | Failed(at: Time)

  function Settled(op: Operation, answer: Answer): Operation {
    match answer
    case Answered(result, at) =>
      op.(state := Confirmed, result := Some(result), category := NoCategory, completedAt := Some(at))
    case Failed(at) =>
      op.(state := ReconciliationRequired, result := None, category := DeliveryAmbiguous, completedAt := Some(at))
  }

  function Marked(ops: Table, id: Id, answer: Answer): Table {
    if id in ops && ops[id].state == DeliveryAttempted then ops[id := Settled(ops[id], answer)] else ops
  }

  function RecoveredOperation(op: Operation, now: Time): Operation {
    if op.state == DeliveryAttempted
    then op.(state := ReconciliationRequired, category := RecoveryAmbiguous, completedAt := Some(now)) else op
  }

  function Recovered(ops: Table, now: Time): Table {
    map id | id in ops :: RecoveredOperation(ops[id], now)
  }

  // ----- runs of several processes -----

  /** A dispatcher between its claim and its mark. */
  datatype Worker = Worker(process: Id, operation: Id, sent: bool)

  datatype State = State(ops: Table, workers: map<Id, Worker>, wire: multiset<Id>)

  const INITIAL: State := State(map[], map[], multiset{})

  datatype Step =
    | Submit(id: Id, charger: Id, digest: Id, now: Time)
    | Claim(worker: Id, process: Id, id: Id)
    | Send(worker: Id)
    | Finish(worker: Id, answer: Answer)
    | GiveUp(worker: Id)
    | Recover(now: Time)
    | Crash(process: Id)

  function Apply(s: State, step: Step): State {
    match step
    case Submit(id, charger, digest, now) => s.(ops := Created(s.ops, id, charger, digest, now))
    case Claim(w, process, id) =>
      if w !in s.workers && Claimable(s.ops, id)
      then s.(ops := Claimed(s.ops, id), workers := s.workers[w := Worker(process, id, false)]) else s
    case Send(w) =>
      if w in s.workers && !s.workers[w].sent
      then s.(workers := s.workers[w := s.workers[w].(sent := true)],
              wire := s.wire + multiset{s.workers[w].operation}) else s
    case Finish(w, answer) =>
      if w in s.workers && s.workers[w].sent
      then s.(ops := Marked(s.ops, s.workers[w].operation, answer), workers := s.workers - {w}) else s
    case GiveUp(w) => s.(workers := s.workers - {w})
    case Recover(now) => s.(ops := Recovered(s.ops, now))
    case Crash(p) => s.(workers := map w | w in s.workers && s.workers[w].process != p :: s.workers[w])
  }

  function Run(s: State, steps: seq<Step>): State
    decreases |steps|
  {
    if steps == [] then s else Run(Apply(s, steps[0]), steps[1..])
  }

  /** Sends never outnumber committed attempts, and an unsent claim belongs to one worker alone. */
  ghost predicate Fenced(s: State) {
    && (forall id :: id in s.ops ==> s.ops[id].id == id)
    && (forall id :: id in s.ops ==> s.ops[id].attempts == if s.ops[id].state.Persisted? then 0 else 1)
    && (forall id :: id in s.ops ==> s.wire[id] <= s.ops[id].attempts)
    && (forall id :: id !in s.ops ==> s.wire[id] == 0)
    && (forall w :: w in s.workers ==> HoldsClaim(s, s.workers[w]))
    && (forall v, w :: v in s.workers && w in s.workers && s.workers[v].operation == s.workers[w].operation ==> v == w)
  }

  ghost predicate HoldsClaim(s: State, w: Worker) {
    w.operation in s.ops && !s.ops[w.operation].state.Persisted? && (!w.sent ==> s.wire[w.operation] == 0)
  }

  /** Rows keep the balance of sends and attempts when they move along the protocol and no message is sent. */
  ghost predicate Advances(s: State, r: State) {
    && s.ops.Keys <= r.ops.Keys && r.wire == s.wire
    && (forall id :: id in r.ops ==> r.ops[id].id == id && r.ops[id].attempts == if r.ops[id].state.Persisted? then 0 else 1)
    && (forall id :: id in s.ops && r.ops[id].state.Persisted? ==> s.ops[id].state.Persisted?)
  }

  lemma TableStepAdvances(s: State, step: Step)
    requires Fenced(s) && (step.Submit? || step.Recover? || step.Claim?)
    ensures Advances(s, Apply(s, step))
  {}

  lemma WorkerStepAdvances(s: State, step: Step)
    requires Fenced(s) && (step.Finish? || step.GiveUp? || step.Crash?)
    ensures Advances(s, Apply(s, step))
  {}

  lemma QuietStepKeepsFenced(s: State, step: Step)
    requires Fenced(s) && !step.Send? && !step.Claim?
    ensures Fenced(Apply(s, step))
  {
    if step.Submit? || step.Recover? { TableStepAdvances(s, step); } else { WorkerStepAdvances(s, step); }
    var r := Apply(s, step);
    forall w | w in r.workers ensures w in s.workers && HoldsClaim(r, r.workers[w]) {
      assert HoldsClaim(s, s.workers[w]);
    }
  }

  lemma ClaimKeepsFenced(s: State, step: Step)
    requires Fenced(s) && step.Claim?
    ensures Fenced(Apply(s, step))
  {
    TableStepAdvances(s, step);
    var r := Apply(s, step);
    forall w | w in s.workers ensures HoldsClaim(r, s.workers[w]) {
      assert HoldsClaim(s, s.workers[w]);
    }
  }

  lemma SendKeepsFenced(s: State, step: Step)
    requires Fenced(s) && step.Send?
    ensures Fenced(Apply(s, step))
  {
    if step.worker in s.workers {
      assert HoldsClaim(s, s.workers[step.worker]);
      var r := Apply(s, step);
      forall w | w in r.workers ensures HoldsClaim(r, r.workers[w]) {
        assert HoldsClaim(s, s.workers[w]);
      }
    }
  }

  lemma StepKeepsFenced(s: State, step: Step)
    requires Fenced(s)
    ensures Fenced(Apply(s, step))
  {
    if step.Send? { SendKeepsFenced(s, step); }
    else if step.Claim? { ClaimKeepsFenced(s, step); }
    else { QuietStepKeepsFenced(s, step); }
  }

  lemma {:induction false} RunKeepsFenced(s: State, steps: seq<Step>)
    requires Fenced(s)
    ensures Fenced(Run(s, steps))
    decreases |steps|
  {
    if steps != [] {
      StepKeepsFenced(s, steps[0]);
      RunKeepsFenced(Apply(s, steps[0]), steps[1..]);
    }
  }

  /** In every run each operation crosses the wire at most once, and only after its attempt was committed. */
  lemma AtMostOneDispatch(steps: seq<Step>, id: Id)
    ensures var s := Run(INITIAL, steps);
            && s.wire[id] <= 1
            && (s.wire[id] == 1 ==> id in s.ops && s.ops[id].attempts == 1 && !s.ops[id].state.Persisted?)
            && (Claimable(s.ops, id) ==> s.wire[id] == 0 && s.ops[id].attempts == 0)
  {
    RunKeepsFenced(INITIAL, steps);
  }

  /** An operation leaves PERSISTED only by its claim; no column of a terminal row changes again. */
  lemma OneStepTransitions(s: State, step: Step, id: Id)
    requires id in s.ops
    ensures var r := Apply(s, step);
            && id in r.ops
            && (s.ops[id].state.Persisted? && r.ops[id] != s.ops[id] ==>
                  step.Claim? && step.id == id && r.ops[id].state.DeliveryAttempted?)
            && (s.ops[id].state.DeliveryAttempted? && r.ops[id] != s.ops[id] ==>
                  r.ops[id].state.Terminal() && (step.Recover? || (step.Finish? && s.workers[step.worker].operation == id)))
            && (s.ops[id].state.Terminal() ==> r.ops[id] == s.ops[id])
  {}

  lemma {:induction false} TerminalIsFinal(s: State, steps: seq<Step>, id: Id)
    requires id in s.ops && s.ops[id].state.Terminal()
    ensures id in Run(s, steps).ops && Run(s, steps).ops[id] == s.ops[id]
    decreases |steps|
  {
    if steps != [] {
      OneStepTransitions(s, steps[0], id);
      TerminalIsFinal(Apply(s, steps[0]), steps[1..], id);
    }
  }

  // ----- what the charger said -----

  /** The row tells how the call went: its result and time, or that the delivery is ambiguous since then. */
  predicate Tells(op: Operation, answer: Answer) {
    && (op.state == Confirmed <==> answer.Answered?) && (op.state == ReconciliationRequired <==> answer.Failed?)
    && op.completedAt == Some(answer.at)
    && op.result == (if answer.Answered? then Some(answer.result) else None)
    && op.category == (if answer.Answered? then NoCategory else DeliveryAmbiguous)
  }

  /** The step ended the attempt of `id` as the row says: the answer of the worker that sent it, or a recovery. */
  predicate Settles(s: State, step: Step, id: Id, op: Operation) {
    && id in s.ops && s.ops[id].state == DeliveryAttempted
    && ((step.Finish? && step.worker in s.workers && s.workers[step.worker] == Worker(s.workers[step.worker].process, id, true)
         && Tells(op, step.answer))
        || (step.Recover? && op.state == ReconciliationRequired && op.category == RecoveryAmbiguous && op.completedAt == Some(step.now)))
  }

  /** One mark: an attempted row takes the answer, every other row stays. */
  lemma MarkTells(ops: Table, id: Id, answer: Answer)
    ensures var r := Marked(ops, id, answer);
            if id in ops && ops[id].state == DeliveryAttempted then
              && id in r && Tells(r[id], answer) && r == ops[id := r[id]]
              && r[id] == ops[id].(state := r[id].state, result := r[id].result, category := r[id].category,
                                   completedAt := r[id].completedAt)
            else r == ops
  {}

  lemma StepSettles(s: State, step: Step, id: Id)
    requires id in s.ops ==> !s.ops[id].state.Terminal()
    requires id in Apply(s, step).ops && Apply(s, step).ops[id].state.Terminal()
    ensures Settles(s, step, id, Apply(s, step).ops[id])
  {}

  /** Every settled operation was settled by the answer it shows, or by a recovery that shows as such. */
  lemma {:induction false} OutcomeHasAnswer(s: State, steps: seq<Step>, id: Id) returns (k: nat)
    requires id in s.ops ==> !s.ops[id].state.Terminal()
    requires id in Run(s, steps).ops && Run(s, steps).ops[id].state.Terminal()
    ensures k < |steps| && Settles(Run(s, steps[..k]), steps[k], id, Run(s, steps).ops[id])
    decreases |steps|
  {
    var next := Apply(s, steps[0]);
    if id in next.ops && next.ops[id].state.Terminal() {
      k := 0;
      StepSettles(s, steps[0], id);
      TerminalIsFinal(next, steps[1..], id);
    } else {
      var l := OutcomeHasAnswer(next, steps[1..], id);
      k := l + 1;
      assert steps[..k][1..] == steps[1..][..l];
    }
  }

  /** A submitted operation says what was submitted, at first undelivered and for ever under the same charger and digest. */
  lemma {:induction false} SubmissionIsKept(s: State, id: Id, charger: Id, digest: Id, now: Time, steps: seq<Step>)
    requires id !in s.ops
    ensures var first := Apply(s, Submit(id, charger, digest, now));
            && id in first.ops && first.ops == s.ops[id := Operation(id, charger, digest, now, Persisted, 0, None, NoCategory, None)]
            && id in Run(first, steps).ops
            && Run(first, steps).ops[id].charger == charger && Run(first, steps).ops[id].digest == digest
            && Run(first, steps).ops[id].id == id && Run(first, steps).ops[id].createdAt == now
  {
    RequestColumnsStay(Apply(s, Submit(id, charger, digest, now)), steps, id);
  }

  lemma {:induction false} RequestColumnsStay(s: State, steps: seq<Step>, id: Id)
    requires id in s.ops
    ensures var r := Run(s, steps);
            && id in r.ops && r.ops[id].charger == s.ops[id].charger && r.ops[id].digest == s.ops[id].digest
            && r.ops[id].id == s.ops[id].id && r.ops[id].createdAt == s.ops[id].createdAt
    decreases |steps|
  {
    if steps != [] {
      RequestColumnsStay(Apply(s, steps[0]), steps[1..], id);
    }
  }

  // ----- listing and one recovery pass -----

  const BATCH: nat := 100

  ghost predicate Keyed(ops: Table) {
    forall id :: id in ops ==> ops[id].id == id
  }

  /** The operations a listing may return; no charger means every charger. */
  ghost function Pending(ops: Table, charger: Option<Id>): set<Id> {
    set id | id in ops && Dispatchable(ops[id], charger)
  }

  predicate Dispatchable(op: Operation, charger: Option<Id>) {
    op.state == Persisted && (charger.None? || op.charger == charger.value)
  }

  predicate NotAfter(a: Operation, b: Operation) {
    a.createdAt < b.createdAt || (a.createdAt == b.createdAt && a.id <= b.id)
  }

  ghost predicate Before(a: Operation, b: Operation) {
    NotAfter(a, b) && a.id != b.id
  }

  ghost function IdsOf(batch: seq<Operation>): set<Id> {
    set i | 0 <= i < |batch| :: batch[i].id
  }

  /** The oldest pending operations, oldest first, as many as the limit allows. */
  ghost predicate IsBatch(batch: seq<Operation>, ops: Table, charger: Option<Id>, limit: nat) {
    && |batch| == Least(limit, |Pending(ops, charger)|)
    && (forall i :: 0 <= i < |batch| ==> batch[i].id in Pending(ops, charger) && ops[batch[i].id] == batch[i])
    && (forall i, j :: 0 <= i < j < |batch| ==> Before(batch[i], batch[j]))
    && (forall id, i :: id in Pending(ops, charger) - IdsOf(batch) && 0 <= i < |batch| ==> Before(batch[i], ops[id]))
  }

  /** A batch lists persisted operations of the charger, or of all, by age and then by id, and leaves only younger ones. */
  lemma BatchIsOldest(batch: seq<Operation>, ops: Table, charger: Option<Id>, limit: nat, i: nat, id: Id)
    requires Keyed(ops) && IsBatch(batch, ops, charger, limit) && i < |batch|
    ensures batch[i].id in ops && ops[batch[i].id] == batch[i] && batch[i].state == Persisted
    ensures charger.Some? ==> batch[i].charger == charger.value
    ensures i + 1 < |batch| ==> Older(batch[i], batch[i + 1])
    ensures Waits(ops, charger, id) && (forall j :: 0 <= j < |batch| ==> batch[j].id != id) ==> Older(batch[i], ops[id])
  {}

  /** Persisted, and of the charger if one is named. */
  predicate Waits(ops: Table, charger: Option<Id>, id: Id) {
    id in ops && ops[id].state == Persisted && (charger.None? || ops[id].charger == charger.value)
  }

  /** Whoever waits is in the batch, unless that is full. */
  lemma BatchIsFull(batch: seq<Operation>, ops: Table, charger: Option<Id>, limit: nat, id: Id)
    requires IsBatch(batch, ops, charger, limit) && Waits(ops, charger, id)
    ensures (exists j :: 0 <= j < |batch| && batch[j].id == id) || |batch| == limit
  {
    assert id in Pending(ops, charger);
    if id !in IdsOf(batch) {
      DistinctCount(batch);
      Fewer(IdsOf(batch), Pending(ops, charger), id);
    }
  }

  predicate Older(a: Operation, b: Operation) {
    a.createdAt < b.createdAt || (a.createdAt == b.createdAt && a.id < b.id)
  }

  lemma Fewer(a: set<Id>, b: set<Id>, x: Id)
    requires a <= b && x in b && x !in a
    ensures |a| < |b|
  {
    assert |b - a| == |b| - |a|;
    assert x in b - a;
  }

  lemma {:induction false} DistinctCount(batch: seq<Operation>)
    requires forall i, j :: 0 <= i < j < |batch| ==> batch[i].id != batch[j].id
    ensures |IdsOf(batch)| == |batch|
  {
    if batch != [] {
      var front, last := batch[..|batch| - 1], batch[|batch| - 1];
      DistinctCount(front);
      assert IdsOf(batch) == IdsOf(front) + {last.id} by {
        assert forall i :: 0 <= i < |front| ==> front[i] == batch[i];
      }
    }
  }

  ghost function RowsOf(ops: Table, ids: set<Id>): set<Operation> {
    set id | id in ids && id in ops :: ops[id]
  }

  /** Every row named by `ids`, each once, in any order. */
  ghost predicate Collected(found: seq<Operation>, ops: Table, ids: set<Id>) {
    multiset(found) == multiset(RowsOf(ops, ids))
  }

  ghost predicate Distinct(found: seq<Operation>) {
    forall i, j :: 0 <= i < j < |found| ==> found[i].id != found[j].id
  }

  lemma CollectedRows(found: seq<Operation>, ops: Table, ids: set<Id>)
    requires Keyed(ops) && ids <= ops.Keys && Collected(found, ops, ids)
    ensures forall i :: 0 <= i < |found| ==> found[i].id in ids && ops[found[i].id] == found[i]
    ensures Distinct(found) && IdsOf(found) == ids
  {
    forall i | 0 <= i < |found| ensures found[i].id in ids && ops[found[i].id] == found[i] {
      assert found[i] in multiset(found);
    }
    forall i, j | 0 <= i < j < |found| ensures found[i].id != found[j].id {
      if found[i].id == found[j].id {
        TwiceInSequence(found, i, j);
        assert false;
      }
    }
    forall id | id in ids ensures id in IdsOf(found) {
      assert ops[id] in multiset(found);
      assert ops[id] in found;
    }
  }

  lemma PrefixIsBatch(sorted: seq<Operation>, ops: Table, charger: Option<Id>, limit: nat)
    requires Keyed(ops) && Collected(sorted, ops, Pending(ops, charger)) && SortedBy(sorted, NotAfter)
    ensures IsBatch(sorted[..Least(limit, |sorted|)], ops, charger, limit)
  {
    CollectedRows(sorted, ops, Pending(ops, charger));
    DistinctCount(sorted);
    LeftBehind(sorted, ops, Pending(ops, charger), Least(limit, |sorted|));
  }

  /** What a sorted listing leaves behind comes after what its prefix takes. */
  lemma LeftBehind(sorted: seq<Operation>, ops: Table, ids: set<Id>, n: nat)
    requires n <= |sorted| && ids <= ops.Keys && IdsOf(sorted) == ids && Distinct(sorted) && SortedBy(sorted, NotAfter)
    requires forall i :: 0 <= i < |sorted| ==> sorted[i].id in ids && ops[sorted[i].id] == sorted[i]
    ensures forall id, i :: id in ids - IdsOf(sorted[..n]) && 0 <= i < n ==> Before(sorted[i], ops[id])
  {
    var batch := sorted[..n];
    assert forall k :: 0 <= k < |batch| ==> sorted[k].id == batch[k].id;
    forall id, i | id in ids - IdsOf(batch) && 0 <= i < n ensures Before(sorted[i], ops[id]) {
      assert id in IdsOf(sorted);
      var j :| 0 <= j < |sorted| && sorted[j].id == id;
      assert NotAfter(sorted[i], sorted[j]);
    }
  }

  // ----- the effect of one pass -----

  /** How the store and the charger answer one dispatch; an unstored result leaves the attempt open. */
  datatype Call = Call(claim: Reply, answer: Answer, stored: bool)

  function AfterCall(op: Operation, call: Call): Operation {
    var attempted := op.(state := DeliveryAttempted, attempts := op.attempts + 1);
    if call.claim == NotExecuted then op
    else if call.claim == ReplyLost || !call.stored then attempted
    else Settled(attempted, call.answer)
  }

  /** A call that was not executed leaves the row, one without a stored result leaves the attempt, any other its answer. */
  lemma CallTells(op: Operation, call: Call)
    ensures var r := AfterCall(op, call);
            && (call.claim == NotExecuted ==> r == op)
            && (call.claim == ReplyLost || (call.claim == Replied && !call.stored) ==>
                  r == op.(state := DeliveryAttempted, attempts := op.attempts + 1))
            && (call.claim == Replied && call.stored ==> Tells(r, call.answer) && r.attempts == op.attempts + 1)
            && r.id == op.id && r.charger == op.charger && r.digest == op.digest && r.createdAt == op.createdAt
  {}

  function DispatchedOne(ops: Table, id: Id, call: Call): Table {
    if Claimable(ops, id) then ops[id := AfterCall(ops[id], call)] else ops
  }

  /** The loop of a pass over its batch; operations whose charger has disconnected are skipped. */
  function DispatchedAll(ops: Table, batch: seq<Operation>, connected: Id -> bool, calls: Id -> Call): Table {
    if batch == [] then ops
    else
      var before := DispatchedAll(ops, batch[..|batch| - 1], connected, calls);
      var last := batch[|batch| - 1];
      if connected(last.id) then DispatchedOne(before, last.id, calls(last.id)) else before
  }

  /** Exactly the connected, still persisted rows of the batch take their call; everything else stays. */
  lemma {:induction false} DispatchedRows(ops: Table, batch: seq<Operation>, connected: Id -> bool, calls: Id -> Call, id: Id)
    requires forall i, j :: 0 <= i < j < |batch| ==> batch[i].id != batch[j].id
    ensures var r := DispatchedAll(ops, batch, connected, calls);
            && (id in r <==> id in ops)
            && (id in ops ==>
                  r[id] == if id in IdsOf(batch) && connected(id) && ops[id].state.Persisted?
                           then AfterCall(ops[id], calls(id)) else ops[id])
  {
    if batch != [] {
      var front, last := batch[..|batch| - 1], batch[|batch| - 1];
      DispatchedRows(ops, front, connected, calls, id);
      assert IdsOf(batch) == IdsOf(front) + {last.id} by {
        assert forall i :: 0 <= i < |front| ==> front[i] == batch[i];
      }
    }
  }

  /**
   * A pass over a connected charger whose claims are executed lowers its backlog by min(100, backlog),
   * whatever becomes of the calls, and no other charger's.
   */
  lemma PassLowersBacklog(ops: Table, batch: seq<Operation>, charger: Id, connected: Id -> bool, calls: Id -> Call)
    requires IsBatch(batch, ops, Some(charger), BATCH)
    requires forall i :: 0 <= i < |batch| ==> connected(batch[i].id) && calls(batch[i].id).claim != NotExecuted
    ensures var r := DispatchedAll(ops, batch, connected, calls);
            && |Pending(r, Some(charger))| == |Pending(ops, Some(charger))| - Least(BATCH, |Pending(ops, Some(charger))|)
            && (forall other :: other != charger ==> Pending(r, Some(other)) == Pending(ops, Some(other)))
            && (forall i, id :: 0 <= i < |batch| && id in Pending(r, Some(charger)) ==> Before(batch[i], r[id]))
  {
    var r := DispatchedAll(ops, batch, connected, calls);
    PassMoves(ops, batch, charger, connected, calls);
    PassLeaves(ops, r, batch, charger);
    DistinctCount(batch);
    forall i, id | 0 <= i < |batch| && id in Pending(r, Some(charger)) ensures Before(batch[i], r[id]) {
      assert id in Pending(ops, Some(charger)) - IdsOf(batch);
    }
  }

  /** Exactly the rows of the batch leave PERSISTED; all others stay as they are. */
  ghost predicate Takes(ops: Table, r: Table, ids: set<Id>) {
    && r.Keys == ops.Keys
    && (forall id :: id in ops && id in ids ==> r[id].charger == ops[id].charger && !r[id].state.Persisted?)
    && (forall id :: id in ops && id !in ids ==> r[id] == ops[id])
  }

  lemma PassMoves(ops: Table, batch: seq<Operation>, charger: Id, connected: Id -> bool, calls: Id -> Call)
    requires IsBatch(batch, ops, Some(charger), BATCH)
    requires forall i :: 0 <= i < |batch| ==> connected(batch[i].id) && calls(batch[i].id).claim != NotExecuted
    ensures Takes(ops, DispatchedAll(ops, batch, connected, calls), IdsOf(batch))
  {
    var r := DispatchedAll(ops, batch, connected, calls);
    forall id: Id ensures id in r <==> id in ops {
      DispatchedRows(ops, batch, connected, calls, id);
    }
    forall id: Id | id in ops
      ensures if id in IdsOf(batch) then r[id].charger == ops[id].charger && !r[id].state.Persisted? else r[id] == ops[id]
    {
      DispatchedRows(ops, batch, connected, calls, id);
    }
  }

  lemma PassLeaves(ops: Table, r: Table, batch: seq<Operation>, charger: Id)
    requires IsBatch(batch, ops, Some(charger), BATCH) && Takes(ops, r, IdsOf(batch))
    ensures Pending(r, Some(charger)) == Pending(ops, Some(charger)) - IdsOf(batch) && IdsOf(batch) <= Pending(ops, Some(charger))
    ensures forall other :: other != charger ==> Pending(r, Some(other)) == Pending(ops, Some(other))
  {
    assert IdsOf(batch) <= Pending(ops, Some(charger));
    forall other | other != charger ensures Pending(r, Some(other)) == Pending(ops, Some(other)) {
      forall id | id in Pending(ops, Some(other)) ensures id !in IdsOf(batch) {}
    }
  }

  // ----- the memory store and the dispatchers over it -----

  class OperationStore {
    var operations: Table

    constructor ()
      ensures operations == map[] && Keyed(operations)
    {
      operations := map[];
    }

    method Create(id: Id, charger: Id, digest: Id, now: Time) returns (r: Result<(Operation, bool)>)
      modifies this
      ensures operations == Created(old(operations), id, charger, digest, now)
      ensures old(Keyed(operations)) ==> Keyed(operations)
      ensures r == if id in old(operations) && old(operations)[id].digest != digest then Err(IdempotencyConflict)
                   else Ok((operations[id], id in old(operations)))
    {
      if id in operations {
        if operations[id].digest != digest {
          return Err(IdempotencyConflict);
        }
        return Ok((operations[id], true));
      }
      var op := Operation(id, charger, digest, now, Persisted, 0, None, NoCategory, None);
      operations := operations[id := op];
      r := Ok((op, false));
    }

    method Claim(id: Id) returns (r: Result<(Operation, bool)>)
      modifies this
      ensures operations == Claimed(old(operations), id)
      ensures old(Keyed(operations)) ==> Keyed(operations)
      ensures r == if id in operations then Ok((operations[id], Claimable(old(operations), id))) else Err(NotFound)
    {
      if id !in operations {
        return Err(NotFound);
      }
      var op := operations[id];
      if op.state != Persisted {
        return Ok((op, false));
      }
      op := op.(state := DeliveryAttempted, attempts := op.attempts + 1);
      operations := operations[id := op];
      r := Ok((op, true));
    }

    method Mark(id: Id, answer: Answer) returns (r: Result<Operation>)
      modifies this
      ensures operations == Marked(old(operations), id, answer)
      ensures old(Keyed(operations)) ==> Keyed(operations)
      ensures r == if id in operations then Ok(operations[id]) else Err(NotFound)
    {
      if id !in operations {
        return Err(NotFound);
      }
      var op := operations[id];
      if op.state != DeliveryAttempted {
        return Ok(op);
      }
      match answer {
        case Answered(result, at) =>
          op := op.(state := Confirmed, result := Some(result), category := NoCategory, completedAt := Some(at));
        case Failed(at) =>
          op := op.(state := ReconciliationRequired, result := None, category := DeliveryAmbiguous, completedAt := Some(at));
      }
      operations := operations[id := op];
      r := Ok(op);
    }

    method RecoverAll(now: Time)
      modifies this
      ensures operations == Recovered(old(operations), now)
      ensures old(Keyed(operations)) ==> Keyed(operations)
    {
      var pending := operations.Keys;
      while pending != {}
        invariant pending <= operations.Keys == old(operations).Keys
        invariant forall id :: id in operations ==>
                    operations[id] == if id in pending then old(operations)[id] else RecoveredOperation(old(operations)[id], now)
        decreases |pending|
      {
        var id :| id in pending;
        pending := pending - {id};
        var op := operations[id];
        if op.state == DeliveryAttempted {
          operations := operations[id := op.(state := ReconciliationRequired, category := RecoveryAmbiguous, completedAt := Some(now))];
        }
      }
    }

    /** Every listed row once, in map order. */
    method CollectPending(charger: Option<Id>) returns (found: seq<Operation>)
      requires Keyed(operations)
      ensures Collected(found, operations, Pending(operations, charger))
    {
      found := [];
      var unseen := operations.Keys;
      while unseen != {}
        invariant unseen <= operations.Keys
        invariant Collected(found, operations, Pending(operations, charger) - unseen)
        decreases |unseen|
      {
        var id :| id in unseen;
        ghost var seen := Pending(operations, charger) - unseen;
        unseen := unseen - {id};
        var op := operations[id];
        if Dispatchable(op, charger) {
          found := found + [op];
          assert RowsOf(operations, Pending(operations, charger) - unseen) == RowsOf(operations, seen) + {op};
        } else {
          assert Pending(operations, charger) - unseen == seen;
        }
      }
      assert Pending(operations, charger) - unseen == Pending(operations, charger);
    }

    method List(charger: Option<Id>, limit: int) returns (batch: seq<Operation>)
      requires Keyed(operations)
      ensures IsBatch(batch, operations, charger, if limit <= 0 then 0 else limit)
    {
      if limit <= 0 {
        return [];
      }
      var found := CollectPending(charger);
      SortIsOrderedPermutation(found, NotAfter);
      var sorted := Sort(found, NotAfter);
      PrefixIsBatch(sorted, operations, charger, limit);
      batch := if |sorted| > limit then sorted[..limit] else sorted;
      assert batch == sorted[..Least(limit, |sorted|)];
    }
  }

  /** Claim, send, finalize; the send happens exactly when the claim was won and its reply arrived. */
  method DispatchClaimed(store: OperationStore, id: Id, call: Call) returns (r: Result<Operation>, sent: bool)
    modifies store
    ensures store.operations == DispatchedOne(old(store.operations), id, call)
    ensures old(Keyed(store.operations)) ==> Keyed(store.operations)
    ensures sent <==> Claimable(old(store.operations), id) && call.claim == Replied
    ensures sent && call.stored ==> id in store.operations && Tells(store.operations[id], call.answer)
    ensures sent && !call.stored ==> id in store.operations && store.operations[id].state == DeliveryAttempted
    ensures r == if call.claim != Replied || (sent && !call.stored) then Err(StorageFailure)
                 else if id in store.operations then Ok(store.operations[id]) else Err(NotFound)
  {
    if call.claim == NotExecuted {
      return Err(StorageFailure), false;
    }
    var claim := store.Claim(id);
    if call.claim == ReplyLost {
      return Err(StorageFailure), false;
    }
    if claim.Err? {
      return Err(claim.error), false;
    }
    if !claim.value.1 {
      return Ok(claim.value.0), false;
    }
    if !call.stored {
      return Err(StorageFailure), true;
    }
    r := store.Mark(id, call.answer);
    sent := true;
  }

  /**
   * One bounded pass for one charger; `listed` is whether the listing succeeds and `alive` the number
   * of rows handled before a cancellation. A failed row does not stop the pass.
   */
  method RecoverDispatchable(store: OperationStore, charger: Option<Id>, listed: bool, alive: nat,
                             connected: Id -> bool, calls: Id -> Call)
    returns (batch: seq<Operation>, r: Result<()>)
    requires Keyed(store.operations)
    modifies store
    ensures Keyed(store.operations)
    ensures !listed ==> r == Err(StorageFailure) && store.operations == old(store.operations)
    ensures listed ==>
              && IsBatch(batch, old(store.operations), charger, BATCH)
              && (r.Ok? <==> |batch| <= alive)
              && store.operations == DispatchedAll(old(store.operations), batch[..Least(alive, |batch|)], connected, calls)
  {
    if !listed {
      return [], Err(StorageFailure);
    }
    batch := store.List(charger, BATCH);
    var cancelled := DispatchBatch(store, batch, alive, connected, calls);
    r := if cancelled then Err(StorageFailure) else Ok(());
  }

  method DispatchBatch(store: OperationStore, batch: seq<Operation>, alive: nat, connected: Id -> bool, calls: Id -> Call)
    returns (cancelled: bool)
    modifies store
    ensures old(Keyed(store.operations)) ==> Keyed(store.operations)
    ensures cancelled <==> alive < |batch|
    ensures store.operations ==
            DispatchedAll(old(store.operations), batch[..Least(alive, |batch|)], connected, calls)
  {
    var i := 0;
    while i < |batch|
      invariant 0 <= i <= |batch| && i <= alive && (old(Keyed(store.operations)) ==> Keyed(store.operations))
      invariant store.operations == DispatchedAll(old(store.operations), batch[..i], connected, calls)
    {
      if i == alive {
        return true;
      }
      assert batch[..i + 1][..i] == batch[..i];
      if connected(batch[i].id) {
        var _, _ := DispatchClaimed(store, batch[i].id, calls(batch[i].id));
      }
      i := i + 1;
    }
    cancelled := false;
  }
}
