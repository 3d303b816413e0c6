/**
 * Row locks and key waits of the lifecycle (internal/store/v1_stop_lifecycle_locking.go, internal/store/v1_postgres.go).
 * Operations acquire classes in one global order, so only two recoveries of one table can wait in a circle.
 */
module LifecycleLocking {
  import opened Base

  /** Rows of the tables, and the unique keys an INSERT waits for while another transaction inserts the same. */
  datatype Class =
    | Transactions | Workflows | StopCommands | Facts
    | CommandKeys | CommandIntents | Credentials | CredentialIntents | StartRows
    | TransactionIntents | TransactionCommands | OcppIds

  function Rank(c: Class): nat {
    match c
    case Transactions => 0 case Workflows => 1 case StopCommands => 2 case Facts => 3
    case CommandKeys => 4 case CommandIntents => 5 case Credentials => 6 case CredentialIntents => 7 case StartRows => 8
    case TransactionIntents => 9 case TransactionCommands => 10 case OcppIds => 11
  }

  datatype FactKind = MeterKey | SoCKey | CompletionKey

  /** START rows are keyed by their id tag, one command each; START and STOP commands share their key. */
  datatype Lock =
    | TransactionRow(t: Id) | WorkflowRow(t: Id) | CommandRow(c: Id) | FactKey(kind: FactKind, t: Id)
    | CommandKey(c: Id) | CommandIntent(intent: Id) | CredentialRow(tag: Id) | CredentialIntent(intent: Id) | StartRow(tag: Id)
    | TransactionIntent(intent: Id) | TransactionCommand(c: Id) | OcppKey(ocpp: Id)

  function ClassOf(l: Lock): Class {
    match l
    case TransactionRow(_) => Transactions
    case WorkflowRow(_) => Workflows
    case CommandRow(_) => StopCommands
    case FactKey(_, _) => Facts
    case CommandKey(_) => CommandKeys
    case CommandIntent(_) => CommandIntents
    case CredentialRow(_) => Credentials
    case CredentialIntent(_) => CredentialIntents
    case StartRow(_) => StartRows
    case TransactionIntent(_) => TransactionIntents
    case TransactionCommand(_) => TransactionCommands
    case OcppKey(_) => OcppIds
  }

  /** DeliverStart is any single-row statement on a START command: claim, begin or mark. */
  datatype Operation =
    | CreateStart(c: Id, intent: Id, tag: Id) | DeliverStart(tag: Id) | Materialize(tag: Id, intent: Id, command: Id, ocpp: Id)
    | Ensure(t: Id) | Claim(t: Id) | Begin(t: Id) | Mark(t: Id) | Complete(t: Id)
    | Create(t: Id, c: Id) | Telemetry(t: Id)
    | RecoverStarts | RecoverStops
  {
    predicate Stops() {
      Ensure? || Claim? || Begin? || Mark? || Complete? || Create? || Telemetry?
    }

    predicate Recovers() {
      RecoverStarts? || RecoverStops?
    }
  }

  /** A statement may lock further rows of a class, or touches rows the execution holds already. */
  datatype Statement = Acquire(class_: Class) | Revisit(class_: Class)

  /** The statements of each operation, in program order; facts without a number wait for no key. */
  function Script(op: Operation): seq<Statement> {
    match op
    case CreateStart(_, _, _) =>
      [Acquire(CommandKeys), Acquire(CommandIntents), Acquire(Credentials), Acquire(CredentialIntents)]
    case DeliverStart(_) => [Acquire(StartRows)]
    case Materialize(_, _, _, _) =>
      [Acquire(Credentials), Acquire(StartRows), Acquire(TransactionIntents), Acquire(TransactionCommands), Acquire(OcppIds),
       Revisit(Credentials), Revisit(StartRows)]
    case Ensure(_) => [Acquire(Transactions), Acquire(Workflows), Acquire(Workflows), Revisit(Transactions)]
    case Claim(_) => [Acquire(Transactions), Acquire(Workflows), Revisit(Workflows)]
    case Begin(_) => [Acquire(Transactions), Acquire(Workflows), Revisit(Workflows)]
    case Mark(_) =>
      [Acquire(Transactions), Acquire(Workflows), Revisit(Workflows), Revisit(Transactions), Acquire(StopCommands)]
    case Complete(_) =>
      [Acquire(Transactions), Acquire(Workflows), Revisit(Transactions), Revisit(Workflows), Acquire(StopCommands), Acquire(Facts)]
    case Create(_, _) =>
      [Acquire(Transactions), Acquire(Workflows), Acquire(Workflows), Revisit(Transactions), Acquire(CommandKeys)]
    case Telemetry(_) =>
      [Acquire(Transactions), Revisit(Transactions), Revisit(Transactions), Acquire(Workflows), Acquire(Workflows),
       Revisit(Transactions), Acquire(Facts), Acquire(Facts)]
    case RecoverStarts => [Acquire(StartRows)]
    case RecoverStops => [Acquire(Workflows)]
  }

  /** Every operation acquires classes in ascending rank; a stop operation starts on its transaction row. */
  lemma Ascending(op: Operation, i: nat, j: nat)
    requires i <= j < |Script(op)| && Script(op)[i].Acquire? && Script(op)[j].Acquire?
    ensures Rank(Script(op)[i].class_) <= Rank(Script(op)[j].class_)
    ensures op.Stops() && j > 0 ==> Script(op)[j].class_ != Transactions
    ensures op.Stops() ==> Script(op)[0] == Acquire(Transactions)
  {}

  datatype Execution = Execution(op: Operation, at: nat, held: set<Lock>, wants: Option<Lock>)

  /** `owners` maps each committed STOP command to its transaction. */
  datatype State = State(owners: map<Id, Id>, running: map<Id, Execution>)

  const INITIAL: State := State(map[], map[])

  /** The rows and keys an operation may lock. */
  predicate Belongs(l: Lock, op: Operation, owners: map<Id, Id>) {
    match l
    case TransactionRow(t) => op.Stops() && t == op.t
    case WorkflowRow(t) => op.RecoverStops? || (op.Stops() && t == op.t)
    case CommandRow(c) => op.Stops() && c in owners && owners[c] == op.t
    case FactKey(_, t) => op.Stops() && t == op.t
    case CommandKey(c) => (op.CreateStart? || op.Create?) && c == op.c
    case CommandIntent(n) => op.CreateStart? && n == op.intent
    case CredentialRow(g) => (op.CreateStart? || op.Materialize?) && g == op.tag
    case CredentialIntent(n) => op.CreateStart? && n == op.intent
    case StartRow(g) => op.RecoverStarts? || ((op.DeliverStart? || op.Materialize?) && g == op.tag)
    case TransactionIntent(n) => op.Materialize? && n == op.intent
    case TransactionCommand(c) => op.Materialize? && c == op.command
    case OcppKey(o) => op.Materialize? && o == op.ocpp
  }

  datatype Step =
    | Start(i: Id, op: Operation) | Request(i: Id, lock: Lock) | Grant(i: Id)
    | Advance(i: Id) | Commit(i: Id) | Abort(i: Id)

  predicate HeldByOther(s: State, i: Id, l: Lock) {
    exists j :: j in s.running && j != i && l in s.running[j].held
  }

  function Apply(s: State, step: Step): State {
    match step
    case Start(i, op) =>
      if i in s.running then s else s.(running := s.running[i := Execution(op, 0, {}, None)])
    case Request(i, l) =>
      if i !in s.running then s else
        var e := s.running[i];
        if e.wants.None? && e.at < |Script(e.op)| && Script(e.op)[e.at] == Acquire(ClassOf(l))
           && l !in e.held && Belongs(l, e.op, s.owners)
        then s.(running := s.running[i := e.(wants := Some(l))]) else s
    case Grant(i) =>
      if i !in s.running || s.running[i].wants.None? then s else
        var e := s.running[i];
        var l := e.wants.value;
        if HeldByOther(s, i, l) then s
        else s.(running := s.running[i := e.(held := e.held + {l}, wants := None)])
    case Advance(i) =>
      if i !in s.running then s else
        var e := s.running[i];
        if e.wants.None? && e.at < |Script(e.op)| && (e.op.Stops() ==> TransactionRow(e.op.t) in e.held)
        then s.(running := s.running[i := e.(at := e.at + 1)]) else s
    case Commit(i) =>
      if i !in s.running || s.running[i].wants.Some? then s else
        var e := s.running[i];
        State(if e.op.Create? && CommandKey(e.op.c) in e.held && e.op.c !in s.owners then s.owners[e.op.c := e.op.t] else s.owners,
              s.running - {i})
    case Abort(i) => s.(running := s.running - {i})
  }

  ghost function Run(s: State, steps: seq<Step>): State
    decreases |steps|
  {
    if steps == [] then s else Run(Apply(s, steps[0]), steps[1..])
  }

  // ----- invariant -----

  ghost predicate Disciplined(e: Execution, owners: map<Id, Id>) {
    && e.at <= |Script(e.op)|
    && (e.op.Stops() && e.at > 0 ==> TransactionRow(e.op.t) in e.held)
    && (forall l :: l in e.held ==> Belongs(l, e.op, owners))
    && (forall l, k :: l in e.held && e.at <= k < |Script(e.op)| && Script(e.op)[k].Acquire? ==>
          Rank(ClassOf(l)) <= Rank(Script(e.op)[k].class_))
    && (e.wants.Some? ==>
          && e.at < |Script(e.op)| && Script(e.op)[e.at] == Acquire(ClassOf(e.wants.value))
          && e.wants.value !in e.held && Belongs(e.wants.value, e.op, owners))
  }

  ghost predicate Exclusive(s: State) {
    forall i, j, l :: i in s.running && j in s.running && l in s.running[i].held && l in s.running[j].held ==> i == j
  }

  ghost predicate Inv(s: State) {
    && (forall i :: i in s.running ==> Disciplined(s.running[i], s.owners))
    && Exclusive(s)
  }

  lemma GrantKeeps(e: Execution, owners: map<Id, Id>)
    requires Disciplined(e, owners) && e.wants.Some?
    ensures Disciplined(e.(held := e.held + {e.wants.value}, wants := None), owners)
  {
    forall k | e.at <= k < |Script(e.op)| && Script(e.op)[k].Acquire?
      ensures Rank(ClassOf(e.wants.value)) <= Rank(Script(e.op)[k].class_)
    {
      Ascending(e.op, e.at, k);
    }
  }

  /** A committed STOP command gains its owner; nobody's locks change their owner. */
  lemma CommitKeeps(s: State, i: Id)
    requires Inv(s) && i in s.running && s.running[i].wants.None?
    ensures Inv(Apply(s, Commit(i)))
  {
    var s' := Apply(s, Commit(i));
    forall j | j in s'.running ensures Disciplined(s'.running[j], s'.owners) {
      assert Disciplined(s.running[j], s.owners);
      assert forall l :: Belongs(l, s.running[j].op, s.owners) ==> Belongs(l, s.running[j].op, s'.owners);
    }
  }

  lemma OneMoved(s: State, i: Id, e: Execution)
    requires Inv(s) && Disciplined(e, s.owners)
    requires forall j, l :: j in s.running && j != i && l in e.held ==> l !in s.running[j].held
    ensures Inv(s.(running := s.running[i := e]))
  {}

  lemma StepKeeps(s: State, step: Step)
    requires Inv(s)
    ensures Inv(Apply(s, step))
  {
    var s' := Apply(s, step);
    if step.Commit? && step.i in s.running && s.running[step.i].wants.None? {
      CommitKeeps(s, step.i);
    } else if s' != s && step.i in s'.running {
      var e := s'.running[step.i];
      if step.i in s.running { assert Disciplined(s.running[step.i], s.owners); }
      if step.Grant? { GrantKeeps(s.running[step.i], s.owners); }
      OneMoved(s, step.i, e);
    }
  }

  lemma {:induction false} RunKeeps(s: State, steps: seq<Step>)
    requires Inv(s)
    ensures Inv(Run(s, steps))
    decreases |steps|
  {
    if steps != [] {
      StepKeeps(s, steps[0]);
      RunKeeps(Apply(s, steps[0]), steps[1..]);
    }
  }

  // ----- no circular wait -----

  predicate WaitsFor(s: State, i: Id, j: Id) {
    && i in s.running && j in s.running && i != j
    && s.running[i].wants.Some? && s.running[i].wants.value in s.running[j].held
  }

  function WantedRank(s: State, i: Id): nat {
    if i in s.running && s.running[i].wants.Some? then Rank(ClassOf(s.running[i].wants.value)) else 0
  }

  /** Two locks of one class in one hand: only recoveries, and STOP commands and facts of one transaction. */
  lemma SameClass(l: Lock, m: Lock, op: Operation, owners: map<Id, Id>)
    requires Belongs(l, op, owners) && ClassOf(l) == ClassOf(m) && l != m && !op.Recovers()
    requires Belongs(m, op, owners)
    ensures op.Stops() && ClassOf(l) in {StopCommands, Facts}
  {}

  /** Whoever holds a STOP command or a fact key is past its first statement and holds its transaction. */
  lemma PastFirst(e: Execution, owners: map<Id, Id>, l: Lock)
    requires Disciplined(e, owners) && l in e.held && ClassOf(l) in {StopCommands, Facts}
    ensures e.op.Stops() && e.at > 0 && TransactionRow(e.op.t) in e.held
  {
    assert Belongs(l, e.op, owners);
    if e.at == 0 { Ascending(e.op, 0, 0); }
  }

  /** Two executions that hold such locks work on different transactions. */
  lemma DifferentTransactions(s: State, j: Id, k: Id, l: Lock, m: Lock)
    requires Inv(s) && j in s.running && k in s.running && j != k
    requires l in s.running[j].held && m in s.running[k].held
    requires ClassOf(l) in {StopCommands, Facts} && ClassOf(m) in {StopCommands, Facts}
    ensures s.running[j].op.Stops() && s.running[k].op.Stops() && s.running[j].op.t != s.running[k].op.t
  {
    PastFirst(s.running[j], s.owners, l);
    PastFirst(s.running[k], s.owners, m);
  }

  predicate Recovering(s: State, i: Id) {
    i in s.running && s.running[i].op.Recovers()
  }

  /** How far up an execution waits; a recovery counts above the others that wait for its class. */
  function Height(s: State, i: Id): nat {
    2 * WantedRank(s, i) + (if Recovering(s, i) then 1 else 0)
  }

  /** At most one of them recovers each table. */
  ghost predicate OneRecovery(s: State, group: set<Id>) {
    forall i, j :: i in group && j in group && Recovering(s, i) && Recovering(s, j) && s.running[i].op == s.running[j].op ==> i == j
  }

  /** A holder that itself waits waits strictly further up than those who wait for it. */
  lemma WaitsClimb(s: State, i: Id, j: Id, k: Id)
    requires Inv(s) && WaitsFor(s, i, j) && WaitsFor(s, j, k) && OneRecovery(s, {i, j, k})
    ensures Height(s, i) < Height(s, j)
  {
    var a, b, c := s.running[i], s.running[j], s.running[k];
    var have, want := a.wants.value, b.wants.value;
    assert Disciplined(a, s.owners) && Disciplined(b, s.owners) && Disciplined(c, s.owners);
    assert Rank(ClassOf(have)) <= Rank(ClassOf(want));
    assert Belongs(have, b.op, s.owners) && Belongs(want, c.op, s.owners) && have != want;
    if ClassOf(have) == ClassOf(want) {
      if b.op.Recovers() {
        OneRecoveryWaits(s, i, j);
      } else {
        SameClass(have, want, b.op, s.owners);
        DifferentTransactions(s, j, k, have, want);
      }
    }
  }

  /** Who waits for a recovery is no recovery. */
  lemma OneRecoveryWaits(s: State, i: Id, j: Id)
    requires Inv(s) && WaitsFor(s, i, j) && Recovering(s, j)
    requires Recovering(s, i) ==> s.running[i].op != s.running[j].op
    ensures !Recovering(s, i)
  {
    assert Disciplined(s.running[i], s.owners) && Disciplined(s.running[j], s.owners);
  }

  lemma HighestWaiter(s: State, group: set<Id>) returns (i: Id)
    requires group != {}
    ensures i in group && forall j :: j in group ==> Height(s, j) <= Height(s, i)
    decreases group
  {
    i :| i in group;
    if group != {i} {
      var k := HighestWaiter(s, group - {i});
      if Height(s, k) > Height(s, i) { i := k; }
    }
  }

  lemma FreeMember(s: State, group: set<Id>) returns (free: Id)
    requires Inv(s) && group != {} && OneRecovery(s, group)
    ensures free in group && forall j :: j in group ==> !WaitsFor(s, free, j)
  {
    var i := HighestWaiter(s, group);
    free := i;
    if exists j :: j in group && WaitsFor(s, i, j) {
      var j :| j in group && WaitsFor(s, i, j);
      free := j;
      HighestIsNotWaitedFor(s, group, i, j);
    }
  }

  /**
   * In every reachable state, every non-empty group of executions with at most one recovery of each
   * table has a member that waits for none of them.
   */
  lemma NoCircularWait(steps: seq<Step>, group: set<Id>) returns (free: Id)
    requires group != {} && OneRecovery(Run(INITIAL, steps), group)
    ensures free in group && forall j :: j in group ==> !WaitsFor(Run(INITIAL, steps), free, j)
  {
    RunKeeps(INITIAL, steps);
    free := FreeMember(Run(INITIAL, steps), group);
  }

  /** Whom the highest waiter waits for does not wait itself. */
  lemma HighestIsNotWaitedFor(s: State, group: set<Id>, i: Id, j: Id)
    requires Inv(s) && OneRecovery(s, group) && i in group && j in group && WaitsFor(s, i, j)
    requires forall k :: k in group ==> Height(s, k) <= Height(s, i)
    ensures forall k :: k in group ==> !WaitsFor(s, j, k)
  {
    forall k | k in group ensures !WaitsFor(s, j, k) {
      if WaitsFor(s, j, k) {
        WaitsClimb(s, i, j, k);
        assert false;
      }
    }
  }

  // ----- two recoveries -----

  lemma RunOne(s: State, step: Step)
    ensures Run(s, [step]) == Apply(s, step)
  {
    assert Run(Apply(s, step), [step][1..]) == Apply(s, step);
  }

  lemma {:induction false} RunConcat(s: State, a: seq<Step>, b: seq<Step>)
    ensures Run(s, a + b) == Run(Run(s, a), b)
    decreases |a|
  {
    if a == [] {
      assert a + b == b;
    } else {
      assert (a + b)[1..] == a[1..] + b;
      RunConcat(Apply(s, a[0]), a[1..], b);
    }
  }

  /** Each takes one row of the table and then asks for the other's. */
  function Crossed(i: Id, j: Id, l: Lock, m: Lock): seq<Step> {
    [Request(i, l)] + [Grant(i)] + [Request(j, m)] + [Grant(j)] + [Request(i, m)] + [Request(j, l)]
  }

  ghost predicate Idle(s: State, i: Id, op: Operation) {
    i in s.running && s.running[i] == Execution(op, 0, {}, None)
  }

  ghost predicate Free(s: State, l: Lock) {
    forall j :: j in s.running ==> l !in s.running[j].held
  }

  /** A recovery may lock any row of its class. */
  lemma RecoversAny(op: Operation, l: Lock, owners: map<Id, Id>)
    requires op.Recovers() && Script(op)[0] == Acquire(ClassOf(l))
    ensures Belongs(l, op, owners)
  {}

  lemma Takes(s: State, i: Id, op: Operation, l: Lock)
    requires Idle(s, i, op) && op.Recovers() && Script(op)[0] == Acquire(ClassOf(l)) && Free(s, l)
    ensures Apply(Apply(s, Request(i, l)), Grant(i)) == s.(running := s.running[i := Execution(op, 0, {l}, None)])
  {
    RecoversAny(op, l, s.owners);
    var s1 := Apply(s, Request(i, l));
    assert s1.running[i] == Execution(op, 0, {}, Some(l));
    assert !HeldByOther(s1, i, l);
    assert {} + {l} == {l};
  }

  lemma Asks(s: State, i: Id, op: Operation, l: Lock, m: Lock)
    requires i in s.running && s.running[i] == Execution(op, 0, {l}, None) && l != m
    requires op.Recovers() && Script(op)[0] == Acquire(ClassOf(m))
    ensures Apply(s, Request(i, m)) == s.(running := s.running[i := Execution(op, 0, {l}, Some(m))])
  {
    RecoversAny(op, m, s.owners);
  }

  lemma CrossedRun(s: State, i: Id, j: Id, l: Lock, m: Lock)
    ensures Run(s, Crossed(i, j, l, m)) ==
            Apply(Apply(Apply(Apply(Apply(Apply(s, Request(i, l)), Grant(i)), Request(j, m)), Grant(j)), Request(i, m)), Request(j, l))
  {
    var a := [Request(i, l)] + [Grant(i)];
    var b := a + [Request(j, m)];
    var c := b + [Grant(j)];
    var d := c + [Request(i, m)];
    RunConcat(s, d, [Request(j, l)]);
    RunConcat(s, c, [Request(i, m)]);
    RunConcat(s, b, [Grant(j)]);
    RunConcat(s, a, [Request(j, m)]);
    RunConcat(s, [Request(i, l)], [Grant(i)]);
    RunOne(s, Request(i, l));
    RunOne(Run(s, [Request(i, l)]), Grant(i));
    RunOne(Run(s, a), Request(j, m));
    RunOne(Run(s, b), Grant(j));
    RunOne(Run(s, c), Request(i, m));
    RunOne(Run(s, d), Request(j, l));
  }

  /** In any state, any two idle recoveries of one table and any two free rows of it make a circle. */
  lemma TwoRecoveriesDeadlock(s: State, i: Id, j: Id, op: Operation, l: Lock, m: Lock)
    requires op.Recovers() && i != j && Idle(s, i, op) && Idle(s, j, op)
    requires l != m && Free(s, l) && Free(s, m)
    requires Script(op)[0] == Acquire(ClassOf(l)) && Script(op)[0] == Acquire(ClassOf(m))
    ensures var r := Run(s, Crossed(i, j, l, m)); WaitsFor(r, i, j) && WaitsFor(r, j, i)
    ensures WithoutStart(Crossed(i, j, l, m))
  {
    CrossedRun(s, i, j, l, m);
    Takes(s, i, op, l);
    var s2 := s.(running := s.running[i := Execution(op, 0, {l}, None)]);
    Takes(s2, j, op, m);
    var s4 := s2.(running := s2.running[j := Execution(op, 0, {m}, None)]);
    Asks(s4, i, op, l, m);
    var s5 := s4.(running := s4.running[i := Execution(op, 0, {l}, Some(m))]);
    Asks(s5, j, op, m, l);
  }

  // ----- exactly then -----

  predicate WithoutStart(steps: seq<Step>) {
    forall k :: 0 <= k < |steps| ==> !steps[k].Start?
  }

  /** A non-empty group of executions of which each waits for another one. */
  ghost predicate Circular(s: State, group: set<Id>) {
    group != {} && forall i :: i in group ==> WaitsInside(s, i, group)
  }

  ghost predicate WaitsInside(s: State, i: Id, group: set<Id>) {
    exists j :: j in group && WaitsFor(s, i, j)
  }

  /** Nobody has locked or asked for anything yet. */
  ghost predicate AllIdle(s: State) {
    forall i :: i in s.running ==> Idle(s, i, s.running[i].op)
  }

  ghost predicate TwoRecoverOneTable(s: State) {
    exists i, j :: i in s.running && j in s.running && i != j && Recovering(s, i) && s.running[i].op == s.running[j].op
  }

  ghost predicate LeadsIntoCircle(s: State) {
    exists steps, group :: WithoutStart(steps) && Circular(Run(s, steps), group)
  }

  lemma StepKeepsOperations(s: State, step: Step)
    requires !step.Start?
    ensures var s' := Apply(s, step);
            s'.running.Keys <= s.running.Keys && forall i :: i in s'.running ==> s'.running[i].op == s.running[i].op
  {}

  lemma {:induction false} RunKeepsOperations(s: State, steps: seq<Step>)
    requires WithoutStart(steps)
    ensures var s' := Run(s, steps);
            s'.running.Keys <= s.running.Keys && forall i :: i in s'.running ==> s'.running[i].op == s.running[i].op
    decreases |steps|
  {
    if steps != [] {
      assert !steps[0].Start?;
      StepKeepsOperations(s, steps[0]);
      RunKeepsOperations(Apply(s, steps[0]), steps[1..]);
    }
  }

  /** A circle contains two recoveries of one table. */
  lemma CircleNeedsTwo(s: State, group: set<Id>)
    requires Inv(s) && OneRecovery(s, group)
    ensures !Circular(s, group)
  {
    if group != {} {
      var free := FreeMember(s, group);
      assert !WaitsInside(s, free, group);
    }
  }

  lemma OneEach(s: State, s': State, group: set<Id>)
    requires !TwoRecoverOneTable(s)
    requires s'.running.Keys <= s.running.Keys && forall i :: i in s'.running ==> s'.running[i].op == s.running[i].op
    ensures OneRecovery(s', group)
  {
    forall i, j | i in group && j in group && Recovering(s', i) && Recovering(s', j) && s'.running[i].op == s'.running[j].op
      ensures i == j
    {
      assert Recovering(s, i);
    }
  }

  lemma NoCircleWithoutTwo(s: State, steps: seq<Step>, group: set<Id>)
    requires AllIdle(s) && !TwoRecoverOneTable(s) && WithoutStart(steps)
    ensures !Circular(Run(s, steps), group)
  {
    IdleIsDisciplined(s);
    RunKeeps(s, steps);
    RunKeepsOperations(s, steps);
    OneEach(s, Run(s, steps), group);
    CircleNeedsTwo(Run(s, steps), group);
  }

  lemma IdleIsDisciplined(s: State)
    requires AllIdle(s)
    ensures Inv(s)
  {}

  lemma CircleOfTwo(s: State)
    requires AllIdle(s) && TwoRecoverOneTable(s)
    ensures LeadsIntoCircle(s)
  {
    var i, j :| i in s.running && j in s.running && i != j && Recovering(s, i) && s.running[i].op == s.running[j].op;
    var op := s.running[i].op;
    assert Idle(s, i, op) && Idle(s, j, op);
    if op.RecoverStarts? {
      MutualIsCircular(s, i, j, op, StartRow(0), StartRow(1));
    } else {
      MutualIsCircular(s, i, j, op, WorkflowRow(0), WorkflowRow(1));
    }
  }

  lemma MutualIsCircular(s: State, i: Id, j: Id, op: Operation, l: Lock, m: Lock)
    requires AllIdle(s) && op.Recovers() && i != j && Idle(s, i, op) && Idle(s, j, op) && l != m
    requires Script(op)[0] == Acquire(ClassOf(l)) && Script(op)[0] == Acquire(ClassOf(m))
    ensures LeadsIntoCircle(s)
  {
    NothingHeld(s, l);
    NothingHeld(s, m);
    TwoRecoveriesDeadlock(s, i, j, op, l, m);
    LedIntoCircle(s, Crossed(i, j, l, m), i, j);
  }

  lemma NothingHeld(s: State, l: Lock)
    requires AllIdle(s)
    ensures Free(s, l)
  {
    forall k | k in s.running ensures l !in s.running[k].held { assert Idle(s, k, s.running[k].op); }
  }

  lemma LedIntoCircle(s: State, steps: seq<Step>, i: Id, j: Id)
    requires WithoutStart(steps) && WaitsFor(Run(s, steps), i, j) && WaitsFor(Run(s, steps), j, i)
    ensures LeadsIntoCircle(s)
  {
    var r, group := Run(s, steps), {i, j};
    assert j in group && WaitsFor(r, i, j) && i in group && WaitsFor(r, j, i);
    assert WaitsInside(r, i, group) && WaitsInside(r, j, group);
    assert Circular(r, group);
  }

  /** Executions that start idle can be led into a circle if and only if two of them recover one table. */
  lemma CircleIff(s: State)
    requires AllIdle(s)
    ensures LeadsIntoCircle(s) <==> TwoRecoverOneTable(s)
  {
    if TwoRecoverOneTable(s) {
      CircleOfTwo(s);
    } else {
      forall steps, group | WithoutStart(steps) ensures !Circular(Run(s, steps), group) {
        NoCircleWithoutTwo(s, steps, group);
      }
    }
  }

  // ----- bounded retry -----

  const ATTEMPTS := 3

  /** One attempt as PostgreSQL may end it; only `Unknown` leaves it open whether the commit happened. */
  datatype Attempt = Committed | AbortedRetryable | Failed | Unknown(tookEffect: bool)

  predicate TookEffect(a: Attempt) {
    a.Committed? || (a.Unknown? && a.tookEffect)
  }

  function Effects(attempts: seq<Attempt>): nat {
    if attempts == [] then 0
    else Effects(attempts[..|attempts| - 1]) + (if TookEffect(attempts[|attempts| - 1]) then 1 else 0)
  }

  datatype Outcome = Success | Failure(last: Attempt) | Cancelled

  predicate AllAborted(attempts: seq<Attempt>) {
    forall i :: 0 <= i < |attempts| ==> attempts[i].AbortedRetryable?
  }

  lemma AbortedHaveNoEffect(attempts: seq<Attempt>)
    requires AllAborted(attempts)
    ensures Effects(attempts) == 0
  {
    if attempts != [] { AbortedHaveNoEffect(attempts[..|attempts| - 1]); }
  }

  /**
   * `attempt(i)` is how the i-th try would end and `cancelled(i)` whether the context is done
   * before it. At most three tries, effects at most once, success just when the last try
   * committed, and a further try only after PostgreSQL aborted the previous one.
   */
  method Retry(attempt: nat -> Attempt, cancelled: nat -> bool) returns (outcome: Outcome, tries: seq<Attempt>)
    ensures |tries| <= ATTEMPTS && forall i :: 0 <= i < |tries| ==> tries[i] == attempt(i)
    ensures Effects(tries) <= 1
    ensures outcome.Success? <==> |tries| > 0 && tries[|tries| - 1].Committed?
    ensures outcome.Success? ==> Effects(tries) == 1
    ensures |tries| > 0 ==> AllAborted(tries[..|tries| - 1])
    ensures outcome.Cancelled? ==> AllAborted(tries) && |tries| < ATTEMPTS && cancelled(|tries|)
    ensures outcome.Failure? ==>
              && |tries| > 0 && outcome.last == tries[|tries| - 1]
              && (outcome.last.AbortedRetryable? ==> |tries| == ATTEMPTS)
  {
    tries := [];
    var n := 0;
    while n < ATTEMPTS
      invariant n == |tries| <= ATTEMPTS
      invariant AllAborted(tries) && forall i :: 0 <= i < n ==> tries[i] == attempt(i)
      invariant n < ATTEMPTS || (|tries| > 0 && tries[|tries| - 1].AbortedRetryable?)
    {
      if cancelled(n) {
        AbortedHaveNoEffect(tries);
        return Cancelled, tries;
      }
      var a := attempt(n);
      AbortedHaveNoEffect(tries);
      assert (tries + [a])[..n] == tries;
      tries := tries + [a];
      if a.Committed? {
        return Success, tries;
      }
      if !a.AbortedRetryable? || n + 1 == ATTEMPTS {
        return Failure(a), tries;
      }
      n := n + 1;
    }
    AbortedHaveNoEffect(tries);
    assert AllAborted(tries[..|tries| - 1]);
    outcome := Failure(tries[|tries| - 1]);
  }
}
