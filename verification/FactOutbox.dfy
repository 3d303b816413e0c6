/**
 * Delivery of outbox facts by any number of workers (internal/store/v1_lifecycle_postgres.go): expiring leases with
 * fencing tokens, marks, requeues. The trace outbox (internal/store/v1_trace_delivery.go) is the same without requeues.
 */
module FactOutbox {
  import opened Base

  datatype Status = Pending | Delivering | Retrying | Delivered | ReconciliationRequired

  const LEASE: int := 30 * SECOND

  /** The digest is a function of the immutable content and of nothing else. */
  datatype Content = Content(id: Id, factType: Id, schemaVersion: int, occurredAt: Time, producer: Id, payload: Id)
  datatype Digest = DigestOf(content: Content)
  datatype Envelope = Envelope(content: Content, digest: Digest)

  datatype Row = Row(
    content: Content, digest: Digest, status: Status, retries: nat, nextRetryAt: Time,
    claimedUntil: Option<Time>, token: Option<Id>, createdAt: Time)

  /** Rows by fact id, the claim tokens generated so far, and per fact what happened to it. */
  datatype State = State(rows: map<Id, Row>, tokens: set<Id>, history: map<Id, seq<Event>>)

  datatype Event =
    | Claimed(token: Id, at: Time, sent: Envelope)
    | Marked(token: Id, success: bool, terminal: bool, next: Time)
    | Requeued(at: Time)

  const EMPTY: State := State(map[], {}, map[])

  /** insertV1FactTx: normalize the timestamp, then take the digest over the immutable content. */
  function Inserted(c: Content, now: Time): Row {
    var content := c.(occurredAt := Stored(c.occurredAt));
    Row(content, DigestOf(content), Pending, 0, content.occurredAt, None, None, Stored(now))
  }

  predicate Due(row: Row, now: Time) {
    && ((row.status in {Pending, Retrying} && row.nextRetryAt <= now)
        || (row.status == Delivering && row.claimedUntil.Some? && row.claimedUntil.value < now))
    && (row.claimedUntil.None? || row.claimedUntil.value < now)
  }

  /** The wire representation read back by a claim; the timestamp is normalized again. */
  function EnvelopeOf(row: Row): Envelope {
    Envelope(row.content.(occurredAt := Stored(row.content.occurredAt)), row.digest)
  }

  function ClaimedRow(row: Row, now: Time, token: Id): Row {
    row.(status := Delivering, claimedUntil := Some(now + LEASE), token := Some(token))
  }

  predicate Current(row: Row, token: Id) {
    row.status == Delivering && row.token == Some(token)
  }

  function OutcomeOf(success: bool, terminal: bool): Status {
    if terminal then ReconciliationRequired else if success then Delivered else Retrying
  }

  function MarkedRow(row: Row, outcome: Status, next: Time): Row {
    row.(status := outcome, retries := if outcome == Delivered then row.retries else row.retries + 1,
         nextRetryAt := Stored(next), claimedUntil := None, token := None)
  }

  function RequeuedRow(row: Row, now: Time): Row {
    row.(status := Pending, claimedUntil := None, token := None, nextRetryAt := Stored(now))
  }

  datatype Step =
    | Insert(content: Content, now: Time)
    | Claim(token: Id, now: Time, limit: int, chosen: set<Id>)
    | Mark(fact: Id, token: Id, success: bool, terminal: bool, next: Time)
    | Requeue(fact: Id, now: Time)

  /** `chosen` is what ORDER BY ... FOR UPDATE SKIP LOCKED LIMIT leaves: some due rows, at most `limit`. */
  predicate Claimable(s: State, step: Step)
    requires step.Claim?
  {
    step.limit >= 1 && step.token !in s.tokens && |step.chosen| <= step.limit
    && forall f :: f in step.chosen ==> f in s.rows && Due(s.rows[f], Stored(step.now))
  }

  function Appended(history: map<Id, seq<Event>>, f: Id, e: Event): map<Id, seq<Event>> {
    history[f := (if f in history then history[f] else []) + [e]]
  }

  function Apply(s: State, step: Step): State {
    match step
    case Insert(c, now) =>
      if c.id in s.rows then s
      else s.(rows := s.rows[c.id := Inserted(c, now)], history := s.history[c.id := []])
    case Claim(token, now, _, chosen) =>
      if !Claimable(s, step) then s
      else
        s.(tokens := s.tokens + {token},
           rows := map f | f in s.rows ::
                     if f in chosen then ClaimedRow(s.rows[f], Stored(now), token) else s.rows[f],
           history := map f | f in s.history ::
                     if f in chosen && f in s.rows
                     then s.history[f] + [Claimed(token, Stored(now), EnvelopeOf(s.rows[f]))] else s.history[f])
    case Mark(f, token, success, terminal, next) =>
      if f !in s.rows || !Current(s.rows[f], token) then s  // ErrV1FactClaimLost
      else
        var outcome := OutcomeOf(success, terminal);
        s.(rows := s.rows[f := MarkedRow(s.rows[f], outcome, next)],
           history := Appended(s.history, f, Marked(token, success, terminal, Stored(next))))
    case Requeue(f, now) =>
      if f !in s.rows || s.rows[f].status != ReconciliationRequired then s
      else s.(rows := s.rows[f := RequeuedRow(s.rows[f], now)], history := Appended(s.history, f, Requeued(Stored(now))))
  }

  ghost function Run(s: State, steps: seq<Step>): State
    decreases |steps|
  {
    if steps == [] then s else Run(Apply(s, steps[0]), steps[1..])
  }

  // ----- the protocol each fact follows -----

  /** What may happen to a fact next, given what happened last. */
  predicate MayFollow(last: Option<Event>, e: Event) {
    match e
    case Claimed(_, at, _) =>
      (match last
       case None => true
       case Some(Claimed(_, earlier, _)) => earlier + LEASE < at
       case Some(Marked(_, success, terminal, next)) => !success && !terminal && next <= at
       case Some(Requeued(requeuedAt)) => requeuedAt <= at)
    case Marked(token, _, _, _) => last.Some? && last.value.Claimed? && last.value.token == token
    case Requeued(_) => last.Some? && last.value.Marked? && last.value.terminal
  }

  function Previous(h: seq<Event>, i: nat): Option<Event>
    requires i <= |h|
  {
    if i == 0 then None else Some(h[i - 1])
  }

  function LastOf(h: seq<Event>): Option<Event> {
    Previous(h, |h|)
  }

  ghost predicate Protocol(h: seq<Event>) {
    && (forall i :: 0 <= i < |h| ==> MayFollow(Previous(h, i), h[i]))
    && (forall i, j :: 0 <= i < j < |h| && h[i].Claimed? && h[j].Claimed? ==> h[i].token != h[j].token)
  }

  /** The receiver took the fact; a terminal mark never delivers, whatever it says about success. */
  predicate Delivers(e: Event) {
    e.Marked? && e.success && !e.terminal
  }

  function FailedMarks(h: seq<Event>): nat {
    if h == [] then 0
    else FailedMarks(h[..|h| - 1]) + (if h[|h| - 1].Marked? && !Delivers(h[|h| - 1]) then 1 else 0)
  }

  /** The durable row is determined by the history: status, lease and token by the last event. */
  ghost predicate Reflects(row: Row, h: seq<Event>) {
    && row.content.occurredAt == Stored(row.content.occurredAt) && row.digest == DigestOf(row.content)
    && row.retries == FailedMarks(h)
    && (match LastOf(h)
        case None =>
          row.status == Pending && row.token == None && row.claimedUntil == None && row.nextRetryAt == row.content.occurredAt
        case Some(Claimed(token, at, _)) =>
          row.status == Delivering && row.token == Some(token) && row.claimedUntil == Some(at + LEASE)
        case Some(Marked(_, success, terminal, next)) =>
          && (row.status == Delivered <==> success && !terminal) && (row.status == ReconciliationRequired <==> terminal)
          && (row.status == Retrying <==> !success && !terminal)
          && row.token == None && row.claimedUntil == None && row.nextRetryAt == next
        case Some(Requeued(at)) =>
          row.status == Pending && row.token == None && row.claimedUntil == None && row.nextRetryAt == at)
    && (forall i :: 0 <= i < |h| && h[i].Claimed? ==> h[i].sent == Envelope(row.content, row.digest))
  }

  ghost predicate FactOk(f: Id, row: Row, h: seq<Event>, tokens: set<Id>) {
    && Protocol(h) && Reflects(row, h) && row.content.id == f
    && (forall i :: 0 <= i < |h| && h[i].Claimed? ==> h[i].token in tokens)
  }

  ghost predicate Inv(s: State) {
    s.rows.Keys == s.history.Keys && forall f :: f in s.rows ==> FactOk(f, s.rows[f], s.history[f], s.tokens)
  }

  lemma ProtocolAppend(h: seq<Event>, e: Event)
    requires Protocol(h) && MayFollow(LastOf(h), e)
    requires e.Claimed? ==> forall i :: 0 <= i < |h| && h[i].Claimed? ==> h[i].token != e.token
    ensures Protocol(h + [e])
  {
    var g := h + [e];
    forall i | 0 <= i < |g| ensures MayFollow(Previous(g, i), g[i]) {
      if i < |h| { assert MayFollow(Previous(h, i), h[i]) && Previous(g, i) == Previous(h, i); }
    }
  }

  lemma DueMayBeClaimed(row: Row, h: seq<Event>, at: Time, token: Id, sent: Envelope)
    requires Protocol(h) && Reflects(row, h) && Due(row, at)
    ensures MayFollow(LastOf(h), Claimed(token, at, sent))
  {
    if h != [] { assert MayFollow(Previous(h, |h| - 1), h[|h| - 1]); }
  }

  lemma ClaimReflected(row: Row, h: seq<Event>, token: Id, at: Time)
    requires Reflects(row, h)
    ensures Reflects(ClaimedRow(row, at, token), h + [Claimed(token, at, EnvelopeOf(row))])
  {
    var e := Claimed(token, at, EnvelopeOf(row));
    assert e.sent == Envelope(row.content, row.digest);
  }

  lemma ClaimKeeps(f: Id, row: Row, h: seq<Event>, tokens: set<Id>, token: Id, at: Time)
    requires FactOk(f, row, h, tokens) && Due(row, at) && token !in tokens
    ensures FactOk(f, ClaimedRow(row, at, token), h + [Claimed(token, at, EnvelopeOf(row))], tokens + {token})
  {
    DueMayBeClaimed(row, h, at, token, EnvelopeOf(row));
    ProtocolAppend(h, Claimed(token, at, EnvelopeOf(row)));
    ClaimReflected(row, h, token, at);
  }

  lemma MarkKeeps(f: Id, row: Row, h: seq<Event>, tokens: set<Id>, token: Id, success: bool, terminal: bool, next: Time)
    requires FactOk(f, row, h, tokens) && Current(row, token)
    ensures FactOk(f, MarkedRow(row, OutcomeOf(success, terminal), next), h + [Marked(token, success, terminal, Stored(next))], tokens)
  {
    var e := Marked(token, success, terminal, Stored(next));
    ProtocolAppend(h, e);
    assert Reflects(MarkedRow(row, OutcomeOf(success, terminal), next), h + [e]);
  }

  lemma RequeueKeeps(f: Id, row: Row, h: seq<Event>, tokens: set<Id>, now: Time)
    requires FactOk(f, row, h, tokens) && row.status == ReconciliationRequired
    ensures FactOk(f, RequeuedRow(row, now), h + [Requeued(Stored(now))], tokens)
  {
    var e := Requeued(Stored(now));
    ProtocolAppend(h, e);
    assert Reflects(RequeuedRow(row, now), h + [e]);
  }

  lemma InsertKeeps(c: Content, now: Time, tokens: set<Id>)
    ensures FactOk(c.id, Inserted(c, now), [], tokens)
  {}

  lemma FactKeeps(s: State, step: Step, f: Id)
    requires s.rows.Keys == s.history.Keys && f in s.rows && FactOk(f, s.rows[f], s.history[f], s.tokens)
    ensures var s' := Apply(s, step);
            f in s'.rows && f in s'.history && FactOk(f, s'.rows[f], s'.history[f], s'.tokens)
  {
    match step
    case Claim(token, now, _, chosen) =>
      if Claimable(s, step) && f in chosen { ClaimKeeps(f, s.rows[f], s.history[f], s.tokens, token, Stored(now)); }
    case Mark(g, token, success, terminal, next) =>
      if f == g && Current(s.rows[f], token) {
        MarkKeeps(f, s.rows[f], s.history[f], s.tokens, token, success, terminal, next);
      }
    case Requeue(g, now) =>
      if f == g && s.rows[f].status == ReconciliationRequired { RequeueKeeps(f, s.rows[f], s.history[f], s.tokens, now); }
    case Insert(_, _) =>
  }

  lemma StepKeeps(s: State, step: Step)
    requires Inv(s)
    ensures Inv(Apply(s, step))
  {
    var s' := Apply(s, step);
    forall f | f in s'.rows ensures f in s'.history && FactOk(f, s'.rows[f], s'.history[f], s'.tokens) {
      if f in s.rows { FactKeeps(s, step, f); } else { InsertKeeps(step.content, step.now, s.tokens); }
    }
  }

  lemma {:induction false} RunKeeps(s: State, steps: seq<Step>)
    requires Inv(s)
    ensures Inv(Run(s, steps))
    decreases |steps|
  {
    if steps != [] {
      StepKeeps(s, steps[0]);
      RunKeeps(Apply(s, steps[0]), steps[1..]);
    }
  }

  // ----- what that means -----

  /**
   * For any workers, tokens and requeues: every fact's history follows the protocol (a mark
   * directly follows the claim whose token it carries, a claim never cuts a live lease short,
   * nothing follows a delivery), and its row is what the history says: DELIVERED exactly after a
   * successful mark that is not terminal, RECONCILIATION_REQUIRED exactly after a terminal one.
   */
  lemma DeliveriesFollowProtocol(steps: seq<Step>, f: Id)
    requires f in Run(EMPTY, steps).rows
    ensures var s := Run(EMPTY, steps);
            && f in s.history && Protocol(s.history[f]) && Reflects(s.rows[f], s.history[f])
  {
    RunKeeps(EMPTY, steps);
  }

  /** A fact can be claimed exactly when its time has come: occurred, lease expired, retry or requeue due. */
  lemma DueIff(steps: seq<Step>, f: Id, at: Time)
    requires f in Run(EMPTY, steps).rows
    ensures var s := Run(EMPTY, steps);
            f in s.history && (Due(s.rows[f], at) <==>
              match LastOf(s.history[f])
              case None => s.rows[f].content.occurredAt <= at
              case Some(Claimed(_, since, _)) => since + LEASE < at
              case Some(Marked(_, success, terminal, next)) => !success && !terminal && next <= at
              case Some(Requeued(requeuedAt)) => requeuedAt <= at)
  {
    DeliveriesFollowProtocol(steps, f);
  }

  /** What the holder of the latest claim reports decides the row: delivered, to be reconciled, or to be retried at the given time. */
  lemma MarkDecides(s: State, f: Id, token: Id, success: bool, terminal: bool, next: Time)
    requires f in s.rows && Current(s.rows[f], token)
    ensures var s' := Apply(s, Mark(f, token, success, terminal, next));
            && f in s'.rows
            && (s'.rows[f].status == Delivered <==> success && !terminal)
            && (s'.rows[f].status == ReconciliationRequired <==> terminal)
            && (s'.rows[f].status == Retrying <==> !success && !terminal)
            && s'.rows[f].retries == s.rows[f].retries + (if success && !terminal then 0 else 1)
            && s'.rows[f].nextRetryAt == Stored(next) && s'.rows[f].token == None && s'.rows[f].claimedUntil == None
            && s'.rows == s.rows[f := s'.rows[f]]
            && s'.rows[f].content == s.rows[f].content && s'.rows[f].digest == s.rows[f].digest
  {}

  /** A mark is effective exactly for the holder of the latest claim, and then only once. */
  lemma OnlyLatestClaimMarks(steps: seq<Step>, f: Id, token: Id, success: bool, terminal: bool, next: Time)
    requires f in Run(EMPTY, steps).rows
    ensures var s := Run(EMPTY, steps);
            var mark := Mark(f, token, success, terminal, next);
            && f in s.history
            && (Apply(s, mark) != s <==>
                  var last := LastOf(s.history[f]); last.Some? && last.value.Claimed? && last.value.token == token)
            && forall again: Step :: again.Mark? && again.fact == f && again.token == token ==>
                 Apply(Apply(s, mark), again) == Apply(s, mark)
  {
    DeliveriesFollowProtocol(steps, f);
    var s := Run(EMPTY, steps);
    var mark := Mark(f, token, success, terminal, next);
    if Current(s.rows[f], token) { assert Apply(s, mark).rows[f].token == None; }
  }

  lemma TerminalStep(s: State, step: Step, f: Id)
    requires s.rows.Keys == s.history.Keys && f in s.rows
    requires s.rows[f].status == Delivered || (s.rows[f].status == ReconciliationRequired && !step.Requeue?)
    ensures var s' := Apply(s, step);
            f in s'.rows && f in s'.history && s'.rows[f] == s.rows[f] && s'.history[f] == s.history[f]
  {}

  /** DELIVERED is terminal, and so is any fact's content and digest. */
  lemma {:induction false} DeliveredIsFinal(s: State, steps: seq<Step>, f: Id)
    requires Inv(s) && f in s.rows && s.rows[f].status == Delivered
    ensures var s' := Run(s, steps);
            && f in s'.rows && s'.rows[f] == s.rows[f]
            && f in s.history && f in s'.history && s'.history[f] == s.history[f]
    decreases |steps|
  {
    if steps != [] {
      StepKeeps(s, steps[0]);
      TerminalStep(s, steps[0], f);
      DeliveredIsFinal(Apply(s, steps[0]), steps[1..], f);
    }
  }

  /** Every envelope ever sent for a fact is the same, and matches the digest taken at insert. */
  lemma EnvelopesAreIdentical(steps: seq<Step>, f: Id, i: nat, j: nat)
    requires f in Run(EMPTY, steps).rows
    ensures var s := Run(EMPTY, steps);
            && f in s.history
            && (i < |s.history[f]| && j < |s.history[f]| && s.history[f][i].Claimed? && s.history[f][j].Claimed? ==>
                  s.history[f][i].sent == s.history[f][j].sent
                  && s.history[f][i].sent.digest == DigestOf(s.history[f][i].sent.content)
                  && s.history[f][i].sent.content.id == f)
  {
    RunKeeps(EMPTY, steps);
  }

  predicate NoRequeues(steps: seq<Step>) {
    forall i :: 0 <= i < |steps| ==> !steps[i].Requeue?
  }

  /** The trace outbox has no requeue: there a terminal refusal is final as well. */
  lemma {:induction false} RefusalIsFinalWithoutRequeue(s: State, steps: seq<Step>, f: Id)
    requires Inv(s) && f in s.rows && s.rows[f].status == ReconciliationRequired && NoRequeues(steps)
    ensures var s' := Run(s, steps);
            && f in s'.rows && s'.rows[f] == s.rows[f]
            && f in s.history && f in s'.history && s'.history[f] == s.history[f]
    decreases |steps|
  {
    if steps != [] {
      StepKeeps(s, steps[0]);
      TerminalStep(s, steps[0], f);
      RefusalIsFinalWithoutRequeue(Apply(s, steps[0]), steps[1..], f);
    }
  }

  // ----- content -----

  lemma {:induction false} ContentStays(s: State, steps: seq<Step>, f: Id)
    requires f in s.rows
    ensures f in Run(s, steps).rows && Run(s, steps).rows[f].content == s.rows[f].content
    decreases |steps|
  {
    if steps != [] {
      ContentStep(s, steps[0], f);
      ContentStays(Apply(s, steps[0]), steps[1..], f);
    }
  }

  lemma ContentStep(s: State, step: Step, f: Id)
    requires f in s.rows
    ensures f in Apply(s, step).rows && Apply(s, step).rows[f].content == s.rows[f].content
  {}

  /** Whatever happens after its insertion, a fact is sent with the content it was inserted with, its time in whole microseconds. */
  lemma SentAsInserted(steps: seq<Step>, c: Content, now: Time, more: seq<Step>, i: nat)
    requires c.id !in Run(EMPTY, steps).rows
    ensures var s := Run(Apply(Run(EMPTY, steps), Insert(c, now)), more);
            var content := c.(occurredAt := Stored(c.occurredAt));
            && c.id in s.rows && s.rows[c.id].content == content && c.id in s.history
            && (i < |s.history[c.id]| && s.history[c.id][i].Claimed? ==>
                  s.history[c.id][i].sent == Envelope(content, DigestOf(content)))
  {
    var inserted := Apply(Run(EMPTY, steps), Insert(c, now));
    RunKeeps(EMPTY, steps);
    StepKeeps(Run(EMPTY, steps), Insert(c, now));
    RunKeeps(inserted, more);
    ContentStays(inserted, more, c.id);
  }
}
