/**
 * The outbox methods of the store (internal/store/v1_lifecycle_postgres.go), each proved to commit
 * the step of FactOutbox that its run theorems are about. `tokens` and `history` only record.
 */
module OutboxStore {
  import opened Base
  import opened FactOutbox
  import opened Sorting

  ghost function Available(rows: map<Id, Row>, now: Time, locked: set<Id>): set<Id> {
    set f | f in rows && f !in locked && Due(rows[f], now)
  }

  /** ORDER BY next_retry_at, created_at. */
  predicate NotLater(a: Row, b: Row) {
    a.nextRetryAt < b.nextRetryAt || (a.nextRetryAt == b.nextRetryAt && a.createdAt <= b.createdAt)
  }

  predicate Precedes(rows: map<Id, Row>, f: Id, g: Id) {
    f in rows && (g in rows ==> NotLater(rows[f], rows[g]))
  }

  /** As many available rows as the limit allows, none of them after one left behind. */
  ghost predicate IsEarliest(ids: set<Id>, rows: map<Id, Row>, now: Time, locked: set<Id>, limit: nat) {
    var available := Available(rows, now, locked);
    && ids <= available && |ids| == Least(limit, |available|)
    && (forall f, g :: f in ids && g in available - ids ==> Precedes(rows, f, g))
  }

  /** The chosen rows are due and unlocked, and whatever is left behind is not due for longer, or equally long and not older. */
  lemma EarliestIsOldest(ids: set<Id>, rows: map<Id, Row>, now: Time, locked: set<Id>, limit: nat, f: Id, g: Id)
    requires IsEarliest(ids, rows, now, locked, limit) && f in ids
    ensures f in rows && f !in locked && Due(rows[f], now)
    ensures g in rows && g !in locked && Due(rows[g], now) && g !in ids ==>
              && |ids| == limit
              && (rows[f].nextRetryAt < rows[g].nextRetryAt
                  || (rows[f].nextRetryAt == rows[g].nextRetryAt && rows[f].createdAt <= rows[g].createdAt))
  {
    var available := Available(rows, now, locked);
    if g in available - ids {
      assert Precedes(rows, f, g);
      assert |available - ids| == |available| - |ids|;
    }
  }

  /** Rows missing from the table sort last. */
  predicate InOrder(rows: map<Id, Row>, f: Id, g: Id) {
    g !in rows || Precedes(rows, f, g)
  }

  method SortedByRetry(rows: map<Id, Row>, found: seq<Id>) returns (ids: seq<Id>)
    ensures multiset(ids) == multiset(found)
    ensures forall i, j :: 0 <= i < j < |ids| ==> InOrder(rows, ids[i], ids[j])
  {
    var order := (f: Id, g: Id) => InOrder(rows, f, g);
    SortIsOrderedPermutation(found, order);
    ids := Sort(found, order);
    assert forall i, j :: 0 <= i < j < |ids| ==> order(ids[i], ids[j]);
  }

  lemma PrefixIsEarliest(sorted: seq<Id>, rows: map<Id, Row>, now: Time, locked: set<Id>, limit: nat)
    requires Lists(sorted, Available(rows, now, locked))
    requires forall i, j :: 0 <= i < j < |sorted| ==> InOrder(rows, sorted[i], sorted[j])
    ensures IsEarliest(ElementsOf(if |sorted| > limit then sorted[..limit] else sorted), rows, now, locked, limit)
  {
    var available := Available(rows, now, locked);
    ListedSet(sorted, available);
    var batch := if |sorted| > limit then sorted[..limit] else sorted;
    assert forall i :: 0 <= i < |batch| ==> batch[i] == sorted[i];
    DistinctElements(batch);
    var ids := ElementsOf(batch);
    forall f, g | f in ids && g in available - ids ensures Precedes(rows, f, g) {
      var i :| 0 <= i < |batch| && batch[i] == f;
      assert g in sorted;
      var j :| 0 <= j < |sorted| && sorted[j] == g;
      assert InOrder(rows, sorted[i], sorted[j]);
    }
  }

  /** The rows read back by RETURNING, one envelope each. */
  method Envelopes(rows: map<Id, Row>, ids: seq<Id>) returns (sent: seq<Envelope>)
    requires forall f :: f in ids ==> f in rows
    ensures |sent| == |ids| && forall k :: 0 <= k < |ids| ==> ids[k] in rows && sent[k] == EnvelopeOf(rows[ids[k]])
  {
    sent := [];
    while |sent| < |ids|
      invariant |sent| <= |ids| && forall k :: 0 <= k < |sent| ==> sent[k] == EnvelopeOf(rows[ids[k]])
    {
      sent := sent + [EnvelopeOf(rows[ids[|sent|]])];
    }
  }

  /** What a requeue records beside the row it sends back. */
  datatype Audit = Audit(fact: Id, correlation: Id, previous: Status)

  class Store {
    var rows: map<Id, Row>
    var audit: seq<Audit>
    ghost var tokens: set<Id>
    ghost var history: map<Id, seq<Event>>

    ghost function Value(): State
      reads this
    {
      State(rows, tokens, history)
    }

    constructor ()
      ensures Value() == EMPTY && audit == []
    {
      rows, audit, tokens, history := map[], [], {}, map[];
    }

    method InsertFact(c: Content, now: Time)
      modifies this`rows, this`tokens, this`history
      ensures Value() == Apply(old(Value()), Insert(c, now))
    {
      if c.id in rows {
        return;
      }
      var occurredAt := c.occurredAt - c.occurredAt % MICROSECOND;
      var content := c.(occurredAt := occurredAt);
      rows := rows[c.id := Row(content, DigestOf(content), Pending, 0, occurredAt, None, None, Stored(now))];
      history := history[c.id := []];
    }

    /** Every due row that no other transaction has locked, in table order. */
    method CollectDue(now: Time, locked: set<Id>) returns (found: seq<Id>)
      ensures Lists(found, Available(rows, now, locked))
    {
      found := [];
      var unseen := rows.Keys;
      ghost var available := Available(rows, now, locked);
      while unseen != {}
        invariant unseen <= rows.Keys && Lists(found, available - unseen)
        decreases |unseen|
      {
        var f :| f in unseen;
        ghost var seen := available - unseen;
        unseen := unseen - {f};
        if f !in locked && Due(rows[f], now) {
          found := found + [f];
          assert available - unseen == seen + {f};
        } else {
          assert available - unseen == seen;
        }
      }
      assert available - unseen == available;
    }

    /** The earliest due rows that no other transaction has locked are leased under one fresh token. */
    method ClaimFacts(now: Time, limit: int, token: Id, locked: set<Id>) returns (sent: seq<Envelope>, ids: seq<Id>)
      requires token !in tokens
      modifies this`rows, this`tokens, this`history
      ensures limit < 1 ==> ids == [] && Value() == old(Value())
      ensures limit >= 1 ==>
                && IsEarliest(ElementsOf(ids), old(rows), Stored(now), locked, limit)
                && Claimable(old(Value()), Claim(token, now, limit, ElementsOf(ids)))
                && Value() == Apply(old(Value()), Claim(token, now, limit, ElementsOf(ids)))
      ensures |sent| == |ids|
      ensures forall k :: 0 <= k < |ids| ==> ids[k] in old(rows) && sent[k] == EnvelopeOf(old(rows)[ids[k]])
    {
      sent, ids := [], [];
      if limit < 1 {
        return;
      }
      ids := SelectEarliest(Stored(now), limit, locked);
      sent := Envelopes(rows, ids);
      Lease(ids, now, limit, token);
    }

    /** ORDER BY ... FOR UPDATE SKIP LOCKED LIMIT. */
    method SelectEarliest(now: Time, limit: nat, locked: set<Id>) returns (ids: seq<Id>)
      ensures IsEarliest(ElementsOf(ids), rows, now, locked, limit)
      ensures forall f :: f in ids ==> f in rows && Due(rows[f], now)
    {
      var found := CollectDue(now, locked);
      ids := SortedByRetry(rows, found);
      ListedSet(ids, Available(rows, now, locked));
      PrefixIsEarliest(ids, rows, now, locked, limit);
      assert forall f :: f in ids ==> f in rows && Due(rows[f], now);
      if |ids| > limit {
        ids := ids[..limit];
      }
    }

    /** The UPDATE of the selected rows. */
    method Lease(ids: seq<Id>, now: Time, limit: int, token: Id)
      requires Claimable(Value(), Claim(token, now, limit, ElementsOf(ids)))
      modifies this`rows, this`tokens, this`history
      ensures Value() == Apply(old(Value()), Claim(token, now, limit, ElementsOf(ids)))
    {
      ghost var chosen := ElementsOf(ids);
      history := map f | f in history ::
        if f in chosen && f in rows then history[f] + [Claimed(token, Stored(now), EnvelopeOf(rows[f]))] else history[f];
      rows := map f | f in rows :: if f in ids then ClaimedRow(rows[f], Stored(now), token) else rows[f];
      tokens := tokens + {token};
    }

    /** False reports a lost claim. */
    method MarkDelivery(f: Id, token: Id, success: bool, terminal: bool, next: Time) returns (held: bool)
      modifies this`rows, this`tokens, this`history
      ensures held <==> f in old(rows) && Current(old(rows)[f], token)
      ensures held ==> f in rows && (rows[f].status == Delivered <==> success && !terminal)
      ensures held ==> (rows[f].status == ReconciliationRequired <==> terminal) && (rows[f].status == Retrying <==> !success && !terminal)
      ensures Value() == Apply(old(Value()), Mark(f, token, success, terminal, next))
    {
      var state := Retrying;
      if success {
        state := Delivered;
      }
      if terminal {
        state := ReconciliationRequired;
      }
      if f !in rows || rows[f].status != Delivering || rows[f].token != Some(token) {
        return false;
      }
      var row := rows[f];
      rows := rows[f := row.(status := state, retries := if state == Delivered then row.retries else row.retries + 1,
                             nextRetryAt := Stored(next), claimedUntil := None, token := None)];
      history := Appended(history, f, Marked(token, success, terminal, Stored(next)));
      held := true;
    }

    /** The row goes back to PENDING and the audit names who sent it and what it was. */
    method RequeueFact(f: Id, correlation: Id, now: Time) returns (r: Result<()>)
      modifies this`rows, this`audit, this`history
      ensures Value() == Apply(old(Value()), Requeue(f, now))
      ensures r == if f !in old(rows) then Err(NotFound)
                   else if old(rows)[f].status != ReconciliationRequired then Err(InvalidEvidence) else Ok(())
      ensures audit == old(audit) + if r.Ok? then [Audit(f, correlation, old(rows)[f].status)] else []
    {
      if f !in rows {
        return Err(NotFound);
      }
      var status := rows[f].status;
      if status != ReconciliationRequired {
        return Err(InvalidEvidence);
      }
      audit := audit + [Audit(f, correlation, status)];
      rows := rows[f := rows[f].(status := Pending, claimedUntil := None, token := None, nextRetryAt := Stored(now))];
      history := Appended(history, f, Requeued(Stored(now)));
      r := Ok(());
    }
  }
}
