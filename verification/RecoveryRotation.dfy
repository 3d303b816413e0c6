/**
 * Rotation of the recovery worker over the connected chargers (internal/ocpp16hal/hal.go). The counter is an unsigned
 * 64-bit integer, so the rotation is fair except across a wrap by a number that does not divide 2^64.
 */
module RecoveryRotation {
  import opened Base
  import opened ChargerOperations

  const TWO_64: nat := 0x1_0000_0000_0000_0000

  /** Which of `n` chargers the k-th pass from counter value `next` visits. */
  function Index(next: nat, k: nat, n: nat): (i: nat)
    requires 0 < n
    ensures i < n
  {
    (next + k) % TWO_64 % n
  }

  class Rotation {
    var next: nat

    constructor ()
      ensures next == 0
    {
      next := 0;
    }

    /** The identities are the tracker's, sorted; without a connection the counter rests. */
    method NextIdentity(identities: seq<Id>) returns (identity: Option<Id>)
      requires next < TWO_64
      modifies this
      ensures identities == [] ==> identity.None? && next == old(next)
      ensures identities != [] ==>
                && next == (old(next) + 1) % TWO_64
                && identity == Some(identities[Index(old(next), 0, |identities|)])
    {
      if |identities| == 0 {
        return None;
      }
      identity := Some(identities[next % |identities|]);
      next := if next == TWO_64 - 1 then 0 else next + 1;
    }
  }

  // ----- n passes visit each of n chargers exactly once -----

  ghost predicate ExactlyOnce(next: nat, n: nat)
    requires 0 < n
  {
    forall i :: 0 <= i < n ==> VisitedByOne(next, i, n)
  }

  ghost predicate VisitedByOne(next: nat, i: nat, n: nat)
    requires 0 < n
  {
    exists k :: 0 <= k < n && Index(next, k, n) == i && forall j :: 0 <= j < n && Index(next, j, n) == i ==> j == k
  }

  /** The counter does not pass 2^64 within `passes`, or passing it keeps the phase. */
  predicate Seamless(next: nat, passes: nat, n: nat)
    requires 0 < n
  {
    next + passes <= TWO_64 || TWO_64 % n == 0
  }

  lemma ModOfSum(a: int, b: int, n: nat)
    requires 0 < n
    ensures (a + b * n) % n == a % n
  {
    var q, r := a / n, a % n;
    assert a + b * n == (q + b) * n + r;
    ModUnique(a + b * n, q + b, r, n);
  }

  lemma Multiples(d: int, n: nat)
    ensures d >= 1 ==> d * n >= n
    ensures d <= -1 ==> d * n <= -(n as int)
  {
    if d >= 1 { assert (d - 1) * n >= 0; }
    if d <= -1 { assert (-d - 1) * n >= 0; }
  }

  lemma ModUnique(x: int, q: int, r: int, n: nat)
    requires 0 < n && x == q * n + r && 0 <= r < n
    ensures x % n == r && x / n == q
  {
    var d := x / n - q;
    assert x == (x / n) * n + x % n;
    assert d * n == r - x % n;
    Multiples(d, n);
  }

  lemma SeamlessIndex(next: nat, k: nat, n: nat)
    requires 0 < n && (next + k < TWO_64 || TWO_64 % n == 0)
    ensures Index(next, k, n) == (next + k) % n
  {
    if TWO_64 % n == 0 {
      var x := next + k;
      var wraps, rest := x / TWO_64, x % TWO_64;
      var m := TWO_64 / n;
      assert x == rest + wraps * TWO_64 && TWO_64 == m * n;
      assert wraps * TWO_64 == (wraps * m) * n;
      ModOfSum(rest, wraps * m, n);
    }
  }

  /** Offsets of equal residue within n consecutive numbers are equal. */
  lemma ResiduesDiffer(next: nat, j: nat, k: nat, n: nat)
    requires 0 < n && j < n && k < n && (next + j) % n == (next + k) % n
    ensures j == k
  {
    var a, b := next + j, next + k;
    var d := a / n - b / n;
    assert a - b == d * n;
    Multiples(d, n);
  }

  /** The offset at which a residue is reached. */
  function Offset(next: nat, i: nat, n: nat): (k: nat)
    requires i < n
    ensures k < n && (next + k) % n == i
  {
    ResidueReached(next, i, n);
    (i - next) % n
  }

  lemma ResidueReached(next: nat, i: nat, n: nat)
    requires i < n
    ensures (next + (i - next) % n) % n == i
  {
    var d := i - next;
    var q, k := d / n, d % n;
    assert d == q * n + k;
    assert (-q) * n == -(q * n);
    ModUnique(next + k, -q, i, n);
  }

  lemma VisitedOnce(next: nat, i: nat, n: nat) returns (k: nat)
    requires i < n && Seamless(next, n, n)
    ensures k < n && Index(next, k, n) == i
    ensures forall j :: 0 <= j < n && Index(next, j, n) == i ==> j == k
  {
    k := Offset(next, i, n);
    SeamlessIndex(next, k, n);
    forall j | 0 <= j < n && Index(next, j, n) == i ensures j == k {
      SeamlessIndex(next, j, n);
      ResiduesDiffer(next, j, k, n);
    }
  }

  /** The residue `left` steps before a multiple of n plus `left + residue`. */
  lemma ResidueBefore(size: nat, left: nat, residue: nat, n: nat)
    requires 0 < n && residue < n && left <= size && left + residue == size % n
    ensures (size - left) % n == residue
  {
    var whole := size / n;
    assert size == whole * n + size % n;
    ModUnique(size - left, whole, residue, n);
  }

  /** The index before the wrap, and the index `k` steps after it. */
  lemma IndexAroundWrap(next: nat, n: nat, k: nat)
    requires 0 < n && next < TWO_64 && k < n
    ensures next + k < TWO_64 ==> Index(next, k, n) == (next + k) % n
    ensures TWO_64 <= next + k < 2 * TWO_64 && next + k - TWO_64 < n ==> Index(next, k, n) == next + k - TWO_64
  {
    if next + k < TWO_64 {
      SeamlessIndex(next, k, n);
    } else if next + k < 2 * TWO_64 && next + k - TWO_64 < n {
      assert (next + k) % TWO_64 == next + k - TWO_64;
      ModUnique(next + k - TWO_64, 0, next + k - TWO_64, n);
    }
  }

  /** Two passes of a round that meet at the same charger when the counter wraps out of phase. */
  lemma WrapRepeats(next: nat, n: nat) returns (j: nat, k: nat)
    requires 0 < n < TWO_64 && next < TWO_64 && !Seamless(next, n, n)
    ensures j < k < n && Index(next, j, n) == Index(next, k, n)
  {
    var m, left := TWO_64 % n, TWO_64 - next;
    if m <= left {
      j, k := left - m, left;
      ResidueBefore(TWO_64, m, 0, n);
    } else {
      j, k := 0, m;
      ResidueBefore(TWO_64, left, m - left, n);
    }
    IndexAroundWrap(next, n, j);
    IndexAroundWrap(next, n, k);
  }

  /** A round of n passes is fair exactly when it does not wrap or n divides 2^64. */
  lemma RoundIsFairIff(next: nat, n: nat)
    requires 0 < n < TWO_64 && next < TWO_64
    ensures ExactlyOnce(next, n) <==> next + n <= TWO_64 || TWO_64 % n == 0
  {
    if Seamless(next, n, n) {
      forall i | 0 <= i < n ensures VisitedByOne(next, i, n) {
        var k := VisitedOnce(next, i, n);
      }
    } else {
      var j, k := WrapRepeats(next, n);
      assert !VisitedByOne(next, Index(next, j, n), n);
    }
  }

  /** Three chargers at the wrap: the first is visited twice and the third not at all. */
  lemma WrapWithThree()
    ensures Index(TWO_64 - 1, 0, 3) == 0 && Index(TWO_64 - 1, 1, 3) == 0 && Index(TWO_64 - 1, 2, 3) == 1
    ensures !ExactlyOnce(TWO_64 - 1, 3)
  {
    RoundIsFairIff(TWO_64 - 1, 3);
  }

  // ----- draining -----

  /** How often charger `i` is visited by the first `passes` passes. */
  function Visits(next: nat, passes: nat, n: nat, i: nat): nat
    requires 0 < n
  {
    if passes == 0 then 0
    else Visits(next, passes - 1, n, i) + (if Index(next, passes - 1, n) == i then 1 else 0)
  }

  /** Visits in the window [lo, hi) when pass k is the only one in it at charger i. */
  lemma {:induction false} SingleVisit(next: nat, lo: nat, hi: nat, n: nat, i: nat, k: nat)
    requires 0 < n && lo <= hi
    requires forall j :: lo <= j < hi ==> (Index(next, j, n) == i <==> j == k)
    ensures Visits(next, hi, n, i) == Visits(next, lo, n, i) + (if lo <= k < hi then 1 else 0)
    decreases hi
  {
    if lo < hi {
      SingleVisit(next, lo, hi - 1, n, i, k);
      assert Index(next, hi - 1, n) == i <==> hi - 1 == k;
    }
  }

  lemma {:induction false} VisitsPerRound(next: nat, rounds: nat, n: nat, i: nat)
    requires i < n && Seamless(next, Times(n, rounds), n)
    ensures Visits(next, Times(n, rounds), n, i) == rounds
    decreases rounds
  {
    if rounds > 0 {
      VisitsPerRound(next, rounds - 1, n, i);
      OneMoreRound(next, Times(n, rounds - 1), n, i);
    }
  }

  lemma OneMoreRound(next: nat, lo: nat, n: nat, i: nat)
    requires i < n && Seamless(next, lo + n, n)
    ensures Visits(next, lo + n, n, i) == Visits(next, lo, n, i) + 1
  {
    var k := VisitedOnce(next + lo, i, n);
    forall j | lo <= j < lo + n ensures Index(next, j, n) == i <==> j == lo + k {
      assert Index(next, j, n) == Index(next + lo, j - lo, n);
    }
    SingleVisit(next, lo, lo + n, n, i, lo + k);
  }

  /** One uncancelled pass for a connected charger whose claims are executed. */
  ghost predicate IsPass(before: Table, after: Table, charger: Id) {
    exists batch: seq<Operation>, connected: Id -> bool, calls: Id -> Call ::
      && IsBatch(batch, before, Some(charger), BATCH)
      && (forall i :: 0 <= i < |batch| ==> connected(batch[i].id) && calls(batch[i].id).claim != NotExecuted)
      && after == DispatchedAll(before, batch, connected, calls)
  }

  /** Successive tables of a worker that rotates over a fixed list of connected chargers. */
  ghost predicate IsRotation(tables: seq<Table>, next: nat, identities: seq<Id>) {
    && identities != [] && tables != []
    && (forall i, j :: 0 <= i < j < |identities| ==> identities[i] != identities[j])
    && (forall k :: 0 <= k < |tables| - 1 ==> PassAt(tables, k, next, identities))
  }

  ghost predicate PassAt(tables: seq<Table>, k: nat, next: nat, identities: seq<Id>)
    requires k + 1 < |tables| && identities != []
  {
    IsPass(tables[k], tables[k + 1], identities[Index(next, k, |identities|)])
  }

  ghost function Backlog(ops: Table, charger: Id): nat {
    |Pending(ops, Some(charger))|
  }

  lemma PassBacklog(before: Table, after: Table, visited: Id, charger: Id)
    requires IsPass(before, after, visited)
    ensures Backlog(after, charger) ==
            if charger == visited then Backlog(before, charger) - Least(BATCH, Backlog(before, charger))
            else Backlog(before, charger)
  {
    var batch: seq<Operation>, connected: Id -> bool, calls: Id -> Call :|
      && IsBatch(batch, before, Some(visited), BATCH)
      && (forall i :: 0 <= i < |batch| ==> connected(batch[i].id) && calls(batch[i].id).claim != NotExecuted)
      && after == DispatchedAll(before, batch, connected, calls);
    PassLowersBacklog(before, batch, visited, connected, calls);
  }

  function Monus(a: nat, b: nat): nat {
    if a <= b then 0 else a - b
  }

  /** After any number of passes each backlog has shrunk by one batch per visit, down to zero. */
  lemma {:induction false} BacklogAfter(tables: seq<Table>, next: nat, identities: seq<Id>, i: nat)
    requires IsRotation(tables, next, identities) && i < |identities|
    ensures Backlog(tables[|tables| - 1], identities[i]) ==
            Monus(Backlog(tables[0], identities[i]), BATCH * Visits(next, |tables| - 1, |identities|, i))
    decreases |tables|
  {
    if |tables| > 1 {
      var k := |tables| - 2;
      var front := tables[..|tables| - 1];
      forall j | 0 <= j < |front| - 1 ensures PassAt(front, j, next, identities) {
        assert PassAt(tables, j, next, identities);
      }
      BacklogAfter(front, next, identities, i);
      assert PassAt(tables, k, next, identities);
      var at := Index(next, k, |identities|);
      PassBacklog(tables[k], tables[k + 1], identities[at], identities[i]);
      assert identities[at] == identities[i] <==> at == i;
    }
  }

  /** n * ceil(K / 100) passes drain backlogs of at most K operations per charger. */
  lemma RotationDrains(tables: seq<Table>, next: nat, identities: seq<Id>, most: nat)
    requires IsRotation(tables, next, identities)
    requires forall i :: 0 <= i < |identities| ==> Backlog(tables[0], identities[i]) <= most
    requires |tables| - 1 == |identities| * ((most + BATCH - 1) / BATCH)
    requires next + |tables| - 1 <= TWO_64 || TWO_64 % |identities| == 0
    ensures forall i :: 0 <= i < |identities| ==> Backlog(tables[|tables| - 1], identities[i]) == 0
  {
    var rounds := (most + BATCH - 1) / BATCH;
    TimesIsProduct(|identities|, rounds);
    forall i | 0 <= i < |identities| ensures Backlog(tables[|tables| - 1], identities[i]) == 0 {
      VisitsPerRound(next, rounds, |identities|, i);
      BacklogAfter(tables, next, identities, i);
    }
  }
}
