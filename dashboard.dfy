/**
 * The dashboard's summary cards: total collected, total pending and the
 * number of transactions, over the payment collection (absent until loaded).
 */
module Dashboard {
  import opened FundTypes
  import opened Ledger
  import EventsPage

  /** Statuses whose amounts make up "Total Collected". */
  const CollectedStatuses: set<Status> := {Paid}

  /** Statuses whose amounts make up "Total Pending": awaiting payment or verification. */
  const PendingStatuses: set<Status> := {Pending, VerificationPending}

  /** The payments whose status is one of `statuses`, in their original order. */
  function WithStatus(ps: seq<Payment>, statuses: set<Status>): (r: seq<Payment>)
    ensures forall p :: p in r <==> p in ps && p.status in statuses
    ensures |r| <= |ps|
  {
    if ps == [] then []
    else
      var last := ps[|ps| - 1];
      WithStatus(ps[..|ps| - 1], statuses) + (if last.status in statuses then [last] else [])
  }

  lemma {:induction false} WithStatusAppend(a: seq<Payment>, b: seq<Payment>, statuses: set<Status>)
    decreases |b|
    ensures WithStatus(a + b, statuses) == WithStatus(a, statuses) + WithStatus(b, statuses)
  {
    if b == [] {
      assert a + b == a;
    } else {
      var n := |b| - 1;
      assert (a + b)[..|a + b| - 1] == a + b[..n];
      WithStatusAppend(a, b[..n], statuses);
    }
  }

  lemma WithStatusSingle(p: Payment, statuses: set<Status>)
    ensures WithStatus([p], statuses) == if p.status in statuses then [p] else []
  {
    assert [p][..0] == [];
  }

  /** totalCollected: the amounts of Paid payments, 0 while not loaded. */
  function TotalCollected(transactions: Option<seq<Payment>>): (r: int)
    ensures transactions.None? ==> r == 0
    ensures transactions == Some([]) ==> r == 0
  {
    match transactions
    case None => 0
    case Some(ps) => SumAmounts(WithStatus(ps, CollectedStatuses))
  }

  /** totalPending: the amounts of Pending and Verification Pending payments, 0 while not loaded. */
  function TotalPending(transactions: Option<seq<Payment>>): (r: int)
    ensures transactions.None? ==> r == 0
    ensures transactions == Some([]) ==> r == 0
  {
    match transactions
    case None => 0
    case Some(ps) => SumAmounts(WithStatus(ps, PendingStatuses))
  }

  /** The "Total Transactions" card: the number of payment records, 0 while not loaded. */
  function TransactionCount(transactions: Option<seq<Payment>>): (n: nat)
    ensures transactions.None? ==> n == 0
    ensures transactions.Some? ==> n == |transactions.value|
  {
    match transactions
    case None => 0
    case Some(ps) => |ps|
  }

  lemma {:induction false} SumWithStatusStep(ps: seq<Payment>, p: Payment, statuses: set<Status>)
    ensures SumAmounts(WithStatus(ps + [p], statuses))
         == SumAmounts(WithStatus(ps, statuses)) + (if p.status in statuses then p.amount else 0)
  {
    WithStatusAppend(ps, [p], statuses);
    WithStatusSingle(p, statuses);
    SumAmountsAppend(WithStatus(ps, statuses), WithStatus([p], statuses));
    SumAmountsSingle(p);
  }

  lemma {:induction false} SumWithStatusSkip(a: seq<Payment>, p: Payment, b: seq<Payment>, statuses: set<Status>)
    requires p.status !in statuses
    ensures WithStatus(a + [p] + b, statuses) == WithStatus(a + b, statuses)
  {
    WithStatusSingle(p, statuses);
    WithStatusAppend(a + [p], b, statuses);
    WithStatusAppend(a, [p], statuses);
    WithStatusAppend(a, b, statuses);
  }

  lemma {:induction false} CollectedTotalStep(ps: seq<Payment>, p: Payment)
    ensures TotalCollected(Some(ps + [p])) == TotalCollected(Some(ps)) + (if p.status == Paid then p.amount else 0)
  {
    SumWithStatusStep(ps, p, CollectedStatuses);
    assert p.status in CollectedStatuses <==> p.status == Paid;
  }

  lemma {:induction false} PendingTotalStep(ps: seq<Payment>, p: Payment)
    ensures TotalPending(Some(ps + [p]))
         == TotalPending(Some(ps)) + (if p.status == Pending || p.status == VerificationPending then p.amount else 0)
  {
    SumWithStatusStep(ps, p, PendingStatuses);
    assert p.status in PendingStatuses <==> p.status == Pending || p.status == VerificationPending;
  }

  /** Appending one payment moves each total by its amount exactly when its status belongs there. */
  lemma {:induction false} TotalsStep(ps: seq<Payment>, p: Payment)
    ensures TotalCollected(Some(ps + [p])) == TotalCollected(Some(ps)) + (if p.status == Paid then p.amount else 0)
    ensures TotalPending(Some(ps + [p]))
         == TotalPending(Some(ps)) + (if p.status == Pending || p.status == VerificationPending then p.amount else 0)
  {
    CollectedTotalStep(ps, p);
    PendingTotalStep(ps, p);
  }

  /** A Failed payment, wherever it sits, changes neither total. */
  lemma {:induction false} FailedCountsNowhere(a: seq<Payment>, p: Payment, b: seq<Payment>)
    requires p.status == Failed
    ensures TotalCollected(Some(a + [p] + b)) == TotalCollected(Some(a + b))
    ensures TotalPending(Some(a + [p] + b)) == TotalPending(Some(a + b))
  {
    SumWithStatusSkip(a, p, b, CollectedStatuses);
    SumWithStatusSkip(a, p, b, PendingStatuses);
  }

  lemma {:induction false} WithStatusUnion(ps: seq<Payment>, s1: set<Status>, s2: set<Status>)
    requires s1 !! s2
    ensures SumAmounts(WithStatus(ps, s1 + s2)) == SumAmounts(WithStatus(ps, s1)) + SumAmounts(WithStatus(ps, s2))
    ensures |WithStatus(ps, s1 + s2)| == |WithStatus(ps, s1)| + |WithStatus(ps, s2)|
  {
    if ps != [] {
      var init, last := ps[..|ps| - 1], ps[|ps| - 1];
      WithStatusUnion(init, s1, s2);
      var one := [last];
      SumAmountsAppend(WithStatus(init, s1 + s2), WithStatus(one, s1 + s2));
      SumAmountsAppend(WithStatus(init, s1), WithStatus(one, s1));
      SumAmountsAppend(WithStatus(init, s2), WithStatus(one, s2));
      assert one[..0] == [];
      assert WithStatus(ps, s1 + s2) == WithStatus(init, s1 + s2) + WithStatus(one, s1 + s2);
      assert WithStatus(ps, s1) == WithStatus(init, s1) + WithStatus(one, s1);
      assert WithStatus(ps, s2) == WithStatus(init, s2) + WithStatus(one, s2);
    }
  }

  lemma {:induction false} WithEveryStatus(ps: seq<Payment>)
    ensures WithStatus(ps, {Paid, Pending, Failed, VerificationPending}) == ps
  {
    if ps != [] {
      WithEveryStatus(ps[..|ps| - 1]);
      var st := ps[|ps| - 1].status;
      assert st in {Paid, Pending, Failed, VerificationPending} by {
        match st
        case Paid =>
        case Pending =>
        case Failed =>
        case VerificationPending =>
      }
    }
  }

  /**
   * The status filters split the ledger: no payment is in both totals, and
   * every payment is in exactly one of Collected, Pending or Failed, by
   * amount and by count.
   */
  lemma {:induction false} TotalsPartitionLedger(ps: seq<Payment>)
    ensures CollectedStatuses !! PendingStatuses
    ensures SumAmounts(ps) == TotalCollected(Some(ps)) + TotalPending(Some(ps)) + SumAmounts(WithStatus(ps, {Failed}))
    ensures TransactionCount(Some(ps))
         == |WithStatus(ps, CollectedStatuses)| + |WithStatus(ps, PendingStatuses)| + |WithStatus(ps, {Failed})|
  {
    WithStatusUnion(ps, CollectedStatuses, PendingStatuses);
    WithStatusUnion(ps, CollectedStatuses + PendingStatuses, {Failed});
    assert CollectedStatuses + PendingStatuses + {Failed} == {Paid, Pending, Failed, VerificationPending};
    WithEveryStatus(ps);
  }

  /** When every payment belongs to one event, the events page and the dashboard agree on what was collected. */
  lemma {:induction false} SingleEventCollectedAgrees(ps: seq<Payment>, eventId: string)
    requires forall p :: p in ps ==> p.eventId == eventId
    ensures EventsPage.CollectedForEvent(Some(ps), eventId) == TotalCollected(Some(ps))
  {
    SameFilter(ps, eventId);
  }

  lemma {:induction false} SameFilter(ps: seq<Payment>, eventId: string)
    requires forall p :: p in ps ==> p.eventId == eventId
    ensures EventsPage.PaidForEvent(ps, eventId) == WithStatus(ps, CollectedStatuses)
  {
    if ps != [] {
      var init := ps[..|ps| - 1];
      assert forall p :: p in init ==> p in ps;
      SameFilter(init, eventId);
    }
  }
}
