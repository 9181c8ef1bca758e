/**
 The trader dashboard (`TraderDashboard`): the headline counts and the
 investment total over the trader's transactions, the notification badge,
 the transaction tabs, the status labels and the progress bar width.
 */
module TraderDashboard {
  import opened Wrappers
  import opened Seqs

  // Transaction status values. The status is free text: any other value can occur.
  const Pending: string := "pending"
  const DealAccepted: string := "deal_accepted"
  const PaymentInitiated: string := "payment_initiated"
  const PaymentCompleted: string := "payment_completed"
  const Completed: string := "completed"

  /** The five statuses the dashboard knows, in lifecycle order. */
  const Lifecycle: seq<string> := [Pending, DealAccepted, PaymentInitiated, PaymentCompleted, Completed]

  /** One purchase by the trader; `amount` is in whole rupees. */
  datatype Transaction = Transaction(id: string, produceId: string, amount: int, status: string)

  /** The transactions whose status is in `group`, in input order. */
  function WithStatusIn(txs: seq<Transaction>, group: set<string>): (r: seq<Transaction>)
    ensures IsSubsequence(r, txs)
    ensures forall i :: 0 <= i < |r| ==> r[i].status in group
    ensures forall i :: 0 <= i < |txs| && txs[i].status in group ==> txs[i] in r
    ensures forall t {:trigger multiset(r)[t]} :: multiset(r)[t] == if t.status in group then multiset(txs)[t] else 0
  {
    FilterIsSubsequence(txs, (t: Transaction) => t.status in group);
    FilterMultiplicity(txs, (t: Transaction) => t.status in group);
    Filter(txs, (t: Transaction) => t.status in group)
  }

  /** The transactions whose status is NOT in `group`, in input order. */
  function WithStatusNotIn(txs: seq<Transaction>, group: set<string>): (r: seq<Transaction>)
    ensures IsSubsequence(r, txs)
    ensures forall i :: 0 <= i < |r| ==> r[i].status !in group
    ensures forall i :: 0 <= i < |txs| && txs[i].status !in group ==> txs[i] in r
    ensures forall t {:trigger multiset(r)[t]} :: multiset(r)[t] == if t.status !in group then multiset(txs)[t] else 0
  {
    FilterIsSubsequence(txs, (t: Transaction) => t.status !in group);
    FilterMultiplicity(txs, (t: Transaction) => t.status !in group);
    Filter(txs, (t: Transaction) => t.status !in group)
  }

  /** Counting two disjoint status groups separately is counting their union. */
  lemma {:induction false} CountUnion(txs: seq<Transaction>, a: set<string>, b: set<string>)
    requires a !! b
    ensures |WithStatusIn(txs, a)| + |WithStatusIn(txs, b)| == |WithStatusIn(txs, a + b)|
  {
    if |txs| > 0 {
      CountUnion(txs[1..], a, b);
    }
  }

  /** A status group is counted at least once exactly when some transaction has such a status. */
  lemma CountPositiveIff(txs: seq<Transaction>, group: set<string>)
    ensures |WithStatusIn(txs, group)| > 0 <==> exists i :: 0 <= i < |txs| && txs[i].status in group
  {
    var r := WithStatusIn(txs, group);
    if |r| > 0 {
      assert r[0] in txs;
    }
  }

  // ---------------------------------------------------------------------------
  // Headline metrics
  // ---------------------------------------------------------------------------

  /** The positions of the transactions whose status is in `group`. */
  function StatusPositions(txs: seq<Transaction>, group: set<string>): set<int> {
    set i | 0 <= i < |txs| && txs[i].status in group
  }

  /** The number of transactions whose status is in `group`. */
  function StatusCount(txs: seq<Transaction>, group: set<string>): (n: nat)
    ensures n == |StatusPositions(txs, group)|
  {
    var p := (t: Transaction) => t.status in group;
    FilterLengthIsPositions(txs, p);
    assert Positions(txs, p) == StatusPositions(txs, group);
    |WithStatusIn(txs, group)|
  }

  /** `activeBids`: how many transactions are pending or deal-accepted. */
  function ActiveBids(txs: seq<Transaction>): (n: nat)
    ensures n == |StatusPositions(txs, {Pending, DealAccepted})|
  {
    StatusCount(txs, {Pending, DealAccepted})
  }

  /** `completedDeals`: how many transactions are completed. */
  function CompletedDeals(txs: seq<Transaction>): (n: nat)
    ensures n == |StatusPositions(txs, {Completed})|
  {
    StatusCount(txs, {Completed})
  }

  /** `pendingPayments`: how many payments are started but not finished. */
  function PendingPayments(txs: seq<Transaction>): (n: nat)
    ensures n == |StatusPositions(txs, {PaymentInitiated})|
  {
    StatusCount(txs, {PaymentInitiated})
  }

  /** The three counts cover disjoint status groups, so together they never exceed the transactions. */
  lemma MetricsDisjoint(txs: seq<Transaction>)
    ensures ActiveBids(txs) + CompletedDeals(txs) + PendingPayments(txs) ==
            |WithStatusIn(txs, {Pending, DealAccepted, Completed, PaymentInitiated})|
    ensures ActiveBids(txs) + CompletedDeals(txs) + PendingPayments(txs) <= |txs|
  {
    CountUnion(txs, {Pending, DealAccepted}, {Completed});
    CountUnion(txs, {Pending, DealAccepted} + {Completed}, {PaymentInitiated});
    assert {Pending, DealAccepted} + {Completed} + {PaymentInitiated} ==
           {Pending, DealAccepted, Completed, PaymentInitiated};
  }

  function Amounts(txs: seq<Transaction>): (r: seq<int>)
    ensures |r| == |txs| && forall i :: 0 <= i < |txs| ==> r[i] == txs[i].amount
  {
    seq(|txs|, i requires 0 <= i < |txs| => txs[i].amount)
  }

  /**
   `totalInvestment`: the amounts of every transaction that is past the
   bidding stage. Together with the pending bids' amounts it makes up the sum
   of all amounts.
   */
  function TotalInvestment(txs: seq<Transaction>): (total: int)
    ensures total + Sum(Amounts(WithStatusIn(txs, {Pending}))) == Sum(Amounts(txs))
  {
    InvestmentExcludesExactlyPending(txs);
    Sum(Amounts(WithStatusNotIn(txs, {Pending})))
  }

  lemma SumAmountsCons(t: Transaction, rest: seq<Transaction>)
    ensures Sum(Amounts([t] + rest)) == t.amount + Sum(Amounts(rest))
  {
    assert Amounts([t] + rest) == [t.amount] + Amounts(rest);
    assert ([t.amount] + Amounts(rest))[1..] == Amounts(rest);
  }

  lemma SumAmountsHead(txs: seq<Transaction>)
    requires |txs| > 0
    ensures Sum(Amounts(txs)) == txs[0].amount + Sum(Amounts(txs[1..]))
  {
    assert Amounts(txs)[1..] == Amounts(txs[1..]);
  }

  /** The investment and the pending bids' amounts split the sum of all amounts. */
  lemma {:induction false} InvestmentExcludesExactlyPending(txs: seq<Transaction>)
    ensures Sum(Amounts(WithStatusNotIn(txs, {Pending}))) + Sum(Amounts(WithStatusIn(txs, {Pending}))) ==
            Sum(Amounts(txs))
  {
    var g := {Pending};
    if |txs| > 0 {
      InvestmentExcludesExactlyPending(txs[1..]);
      var keep, drop := WithStatusNotIn(txs, g), WithStatusIn(txs, g);
      var keep', drop' := WithStatusNotIn(txs[1..], g), WithStatusIn(txs[1..], g);
      assert Sum(Amounts(keep')) + Sum(Amounts(drop')) == Sum(Amounts(txs[1..]));
      SumAmountsHead(txs);
      if txs[0].status in g {
        assert keep == keep' && drop == [txs[0]] + drop';
        SumAmountsCons(txs[0], drop');
      } else {
        assert keep == [txs[0]] + keep' && drop == drop';
        SumAmountsCons(txs[0], keep');
      }
    }
  }

  /**
   The bell badge: shown when there are open bids or pending payments, and
   then carrying their number.
   */
  function Badge(txs: seq<Transaction>): (b: Option<nat>)
    ensures b.Some? <==>
              exists i :: 0 <= i < |txs| && txs[i].status in {Pending, DealAccepted, PaymentInitiated}
    ensures b.Some? ==> b.value > 0 && b.value == |WithStatusIn(txs, {Pending, DealAccepted, PaymentInitiated})|
  {
    var active, payments := ActiveBids(txs), PendingPayments(txs);
    CountUnion(txs, {Pending, DealAccepted}, {PaymentInitiated});
    assert {Pending, DealAccepted} + {PaymentInitiated} == {Pending, DealAccepted, PaymentInitiated};
    CountPositiveIff(txs, {Pending, DealAccepted, PaymentInitiated});
    if active > 0 || payments > 0 then Some(active + payments) else None
  }

  // ---------------------------------------------------------------------------
  // Tabs, labels and progress
  // ---------------------------------------------------------------------------

  /** The statuses a tab restricts to; 'all' and any unrecognised tab impose no restriction. */
  function TabGroup(tab: string): Option<set<string>> {
    if tab == "pending" then Some({Pending, DealAccepted})
    else if tab == "payment" then Some({PaymentInitiated, PaymentCompleted})
    else if tab == "completed" then Some({Completed})
    else None
  }

  /** Which transactions a tab shows. */
  predicate TabShows(tab: string, status: string) {
    TabGroup(tab).None? || status in TabGroup(tab).value
  }

  /** `filteredTransactions` for the selected tab. */
  function FilteredTransactions(txs: seq<Transaction>, tab: string): (r: seq<Transaction>)
    ensures IsSubsequence(r, txs)
    ensures forall i :: 0 <= i < |r| ==> TabShows(tab, r[i].status)
    ensures forall i :: 0 <= i < |txs| && TabShows(tab, txs[i].status) ==> txs[i] in r
    ensures forall t {:trigger multiset(r)[t]} :: multiset(r)[t] == if TabShows(tab, t.status) then multiset(txs)[t] else 0
    ensures tab !in {"pending", "payment", "completed"} ==> r == txs
  {
    match TabGroup(tab)
    case None =>
      SubsequenceReflexive(txs);
      txs
    case Some(group) => WithStatusIn(txs, group)
  }

  /** The pending and completed tabs list exactly as many transactions as the headline counts. */
  lemma TabsMatchCounts(txs: seq<Transaction>)
    ensures |FilteredTransactions(txs, "pending")| == ActiveBids(txs)
    ensures |FilteredTransactions(txs, "completed")| == CompletedDeals(txs)
    ensures |FilteredTransactions(txs, "payment")| >= PendingPayments(txs)
  {
    CountUnion(txs, {PaymentInitiated}, {PaymentCompleted});
    assert {PaymentInitiated} + {PaymentCompleted} == {PaymentInitiated, PaymentCompleted};
  }

  /** No transaction appears under two of the pending, payment and completed tabs. */
  lemma TabsDisjoint(status: string)
    ensures !(TabShows("pending", status) && TabShows("payment", status))
    ensures !(TabShows("pending", status) && TabShows("completed", status))
    ensures !(TabShows("payment", status) && TabShows("completed", status))
  {
  }

  /** `getStatusText`: the display label of a status; unknown statuses are shown as they are. */
  function StatusText(status: string): (text: string)
    ensures status in Lifecycle ==> text != status
    ensures status !in Lifecycle ==> text == status
  {
    if status == Pending then "बोली लंबित / Bid Pending"
    else if status == DealAccepted then "सौदा स्वीकार / Deal Accepted"
    else if status == PaymentInitiated then "भुगतान प्रक्रिया / Payment Processing"
    else if status == PaymentCompleted then "भुगतान पूर्ण / Payment Complete"
    else if status == Completed then "पूर्ण / Completed"
    else status
  }

  /** Different known statuses get different labels. */
  lemma StatusTextDistinguishesKnown(a: string, b: string)
    requires a in Lifecycle && b in Lifecycle && a != b
    ensures StatusText(a) != StatusText(b)
  {
  }

  /** The width, in percent, of a transaction's progress bar. */
  function ProgressWidth(status: string): (w: nat)
    ensures w in {25, 50, 75, 100}
    ensures w == 100 <==> TabShows("completed", status)
    ensures w == 75 <==> TabShows("payment", status)
    ensures w == 50 <==> status == DealAccepted
  {
    if status == Completed then 100
    else if status in {PaymentInitiated, PaymentCompleted} then 75
    else if status == DealAccepted then 50
    else 25
  }

  /** The bar never shrinks as a transaction moves along its lifecycle. */
  lemma ProgressMonotone(i: nat, j: nat)
    requires i <= j < |Lifecycle|
    ensures ProgressWidth(Lifecycle[i]) <= ProgressWidth(Lifecycle[j])
  {
  }
}
