/** The dashboard cards (src/components/Dashboard.tsx): totals over the
    completed transactions only. */
module Dashboard {
  import opened Records
  import Seqs

  predicate IsCompleted(t: Transaction) { t.status == Completed }
  predicate IsIncome(t: Transaction) { t.txType == Income }
  predicate IsExpense(t: Transaction) { t.txType == Expense }

  /** `transactions.filter(t => t.status === 'completed')` */
  function CompletedTransactions(ts: seq<Transaction>): (r: seq<Transaction>)
    ensures |r| <= |ts|
    ensures forall i :: 0 <= i < |r| ==> r[i].status == Completed
  {
    Seqs.FilterIsSubsequence(ts, IsCompleted);
    Seqs.Filter(ts, IsCompleted)
  }

  /** Every completed entry of the list, and nothing else, in list order. */
  lemma CompletedTransactionsSpec(ts: seq<Transaction>, t: Transaction)
    ensures t in CompletedTransactions(ts) <==> t in ts && t.status == Completed
    ensures Seqs.IsSubsequence(CompletedTransactions(ts), ts)
  {
    Seqs.FilterMembership(ts, IsCompleted, t);
    Seqs.FilterIsSubsequence(ts, IsCompleted);
  }

  /** `.reduce((sum, t) => sum + t.amount, 0)` */
  function SumAmounts(ts: seq<Transaction>): real
  {
    if ts == [] then 0.0 else ts[0].amount + SumAmounts(ts[1..])
  }

  /** Sum of the amounts of the completed income entries. */
  function TotalIncome(ts: seq<Transaction>): (r: real)
    ensures r == SumOf(ts, IncomeOf)
  {
    TotalsStepwise(ts);
    SumAmounts(Seqs.Filter(CompletedTransactions(ts), IsIncome))
  }

  /** Sum of the amounts of the completed expense entries. */
  function TotalExpense(ts: seq<Transaction>): (r: real)
    ensures r == SumOf(ts, ExpenseOf)
  {
    TotalsStepwise(ts);
    SumAmounts(Seqs.Filter(CompletedTransactions(ts), IsExpense))
  }

  /** `totalIncome - totalExpense`: the signed sum over the completed entries. */
  function Balance(ts: seq<Transaction>): (r: real)
    ensures r == SumOf(ts, Contribution)
  {
    ContributionSum(ts);
    TotalIncome(ts) - TotalExpense(ts)
  }

  /** The four cards, and the colour class of the balance card. */
  datatype Summary = Summary(totalIncome: real, totalExpense: real, balance: real, completedCount: nat, positive: bool)

  function Summarize(ts: seq<Transaction>): (r: Summary)
    ensures r.balance == r.totalIncome - r.totalExpense
    ensures r.positive <==> r.balance >= 0.0
  {
    var b := Balance(ts);
    Summary(TotalIncome(ts), TotalExpense(ts), b, |CompletedTransactions(ts)|, b >= 0.0)
  }

  // ---------------------------------------------------------------------
  // Reference definitions: one pass over the list, entry by entry.

  /** What a transaction adds to the balance: its amount for completed income,
      minus its amount for completed expense, nothing while pending. */
  function Contribution(t: Transaction): real {
    if t.status == Pending then 0.0
    else if t.txType == Income then t.amount
    else -t.amount
  }

  function IncomeOf(t: Transaction): real {
    if t.status == Completed && t.txType == Income then t.amount else 0.0
  }

  function ExpenseOf(t: Transaction): real {
    if t.status == Completed && t.txType == Expense then t.amount else 0.0
  }

  function SumOf(ts: seq<Transaction>, f: Transaction -> real): real
  {
    if ts == [] then 0.0 else f(ts[0]) + SumOf(ts[1..], f)
  }

  function CountCompleted(ts: seq<Transaction>): nat
  {
    if ts == [] then 0 else (if ts[0].status == Completed then 1 else 0) + CountCompleted(ts[1..])
  }

  // ---------------------------------------------------------------------
  // Lemmas.

  lemma {:induction false} SumAmountsConcat(a: seq<Transaction>, b: seq<Transaction>)
    ensures SumAmounts(a + b) == SumAmounts(a) + SumAmounts(b)
    decreases |a|
  {
    if a == [] {
      assert a + b == b;
    } else {
      SumAmountsConcat(a[1..], b);
      assert (a + b)[1..] == a[1..] + b;
    }
  }

  lemma {:induction false} TotalsStepwise(ts: seq<Transaction>)
    ensures SumAmounts(Seqs.Filter(CompletedTransactions(ts), IsIncome)) == SumOf(ts, IncomeOf)
    ensures SumAmounts(Seqs.Filter(CompletedTransactions(ts), IsExpense)) == SumOf(ts, ExpenseOf)
    ensures |CompletedTransactions(ts)| == CountCompleted(ts)
    decreases |ts|
  {
    if ts != [] {
      TotalsStepwise(ts[1..]);
      var rest := CompletedTransactions(ts[1..]);
      var t := ts[0];
      if t.status == Completed {
        assert CompletedTransactions(ts) == [t] + rest;
        Seqs.FilterConcat([t], rest, IsIncome);
        Seqs.FilterConcat([t], rest, IsExpense);
        assert Seqs.Filter([t], IsIncome) == if t.txType == Income then [t] else [];
        assert Seqs.Filter([t], IsExpense) == if t.txType == Expense then [t] else [];
        SumAmountsConcat(Seqs.Filter([t], IsIncome), Seqs.Filter(rest, IsIncome));
        SumAmountsConcat(Seqs.Filter([t], IsExpense), Seqs.Filter(rest, IsExpense));
      }
    }
  }

  /** `totalIncome` is the sum of the amounts of completed income entries, and
      `totalExpense` the same for completed expense entries: an entry counts
      towards a total exactly when it is completed and of that type. */
  lemma {:induction false} TotalsAreSumsOverCompleted(ts: seq<Transaction>)
    ensures TotalIncome(ts) == SumOf(ts, IncomeOf)
    ensures TotalExpense(ts) == SumOf(ts, ExpenseOf)
  {
    TotalsStepwise(ts);
  }

  /** The count card shows how many transactions are completed. */
  lemma {:induction false} CompletedCountIsCount(ts: seq<Transaction>)
    ensures Summarize(ts).completedCount == CountCompleted(ts)
    ensures Summarize(ts).completedCount <= |ts|
  {
    TotalsStepwise(ts);
    Seqs.FilterIsSubsequence(ts, IsCompleted);
  }

  lemma {:induction false} ContributionSum(ts: seq<Transaction>)
    ensures SumOf(ts, Contribution) == SumOf(ts, IncomeOf) - SumOf(ts, ExpenseOf)
    decreases |ts|
  {
    if ts != [] {
      ContributionSum(ts[1..]);
    }
  }

  /** The balance is the sum, over completed entries, of plus the amount of
      each income and minus the amount of each expense; it can be negative. */
  lemma {:induction false} BalanceIsSignedSum(ts: seq<Transaction>)
    ensures Summarize(ts).balance == SumOf(ts, Contribution)
  {
    TotalsStepwise(ts);
    ContributionSum(ts);
  }

  /** The balance can be negative: one completed expense of 10 and nothing
      else gives a balance of -10, flagged negative. */
  lemma NegativeBalanceExample()
    ensures var ts := [Transaction("1", "Aluguel", 10.0, Expense, "Moradia", Completed, "2025-01-05", "2025-01-05T10:00:00Z")];
      Summarize(ts).balance == -10.0 && !Summarize(ts).positive
  {
    var t := Transaction("1", "Aluguel", 10.0, Expense, "Moradia", Completed, "2025-01-05", "2025-01-05T10:00:00Z");
    assert [t][1..] == [];
    assert SumOf([t], Contribution) == -10.0;
  }

  /** An empty list shows zero on every card and counts as positive. */
  lemma EmptySummary()
    ensures Summarize([]) == Summary(0.0, 0.0, 0.0, 0, true)
  {
  }

  /** Only completed entries matter: two lists with the same completed
      entries, in the same order, show the same cards. */
  lemma SummaryDependsOnlyOnCompleted(a: seq<Transaction>, b: seq<Transaction>)
    requires CompletedTransactions(a) == CompletedTransactions(b)
    ensures Summarize(a) == Summarize(b)
  {
  }

  /** A pending entry changes no card, wherever it sits in the list. */
  lemma PendingDoesNotCount(a: seq<Transaction>, t: Transaction, b: seq<Transaction>)
    requires t.status == Pending
    ensures Summarize(a + [t] + b) == Summarize(a + b)
  {
    Seqs.FilterConcat(a + [t], b, IsCompleted);
    Seqs.FilterConcat(a, [t], IsCompleted);
    Seqs.FilterConcat(a, b, IsCompleted);
    assert [t][1..] == [];
    assert Seqs.Filter([t], IsCompleted) == [];
    assert CompletedTransactions(a + [t] + b) == CompletedTransactions(a + b);
  }

  lemma {:induction false} SumAmountsNonNegative(ts: seq<Transaction>)
    requires forall i :: 0 <= i < |ts| ==> ts[i].amount > 0.0
    ensures SumAmounts(ts) >= 0.0
    ensures ts != [] ==> SumAmounts(ts) > 0.0
    decreases |ts|
  {
    if ts != [] {
      SumAmountsNonNegative(ts[1..]);
    }
  }

  /** With the positive amounts the forms enforce, neither total is negative,
      and the balance never exceeds the income. */
  lemma TotalsNonNegative(ts: seq<Transaction>)
    requires forall i :: 0 <= i < |ts| ==> ts[i].amount > 0.0
    ensures Summarize(ts).totalIncome >= 0.0 && Summarize(ts).totalExpense >= 0.0
    ensures Summarize(ts).balance <= Summarize(ts).totalIncome
  {
    var c := CompletedTransactions(ts);
    forall p: Transaction -> bool ensures forall i :: 0 <= i < |Seqs.Filter(c, p)| ==> Seqs.Filter(c, p)[i].amount > 0.0 {
      forall i | 0 <= i < |Seqs.Filter(c, p)| ensures Seqs.Filter(c, p)[i].amount > 0.0 {
        var x := Seqs.Filter(c, p)[i];
        Seqs.FilterMembership(c, p, x);
        Seqs.FilterMembership(ts, IsCompleted, x);
      }
    }
    SumAmountsNonNegative(Seqs.Filter(c, IsIncome));
    SumAmountsNonNegative(Seqs.Filter(c, IsExpense));
  }
}
