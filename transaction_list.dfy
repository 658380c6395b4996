/** The filtered view of the transaction list (src/components/TransactionList.tsx). */
module TransactionList {
  import opened Records
  import Seqs

  /** The five buttons: `all`, `income` and `expense` (by type), `pending` and
      `completed` (by status). */
  datatype Selector = All | ByType(kind: TxType) | ByStatus(state: Status)

  /** The if-chain passed to `transactions.filter`. */
  predicate Matches(sel: Selector, t: Transaction) {
    match sel
    case All => true
    case ByType(k) => t.txType == k
    case ByStatus(s) => t.status == s
  }

  function FilterTransactions(ts: seq<Transaction>, sel: Selector): (r: seq<Transaction>)
    ensures |r| <= |ts|
    ensures forall i :: 0 <= i < |r| ==> Matches(sel, r[i])
  {
    Seqs.FilterIsSubsequence(ts, (t: Transaction) => Matches(sel, t));
    Seqs.Filter(ts, (t: Transaction) => Matches(sel, t))
  }

  /** `Transações (n)` in the header. */
  function HeaderCount(ts: seq<Transaction>, sel: Selector): (n: nat)
    ensures n <= |ts|
    ensures sel == All ==> n == |ts|
  {
    AllIsIdentity(ts);
    |FilterTransactions(ts, sel)|
  }

  /** The "Nenhuma transação encontrada" placeholder replaces the list. */
  predicate ShowsEmptyState(ts: seq<Transaction>, sel: Selector): (r: bool)
    ensures r <==> forall i :: 0 <= i < |ts| ==> !Matches(sel, ts[i])
  {
    Seqs.FilterEmptyIff(ts, (x: Transaction) => Matches(sel, x));
    HeaderCount(ts, sel) == 0
  }

  /** `all` shows the list unchanged: same entries, same order. */
  lemma AllIsIdentity(ts: seq<Transaction>)
    ensures FilterTransactions(ts, All) == ts
  {
    Seqs.FilterKeepsAll(ts, (t: Transaction) => Matches(All, t));
  }

  /** An entry is shown exactly when it is in the list and matches the
      selector: by type for `income`/`expense`, by status for `pending`/`completed`. */
  lemma FilterSemantics(ts: seq<Transaction>, sel: Selector, t: Transaction)
    ensures t in FilterTransactions(ts, sel) <==> t in ts && Matches(sel, t)
    ensures sel.ByType? ==> (t in FilterTransactions(ts, sel) <==> t in ts && t.txType == sel.kind)
    ensures sel.ByStatus? ==> (t in FilterTransactions(ts, sel) <==> t in ts && t.status == sel.state)
  {
    Seqs.FilterMembership(ts, (x: Transaction) => Matches(sel, x), t);
  }

  /** The view is an order-preserving subsequence of the list, no longer than it,
      and every entry it shows matches the selector. */
  lemma {:induction false} FilterIsOrderedSubsequence(ts: seq<Transaction>, sel: Selector)
    ensures Seqs.IsSubsequence(FilterTransactions(ts, sel), ts)
    ensures HeaderCount(ts, sel) <= |ts|
    ensures forall i :: 0 <= i < HeaderCount(ts, sel) ==> Matches(sel, FilterTransactions(ts, sel)[i])
  {
    var p := (x: Transaction) => Matches(sel, x);
    Seqs.FilterIsSubsequence(ts, p);
    forall i | 0 <= i < HeaderCount(ts, sel) ensures Matches(sel, FilterTransactions(ts, sel)[i]) {
      Seqs.FilterMembership(ts, p, FilterTransactions(ts, sel)[i]);
    }
  }

  /** Applying the same selector to the view changes nothing. */
  lemma FilterIdempotent(ts: seq<Transaction>, sel: Selector)
    ensures FilterTransactions(FilterTransactions(ts, sel), sel) == FilterTransactions(ts, sel)
  {
    Seqs.FilterIdempotent(ts, (x: Transaction) => Matches(sel, x));
  }

  /** Every entry is in exactly one of the `income`/`expense` views and in
      exactly one of the `pending`/`completed` views, as often as in the list. */
  lemma FilterPartitions(ts: seq<Transaction>)
    ensures multiset(FilterTransactions(ts, ByType(Income))) + multiset(FilterTransactions(ts, ByType(Expense))) == multiset(ts)
    ensures multiset(FilterTransactions(ts, ByStatus(Pending))) + multiset(FilterTransactions(ts, ByStatus(Completed))) == multiset(ts)
    ensures HeaderCount(ts, ByType(Income)) + HeaderCount(ts, ByType(Expense)) == |ts|
    ensures HeaderCount(ts, ByStatus(Pending)) + HeaderCount(ts, ByStatus(Completed)) == |ts|
  {
    Seqs.FilterPartition(ts, (x: Transaction) => Matches(ByType(Income), x), (x: Transaction) => Matches(ByType(Expense), x));
    Seqs.FilterPartition(ts, (x: Transaction) => Matches(ByStatus(Pending), x), (x: Transaction) => Matches(ByStatus(Completed), x));
  }
}
