/** The two entities the backend stores, as the application sees them
    (src/lib/supabase.ts), and the drafts and partial updates that the
    components hand to the application. */
module Records {

  datatype Option<T> = None | Some(value: T)

  /** `type: 'income' | 'expense'` */
  datatype TxType = Income | Expense

  /** `status: 'pending' | 'completed'` */
  datatype Status = Pending | Completed

  /** Amounts are exact reals; the source's IEEE-754 numbers are not modelled. */
  datatype Transaction = Transaction(
    id: string,
    title: string,
    amount: real,
    txType: TxType,
    category: string,
    status: Status,
    transactionDate: string,
    createdAt: string)

  datatype InvestmentSimulation = InvestmentSimulation(
    id: string,
    initialAmount: real,
    interestRate: real,
    timePeriod: int,
    finalAmount: real,
    createdAt: string)

  /** What the new-transaction form submits: a transaction without the
      fields the application or the server adds. */
  datatype NewTransaction = NewTransaction(
    title: string,
    amount: real,
    txType: TxType,
    category: string,
    transactionDate: string)

  /** What the simulator submits: a simulation without id and timestamp. */
  datatype SimulationDraft = SimulationDraft(
    initialAmount: real,
    interestRate: real,
    timePeriod: int,
    finalAmount: real)

  /** `Partial<Transaction>`: `None` is a key that the update object leaves out. */
  datatype TransactionPatch = TransactionPatch(
    id: Option<string>,
    title: Option<string>,
    amount: Option<real>,
    txType: Option<TxType>,
    category: Option<string>,
    status: Option<Status>,
    transactionDate: Option<string>,
    createdAt: Option<string>)

  const EmptyPatch := TransactionPatch(None, None, None, None, None, None, None, None)

  function Override<T>(old_: T, update: Option<T>): T {
    match update
    case Some(v) => v
    case None => old_
  }

  /** `{ ...t, ...updates }`: every key present in the patch wins. */
  function Merge(t: Transaction, p: TransactionPatch): (r: Transaction)
    ensures p.id.Some? ==> r.id == p.id.value
    ensures p.id.None? ==> r.id == t.id
    ensures p.title.Some? ==> r.title == p.title.value
    ensures p.title.None? ==> r.title == t.title
    ensures p.amount.Some? ==> r.amount == p.amount.value
    ensures p.amount.None? ==> r.amount == t.amount
    ensures p.txType.Some? ==> r.txType == p.txType.value
    ensures p.txType.None? ==> r.txType == t.txType
    ensures p.category.Some? ==> r.category == p.category.value
    ensures p.category.None? ==> r.category == t.category
    ensures p.status.Some? ==> r.status == p.status.value
    ensures p.status.None? ==> r.status == t.status
    ensures p.transactionDate.Some? ==> r.transactionDate == p.transactionDate.value
    ensures p.transactionDate.None? ==> r.transactionDate == t.transactionDate
    ensures p.createdAt.Some? ==> r.createdAt == p.createdAt.value
    ensures p.createdAt.None? ==> r.createdAt == t.createdAt
  {
    Transaction(
      Override(t.id, p.id),
      Override(t.title, p.title),
      Override(t.amount, p.amount),
      Override(t.txType, p.txType),
      Override(t.category, p.category),
      Override(t.status, p.status),
      Override(t.transactionDate, p.transactionDate),
      Override(t.createdAt, p.createdAt))
  }

  /** Merging an update that names no key leaves the record as it was. */
  lemma MergeEmptyIsIdentity(t: Transaction)
    ensures Merge(t, EmptyPatch) == t
  {
  }
}
