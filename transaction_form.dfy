/** The new-transaction form (src/components/TransactionForm.tsx). */
module TransactionForm {
  import opened Records
  import opened FormInput

  const DefaultCategory: string := "Outros"
  const DefaultType: TxType := Expense

  /** What `handleSubmit` passes to `onAddTransaction`, or `None` when it
      shows the alert instead. */
  function Submission(title: string, amount: Field<real>, txType: TxType, category: string, date: string): (r: Option<NewTransaction>)
    ensures r.Some? <==> Trim(title) != [] && amount.Filled? && amount.value > 0.0
    ensures r.Some? ==> r.value.amount > 0.0 && r.value.amount == amount.value
    ensures r.Some? ==> r.value.title == Trim(title) && r.value.title != []
    ensures r.Some? ==> r.value.txType == txType && r.value.category == category && r.value.transactionDate == date
  {
    if EntryAccepted(title, amount) then
      Some(NewTransaction(Trim(title), amount.value, txType, category, date))
    else None
  }

  /** The payload's title is already trimmed: no leading or trailing
      whitespace, and trimming it again changes nothing. */
  lemma SubmittedTitleIsTrimmed(title: string, amount: Field<real>, txType: TxType, category: string, date: string)
    requires Submission(title, amount, txType, category, date).Some?
    ensures var t := Submission(title, amount, txType, category, date).value.title;
      !IsWhitespace(t[0]) && !IsWhitespace(t[|t| - 1]) && Trim(t) == t
  {
    TrimSpec(title);
    TrimIdempotent(title);
  }

  /** The form's state. `today` stands for `new Date().toISOString().split('T')[0]`. */
  class Form {
    var title: string
    var amount: Field<real>
    var txType: TxType
    var category: string
    var transactionDate: string

    constructor (today: string)
      ensures title == [] && amount == Blank && txType == Expense && category == "Outros"
      ensures transactionDate == today
    {
      title, amount, txType, category := [], Blank, DefaultType, DefaultCategory;
      transactionDate := today;
    }

    /** Validates, returns the payload for `onAddTransaction`, and resets the
        fields; a rejected entry returns `None` and changes no field. */
    method HandleSubmit(today: string) returns (submitted: Option<NewTransaction>)
      modifies this
      ensures submitted == Submission(old(title), old(amount), old(txType), old(category), old(transactionDate))
      ensures submitted.Some? ==>
        title == [] && amount == Blank && txType == Expense && category == "Outros" && transactionDate == today
      ensures submitted.None? ==>
        title == old(title) && amount == old(amount) && txType == old(txType)
        && category == old(category) && transactionDate == old(transactionDate)
    {
      if !EntryAccepted(title, amount) {
        return None;
      }
      submitted := Some(NewTransaction(Trim(title), amount.value, txType, category, transactionDate));
      title, amount, txType, category := [], Blank, DefaultType, DefaultCategory;
      transactionDate := today;
    }
  }
}
