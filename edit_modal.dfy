/** The edit dialog (src/components/EditModal.tsx). */
module EditModal {
  import opened Records
  import opened FormInput

  const DefaultCategory: string := "Outros"

  /** The restricted update `{ title, amount, category }` that `onSave` sends. */
  function EditPatch(title: string, amount: real, category: string): (p: TransactionPatch)
    ensures p.title == Some(title) && p.amount == Some(amount) && p.category == Some(category)
    ensures p.id.None? && p.txType.None? && p.status.None? && p.transactionDate.None? && p.createdAt.None?
  {
    EmptyPatch.(title := Some(title), amount := Some(amount), category := Some(category))
  }

  /** What a submit does: nothing when no transaction is open (the dialog
      renders nothing), the alert when the entry is invalid, otherwise
      `onSave(id, updates)` followed by `onClose()`. */
  datatype Outcome = NotRendered | Rejected | Saved(id: string, updates: TransactionPatch)

  class Modal {
    /** The `transaction` prop. */
    var transaction: Option<Transaction>
    var title: string
    var amount: Field<real>
    var category: string

    constructor ()
      ensures transaction == None && title == [] && amount == Blank && category == "Outros"
    {
      transaction, title, amount, category := None, [], Blank, DefaultCategory;
    }

    /** A new `transaction` prop and the effect it triggers: an open
        transaction's title, amount and category are copied into the fields;
        closing keeps the fields as they were. */
    method Open(t: Option<Transaction>)
      modifies this
      ensures transaction == t
      ensures t.Some? ==> title == t.value.title && amount == Filled(t.value.amount) && category == t.value.category
      ensures t.None? ==> title == old(title) && amount == old(amount) && category == old(category)
    {
      transaction := t;
      if t.Some? {
        title, amount, category := t.value.title, Filled(t.value.amount), t.value.category;
      }
    }

    /** `handleSubmit`. It changes no field of the dialog; `close` says whether
        `onClose` runs, which happens exactly when an update is sent. */
    method HandleSubmit() returns (outcome: Outcome, close: bool)
      ensures transaction.None? <==> outcome == NotRendered
      ensures transaction.Some? && !EntryAccepted(title, amount) <==> outcome == Rejected
      ensures outcome.Saved? <==> transaction.Some? && EntryAccepted(title, amount)
      ensures outcome.Saved? ==> outcome.id == transaction.value.id
      ensures outcome.Saved? ==> outcome.updates == EditPatch(Trim(title), amount.value, category)
      ensures outcome.Saved? ==> amount.value > 0.0 && Trim(title) != []
      ensures close <==> outcome.Saved?
    {
      if transaction.None? {
        return NotRendered, false;
      }
      if !EntryAccepted(title, amount) {
        return Rejected, false;
      }
      outcome := Saved(transaction.value.id, EditPatch(Trim(title), amount.value, category));
      close := true;
    }
  }
}
