/** The application's local cache of both tables (src/App.tsx): each handler
    asks the record store for a change and, only when the store reports
    success, replaces the cached list with one computed from the old one. */
module App {
  import opened Records
  import Seqs
  import Dashboard
  import EditModal
  import TransactionForm
  import FormInput

  /** The store's answer to an insert: the server-assigned id and timestamp, or an error. */
  datatype InsertReply = Inserted(id: string, createdAt: string) | InsertFailed

  /** The store's answer to a select: rows, a null `data` without error, or an error. */
  datatype LoadReply<T> = Loaded(rows: seq<T>) | LoadedNull | LoadFailed

  // ---------------------------------------------------------------------
  // The list rules.

  /** The row the store returns for `insert([{ ...newTransaction, status: 'pending' }])`. */
  function Created(d: NewTransaction, id: string, createdAt: string): (t: Transaction)
    ensures t.status == Pending && t.id == id && t.createdAt == createdAt
    ensures t.title == d.title && t.amount == d.amount && t.txType == d.txType
    ensures t.category == d.category && t.transactionDate == d.transactionDate
  {
    Transaction(id, d.title, d.amount, d.txType, d.category, Pending, d.transactionDate, createdAt)
  }

  /** The record the store returns for `insert([simulation])`. */
  function CreatedSimulation(d: SimulationDraft, id: string, createdAt: string): (s: InvestmentSimulation)
    ensures s.id == id && s.createdAt == createdAt
    ensures s.initialAmount == d.initialAmount && s.interestRate == d.interestRate
    ensures s.timePeriod == d.timePeriod && s.finalAmount == d.finalAmount
  {
    InvestmentSimulation(id, d.initialAmount, d.interestRate, d.timePeriod, d.finalAmount, createdAt)
  }

  /** `currentStatus === 'pending' ? 'completed' : 'pending'` */
  function NextStatus(current: Status): (s: Status)
    ensures s != current
  {
    if current == Pending then Completed else Pending
  }

  /** `transactions.map(t => t.id === id ? { ...t, status: newStatus } : t)` */
  function SetStatusWhere(ts: seq<Transaction>, id: string, s: Status): (r: seq<Transaction>)
    ensures |r| == |ts|
  {
    if ts == [] then []
    else [if ts[0].id == id then ts[0].(status := s) else ts[0]] + SetStatusWhere(ts[1..], id, s)
  }

  /** `transactions.map(t => t.id === id ? { ...t, ...updates } : t)` */
  function MergeWhere(ts: seq<Transaction>, id: string, p: TransactionPatch): (r: seq<Transaction>)
    ensures |r| == |ts|
  {
    if ts == [] then []
    else [if ts[0].id == id then Merge(ts[0], p) else ts[0]] + MergeWhere(ts[1..], id, p)
  }

  /** `transactions.filter(t => t.id !== id)` */
  function RemoveById(ts: seq<Transaction>, id: string): (r: seq<Transaction>)
    ensures |r| <= |ts|
    ensures forall i :: 0 <= i < |r| ==> r[i].id != id
  {
    Seqs.FilterIsSubsequence(ts, (t: Transaction) => t.id != id);
    Seqs.Filter(ts, (t: Transaction) => t.id != id)
  }

  /** `simulations.filter(s => s.id !== id)` */
  function RemoveSimulation(sims: seq<InvestmentSimulation>, id: string): (r: seq<InvestmentSimulation>)
    ensures |r| <= |sims|
    ensures forall i :: 0 <= i < |r| ==> r[i].id != id
  {
    Seqs.FilterIsSubsequence(sims, (s: InvestmentSimulation) => s.id != id);
    Seqs.Filter(sims, (s: InvestmentSimulation) => s.id != id)
  }

  /** `data || []` */
  function LoadedRows<T>(reply: LoadReply<T>, cached: seq<T>): (r: seq<T>)
    ensures reply.Loaded? ==> r == reply.rows
    ensures reply.LoadedNull? ==> r == []
    ensures reply.LoadFailed? ==> r == cached
  {
    match reply
    case Loaded(rows) => rows
    case LoadedNull => []
    case LoadFailed => cached
  }

  function CountId(ts: seq<Transaction>, id: string): nat
  {
    if ts == [] then 0 else (if ts[0].id == id then 1 else 0) + CountId(ts[1..], id)
  }

  ghost predicate UniqueIds(ts: seq<Transaction>) {
    forall i, j :: 0 <= i < j < |ts| ==> ts[i].id != ts[j].id
  }

  ghost predicate HasId(ts: seq<Transaction>, id: string) {
    exists i :: 0 <= i < |ts| && ts[i].id == id
  }

  // ---------------------------------------------------------------------
  // Toggle.

  /** Toggling twice from the same starting status gives that status back. */
  lemma NextStatusInvolutive(s: Status)
    ensures NextStatus(NextStatus(s)) == s
    ensures NextStatus(Pending) == Completed && NextStatus(Completed) == Pending
  {
  }

  /** The status update keeps the length and the order, changes only the
      status of the entries with that id, and leaves every other entry as it was. */
  lemma {:induction false} SetStatusWhereSpec(ts: seq<Transaction>, id: string, s: Status)
    ensures |SetStatusWhere(ts, id, s)| == |ts|
    ensures forall i :: 0 <= i < |ts| ==>
      SetStatusWhere(ts, id, s)[i] == if ts[i].id == id then ts[i].(status := s) else ts[i]
    decreases |ts|
  {
    if ts != [] {
      SetStatusWhereSpec(ts[1..], id, s);
    }
  }

  /** The status update is the general merge with `{ status }` as the update. */
  lemma {:induction false} SetStatusIsMerge(ts: seq<Transaction>, id: string, s: Status)
    ensures SetStatusWhere(ts, id, s) == MergeWhere(ts, id, EmptyPatch.(status := Some(s)))
    decreases |ts|
  {
    if ts != [] {
      SetStatusIsMerge(ts[1..], id, s);
    }
  }

  /** Toggling an entry and toggling it back, each time from the status it
      showed, restores the list. */
  lemma {:induction false} ToggleTwiceRestores(ts: seq<Transaction>, id: string, current: Status)
    requires forall i :: 0 <= i < |ts| && ts[i].id == id ==> ts[i].status == current
    ensures SetStatusWhere(SetStatusWhere(ts, id, NextStatus(current)), id, NextStatus(NextStatus(current))) == ts
    decreases |ts|
  {
    if ts != [] {
      ToggleTwiceRestores(ts[1..], id, current);
      var once := SetStatusWhere(ts, id, NextStatus(current));
      assert once[1..] == SetStatusWhere(ts[1..], id, NextStatus(current));
      assert [ts[0]] + ts[1..] == ts;
    }
  }

  // ---------------------------------------------------------------------
  // Update.

  /** A partial update changes exactly the supplied fields of the entries with
      that id, field by field, and no other entry. */
  lemma {:induction false} MergeWhereSpec(ts: seq<Transaction>, id: string, p: TransactionPatch)
    ensures |MergeWhere(ts, id, p)| == |ts|
    ensures forall i :: 0 <= i < |ts| ==>
      MergeWhere(ts, id, p)[i] == if ts[i].id == id then Merge(ts[i], p) else ts[i]
    decreases |ts|
  {
    if ts != [] {
      MergeWhereSpec(ts[1..], id, p);
    }
  }

  /** Saving the edit dialog through the merge rewrites title, amount and
      category of the edited entry and keeps its id, type, status and dates;
      every other entry is untouched. */
  lemma EditSaveKeepsOtherFields(ts: seq<Transaction>, id: string, title: string, amount: real, category: string, i: nat)
    requires i < |ts|
    ensures var r := MergeWhere(ts, id, EditModal.EditPatch(title, amount, category));
      |r| == |ts| &&
      (ts[i].id == id ==> r[i] == ts[i].(title := title, amount := amount, category := category)) &&
      (ts[i].id != id ==> r[i] == ts[i])
  {
    MergeWhereSpec(ts, id, EditModal.EditPatch(title, amount, category));
  }

  // ---------------------------------------------------------------------
  // Delete.

  /** Deleting keeps, in order, exactly the entries with another id, and is a
      no-op when no entry has that id. */
  lemma {:induction false} RemoveByIdSpec(ts: seq<Transaction>, id: string, t: Transaction)
    ensures t in RemoveById(ts, id) <==> t in ts && t.id != id
    ensures Seqs.IsSubsequence(RemoveById(ts, id), ts)
    ensures (forall i :: 0 <= i < |ts| ==> ts[i].id != id) ==> RemoveById(ts, id) == ts
  {
    var p := (x: Transaction) => x.id != id;
    Seqs.FilterMembership(ts, p, t);
    Seqs.FilterIsSubsequence(ts, p);
    if forall i :: 0 <= i < |ts| ==> ts[i].id != id {
      Seqs.FilterKeepsAll(ts, p);
    }
  }

  lemma {:induction false} RemoveByIdLength(ts: seq<Transaction>, id: string)
    ensures |RemoveById(ts, id)| == |ts| - CountId(ts, id)
    decreases |ts|
  {
    if ts != [] {
      RemoveByIdLength(ts[1..], id);
    }
  }

  lemma {:induction false} CountIdUnique(ts: seq<Transaction>, id: string)
    requires UniqueIds(ts)
    ensures HasId(ts, id) ==> CountId(ts, id) == 1
    ensures !HasId(ts, id) ==> CountId(ts, id) == 0
    decreases |ts|
  {
    if ts != [] {
      var rest := ts[1..];
      assert UniqueIds(rest) by {
        forall i, j | 0 <= i < j < |rest| ensures rest[i].id != rest[j].id {
          assert rest[i] == ts[i + 1] && rest[j] == ts[j + 1];
        }
      }
      CountIdUnique(rest, id);
      if ts[0].id == id {
        assert !HasId(rest, id) by {
          forall k | 0 <= k < |rest| ensures rest[k].id != id {
            assert rest[k] == ts[k + 1];
          }
        }
      } else {
        assert HasId(ts, id) <==> HasId(rest, id) by {
          if HasId(ts, id) {
            var k :| 0 <= k < |ts| && ts[k].id == id;
            assert rest[k - 1] == ts[k];
          }
          if HasId(rest, id) {
            var k :| 0 <= k < |rest| && rest[k].id == id;
            assert ts[k + 1] == rest[k];
          }
        }
      }
    }
  }

  /** With unique ids, deleting an id that is present removes exactly one
      entry, and deleting an absent id removes none. */
  lemma DeleteRemovesExactlyOne(ts: seq<Transaction>, id: string)
    requires UniqueIds(ts)
    ensures HasId(ts, id) ==> |RemoveById(ts, id)| == |ts| - 1
    ensures !HasId(ts, id) ==> RemoveById(ts, id) == ts
  {
    RemoveByIdLength(ts, id);
    CountIdUnique(ts, id);
    if !HasId(ts, id) {
      Seqs.FilterKeepsAll(ts, (x: Transaction) => x.id != id);
    }
  }

  /** Deleting a simulation keeps, in order, exactly those with another id:
      the kept ones and the removed ones together are the history, each record
      as often as before; deleting an absent id changes nothing. */
  lemma RemoveSimulationSpec(sims: seq<InvestmentSimulation>, id: string, s: InvestmentSimulation)
    ensures s in RemoveSimulation(sims, id) <==> s in sims && s.id != id
    ensures Seqs.IsSubsequence(RemoveSimulation(sims, id), sims)
    ensures multiset(RemoveSimulation(sims, id)) + multiset(Seqs.Filter(sims, (x: InvestmentSimulation) => x.id == id)) == multiset(sims)
    ensures (forall i :: 0 <= i < |sims| ==> sims[i].id != id) ==> RemoveSimulation(sims, id) == sims
  {
    var p := (x: InvestmentSimulation) => x.id != id;
    Seqs.FilterMembership(sims, p, s);
    Seqs.FilterIsSubsequence(sims, p);
    Seqs.FilterPartition(sims, p, (x: InvestmentSimulation) => x.id == id);
    if forall i :: 0 <= i < |sims| ==> sims[i].id != id {
      Seqs.FilterKeepsAll(sims, p);
    }
  }

  // ---------------------------------------------------------------------
  // Unique ids: every rule keeps them, given a fresh id from the store.

  lemma UniqueIdsPreserved(ts: seq<Transaction>, id: string, s: Status, t: Transaction)
    requires UniqueIds(ts)
    ensures !HasId(ts, t.id) ==> UniqueIds([t] + ts)
    ensures UniqueIds(SetStatusWhere(ts, id, s))
    ensures UniqueIds(RemoveById(ts, id))
  {
    SetStatusWhereSpec(ts, id, s);
    if !HasId(ts, t.id) {
      var r := [t] + ts;
      forall i, j | 0 <= i < j < |r| ensures r[i].id != r[j].id {
        assert r[j] == ts[j - 1];
        if i > 0 { assert r[i] == ts[i - 1]; }
      }
    }
    RemoveKeepsUnique(ts, id);
  }

  lemma {:induction false} RemoveKeepsUnique(ts: seq<Transaction>, id: string)
    requires UniqueIds(ts)
    ensures UniqueIds(RemoveById(ts, id))
    decreases |ts|
  {
    if ts != [] {
      var rest := ts[1..];
      assert UniqueIds(rest) by {
        forall i, j | 0 <= i < j < |rest| ensures rest[i].id != rest[j].id {
          assert rest[i] == ts[i + 1] && rest[j] == ts[j + 1];
        }
      }
      RemoveKeepsUnique(rest, id);
      var p := (x: Transaction) => x.id != id;
      if p(ts[0]) {
        var r := RemoveById(ts, id);
        var tail := RemoveById(rest, id);
        assert r == [ts[0]] + tail;
        forall j | 0 <= j < |tail| ensures tail[j].id != ts[0].id {
          Seqs.FilterMembership(rest, p, tail[j]);
          var k :| 0 <= k < |rest| && rest[k] == tail[j];
          assert rest[k] == ts[k + 1];
        }
        forall i, j | 0 <= i < j < |r| ensures r[i].id != r[j].id {
          assert r[j] == tail[j - 1];
          if i > 0 { assert r[i] == tail[i - 1]; }
        }
      }
    }
  }

  // ---------------------------------------------------------------------
  // What the rules do to the dashboard.

  lemma {:induction false} RemovePendingKeepsCompleted(ts: seq<Transaction>, id: string)
    requires forall i :: 0 <= i < |ts| && ts[i].id == id ==> ts[i].status == Pending
    ensures Dashboard.CompletedTransactions(RemoveById(ts, id)) == Dashboard.CompletedTransactions(ts)
    decreases |ts|
  {
    if ts != [] {
      RemovePendingKeepsCompleted(ts[1..], id);
      if ts[0].id != id {
        assert RemoveById(ts, id) == [ts[0]] + RemoveById(ts[1..], id);
        assert ([ts[0]] + RemoveById(ts[1..], id))[1..] == RemoveById(ts[1..], id);
      }
    }
  }

  lemma {:induction false} MergePendingKeepsCompleted(ts: seq<Transaction>, id: string, p: TransactionPatch)
    requires forall i :: 0 <= i < |ts| && ts[i].id == id ==> ts[i].status == Pending
    requires p.status != Some(Completed)
    ensures Dashboard.CompletedTransactions(MergeWhere(ts, id, p)) == Dashboard.CompletedTransactions(ts)
    decreases |ts|
  {
    if ts != [] {
      MergePendingKeepsCompleted(ts[1..], id, p);
      var r := MergeWhere(ts, id, p);
      assert r[1..] == MergeWhere(ts[1..], id, p);
    }
  }

  /** Adding, deleting or editing pending transactions moves no dashboard card:
      a new entry is pending; deleting entries that are all pending, or editing
      them without completing them, leaves the completed entries as they were. */
  lemma PendingChangesKeepSummary(ts: seq<Transaction>, d: NewTransaction, newId: string, createdAt: string, id: string, p: TransactionPatch)
    requires forall i :: 0 <= i < |ts| && ts[i].id == id ==> ts[i].status == Pending
    requires p.status != Some(Completed)
    ensures Dashboard.Summarize([Created(d, newId, createdAt)] + ts) == Dashboard.Summarize(ts)
    ensures Dashboard.Summarize(RemoveById(ts, id)) == Dashboard.Summarize(ts)
    ensures Dashboard.Summarize(MergeWhere(ts, id, p)) == Dashboard.Summarize(ts)
  {
    Dashboard.PendingDoesNotCount([], Created(d, newId, createdAt), ts);
    assert [] + [Created(d, newId, createdAt)] + ts == [Created(d, newId, createdAt)] + ts;
    assert [] + ts == ts;
    RemovePendingKeepsCompleted(ts, id);
    MergePendingKeepsCompleted(ts, id, p);
  }


  // ---------------------------------------------------------------------
  // The cache.

  class Cache {
    var transactions: seq<Transaction>
    var simulations: seq<InvestmentSimulation>

    constructor ()
      ensures transactions == [] && simulations == []
    {
      transactions, simulations := [], [];
    }

    /** `loadTransactions`: the rows as the store ordered them, `[]` for a null
        answer, and the cache as it was on an error. */
    method LoadTransactions(reply: LoadReply<Transaction>)
      modifies this`transactions
      ensures reply.Loaded? ==> transactions == reply.rows
      ensures reply.LoadedNull? ==> transactions == []
      ensures reply.LoadFailed? ==> transactions == old(transactions)
    {
      transactions := LoadedRows(reply, transactions);
    }

    method LoadSimulations(reply: LoadReply<InvestmentSimulation>)
      modifies this`simulations
      ensures reply.Loaded? ==> simulations == reply.rows
      ensures reply.LoadedNull? ==> simulations == []
      ensures reply.LoadFailed? ==> simulations == old(simulations)
    {
      simulations := LoadedRows(reply, simulations);
    }

    /** `addTransaction`: the inserted row, pending, in front of the old list. */
    method AddTransaction(d: NewTransaction, reply: InsertReply)
      modifies this`transactions
      ensures reply.Inserted? ==> transactions == [Created(d, reply.id, reply.createdAt)] + old(transactions)
      ensures reply.Inserted? ==> |transactions| == |old(transactions)| + 1 && transactions[0].status == Pending
      ensures reply.InsertFailed? ==> transactions == old(transactions)
    {
      if reply.Inserted? {
        transactions := [Created(d, reply.id, reply.createdAt)] + transactions;
      }
    }

    /** `toggleTransactionStatus`: the new status comes from the status the
        item showed, and is written into every entry with that id. */
    method ToggleTransactionStatus(id: string, currentStatus: Status, ok: bool) returns (newStatus: Status)
      modifies this`transactions
      ensures newStatus == NextStatus(currentStatus)
      ensures ok ==> transactions == SetStatusWhere(old(transactions), id, newStatus)
      ensures !ok ==> transactions == old(transactions)
    {
      newStatus := NextStatus(currentStatus);
      if ok {
        transactions := SetStatusWhere(transactions, id, newStatus);
      }
    }

    /** `deleteTransaction`: a declined confirmation returns before any call
        to the store (`requested` is false) and changes nothing. */
    method DeleteTransaction(id: string, confirmed: bool, ok: bool) returns (requested: bool)
      modifies this`transactions
      ensures requested == confirmed
      ensures confirmed && ok ==> transactions == RemoveById(old(transactions), id)
      ensures !(confirmed && ok) ==> transactions == old(transactions)
    {
      if !confirmed {
        return false;
      }
      requested := true;
      if ok {
        transactions := RemoveById(transactions, id);
      }
    }

    /** `updateTransaction`: the supplied fields merged into the entries with that id. */
    method UpdateTransaction(id: string, updates: TransactionPatch, ok: bool)
      modifies this`transactions
      ensures ok ==> transactions == MergeWhere(old(transactions), id, updates)
      ensures !ok ==> transactions == old(transactions)
    {
      if ok {
        transactions := MergeWhere(transactions, id, updates);
      }
    }

    /** The form wired to `addTransaction` (`onAddTransaction={addTransaction}`):
        an accepted submission, once the store inserts it, sits at the front of
        the cache as a pending entry with a positive amount and a non-empty,
        trimmed title; a rejected one never reaches the store. */
    method SubmitForm(form: TransactionForm.Form, today: string, reply: InsertReply)
      returns (submitted: Option<NewTransaction>)
      modifies this`transactions, form
      ensures submitted == TransactionForm.Submission(old(form.title), old(form.amount), old(form.txType), old(form.category), old(form.transactionDate))
      ensures submitted.Some? && reply.Inserted? ==>
        |transactions| == |old(transactions)| + 1 && transactions[1..] == old(transactions)
        && transactions[0].id == reply.id && transactions[0].status == Pending
        && transactions[0].amount > 0.0 && transactions[0].title == FormInput.Trim(old(form.title)) != []
      ensures submitted.Some? && reply.Inserted? ==>
        transactions == [Created(submitted.value, reply.id, reply.createdAt)] + old(transactions)
      ensures submitted.None? || reply.InsertFailed? ==> transactions == old(transactions)
      ensures submitted.Some? ==>
        form.title == [] && form.amount == FormInput.Blank && form.txType == Expense
        && form.category == "Outros" && form.transactionDate == today
      ensures submitted.None? ==>
        form.title == old(form.title) && form.amount == old(form.amount) && form.txType == old(form.txType)
        && form.category == old(form.category) && form.transactionDate == old(form.transactionDate)
    {
      submitted := form.HandleSubmit(today);
      if submitted.Some? {
        AddTransaction(submitted.value, reply);
      }
    }

    /** `addSimulation`: the inserted record in front of the history. */
    method AddSimulation(d: SimulationDraft, reply: InsertReply)
      modifies this`simulations
      ensures reply.Inserted? ==> simulations == [CreatedSimulation(d, reply.id, reply.createdAt)] + old(simulations)
      ensures reply.InsertFailed? ==> simulations == old(simulations)
    {
      if reply.Inserted? {
        simulations := [CreatedSimulation(d, reply.id, reply.createdAt)] + simulations;
      }
    }

    /** `deleteSimulation`: like `deleteTransaction`, on the history. */
    method DeleteSimulation(id: string, confirmed: bool, ok: bool) returns (requested: bool)
      modifies this`simulations
      ensures requested == confirmed
      ensures confirmed && ok ==> simulations == RemoveSimulation(old(simulations), id)
      ensures !(confirmed && ok) ==> simulations == old(simulations)
    {
      if !confirmed {
        return false;
      }
      requested := true;
      if ok {
        simulations := RemoveSimulation(simulations, id);
      }
    }
  }
}
