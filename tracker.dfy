/**
 * The `expenseTracker` object: its `transactions` list and `editingId`,
 * changed in place by form submission, edit, delete and reset, and the
 * copy of the list kept in browser storage.
 */
module Tracker {
  import opened Wrappers
  import opened Dates
  import opened Ledger

  class ExpenseTracker {
    var transactions: seq<Transaction>
    /** The id of the record being edited; `None` is JavaScript's `null`. */
    var editingId: Option<int>
    /** The `expenseTransactions` entry of storage; `None` when nothing was saved. */
    var saved: Option<seq<Transaction>>

    /** The tracker's records and edit target as a `Ledger.State`. */
    function Current(): State
      reads this
    {
      State(transactions, editingId)
    }

    /** A fresh tracker: no records, not editing, over whatever storage holds. */
    constructor(stored: Option<seq<Transaction>>)
      ensures transactions == [] && editingId == None && saved == stored
    {
      transactions := [];
      editingId := None;
      saved := stored;
    }

    /**
     * `loadTransactions`: a saved list is taken as it is; with nothing saved
     * the sample records are loaded and written to storage.
     */
    method LoadTransactions(seed: seq<Transaction>)
      modifies this
      ensures old(saved).Some? ==> transactions == old(saved).value && saved == old(saved)
      ensures old(saved).None? ==> transactions == seed && saved == Some(seed)
      ensures editingId == old(editingId)
    {
      if saved.Some? {
        transactions := saved.value;
      } else {
        transactions := seed;
        SaveTransactions();
      }
    }

    /** `saveTransactions`: storage now holds the current list. */
    method SaveTransactions()
      modifies this
      ensures saved == Some(transactions)
      ensures transactions == old(transactions) && editingId == old(editingId)
    {
      saved := Some(transactions);
    }

    /**
     * `handleFormSubmit`: the new records and edit target are those of
     * `Ledger.Submit`; storage is rewritten exactly when the submission got
     * past the validation gate and was not a duplicate, and a well-formed
     * ledger stays well formed.
     */
    method HandleFormSubmit(form: Form, today: Date, newId: int) returns (outcome: Outcome)
      modifies this
      ensures Step(Current(), outcome) == Submit(old(Current()), form, today, newId)
      ensures outcome.Rejected? || outcome.Duplicate? ==> saved == old(saved)
      ensures !outcome.Rejected? && !outcome.Duplicate? ==> saved == Some(transactions)
      ensures AllWellFormed(old(transactions)) ==> AllWellFormed(transactions)
    {
      var errors := ValidateForm(form, today);
      if !errors.Clear() {
        return Rejected(errors);
      }
      var entry := EntryOf(form);
      if InEditMode(editingId) {
        match FindIndex(transactions, editingId.value) {
          case Some(index) =>
            transactions := transactions[index := Revise(transactions[index], entry)];
            outcome := Updated(index);
          case None =>
            outcome := UpdateTargetMissing;
        }
        editingId := None;
      } else {
        if IsDuplicate(transactions, entry) {
          return Duplicate;
        }
        var record := NewRecord(newId, entry);
        transactions := transactions + [record];
        outcome := Added(record);
      }
      SaveTransactions();
      ResetForm();
    }

    /** `editTransaction`: enters edit mode for `id` when a record holds it. */
    method EditTransaction(id: int)
      modifies this
      ensures FindIndex(transactions, id).Some? ==> editingId == Some(id)
      ensures FindIndex(transactions, id).None? ==> editingId == old(editingId)
      ensures transactions == old(transactions) && saved == old(saved)
    {
      if FindIndex(transactions, id).Some? {
        editingId := Some(id);
      }
    }

    /**
     * `deleteTransaction`: once the user confirms, every record holding `id`
     * goes, the rest keep their order, and storage is rewritten; without
     * confirmation nothing changes.
     */
    method DeleteTransaction(id: int, confirmed: bool)
      modifies this
      ensures confirmed ==> transactions == WithoutId(old(transactions), id) && saved == Some(transactions)
      ensures !confirmed ==> transactions == old(transactions) && saved == old(saved)
      ensures editingId == old(editingId)
      ensures AllWellFormed(old(transactions)) ==> AllWellFormed(transactions)
    {
      if confirmed {
        transactions := WithoutId(transactions, id);
        SaveTransactions();
      }
    }

    /** `resetForm`: leaves edit mode; the records are untouched. */
    method ResetForm()
      modifies this
      ensures editingId == None
      ensures transactions == old(transactions) && saved == old(saved)
    {
      editingId := None;
    }
  }
}
