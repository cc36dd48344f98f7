/**
 * The ledger's records and the rules that change them: the all-or-nothing
 * validation gate of a form submission, sign normalisation from the
 * category, duplicate rejection and append on add, in-place replacement on
 * update, and delete by id.
 */
module Ledger {
  import opened Wrappers
  import opened Text
  import opened Dates
  import opened Validation
  import opened Seqs

  /** The one category whose amounts are stored positive. */
  const IncomeCategory := "Income"

  datatype Transaction = Transaction(id: int, description: string, amount: int, category: string, date: Date)

  /** `Math.abs`. */
  function Abs(x: int): (r: int)
    ensures r >= 0 && (r == x || r == -x)
  {
    if x < 0 then -x else x
  }

  /**
   * The stored amount: `category === 'Income' ? Math.abs(amount) : -Math.abs(amount)`.
   * It keeps the magnitude and takes its sign from the category alone.
   */
  function SignedAmount(amount: int, category: string): (r: int)
    ensures Abs(r) == Abs(amount)
    ensures amount != 0 ==> (r > 0 <==> category == IncomeCategory)
    ensures r >= 0 <==> category == IncomeCategory || amount == 0
  {
    if category == IncomeCategory then Abs(amount) else -Abs(amount)
  }

  /**
   * What every record the ledger itself writes satisfies: a description
   * with no white space at either end, 1 to 100 characters long; a non-zero
   * amount of at most 9999999 whose sign says whether the category is
   * Income; a category.
   */
  predicate WellFormed(t: Transaction) {
    WellFormedEntry(Entry(t.description, t.amount, t.category, t.date))
  }

  predicate WellFormedEntry(e: Entry) {
    && 0 < |e.description| <= MaxDescriptionLength
    && !IsWhitespace(e.description[0])
    && !IsWhitespace(e.description[|e.description| - 1])
    && 0 < Abs(e.amount) <= MaxAmount
    && e.category != ""
    && (e.amount > 0 <==> e.category == IncomeCategory)
  }

  predicate AllWellFormed(ts: seq<Transaction>) {
    forall i :: 0 <= i < |ts| ==> WellFormed(ts[i])
  }

  /**
   * The form as submitted: the raw description, the amount (None when it
   * did not parse as a number), the chosen category ("" for none) and the
   * date (None when empty).
   */
  datatype Form = Form(description: string, amount: Option<int>, category: string, date: Option<Date>)

  /** One message per field, or None when that field passed. */
  datatype FieldErrors = FieldErrors(
    description: Option<string>,
    amount: Option<string>,
    category: Option<string>,
    date: Option<string>)
  {
    predicate Clear() {
      description.None? && amount.None? && category.None? && date.None?
    }
  }

  /** A description has some character other than white space exactly when its trimmed form does. */
  lemma {:induction false} TrimKeepsContent(s: string)
    ensures AllWhitespace(Trim(s)) <==> AllWhitespace(s)
  {
  }

  /**
   * All four validators run on the submitted values (the description after
   * trimming); the form passes only when none of them reports an error.
   */
  function ValidateForm(form: Form, today: Date): (errors: FieldErrors)
    ensures errors == FieldErrors(
      ValidateDescription(Trim(form.description)),
      ValidateAmount(form.amount),
      ValidateCategory(form.category),
      ValidateDate(form.date, today))
    ensures errors.Clear() <==>
      && !AllWhitespace(form.description)
      && |Trim(form.description)| <= MaxDescriptionLength
      && form.amount.Some? && 0 < form.amount.value <= MaxAmount
      && form.category != ""
      && form.date.Some? && OnOrBefore(form.date.value, today)
  {
    TrimKeepsContent(form.description);
    FieldErrors(
      ValidateDescription(Trim(form.description)),
      ValidateAmount(form.amount),
      ValidateCategory(form.category),
      ValidateDate(form.date, today))
  }

  /** The four compared fields of a submission, after trimming and sign normalisation. */
  datatype Entry = Entry(description: string, amount: int, category: string, date: Date)

  function EntryOf(form: Form): Entry
    requires form.amount.Some? && form.date.Some?
  {
    Entry(
      Trim(form.description),
      SignedAmount(form.amount.value, form.category),
      form.category,
      form.date.value)
  }

  /** A form that passed validation yields a well-formed entry: trimmed, in range, signed by its category. */
  lemma AcceptedEntryWellFormed(form: Form, today: Date)
    requires ValidateForm(form, today).Clear()
    ensures WellFormedEntry(EntryOf(form))
  {
    TrimKeepsContent(form.description);
  }

  /** `t` agrees with `e` on description, amount, category and date. */
  predicate SameEntry(t: Transaction, e: Entry) {
    t.description == e.description && t.amount == e.amount
    && t.category == e.category && t.date == e.date
  }

  /** `transactions.some(...)`: an existing record carries the same entry. */
  predicate IsDuplicate(ts: seq<Transaction>, e: Entry) {
    exists i :: 0 <= i < |ts| && SameEntry(ts[i], e)
  }

  function NewRecord(id: int, e: Entry): (t: Transaction)
    ensures t.id == id && SameEntry(t, e)
  {
    Transaction(id, e.description, e.amount, e.category, e.date)
  }

  /** `{...t, description, amount, category, date}`: the entry's fields, the old id. */
  function Revise(t: Transaction, e: Entry): (r: Transaction)
    ensures r.id == t.id && SameEntry(r, e)
  {
    t.(description := e.description, amount := e.amount, category := e.category, date := e.date)
  }

  /** `transactions.findIndex(t => t.id === id)`: the first position holding `id`, if any. */
  function FindIndex(ts: seq<Transaction>, id: int): (r: Option<nat>)
    ensures r.Some? ==> r.value < |ts| && ts[r.value].id == id
    ensures r.Some? ==> forall j :: 0 <= j < r.value ==> ts[j].id != id
    ensures r.None? <==> forall j :: 0 <= j < |ts| ==> ts[j].id != id
    decreases |ts|
  {
    if ts == [] then None
    else if ts[0].id == id then Some(0)
    else
      match FindIndex(ts[1..], id)
      case None => None
      case Some(k) => Some(k + 1)
  }

  /** What a submission reports (the toast it leads to). */
  datatype Outcome =
    | Rejected(errors: FieldErrors)
    | Updated(index: nat)
    | UpdateTargetMissing
    | Duplicate
    | Added(record: Transaction)

  /** The ledger's mutable state: the records and the id being edited. */
  datatype State = State(transactions: seq<Transaction>, editingId: Option<int>)

  datatype Step = Step(state: State, outcome: Outcome)

  /** `if (this.editingId)`: JavaScript truthiness, so an id of 0 reads as "not editing". */
  predicate InEditMode(editingId: Option<int>) {
    editingId.Some? && editingId.value != 0
  }

  /**
   * The part of a submission after the gate: in edit mode the record holding
   * `editingId` takes the entry, in add mode the entry is appended unless
   * it duplicates an existing record.
   */
  function ApplyEntry(s: State, e: Entry, newId: int): (r: Step)
    ensures !r.outcome.Rejected?
    ensures r.outcome.Duplicate? ==> r.state == s
    ensures !r.outcome.Duplicate? ==> r.state.editingId == None
    ensures WellFormedEntry(e) && AllWellFormed(s.transactions) ==> AllWellFormed(r.state.transactions)
  {
    if InEditMode(s.editingId) then
      match FindIndex(s.transactions, s.editingId.value)
      case Some(i) =>
        Step(State(s.transactions[i := Revise(s.transactions[i], e)], None), Updated(i))
      case None => Step(State(s.transactions, None), UpdateTargetMissing)
    else if IsDuplicate(s.transactions, e) then Step(s, Duplicate)
    else
      var t := NewRecord(newId, e);
      Step(State(s.transactions + [t], None), Added(t))
  }

  /**
   * A form submission, from the validation gate to `resetForm`: a form
   * that fails any validator changes nothing and reports every failing
   * field; a valid one goes through `ApplyEntry`, which keeps the ledger
   * well formed.
   */
  function Submit(s: State, form: Form, today: Date, newId: int): (r: Step)
    ensures r.outcome.Rejected? <==> !ValidateForm(form, today).Clear()
    ensures r.outcome.Rejected? ==> r == Step(s, Rejected(ValidateForm(form, today)))
    ensures r.outcome.Duplicate? ==> r.state == s
    ensures !r.outcome.Rejected? && !r.outcome.Duplicate? ==> r.state.editingId == None
    ensures AllWellFormed(s.transactions) ==> AllWellFormed(r.state.transactions)
  {
    var errors := ValidateForm(form, today);
    if !errors.Clear() then Step(s, Rejected(errors))
    else
      AcceptedEntryWellFormed(form, today);
      ApplyEntry(s, EntryOf(form), newId)
  }

  /**
   * Add mode: a duplicate entry leaves everything as it was; otherwise the
   * ledger grows by exactly one record, the new one, at the end.
   */
  lemma SubmitAdd(s: State, form: Form, today: Date, newId: int)
    requires ValidateForm(form, today).Clear() && !InEditMode(s.editingId)
    ensures var r := Submit(s, form, today, newId);
      if IsDuplicate(s.transactions, EntryOf(form)) then r == Step(s, Duplicate)
      else
        && |r.state.transactions| == |s.transactions| + 1
        && r.state.transactions[..|s.transactions|] == s.transactions
        && r.state.transactions[|s.transactions|] == NewRecord(newId, EntryOf(form))
        && r.outcome == Added(NewRecord(newId, EntryOf(form)))
  {
  }

  /**
   * Edit mode: a present target is always revised, and only the first
   * record holding `editingId` changes, keeping its id and position; a
   * missing id changes no record. Either way edit mode ends.
   */
  lemma SubmitUpdate(s: State, form: Form, today: Date, newId: int)
    requires ValidateForm(form, today).Clear() && InEditMode(s.editingId)
    ensures var r := Submit(s, form, today, newId);
      && r.state.editingId == None
      && |r.state.transactions| == |s.transactions|
      && (forall j :: 0 <= j < |s.transactions| && s.transactions[j].id != s.editingId.value ==>
            r.state.transactions[j] == s.transactions[j])
      && (r.outcome == UpdateTargetMissing <==> forall j :: 0 <= j < |s.transactions| ==> s.transactions[j].id != s.editingId.value)
      && (r.outcome.Updated? || r.outcome == UpdateTargetMissing)
      && (r.outcome == UpdateTargetMissing ==> r.state.transactions == s.transactions)
      && (r.outcome.Updated? ==>
            var i := r.outcome.index;
            && i < |s.transactions|
            && s.transactions[i].id == s.editingId.value
            && (forall j :: 0 <= j < i ==> s.transactions[j].id != s.editingId.value)
            && r.state.transactions[i].id == s.transactions[i].id
            && SameEntry(r.state.transactions[i], EntryOf(form))
            && (forall j :: 0 <= j < |s.transactions| && j != i ==> r.state.transactions[j] == s.transactions[j]))
  {
  }

  /** Applying the same entry twice stores it once, unless the first aimed at a missing edit target. */
  lemma ApplyTwiceStoresOnce(s: State, e: Entry, id1: int, id2: int)
    requires ApplyEntry(s, e, id1).outcome != UpdateTargetMissing
    ensures ApplyEntry(ApplyEntry(s, e, id1).state, e, id2).state == ApplyEntry(s, e, id1).state
  {
    var r1 := ApplyEntry(s, e, id1);
    var ts := r1.state.transactions;
    match r1.outcome
    case Added(t) =>
      assert SameEntry(ts[|ts| - 1], e);
    case Updated(i) =>
      assert SameEntry(ts[i], e);
    case Duplicate =>
  }

  /**
   * Submitting the same form twice stores it once: the second submission
   * finds the record the first one wrote and is rejected as a duplicate
   * (unless the first aimed at an edit target that no longer exists).
   */
  lemma SubmitTwiceStoresOnce(s: State, form: Form, today: Date, id1: int, id2: int)
    requires Submit(s, form, today, id1).outcome != UpdateTargetMissing
    ensures Submit(Submit(s, form, today, id1).state, form, today, id2).state
         == Submit(s, form, today, id1).state
  {
    if ValidateForm(form, today).Clear() {
      ApplyTwiceStoresOnce(s, EntryOf(form), id1, id2);
    }
  }

  /**
   * `transactions.filter(t => t.id !== id)`: every record with that id goes,
   * the others stay in order, and an absent id changes nothing.
   */
  function WithoutId(ts: seq<Transaction>, id: int): (r: seq<Transaction>)
    ensures forall t :: t in r <==> t in ts && t.id != id
    ensures forall t :: multiset(r)[t] == if t.id != id then multiset(ts)[t] else 0
    ensures Subsequence(r, ts)
    ensures (forall i :: 0 <= i < |ts| ==> ts[i].id != id) ==> r == ts
    ensures AllWellFormed(ts) ==> AllWellFormed(r)
  {
    var keep := (t: Transaction) => t.id != id;
    KeepIsSubsequence(ts, keep);
    KeepCounts(ts, keep);
    if forall i :: 0 <= i < |ts| ==> ts[i].id != id then
      KeepAllPass(ts, keep);
      Keep(ts, keep)
    else
      Keep(ts, keep)
  }
}
