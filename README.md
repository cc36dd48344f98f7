# Expense tracker ledger, modelled in Dafny

This project models the ledger at the heart of the single-page expense tracker (`script.js`). The ledger is the list of transactions that `expenseTracker` keeps, plus the record currently being edited. The model covers:

- the four field validators and the all-or-nothing gate in front of every form submission;
- the sign normalisation: Income is stored positive, every other category negative;
- adding a transaction, with duplicate rejection;
- updating the record being edited in place;
- deleting by id;
- entering and leaving edit mode;
- the category and date-range filter and the newest-first table order;
- the three summary cards and the per-category expense totals fed to the chart;
- the rewrite of the sample data's DD-MM-YYYY dates to YYYY-MM-DD;
- saving to and loading from browser storage, as a stored copy of the list.

Layout:

- `ledger.dfy`: the pure rules (module `Ledger`).
- `tracker.dfy`: the mutable `expenseTracker` object, as class `Tracker.ExpenseTracker`.
- `views.dfy`: what is derived from the list (filter, sort, totals, chart data).
- `validation.dfy`: the validators.
- `mockdata.dfy`: the in-place date rewrite over the sample records.
- `text.dfy`, `dates.dfy`, `datetext.dfy` and `seqs.dfy`: supporting definitions. These are JavaScript's `trim`, calendar dates, date strings, and `Array.filter` with its properties.

Modelling choices:

- A stored date is a calendar triple. The string forms the program handles are modelled in `DateText`, and `DateText.IsoRoundTrip` ties the two together.
- A form's amount is `Option<int>`, where `None` stands for an input that `parseFloat` turns into `NaN`.
- `editingId` is `Option<int>`, where `None` is `null`. Edit mode follows JavaScript truthiness, so an `editingId` of `0` does not enter edit mode (`Ledger.InEditMode`).
- The chart's category labels keep the order in which categories are first met, which is the order `Object.keys` returns for non-numeric keys.

## Model

| member | source | states |
|---|---|---|
| Validation.ValidateDescription | script.js:68-76 | A description is accepted exactly when it has a character that is not white space and at most 100 characters. The "required" message appears exactly when it is all white space, and the "100 characters or less" message exactly when it has content but is too long. |
| Validation.ValidateAmount | script.js:78-86 | An amount is accepted exactly when it is a number in 1..9999999. Missing/NaN, zero and negative amounts give "must be a positive number". Amounts above 9999999 give "cannot exceed ₹99,99,999". |
| Validation.ValidateCategory | script.js:88-93 | A category is accepted exactly when one was chosen; otherwise the message is "Category is required". |
| Validation.ValidateDate | script.js:95-109 | A date is accepted exactly when it is present and not after today. An empty date gives "Date is required", and a date after today gives "Date cannot be in the future". |
| Text.Trim | script.js:310 | `String.prototype.trim`: the result is the input minus a white-space prefix and suffix. It neither starts nor ends with white space, and it is empty exactly when the input is all white space. |
| Text.TrimIdempotent | script.js:310 | Trimming twice gives the same result as trimming once. |
| Text.TrimStartShape | script.js:310 | Trimming the front leaves a suffix of the input that does not start with white space. Everything it drops is white space. |
| Text.TrimEndShape | script.js:310 | Trimming the back leaves a prefix of the input that does not end with white space. Everything it drops is white space. |
| Text.StripWitness | script.js:310 | Trimming both ends removes only white space, in front and behind, and keeps the middle of the input unchanged. |
| Text.StripEnds | script.js:310 | What is left after trimming both ends neither starts nor ends with white space. |
| Text.StripEmpty | script.js:69 | Trimming leaves nothing exactly when the input was all white space, which is the `trim().length === 0` test. |
| Ledger.TrimKeepsContent | script.js:69 | The trimmed description is all white space exactly when the raw one is, so validating the trimmed value gives the same "required" verdict. |
| Ledger.ValidateForm | script.js:309-324 | All four validators run on the submitted values, with the description trimmed first, and each field's error is exactly its own validator's verdict. The form passes exactly when the trimmed description has content and at most 100 characters, the amount is in 1..9999999, a category is chosen and the date is not after today. |
| Ledger.AcceptedEntryWellFormed | script.js:309-345 | A form that passed the gate yields a well-formed entry: a trimmed 1..100 character description, a non-zero amount within the limit, a category, and an amount that is positive exactly for Income. |
| Ledger.SignedAmount | script.js:333 | The stored amount has the magnitude that was entered. A non-zero amount is positive exactly when the category is Income. |
| Ledger.FindIndex | script.js:328 | `findIndex`: the result is the first position holding the id, or none exactly when no record holds it. |
| Ledger.NewRecord | script.js:342-348 | The new record carries the given id and the entry's description, signed amount, category and date. |
| Ledger.Revise | script.js:330-336 | The revised record keeps its id and takes the entry's description, signed amount, category and date. |
| Ledger.ApplyEntry | script.js:326-363 | What happens after the gate. A duplicate leaves the state as it was; every other outcome ends edit mode. A well-formed entry applied to a well-formed ledger keeps it well formed. |
| Ledger.Submit | script.js:309-371 | The submission is rejected exactly when validation fails, and a rejection changes nothing and reports every field's error. A duplicate changes nothing. Every other outcome leaves edit mode. A well-formed ledger stays well formed. |
| Ledger.SubmitAdd | script.js:341-363 | Add mode. A duplicate entry, judged on the same description, amount, category and date, changes nothing. Otherwise the ledger grows by exactly the new record, appended last, with every earlier record in place. |
| Ledger.SubmitUpdate | script.js:326-339 | Edit mode. When some record holds `editingId` the outcome is an update, at the first position holding it (`findIndex`); otherwise the target is reported missing. Only that record changes: it keeps its id and position and takes the entry's fields. A missing target changes no record. Either way edit mode ends. |
| Ledger.ApplyTwiceStoresOnce | script.js:326-363 | Applying the same entry a second time changes nothing, unless the first application aimed at a missing edit target. |
| Ledger.SubmitTwiceStoresOnce | script.js:309-371 | Submitting the same form twice leaves the ledger as after the first submission, unless the first aimed at a missing edit target. |
| Ledger.WithoutId | script.js:405 | `filter(t => t.id !== id)`: the records kept are exactly those whose id differs, each with as many copies as the input holds, in their original order. An absent id changes nothing, and well-formedness is kept. |
| Tracker.ExpenseTracker.constructor | script.js:112-114 | A fresh tracker has no records and is not editing. |
| Tracker.ExpenseTracker.LoadTransactions | script.js:148-155 | A saved list is taken unchanged. With nothing saved, the sample records are loaded and saved. |
| Tracker.ExpenseTracker.SaveTransactions | script.js:158-161 | Storage holds exactly the current list, and nothing else changes. |
| Tracker.ExpenseTracker.HandleFormSubmit | script.js:309-371 | The imperative submission leaves the records, edit target and outcome given by `Ledger.Submit`. Storage is rewritten exactly when the form passed and was not a duplicate. A well-formed ledger stays well formed. |
| Tracker.ExpenseTracker.EditTransaction | script.js:374-382 | When a record holds the id, edit mode starts for it. Otherwise nothing changes, and the records are never touched. |
| Tracker.ExpenseTracker.DeleteTransaction | script.js:403-410 | Once confirmed, the records become `Ledger.WithoutId` of the old ones and are saved. Without confirmation nothing changes. Edit mode is untouched. |
| Tracker.ExpenseTracker.ResetForm | script.js:413-416 | Edit mode ends and the records and storage are untouched. |
| Views.FilterTransactions | script.js:444-466 | The shown records are an order-preserving subsequence of the ledger. A record is shown exactly when it matches, with every copy of it kept: the chosen category if any, dated on or after the start and on or before the end when those are set. With no filter set, every record is shown. |
| Views.SortNewestFirst | script.js:486 | After the in-place sort no row is older than a row after it, and the rows are a permutation of the input. |
| Views.InsertNewest | script.js:486 | Given newest-first rows before position `i`, moving row `i` ahead past the strictly older rows makes rows `0..i` newest first. Row `i` lands at a position `p`: the rows it passed are each strictly older than it, and the row just before `p` (if any) is not. Every other row keeps its order, so the rows are `MoveAhead` of the input, which is a permutation of it. |
| Views.StepAhead | script.js:486 | One exchange of the insertion moves row `i` one place further ahead, past a strictly older row. |
| Views.MoveAheadOrdered | script.js:486 | Putting a row after the last row at least as new as it, and ahead of the strictly older rows it passed, keeps the rows newest first. |
| Views.MoveAheadPermutes | script.js:486 | Moving one row ahead only reorders the rows. |
| Views.SwapDown | script.js:486 | Exchanges two neighbouring rows and nothing else. |
| Views.RenderRows | script.js:471-486 | The table rows are a permutation of the filtered records, newest first, and contain exactly the matching records. |
| Views.SumOfIncomes | script.js:525-527 | A sum of positive amounts is not negative. |
| Views.SumOfExpenses | script.js:529-531 | A sum of negative amounts is not positive, and is negative when there is at least one. |
| Views.IncomePlusExpensesIsSum | script.js:524-533 | The income total plus the expenses total is the sum of every amount: zero amounts add nothing. |
| Views.Summarize | script.js:524-533 | Income is at least 0 and expenses at most 0. The balance is income plus expenses, which is the sum of all amounts. |
| Views.SummarizeAppend | script.js:524-533 | One more record moves income by its amount when that is positive, expenses by its amount when that is negative, and the balance by its amount always. |
| Views.TallyShape | script.js:622-632 | The chart map has a key for exactly the categories met, with non-negative totals that are positive when no amount is zero. |
| Views.TallyLabels | script.js:622-638 | The chart labels are exactly the map's keys, each listed once. |
| Views.TallyValue | script.js:622-632 | Each category's total is the sum of the magnitudes of that category's records. A category not in the map has no records. |
| Views.TallyTotal | script.js:622-638 | The category totals, added up over the labels, equal the sum of all magnitudes. |
| Views.AbsSumOfExpenses | script.js:629-631 | For negative amounts, the sum of magnitudes is minus the sum. |
| Views.SumOverUnaffected | script.js:637 | Changing a key that is not among the labels leaves the summed values unchanged. |
| Views.SumOverBump | script.js:631 | Raising one label's value by `v` raises the sum over distinct labels by `v`. |
| Views.CategoryTotals | script.js:622-638 | The chart shows exactly the categories having a negative amount; income never appears. Each value is positive and is the sum of the magnitudes of that category's expenses. The values add up to the magnitude of the expenses card. |
| Views.TallyStep | script.js:626-632 | One more expense creates its category at 0 when new, then adds its magnitude. |
| Views.LabelStep | script.js:627-630 | One more expense appends its category to the labels exactly when the category is new. |
| Views.SumOverStep | script.js:627-637 | Adding a magnitude to one category adds the same amount to the chart values summed over the labels, whether the category is new or not. |
| Views.AddToCategory | script.js:627-631 | The loop body: the category is created at 0 when missing and then raised by the magnitude. After the expenses `seen`, this yields the map and labels of `seen` followed by the new expense. |
| Views.TallyExpenses | script.js:622-638 | The imperative `forEach` builds exactly the map `Tally` and the labels `CategoryOrder` of the expenses. |
| DateText.DecimalString | script.js:169-171 | A decimal numeral has at least one digit, consists only of digits, and has no leading zero when it has more than one digit, so `String(5)` is `5`. |
| DateText.PadStart | script.js:169-170 | `padStart`: the result has the target width (or the input's length if longer), ends with the input, and is filled in front. |
| DateText.DigitChar | script.js:169-171 | A digit below ten becomes the character whose value it is. |
| DateText.Split | script.js:218 | `split('-')`: there is at least one part, no part holds a dash, and joining the parts with dashes gives back the input. |
| DateText.NoDashInDigits | script.js:166-173 | A numeral contains no dash. |
| DateText.JoinThree | script.js:172 | Joining three parts gives `a-b-c`. |
| DateText.SplitField | script.js:218 | Splitting `a-rest` gives `a` followed by the parts of `rest`. |
| DateText.SplitSingle | script.js:218 | A string without a dash splits into itself. |
| DateText.SplitThree | script.js:218 | Three dash-free fields joined with dashes split back into exactly those three fields. |
| DateText.PaddedDigits | script.js:169-170 | A day or month padded to two places consists only of digits. |
| DateText.IsoLayout | script.js:219 | In `year-month-day` with a four-digit year and two-digit month and day, the dashes are at positions 4 and 7 and the fields occupy the expected slices. |
| DateText.SplitJoin | script.js:217-220 | Splitting a dash-join of dash-free parts gives the parts back. |
| DateText.RewriteDmyIsIso | script.js:166-173 | Rewriting a DD-MM-YYYY date built by `getDateString` gives the YYYY-MM-DD string of the same date. |
| DateText.RewriteTwiceIsIdentity | script.js:217-220 | For a string with exactly three dash-separated fields, the rewrite undoes itself. |
| DateText.DecimalRoundTrip | script.js:169-171 | A decimal numeral reads back as the number it was made from. |
| DateText.TwoDigitsRoundTrip | script.js:169-170 | A number below 100, padded to two digits, is two digits that read back as that number. |
| DateText.FourDigitYear | script.js:171 | A year in 1000..9999 is written with four digits. |
| DateText.ParseIso | script.js:98-100 | A YYYY-MM-DD string is read as a date only when it names a real calendar day. |
| DateText.IsoFields | script.js:219 | The year, month and day fields of a stored date with a four-digit year are four, two and two digits that read back as the date's parts. |
| DateText.ParseLaidOut | script.js:98-100 | A digit string laid out as YYYY-MM-DD is read field by field, and yields a date exactly when the fields name a real day. |
| DateText.IsoRoundTrip | script.js:218-219 | The YYYY-MM-DD string of a valid date with a four-digit year reads back as that date. |
| DateText.RewrittenSampleDate | script.js:166-220 | A sample date, built as DD-MM-YYYY and rewritten, reads back as the calendar date it came from. |
| DateText.IsoInjective | script.js:351-356 | Two valid dates have the same YYYY-MM-DD string exactly when they are the same date. So comparing stored date strings, as the duplicate check does, is comparing dates. |
| MockData.RewriteMockDates | script.js:216-220 | In place, every sample record's date becomes its rewritten form and no other field or record changes. |
| MockData.RewrittenMockDates | script.js:166-220 | Sample records built from calendar dates end up carrying the YYYY-MM-DD string of each date, which reads back as that date. |
| Seqs.Keep | script.js:405 | `Array.filter`: no longer than the input, holding exactly the input's elements that pass, and every kept element passes. |
| Seqs.KeepCounts | script.js:405 | A filter keeps every copy of a passing element and no copy of a failing one. |
| Seqs.KeepIsSubsequence | script.js:449 | A filter keeps the surviving elements in their original order. |
| Seqs.KeepAllPass | script.js:449 | When every element passes, the filter returns the input unchanged. |
| Ledger.Abs | script.js:333 | `Math.abs`: non-negative and equal to the input or its negation. |
| DateText.TwoDigits | script.js:169-170 | Reference definition of `String(n).padStart(2, '0')`; its properties are stated by `DateText.PaddedDigits` and `DateText.TwoDigitsRoundTrip`. |
| DateText.DmyString | script.js:166-173 | Reference definition of `getDateString`'s `${day}-${month}-${year}`; `DateText.RewriteDmyIsIso` states what the rewrite makes of it. |
| DateText.IsoString | script.js:219 | Reference definition of the stored `${year}-${month}-${day}` form; `DateText.IsoRoundTrip` and `DateText.IsoInjective` state that it determines the date. |
| DateText.Field | script.js:218 | Reference definition of one destructured field: a missing field prints as `undefined`. |
| DateText.RewriteDate | script.js:217-220 | Reference definition of the rewrite; `DateText.RewriteDmyIsIso` and `DateText.RewriteTwiceIsIdentity` state its effect. |
| Views.Matches | script.js:449-465 | Reference definition of the filter's predicate; `Views.FilterTransactions` states its meaning on each bound. |
| Views.SumAmounts | script.js:527 | Reference definition of the `reduce` sum; `Views.Summarize` and `Views.SummarizeAppend` state its properties. |
| Views.Expenses | script.js:530 | Reference definition of `filter(t => t.amount < 0)`. |
| Views.Tally | script.js:622-632 | Reference definition of the `categories` object; `Views.TallyShape`, `Views.TallyValue` and `Views.TallyTotal` state its properties. |
| Views.CategoryOrder | script.js:636 | Reference definition of `Object.keys(categories)`; `Views.TallyLabels` states its properties. |
| Ledger.IsDuplicate | script.js:351-356 | Reference definition of the duplicate test on description, amount, category and date; `Ledger.SubmitAdd` states its effect. |
| Ledger.InEditMode | script.js:326 | Reference definition of `if (this.editingId)` under JavaScript truthiness. |
| Ledger.EntryOf | script.js:310-345 | Reference definition of the trimmed, sign-normalised entry; `Ledger.AcceptedEntryWellFormed` states its properties. |
| Dates.Before | script.js:457-460 | Reference definition of one calendar day being earlier than another, in place of comparing `new Date(...)` values; `Dates.CalendarOrder` states its properties. |
| Dates.After | script.js:104 | Reference definition of a later calendar day, the `inputDate > today` test; `Dates.CalendarOrder` relates it to the other two. |
| Dates.OnOrBefore | script.js:486 | Reference definition of "the same day or earlier", the order the sort comparator and the date filter rely on; `Dates.CalendarOrder` states its properties. |
| Dates.CalendarOrder | script.js:457-486 | The calendar order is irreflexive, transitive and total. "On or before" is "before or the same day", and "after" is its negation. |
| Text.IsWhitespace | script.js:310 | Reference definition of the characters `trim` strips: tab, line feed, vertical tab, form feed, carriage return, space, no-break space, the Unicode space separators, the line and paragraph separators and the byte order mark. |
| Text.TrimStart | script.js:310 | Reference definition of dropping leading white space; `Text.TrimStartShape` states its properties. |
| Text.TrimEnd | script.js:310 | Reference definition of dropping trailing white space; `Text.TrimEndShape` states its properties. |

## Left out

- The DOM is not part of this model: form elements, error-message elements and ARIA attributes, toasts, the theme toggle, keyboard shortcuts, focus, scrolling and highlighting, the loading spinner and the `setTimeout` delay, and rendering of table rows and card text (including `toLocaleString` formatting).
- Chart.js is not part of this model. Only the labels and values handed to it are modelled.
- `generateUniqueId` reads the clock and a random number. The new id is a parameter of `HandleFormSubmit`, and nothing is assumed about its uniqueness.
- The `confirm` dialog of `deleteTransaction` is the `confirmed` parameter.
- `localStorage` and JSON are modelled as a stored copy of the list (`saved`). Serialisation is taken to round-trip exactly, and storage errors are not modelled.
- The contents of the sample dataset are a parameter of `LoadTransactions`. Only the date rewrite and its result are modelled (`MockData`), and so is `getDateString` through `DateText.DmyString` for a given calendar date. The clock read and the day arithmetic of `setDate` are not modelled.
- JavaScript `Date` parsing and time zones: dates are calendar triples, and `new Date(string)` is assumed to order them as the calendar does. `validateDate` compares a UTC-midnight parse with local midnight; that time-zone skew is not modelled.
- Amounts are integers. `parseFloat`'s fractional values, floating-point addition in the totals, and `NaN` beyond "did not parse" (`None`) are not modelled.
- Views.SortNewestFirst: proves the rows end up newest first and are a permutation. It does not prove stability, and it does not model `Array.prototype.sort`'s algorithm, only the comparator's order.
- Views.RenderRows: states that the rows are the filtered records, newest first, as a permutation. It does not state that rows with the same date keep their ledger order, which the stable `Array.prototype.sort` guarantees.
- `description.length` counts UTF-16 code units in JavaScript; here it counts characters.
- `Object.keys` lists integer-like keys first in numeric order; categories are taken to be non-numeric names. Keys inherited from `Object.prototype` are not modelled.
- Records loaded from storage are taken as they are. The well-formedness invariant is carried as `AllWellFormed(old) ==> AllWellFormed(new)`, not as a class invariant.
- `renderTransactions`, `updateUI`, `resetFilters` and the other UI functions are not part of this model.
