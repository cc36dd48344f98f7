/**
 * Views derived from the ledger: the category and date-range filter, the
 * newest-first ordering of the table, the summary totals and the expenses
 * grouped by category for the chart.
 */
module Views {
  import opened Wrappers
  import opened Dates
  import opened Seqs
  import opened Ledger

  /** The filter controls: a category ("" for all) and optional inclusive date bounds. */
  datatype FilterSettings = FilterSettings(category: string, dateFrom: Option<Date>, dateTo: Option<Date>)

  predicate NoFilter(f: FilterSettings) {
    f.category == "" && f.dateFrom.None? && f.dateTo.None?
  }

  /** The predicate of `getFilteredTransactions`. */
  predicate Matches(f: FilterSettings, t: Transaction) {
    && (f.category == "" || t.category == f.category)
    && (f.dateFrom.None? || !After(f.dateFrom.value, t.date))
    && (f.dateTo.None? || !Before(f.dateTo.value, t.date))
  }

  /**
   * The shown records: those matching the category, if one is chosen, and
   * lying within the bounds that are set, in ledger order. With no filter
   * set every record is shown.
   */
  function FilterTransactions(ts: seq<Transaction>, f: FilterSettings): (r: seq<Transaction>)
    ensures Subsequence(r, ts)
    ensures forall t :: t in r <==> t in ts && Matches(f, t)
    ensures forall t :: multiset(r)[t] == if Matches(f, t) then multiset(ts)[t] else 0
    ensures forall t :: t in r ==>
      && (f.category != "" ==> t.category == f.category)
      && (f.dateFrom.Some? ==> OnOrBefore(f.dateFrom.value, t.date))
      && (f.dateTo.Some? ==> OnOrBefore(t.date, f.dateTo.value))
    ensures NoFilter(f) ==> r == ts
  {
    var keep := (t: Transaction) => Matches(f, t);
    KeepIsSubsequence(ts, keep);
    KeepCounts(ts, keep);
    if NoFilter(f) then
      KeepAllPass(ts, keep);
      Keep(ts, keep)
    else
      Keep(ts, keep)
  }

  /** Newest first: no record is dated earlier than one after it. */
  predicate NewestFirst(rows: seq<Transaction>) {
    forall i, j :: 0 <= i < j < |rows| ==> OnOrBefore(rows[j].date, rows[i].date)
  }

  /** Exchanges the rows at `j - 1` and `j`. */
  method SwapDown(a: array<Transaction>, j: int)
    requires 0 < j < a.Length
    modifies a
    ensures a[..] == old(a[..])[j - 1 := old(a[j])][j := old(a[j - 1])]
    ensures multiset(a[..]) == multiset(old(a[..]))
  {
    a[j - 1], a[j] := a[j], a[j - 1];
  }

  /** `rows` with the row at `i` taken out and put back at `p`, ahead of the rows `p .. i - 1`. */
  function MoveAhead(rows: seq<Transaction>, p: int, i: int): (r: seq<Transaction>)
    requires 0 <= p <= i < |rows|
    ensures |r| == |rows|
  {
    rows[..p] + [rows[i]] + rows[p..i] + rows[i + 1..]
  }

  /** One more exchange moves the row one place further ahead. */
  lemma MoveAheadStep(rows: seq<Transaction>, p: int, i: int)
    requires 0 < p <= i < |rows|
    ensures MoveAhead(rows, p, i)[p - 1 := rows[i]][p := rows[p - 1]] == MoveAhead(rows, p - 1, i)
  {
    var before, after := MoveAhead(rows, p, i)[p - 1 := rows[i]][p := rows[p - 1]], MoveAhead(rows, p - 1, i);
    forall k | 0 <= k < |rows|
      ensures before[k] == after[k]
    {
      if k < p - 1 {
        assert after[k] == rows[k];
      } else if p + 1 <= k <= i {
        assert after[k] == rows[k - 1];
      } else if i < k {
        assert after[k] == rows[k];
      }
    }
  }

  /** Rows `p .. i - 1` are each strictly older than row `i`, and row `p - 1`, if any, is not. */
  predicate PassedOlder(rows: seq<Transaction>, p: int, i: int)
    requires 0 <= p <= i < |rows|
  {
    forall k :: p <= k < i ==> Before(rows[k].date, rows[i].date)
  }

  /**
   * Moving row `i` ahead of rows `p .. i - 1`, all strictly older than it,
   * and behind a row at least as new, keeps newest-first rows `0 .. i - 1`
   * newest first with row `i` included.
   */
  lemma MoveAheadOrdered(rows: seq<Transaction>, p: int, i: int)
    requires 0 <= p <= i < |rows|
    requires PrefixNewestFirst(rows, i - 1)
    requires PassedOlder(rows, p, i)
    requires p > 0 ==> !Before(rows[p - 1].date, rows[i].date)
    ensures PrefixNewestFirst(MoveAhead(rows, p, i), i)
  {
    var r := MoveAhead(rows, p, i);
    assert forall k :: 0 <= k < p ==> r[k] == rows[k];
    assert r[p] == rows[i];
    assert forall k :: p < k <= i ==> r[k] == rows[k - 1];
  }

  /** Rows `0 .. hi` of `rows` (inclusive) are newest first. */
  predicate PrefixNewestFirst(rows: seq<Transaction>, hi: int)
    requires hi < |rows|
  {
    forall k, l :: 0 <= k < l <= hi ==> OnOrBefore(rows[l].date, rows[k].date)
  }

  /** Moving one row ahead only reorders the rows. */
  lemma MoveAheadPermutes(rows: seq<Transaction>, p: int, i: int)
    requires 0 <= p <= i < |rows|
    ensures multiset(MoveAhead(rows, p, i)) == multiset(rows)
  {
    assert rows == rows[..p] + rows[p..i] + [rows[i]] + rows[i + 1..];
  }

  /** Moving a row ahead of no rows leaves them all in place. */
  lemma MoveAheadNowhere(rows: seq<Transaction>, i: int)
    requires 0 <= i < |rows|
    ensures MoveAhead(rows, i, i) == rows
  {
    assert rows == rows[..i] + [rows[i]] + rows[i..i] + rows[i + 1..];
  }

  /**
   * One exchange of the insertion: row `i` of `rows`, now at `j`, moves
   * past the strictly older row in front of it.
   */
  method StepAhead(a: array<Transaction>, ghost rows: seq<Transaction>, i: int, j: int)
    requires 0 < j <= i < |rows| == a.Length
    requires a[..] == MoveAhead(rows, j, i) && PassedOlder(rows, j, i)
    requires Before(a[j - 1].date, a[j].date)
    modifies a
    ensures a[..] == MoveAhead(rows, j - 1, i) && PassedOlder(rows, j - 1, i)
  {
    ghost var m := MoveAhead(rows, j, i);
    assert Before(rows[j - 1].date, rows[i].date) by {
      assert a[j - 1] == m[j - 1] == rows[j - 1] && a[j] == m[j] == rows[i];
    }
    SwapDown(a, j);
    MoveAheadStep(rows, j, i);
  }

  /** Where the insertion stops, rows `0 .. i` of the array are newest first. */
  lemma Settled(a: array<Transaction>, rows: seq<Transaction>, i: int, j: int)
    requires 0 <= j <= i < |rows| == a.Length
    requires a[..] == MoveAhead(rows, j, i) && PassedOlder(rows, j, i)
    requires PrefixNewestFirst(rows, i - 1)
    requires j > 0 ==> !Before(a[j - 1].date, a[j].date)
    ensures j > 0 ==> !Before(rows[j - 1].date, rows[i].date)
    ensures PrefixNewestFirst(a[..], i)
  {
    ghost var m := MoveAhead(rows, j, i);
    assert a[j] == m[j] == rows[i];
    assert j > 0 ==> a[j - 1] == m[j - 1] == rows[j - 1];
    MoveAheadOrdered(rows, j, i);
  }

  /**
   * Moves the row at `i` ahead past the strictly older rows before it, so
   * that rows `0 .. i` become newest first. It lands at `p`: the rows it
   * passed are each strictly older than it, the row before `p` (if any) is
   * not, and all other rows keep their order.
   */
  method InsertNewest(a: array<Transaction>, i: int) returns (ghost p: int)
    requires 0 <= i < a.Length
    requires PrefixNewestFirst(a[..], i - 1)
    modifies a
    ensures PrefixNewestFirst(a[..], i)
    ensures multiset(a[..]) == multiset(old(a[..]))
    ensures 0 <= p <= i && a[..] == MoveAhead(old(a[..]), p, i)
    ensures PassedOlder(old(a[..]), p, i)
    ensures p > 0 ==> !Before(old(a[..])[p - 1].date, old(a[..])[i].date)
  {
    ghost var rows := a[..];
    MoveAheadNowhere(rows, i);
    var j := i;
    while j > 0 && Before(a[j - 1].date, a[j].date)
      invariant 0 <= j <= i
      invariant a[..] == MoveAhead(rows, j, i) && PassedOlder(rows, j, i)
    {
      StepAhead(a, rows, i, j);
      j := j - 1;
    }
    Settled(a, rows, i, j);
    MoveAheadPermutes(rows, j, i);
    p := j;
  }

  /**
   * `rows.sort((a, b) => new Date(b.date) - new Date(a.date))`, in place: an
   * insertion sort that moves a record ahead only past strictly older ones.
   */
  method SortNewestFirst(a: array<Transaction>)
    modifies a
    ensures NewestFirst(a[..])
    ensures multiset(a[..]) == multiset(old(a[..]))
  {
    var i := 0;
    while i < a.Length
      invariant 0 <= i <= a.Length
      invariant PrefixNewestFirst(a[..], i - 1)
      invariant multiset(a[..]) == multiset(old(a[..]))
    {
      var _ := InsertNewest(a, i);
      i := i + 1;
    }
  }

  /** The table rows: the filtered records, newest first. */
  method RenderRows(ts: seq<Transaction>, f: FilterSettings) returns (rows: seq<Transaction>)
    ensures multiset(rows) == multiset(FilterTransactions(ts, f))
    ensures NewestFirst(rows)
    ensures forall t :: t in rows <==> t in ts && Matches(f, t)
  {
    var shown := FilterTransactions(ts, f);
    var a := new Transaction[|shown|](k requires 0 <= k < |shown| => shown[k]);
    assert a[..] == shown;
    SortNewestFirst(a);
    rows := a[..];
    forall t
      ensures t in rows <==> t in shown
    {
      assert t in rows <==> t in multiset(rows);
      assert t in shown <==> t in multiset(shown);
    }
  }

  /** `.reduce((sum, t) => sum + t.amount, 0)`: the amounts added up left to right. */
  function SumAmounts(ts: seq<Transaction>): int
    decreases |ts|
  {
    if ts == [] then 0 else SumAmounts(ts[..|ts| - 1]) + ts[|ts| - 1].amount
  }

  predicate IsIncome(t: Transaction) {
    t.amount > 0
  }

  predicate IsExpense(t: Transaction) {
    t.amount < 0
  }

  /** `transactions.filter(t => t.amount < 0)`. */
  function Expenses(ts: seq<Transaction>): seq<Transaction> {
    Keep(ts, IsExpense)
  }

  lemma {:induction false} SumOfIncomes(ts: seq<Transaction>)
    requires forall i :: 0 <= i < |ts| ==> IsIncome(ts[i])
    ensures SumAmounts(ts) >= 0
    decreases |ts|
  {
    if ts != [] {
      SumOfIncomes(ts[..|ts| - 1]);
    }
  }

  lemma {:induction false} SumOfExpenses(ts: seq<Transaction>)
    requires forall i :: 0 <= i < |ts| ==> IsExpense(ts[i])
    ensures SumAmounts(ts) <= 0
    ensures ts != [] ==> SumAmounts(ts) < 0
    decreases |ts|
  {
    if ts != [] {
      SumOfExpenses(ts[..|ts| - 1]);
    }
  }

  /** Every amount is counted as income, as expense, or (when zero) adds nothing. */
  lemma {:induction false} IncomePlusExpensesIsSum(ts: seq<Transaction>)
    ensures SumAmounts(Keep(ts, IsIncome)) + SumAmounts(Expenses(ts)) == SumAmounts(ts)
    decreases |ts|
  {
    if ts != [] {
      IncomePlusExpensesIsSum(ts[..|ts| - 1]);
    }
  }

  /** The three summary cards. */
  datatype Summary = Summary(income: int, expenses: int, balance: int)

  /**
   * `updateSummary`: income is the sum of the positive amounts, expenses the
   * (negative) sum of the negative ones, and the balance their sum, which is
   * the sum of all amounts.
   */
  function Summarize(ts: seq<Transaction>): (s: Summary)
    ensures s.income >= 0 >= s.expenses
    ensures s.balance == s.income + s.expenses
    ensures s.balance == SumAmounts(ts)
  {
    SumOfIncomes(Keep(ts, IsIncome));
    SumOfExpenses(Expenses(ts));
    IncomePlusExpensesIsSum(ts);
    var income := SumAmounts(Keep(ts, IsIncome));
    var expenses := SumAmounts(Expenses(ts));
    Summary(income, expenses, income + expenses)
  }

  /**
   * Recording one more transaction moves the income card by its amount when
   * it is positive, the expenses card by its amount when it is negative, and
   * the balance by its amount either way.
   */
  lemma SummarizeAppend(ts: seq<Transaction>, t: Transaction)
    ensures var before, after := Summarize(ts), Summarize(ts + [t]);
      && after.income == before.income + (if t.amount > 0 then t.amount else 0)
      && after.expenses == before.expenses + (if t.amount < 0 then t.amount else 0)
      && after.balance == before.balance + t.amount
  {
    assert (ts + [t])[..|ts|] == ts;
  }

  /** Sum of the magnitudes, left to right. */
  function AbsSum(es: seq<Transaction>): int
    decreases |es|
  {
    if es == [] then 0 else AbsSum(es[..|es| - 1]) + Abs(es[|es| - 1].amount)
  }

  /** The records of category `c`, in order. */
  function InCategory(es: seq<Transaction>, c: string): seq<Transaction> {
    Keep(es, (t: Transaction) => t.category == c)
  }

  /**
   * The `categories` object built by the chart's `forEach`: each category
   * seen maps to the sum of the magnitudes of its records.
   */
  function Tally(es: seq<Transaction>): map<string, int>
    decreases |es|
  {
    if es == [] then map[]
    else
      var m := Tally(es[..|es| - 1]);
      var t := es[|es| - 1];
      var base := if t.category in m then m[t.category] else 0;
      m[t.category := base + Abs(t.amount)]
  }

  /** `Object.keys(categories)`: the categories in the order they were first met. */
  function CategoryOrder(es: seq<Transaction>): seq<string>
    decreases |es|
  {
    if es == [] then []
    else
      var init := CategoryOrder(es[..|es| - 1]);
      var c := es[|es| - 1].category;
      if c in Tally(es[..|es| - 1]) then init else init + [c]
  }

  predicate Distinct(labels: seq<string>) {
    forall i, j :: 0 <= i < j < |labels| ==> labels[i] != labels[j]
  }

  /**
   * The tally has a key for exactly the categories met, and a category's
   * total is positive when the amounts are non-zero.
   */
  lemma {:induction false} TallyShape(es: seq<Transaction>)
    ensures forall c :: c in Tally(es) <==> exists i :: 0 <= i < |es| && es[i].category == c
    ensures forall c :: c in Tally(es) ==> Tally(es)[c] >= 0
    ensures (forall i :: 0 <= i < |es| ==> es[i].amount != 0) ==> forall c :: c in Tally(es) ==> Tally(es)[c] > 0
    decreases |es|
  {
    if es != [] {
      var init := es[..|es| - 1];
      TallyShape(init);
      assert forall i :: 0 <= i < |init| ==> init[i] == es[i];
    }
  }

  /** The values of `m` at `keys`, added up: `Object.values(categories)` summed. */
  function SumOver(m: map<string, int>, keys: seq<string>): int
    decreases |keys|
  {
    if keys == [] then 0
    else
      var k := keys[|keys| - 1];
      SumOver(m, keys[..|keys| - 1]) + (if k in m then m[k] else 0)
  }

  lemma {:induction false} SumOverUnaffected(m: map<string, int>, keys: seq<string>, c: string, v: int)
    requires c !in keys
    ensures SumOver(m[c := v], keys) == SumOver(m, keys)
    decreases |keys|
  {
    if keys != [] {
      SumOverUnaffected(m, keys[..|keys| - 1], c, v);
    }
  }

  lemma {:induction false} SumOverBump(m: map<string, int>, keys: seq<string>, c: string, v: int)
    requires Distinct(keys)
    requires c in m && c in keys
    ensures SumOver(m[c := m[c] + v], keys) == SumOver(m, keys) + v
    decreases |keys|
  {
    var init := keys[..|keys| - 1];
    if keys[|keys| - 1] == c {
      assert c !in init by {
        assert forall i :: 0 <= i < |init| ==> init[i] == keys[i];
      }
      SumOverUnaffected(m, init, c, m[c] + v);
    } else {
      SumOverBump(m, init, c, v);
    }
  }

  /** Each category's total is the sum of the magnitudes of that category's records. */
  lemma {:induction false} TallyValue(es: seq<Transaction>, c: string)
    ensures c in Tally(es) ==> Tally(es)[c] == AbsSum(InCategory(es, c))
    ensures c !in Tally(es) ==> InCategory(es, c) == []
    decreases |es|
  {
    if es != [] {
      var init := es[..|es| - 1];
      var t := es[|es| - 1];
      TallyValue(init, c);
      var before := InCategory(init, c);
      if t.category == c {
        assert InCategory(es, c) == before + [t];
        assert (before + [t])[..|before|] == before;
      } else {
        assert InCategory(es, c) == before;
      }
    }
  }

  /** The labels are exactly the tally's keys, each listed once. */
  lemma {:induction false} TallyLabels(es: seq<Transaction>)
    ensures forall c :: c in CategoryOrder(es) <==> c in Tally(es)
    ensures Distinct(CategoryOrder(es))
    decreases |es|
  {
    if es != [] {
      TallyLabels(es[..|es| - 1]);
    }
  }

  /**
   * Adding `v` to label `c` (created at 0 and listed last when new) adds `v`
   * to the sum over the labels.
   */
  lemma SumOverStep(m: map<string, int>, labels: seq<string>, c: string, v: int)
    requires Distinct(labels)
    requires forall k :: k in labels <==> k in m
    ensures SumOver(m[c := (if c in m then m[c] else 0) + v], if c in m then labels else labels + [c])
         == SumOver(m, labels) + v
  {
    if c in m {
      assert c in labels;
      SumOverBump(m, labels, c, v);
    } else {
      var grown, m' := labels + [c], m[c := v];
      assert c !in labels;
      assert SumOver(m', labels) == SumOver(m, labels) by {
        SumOverUnaffected(m, labels, c, v);
      }
      assert SumOver(m', grown) == SumOver(m', labels) + v by {
        assert grown[..|grown| - 1] == labels && grown[|grown| - 1] == c;
      }
      assert m[c := 0 + v] == m';
    }
  }

  /** The category totals, summed over the labels, add up to all the magnitudes. */
  lemma {:induction false} TallyTotal(es: seq<Transaction>)
    ensures SumOver(Tally(es), CategoryOrder(es)) == AbsSum(es)
    decreases |es|
  {
    if es != [] {
      var init, t := es[..|es| - 1], es[|es| - 1];
      var m, labels, c, v := Tally(init), CategoryOrder(init), t.category, Abs(t.amount);
      assert Tally(es) == m[c := (if c in m then m[c] else 0) + v] by {
        assert es == init + [t];
        TallyStep(init, t);
      }
      assert CategoryOrder(es) == if c in m then labels else labels + [c] by {
        assert es == init + [t];
        LabelStep(init, t);
      }
      TallyLabels(init);
      SumOverStep(m, labels, c, v);
      TallyTotal(init);
    }
  }

  lemma {:induction false} AbsSumOfExpenses(es: seq<Transaction>)
    requires forall i :: 0 <= i < |es| ==> IsExpense(es[i])
    ensures AbsSum(es) == -SumAmounts(es)
    decreases |es|
  {
    if es != [] {
      AbsSumOfExpenses(es[..|es| - 1]);
    }
  }

  /**
   * The chart's data: exactly the categories that have a negative amount,
   * each with the sum of the magnitudes of its negative amounts (income is
   * left out), and together they add up to the expenses card.
   */
  lemma CategoryTotals(ts: seq<Transaction>)
    ensures var m := Tally(Expenses(ts));
      && (forall c :: c in m <==> exists t :: t in ts && t.amount < 0 && t.category == c)
      && (forall c :: c in m ==> m[c] > 0 && m[c] == AbsSum(InCategory(Expenses(ts), c)))
      && SumOver(m, CategoryOrder(Expenses(ts))) == -Summarize(ts).expenses
  {
    var es := Expenses(ts);
    var m := Tally(es);
    TallyShape(es);
    forall c | c in m
      ensures m[c] == AbsSum(InCategory(es, c))
    {
      TallyValue(es, c);
    }
    forall c
      ensures c in m <==> exists t :: t in ts && t.amount < 0 && t.category == c
    {
      if c in m {
        var i :| 0 <= i < |es| && es[i].category == c;
        assert es[i] in es;
      }
    }
    TallyTotal(es);
    AbsSumOfExpenses(es);
  }

  /** One more record: its category is created at 0 if new and then grows by its magnitude. */
  lemma TallyStep(es: seq<Transaction>, t: Transaction)
    ensures var m := Tally(es);
      Tally(es + [t]) == m[t.category := (if t.category in m then m[t.category] else 0) + Abs(t.amount)]
  {
    var s := es + [t];
    assert s[..|s| - 1] == es && s[|s| - 1] == t;
  }

  /** One more record: its category is listed last if it is new. */
  lemma LabelStep(es: seq<Transaction>, t: Transaction)
    ensures CategoryOrder(es + [t]) ==
      if t.category in Tally(es) then CategoryOrder(es) else CategoryOrder(es) + [t.category]
  {
    var s := es + [t];
    assert s[..|s| - 1] == es && s[|s| - 1] == t;
  }

  /**
   * One step of the chart's `forEach`: a category not yet present is created
   * at 0 (and so listed last), then the magnitude is added to it. Done after
   * the expenses `seen`, it gives the tally of `seen` followed by `t`.
   */
  method AddToCategory(ghost seen: seq<Transaction>, t: Transaction, labels: seq<string>, categories: map<string, int>)
    returns (labels': seq<string>, categories': map<string, int>)
    requires categories == Tally(seen) && labels == CategoryOrder(seen)
    ensures categories' == categories[t.category := (if t.category in categories then categories[t.category] else 0) + Abs(t.amount)]
    ensures labels' == if t.category in categories then labels else labels + [t.category]
    ensures categories' == Tally(seen + [t]) && labels' == CategoryOrder(seen + [t])
  {
    TallyStep(seen, t);
    LabelStep(seen, t);
    labels', categories' := labels, categories;
    if t.category !in categories' {
      categories' := categories'[t.category := 0];
      labels' := labels' + [t.category];
    }
    categories' := categories'[t.category := categories'[t.category] + Abs(t.amount)];
  }

  /**
   * The chart's `forEach`: walks the expenses in order, creating a category
   * with 0 the first time it is met and adding the magnitude of the amount.
   */
  method TallyExpenses(ts: seq<Transaction>) returns (labels: seq<string>, categories: map<string, int>)
    ensures categories == Tally(Expenses(ts))
    ensures labels == CategoryOrder(Expenses(ts))
  {
    var expenses := Expenses(ts);
    labels, categories := [], map[];
    var i := 0;
    while i < |expenses|
      invariant 0 <= i <= |expenses|
      invariant categories == Tally(expenses[..i])
      invariant labels == CategoryOrder(expenses[..i])
    {
      labels, categories := AddToCategory(expenses[..i], expenses[i], labels, categories);
      PrefixGrows(expenses, i);
      i := i + 1;
    }
    assert expenses[..i] == expenses;
  }
}
