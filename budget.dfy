/** The budget screen: the spending totals, the per-category totals, adding an
    expense and the clamped progress bars. Amounts are integer cents. */
module Budget {
  import Lists

  datatype Expense = Expense(
    id: string,
    category: string,
    amount: int,
    description: string,
    date: string,
    currency: string)

  /** The add-expense form; `amount` is the text typed. */
  datatype NewExpense = NewExpense(category: string, amount: string, description: string, currency: string)

  /** The screen's state slots. */
  datatype BudgetState = BudgetState(expenses: seq<Expense>, showExpenseDialog: bool, newExpense: NewExpense)

  const EmptyForm: NewExpense := NewExpense("food", "", "", "USD")

  function AmountOf(e: Expense): int { e.amount }
  function CategoryOf(e: Expense): string { e.category }

  /** `totalSpent`: the sum of every amount. */
  function TotalSpent(expenses: seq<Expense>): int {
    Lists.Sum(expenses, AmountOf)
  }

  /** The expenses dated `today` (the date part of the current ISO instant). */
  function TodayExpenses(expenses: seq<Expense>, today: string): (r: seq<Expense>)
    ensures forall k :: 0 <= k < |r| ==> r[k] in expenses && r[k].date == today
    ensures forall k :: 0 <= k < |expenses| && expenses[k].date == today ==> expenses[k] in r
  {
    Lists.Filter(expenses, (e: Expense) => e.date == today)
  }

  /** `todayTotal`. */
  function TodayTotal(expenses: seq<Expense>, today: string): int {
    Lists.Sum(TodayExpenses(expenses, today), AmountOf)
  }

  /** With no negative amount, today's spending is part of the total. */
  lemma TodayWithinTotal(expenses: seq<Expense>, today: string)
    requires forall k :: 0 <= k < |expenses| ==> expenses[k].amount >= 0
    ensures 0 <= TodayTotal(expenses, today) <= TotalSpent(expenses)
  {
    Lists.SumFilterAtMost(expenses, (e: Expense) => e.date == today, AmountOf);
    NonNegativeSum(TodayExpenses(expenses, today));
  }

  lemma {:induction false} NonNegativeSum(s: seq<Expense>)
    requires forall k :: 0 <= k < |s| ==> s[k].amount >= 0
    ensures Lists.Sum(s, AmountOf) >= 0
    decreases |s|
  {
    if s != [] {
      assert forall k :: 0 <= k < |s[1..]| ==> s[1..][k] == s[k + 1];
      NonNegativeSum(s[1..]);
    }
  }

  /** The total of one category, accumulated over the list in order. */
  function CategoryTotal(expenses: seq<Expense>, c: string): int
    decreases |expenses|
  {
    if expenses == [] then 0
    else
      var last := expenses[|expenses| - 1];
      CategoryTotal(expenses[..|expenses| - 1], c) + (if last.category == c then last.amount else 0)
  }

  /** The accumulated total of a category is the sum over its group. */
  lemma {:induction false} CategoryTotalIsGroupSum(expenses: seq<Expense>, c: string)
    ensures CategoryTotal(expenses, c) == Lists.Sum(Lists.ByKey(expenses, CategoryOf, c), AmountOf)
    decreases |expenses|
  {
    if expenses != [] {
      var n := |expenses| - 1;
      var e := expenses[n];
      CategoryTotalIsGroupSum(expenses[..n], c);
      Lists.ByKeyExtend(expenses, CategoryOf, n, c);
      assert expenses[..n + 1] == expenses;
      Lists.SumConcat(Lists.ByKey(expenses[..n], CategoryOf, c), if e.category == c then [e] else [], AmountOf);
      assert Lists.Sum([e], AmountOf) == e.amount by {
        assert [e][1..] == [];
      }
    }
  }

  /** `order` and `totals` describe the expenses of `prefix`. */
  ghost predicate Summarizes(prefix: seq<Expense>, order: seq<string>, totals: map<string, int>) {
    && order == Lists.KeysInOrder(prefix, CategoryOf)
    && (forall c :: c in totals <==> c in order)
    && (forall c :: c in totals ==> totals[c] == CategoryTotal(prefix, c))
  }

  /** The `categoryTotals` reduce: each expense adds its amount to the entry of
      its category, starting the entry from 0 when missing. `order` is the
      entries' insertion order, which `Object.entries` lists. */
  method CategoryTotals(expenses: seq<Expense>) returns (order: seq<string>, totals: map<string, int>)
    ensures order == Lists.KeysInOrder(expenses, CategoryOf)
    ensures forall c :: c in totals <==> c in order
    ensures forall c :: c in totals ==> totals[c] == CategoryTotal(expenses, c)
  {
    order := [];
    totals := map[];
    ghost var prefix := [];
    for i := 0 to |expenses|
      invariant prefix == expenses[..i]
      invariant Summarizes(prefix, order, totals)
    {
      var c := expenses[i].category;
      var sofar := if c in totals then totals[c] else 0;
      var order' := if c in totals then order else order + [c];
      var totals' := totals[c := sofar + expenses[i].amount];
      SummarizesStep(prefix, expenses[i], order, totals, order', totals');
      order, totals := order', totals';
      Lists.PrefixExtend(expenses, i);
      prefix := prefix + [expenses[i]];
    }
    assert prefix == expenses;
  }

  /** One step of the reduce. */
  lemma SummarizesStep(prefix: seq<Expense>, e: Expense, order: seq<string>, totals: map<string, int>,
                       order': seq<string>, totals': map<string, int>)
    requires Summarizes(prefix, order, totals)
    requires order' == (if e.category in totals then order else order + [e.category])
    requires totals' == totals[e.category := (if e.category in totals then totals[e.category] else 0) + e.amount]
    ensures Summarizes(prefix + [e], order', totals')
  {
    KeysInOrderAppend(prefix, e);
    TotalsStep(prefix, e, totals, totals');
  }

  /** The totals half of SummarizesStep. */
  lemma TotalsStep(prefix: seq<Expense>, e: Expense, totals: map<string, int>, totals': map<string, int>)
    requires forall c :: c in totals <==> c in Lists.KeysInOrder(prefix, CategoryOf)
    requires forall c :: c in totals ==> totals[c] == CategoryTotal(prefix, c)
    requires totals' == totals[e.category := (if e.category in totals then totals[e.category] else 0) + e.amount]
    ensures forall c :: c in totals' ==> totals'[c] == CategoryTotal(prefix + [e], c)
  {
    forall c | c in totals'
      ensures totals'[c] == CategoryTotal(prefix + [e], c)
    {
      CategoryTotalExtend(prefix, e, c);
      if c == e.category && c !in totals {
        Lists.AbsentKeyIsEmpty(prefix, CategoryOf, c);
        CategoryTotalIsGroupSum(prefix, c);
      }
    }
  }

  /** KeysInOrderExtend for a list written as prefix and last element. */
  lemma KeysInOrderAppend(prefix: seq<Expense>, e: Expense)
    ensures var keys := Lists.KeysInOrder(prefix, CategoryOf);
      Lists.KeysInOrder(prefix + [e], CategoryOf) == if e.category in keys then keys else keys + [e.category]
  {
    var s := prefix + [e];
    Lists.KeysInOrderExtend(s, CategoryOf, |prefix|);
    assert s[..|prefix|] == prefix && s[..|prefix| + 1] == s;
  }

  /** Extending the list by one expense adds its amount to its own category only. */
  lemma CategoryTotalExtend(prefix: seq<Expense>, e: Expense, c: string)
    ensures CategoryTotal(prefix + [e], c) == CategoryTotal(prefix, c) + (if e.category == c then e.amount else 0)
  {
    assert (prefix + [e])[..|prefix|] == prefix;
  }

  /** The category totals add up to the total spent. */
  lemma CategoryTotalsSumToTotal(expenses: seq<Expense>)
    ensures Lists.SumOverKeys(Lists.KeysInOrder(expenses, CategoryOf), expenses, CategoryOf, AmountOf)
         == TotalSpent(expenses)
  {
    Lists.PartitionSum(Lists.KeysInOrder(expenses, CategoryOf), expenses, CategoryOf, AmountOf);
  }

  /** `addExpense` with a fresh id, today's date and the parsed amount text:
      nothing when the description or the amount text is empty; otherwise one
      expense is appended, the form reset and the dialog closed. */
  function AddExpense(s: BudgetState, freshId: string, today: string, parsedAmount: int): (r: BudgetState)
    ensures s.newExpense.description == "" || s.newExpense.amount == "" ==> r == s
    ensures s.newExpense.description != "" && s.newExpense.amount != "" ==>
      && |r.expenses| == |s.expenses| + 1
      && r.expenses[..|s.expenses|] == s.expenses
      && r.expenses[|s.expenses|] == Expense(freshId, s.newExpense.category, parsedAmount,
                                             s.newExpense.description, today, s.newExpense.currency)
      && r.newExpense == EmptyForm && !r.showExpenseDialog
  {
    if s.newExpense.description != "" && s.newExpense.amount != "" then
      var expense := Expense(freshId, s.newExpense.category, parsedAmount, s.newExpense.description, today,
                             s.newExpense.currency);
      BudgetState(s.expenses + [expense], false, EmptyForm)
    else s
  }

  /** An added expense raises the total and today's total by its amount. */
  lemma AddExpenseRaisesTotals(s: BudgetState, freshId: string, today: string, parsedAmount: int)
    requires s.newExpense.description != "" && s.newExpense.amount != ""
    ensures TotalSpent(AddExpense(s, freshId, today, parsedAmount).expenses) == TotalSpent(s.expenses) + parsedAmount
    ensures TodayTotal(AddExpense(s, freshId, today, parsedAmount).expenses, today)
         == TodayTotal(s.expenses, today) + parsedAmount
  {
    var r := AddExpense(s, freshId, today, parsedAmount);
    var e := r.expenses[|s.expenses|];
    assert r.expenses == s.expenses + [e];
    Lists.SumConcat(s.expenses, [e], AmountOf);
    Lists.FilterConcat(s.expenses, [e], (x: Expense) => x.date == today);
    Lists.FilterKeepsOrMisses(e, (x: Expense) => x.date == today);
    Lists.SumConcat(TodayExpenses(s.expenses, today), [e], AmountOf);
  }

  /** A JavaScript number quotient `spent / budget`: finite, or one of the
      infinities or NaN when the budget is 0. */
  datatype Quotient = Finite(value: real) | PlusInfinity | MinusInfinity | NotANumber

  function Divide(num: int, den: int): (q: Quotient)
    ensures den != 0 ==> q == Finite(num as real / den as real)
    ensures den == 0 ==> (q.PlusInfinity? <==> num > 0) && (q.MinusInfinity? <==> num < 0) && (q.NotANumber? <==> num == 0)
  {
    if den != 0 then Finite(num as real / den as real)
    else if num > 0 then PlusInfinity
    else if num < 0 then MinusInfinity
    else NotANumber
  }

  /** One progress bar: the bar value `Math.min(ratio, 1)`, and whether the
      over-budget style and red colour apply (`ratio > 1`). */
  datatype Bar = Bar(progress: Quotient, overBudget: bool, color: string)

  function ProgressBar(ratio: Quotient): (b: Bar)
    ensures b.overBudget <==> (ratio.Finite? && ratio.value > 1.0) || ratio.PlusInfinity?
    ensures b.color == (if b.overBudget then "#F44336" else "#4CAF50")
    ensures b.progress.Finite? ==> b.progress.value <= 1.0
    ensures b.overBudget ==> b.progress == Finite(1.0)
    ensures ratio.Finite? && !b.overBudget ==> b.progress == ratio
    ensures ratio.NotANumber? ==> b.progress.NotANumber?
  {
    var over := match ratio
      case Finite(v) => v > 1.0
      case PlusInfinity => true
      case _ => false;
    var progress := match ratio
      case Finite(v) => Finite(if v < 1.0 then v else 1.0)
      case PlusInfinity => Finite(1.0)
      case MinusInfinity => MinusInfinity
      case NotANumber => NotANumber;
    Bar(progress, over, if over then "#F44336" else "#4CAF50")
  }

  /** With a positive budget, the bar turns red exactly when spending exceeds it. */
  lemma RedIffOverBudget(spent: int, budget: int)
    requires budget > 0
    ensures ProgressBar(Divide(spent, budget)).overBudget <==> spent > budget
  {
    var r := spent as real / budget as real;
    assert r * budget as real == spent as real;
    if spent > budget {
      assert r > 1.0;
    } else {
      assert r <= 1.0;
    }
  }

  /** "Recent Expenses": the first five entries of the list. */
  function RecentExpenses(expenses: seq<Expense>): (r: seq<Expense>)
    ensures |r| == if |expenses| < 5 then |expenses| else 5
    ensures r == expenses[..|r|]
  {
    if |expenses| < 5 then expenses else expenses[..5]
  }
}
