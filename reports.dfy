/**
  The two reports: the balance sheet as of a day and the income statement
  over an inclusive range of days. Report maps hold raw signed balances
  (debits positive, credits negative); signs are flipped only in the
  total properties.
 */
module Reports {
  import opened Books
  import opened Totals

  /** Each account of the set mapped to its balance in the window. */
  function BalanceMap(s: Store, accts: set<Account>, w: Window): map<Account, int> {
    map a | a in accts :: Balance(s.transactions, s.items, a.code, w)
  }

  datatype BalanceSheet = BalanceSheet(
    date: int,
    asset: map<Account, int>,
    liability: map<Account, int>,
    equity: map<Account, int>,
    retainedEarnings: int)
  {
    ghost function TotalAssets(): int {
      Total(asset)
    }

    ghost function TotalLiabilities(): int {
      -Total(liability)
    }

    ghost function TotalEquity(): int {
      -Total(equity) + retainedEarnings
    }
  }

  datatype IncomeStatement = IncomeStatement(
    startDate: int,
    endDate: int,
    revenue: map<Account, int>,
    expense: map<Account, int>)
  {
    ghost function TotalRevenues(): int {
      -Total(revenue)
    }

    ghost function TotalExpenses(): int {
      Total(expense)
    }

    ghost function NetResult(): int {
      TotalRevenues() - TotalExpenses()
    }

    ghost function NetIncome(): (r: int)
      ensures r >= 0
      ensures NetResult() >= 0 ==> r == NetResult()
    {
      if NetResult() >= 0 then NetResult() else 0
    }

    ghost function NetLoss(): (r: int)
      ensures r >= 0
      ensures NetResult() < 0 ==> r == -NetResult()
    {
      if NetResult() < 0 then -NetResult() else 0
    }
  }

  /** At most one of net income and net loss is nonzero, and together they give the net result. */
  lemma IncomeOrLoss(st: IncomeStatement)
    ensures st.NetIncome() == 0 || st.NetLoss() == 0
    ensures st.NetIncome() - st.NetLoss() == st.NetResult()
  {
  }

  /**
    get_balance_sheet(date): asset, liability and equity accounts with their
    as-of balances; revenue and expense accounts folded into retained
    earnings with the sign flipped.
   */
  ghost function BalanceSheetAsOf(s: Store, date: int): BalanceSheet {
    var all := Registered(s.accounts);
    var w := AsOf(date);
    BalanceSheet(
      date,
      BalanceMap(s, OfKinds(all, {Asset}), w),
      BalanceMap(s, OfKinds(all, {Liability}), w),
      BalanceMap(s, OfKinds(all, {Equity}), w),
      -Total(BalanceMap(s, OfKinds(all, {Revenue, Expense}), w)))
  }

  /** get_income_statement(first, last): revenue and expense accounts over the inclusive range. */
  ghost function IncomeStatementOver(s: Store, first: int, last: int): IncomeStatement {
    var all := Registered(s.accounts);
    var w := Between(first, last);
    IncomeStatement(
      first,
      last,
      BalanceMap(s, OfKinds(all, {Revenue}), w),
      BalanceMap(s, OfKinds(all, {Expense}), w))
  }

  lemma BalanceMapUnion(s: Store, a: set<Account>, b: set<Account>, w: Window)
    requires a !! b
    ensures BalanceMap(s, a + b, w) == BalanceMap(s, a, w) + BalanceMap(s, b, w)
    ensures BalanceMap(s, a, w).Keys !! BalanceMap(s, b, w).Keys
  {
  }

  /** Adding one account to a set adds its entry to the balance map. */
  lemma BalanceMapInsert(s: Store, accts: set<Account>, a: Account, w: Window)
    ensures BalanceMap(s, accts + {a}, w) == BalanceMap(s, accts, w)[a := Balance(s.transactions, s.items, a.code, w)]
  {
  }

  /** Adding one account to a set adds its balance to the map's total. */
  lemma TotalInsert(s: Store, accts: set<Account>, a: Account, w: Window)
    requires a !in accts
    ensures Total(BalanceMap(s, accts + {a}, w)) == Total(BalanceMap(s, accts, w)) + Balance(s.transactions, s.items, a.code, w)
  {
    var m := BalanceMap(s, accts + {a}, w);
    TotalRemove(m, a);
    assert m - {a} == BalanceMap(s, accts, w);
  }

  lemma OfKindsInsert(accts: set<Account>, a: Account, kinds: set<Kind>)
    ensures OfKinds(accts + {a}, kinds) == if a.kind in kinds then OfKinds(accts, kinds) + {a} else OfKinds(accts, kinds)
  {
  }

  /** The total of a balance map is the window's sum over the items posted to its accounts. */
  lemma {:induction false} BalanceMapTotal(s: Store, accts: set<Account>, w: Window)
    requires CodesUnique(accts)
    ensures Total(BalanceMap(s, accts, w)) == TotalIn(s.transactions, s.items, CodesOf(accts), w)
    decreases |accts|
  {
    var m := BalanceMap(s, accts, w);
    if accts == {} {
      assert m == map[];
      assert CodesOf(accts) == {};
      TotalInEmpty(s.transactions, s.items, w);
    } else {
      var a :| a in accts;
      var rest := accts - {a};
      TotalRemove(m, a);
      assert m - {a} == BalanceMap(s, rest, w);
      assert CodesOf(rest) == CodesOf(accts) - {a.code};
      BalanceMapTotal(s, rest, w);
      TotalInSplit(s.transactions, s.items, CodesOf(accts), a.code, w);
    }
  }

  /**
    The balance sheet's totals are sums over the item rows: total assets are
    the as-of window's sum over asset accounts, total liabilities minus that
    over liability accounts, and total equity minus that over equity, revenue
    and expense accounts together.
   */
  lemma BalanceSheetTotals(s: Store, date: int)
    ensures var sheet, w := BalanceSheetAsOf(s, date), AsOf(date);
            && sheet.TotalAssets() == TotalIn(s.transactions, s.items, CodesOfKind(s.accounts, {Asset}), w)
            && sheet.TotalLiabilities() == -TotalIn(s.transactions, s.items, CodesOfKind(s.accounts, {Liability}), w)
            && sheet.TotalEquity()
               == -TotalIn(s.transactions, s.items, CodesOfKind(s.accounts, {Equity, Revenue, Expense}), w)
  {
    var w := AsOf(date);
    var acc := s.accounts;
    OfKindsFacts(acc, {Asset});
    OfKindsFacts(acc, {Liability});
    OfKindsFacts(acc, {Equity});
    OfKindsFacts(acc, {Revenue, Expense});
    var all := Registered(acc);
    BalanceMapTotal(s, OfKinds(all, {Asset}), w);
    BalanceMapTotal(s, OfKinds(all, {Liability}), w);
    BalanceMapTotal(s, OfKinds(all, {Equity}), w);
    BalanceMapTotal(s, OfKinds(all, {Revenue, Expense}), w);
    assert CodesOfKind(acc, {Equity, Revenue, Expense}) == CodesOfKind(acc, {Equity}) + CodesOfKind(acc, {Revenue, Expense});
    TotalInUnion(s.transactions, s.items, CodesOfKind(acc, {Equity}), CodesOfKind(acc, {Revenue, Expense}), w);
  }

  /**
    The income statement's totals are sums over the item rows in the range:
    total revenues are minus the sum over revenue accounts, total expenses
    the sum over expense accounts, and the net result minus the sum over both.
   */
  lemma IncomeStatementTotals(s: Store, first: int, last: int)
    ensures var st, w := IncomeStatementOver(s, first, last), Between(first, last);
            && st.TotalRevenues() == -TotalIn(s.transactions, s.items, CodesOfKind(s.accounts, {Revenue}), w)
            && st.TotalExpenses() == TotalIn(s.transactions, s.items, CodesOfKind(s.accounts, {Expense}), w)
            && st.NetResult() == -TotalIn(s.transactions, s.items, CodesOfKind(s.accounts, {Revenue, Expense}), w)
  {
    var w := Between(first, last);
    var acc := s.accounts;
    OfKindsFacts(acc, {Revenue});
    OfKindsFacts(acc, {Expense});
    var all := Registered(acc);
    BalanceMapTotal(s, OfKinds(all, {Revenue}), w);
    BalanceMapTotal(s, OfKinds(all, {Expense}), w);
    assert CodesOfKind(acc, {Revenue, Expense}) == CodesOfKind(acc, {Revenue}) + CodesOfKind(acc, {Expense});
    TotalInUnion(s.transactions, s.items, CodesOfKind(acc, {Revenue}), CodesOfKind(acc, {Expense}), w);
  }

  /** Every registered account's balance in a window adds up to zero. */
  lemma RegisteredSumToZero(s: Store, w: Window)
    requires Consistent(s)
    ensures Total(BalanceMap(s, Registered(s.accounts), w)) == 0
  {
    RegisteredFacts(s.accounts);
    BalanceMapTotal(s, Registered(s.accounts), w);
    TotalInCovers(s.transactions, s.items, s.accounts.Keys, w);
    forall x | x in s.items ensures SumAmounts(ItemsOf(s.items, x.txId)) == 0 {
      var j :| 0 <= j < |s.items| && s.items[j] == x;
    }
    BalancedWindowIsZero(s.transactions, s.items, w);
  }

  /**
    The accounting equation: assets equal liabilities plus equity, where
    equity includes retained earnings.
   */
  lemma AccountingEquation(s: Store, date: int)
    requires Consistent(s)
    ensures var sheet := BalanceSheetAsOf(s, date);
            sheet.TotalAssets() == sheet.TotalLiabilities() + sheet.TotalEquity()
  {
    var all := Registered(s.accounts);
    var w := AsOf(date);
    var a, l, e := OfKinds(all, {Asset}), OfKinds(all, {Liability}), OfKinds(all, {Equity});
    var re := OfKinds(all, {Revenue, Expense});
    forall x | x in all ensures x in a + l + e + re {
      match x.kind
      case Asset => assert x in a;
      case Liability => assert x in l;
      case Equity => assert x in e;
      case Revenue => assert x in re;
      case Expense => assert x in re;
    }
    assert all == a + l + e + re;
    BalanceMapUnion(s, a, l, w);
    BalanceMapUnion(s, a + l, e, w);
    BalanceMapUnion(s, a + l + e, re, w);
    TotalUnion(BalanceMap(s, a, w), BalanceMap(s, l, w));
    TotalUnion(BalanceMap(s, a + l, w), BalanceMap(s, e, w));
    TotalUnion(BalanceMap(s, a + l + e, w), BalanceMap(s, re, w));
    RegisteredSumToZero(s, w);
  }

  /** Income statements over adjacent ranges add up, account by account and in net result. */
  lemma PeriodAdditivity(s: Store, d1: int, d2: int, d3: int)
    requires d1 <= d2 < d3
    ensures var whole, left, right := IncomeStatementOver(s, d1, d3), IncomeStatementOver(s, d1, d2),
                                      IncomeStatementOver(s, d2 + 1, d3);
            && whole.revenue.Keys == left.revenue.Keys == right.revenue.Keys
            && whole.expense.Keys == left.expense.Keys == right.expense.Keys
            && (forall a :: a in whole.revenue ==> whole.revenue[a] == left.revenue[a] + right.revenue[a])
            && (forall a :: a in whole.expense ==> whole.expense[a] == left.expense[a] + right.expense[a])
            && whole.NetResult() == left.NetResult() + right.NetResult()
  {
    var whole, left, right := IncomeStatementOver(s, d1, d3), IncomeStatementOver(s, d1, d2),
                              IncomeStatementOver(s, d2 + 1, d3);
    forall a | a in whole.revenue
      ensures whole.revenue[a] == left.revenue[a] + right.revenue[a]
    {
      RangeAdditive(s.transactions, s.items, a.code, d1, d2, d3);
    }
    forall a | a in whole.expense
      ensures whole.expense[a] == left.expense[a] + right.expense[a]
    {
      RangeAdditive(s.transactions, s.items, a.code, d1, d2, d3);
    }
    TotalPointwise(left.revenue, right.revenue, whole.revenue);
    TotalPointwise(left.expense, right.expense, whole.expense);
  }

  /**
    The net result over [first, last] is the change in retained earnings
    between the balance sheet of the day before first and that of last.
   */
  lemma NetResultIsRetainedChange(s: Store, first: int, last: int)
    requires first <= last + 1
    ensures IncomeStatementOver(s, first, last).NetResult()
            == BalanceSheetAsOf(s, last).retainedEarnings - BalanceSheetAsOf(s, first - 1).retainedEarnings
  {
    var all := Registered(s.accounts);
    var r, x := OfKinds(all, {Revenue}), OfKinds(all, {Expense});
    var re := OfKinds(all, {Revenue, Expense});
    var range := Between(first, last);
    assert re == r + x;
    BalanceMapUnion(s, r, x, range);
    TotalUnion(BalanceMap(s, r, range), BalanceMap(s, x, range));
    var upToLast, beforeFirst := BalanceMap(s, re, AsOf(last)), BalanceMap(s, re, AsOf(first - 1));
    forall a | a in upToLast
      ensures upToLast[a] == BalanceMap(s, re, range)[a] + beforeFirst[a]
    {
      RangeIsDifference(s.transactions, s.items, a.code, first, last);
    }
    TotalPointwise(BalanceMap(s, re, range), beforeFirst, upToLast);
  }

  /** A range that ends before it starts reports every account at 0 and a net result of 0. */
  lemma EmptyRangeStatement(s: Store, first: int, last: int)
    requires last < first
    ensures var st := IncomeStatementOver(s, first, last);
            && (forall a :: a in st.revenue ==> st.revenue[a] == 0)
            && (forall a :: a in st.expense ==> st.expense[a] == 0)
            && st.NetResult() == 0
  {
    var st := IncomeStatementOver(s, first, last);
    forall a | a in st.revenue ensures st.revenue[a] == 0 {
      EmptyRangeIsZero(s.transactions, s.items, a.code, first, last);
    }
    forall a | a in st.expense ensures st.expense[a] == 0 {
      EmptyRangeIsZero(s.transactions, s.items, a.code, first, last);
    }
    TotalZero(st.revenue);
    TotalZero(st.expense);
  }
}
