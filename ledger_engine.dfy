/**
  The Ledger engine: an account registry, an append-only transaction log
  and the two report builders, over three in-memory tables that stand for
  the SQLite tables accounts, transactions and transaction_items.
 */
module LedgerEngine {
  import opened Books
  import opened Totals
  import opened Reports

  class Ledger {
    var accounts: map<string, AccountRow>
    var transactions: seq<TxRow>
    var items: seq<ItemRow>

    /** The three tables as one value. */
    function Snapshot(): Store
      reads this
    {
      Store(accounts, transactions, items)
    }

    ghost predicate Valid()
      reads this
    {
      Consistent(Snapshot())
    }

    /** A ledger over freshly created, empty tables. */
    constructor ()
      ensures Valid()
      ensures Snapshot() == Store(map[], [], [])
    {
      accounts := map[];
      transactions := [];
      items := [];
    }

    /** get_account: the account with the code, or None; never fails. */
    function GetAccount(code: string): (r: Option<Account>)
      reads this
      ensures r.Some? ==> r.value in Registered(accounts) && r.value.code == code
      ensures r.None? ==> forall a :: a in Registered(accounts) ==> a.code != code
    {
      if code in accounts then Some(Account(code, accounts[code].name, accounts[code].kind)) else None
    }

    /** create_account: refuse an unknown type, then a taken code; otherwise insert the row. */
    method CreateAccount(code: string, name: string, typeName: string) returns (r: Status)
      requires Valid()
      modifies this
      ensures Valid()
      ensures transactions == old(transactions) && items == old(items)
      ensures ParseKind(typeName).None? ==>
                r == Failure(ValueError(UnknownType(typeName))) && accounts == old(accounts)
      ensures ParseKind(typeName).Some? && code in old(accounts) ==>
                r == Failure(LedgerError(code)) && accounts == old(accounts)
      ensures ParseKind(typeName).Some? && code !in old(accounts) ==>
                && r == Success
                && accounts == old(accounts)[code := AccountRow(name, ParseKind(typeName).value)]
                && GetAccount(code) == Some(Account(code, name, ParseKind(typeName).value))
      ensures forall c :: c != code ==> GetAccount(c) == old(GetAccount(c))
    {
      var kind := ParseKind(typeName);
      if kind.None? {
        return Failure(ValueError(UnknownType(typeName)));
      }
      if GetAccount(code).Some? {
        return Failure(LedgerError(code));
      }
      accounts := accounts[code := AccountRow(name, kind.value)];
      r := Success;
    }

    /** count_transactions */
    function CountTransactions(): (n: nat)
      reads this
      ensures n == |TransactionsView(Snapshot())|
    {
      |transactions|
    }

    /** count_transaction_items: as many as get_transactions lists over all transactions. */
    function CountTransactionItems(): (n: nat)
      reads this
      requires Valid()
      ensures n == PostingCount(TransactionsView(Snapshot()))
    {
      ItemCountMatches(Snapshot());
      |items|
    }

    /**
      record_transaction: refuse an empty or unbalanced transaction before
      writing anything; then format the date (strftime fails before 1900,
      so no header is written), insert the header and, item by item, check
      the account and insert the item row (WriteTransaction). An unknown
      account rolls the store back to the snapshot taken before the header
      was written.
     */
    method RecordTransaction(date: int, description: string, postings: seq<Posting>) returns (r: Result<int>)
      requires Valid()
      modifies this
      ensures Valid()
      ensures accounts == old(accounts)
      ensures Verdict(old(accounts), date, postings).Some? ==>
                && r == Err(ValueError(Verdict(old(accounts), date, postings).value))
                && Snapshot() == old(Snapshot())
      ensures Verdict(old(accounts), date, postings).None? ==>
                && r == Ok(old(|transactions|) + 1)
                && Snapshot() == Appended(old(Snapshot()), date, description, postings)
      ensures r.Err? ==>
                CountTransactions() == old(CountTransactions())
                && CountTransactionItems() == old(CountTransactionItems())
      ensures r.Ok? ==>
                && (forall i :: 0 <= i < |old(transactions)| ==> old(transactions)[i].id < r.value)
                && TransactionView(Snapshot(), r.value) == Some(Transaction(date, description, postings))
                && (forall id :: id != r.value ==> TransactionView(Snapshot(), id) == TransactionView(old(Snapshot()), id))
                && CountTransactions() == old(CountTransactions()) + 1
                && CountTransactionItems() == old(CountTransactionItems()) + |postings|
    {
      if postings == [] {
        r := Err(ValueError(EmptyTransaction));
      } else if SumAmounts(postings) != 0 {
        r := Err(ValueError(UnbalancedTransaction));
      } else if date < FirstFormattableDay {
        r := Err(ValueError(YearBefore1900));
      } else {
        ghost var before := Snapshot();
        r := WriteTransaction(date, description, postings);
        if r.Err? {
          assert Verdict(before.accounts, date, postings) == Some(UnknownAccount(FirstUnknown(before.accounts, postings).value));
        } else {
          assert Verdict(before.accounts, date, postings).None?;
          AppendedSummary(before, date, description, postings);
          ItemCountMatches(before);
          assert CountTransactions() == |TransactionsView(before)| + 1;
          assert CountTransactionItems() == PostingCount(TransactionsView(before)) + |postings|;
        }
      }
    }

    /**
      The try block of record_transaction: insert the header, then the items;
      on an unknown account roll the store back to the snapshot taken before
      the header was written.
     */
    method WriteTransaction(date: int, description: string, postings: seq<Posting>) returns (r: Result<int>)
      modifies this
      ensures FirstUnknown(old(accounts), postings).Some? ==>
                && r == Err(ValueError(UnknownAccount(FirstUnknown(old(accounts), postings).value)))
                && Snapshot() == old(Snapshot())
      ensures FirstUnknown(old(accounts), postings).None? ==>
                && r == Ok(old(|transactions|) + 1)
                && Snapshot() == Appended(old(Snapshot()), date, description, postings)
    {
      var snapshot := Snapshot();
      var txId := |transactions| + 1;
      transactions := transactions + [TxRow(txId, date, description)];
      var unknown := InsertItems(txId, postings);
      if unknown.Some? {
        accounts, transactions, items := snapshot.accounts, snapshot.transactions, snapshot.items;
        r := Err(ValueError(UnknownAccount(unknown.value)));
      } else {
        r := Ok(txId);
      }
    }

    /**
      The loop of record_transaction: for each item, check that its account
      exists and insert its row; stop at the first unknown account.
     */
    method InsertItems(txId: int, postings: seq<Posting>) returns (unknown: Option<string>)
      modifies this
      ensures accounts == old(accounts) && transactions == old(transactions)
      ensures unknown == FirstUnknown(accounts, postings)
      ensures unknown.None? ==> items == old(items) + ItemRows(|old(items)| + 1, txId, postings)
      ensures unknown.Some? ==>
                var k := |items| - |old(items)|;
                && 0 <= k < |postings| && postings[k].code == unknown.value
                && items == old(items) + ItemRows(|old(items)| + 1, txId, postings[..k])
                && FirstUnknown(accounts, postings[..k]).None?
    {
      var k := 0;
      while k < |postings|
        invariant 0 <= k <= |postings|
        invariant accounts == old(accounts) && transactions == old(transactions)
        invariant items == old(items) + ItemRows(|old(items)| + 1, txId, postings[..k])
        invariant forall i :: 0 <= i < k ==> postings[i].code in accounts
      {
        var p := postings[k];
        if p.code !in accounts {
          assert |items| - |old(items)| == k;
          assert FirstUnknown(accounts, postings) == Some(p.code);
          return Some(p.code);
        }
        assert ItemRows(|old(items)| + 1, txId, postings[..k + 1])
               == ItemRows(|old(items)| + 1, txId, postings[..k]) + [ItemRow(|items| + 1, txId, p.code, p.amount)];
        items := items + [ItemRow(|items| + 1, txId, p.code, p.amount)];
        k := k + 1;
      }
      assert postings[..k] == postings;
      unknown := None;
    }

    /** get_transaction: the header with the id and its items in row order, or None. */
    method GetTransaction(id: int) returns (r: Option<Transaction>)
      ensures r == TransactionView(Snapshot(), id)
    {
      var header := FindTx(transactions, id);
      if header.None? {
        return None;
      }
      var found: seq<Posting> := [];
      var j := 0;
      while j < |items|
        invariant 0 <= j <= |items|
        invariant found == ItemsOf(items[..j], id)
      {
        assert items[..j + 1][..j] == items[..j];
        if items[j].txId == id {
          found := found + [Posting(items[j].code, items[j].amount)];
        }
        j := j + 1;
      }
      assert items[..j] == items;
      r := Some(Transaction(header.value.date, header.value.description, found));
    }

    /**
      get_transactions: a dictionary from id to transaction filled from the
      header rows, then each item row appended to its transaction; the
      values are listed in insertion order.
     */
    method GetTransactions() returns (r: seq<Transaction>)
      requires Valid()
      ensures r == TransactionsView(Snapshot())
    {
      var byId: map<int, Transaction> := map[];
      var order: seq<int> := [];
      var i := 0;
      while i < |transactions|
        invariant 0 <= i <= |transactions|
        invariant |order| == i
        invariant forall k :: 0 <= k < i ==> order[k] == transactions[k].id
        invariant forall k :: 0 <= k < i ==>
                    (transactions[k].id in byId
                     && byId[transactions[k].id] == Transaction(transactions[k].date, transactions[k].description, []))
      {
        var row := transactions[i];
        byId := byId[row.id := Transaction(row.date, row.description, [])];
        order := order + [row.id];
        i := i + 1;
      }
      var j := 0;
      while j < |items|
        invariant 0 <= j <= |items|
        invariant forall k :: 0 <= k < |transactions| ==>
                    (transactions[k].id in byId
                     && byId[transactions[k].id]
                        == Transaction(transactions[k].date, transactions[k].description,
                                       ItemsOf(items[..j], transactions[k].id)))
      {
        var row := items[j];
        assert items[..j + 1][..j] == items[..j];
        assert forall t :: ItemsOf(items[..j + 1], t)
                           == ItemsOf(items[..j], t) + (if row.txId == t then [Posting(row.code, row.amount)] else []);
        assert transactions[row.txId - 1].id == row.txId;
        var tx := byId[row.txId];
        byId := byId[row.txId := tx.(items := tx.items + [Posting(row.code, row.amount)])];
        j := j + 1;
      }
      assert items[..j] == items;
      ghost var view := TransactionsView(Snapshot());
      r := [];
      var k := 0;
      while k < |order|
        invariant 0 <= k <= |order|
        invariant r == view[..k]
      {
        assert view[..k + 1] == view[..k] + [view[k]];
        r := r + [byId[order[k]]];
        k := k + 1;
      }
      assert view[..k] == view;
    }

    /**
      get_balance_sheet: one row per account with its as-of balance; revenue
      and expense rows are subtracted into retained earnings, the others go
      into the map of their type.
     */
    method GetBalanceSheet(date: int) returns (sheet: BalanceSheet)
      ensures sheet == BalanceSheetAsOf(Snapshot(), date)
    {
      var s := Snapshot();
      var w := AsOf(date);
      var all := Registered(accounts);
      var rows := all;
      ghost var done: set<Account> := {};
      var retained := 0;
      var asset, liability, equity := map[], map[], map[];
      while rows != {}
        invariant rows !! done && rows + done == all
        invariant asset == BalanceMap(s, OfKinds(done, {Asset}), w)
        invariant liability == BalanceMap(s, OfKinds(done, {Liability}), w)
        invariant equity == BalanceMap(s, OfKinds(done, {Equity}), w)
        invariant retained == -Total(BalanceMap(s, OfKinds(done, {Revenue, Expense}), w))
        decreases rows
      {
        var a :| a in rows;
        var balance := Balance(transactions, items, a.code, w);
        OfKindsInsert(done, a, {Asset});
        OfKindsInsert(done, a, {Liability});
        OfKindsInsert(done, a, {Equity});
        OfKindsInsert(done, a, {Revenue, Expense});
        if a.kind == Revenue || a.kind == Expense {
          TotalInsert(s, OfKinds(done, {Revenue, Expense}), a, w);
          retained := retained - balance;
        } else if a.kind == Asset {
          BalanceMapInsert(s, OfKinds(done, {Asset}), a, w);
          asset := asset[a := balance];
        } else if a.kind == Liability {
          BalanceMapInsert(s, OfKinds(done, {Liability}), a, w);
          liability := liability[a := balance];
        } else {
          BalanceMapInsert(s, OfKinds(done, {Equity}), a, w);
          equity := equity[a := balance];
        }
        rows := rows - {a};
        done := done + {a};
      }
      sheet := BalanceSheet(date, asset, liability, equity, retained);
    }

    /**
      get_income_statement: one row per revenue or expense account with its
      balance over the inclusive range, put into the map of its type.
     */
    method GetIncomeStatement(first: int, last: int) returns (st: IncomeStatement)
      ensures st == IncomeStatementOver(Snapshot(), first, last)
    {
      var s := Snapshot();
      var w := Between(first, last);
      var all := Registered(accounts);
      var rows := OfKinds(all, {Revenue, Expense});
      ghost var done: set<Account> := {};
      var revenue, expense := map[], map[];
      while rows != {}
        invariant rows !! done && rows + done == OfKinds(all, {Revenue, Expense})
        invariant revenue == BalanceMap(s, OfKinds(done, {Revenue}), w)
        invariant expense == BalanceMap(s, OfKinds(done, {Expense}), w)
        decreases rows
      {
        var a :| a in rows;
        var balance := Balance(transactions, items, a.code, w);
        OfKindsInsert(done, a, {Revenue});
        OfKindsInsert(done, a, {Expense});
        if a.kind == Revenue {
          BalanceMapInsert(s, OfKinds(done, {Revenue}), a, w);
          revenue := revenue[a := balance];
        } else {
          BalanceMapInsert(s, OfKinds(done, {Expense}), a, w);
          expense := expense[a := balance];
        }
        rows := rows - {a};
        done := done + {a};
      }
      assert OfKinds(done, {Revenue}) == OfKinds(all, {Revenue});
      assert OfKinds(done, {Expense}) == OfKinds(all, {Expense});
      st := IncomeStatement(first, last, revenue, expense);
    }
  }
}
