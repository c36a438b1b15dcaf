/**
  The data of the ledger: accounts, the three tables of the store
  (accounts, transactions, transaction_items), the errors the engine
  raises, and the balance aggregator that every report folds over the log.
 */
module Books {

  datatype Option<+T> = None | Some(value: T)

  datatype Result<+T> = Ok(value: T) | Err(error: Error)

  /** Outcome of an operation that returns nothing on success. */
  datatype Status = Success | Failure(error: Error)

  /** Why a call was refused with Python's ValueError. */
  datatype Invalid =
    | UnknownType(typeName: string)
    | EmptyTransaction
    | UnbalancedTransaction
    | YearBefore1900
    | UnknownAccount(code: string)

  /** The two exception classes the engine raises. */
  datatype Error =
    | ValueError(reason: Invalid)
    | LedgerError(duplicateCode: string)

  // ---------------------------------------------------------------------
  // Accounts
  // ---------------------------------------------------------------------

  /** The five members of ACCOUNT_TYPES. */
  datatype Kind = Asset | Liability | Equity | Revenue | Expense

  function KindName(k: Kind): string {
    match k
    case Asset => "asset"
    case Liability => "liability"
    case Equity => "equity"
    case Revenue => "revenue"
    case Expense => "expense"
  }

  /** The kind a type string names, or None when it is not in ACCOUNT_TYPES. */
  function ParseKind(s: string): (r: Option<Kind>)
    ensures r.Some? ==> KindName(r.value) == s
    ensures r.None? ==> forall k: Kind :: KindName(k) != s
  {
    if s == "asset" then Some(Asset)
    else if s == "liability" then Some(Liability)
    else if s == "equity" then Some(Equity)
    else if s == "revenue" then Some(Revenue)
    else if s == "expense" then Some(Expense)
    else None
  }

  lemma ParseKindName(k: Kind)
    ensures ParseKind(KindName(k)) == Some(k)
  {
  }

  /** The Account namedtuple (code, name, type). */
  datatype Account = Account(code: string, name: string, kind: Kind)

  /** A row of the accounts table, keyed by its code. */
  datatype AccountRow = AccountRow(name: string, kind: Kind)

  /** Every registered account, one per row of the accounts table. */
  function Registered(accounts: map<string, AccountRow>): set<Account> {
    set c | c in accounts :: Account(c, accounts[c].name, accounts[c].kind)
  }

  /** The registered accounts of the given kinds. */
  function OfKinds(all: set<Account>, kinds: set<Kind>): set<Account> {
    set a | a in all && a.kind in kinds
  }

  function CodesOf(accts: set<Account>): set<string> {
    set a | a in accts :: a.code
  }

  /** No two accounts of the set share a code. */
  predicate CodesUnique(accts: set<Account>) {
    forall a, b :: a in accts && b in accts && a.code == b.code ==> a == b
  }

  lemma RegisteredFacts(accounts: map<string, AccountRow>)
    ensures CodesUnique(Registered(accounts))
    ensures CodesOf(Registered(accounts)) == accounts.Keys
  {
    var all := Registered(accounts);
    forall c | c in accounts ensures c in CodesOf(all) {
      assert Account(c, accounts[c].name, accounts[c].kind) in all;
    }
  }

  /** The codes of the accounts table's rows whose type is one of the kinds. */
  function CodesOfKind(accounts: map<string, AccountRow>, kinds: set<Kind>): set<string> {
    set c | c in accounts && accounts[c].kind in kinds
  }

  /** The registered accounts of some kinds have unique codes, exactly those of their rows. */
  lemma OfKindsFacts(accounts: map<string, AccountRow>, kinds: set<Kind>)
    ensures CodesUnique(OfKinds(Registered(accounts), kinds))
    ensures CodesOf(OfKinds(Registered(accounts), kinds)) == CodesOfKind(accounts, kinds)
  {
    var sub := OfKinds(Registered(accounts), kinds);
    RegisteredFacts(accounts);
    forall c | c in CodesOfKind(accounts, kinds) ensures c in CodesOf(sub) {
      assert Account(c, accounts[c].name, accounts[c].kind) in sub;
    }
  }

  // ---------------------------------------------------------------------
  // The transaction log
  // ---------------------------------------------------------------------

  /** One (account_code, amount) item of a transaction. */
  datatype Posting = Posting(code: string, amount: int)

  /** The Transaction namedtuple (date, description, items). */
  datatype Transaction = Transaction(date: int, description: string, items: seq<Posting>)

  /** A row of the transactions table; dates are day ordinals. */
  datatype TxRow = TxRow(id: int, date: int, description: string)

  /** A row of the transaction_items table. */
  datatype ItemRow = ItemRow(id: int, txId: int, code: string, amount: int)

  /** The whole store: the three tables. */
  datatype Store = Store(
    accounts: map<string, AccountRow>,
    transactions: seq<TxRow>,
    items: seq<ItemRow>)

  /** sum(item[1] for item in items) */
  function SumAmounts(ps: seq<Posting>): int {
    if ps == [] then 0 else SumAmounts(ps[..|ps| - 1]) + ps[|ps| - 1].amount
  }

  /** The sum of the amounts splits over any cut of the list. */
  lemma {:induction false} SumAmountsAppend(a: seq<Posting>, b: seq<Posting>)
    ensures SumAmounts(a + b) == SumAmounts(a) + SumAmounts(b)
    decreases |b|
  {
    if b == [] {
      assert a + b == a;
    } else {
      var init := b[..|b| - 1];
      assert (a + b)[..|a + b| - 1] == a + init;
      SumAmountsAppend(a, init);
    }
  }

  /** The items of transaction txId, in row order, as (code, amount) pairs. */
  function ItemsOf(items: seq<ItemRow>, txId: int): seq<Posting> {
    if items == [] then []
    else
      var last := items[|items| - 1];
      ItemsOf(items[..|items| - 1], txId)
        + (if last.txId == txId then [Posting(last.code, last.amount)] else [])
  }

  /** The rows the insert loop writes for the postings of transaction txId. */
  function ItemRows(firstId: int, txId: int, ps: seq<Posting>): (rows: seq<ItemRow>) {
    seq(|ps|, i requires 0 <= i < |ps| => ItemRow(firstId + i, txId, ps[i].code, ps[i].amount))
  }

  /** The header row with the given id (the first one, when ids repeat). */
  function FindTx(txs: seq<TxRow>, id: int): Option<TxRow> {
    if txs == [] then None
    else
      match FindTx(txs[..|txs| - 1], id)
      case Some(row) => Some(row)
      case None => if txs[|txs| - 1].id == id then Some(txs[|txs| - 1]) else None
  }

  /**
    What holds of the store between operations: row ids are 1, 2, 3, ...
    (SQLite's rowid with no deletes), every item belongs to a stored
    transaction and names a registered account, and every transaction
    has items that sum to zero.
   */
  predicate Consistent(s: Store) {
    && (forall i :: 0 <= i < |s.transactions| ==> s.transactions[i].id == i + 1)
    && (forall j :: 0 <= j < |s.items| ==> s.items[j].id == j + 1)
    && (forall j :: 0 <= j < |s.items| ==> 1 <= s.items[j].txId <= |s.transactions|)
    && (forall j :: 0 <= j < |s.items| ==> s.items[j].code in s.accounts)
    && (forall t :: 1 <= t <= |s.transactions| ==>
          ItemsOf(s.items, t) != [] && SumAmounts(ItemsOf(s.items, t)) == 0)
  }

  lemma {:induction false} ItemsOfAppend(a: seq<ItemRow>, b: seq<ItemRow>, txId: int)
    ensures ItemsOf(a + b, txId) == ItemsOf(a, txId) + ItemsOf(b, txId)
    decreases |b|
  {
    if b == [] {
      assert a + b == a;
    } else {
      var init := b[..|b| - 1];
      assert (a + b)[..|a + b| - 1] == a + init;
      ItemsOfAppend(a, init, txId);
    }
  }

  /** Reading back the rows written for ps gives exactly ps, in input order. */
  lemma {:induction false} ItemsOfRows(firstId: int, txId: int, ps: seq<Posting>, t: int)
    ensures ItemsOf(ItemRows(firstId, txId, ps), t) == if t == txId then ps else []
    decreases |ps|
  {
    var rows := ItemRows(firstId, txId, ps);
    if ps != [] {
      var init := ps[..|ps| - 1];
      assert rows[..|rows| - 1] == ItemRows(firstId, txId, init);
      ItemsOfRows(firstId, txId, init, t);
      assert ps == init + [ps[|ps| - 1]];
    }
  }

  lemma {:induction false} ItemsOfAbsent(items: seq<ItemRow>, txId: int)
    requires forall j :: 0 <= j < |items| ==> items[j].txId != txId
    ensures ItemsOf(items, txId) == []
    decreases |items|
  {
    if items != [] {
      ItemsOfAbsent(items[..|items| - 1], txId);
    }
  }

  lemma {:induction false} FindTxConsecutive(txs: seq<TxRow>, id: int)
    requires forall i :: 0 <= i < |txs| ==> txs[i].id == i + 1
    ensures FindTx(txs, id) == if 1 <= id <= |txs| then Some(txs[id - 1]) else None
    decreases |txs|
  {
    if txs != [] {
      FindTxConsecutive(txs[..|txs| - 1], id);
    }
  }

  // ---------------------------------------------------------------------
  // Reading transactions back
  // ---------------------------------------------------------------------

  /** What get_transaction returns for an id. */
  function TransactionView(s: Store, id: int): Option<Transaction> {
    match FindTx(s.transactions, id)
    case None => None
    case Some(row) => Some(Transaction(row.date, row.description, ItemsOf(s.items, id)))
  }

  /** What get_transactions returns: every transaction, in insertion order. */
  function TransactionsView(s: Store): seq<Transaction> {
    seq(|s.transactions|, i requires 0 <= i < |s.transactions| =>
      Transaction(s.transactions[i].date, s.transactions[i].description,
                  ItemsOf(s.items, s.transactions[i].id)))
  }

  /** get_transactions and get_transaction agree: the i-th listed is the one with id i + 1. */
  lemma ViewsAgree(s: Store, id: int)
    requires Consistent(s)
    ensures 1 <= id <= |s.transactions| ==> TransactionView(s, id) == Some(TransactionsView(s)[id - 1])
    ensures !(1 <= id <= |s.transactions|) ==> TransactionView(s, id) == None
  {
    FindTxConsecutive(s.transactions, id);
  }

  /** Total number of items over a list of transactions. */
  function PostingCount(txs: seq<Transaction>): nat {
    if txs == [] then 0 else PostingCount(txs[..|txs| - 1]) + |txs[|txs| - 1].items|
  }

  /** Items of the transactions with ids 1..n, counted. */
  function CountUpTo(items: seq<ItemRow>, n: nat): nat {
    if n == 0 then 0 else CountUpTo(items, n - 1) + |ItemsOf(items, n)|
  }

  lemma {:induction false} CountUpToAppend(items: seq<ItemRow>, x: ItemRow, n: nat)
    ensures CountUpTo(items + [x], n) == CountUpTo(items, n) + (if 1 <= x.txId <= n then 1 else 0)
    decreases n
  {
    if n > 0 {
      CountUpToAppend(items, x, n - 1);
      assert (items + [x])[..|items + [x]| - 1] == items;
    }
  }

  lemma {:induction false} CountUpToAll(items: seq<ItemRow>, n: nat)
    requires forall j :: 0 <= j < |items| ==> 1 <= items[j].txId <= n
    ensures CountUpTo(items, n) == |items|
    decreases |items|
  {
    if items == [] {
      CountUpToEmpty(n);
    } else {
      var init := items[..|items| - 1];
      CountUpToAll(init, n);
      CountUpToAppend(init, items[|items| - 1], n);
      assert init + [items[|items| - 1]] == items;
    }
  }

  lemma {:induction false} CountUpToEmpty(n: nat)
    ensures CountUpTo([], n) == 0
    decreases n
  {
    if n > 0 {
      CountUpToEmpty(n - 1);
    }
  }

  /** count_transaction_items equals the number of items get_transactions lists. */
  lemma ItemCountMatches(s: Store)
    requires Consistent(s)
    ensures PostingCount(TransactionsView(s)) == |s.items|
  {
    var view := TransactionsView(s);
    PrefixCount(s, |s.transactions|);
    assert view[..|s.transactions|] == view;
    CountUpToAll(s.items, |s.transactions|);
  }

  lemma {:induction false} PrefixCount(s: Store, k: nat)
    requires forall i :: 0 <= i < |s.transactions| ==> s.transactions[i].id == i + 1
    requires k <= |s.transactions|
    ensures PostingCount(TransactionsView(s)[..k]) == CountUpTo(s.items, k)
    decreases k
  {
    if k > 0 {
      var view := TransactionsView(s);
      PrefixCount(s, k - 1);
      assert view[..k][..k - 1] == view[..k - 1];
      assert view[..k][k - 1].items == ItemsOf(s.items, k);
    }
  }

  // ---------------------------------------------------------------------
  // Validating and appending a transaction
  // ---------------------------------------------------------------------

  /** The code of the first posting whose account is not registered. */
  function FirstUnknown(accounts: map<string, AccountRow>, ps: seq<Posting>): (r: Option<string>)
    ensures r.None? <==> forall i :: 0 <= i < |ps| ==> ps[i].code in accounts
    ensures forall i :: 0 <= i < |ps| && ps[i].code !in accounts
                        && (forall j :: 0 <= j < i ==> ps[j].code in accounts)
                        ==> r == Some(ps[i].code)
  {
    if ps == [] then None
    else if ps[0].code !in accounts then Some(ps[0].code)
    else
      var tail := ps[1..];
      var rest := FirstUnknown(accounts, tail);
      assert forall i :: 1 <= i < |ps| ==> ps[i] == tail[i - 1];
      assert forall i :: 0 <= i < |ps| && ps[i].code !in accounts && (forall j :: 0 <= j < i ==> ps[j].code in accounts)
                         ==> rest == Some(ps[i].code) by {
        forall i | 0 <= i < |ps| && ps[i].code !in accounts && (forall j :: 0 <= j < i ==> ps[j].code in accounts)
          ensures rest == Some(ps[i].code)
        {
          assert forall j :: 0 <= j < i - 1 ==> tail[j] == ps[j + 1];
        }
      }
      rest
  }

  /**
    Day ordinal of 1900-01-01, counting 0001-01-01 as day 1 (Python's
    date.toordinal()). Python 2's date.strftime refuses any earlier year.
   */
  const FirstFormattableDay := 693596

  /**
    The checks record_transaction makes, in the order it makes them:
    empty, then unbalanced, then a date strftime cannot format, then the
    first posting to an unknown account.
   */
  function Verdict(accounts: map<string, AccountRow>, date: int, ps: seq<Posting>): (r: Option<Invalid>)
    ensures r.None? <==> ps != [] && SumAmounts(ps) == 0 && date >= FirstFormattableDay
                         && forall i :: 0 <= i < |ps| ==> ps[i].code in accounts
    ensures ps == [] ==> r == Some(EmptyTransaction)
    ensures ps != [] && SumAmounts(ps) != 0 ==> r == Some(UnbalancedTransaction)
    ensures ps != [] && SumAmounts(ps) == 0 && date < FirstFormattableDay ==> r == Some(YearBefore1900)
    ensures ps != [] && SumAmounts(ps) == 0 && date >= FirstFormattableDay && FirstUnknown(accounts, ps).Some? ==>
              r == Some(UnknownAccount(FirstUnknown(accounts, ps).value))
  {
    if ps == [] then Some(EmptyTransaction)
    else if SumAmounts(ps) != 0 then Some(UnbalancedTransaction)
    else if date < FirstFormattableDay then Some(YearBefore1900)
    else
      match FirstUnknown(accounts, ps)
      case Some(code) => Some(UnknownAccount(code))
      case None => None
  }

  /** The store after a transaction is recorded: one header row, then one item row per posting. */
  function Appended(s: Store, date: int, description: string, ps: seq<Posting>): Store {
    var txId := |s.transactions| + 1;
    Store(s.accounts,
          s.transactions + [TxRow(txId, date, description)],
          s.items + ItemRows(|s.items| + 1, txId, ps))
  }

  /** Recording a transaction the checks accept keeps the store consistent. */
  lemma AppendedConsistent(s: Store, date: int, description: string, ps: seq<Posting>)
    requires Consistent(s)
    requires Verdict(s.accounts, date, ps).None?
    ensures Consistent(Appended(s, date, description, ps))
  {
    var s' := Appended(s, date, description, ps);
    var txId := |s.transactions| + 1;
    forall t | 1 <= t <= |s'.transactions|
      ensures ItemsOf(s'.items, t) != [] && SumAmounts(ItemsOf(s'.items, t)) == 0
    {
      AppendedItems(s, date, description, ps, t);
    }
    AppendedRows(s, date, description, ps);
  }

  /**
    Everything record_transaction promises on success, about the store it
    leaves: still consistent, the new id above every existing one, the new
    transaction reading back as recorded and the others as before, one more
    transaction and as many more items as were posted.
   */
  lemma AppendedSummary(s: Store, date: int, description: string, ps: seq<Posting>)
    requires Consistent(s)
    requires Verdict(s.accounts, date, ps).None?
    ensures var s', txId := Appended(s, date, description, ps), |s.transactions| + 1;
            && Consistent(s')
            && (forall i :: 0 <= i < |s.transactions| ==> s.transactions[i].id < txId)
            && TransactionView(s', txId) == Some(Transaction(date, description, ps))
            && (forall id :: id != txId ==> TransactionView(s', id) == TransactionView(s, id))
            && |TransactionsView(s')| == |TransactionsView(s)| + 1
            && PostingCount(TransactionsView(s')) == PostingCount(TransactionsView(s)) + |ps|
  {
    var s' := Appended(s, date, description, ps);
    AppendedConsistent(s, date, description, ps);
    forall id {
      AppendedView(s, date, description, ps, id);
    }
    ItemCountMatches(s);
    ItemCountMatches(s');
  }

  /** After an append, the new transaction holds exactly its postings and the others keep theirs. */
  lemma AppendedItems(s: Store, date: int, description: string, ps: seq<Posting>, t: int)
    requires forall j :: 0 <= j < |s.items| ==> s.items[j].txId <= |s.transactions|
    ensures ItemsOf(Appended(s, date, description, ps).items, t)
            == if t == |s.transactions| + 1 then ps else ItemsOf(s.items, t)
  {
    var txId := |s.transactions| + 1;
    var rows := ItemRows(|s.items| + 1, txId, ps);
    ItemsOfAppend(s.items, rows, t);
    ItemsOfRows(|s.items| + 1, txId, ps, t);
    if t == txId {
      ItemsOfAbsent(s.items, t);
    }
  }

  /** The appended item rows continue the ids and name registered accounts and the new header. */
  lemma AppendedRows(s: Store, date: int, description: string, ps: seq<Posting>)
    requires Consistent(s)
    requires forall i :: 0 <= i < |ps| ==> ps[i].code in s.accounts
    ensures var s' := Appended(s, date, description, ps);
            forall j :: 0 <= j < |s'.items| ==>
              && s'.items[j].id == j + 1
              && s'.items[j].code in s'.accounts
              && 1 <= s'.items[j].txId <= |s'.transactions|
  {
    var s' := Appended(s, date, description, ps);
    var rows := ItemRows(|s.items| + 1, |s.transactions| + 1, ps);
    forall j | 0 <= j < |s'.items|
      ensures s'.items[j].id == j + 1
      ensures s'.items[j].code in s'.accounts
      ensures 1 <= s'.items[j].txId <= |s'.transactions|
    {
      if j >= |s.items| {
        assert s'.items[j] == rows[j - |s.items|];
      }
    }
  }

  /** A recorded transaction reads back as recorded, and earlier ones read back unchanged. */
  lemma AppendedView(s: Store, date: int, description: string, ps: seq<Posting>, id: int)
    requires Consistent(s)
    ensures var txId := |s.transactions| + 1;
            TransactionView(Appended(s, date, description, ps), id)
            == if id == txId then Some(Transaction(date, description, ps)) else TransactionView(s, id)
  {
    var s' := Appended(s, date, description, ps);
    var txId := |s.transactions| + 1;
    var rows := ItemRows(|s.items| + 1, txId, ps);
    assert s'.transactions[..|s'.transactions| - 1] == s.transactions;
    FindTxConsecutive(s.transactions, id);
    assert FindTx(s'.transactions, id)
           == if id == txId then Some(TxRow(txId, date, description)) else FindTx(s.transactions, id);
    ItemsOfAppend(s.items, rows, id);
    ItemsOfRows(|s.items| + 1, txId, ps, id);
    if id == txId {
      ItemsOfAbsent(s.items, id);
      assert ItemsOf(s'.items, id) == ps;
    } else {
      assert ItemsOf(s'.items, id) == ItemsOf(s.items, id) + [];
      assert ItemsOf(s.items, id) + [] == ItemsOf(s.items, id);
    }
  }

  // ---------------------------------------------------------------------
  // The balance aggregator
  // ---------------------------------------------------------------------

  /** The date criterion of a report: as of a day, or an inclusive range of days. */
  datatype Window = AsOf(day: int) | Between(first: int, last: int) {
    predicate Contains(d: int) {
      match this
      case AsOf(day) => d <= day
      case Between(first, last) => first <= d && d <= last
    }
  }

  /**
    Whether the items of transaction txId are summed: the joined header's
    date falls in the window. An item without a header joins to NULL and is
    not summed.
   */
  predicate Selected(txs: seq<TxRow>, w: Window, txId: int) {
    match FindTx(txs, txId)
    case None => false
    case Some(row) => w.Contains(row.date)
  }

  /** The CASE expression: the item's amount when selected, else 0. */
  function Counted(txs: seq<TxRow>, w: Window, row: ItemRow): int {
    if Selected(txs, w, row.txId) then row.amount else 0
  }

  /**
    The balance of one account: SUM(CASE ...) over its items, 0 when there
    are none. Balance, TotalIn and WindowTotal are the same fold over the
    item rows, filtered by one code, by a set of codes and by none; they are
    kept apart so that each report's proof unfolds only the fold it is about,
    and TotalInSplit and TotalInCovers relate them.
   */
  function Balance(txs: seq<TxRow>, items: seq<ItemRow>, code: string, w: Window): int {
    if items == [] then 0
    else
      var last := items[|items| - 1];
      Balance(txs, items[..|items| - 1], code, w) + (if last.code == code then Counted(txs, w, last) else 0)
  }

  /**
    SUM over the joined rows has no order: the balance over two runs of
    item rows is the sum of the balances over each.
   */
  lemma {:induction false} BalanceAppend(txs: seq<TxRow>, a: seq<ItemRow>, b: seq<ItemRow>, code: string, w: Window)
    ensures Balance(txs, a + b, code, w) == Balance(txs, a, code, w) + Balance(txs, b, code, w)
    decreases |b|
  {
    if b == [] {
      assert a + b == a;
    } else {
      var init := b[..|b| - 1];
      assert (a + b)[..|a + b| - 1] == a + init;
      BalanceAppend(txs, a, init, code, w);
    }
  }

  /** The selected amounts of the items posted to any of the codes. */
  function TotalIn(txs: seq<TxRow>, items: seq<ItemRow>, codes: set<string>, w: Window): int {
    if items == [] then 0
    else
      var last := items[|items| - 1];
      TotalIn(txs, items[..|items| - 1], codes, w) + (if last.code in codes then Counted(txs, w, last) else 0)
  }

  /** The selected amounts of all items. */
  function WindowTotal(txs: seq<TxRow>, items: seq<ItemRow>, w: Window): int {
    if items == [] then 0
    else WindowTotal(txs, items[..|items| - 1], w) + Counted(txs, w, items[|items| - 1])
  }

  /** The items not belonging to transaction txId. */
  function Without(items: seq<ItemRow>, txId: int): (r: seq<ItemRow>)
    ensures |r| <= |items|
  {
    if items == [] then []
    else
      var last := items[|items| - 1];
      Without(items[..|items| - 1], txId) + (if last.txId == txId then [] else [last])
  }

  lemma {:induction false} ItemsOfWithout(items: seq<ItemRow>, t0: int, t: int)
    requires t != t0
    ensures ItemsOf(Without(items, t0), t) == ItemsOf(items, t)
    decreases |items|
  {
    if items != [] {
      var init := items[..|items| - 1];
      var last := items[|items| - 1];
      ItemsOfWithout(init, t0, t);
      assert ItemsOf(items, t) == ItemsOf(init, t) + (if last.txId == t then [Posting(last.code, last.amount)] else []);
      if last.txId == t0 {
        assert Without(items, t0) == Without(init, t0);
      } else {
        var r := Without(init, t0) + [last];
        assert Without(items, t0) == r;
        assert r[..|r| - 1] == Without(init, t0);
        assert ItemsOf(r, t) == ItemsOf(Without(init, t0), t) + (if last.txId == t then [Posting(last.code, last.amount)] else []);
      }
    }
  }

  lemma {:induction false} WithoutMembers(items: seq<ItemRow>, txId: int, x: ItemRow)
    requires x in Without(items, txId)
    ensures x in items && x.txId != txId
    decreases |items|
  {
    if items != [] {
      var init := items[..|items| - 1];
      if x in Without(init, txId) {
        WithoutMembers(init, txId, x);
        assert x in init;
      }
    }
  }

  /** Summing the window splits into transaction t0's items and the rest. */
  lemma {:induction false} WindowTotalSplit(txs: seq<TxRow>, items: seq<ItemRow>, w: Window, t0: int)
    ensures WindowTotal(txs, items, w)
            == WindowTotal(txs, Without(items, t0), w)
               + (if Selected(txs, w, t0) then SumAmounts(ItemsOf(items, t0)) else 0)
    decreases |items|
  {
    if items != [] {
      var init := items[..|items| - 1];
      var last := items[|items| - 1];
      WindowTotalSplit(txs, init, w, t0);
      if last.txId == t0 {
        var ps := ItemsOf(init, t0) + [Posting(last.code, last.amount)];
        assert ItemsOf(items, t0) == ps;
        assert ps[..|ps| - 1] == ItemsOf(init, t0);
        assert SumAmounts(ps) == SumAmounts(ItemsOf(init, t0)) + last.amount;
        assert Without(items, t0) == Without(init, t0);
        assert WindowTotal(txs, items, w) == WindowTotal(txs, init, w) + Counted(txs, w, last);
      } else {
        var r := Without(init, t0) + [last];
        assert Without(items, t0) == r;
        assert r[..|r| - 1] == Without(init, t0);
        assert WindowTotal(txs, r, w) == WindowTotal(txs, Without(init, t0), w) + Counted(txs, w, last);
        assert ItemsOf(items, t0) == ItemsOf(init, t0);
      }
    }
  }

  /** When every transaction's items sum to zero, so does any window of the log. */
  lemma {:induction false} BalancedWindowIsZero(txs: seq<TxRow>, items: seq<ItemRow>, w: Window)
    requires forall x :: x in items ==> SumAmounts(ItemsOf(items, x.txId)) == 0
    ensures WindowTotal(txs, items, w) == 0
    decreases |items|
  {
    if items != [] {
      var t0 := items[|items| - 1].txId;
      var rest := Without(items, t0);
      WindowTotalSplit(txs, items, w, t0);
      assert items[|items| - 1] in items;
      assert rest == Without(items[..|items| - 1], t0);
      forall x | x in rest ensures SumAmounts(ItemsOf(rest, x.txId)) == 0 {
        WithoutMembers(items, t0, x);
        ItemsOfWithout(items, t0, x.txId);
      }
      BalancedWindowIsZero(txs, rest, w);
    }
  }

  lemma {:induction false} TotalInEmpty(txs: seq<TxRow>, items: seq<ItemRow>, w: Window)
    ensures TotalIn(txs, items, {}, w) == 0
    decreases |items|
  {
    if items != [] {
      TotalInEmpty(txs, items[..|items| - 1], w);
    }
  }

  /** Summing over a set of codes peels off one account's balance. */
  lemma {:induction false} TotalInSplit(txs: seq<TxRow>, items: seq<ItemRow>, codes: set<string>, c: string, w: Window)
    requires c in codes
    ensures TotalIn(txs, items, codes, w) == TotalIn(txs, items, codes - {c}, w) + Balance(txs, items, c, w)
    decreases |items|
  {
    if items != [] {
      TotalInSplit(txs, items[..|items| - 1], codes, c, w);
    }
  }

  /** Summing over two disjoint sets of codes adds up. */
  lemma {:induction false} TotalInUnion(txs: seq<TxRow>, items: seq<ItemRow>, c1: set<string>, c2: set<string>, w: Window)
    requires c1 !! c2
    ensures TotalIn(txs, items, c1 + c2, w) == TotalIn(txs, items, c1, w) + TotalIn(txs, items, c2, w)
    decreases |items|
  {
    if items != [] {
      TotalInUnion(txs, items[..|items| - 1], c1, c2, w);
    }
  }

  /** Summing over codes that cover every item sums the whole window. */
  lemma {:induction false} TotalInCovers(txs: seq<TxRow>, items: seq<ItemRow>, codes: set<string>, w: Window)
    requires forall j :: 0 <= j < |items| ==> items[j].code in codes
    ensures TotalIn(txs, items, codes, w) == WindowTotal(txs, items, w)
    decreases |items|
  {
    if items != [] {
      TotalInCovers(txs, items[..|items| - 1], codes, w);
    }
  }

  /** An account with no postings has balance 0 in every window. */
  lemma {:induction false} UnpostedIsZero(txs: seq<TxRow>, items: seq<ItemRow>, code: string, w: Window)
    requires forall j :: 0 <= j < |items| ==> items[j].code != code
    ensures Balance(txs, items, code, w) == 0
    decreases |items|
  {
    if items != [] {
      UnpostedIsZero(txs, items[..|items| - 1], code, w);
    }
  }

  /** An inclusive range that ends before it starts selects nothing. */
  lemma {:induction false} EmptyRangeIsZero(txs: seq<TxRow>, items: seq<ItemRow>, code: string, first: int, last: int)
    requires last < first
    ensures Balance(txs, items, code, Between(first, last)) == 0
    decreases |items|
  {
    if items != [] {
      EmptyRangeIsZero(txs, items[..|items| - 1], code, first, last);
    }
  }

  /** Adjacent inclusive ranges add up: [d1, d3] is [d1, d2] followed by [d2 + 1, d3]. */
  lemma {:induction false} RangeAdditive(txs: seq<TxRow>, items: seq<ItemRow>, code: string, d1: int, d2: int, d3: int)
    requires d1 <= d2 + 1 && d2 <= d3
    ensures Balance(txs, items, code, Between(d1, d3))
            == Balance(txs, items, code, Between(d1, d2)) + Balance(txs, items, code, Between(d2 + 1, d3))
    decreases |items|
  {
    if items != [] {
      RangeAdditive(txs, items[..|items| - 1], code, d1, d2, d3);
    }
  }

  /** The inclusive range [first, last] is the as-of balance at last less the one the day before first. */
  lemma {:induction false} RangeIsDifference(txs: seq<TxRow>, items: seq<ItemRow>, code: string, first: int, last: int)
    requires first <= last + 1
    ensures Balance(txs, items, code, Between(first, last))
            == Balance(txs, items, code, AsOf(last)) - Balance(txs, items, code, AsOf(first - 1))
    decreases |items|
  {
    if items != [] {
      RangeIsDifference(txs, items[..|items| - 1], code, first, last);
    }
  }
}
