/** The signed-in screens of `src/DashboardPage.jsx`: the tab switch, the
    account list with its search and selection, and the transaction list
    with its date range and "Load more" paging. Balances, amounts and
    their formatting are not part of this model. */
module Dashboard {
  import opened Wrappers
  import opened Text
  import opened Lists

  datatype Account = Account(id: string, accountType: string, last4: string, nickname: string)

  datatype Transaction = Transaction(id: int, date: string, desc: string)

  // Accounts.

  /** The search text as the filter uses it: lower-cased, then trimmed. */
  function SearchKey(query: string): string {
    Trim(ToLower(query))
  }

  /** An account answers a (non-empty) search key when its type or its
      nickname, lower-cased, or its last four digits contain the key. */
  predicate Matches(a: Account, key: string) {
    Contains(ToLower(a.accountType), key) || Contains(ToLower(a.nickname), key) || Contains(a.last4, key)
  }

  /** `filtered` of `DashboardHome`: every account for a blank search;
      otherwise exactly the matching accounts, in their order and with
      their multiplicities. */
  function FilterAccounts(accounts: seq<Account>, query: string): (r: seq<Account>)
    ensures SearchKey(query) == "" ==> r == accounts
    ensures IsSubsequence(r, accounts)
    ensures SearchKey(query) != "" ==>
      forall a :: multiset(r)[a] == if Matches(a, SearchKey(query)) then multiset(accounts)[a] else 0
  {
    var key := SearchKey(query);
    if key == "" then
      assert IsSubsequence(accounts, accounts) by { SubsequenceOfItself(accounts); }
      accounts
    else Keep(accounts, a => Matches(a, key))
  }

  lemma {:induction false} SubsequenceOfItself<T>(s: seq<T>)
    ensures IsSubsequence(s, s)
  {
    if s != [] {
      SubsequenceOfItself(s[1..]);
    }
  }

  /** The search only ever lists accounts of the list. */
  lemma ListedIsAccount(accounts: seq<Account>, query: string, a: Account)
    requires a in FilterAccounts(accounts, query)
    ensures a in accounts
  {
    if SearchKey(query) != "" {
      assert multiset(FilterAccounts(accounts, query))[a] > 0;
    }
  }

  /** `selected`: the account of the full list whose id is `selectedId`,
      even when the search hides it; otherwise the first account the
      search shows; otherwise none. */
  function SelectedAccount(accounts: seq<Account>, filtered: seq<Account>, selectedId: Option<string>): (r: Option<Account>)
    ensures (exists i :: 0 <= i < |accounts| && selectedId == Some(accounts[i].id)) ==>
      exists i :: 0 <= i < |accounts| && r == Some(accounts[i]) && selectedId == Some(accounts[i].id) &&
        forall j :: 0 <= j < i ==> selectedId != Some(accounts[j].id)
    ensures (forall i :: 0 <= i < |accounts| ==> selectedId != Some(accounts[i].id)) ==>
      r == if filtered == [] then None else Some(filtered[0])
  {
    match FindFirst(accounts, (a: Account) => selectedId == Some(a.id))
    case Some(i) => Some(accounts[i])
    case None => if filtered == [] then None else Some(filtered[0])
  }

  // Transactions.

  /** JavaScript's `<` on strings: lexicographic by character code. */
  predicate LexLess(a: string, b: string)
    decreases |a|
  {
    if a == [] then b != []
    else if b == [] then false
    else if a[0] != b[0] then a[0] < b[0]
    else LexLess(a[1..], b[1..])
  }

  lemma {:induction false} LexLessIrreflexive(a: string)
    ensures !LexLess(a, a)
    decreases |a|
  {
    if a != [] {
      LexLessIrreflexive(a[1..]);
    }
  }

  /** Two strings neither of which is less than the other are equal. */
  lemma {:induction false} LexLessTrichotomy(a: string, b: string)
    requires !LexLess(a, b) && !LexLess(b, a)
    ensures a == b
    decreases |a|
  {
    if a != [] && b != [] {
      LexLessTrichotomy(a[1..], b[1..]);
      assert a == [a[0]] + a[1..] && b == [b[0]] + b[1..];
    }
  }

  /** The date filter keeps a transaction unless `from` is set and its date
      is before it, or `to` is set and its date is after it. */
  predicate InRange(t: Transaction, from: string, to: string) {
    && !(from != "" && LexLess(t.date, from))
    && !(to != "" && LexLess(to, t.date))
  }

  /** `filtered` of `TransactionsPage`: exactly the transactions in range,
      in their order and with their multiplicities. */
  function DateFilter(transactions: seq<Transaction>, from: string, to: string): (r: seq<Transaction>)
    ensures IsSubsequence(r, transactions)
    ensures forall i :: 0 <= i < |r| ==> InRange(r[i], from, to)
    ensures forall t :: multiset(r)[t] == if InRange(t, from, to) then multiset(transactions)[t] else 0
  {
    Keep(transactions, t => InRange(t, from, to))
  }

  /** With both bounds empty the list is unfiltered. */
  lemma NoRangeKeepsAll(transactions: seq<Transaction>)
    ensures DateFilter(transactions, "", "") == transactions
  {
    KeepAllKept(transactions, t => InRange(t, "", ""));
  }

  /** Both bounds are inclusive: a range from one day to the same day
      keeps exactly the transactions of that day. */
  lemma OneDayRange(t: Transaction, day: string)
    requires day != ""
    ensures InRange(t, day, day) <==> t.date == day
  {
    if t.date == day {
      LexLessIrreflexive(day);
    }
    if InRange(t, day, day) {
      LexLessTrichotomy(t.date, day);
    }
  }

  /** `filtered.slice(0, visibleCount)`. */
  function Visible(filtered: seq<Transaction>, count: nat): (r: seq<Transaction>)
    ensures |r| == if count < |filtered| then count else |filtered|
    ensures r == filtered[..|r|]
  {
    if count < |filtered| then filtered[..count] else filtered
  }

  /** Raising the count while rows are hidden shows strictly more rows,
      extending those already shown. */
  lemma MoreVisible(filtered: seq<Transaction>, before: nat, after: nat)
    requires before < after && before < |filtered|
    ensures |Visible(filtered, after)| > |Visible(filtered, before)|
    ensures Visible(filtered, before) == Visible(filtered, after)[..|Visible(filtered, before)|]
  {
  }

  /** The "Load more" button is rendered exactly when some filtered
      transaction is not yet visible. */
  function LoadMoreShown(filtered: seq<Transaction>, count: nat): (r: bool)
    ensures r <==> |Visible(filtered, count)| < |filtered|
  {
    count < |filtered|
  }

  class TransactionsPage {
    const transactions: seq<Transaction>
    var visibleCount: nat
    var from: string
    var to: string

    /** The count starts at 3 and only ever grows in steps of 3. */
    ghost predicate Valid()
      reads this
    {
      visibleCount >= 3 && visibleCount % 3 == 0
    }

    constructor (transactions: seq<Transaction>)
      ensures Valid()
      ensures this.transactions == transactions && visibleCount == 3 && from == "" && to == ""
    {
      this.transactions := transactions;
      visibleCount := 3;
      from := "";
      to := "";
    }

    function Filtered(): seq<Transaction>
      reads this
    {
      DateFilter(transactions, from, to)
    }

    function Rows(): seq<Transaction>
      reads this
    {
      Visible(Filtered(), visibleCount)
    }

    predicate ShowsLoadMore()
      reads this
    {
      LoadMoreShown(Filtered(), visibleCount)
    }

    method SetFrom(value: string)
      requires Valid()
      modifies this`from
      ensures Valid() && from == value
    {
      from := value;
    }

    method SetTo(value: string)
      requires Valid()
      modifies this`to
      ensures Valid() && to == value
    {
      to := value;
    }

    /** The "Load more" click, possible only while the button is shown:
        three more rows become visible, or all that remain. */
    method LoadMore()
      requires Valid() && ShowsLoadMore()
      modifies this`visibleCount
      ensures Valid()
      ensures visibleCount == old(visibleCount) + 3
      ensures |Rows()| > |old(Rows())|
      ensures old(Rows()) == Rows()[..|old(Rows())|]
    {
      ghost var filtered := Filtered();
      visibleCount := visibleCount + 3;
      assert Filtered() == filtered;
      MoreVisible(filtered, old(visibleCount), visibleCount);
    }
  }

  /** The home tab. Nothing on the page sets the search text, so it keeps
      its initial empty value. */
  class DashboardHome {
    const accounts: seq<Account>
    var query: string
    var selectedId: Option<string>

    /** The home tab as mounted: no search, and the first account (if any)
        selected. */
    constructor (accounts: seq<Account>)
      ensures this.accounts == accounts && query == ""
      ensures selectedId == if accounts == [] then None else Some(accounts[0].id)
      ensures Selected() == if accounts == [] then None else Some(accounts[0])
      ensures Filtered() == accounts
    {
      this.accounts := accounts;
      query := "";
      selectedId := if accounts == [] then None else Some(accounts[0].id);
      new;
      if accounts != [] {
        assert selectedId == Some(accounts[0].id);
      }
    }

    function Filtered(): seq<Account>
      reads this
    {
      FilterAccounts(accounts, query)
    }

    function Selected(): Option<Account>
      reads this
    {
      SelectedAccount(accounts, Filtered(), selectedId)
    }

    /** A click on a listed account selects the first account with its id,
        which stays selected whatever the search shows later. */
    method Select(a: Account)
      requires a in Filtered()
      modifies this`selectedId
      ensures selectedId == Some(a.id)
      ensures Selected().Some? && Selected().value.id == a.id
    {
      selectedId := Some(a.id);
      ListedIsAccount(accounts, query, a);
      var k :| 0 <= k < |accounts| && accounts[k] == a;
      assert selectedId == Some(accounts[k].id);
    }
  }

  /** The four tabs of the side bar. */
  datatype Tab = DashboardTab | TransactionsTab | FraudTab | SettingsTab

  /** The value `activeTab` holds for each tab. */
  function TabName(t: Tab): (r: string)
    ensures r in {"dashboard", "transactions", "fraud", "settings"}
  {
    match t
    case DashboardTab => "dashboard"
    case TransactionsTab => "transactions"
    case FraudTab => "fraud"
    case SettingsTab => "settings"
  }

  /** Each of the four values names one tab. */
  lemma TabNamesDistinct(a: Tab, b: Tab)
    ensures TabName(a) == TabName(b) ==> a == b
  {
  }

  class DashboardPage {
    var activeTab: Tab

    constructor ()
      ensures activeTab == DashboardTab
    {
      activeTab := DashboardTab;
    }

    /** A click on a side-bar button. */
    method SelectTab(t: Tab)
      modifies this`activeTab
      ensures activeTab == t
    {
      activeTab := t;
    }

    /** `goTransactions` of the home tab. */
    method GoTransactions()
      modifies this`activeTab
      ensures activeTab == TransactionsTab && TabName(activeTab) == "transactions"
    {
      activeTab := TransactionsTab;
    }
  }
}
