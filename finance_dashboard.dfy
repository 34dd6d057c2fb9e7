// The bookkeeping of client/src/components/FinanceDashboard.jsx: the
// per-account statistics, the optimistic state updaters run after a
// transaction is created, and the account-delete cascade the client drives
// through the API. The signed-in user's stored document is the `server`
// field of the dashboard; a `fetch` to a route is the route's function from
// the Ledger module applied to it, and `fetchData` copies its lists back.

module FinanceDashboard {
  import opened Wrappers
  import opened Seqs
  import opened UserSchema
  import opened Balance
  import opened Ledger

  // ---------------------------------------------------------------------------
  // calculateAccountStats (FinanceDashboard.jsx:236-254)
  // ---------------------------------------------------------------------------

  datatype Stats = Stats(totalIncome: int, totalExpenses: int, balance: int)

  function TxKind(t: Transaction): string { t.kind }
  function TxAmount(t: Transaction): int { t.amount }

  /** The sum of the amounts of the transactions of type `kind`. */
  function KindTotal(txs: seq<Transaction>, kind: string): int {
    GroupSum(txs, TxKind, TxAmount, kind)
  }

  /** The statistics of one account, or of every transaction when no account is selected. */
  function AccountStats(txs: seq<Transaction>, accountId: Option<Id>): Stats {
    var selected := OfSelection(txs, TxOwner, accountId);
    var income := KindTotal(selected, "income");
    var expenses := KindTotal(selected, "expense");
    Stats(income, expenses, income - expenses)
  }

  /** Income minus expenses is the signed sum the server keeps (other types count in neither). */
  lemma {:induction false} SignedIsIncomeMinusExpenses(txs: seq<Transaction>)
    ensures Total(txs, Signed) == KindTotal(txs, "income") - KindTotal(txs, "expense")
    decreases |txs|
  {
    if |txs| > 0 {
      SignedIsIncomeMinusExpenses(txs[..|txs| - 1]);
    }
  }

  /** Summing over the account's own transactions is summing its group. */
  lemma {:induction false} OwnedTotal(txs: seq<Transaction>, a: Id)
    ensures Total(OwnedBy(txs, TxOwner, a), Signed) == LiveSum(txs, a)
    decreases |txs|
  {
    if |txs| > 0 {
      var p := txs[..|txs| - 1];
      var last := txs[|txs| - 1];
      OwnedTotal(p, a);
      var o := OwnedBy(p, TxOwner, a);
      if TxOwner(last) == a {
        assert OwnedBy(txs, TxOwner, a) == o + [last];
        assert (o + [last])[..|o + [last]| - 1] == o;
      } else {
        assert OwnedBy(txs, TxOwner, a) == o;
      }
    }
  }

  /** The balance shown for one account is the signed sum of its transactions. */
  lemma StatsBalanceIsLiveSum(txs: seq<Transaction>, a: Id)
    ensures AccountStats(txs, Some(a)).balance == LiveSum(txs, a)
    ensures AccountStats(txs, None).balance == Total(txs, Signed)
  {
    SignedIsIncomeMinusExpenses(OwnedBy(txs, TxOwner, a));
    OwnedTotal(txs, a);
    SignedIsIncomeMinusExpenses(txs);
  }

  /**
   * On a document whose balances are in step, the dashboard's balance for an
   * account is the balance the server stores for it, and with no account
   * selected it is the document's `totalBalance`.
   */
  lemma StatsAgreeWithServer(d: Doc, i: nat)
    requires InStep(d) && Valid(d) && i < |d.accounts|
    requires forall t :: t in d.transactions ==> t.accountId in KeySet(d.accounts, AccountKey)
    ensures AccountStats(d.transactions, Some(d.accounts[i].id)).balance == d.accounts[i].balance
    ensures AccountStats(d.transactions, None).balance == TotalBalance(d.accounts)
  {
    StatsBalanceIsLiveSum(d.transactions, d.accounts[i].id);
    TotalBalanceIsSignedTotal(d.accounts, d.transactions);
  }

  /** A transaction with a type other than income or expense moves no figure. */
  lemma OtherKindsIgnored(txs: seq<Transaction>, t: Transaction, accountId: Option<Id>)
    requires !IsTxKind(t.kind)
    ensures AccountStats(txs + [t], accountId) == AccountStats(txs, accountId)
  {
    var r := txs + [t];
    var sel := OfSelection(txs, TxOwner, accountId);
    assert OfSelection(r, TxOwner, accountId) == sel || OfSelection(r, TxOwner, accountId) == sel + [t] by {
      assert r[..|r| - 1] == txs;
    }
    GroupSumSnoc(sel, t, TxKind, TxAmount, "income");
    GroupSumSnoc(sel, t, TxKind, TxAmount, "expense");
  }

  // ---------------------------------------------------------------------------
  // handleAddTransaction's updaters (FinanceDashboard.jsx:76-93)
  // ---------------------------------------------------------------------------

  /** `type === 'income' ? amount : -amount`: every other type counts as an expense here. */
  function ClientDelta(t: Transaction): int {
    if t.kind == "income" then t.amount else -t.amount
  }

  /** `prev.map(...)`: the account the transaction names moves by the client's delta. */
  function AddedAccounts(prev: seq<Account>, t: Transaction): (r: seq<Account>) {
    seq(|prev|, k requires 0 <= k < |prev| =>
      if prev[k].id == t.accountId then prev[k].(balance := prev[k].balance + ClientDelta(t)) else prev[k])
  }

  /**
   * The updater touches only the accounts with the transaction's id, keeps
   * their order, and moves the balance by the amount: up for income, down
   * otherwise.
   */
  lemma AddedAccountsChanges(prev: seq<Account>, t: Transaction)
    ensures var r := AddedAccounts(prev, t);
      |r| == |prev|
      && forall k :: 0 <= k < |prev| ==>
           r[k].id == prev[k].id && r[k].name == prev[k].name && r[k].kind == prev[k].kind
           && r[k].balance == prev[k].balance + (if prev[k].id != t.accountId then 0
                                                 else if t.kind == "income" then t.amount else -t.amount)
  {
  }

  /**
   * When the client's accounts are the stored ones, the optimistic update
   * on the transaction the server echoes is exactly the server's new list of
   * accounts.
   */
  lemma OptimisticMatchesServer(d: Doc, f: TxFields, newId: Id, now: Millis)
    requires UniqueKeys(d.accounts, AccountKey) && f.amount.Some?
    requires PostTransaction(d, Single(f), newId, now).reply.status == 201
    ensures var o := PostTransaction(d, Single(f), newId, now);
      o.reply.body.OneTransaction? && AddedAccounts(d.accounts, o.reply.body.transaction) == o.doc.accounts
  {
    var o := PostTransaction(d, Single(f), newId, now);
    var i := IndexOfKey(d.accounts, AccountKey, f.accountId).value;
    var t := PostedTransaction(f, newId, now);
    var candidate := Doc(Credit(d.accounts, i, Signed(t)), d.cards, d.transactions + [t]);
    assert o.doc == candidate && o.reply.body.OneTransaction? && o.reply.body.transaction.kind == t.kind
      && o.reply.body.transaction.amount == t.amount && o.reply.body.transaction.accountId == f.accountId;
    assert IsTxKind(t.kind) by {
      DocumentErrorsEmpty(candidate.accounts, candidate.cards, candidate.transactions);
      assert candidate.transactions[|d.transactions|] == t;
    }
    var sent := o.reply.body.transaction;
    assert ClientDelta(sent) == Signed(t);
    var r := AddedAccounts(d.accounts, sent);
    forall k | 0 <= k < |d.accounts| ensures r[k] == o.doc.accounts[k] {
      if k != i {
        assert AccountKey(d.accounts[k]) != AccountKey(d.accounts[i]);
      }
    }
  }

  // ---------------------------------------------------------------------------
  // The dashboard's state and the delete cascade (FinanceDashboard.jsx:128-168)
  // ---------------------------------------------------------------------------

  /** The component's state hooks, and the stored document the API routes read and write. */
  datatype Screen = Screen(activeAccount: Option<Id>, accounts: seq<Account>, cards: seq<Card>,
                           transactions: seq<Transaction>, server: Doc)

  /**
   * What `handleDeleteAccount` leaves behind: the cards and transactions the
   * client listed for the account are gone from the store, and so is the
   * account; every other account keeps its id, name and type, and its
   * balance gives back the signed amounts of its deleted transactions. When
   * the store knew the account, the lists are reloaded and a selection of it
   * is dropped, and otherwise the screen is as it was.
   */
  ghost predicate DeletedAccount(s: Screen, accountId: Id, r: Screen) {
    && Valid(r.server)
    && (InStep(s.server) ==> InStep(r.server))
    && r.server.cards == RemoveKeys(s.server.cards, CardKey, KeySet(OwnedBy(s.cards, CardOwner, accountId), CardKey))
    && r.server.transactions
      == RemoveKeys(s.server.transactions, TxKey, KeySet(OwnedBy(s.transactions, TxOwner, accountId), TxKey))
    && r.server.accounts
      == RemoveKeys(Rebalanced(s.server.accounts, s.server.transactions, r.server.transactions), AccountKey, {accountId})
    && KeySet(r.server.accounts, AccountKey) == KeySet(s.server.accounts, AccountKey) - {accountId}
    && (accountId in KeySet(s.server.accounts, AccountKey) ==>
      (r.activeAccount == (if s.activeAccount == Some(accountId) then None else s.activeAccount)
       && r.accounts == r.server.accounts && r.cards == r.server.cards && r.transactions == r.server.transactions))
    && (accountId !in KeySet(s.server.accounts, AccountKey) ==>
      (r.activeAccount == s.activeAccount && r.accounts == s.accounts && r.cards == s.cards
       && r.transactions == s.transactions))
  }

  class Dashboard {
    var screen: Screen

    constructor (stored: Doc)
      ensures screen == Screen(None, [], [], [], stored)
    {
      screen := Screen(None, [], [], [], stored);
    }

    /** `fetchData` when every request succeeds: the three lists become the stored ones. */
    method Refresh()
      modifies this
      ensures screen.accounts == screen.server.accounts && screen.cards == screen.server.cards
      ensures screen.transactions == screen.server.transactions
      ensures screen.server == old(screen.server) && screen.activeAccount == old(screen.activeAccount)
    {
      screen := screen.(accounts := screen.server.accounts, cards := screen.server.cards,
                        transactions := screen.server.transactions);
    }

    /**
     * `handleDeleteAccount` (FinanceDashboard.jsx:128-168): every card the
     * client lists for the account, then every transaction, then the account
     * itself; the answers to the first two rounds are not looked at.
     */
    method DeleteAccount(accountId: Id)
      requires Valid(screen.server)
      modifies this
      ensures DeletedAccount(old(screen), accountId, screen)
    {
      var e, known := DeleteAccountCascade(screen.server, OwnedBy(screen.cards, CardOwner, accountId),
                                           OwnedBy(screen.transactions, TxOwner, accountId), accountId);
      screen := screen.(server := e);
      if !known {
        return;
      }
      Refresh();
      if screen.activeAccount == Some(accountId) {
        screen := screen.(activeAccount := None);
      }
    }

    /**
     * `handleAddAccount` (FinanceDashboard.jsx:102-126): the request carries
     * the name, the type and a balance of 0, which the route does not read; it
     * opens every account at 0 itself. On a 201 the dashboard reloads.
     */
    method AddAccount(name: string, kind: string, newId: Id)
      requires Valid(screen.server) && FreshId(screen.server, newId)
      modifies this
      ensures Valid(screen.server) && (InStep(old(screen.server)) ==> InStep(screen.server))
      ensures var o := PostAccount(old(screen.server), name, kind, newId);
        var before := old(screen.server).accounts;
        screen.server == o.doc
        && (o.reply.status == 201 ==>
              && screen.server.accounts == before + [screen.server.accounts[|before|]]
              && screen.server.accounts[|before|].id == newId
              && screen.server.accounts[|before|].balance == 0
              && screen.accounts == screen.server.accounts && screen.cards == screen.server.cards
              && screen.transactions == screen.server.transactions)
        && (o.reply.status != 201 ==> screen == old(screen))
      ensures screen.activeAccount == old(screen.activeAccount)
    {
      PostAccountAccepted(screen.server, name, kind, newId);
      PostAccountKeepsValid(screen.server, name, kind, newId);
      var o := PostAccount(screen.server, name, kind, newId);
      if o.reply.status != 201 {
        return;
      }
      assert o.doc.accounts == screen.server.accounts + [o.doc.accounts[|screen.server.accounts|]];
      screen := screen.(server := o.doc);
      Refresh();
    }
  }

  /**
   * The three rounds of requests of `handleDeleteAccount` against the stored
   * document; `known` is whether the final account delete answered 200.
   */
  method DeleteAccountCascade(d: Doc, accountCards: seq<Card>, accountTransactions: seq<Transaction>, accountId: Id)
    returns (e: Doc, known: bool)
    requires Valid(d)
    ensures Valid(e) && (InStep(d) ==> InStep(e))
    ensures e.cards == RemoveKeys(d.cards, CardKey, KeySet(accountCards, CardKey))
    ensures e.transactions == RemoveKeys(d.transactions, TxKey, KeySet(accountTransactions, TxKey))
    ensures known <==> accountId in KeySet(d.accounts, AccountKey)
    ensures e.accounts == RemoveKeys(Rebalanced(d.accounts, d.transactions, e.transactions), AccountKey, {accountId})
    ensures KeySet(e.accounts, AccountKey) == KeySet(d.accounts, AccountKey) - {accountId}
  {
    var afterCards := DeleteCardsOf(d, accountCards);
    var afterTransactions := DeleteTransactionsOf(afterCards, accountTransactions);
    var o := Ledger.DeleteAccount(afterTransactions, accountId);
    assert Valid(o.doc) && (InStep(d) ==> InStep(o.doc))
      && o.doc.cards == afterTransactions.cards && o.doc.transactions == afterTransactions.transactions
      && (o.reply.status == 200 <==> accountId in KeySet(d.accounts, AccountKey))
      && o.doc.accounts == RemoveKeys(afterTransactions.accounts, AccountKey, {accountId})
      && KeySet(o.doc.accounts, AccountKey) == KeySet(d.accounts, AccountKey) - {accountId} by {
      DeleteAccountSteps(afterTransactions, accountId);
    }
    known := o.reply.status == 200;
    e := o.doc;
  }

  /** `Promise.all(accountCards.map(card => fetch(DELETE /api/cards/:id)))`, one request after another. */
  method DeleteCardsOf(d: Doc, accountCards: seq<Card>) returns (e: Doc)
    requires Valid(d)
    ensures Valid(e) && (InStep(d) ==> InStep(e))
    ensures e.cards == RemoveKeys(d.cards, CardKey, KeySet(accountCards, CardKey))
    ensures e.accounts == d.accounts && e.transactions == d.transactions
  {
    RemoveNoKeys(d.cards, CardKey);
    assert KeySet(accountCards[..0], CardKey) == {};
    e := d;
    var i := 0;
    while i < |accountCards|
      invariant 0 <= i <= |accountCards|
      invariant Valid(e) && (InStep(d) ==> InStep(e))
      invariant e.cards == RemoveKeys(d.cards, CardKey, KeySet(accountCards[..i], CardKey))
      invariant e.accounts == d.accounts && e.transactions == d.transactions
    {
      var id := accountCards[i].id;
      DeleteCardSteps(e, id);
      e := Ledger.DeleteCard(e, id).doc;
      KeySetSnoc(accountCards, CardKey, i);
      RemoveKeysTwice(d.cards, CardKey, KeySet(accountCards[..i], CardKey), {id});
      i := i + 1;
    }
    assert accountCards[..i] == accountCards;
  }

  /** The same for the account's transactions; each delete also reverses its amount on the account. */
  method DeleteTransactionsOf(d: Doc, accountTransactions: seq<Transaction>) returns (e: Doc)
    requires Valid(d)
    ensures Valid(e) && (InStep(d) ==> InStep(e))
    ensures e.transactions == RemoveKeys(d.transactions, TxKey, KeySet(accountTransactions, TxKey))
    ensures e.accounts == Rebalanced(d.accounts, d.transactions, e.transactions)
    ensures e.cards == d.cards && KeySet(e.accounts, AccountKey) == KeySet(d.accounts, AccountKey)
  {
    RemoveNoKeys(d.transactions, TxKey);
    assert KeySet(accountTransactions[..0], TxKey) == {};
    RebalancedSame(d.accounts, d.transactions);
    e := d;
    var j := 0;
    while j < |accountTransactions|
      invariant 0 <= j <= |accountTransactions|
      invariant Valid(e) && (InStep(d) ==> InStep(e))
      invariant e.transactions == RemoveKeys(d.transactions, TxKey, KeySet(accountTransactions[..j], TxKey))
      invariant e.accounts == Rebalanced(d.accounts, d.transactions, e.transactions)
      invariant e.cards == d.cards && KeySet(e.accounts, AccountKey) == KeySet(d.accounts, AccountKey)
    {
      var id := accountTransactions[j].id;
      DeleteTransactionSteps(e, id);
      RebalancedTwice(d.accounts, d.transactions, e.transactions, Ledger.DeleteTransaction(e, id).doc.transactions);
      e := Ledger.DeleteTransaction(e, id).doc;
      KeySetSnoc(accountTransactions, TxKey, j);
      RemoveKeysTwice(d.transactions, TxKey, KeySet(accountTransactions[..j], TxKey), {id});
      j := j + 1;
    }
    assert accountTransactions[..j] == accountTransactions;
  }

  /** The key set of a prefix grows by one key per element. */
  lemma KeySetSnoc<T(!new)>(xs: seq<T>, keyOf: T -> Id, i: nat)
    requires i < |xs|
    ensures KeySet(xs[..i + 1], keyOf) == KeySet(xs[..i], keyOf) + {keyOf(xs[i])}
  {
    assert xs[..i + 1] == xs[..i] + [xs[i]];
    assert forall x :: x in xs[..i + 1] <==> x in xs[..i] || x == xs[i];
  }

  /** What one card delete does to a valid document. */
  lemma DeleteCardSteps(d: Doc, id: Id)
    requires Valid(d)
    ensures var e := Ledger.DeleteCard(d, id).doc;
      Valid(e) && (InStep(d) ==> InStep(e))
      && e.cards == RemoveKeys(d.cards, CardKey, {id}) && e.accounts == d.accounts && e.transactions == d.transactions
  {
    DeleteCardReplies(d, id);
    if id !in KeySet(d.cards, CardKey) {
      NoKeyRemoveNothing(d.cards, CardKey, id);
    }
  }

  /** What one transaction delete does to a valid document: its accounts are rebalanced and keep their ids. */
  lemma DeleteTransactionSteps(d: Doc, id: Id)
    requires Valid(d)
    ensures var e := Ledger.DeleteTransaction(d, id).doc;
      Valid(e) && (InStep(d) ==> InStep(e))
      && e.transactions == RemoveKeys(d.transactions, TxKey, {id}) && e.cards == d.cards
      && e.accounts == Rebalanced(d.accounts, d.transactions, e.transactions)
      && KeySet(e.accounts, AccountKey) == KeySet(d.accounts, AccountKey)
  {
    DeleteTransactionKeepsValid(d, id);
    DeleteTransactionRebalances(d, id);
    if id !in KeySet(d.transactions, TxKey) {
      DeleteTransactionReplies(d, id);
      NoKeyRemoveNothing(d.transactions, TxKey, id);
    } else {
      DeleteTransactionReplies(d, id);
      DeleteTransactionStored(d, id);
    }
    var e := Ledger.DeleteTransaction(d, id).doc;
    SameIds(d.accounts, e.accounts);
  }

  /** What the account delete does to a valid document. */
  lemma DeleteAccountSteps(d: Doc, id: Id)
    requires Valid(d)
    ensures var o := Ledger.DeleteAccount(d, id);
      Valid(o.doc) && (InStep(d) ==> InStep(o.doc))
      && o.doc.cards == d.cards && o.doc.transactions == d.transactions
      && (o.reply.status == 200 <==> id in KeySet(d.accounts, AccountKey))
      && o.doc.accounts == RemoveKeys(d.accounts, AccountKey, {id})
      && KeySet(o.doc.accounts, AccountKey) == KeySet(d.accounts, AccountKey) - {id}
  {
    var o := Ledger.DeleteAccount(d, id);
    var present := id in KeySet(d.accounts, AccountKey);
    assert Valid(o.doc) && (InStep(d) ==> InStep(o.doc))
      && (o.reply.status == 200 <==> present)
      && (present ==> o.doc == Doc(RemoveKeys(d.accounts, AccountKey, {id}), d.cards, d.transactions))
      && (!present ==> o.doc == d) by {
      DeleteAccountReplies(d, id);
    }
    if present {
      RemoveOneKeySet(d.accounts, AccountKey, id);
    } else {
      NoKeyRemoveNothing(d.accounts, AccountKey, id);
    }
  }

  /** Removing one key takes exactly that key out of the key set. */
  lemma RemoveOneKeySet<T(!new)>(xs: seq<T>, keyOf: T -> Id, k: Id)
    ensures KeySet(RemoveKeys(xs, keyOf, {k}), keyOf) == KeySet(xs, keyOf) - {k}
  {
    var r := RemoveKeys(xs, keyOf, {k});
    forall j | j in KeySet(xs, keyOf) && j != k ensures j in KeySet(r, keyOf) {
      var x :| x in xs && keyOf(x) == j;
      assert x in r;
    }
  }

  lemma NoKeyRemoveNothing<T(!new)>(xs: seq<T>, keyOf: T -> Id, k: Id)
    requires k !in KeySet(xs, keyOf)
    ensures RemoveKeys(xs, keyOf, {k}) == xs
  {
    forall j | 0 <= j < |xs| ensures keyOf(xs[j]) != k {
      assert xs[j] in xs;
    }
    RemoveAbsentKey(xs, keyOf, k);
  }

  /** Lists with the same ids position by position have the same key set. */
  lemma SameIds(xs: seq<Account>, ys: seq<Account>)
    requires |xs| == |ys| && forall i :: 0 <= i < |xs| ==> ys[i].id == xs[i].id
    ensures KeySet(ys, AccountKey) == KeySet(xs, AccountKey)
  {
    forall k ensures k in KeySet(ys, AccountKey) <==> k in KeySet(xs, AccountKey) {
      if k in KeySet(ys, AccountKey) {
        var y :| y in ys && AccountKey(y) == k;
        var i :| 0 <= i < |ys| && ys[i] == y;
        assert xs[i] in xs;
      }
      if k in KeySet(xs, AccountKey) {
        var x :| x in xs && AccountKey(x) == k;
        var i :| 0 <= i < |xs| && xs[i] == x;
        assert ys[i] in ys;
      }
    }
  }

  /**
   * When the client's lists are the stored ones, the cascade deletes exactly
   * the account's cards and transactions: nothing of another account goes.
   */
  lemma CascadeOnFreshLists(d: Doc, a: Id)
    requires Valid(d)
    ensures RemoveKeys(d.cards, CardKey, KeySet(OwnedBy(d.cards, CardOwner, a), CardKey)) == NotOwnedBy(d.cards, CardOwner, a)
    ensures RemoveKeys(d.transactions, TxKey, KeySet(OwnedBy(d.transactions, TxOwner, a), TxKey))
            == NotOwnedBy(d.transactions, TxOwner, a)
  {
    RemoveOwnedKeys(d.cards, CardKey, CardOwner, a);
    RemoveOwnedKeys(d.transactions, TxKey, TxOwner, a);
  }
}
