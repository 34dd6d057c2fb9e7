// How the transaction routes move an account's balance
// (server/routes/transactions.js), the invariant they are meant to keep
// (each balance is the signed sum of the transactions on that account) and
// the consequence for the virtual `totalBalance` of server/models/User.js.
// The balance reversal of the delete route is modelled twice: as written
// (its account lookup compares a string with an ObjectId and never
// matches) and as intended (compare the two ids).

module Balance {
  import opened Wrappers
  import opened Seqs
  import opened UserSchema

  /** What creating `t` adds to its account: `+=` for income, `-=` for expense, nothing for any other type. */
  function Signed(t: Transaction): int {
    if t.kind == "income" then t.amount
    else if t.kind == "expense" then -t.amount
    else 0
  }

  /** What deleting `t` adds to its account: `-=` for income and `+=` for every other type. */
  function Reversal(t: Transaction): int {
    if t.kind == "income" then -t.amount else t.amount
  }

  /** The signed sum of the transactions recorded against account `a`. */
  function LiveSum(txs: seq<Transaction>, a: Id): int {
    GroupSum(txs, TxOwner, Signed, a)
  }

  /** Every account's balance equals the signed sum of its transactions. */
  ghost predicate Balanced(accounts: seq<Account>, txs: seq<Transaction>) {
    forall i :: 0 <= i < |accounts| ==> accounts[i].balance == LiveSum(txs, accounts[i].id)
  }

  /** Account `i` with `delta` added to its balance; `Math.round(x * 100) / 100` is exact on cents. */
  function Credit(accounts: seq<Account>, i: nat, delta: int): seq<Account>
    requires i < |accounts|
  {
    accounts[i := accounts[i].(balance := accounts[i].balance + delta)]
  }

  /** For a transaction of a type the schema admits, deleting it takes back exactly what creating it added. */
  lemma ReversalUndoesSigned(t: Transaction)
    requires IsTxKind(t.kind)
    ensures Reversal(t) + Signed(t) == 0
  {
  }

  /** Recording `t` against account `i` and crediting `i` with `Signed(t)` keeps every balance in step. */
  lemma CreateKeepsBalanced(accounts: seq<Account>, txs: seq<Transaction>, t: Transaction, i: nat)
    requires Balanced(accounts, txs) && UniqueKeys(accounts, AccountKey)
    requires i < |accounts| && accounts[i].id == t.accountId
    ensures Balanced(Credit(accounts, i, Signed(t)), txs + [t])
  {
    var r := Credit(accounts, i, Signed(t));
    assert (txs + [t])[..|txs + [t]| - 1] == txs;
    forall j | 0 <= j < |r| ensures r[j].balance == LiveSum(txs + [t], r[j].id) {
      if j != i {
        assert accounts[j].id != accounts[i].id;
      }
    }
  }

  /**
   * The intended reversal of transactions.js:110-119: find the account the
   * transaction names and add `Reversal(t)` to it; no account, no change.
   */
  function Unapply(accounts: seq<Account>, t: Transaction): (r: seq<Account>)
    ensures |r| == |accounts|
    ensures forall i :: 0 <= i < |r| ==> r[i].id == accounts[i].id && r[i].name == accounts[i].name && r[i].kind == accounts[i].kind
    ensures TotalBalance(r) == TotalBalance(accounts) + (if t.accountId in KeySet(accounts, AccountKey) then Reversal(t) else 0)
    ensures UniqueKeys(accounts, AccountKey) ==>
      forall k :: 0 <= k < |r| ==> r[k] == accounts[k].(balance := accounts[k].balance + (if accounts[k].id == t.accountId then Reversal(t) else 0))
  {
    match IndexOfKey(accounts, AccountKey, t.accountId)
    case None =>
      assert t.accountId !in KeySet(accounts, AccountKey) by {
        forall x | x in accounts ensures AccountKey(x) != t.accountId {
          var j :| 0 <= j < |accounts| && accounts[j] == x;
        }
      }
      accounts
    case Some(i) =>
      TotalBalanceCredit(accounts, i, Reversal(t));
      Credit(accounts, i, Reversal(t))
  }

  /** Deleting a transaction of a stored type right after it was credited to its account gives the accounts back unchanged. */
  lemma UnapplyUndoesCredit(accounts: seq<Account>, i: nat, t: Transaction)
    requires UniqueKeys(accounts, AccountKey) && i < |accounts| && accounts[i].id == t.accountId && IsTxKind(t.kind)
    ensures Unapply(Credit(accounts, i, Signed(t)), t) == accounts
  {
    var credited := Credit(accounts, i, Signed(t));
    UniqueKeysUpdate(accounts, AccountKey, i, credited[i]);
    ReversalUndoesSigned(t);
    var r := Unapply(credited, t);
    forall k | 0 <= k < |accounts| ensures r[k] == accounts[k] {
      if k != i {
        assert accounts[k].id != accounts[i].id;
      }
    }
  }

  lemma {:induction false} TotalBalanceCredit(accounts: seq<Account>, i: nat, delta: int)
    requires i < |accounts|
    ensures TotalBalance(Credit(accounts, i, delta)) == TotalBalance(accounts) + delta
    decreases |accounts|
  {
    var r := Credit(accounts, i, delta);
    var n := |accounts| - 1;
    if i < n {
      assert r[..n] == Credit(accounts[..n], i, delta);
      TotalBalanceCredit(accounts[..n], i, delta);
    } else {
      assert r[..n] == accounts[..n];
    }
  }

  /**
   * Deleting transaction `j` with the intended reversal keeps the balances in
   * step: the owning account gives back exactly that transaction's share.
   */
  lemma DeleteKeepsBalanced(accounts: seq<Account>, txs: seq<Transaction>, j: nat)
    requires Balanced(accounts, txs) && UniqueKeys(accounts, AccountKey) && UniqueKeys(txs, TxKey)
    requires j < |txs| && IsTxKind(txs[j].kind)
    ensures Balanced(Unapply(accounts, txs[j]), RemoveKeys(txs, TxKey, {txs[j].id}))
  {
    SpliceUniqueIsRemoveKey(txs, TxKey, j);
    var r := Unapply(accounts, txs[j]);
    forall k | 0 <= k < |r| ensures r[k].balance == LiveSum(txs[..j] + txs[j + 1..], r[k].id) {
      DeleteKeepsOne(accounts, txs, j, k);
    }
  }

  lemma DeleteKeepsOne(accounts: seq<Account>, txs: seq<Transaction>, j: nat, k: nat)
    requires Balanced(accounts, txs) && UniqueKeys(accounts, AccountKey)
    requires j < |txs| && IsTxKind(txs[j].kind) && k < |accounts|
    ensures Unapply(accounts, txs[j])[k].balance == LiveSum(txs[..j] + txs[j + 1..], accounts[k].id)
  {
    var t := txs[j];
    GroupSumRemoveAt(txs, j, TxOwner, Signed, accounts[k].id);
    var found := IndexOfKey(accounts, AccountKey, t.accountId);
    if found.Some? && k != found.value {
      assert accounts[k].id != accounts[found.value].id;
    }
  }

  /**
   * Every account with its balance moved by how much the signed sum of its
   * transactions changed from `before` to `after`.
   */
  function Rebalanced(accounts: seq<Account>, before: seq<Transaction>, after: seq<Transaction>): seq<Account> {
    seq(|accounts|, k requires 0 <= k < |accounts| =>
      accounts[k].(balance := accounts[k].balance + LiveSum(after, accounts[k].id) - LiveSum(before, accounts[k].id)))
  }

  /** Rebalancing for no change of transactions changes nothing. */
  lemma RebalancedSame(accounts: seq<Account>, txs: seq<Transaction>)
    ensures Rebalanced(accounts, txs, txs) == accounts
  {
  }

  /** Two rebalancings in a row are one, from the first list to the last. */
  lemma RebalancedTwice(accounts: seq<Account>, t0: seq<Transaction>, t1: seq<Transaction>, t2: seq<Transaction>)
    ensures Rebalanced(Rebalanced(accounts, t0, t1), t1, t2) == Rebalanced(accounts, t0, t2)
  {
  }

  /** Balances in step stay in step under a rebalancing to any new list of transactions. */
  lemma RebalancedKeepsBalanced(accounts: seq<Account>, before: seq<Transaction>, after: seq<Transaction>)
    requires Balanced(accounts, before)
    ensures Balanced(Rebalanced(accounts, before, after), after)
  {
  }

  /**
   * With unique ids, the reversal of a deleted transaction of a stored type
   * is the rebalancing to the list without it: only its own account moves,
   * by minus its signed amount.
   */
  lemma UnapplyRebalances(accounts: seq<Account>, txs: seq<Transaction>, j: nat)
    requires UniqueKeys(accounts, AccountKey) && UniqueKeys(txs, TxKey)
    requires j < |txs| && IsTxKind(txs[j].kind)
    ensures Unapply(accounts, txs[j]) == Rebalanced(accounts, txs, RemoveKeys(txs, TxKey, {txs[j].id}))
  {
    SpliceUniqueIsRemoveKey(txs, TxKey, j);
    var r := Unapply(accounts, txs[j]);
    var q := Rebalanced(accounts, txs, txs[..j] + txs[j + 1..]);
    forall k | 0 <= k < |accounts| ensures r[k] == q[k] {
      UnapplyRebalancesOne(accounts, txs, j, k);
    }
  }

  lemma UnapplyRebalancesOne(accounts: seq<Account>, txs: seq<Transaction>, j: nat, k: nat)
    requires UniqueKeys(accounts, AccountKey) && j < |txs| && IsTxKind(txs[j].kind) && k < |accounts|
    ensures Unapply(accounts, txs[j])[k] == Rebalanced(accounts, txs, txs[..j] + txs[j + 1..])[k]
  {
    ReversalUndoesSigned(txs[j]);
    GroupSumRemoveAt(txs, j, TxOwner, Signed, accounts[k].id);
  }

  /** Splicing an account out leaves the others' balances in step (transactions are not touched). */
  lemma DeleteAccountKeepsBalanced(accounts: seq<Account>, txs: seq<Transaction>, i: nat)
    requires Balanced(accounts, txs) && i < |accounts|
    ensures Balanced(accounts[..i] + accounts[i + 1..], txs)
  {
    var r := accounts[..i] + accounts[i + 1..];
    forall k | 0 <= k < |r| ensures r[k].balance == LiveSum(txs, r[k].id) {
      if k < i { assert r[k] == accounts[k]; } else { assert r[k] == accounts[k + 1]; }
    }
  }

  /** Adding a card or an account with balance 0 and no transactions keeps the balances in step. */
  lemma NewAccountKeepsBalanced(accounts: seq<Account>, txs: seq<Transaction>, a: Account)
    requires Balanced(accounts, txs) && a.balance == 0
    requires forall t :: t in txs ==> t.accountId != a.id
    ensures Balanced(accounts + [a], txs)
  {
    GroupSumAbsent(txs, TxOwner, Signed, a.id);
    var r := accounts + [a];
    forall k | 0 <= k < |r| ensures r[k].balance == LiveSum(txs, r[k].id) {
      if k < |accounts| { assert r[k] == accounts[k]; }
    }
  }

  // ---------------------------------------------------------------------------
  // totalBalance as the signed sum of all transactions
  // ---------------------------------------------------------------------------

  function AccountIds(accounts: seq<Account>): (r: seq<Id>)
    ensures |r| == |accounts| && forall i :: 0 <= i < |r| ==> r[i] == accounts[i].id
  {
    seq(|accounts|, i requires 0 <= i < |accounts| => accounts[i].id)
  }

  lemma {:induction false} SumGroupsSnocKey<T, K>(ks: seq<K>, k: K, xs: seq<T>, key: T -> K, w: T -> int)
    ensures SumGroups(ks + [k], xs, key, w) == SumGroups(ks, xs, key, w) + GroupSum(xs, key, w, k)
    decreases |ks|
  {
    if |ks| == 0 {
      assert (ks + [k])[1..] == [];
    } else {
      assert (ks + [k])[1..] == ks[1..] + [k];
      SumGroupsSnocKey(ks[1..], k, xs, key, w);
    }
  }

  lemma {:induction false} TotalBalanceGroups(accounts: seq<Account>, txs: seq<Transaction>)
    requires Balanced(accounts, txs)
    ensures TotalBalance(accounts) == SumGroups(AccountIds(accounts), txs, TxOwner, Signed)
    decreases |accounts|
  {
    if |accounts| > 0 {
      var n := |accounts| - 1;
      var p := accounts[..n];
      assert Balanced(p, txs) by {
        forall i | 0 <= i < |p| ensures p[i].balance == LiveSum(txs, p[i].id) {
          assert p[i] == accounts[i];
        }
      }
      TotalBalanceGroups(p, txs);
      assert AccountIds(accounts) == AccountIds(p) + [accounts[n].id];
      SumGroupsSnocKey(AccountIds(p), accounts[n].id, txs, TxOwner, Signed);
    }
  }

  /**
   * When the balances are in step, account ids are unique and every
   * transaction names an existing account, `totalBalance` is the signed sum
   * of all transactions: each one is counted in exactly one account.
   */
  lemma TotalBalanceIsSignedTotal(accounts: seq<Account>, txs: seq<Transaction>)
    requires Balanced(accounts, txs) && UniqueKeys(accounts, AccountKey)
    requires forall t :: t in txs ==> t.accountId in KeySet(accounts, AccountKey)
    ensures TotalBalance(accounts) == Total(txs, Signed)
  {
    var ks := AccountIds(accounts);
    TotalBalanceGroups(accounts, txs);
    assert Distinct(ks) by {
      forall i, j | 0 <= i < j < |ks| ensures ks[i] != ks[j] {
        assert accounts[i].id != accounts[j].id;
      }
    }
    forall t | t in txs ensures TxOwner(t) in ks {
      var x :| x in accounts && AccountKey(x) == t.accountId;
      var i :| 0 <= i < |accounts| && accounts[i] == x;
      assert ks[i] == t.accountId;
    }
    PartitionTotal(ks, txs, TxOwner, Signed);
  }

  // ---------------------------------------------------------------------------
  // The reversal as written (transactions.js:111)
  // ---------------------------------------------------------------------------

  /**
   * The two kinds of value the comparison at transactions.js:111 meets: the
   * string `acc._id.toString()` and the ObjectId the schema stores in
   * `transaction.accountId`.
   */
  datatype JsValue = JsString(text: string) | JsObjectId(hex: string)

  /** `===`: values of different types are never equal; an object equals only itself, which two distinct casts never are. */
  predicate StrictEquals(a: JsValue, b: JsValue) {
    a.JsString? && b.JsString? && a.text == b.text
  }

  /** transactions.js:110-119 as written: `find(acc => acc._id.toString() === transaction.accountId)`. */
  function UnapplyAsWritten(accounts: seq<Account>, t: Transaction): seq<Account> {
    match IndexWhere(accounts, (acc: Account) => StrictEquals(JsString(acc.id), JsObjectId(t.accountId)))
    case None => accounts
    case Some(i) => Credit(accounts, i, Reversal(t))
  }

  /** As written, deleting a transaction never changes any balance. */
  lemma {:induction false} UnapplyAsWrittenIsIdentity(accounts: seq<Account>, t: Transaction)
    ensures UnapplyAsWritten(accounts, t) == accounts
  {
    var r := IndexWhere(accounts, (acc: Account) => StrictEquals(JsString(acc.id), JsObjectId(t.accountId)));
    if r.Some? {
      assert false;
    }
  }

  /**
   * Counterexample: an account credited with an income of 100.00 and then
   * the income deleted keeps 100.00 as written, although no transaction
   * remains; the intended reversal brings it back to 0.
   */
  lemma AsWrittenLosesBalance()
    ensures var a := Account("a1", "Main", "checking", 10000);
      var t := Transaction("t1", "income", 10000, "Salary", "", "a1", 0);
      Balanced([a], [t])
      && UnapplyAsWritten([a], t) == [a]
      && !Balanced(UnapplyAsWritten([a], t), RemoveKeys([t], TxKey, {"t1"}))
      && Balanced(Unapply([a], t), RemoveKeys([t], TxKey, {"t1"}))
  {
    var a := Account("a1", "Main", "checking", 10000);
    var t := Transaction("t1", "income", 10000, "Salary", "", "a1", 0);
    assert [t][..0] == [];
    assert TxOwner(t) == "a1" && Signed(t) == 10000;
    assert LiveSum([t], "a1") == LiveSum([], "a1") + 10000;
    UnapplyAsWrittenIsIdentity([a], t);
    assert RemoveKeys([t], TxKey, {"t1"}) == [] by {
      assert [t][..0] == [];
    }
    assert LiveSum([], "a1") == 0;
    assert IndexOfKey([a], AccountKey, "a1") == Some(0);
    assert Unapply([a], t)[0].balance == 0;
  }
}
