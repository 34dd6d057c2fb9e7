// The per-user ledger behind server/routes/transactions.js,
// server/routes/accounts.js and server/routes/cards.js: one User document
// with its three embedded arrays, changed in place by the route handlers
// and committed by `save`, which validates the whole document and commits
// nothing when validation fails.
//
// Each route is first stated as a function from the stored document to an
// `Outcome` (the reply and the document as stored afterwards); the class
// `UserDoc` then performs the same steps in place and is proved to agree.

module Ledger {
  import opened Wrappers
  import opened Seqs
  import opened Text
  import opened UserSchema
  import opened Balance

  /** The fields a transaction body may carry; `amount` is `parseFloat(amount)` (None for NaN). */
  datatype TxFields = TxFields(
    kind: string, amount: Option<Cents>, category: string,
    description: string, accountId: string, date: Option<Millis>)

  /** A request body is one object or an array of them. */
  datatype TxBody = Single(fields: TxFields) | Batch(items: seq<TxFields>)

  /** transactions.js:30-32: an array body contributes its first element; an empty one contributes nothing. */
  function Picked(body: TxBody): (r: Option<TxFields>)
    ensures body.Single? ==> r == Some(body.fields)
    ensures body.Batch? ==> (r.None? <==> |body.items| == 0)
    ensures body.Batch? && r.Some? ==> r.value == body.items[0]
  {
    match body
    case Single(f) => Some(f)
    case Batch(items) => if |items| == 0 then None else Some(items[0])
  }

  datatype Body =
    | Failure(error: string)
    /** A mongoose ValidationError; the route sends its message, which lists these. */
    | Invalid(messages: seq<string>)
    | Done(message: string)
    | AccountList(accounts: seq<Account>)
    | OneAccount(account: Account)
    | CardList(cards: seq<Card>)
    | TransactionList(transactions: seq<Transaction>)
    | OneTransaction(transaction: Transaction)

  datatype Reply = Reply(status: int, body: Body)

  /** The TypeError of destructuring `undefined` (transactions.js:34 after an empty array body). */
  const DestructureError := "Cannot destructure property 'type' of 'transactionData' as it is undefined."

  /** The TypeError of `undefined.toLowerCase()` (cards.js:51 without a type). */
  const LowerCaseError := "Cannot read properties of undefined (reading 'toLowerCase')"

  // ---------------------------------------------------------------------------
  // The stored document and `save`
  // ---------------------------------------------------------------------------

  /** The embedded arrays of one stored User document. */
  datatype Doc = Doc(accounts: seq<Account>, cards: seq<Card>, transactions: seq<Transaction>)

  /** The document as `save` leaves it. */
  ghost predicate Valid(d: Doc) {
    ValidDocument(d.accounts, d.cards, d.transactions)
  }

  /** Every balance is the signed sum of the live transactions on its account. */
  ghost predicate InStep(d: Doc) {
    Balanced(d.accounts, d.transactions)
  }

  /** A newly generated ObjectId: distinct from every id the document holds or refers to. */
  predicate FreshId(d: Doc, id: Id) {
    id !in KeySet(d.accounts, AccountKey) && id !in KeySet(d.cards, CardKey) && id !in KeySet(d.transactions, TxKey)
    && id !in KeySet(d.cards, CardOwner) && id !in KeySet(d.transactions, TxOwner)
  }

  /** What one request does: the reply sent and the document as stored afterwards. */
  datatype Outcome = Outcome(reply: Reply, doc: Doc)

  /**
   * `await user.save()` on the changed document `candidate`: it is stored
   * and `ok` is sent when validation passes; otherwise the ValidationError
   * reaches the route's catch, which answers `failStatus`, and the stored
   * document `d` stays as it was.
   */
  function Save(d: Doc, candidate: Doc, ok: Reply, failStatus: int): (o: Outcome)
    ensures o.doc == candidate || o.doc == d
  {
    var errors := DocumentErrors(candidate.accounts, candidate.cards, candidate.transactions);
    if errors == [] then Outcome(ok, candidate) else Outcome(Reply(failStatus, Invalid(errors)), d)
  }

  // ---------------------------------------------------------------------------
  // transactions.js
  // ---------------------------------------------------------------------------

  /** POST /api/transactions (transactions.js:24-95), once the body is destructured and the user found. */
  function PostTransaction(d: Doc, body: TxBody, newId: Id, now: Millis): Outcome {
    match Picked(body)
    case None => Outcome(Reply(400, Failure(DestructureError)), d)
    case Some(f) =>
      match IndexOfKey(d.accounts, AccountKey, f.accountId)
      case None => Outcome(Reply(404, Failure("Account not found")), d)
      case Some(i) =>
        match f.amount
        case None => Outcome(Reply(400, Failure("Invalid amount")), d)
        case Some(amount) =>
          var date := f.date.GetOr(now);
          var t := CastTransaction(newId, f.kind, amount, f.category, f.description, f.accountId, date);
          var sent := Transaction(newId, f.kind, amount, f.category, f.description, f.accountId, date);
          Save(d, Doc(Credit(d.accounts, i, Signed(t)), d.cards, d.transactions + [t]), Reply(201, OneTransaction(sent)), 400)
  }

  /** The stored transaction a successful POST appends. */
  function PostedTransaction(f: TxFields, newId: Id, now: Millis): Transaction
    requires f.amount.Some?
  {
    CastTransaction(newId, f.kind, f.amount.value, f.category, f.description, f.accountId, f.date.GetOr(now))
  }

  /** The early answers of the route, in the order the handler checks them; any failure stores nothing. */
  lemma PostTransactionReplies(d: Doc, body: TxBody, newId: Id, now: Millis)
    ensures var o := PostTransaction(d, body, newId, now);
      && (o.reply.status == 201 || o.reply.status == 400 || o.reply.status == 404)
      && (o.reply.status != 201 ==> o.doc == d)
      && (Picked(body).None? ==> o.reply == Reply(400, Failure(DestructureError)))
      && (Picked(body).Some? && Picked(body).value.accountId !in KeySet(d.accounts, AccountKey)
          ==> o.reply == Reply(404, Failure("Account not found")))
      && ((Picked(body).Some? && Picked(body).value.accountId in KeySet(d.accounts, AccountKey)
           && Picked(body).value.amount.None?) ==> o.reply == Reply(400, Failure("Invalid amount")))
  {
    var p := Picked(body);
    if p.Some? {
      var found := IndexOfKey(d.accounts, AccountKey, p.value.accountId);
      if found.None? {
        KeyAbsent(d.accounts, AccountKey, p.value.accountId);
      } else {
        KeyPresent(d.accounts, AccountKey, found.value);
      }
    }
  }

  /**
   * On a valid document, a transaction on a known account with a numeric
   * amount is stored exactly when its type is `income` or `expense`, its
   * category is not blank and its account id is not empty; the reply
   * echoes the fields as sent.
   */
  lemma PostTransactionAccepted(d: Doc, f: TxFields, newId: Id, now: Millis)
    requires Valid(d) && f.accountId in KeySet(d.accounts, AccountKey) && f.amount.Some?
    ensures var o := PostTransaction(d, Single(f), newId, now);
      && (o.reply.status == 201 <==> IsTxKind(f.kind) && !AllWhite(f.category) && f.accountId != "")
      && (o.reply.status == 201 ==>
            o.reply.body == OneTransaction(Transaction(newId, f.kind, f.amount.value, f.category, f.description,
                                                       f.accountId, f.date.GetOr(now))))
  {
    var found := IndexOfKey(d.accounts, AccountKey, f.accountId);
    KeyFound(d.accounts, AccountKey, f.accountId);
    var t := PostedTransaction(f, newId, now);
    CastTransactionValid(newId, f.kind, f.amount.value, f.category, f.description, f.accountId, f.date.GetOr(now));
    AddTransactionAdmitted(d.accounts, d.cards, d.transactions, found.value, t);
  }

  /**
   * A stored POST appends the cast transaction and moves the balance of its
   * account, and of no other account, by the signed amount; the total
   * balance moves by the same amount.
   */
  lemma PostTransactionRecords(d: Doc, f: TxFields, newId: Id, now: Millis)
    requires UniqueKeys(d.accounts, AccountKey) && f.amount.Some?
    requires PostTransaction(d, Single(f), newId, now).reply.status == 201
    ensures var o := PostTransaction(d, Single(f), newId, now);
      var t := PostedTransaction(f, newId, now);
      && o.doc.transactions == d.transactions + [t]
      && o.doc.cards == d.cards
      && |o.doc.accounts| == |d.accounts|
      && (forall k :: 0 <= k < |d.accounts| ==>
            o.doc.accounts[k].id == d.accounts[k].id && o.doc.accounts[k].name == d.accounts[k].name
            && o.doc.accounts[k].balance == d.accounts[k].balance + (if d.accounts[k].id == f.accountId then Signed(t) else 0))
      && TotalBalance(o.doc.accounts) == TotalBalance(d.accounts) + Signed(t)
  {
    var i := IndexOfKey(d.accounts, AccountKey, f.accountId).value;
    var t := PostedTransaction(f, newId, now);
    TotalBalanceCredit(d.accounts, i, Signed(t));
    forall k | 0 <= k < |d.accounts| && k != i ensures d.accounts[k].id != f.accountId {
      assert AccountKey(d.accounts[k]) != AccountKey(d.accounts[i]);
    }
  }

  /** A POST with a fresh id keeps the document valid and every balance in step with the transactions. */
  lemma PostTransactionKeepsValid(d: Doc, body: TxBody, newId: Id, now: Millis)
    requires Valid(d) && FreshId(d, newId)
    ensures Valid(PostTransaction(d, body, newId, now).doc)
    ensures InStep(d) ==> InStep(PostTransaction(d, body, newId, now).doc)
  {
    var o := PostTransaction(d, body, newId, now);
    if o.doc != d {
      var f := Picked(body).value;
      var i := IndexOfKey(d.accounts, AccountKey, f.accountId).value;
      var t := PostedTransaction(f, newId, now);
      AddTransactionAdmitted(d.accounts, d.cards, d.transactions, i, t);
      AddTransactionValid(d.accounts, d.cards, d.transactions, i, t);
      if InStep(d) {
        CreateKeepsBalanced(d.accounts, d.transactions, t, i);
      }
    }
  }

  /** DELETE /api/transactions/:id (transactions.js:98-130), once the user is found, with the intended id comparison. */
  function DeleteTransaction(d: Doc, id: Id): Outcome {
    match IndexOfKey(d.transactions, TxKey, id)
    case None => Outcome(Reply(404, Failure("Transaction not found")), d)
    case Some(j) =>
      var candidate := Doc(Unapply(d.accounts, d.transactions[j]), d.cards, RemoveKeys(d.transactions, TxKey, {id}));
      Save(d, candidate, Reply(200, Done("Transaction deleted successfully")), 500)
  }

  /** An unknown id answers 404; on a valid document a known one is always deleted; a failure stores nothing. */
  lemma DeleteTransactionReplies(d: Doc, id: Id)
    ensures var o := DeleteTransaction(d, id);
      && (o.reply.status == 200 || o.reply.status == 404 || o.reply.status == 500)
      && (o.reply.status != 200 ==> o.doc == d)
      && (id !in KeySet(d.transactions, TxKey) ==> o.reply == Reply(404, Failure("Transaction not found")))
      && (Valid(d) && id in KeySet(d.transactions, TxKey) ==> o.reply == Reply(200, Done("Transaction deleted successfully")))
  {
    var found := IndexOfKey(d.transactions, TxKey, id);
    if found.None? {
      KeyAbsent(d.transactions, TxKey, id);
    } else if Valid(d) {
      var j := found.value;
      RemoveTransactionDocument(d.accounts, d.cards, d.transactions, j);
      ValidDocumentNoErrors(Unapply(d.accounts, d.transactions[j]), d.cards, RemoveKeys(d.transactions, TxKey, {id}));
    }
  }

  /** A deletion from a valid document keeps it valid and keeps balances in step. */
  lemma DeleteTransactionKeepsValid(d: Doc, id: Id)
    requires Valid(d)
    ensures Valid(DeleteTransaction(d, id).doc)
    ensures InStep(d) ==> InStep(DeleteTransaction(d, id).doc)
  {
    var found := IndexOfKey(d.transactions, TxKey, id);
    if found.Some? {
      var j := found.value;
      var candidate := Doc(Unapply(d.accounts, d.transactions[j]), d.cards, RemoveKeys(d.transactions, TxKey, {id}));
      assert DeleteTransaction(d, id).doc == candidate || DeleteTransaction(d, id).doc == d;
      RemoveTransactionDocument(d.accounts, d.cards, d.transactions, j);
      assert Valid(candidate);
      if InStep(d) {
        assert ValidTransaction(d.transactions[j]);
        DeleteKeepsBalanced(d.accounts, d.transactions, j);
        assert InStep(candidate);
      }
    }
  }

  /**
   * A stored deletion removes every transaction with the id and keeps all
   * others; for a transaction of a stored type on a known account it takes
   * the signed amount back out of the total balance.
   */
  lemma DeleteTransactionRecords(d: Doc, id: Id)
    requires DeleteTransaction(d, id).reply.status == 200
    ensures var o := DeleteTransaction(d, id);
      var t := d.transactions[IndexOfKey(d.transactions, TxKey, id).value];
      && id !in KeySet(o.doc.transactions, TxKey)
      && (forall x :: x in o.doc.transactions <==> x in d.transactions && x.id != id)
      && o.doc.cards == d.cards
      && |o.doc.accounts| == |d.accounts|
      && (UniqueKeys(d.accounts, AccountKey) ==>
            forall k :: 0 <= k < |d.accounts| ==>
              o.doc.accounts[k] == d.accounts[k].(balance := d.accounts[k].balance + (if d.accounts[k].id == t.accountId then Reversal(t) else 0)))
      && (IsTxKind(t.kind) && t.accountId in KeySet(d.accounts, AccountKey) ==>
            TotalBalance(o.doc.accounts) == TotalBalance(d.accounts) - Signed(t))
  {
    DeleteTransactionStored(d, id);
    DeletionCandidate(d, IndexOfKey(d.transactions, TxKey, id).value);
  }

  /**
   * On a valid document a deletion moves every account's balance by the
   * change in the signed sum of its transactions, and touches nothing else
   * of the accounts.
   */
  lemma DeleteTransactionRebalances(d: Doc, id: Id)
    requires Valid(d)
    ensures var e := DeleteTransaction(d, id).doc;
      e.accounts == Rebalanced(d.accounts, d.transactions, e.transactions)
  {
    match IndexOfKey(d.transactions, TxKey, id)
    case None =>
      RebalancedSame(d.accounts, d.transactions);
    case Some(j) =>
      KeyPresent(d.transactions, TxKey, j);
      DeleteTransactionReplies(d, id);
      DeleteTransactionStored(d, id);
      assert ValidTransaction(d.transactions[j]);
      UnapplyRebalances(d.accounts, d.transactions, j);
  }

  /** The document the deletion of transaction `j` stores, before `save` is asked. */
  lemma DeletionCandidate(d: Doc, j: nat)
    requires j < |d.transactions|
    ensures var t := d.transactions[j];
      var accounts := Unapply(d.accounts, t);
      var rest := RemoveKeys(d.transactions, TxKey, {t.id});
      && t.id !in KeySet(rest, TxKey)
      && (forall x :: x in rest <==> x in d.transactions && x.id != t.id)
      && |accounts| == |d.accounts|
      && (UniqueKeys(d.accounts, AccountKey) ==>
            forall k :: 0 <= k < |d.accounts| ==>
              accounts[k] == d.accounts[k].(balance := d.accounts[k].balance + (if d.accounts[k].id == t.accountId then Reversal(t) else 0)))
      && (IsTxKind(t.kind) && t.accountId in KeySet(d.accounts, AccountKey) ==>
            TotalBalance(accounts) == TotalBalance(d.accounts) - Signed(t))
  {
    var t := d.transactions[j];
    RemovedTransactions(d.transactions, t.id);
    if IsTxKind(t.kind) {
      ReversalUndoesSigned(t);
    }
  }

  /** Removing the transactions with one id keeps exactly those with any other id. */
  lemma RemovedTransactions(txs: seq<Transaction>, id: Id)
    ensures forall x :: x in RemoveKeys(txs, TxKey, {id}) <==> x in txs && x.id != id
  {
    var rest := RemoveKeys(txs, TxKey, {id});
    forall x ensures x in rest <==> x in txs && x.id != id {
      assert x in rest <==> x in txs && TxKey(x) !in {id};
    }
  }

  /**
   * Deleting a transaction right after a POST created it restores the
   * document: the transaction is gone and its account's balance is back
   * where it was.
   */
  lemma PostThenDeleteRestores(d: Doc, body: TxBody, newId: Id, now: Millis)
    requires Valid(d) && FreshId(d, newId)
    requires PostTransaction(d, body, newId, now).reply.status == 201
    ensures DeleteTransaction(PostTransaction(d, body, newId, now).doc, newId)
      == Outcome(Reply(200, Done("Transaction deleted successfully")), d)
  {
    var f := Picked(body).value;
    var i := IndexOfKey(d.accounts, AccountKey, f.accountId).value;
    var t := PostedTransaction(f, newId, now);
    assert PostTransaction(d, body, newId, now).doc == Doc(Credit(d.accounts, i, Signed(t)), d.cards, d.transactions + [t]);
    PostTransactionKeepsValid(d, body, newId, now);
    DeleteAppended(d, i, t);
  }

  /** The deletion of the last appended transaction, on the document the POST stored. */
  lemma DeleteAppended(d: Doc, i: nat, t: Transaction)
    requires Valid(d) && i < |d.accounts| && d.accounts[i].id == t.accountId && t.id !in KeySet(d.transactions, TxKey)
    requires Valid(Doc(Credit(d.accounts, i, Signed(t)), d.cards, d.transactions + [t]))
    ensures DeleteTransaction(Doc(Credit(d.accounts, i, Signed(t)), d.cards, d.transactions + [t]), t.id)
      == Outcome(Reply(200, Done("Transaction deleted successfully")), d)
  {
    var e := Doc(Credit(d.accounts, i, Signed(t)), d.cards, d.transactions + [t]);
    RemoveAppendedKey(d.transactions, t, TxKey);
    assert e.transactions[|d.transactions|] == t;
    KeyPresent(e.transactions, TxKey, |d.transactions|);
    DeleteTransactionReplies(e, t.id);
    DeleteTransactionStored(e, t.id);
    UnapplyUndoesCredit(d.accounts, i, t);
  }

  /** A stored deletion stores exactly the candidate document of the route. */
  lemma DeleteTransactionStored(d: Doc, id: Id)
    requires DeleteTransaction(d, id).reply.status == 200
    ensures IndexOfKey(d.transactions, TxKey, id).Some?
    ensures var t := d.transactions[IndexOfKey(d.transactions, TxKey, id).value];
      DeleteTransaction(d, id).doc == Doc(Unapply(d.accounts, t), d.cards, RemoveKeys(d.transactions, TxKey, {id}))
  {
  }

  // ---------------------------------------------------------------------------
  // accounts.js
  // ---------------------------------------------------------------------------

  /** POST /api/accounts (accounts.js:23-47), once the user is found: a new account with balance 0. */
  function PostAccount(d: Doc, name: string, kind: string, newId: Id): Outcome {
    var accounts := d.accounts + [CastAccount(newId, name, kind, 0)];
    Save(d, Doc(accounts, d.cards, d.transactions), Reply(201, AccountList(accounts)), 400)
  }

  /**
   * On a valid document the account is stored exactly when neither name nor
   * type is blank; it opens with balance 0 and the reply lists every account.
   */
  lemma PostAccountAccepted(d: Doc, name: string, kind: string, newId: Id)
    requires Valid(d)
    ensures var o := PostAccount(d, name, kind, newId);
      && (o.reply.status == 201 || o.reply.status == 400)
      && (o.reply.status == 201 <==> !AllWhite(name) && !AllWhite(kind))
      && (o.reply.status != 201 ==> o.doc == d)
      && (o.reply.status == 201 ==>
            && |o.doc.accounts| == |d.accounts| + 1 && o.doc.accounts[..|d.accounts|] == d.accounts
            && o.doc.accounts[|d.accounts|] == CastAccount(newId, name, kind, 0)
            && o.doc.accounts[|d.accounts|].id == newId && o.doc.accounts[|d.accounts|].balance == 0
            && o.doc.cards == d.cards && o.doc.transactions == d.transactions
            && o.reply.body == AccountList(o.doc.accounts))
  {
    var a := CastAccount(newId, name, kind, 0);
    CastAccountValid(newId, name, kind, 0);
    AddAccountAdmitted(d.accounts, d.cards, d.transactions, a);
    assert (d.accounts + [a])[..|d.accounts|] == d.accounts;
  }

  /** A new account with a fresh id keeps the document valid, and at balance 0 it is in step with the transactions. */
  lemma PostAccountKeepsValid(d: Doc, name: string, kind: string, newId: Id)
    requires Valid(d) && FreshId(d, newId)
    ensures Valid(PostAccount(d, name, kind, newId).doc)
    ensures InStep(d) ==> InStep(PostAccount(d, name, kind, newId).doc)
  {
    var a := CastAccount(newId, name, kind, 0);
    AddAccountAdmitted(d.accounts, d.cards, d.transactions, a);
    if ValidAccount(a) {
      AddAccountValid(d.accounts, d.cards, d.transactions, a);
      if InStep(d) {
        NewAccountKeepsBalanced(d.accounts, d.transactions, a);
      }
    }
  }

  /**
   * PUT /api/accounts/:id (accounts.js:50-73), once the user is found: a
   * non-empty name or type replaces the stored one (trimmed by the schema);
   * a supplied balance replaces the balance.
   */
  function PutAccount(d: Doc, id: Id, name: string, kind: string, balance: Option<Cents>): Outcome {
    match IndexOfKey(d.accounts, AccountKey, id)
    case None => Outcome(Reply(404, Failure("Account not found")), d)
    case Some(i) =>
      var a := d.accounts[i];
      var b := CastAccount(a.id, if name != "" then name else a.name, if kind != "" then kind else a.kind,
                           balance.GetOr(a.balance));
      Save(d, Doc(d.accounts[i := b], d.cards, d.transactions), Reply(200, OneAccount(b)), 400)
  }

  /**
   * An unknown id answers 404 and a failure stores nothing. A stored update
   * changes only that account, which keeps its id and has the supplied
   * balance if there was one.
   */
  lemma PutAccountReplies(d: Doc, id: Id, name: string, kind: string, balance: Option<Cents>)
    ensures var o := PutAccount(d, id, name, kind, balance);
      && (o.reply.status == 200 || o.reply.status == 400 || o.reply.status == 404)
      && (o.reply.status != 200 ==> o.doc == d)
      && (id !in KeySet(d.accounts, AccountKey) ==> o.reply == Reply(404, Failure("Account not found")))
      && (o.reply.status == 200 ==>
            var i := IndexOfKey(d.accounts, AccountKey, id).value;
            && |o.doc.accounts| == |d.accounts|
            && (forall k :: 0 <= k < |d.accounts| && k != i ==> o.doc.accounts[k] == d.accounts[k])
            && o.doc.accounts[i] == CastAccount(id, if name != "" then name else d.accounts[i].name,
                                                if kind != "" then kind else d.accounts[i].kind,
                                                balance.GetOr(d.accounts[i].balance))
            && o.doc.accounts[i].id == id
            && o.doc.accounts[i].balance == balance.GetOr(d.accounts[i].balance)
            && o.doc.cards == d.cards && o.doc.transactions == d.transactions
            && o.reply.body == OneAccount(o.doc.accounts[i]))
  {
    if IndexOfKey(d.accounts, AccountKey, id).None? {
      KeyAbsent(d.accounts, AccountKey, id);
    }
  }

  /** On a valid document a known account is updated exactly when each supplied field is not blank. */
  lemma PutAccountAccepted(d: Doc, id: Id, name: string, kind: string, balance: Option<Cents>)
    requires Valid(d) && id in KeySet(d.accounts, AccountKey)
    ensures PutAccount(d, id, name, kind, balance).reply.status == 200
      <==> (name == "" || !AllWhite(name)) && (kind == "" || !AllWhite(kind))
  {
    KeyFound(d.accounts, AccountKey, id);
    var i := IndexOfKey(d.accounts, AccountKey, id).value;
    var a := d.accounts[i];
    var newName := if name != "" then name else a.name;
    var newKind := if kind != "" then kind else a.kind;
    var b := CastAccount(a.id, newName, newKind, balance.GetOr(a.balance));
    CastAccountValid(a.id, newName, newKind, balance.GetOr(a.balance));
    assert ValidAccount(a);
    TrimBlank(a.name);
    TrimBlank(a.kind);
    UpdateAccountAdmitted(d.accounts, d.cards, d.transactions, i, b);
  }

  /** An update keeps the document valid; without a new balance it keeps balances in step. */
  lemma PutAccountKeepsValid(d: Doc, id: Id, name: string, kind: string, balance: Option<Cents>)
    requires Valid(d)
    ensures Valid(PutAccount(d, id, name, kind, balance).doc)
    ensures InStep(d) && balance.None? ==> InStep(PutAccount(d, id, name, kind, balance).doc)
  {
    var found := IndexOfKey(d.accounts, AccountKey, id);
    if found.Some? {
      var i := found.value;
      var a := d.accounts[i];
      var b := CastAccount(a.id, if name != "" then name else a.name, if kind != "" then kind else a.kind,
                           balance.GetOr(a.balance));
      UpdateAccountAdmitted(d.accounts, d.cards, d.transactions, i, b);
      if ValidAccount(b) {
        UpdateAccountValid(d.accounts, d.cards, d.transactions, i, b);
      }
    }
  }

  /** DELETE /api/accounts/:id (accounts.js:76-95), once the user is found; the account's cards and transactions stay. */
  function DeleteAccount(d: Doc, id: Id): Outcome {
    match IndexOfKey(d.accounts, AccountKey, id)
    case None => Outcome(Reply(404, Failure("Account not found")), d)
    case Some(i) =>
      Save(d, Doc(d.accounts[..i] + d.accounts[i + 1..], d.cards, d.transactions),
           Reply(200, Done("Account deleted successfully")), 500)
  }

  /**
   * An unknown id answers 404. From a valid document a known account is
   * always removed, and only it: its cards and transactions stay behind,
   * the document stays valid and the remaining balances stay in step.
   */
  lemma DeleteAccountReplies(d: Doc, id: Id)
    ensures var o := DeleteAccount(d, id);
      && (o.reply.status == 200 || o.reply.status == 404 || o.reply.status == 500)
      && (o.reply.status != 200 ==> o.doc == d)
      && (id !in KeySet(d.accounts, AccountKey) ==> o.reply == Reply(404, Failure("Account not found")))
      && (Valid(d) && id in KeySet(d.accounts, AccountKey) ==>
            && o.reply == Reply(200, Done("Account deleted successfully"))
            && o.doc == Doc(RemoveKeys(d.accounts, AccountKey, {id}), d.cards, d.transactions))
      && (Valid(d) ==> Valid(o.doc))
      && (InStep(d) ==> InStep(o.doc))
  {
    var found := IndexOfKey(d.accounts, AccountKey, id);
    if found.None? {
      KeyAbsent(d.accounts, AccountKey, id);
    } else {
      var i := found.value;
      var rest := d.accounts[..i] + d.accounts[i + 1..];
      if Valid(d) {
        RemoveAccountDocument(d.accounts, d.cards, d.transactions, i);
        ValidDocumentNoErrors(rest, d.cards, d.transactions);
      }
      if InStep(d) {
        DeleteAccountKeepsBalanced(d.accounts, d.transactions, i);
      }
    }
  }

  // ---------------------------------------------------------------------------
  // cards.js
  // ---------------------------------------------------------------------------

  /** POST /api/cards (cards.js:23-71), once the user is found; `kind` is None when the body has no type. */
  function PostCard(d: Doc, accountId: Id, kind: Option<string>, number: string, expiry: string, newId: Id): Outcome {
    match IndexOfKey(d.accounts, AccountKey, accountId)
    case None => Outcome(Reply(404, Failure("Account not found")), d)
    case Some(_) =>
      match kind
      case None => Outcome(Reply(400, Failure(LowerCaseError)), d)
      case Some(k) =>
        var cards := d.cards + [Card(newId, accountId, Lower(k), number, expiry)];
        Save(d, Doc(d.accounts, cards, d.transactions), Reply(201, CardList(cards)), 400)
  }

  /**
   * An unknown account answers 404 and a missing type 400, and a failure
   * stores nothing; a stored card is appended with its type lower-cased,
   * the reply lists every card and nothing else changes.
   */
  lemma PostCardReplies(d: Doc, accountId: Id, kind: Option<string>, number: string, expiry: string, newId: Id)
    ensures var o := PostCard(d, accountId, kind, number, expiry, newId);
      && (o.reply.status == 201 || o.reply.status == 400 || o.reply.status == 404)
      && (o.reply.status != 201 ==> o.doc == d)
      && (accountId !in KeySet(d.accounts, AccountKey) ==> o.reply == Reply(404, Failure("Account not found")))
      && (accountId in KeySet(d.accounts, AccountKey) && kind.None? ==> o.reply == Reply(400, Failure(LowerCaseError)))
      && (o.reply.status == 201 ==>
            && o.doc.cards == d.cards + [Card(newId, accountId, Lower(kind.value), number, expiry)]
            && o.doc.accounts == d.accounts && o.doc.transactions == d.transactions
            && o.reply.body == CardList(o.doc.cards))
  {
    var found := IndexOfKey(d.accounts, AccountKey, accountId);
    if found.None? {
      KeyAbsent(d.accounts, AccountKey, accountId);
    } else {
      KeyPresent(d.accounts, AccountKey, found.value);
    }
  }

  /**
   * On a valid document a card for a known account is stored exactly when
   * its lower-cased type is `credit` or `debit`, its number reads
   * XXXX-XXXX-XXXX-XXXX and its expiry MM/YY.
   */
  lemma PostCardAccepted(d: Doc, accountId: Id, kind: string, number: string, expiry: string, newId: Id)
    requires Valid(d) && accountId in KeySet(d.accounts, AccountKey)
    ensures PostCard(d, accountId, Some(kind), number, expiry, newId).reply.status == 201
      <==> IsCardKind(Lower(kind)) && IsCardNumber(number) && IsExpiry(expiry) && accountId != ""
  {
    KeyFound(d.accounts, AccountKey, accountId);
    AddCardAdmitted(d.accounts, d.cards, d.transactions, Card(newId, accountId, Lower(kind), number, expiry));
  }

  /** A card with a fresh id keeps the document valid; accounts and transactions are untouched. */
  lemma PostCardKeepsValid(d: Doc, accountId: Id, kind: Option<string>, number: string, expiry: string, newId: Id)
    requires Valid(d) && FreshId(d, newId)
    ensures Valid(PostCard(d, accountId, kind, number, expiry, newId).doc)
    ensures InStep(d) ==> InStep(PostCard(d, accountId, kind, number, expiry, newId).doc)
  {
    if IndexOfKey(d.accounts, AccountKey, accountId).Some? && kind.Some? {
      var c := Card(newId, accountId, Lower(kind.value), number, expiry);
      AddCardAdmitted(d.accounts, d.cards, d.transactions, c);
      if ValidCard(c) {
        AddCardValid(d.accounts, d.cards, d.transactions, c);
      }
    }
  }

  /** DELETE /api/cards/:id (cards.js:74-93), once the user is found. */
  function DeleteCard(d: Doc, id: Id): Outcome {
    match IndexOfKey(d.cards, CardKey, id)
    case None => Outcome(Reply(404, Failure("Card not found")), d)
    case Some(i) =>
      Save(d, Doc(d.accounts, d.cards[..i] + d.cards[i + 1..], d.transactions),
           Reply(200, Done("Card deleted successfully")), 500)
  }

  /** An unknown id answers 404; from a valid document a known card is always removed, and only it. */
  lemma DeleteCardReplies(d: Doc, id: Id)
    ensures var o := DeleteCard(d, id);
      && (o.reply.status == 200 || o.reply.status == 404 || o.reply.status == 500)
      && (o.reply.status != 200 ==> o.doc == d)
      && (id !in KeySet(d.cards, CardKey) ==> o.reply == Reply(404, Failure("Card not found")))
      && (Valid(d) && id in KeySet(d.cards, CardKey) ==>
            && o.reply == Reply(200, Done("Card deleted successfully"))
            && o.doc == Doc(d.accounts, RemoveKeys(d.cards, CardKey, {id}), d.transactions))
      && (Valid(d) ==> Valid(o.doc))
      && (InStep(d) ==> InStep(o.doc))
  {
    var found := IndexOfKey(d.cards, CardKey, id);
    if found.None? {
      KeyAbsent(d.cards, CardKey, id);
    } else if Valid(d) {
      var i := found.value;
      RemoveCardDocument(d.accounts, d.cards, d.transactions, i);
      ValidDocumentNoErrors(d.accounts, d.cards[..i] + d.cards[i + 1..], d.transactions);
    }
  }

  /** An id that `IndexOfKey` does not find is not a key of the sequence. */
  lemma KeyAbsent<T(!new)>(xs: seq<T>, keyOf: T -> Id, k: Id)
    requires IndexOfKey(xs, keyOf, k).None?
    ensures k !in KeySet(xs, keyOf)
  {
    forall x | x in xs ensures keyOf(x) != k {
      var j :| 0 <= j < |xs| && xs[j] == x;
    }
  }

  /** An id that is a key of the sequence is found by `IndexOfKey`. */
  lemma KeyFound<T(!new)>(xs: seq<T>, keyOf: T -> Id, k: Id)
    requires k in KeySet(xs, keyOf)
    ensures IndexOfKey(xs, keyOf, k).Some?
  {
    if IndexOfKey(xs, keyOf, k).None? {
      KeyAbsent(xs, keyOf, k);
    }
  }

  lemma KeyPresent<T(!new)>(xs: seq<T>, keyOf: T -> Id, i: nat)
    requires i < |xs|
    ensures keyOf(xs[i]) in KeySet(xs, keyOf)
  {
    assert xs[i] in xs;
  }

  // ---------------------------------------------------------------------------
  // What `save` makes of each route's candidate document
  // ---------------------------------------------------------------------------

  /** A document as `save` leaves it passes `save` again. */
  lemma ValidDocumentNoErrors(accounts: seq<Account>, cards: seq<Card>, txs: seq<Transaction>)
    requires ValidDocument(accounts, cards, txs)
    ensures DocumentErrors(accounts, cards, txs) == []
  {
    DocumentErrorsEmpty(accounts, cards, txs);
  }

  /** Appending a cast transaction and crediting its account: `save` accepts exactly a valid transaction. */
  lemma AddTransactionAdmitted(accounts: seq<Account>, cards: seq<Card>, txs: seq<Transaction>, i: nat, t: Transaction)
    requires ValidDocument(accounts, cards, txs) && i < |accounts|
    requires Trimmed(t.category) && Trimmed(t.description)
    ensures DocumentErrors(Credit(accounts, i, Signed(t)), cards, txs + [t]) == [] <==> ValidTransaction(t)
  {
    DocumentErrorsEmpty(Credit(accounts, i, Signed(t)), cards, txs + [t]);
    var r := Credit(accounts, i, Signed(t));
    var ts := txs + [t];
    forall k | 0 <= k < |r| ensures AccountErrors(r[k]) == [] {
      assert ValidAccount(accounts[k]);
    }
    TransactionErrorsValid(t);
    assert ts[|txs|] == t;
    assert forall k :: 0 <= k < |txs| ==> ts[k] == txs[k];
  }

  /** ... and a document that `save` accepts after it is valid again. */
  lemma AddTransactionValid(accounts: seq<Account>, cards: seq<Card>, txs: seq<Transaction>, i: nat, t: Transaction)
    requires ValidDocument(accounts, cards, txs) && i < |accounts|
    requires t.id !in KeySet(txs, TxKey) && ValidTransaction(t)
    ensures ValidDocument(Credit(accounts, i, Signed(t)), cards, txs + [t])
  {
    var r := Credit(accounts, i, Signed(t));
    var ts := txs + [t];
    UniqueKeysAppend(txs, TxKey, t);
    UniqueKeysUpdate(accounts, AccountKey, i, r[i]);
    forall k | 0 <= k < |r| ensures ValidAccount(r[k]) {
      assert ValidAccount(accounts[k]);
    }
    assert ts[|txs|] == t;
    assert forall k :: 0 <= k < |txs| ==> ts[k] == txs[k];
  }

  /** Removing transaction `j` with the intended reversal keeps the document valid. */
  lemma RemoveTransactionDocument(accounts: seq<Account>, cards: seq<Card>, txs: seq<Transaction>, j: nat)
    requires ValidDocument(accounts, cards, txs) && j < |txs|
    ensures ValidDocument(Unapply(accounts, txs[j]), cards, RemoveKeys(txs, TxKey, {txs[j].id}))
  {
    RemoveKeysUnique(txs, TxKey, {txs[j].id});
    var rest := RemoveKeys(txs, TxKey, {txs[j].id});
    forall k | 0 <= k < |rest| ensures ValidTransaction(rest[k]) {
      assert rest[k] in rest;
    }
  }

  /** Appending a cast account: `save` accepts exactly non-blank fields. */
  lemma AddAccountAdmitted(accounts: seq<Account>, cards: seq<Card>, txs: seq<Transaction>, a: Account)
    requires ValidDocument(accounts, cards, txs)
    requires Trimmed(a.name) && Trimmed(a.kind)
    ensures DocumentErrors(accounts + [a], cards, txs) == [] <==> ValidAccount(a)
  {
    DocumentErrorsEmpty(accounts + [a], cards, txs);
    var r := accounts + [a];
    assert r[|accounts|] == a;
    assert forall k :: 0 <= k < |accounts| ==> r[k] == accounts[k];
  }

  lemma AddAccountValid(accounts: seq<Account>, cards: seq<Card>, txs: seq<Transaction>, a: Account)
    requires ValidDocument(accounts, cards, txs) && a.id !in KeySet(accounts, AccountKey) && ValidAccount(a)
    ensures ValidDocument(accounts + [a], cards, txs)
  {
    var r := accounts + [a];
    UniqueKeysAppend(accounts, AccountKey, a);
    assert r[|accounts|] == a;
    assert forall k :: 0 <= k < |accounts| ==> r[k] == accounts[k];
  }

  /** Replacing account `i` by a cast account: `save` accepts exactly non-blank fields. */
  lemma UpdateAccountAdmitted(accounts: seq<Account>, cards: seq<Card>, txs: seq<Transaction>, i: nat, b: Account)
    requires ValidDocument(accounts, cards, txs) && i < |accounts|
    requires Trimmed(b.name) && Trimmed(b.kind)
    ensures DocumentErrors(accounts[i := b], cards, txs) == [] <==> ValidAccount(b)
  {
    DocumentErrorsEmpty(accounts[i := b], cards, txs);
    var r := accounts[i := b];
    assert r[i] == b;
  }

  lemma UpdateAccountValid(accounts: seq<Account>, cards: seq<Card>, txs: seq<Transaction>, i: nat, b: Account)
    requires ValidDocument(accounts, cards, txs) && i < |accounts| && b.id == accounts[i].id && ValidAccount(b)
    ensures ValidDocument(accounts[i := b], cards, txs)
  {
    UniqueKeysUpdate(accounts, AccountKey, i, b);
  }

  /** Splicing out account `i` is removing its id, and keeps the document valid. */
  lemma RemoveAccountDocument(accounts: seq<Account>, cards: seq<Card>, txs: seq<Transaction>, i: nat)
    requires ValidDocument(accounts, cards, txs) && i < |accounts|
    ensures accounts[..i] + accounts[i + 1..] == RemoveKeys(accounts, AccountKey, {accounts[i].id})
    ensures ValidDocument(accounts[..i] + accounts[i + 1..], cards, txs)
  {
    SpliceUniqueIsRemoveKey(accounts, AccountKey, i);
    RemoveKeysUnique(accounts, AccountKey, {accounts[i].id});
    var rest := accounts[..i] + accounts[i + 1..];
    forall k | 0 <= k < |rest| ensures ValidAccount(rest[k]) {
      assert rest[k] in rest;
    }
  }

  /** Appending a card: `save` accepts exactly a valid card. */
  lemma AddCardAdmitted(accounts: seq<Account>, cards: seq<Card>, txs: seq<Transaction>, c: Card)
    requires ValidDocument(accounts, cards, txs)
    ensures DocumentErrors(accounts, cards + [c], txs) == [] <==> ValidCard(c)
  {
    DocumentErrorsEmpty(accounts, cards + [c], txs);
    var r := cards + [c];
    assert r[|cards|] == c;
    assert forall k :: 0 <= k < |cards| ==> r[k] == cards[k];
  }

  lemma AddCardValid(accounts: seq<Account>, cards: seq<Card>, txs: seq<Transaction>, c: Card)
    requires ValidDocument(accounts, cards, txs) && c.id !in KeySet(cards, CardKey) && ValidCard(c)
    ensures ValidDocument(accounts, cards + [c], txs)
  {
    var r := cards + [c];
    UniqueKeysAppend(cards, CardKey, c);
    assert r[|cards|] == c;
    assert forall k :: 0 <= k < |cards| ==> r[k] == cards[k];
  }

  /** Splicing out card `i` is removing its id, and keeps the document valid. */
  lemma RemoveCardDocument(accounts: seq<Account>, cards: seq<Card>, txs: seq<Transaction>, i: nat)
    requires ValidDocument(accounts, cards, txs) && i < |cards|
    ensures cards[..i] + cards[i + 1..] == RemoveKeys(cards, CardKey, {cards[i].id})
    ensures ValidDocument(accounts, cards[..i] + cards[i + 1..], txs)
  {
    SpliceUniqueIsRemoveKey(cards, CardKey, i);
    RemoveKeysUnique(cards, CardKey, {cards[i].id});
    var rest := cards[..i] + cards[i + 1..];
    forall k | 0 <= k < |rest| ensures ValidCard(rest[k]) {
      assert rest[k] in rest;
    }
  }

  // ---------------------------------------------------------------------------
  // Routing: the user lookup every handler starts with
  // ---------------------------------------------------------------------------

  datatype Route =
    | GetTransactions
    | PostTransactions(body: TxBody)
    | DeleteTransactions(transactionId: Id)
    | GetAccounts
    | PostAccounts(name: string, kind: string)
    | PutAccounts(accountId: Id, name: string, kind: string, balance: Option<Cents>)
    | DeleteAccounts(accountId: Id)
    | GetCards
    | PostCards(cardAccount: Id, cardKind: Option<string>, number: string, expiry: string)
    | DeleteCards(cardId: Id)

  /** The reply, and the user's document as stored afterwards (None: there is no such user). */
  datatype Served = Served(reply: Reply, user: Option<Doc>)

  /** The document-level effect of a route on an existing user. */
  function Dispatch(d: Doc, route: Route, newId: Id, now: Millis): Outcome {
    match route
    case GetTransactions => Outcome(Reply(200, TransactionList(d.transactions)), d)
    case PostTransactions(body) => PostTransaction(d, body, newId, now)
    case DeleteTransactions(id) => DeleteTransaction(d, id)
    case GetAccounts => Outcome(Reply(200, AccountList(d.accounts)), d)
    case PostAccounts(name, kind) => PostAccount(d, name, kind, newId)
    case PutAccounts(id, name, kind, balance) => PutAccount(d, id, name, kind, balance)
    case DeleteAccounts(id) => DeleteAccount(d, id)
    case GetCards => Outcome(Reply(200, CardList(d.cards)), d)
    case PostCards(accountId, kind, number, expiry) => PostCard(d, accountId, kind, number, expiry, newId)
    case DeleteCards(id) => DeleteCard(d, id)
  }

  /**
   * One authenticated request against the routes of transactions.js,
   * accounts.js and cards.js. `user` is the result of
   * `User.findById(req.user._id)`; `newId` is the ObjectId a creating route
   * would mint and `now` the current time.
   */
  function Serve(user: Option<Doc>, route: Route, newId: Id, now: Millis): Served {
    if route.PostTransactions? && Picked(route.body).None? then
      Served(Reply(400, Failure(DestructureError)), user)
    else
      match user
      case None => Served(Reply(404, Failure("User not found")), None)
      case Some(d) =>
        var o := Dispatch(d, route, newId, now);
        Served(o.reply, Some(o.doc))
  }

  /**
   * The POST of an empty array fails on destructuring before the user is
   * looked up; every other route answers 404 for a missing user; the list
   * routes send the stored array. Nothing is ever stored for a missing user.
   */
  lemma ServeOrder(user: Option<Doc>, route: Route, newId: Id, now: Millis)
    ensures var s := Serve(user, route, newId, now);
      && (route.PostTransactions? && Picked(route.body).None? ==> s == Served(Reply(400, Failure(DestructureError)), user))
      && (user.None? ==> s.user.None?)
      && (user.None? && !(route.PostTransactions? && Picked(route.body).None?) ==> s.reply == Reply(404, Failure("User not found")))
      && (user.Some? && route.GetTransactions? ==> s == Served(Reply(200, TransactionList(user.value.transactions)), user))
      && (user.Some? && route.GetAccounts? ==> s == Served(Reply(200, AccountList(user.value.accounts)), user))
      && (user.Some? && route.GetCards? ==> s == Served(Reply(200, CardList(user.value.cards)), user))
  {
  }

  /** Every route keeps a saved document valid, given a fresh id for what it creates. */
  lemma DispatchKeepsValid(d: Doc, route: Route, newId: Id, now: Millis)
    requires Valid(d) && FreshId(d, newId)
    ensures Valid(Dispatch(d, route, newId, now).doc)
  {
    match route
    case GetTransactions =>
    case PostTransactions(body) => PostTransactionKeepsValid(d, body, newId, now);
    case DeleteTransactions(id) => DeleteTransactionKeepsValid(d, id);
    case GetAccounts =>
    case PostAccounts(name, kind) => PostAccountKeepsValid(d, name, kind, newId);
    case PutAccounts(id, name, kind, balance) => PutAccountKeepsValid(d, id, name, kind, balance);
    case DeleteAccounts(id) => DeleteAccountReplies(d, id);
    case GetCards =>
    case PostCards(accountId, kind, number, expiry) => PostCardKeepsValid(d, accountId, kind, number, expiry, newId);
    case DeleteCards(id) => DeleteCardReplies(d, id);
  }

  /** Every route but a PUT that sets a balance keeps the balances in step with the transactions. */
  lemma DispatchKeepsInStep(d: Doc, route: Route, newId: Id, now: Millis)
    requires Valid(d) && InStep(d) && FreshId(d, newId)
    requires !(route.PutAccounts? && route.balance.Some?)
    ensures InStep(Dispatch(d, route, newId, now).doc)
  {
    match route
    case GetTransactions =>
    case PostTransactions(body) => PostTransactionKeepsValid(d, body, newId, now);
    case DeleteTransactions(id) => DeleteTransactionKeepsValid(d, id);
    case GetAccounts =>
    case PostAccounts(name, kind) => PostAccountKeepsValid(d, name, kind, newId);
    case PutAccounts(id, name, kind, balance) => PutAccountKeepsValid(d, id, name, kind, balance);
    case DeleteAccounts(id) => DeleteAccountReplies(d, id);
    case GetCards =>
    case PostCards(accountId, kind, number, expiry) => PostCardKeepsValid(d, accountId, kind, number, expiry, newId);
    case DeleteCards(id) => DeleteCardReplies(d, id);
  }

  /** Serving a stored user never leaves it without a valid document. */
  lemma ServeKeepsValid(d: Doc, route: Route, newId: Id, now: Millis)
    requires Valid(d) && FreshId(d, newId)
    ensures var s := Serve(Some(d), route, newId, now);
      && s.user.Some? && Valid(s.user.value)
      && (InStep(d) && !(route.PutAccounts? && route.balance.Some?) ==> InStep(s.user.value))
  {
    DispatchKeepsValid(d, route, newId, now);
    if InStep(d) && !(route.PutAccounts? && route.balance.Some?) {
      DispatchKeepsInStep(d, route, newId, now);
    }
  }

  // ---------------------------------------------------------------------------
  // The document changed in place, as the handlers do it
  // ---------------------------------------------------------------------------

  class UserDoc {
    var accounts: seq<Account>
    var cards: seq<Card>
    var transactions: seq<Transaction>

    /** A new user: every embedded array starts empty. */
    constructor ()
      ensures Snapshot() == Doc([], [], [])
      ensures Valid(Snapshot()) && InStep(Snapshot())
    {
      accounts, cards, transactions := [], [], [];
    }

    function Snapshot(): Doc
      reads this
    {
      Doc(accounts, cards, transactions)
    }

    /**
     * `await user.save()` after a handler changed the arrays in place:
     * validation failure restores `before`, the document as stored.
     */
    method Commit(before: Doc, ok: Reply, failStatus: int) returns (reply: Reply)
      modifies this
      ensures Outcome(reply, Snapshot()) == Save(before, old(Snapshot()), ok, failStatus)
    {
      var errors := DocumentErrors(accounts, cards, transactions);
      if errors == [] {
        reply := ok;
      } else {
        accounts, cards, transactions := before.accounts, before.cards, before.transactions;
        reply := Reply(failStatus, Invalid(errors));
      }
    }

    /** transactions.js:72-86: move the balance of account `i` in place, push the transaction, save. */
    method Record(i: nat, t: Transaction, ok: Reply) returns (reply: Reply)
      requires i < |accounts|
      modifies this
      ensures Outcome(reply, Snapshot())
        == Save(old(Snapshot()), Doc(Credit(old(accounts), i, Signed(t)), old(cards), old(transactions) + [t]), ok, 400)
    {
      var before := Snapshot();
      accounts := accounts[i := accounts[i].(balance := accounts[i].balance + Signed(t))];
      transactions := transactions + [t];
      assert Snapshot() == Doc(Credit(old(accounts), i, Signed(t)), old(cards), old(transactions) + [t]);
      reply := Commit(before, ok, 400);
    }

    /** transactions.js:24-95: credit the account in place, push, save. */
    method CreateTransaction(body: TxBody, newId: Id, now: Millis) returns (reply: Reply)
      modifies this
      ensures Outcome(reply, Snapshot()) == PostTransaction(old(Snapshot()), body, newId, now)
      ensures old(Valid(Snapshot())) && FreshId(old(Snapshot()), newId) ==> Valid(Snapshot())
      ensures old(Valid(Snapshot()) && InStep(Snapshot())) && FreshId(old(Snapshot()), newId) ==> InStep(Snapshot())
    {
      var before := Snapshot();
      var picked := Picked(body);
      if picked.None? {
        return Reply(400, Failure(DestructureError));
      }
      var f := picked.value;
      var found := IndexOfKey(accounts, AccountKey, f.accountId);
      if found.None? {
        return Reply(404, Failure("Account not found"));
      }
      if f.amount.None? {
        return Reply(400, Failure("Invalid amount"));
      }
      var date := f.date.GetOr(now);
      var t := CastTransaction(newId, f.kind, f.amount.value, f.category, f.description, f.accountId, date);
      reply := Record(found.value, t, Reply(201, OneTransaction(
        Transaction(newId, f.kind, f.amount.value, f.category, f.description, f.accountId, date))));
      assert Valid(before) && FreshId(before, newId) ==> Valid(Snapshot()) && (InStep(before) ==> InStep(Snapshot())) by {
        if Valid(before) && FreshId(before, newId) {
          PostTransactionKeepsValid(before, body, newId, now);
        }
      }
    }

    /** transactions.js:98-130: reverse the amount on its account, pull every entry with the id, save. */
    method RemoveTransaction(id: Id) returns (reply: Reply)
      modifies this
      ensures Outcome(reply, Snapshot()) == DeleteTransaction(old(Snapshot()), id)
      ensures old(Valid(Snapshot())) ==> Valid(Snapshot())
      ensures old(Valid(Snapshot()) && InStep(Snapshot())) ==> InStep(Snapshot())
    {
      var before := Snapshot();
      var found := IndexOfKey(transactions, TxKey, id);
      if found.None? {
        return Reply(404, Failure("Transaction not found"));
      }
      var t := transactions[found.value];
      accounts := Unapply(accounts, t);
      transactions := RemoveKeys(transactions, TxKey, {id});
      reply := Commit(before, Reply(200, Done("Transaction deleted successfully")), 500);
      if Valid(before) {
        DeleteTransactionKeepsValid(before, id);
      }
    }

    /** accounts.js:23-47: push a new account with balance 0, save. */
    method CreateAccount(name: string, kind: string, newId: Id) returns (reply: Reply)
      modifies this
      ensures Outcome(reply, Snapshot()) == PostAccount(old(Snapshot()), name, kind, newId)
      ensures old(Valid(Snapshot())) && FreshId(old(Snapshot()), newId) ==> Valid(Snapshot())
      ensures old(Valid(Snapshot()) && InStep(Snapshot())) && FreshId(old(Snapshot()), newId) ==> InStep(Snapshot())
    {
      var before := Snapshot();
      accounts := accounts + [CastAccount(newId, name, kind, 0)];
      reply := Commit(before, Reply(201, AccountList(accounts)), 400);
      if Valid(before) && FreshId(before, newId) {
        PostAccountKeepsValid(before, name, kind, newId);
      }
    }

    /** accounts.js:50-73: assign the supplied fields of the account in place, save. */
    method UpdateAccount(id: Id, name: string, kind: string, balance: Option<Cents>) returns (reply: Reply)
      modifies this
      ensures Outcome(reply, Snapshot()) == PutAccount(old(Snapshot()), id, name, kind, balance)
      ensures old(Valid(Snapshot())) ==> Valid(Snapshot())
      ensures old(Valid(Snapshot()) && InStep(Snapshot())) && balance.None? ==> InStep(Snapshot())
    {
      var before := Snapshot();
      var found := IndexOfKey(accounts, AccountKey, id);
      if found.None? {
        return Reply(404, Failure("Account not found"));
      }
      var i := found.value;
      var a := accounts[i];
      var b := CastAccount(a.id, if name != "" then name else a.name, if kind != "" then kind else a.kind,
                           balance.GetOr(a.balance));
      accounts := accounts[i := b];
      reply := Commit(before, Reply(200, OneAccount(b)), 400);
      if Valid(before) {
        PutAccountKeepsValid(before, id, name, kind, balance);
      }
    }

    /** accounts.js:76-95: splice the account out, save. */
    method RemoveAccount(id: Id) returns (reply: Reply)
      modifies this
      ensures Outcome(reply, Snapshot()) == DeleteAccount(old(Snapshot()), id)
      ensures old(Valid(Snapshot())) ==> Valid(Snapshot())
      ensures old(InStep(Snapshot())) ==> InStep(Snapshot())
    {
      var before := Snapshot();
      var found := IndexOfKey(accounts, AccountKey, id);
      if found.None? {
        return Reply(404, Failure("Account not found"));
      }
      var i := found.value;
      accounts := accounts[..i] + accounts[i + 1..];
      reply := Commit(before, Reply(200, Done("Account deleted successfully")), 500);
      DeleteAccountReplies(before, id);
    }

    /** cards.js:23-71: push the card with its type lower-cased, save. */
    method AddCard(accountId: Id, kind: Option<string>, number: string, expiry: string, newId: Id)
      returns (reply: Reply)
      modifies this
      ensures Outcome(reply, Snapshot()) == PostCard(old(Snapshot()), accountId, kind, number, expiry, newId)
      ensures old(Valid(Snapshot())) && FreshId(old(Snapshot()), newId) ==> Valid(Snapshot())
      ensures old(InStep(Snapshot())) ==> InStep(Snapshot())
    {
      var before := Snapshot();
      var found := IndexOfKey(accounts, AccountKey, accountId);
      if found.None? {
        return Reply(404, Failure("Account not found"));
      }
      if kind.None? {
        return Reply(400, Failure(LowerCaseError));
      }
      cards := cards + [Card(newId, accountId, Lower(kind.value), number, expiry)];
      reply := Commit(before, Reply(201, CardList(cards)), 400);
      if Valid(before) && FreshId(before, newId) {
        PostCardKeepsValid(before, accountId, kind, number, expiry, newId);
      }
    }

    /** cards.js:74-93: splice the card out, save. */
    method RemoveCard(id: Id) returns (reply: Reply)
      modifies this
      ensures Outcome(reply, Snapshot()) == DeleteCard(old(Snapshot()), id)
      ensures old(Valid(Snapshot())) ==> Valid(Snapshot())
      ensures old(InStep(Snapshot())) ==> InStep(Snapshot())
    {
      var before := Snapshot();
      var found := IndexOfKey(cards, CardKey, id);
      if found.None? {
        return Reply(404, Failure("Card not found"));
      }
      var i := found.value;
      cards := cards[..i] + cards[i + 1..];
      reply := Commit(before, Reply(200, Done("Card deleted successfully")), 500);
      DeleteCardReplies(before, id);
    }
  }

  /** One request against a user that may be missing, performed in place. */
  method Handle(user: UserDoc?, route: Route, newId: Id, now: Millis) returns (reply: Reply)
    modifies if user != null then {user} else {}
    ensures var s := Serve(if user == null then None else Some(old(user.Snapshot())), route, newId, now);
      reply == s.reply && (user != null ==> s.user == Some(user.Snapshot()))
  {
    if route.PostTransactions? && Picked(route.body).None? {
      return Reply(400, Failure(DestructureError));
    }
    if user == null {
      return Reply(404, Failure("User not found"));
    }
    match route
    case GetTransactions => reply := Reply(200, TransactionList(user.transactions));
    case PostTransactions(body) => reply := user.CreateTransaction(body, newId, now);
    case DeleteTransactions(id) => reply := user.RemoveTransaction(id);
    case GetAccounts => reply := Reply(200, AccountList(user.accounts));
    case PostAccounts(name, kind) => reply := user.CreateAccount(name, kind, newId);
    case PutAccounts(id, name, kind, balance) => reply := user.UpdateAccount(id, name, kind, balance);
    case DeleteAccounts(id) => reply := user.RemoveAccount(id);
    case GetCards => reply := Reply(200, CardList(user.cards));
    case PostCards(accountId, kind, number, expiry) => reply := user.AddCard(accountId, kind, number, expiry, newId);
    case DeleteCards(id) => reply := user.RemoveCard(id);
  }
}
