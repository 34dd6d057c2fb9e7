// The User document of server/models/User.js: its embedded accounts,
// cards and transactions, what the schema does to a value when it is
// assigned (trim, lower-case) and which values it refuses when the
// document is saved. One message per failing path, the first failing
// validator of that path, in schema order.

module UserSchema {
  import opened Wrappers
  import opened Seqs
  import opened Text

  /** Money is held in whole cents; see README for the treatment of `toFixed(2)`. */
  type Cents = int

  /** Milliseconds since the epoch, as a JavaScript `Date` holds them. */
  type Millis = int

  datatype Account = Account(id: Id, name: string, kind: string, balance: Cents)

  datatype Card = Card(id: Id, accountId: Id, kind: string, number: string, expiry: string)

  datatype Transaction = Transaction(
    id: Id, kind: string, amount: Cents, category: string,
    description: string, accountId: Id, date: Millis)

  function AccountKey(a: Account): Id { a.id }
  function CardKey(c: Card): Id { c.id }
  function TxKey(t: Transaction): Id { t.id }
  function CardOwner(c: Card): Id { c.accountId }
  function TxOwner(t: Transaction): Id { t.accountId }

  /** A `String` path with `required` (and `trim`): present and not empty once trimmed. */
  predicate Filled(s: string) { s != "" }

  // ---------------------------------------------------------------------------
  // Accounts (User.js:6-23)
  // ---------------------------------------------------------------------------

  /** The account as the schema stores it: `name` and `type` are trimmed on assignment. */
  function CastAccount(id: Id, name: string, kind: string, balance: Cents): (a: Account)
    ensures Trimmed(a.name) && Trimmed(a.kind)
    ensures a.id == id && a.balance == balance
  {
    Account(id, Trim(name), Trim(kind), balance)
  }

  predicate ValidAccount(a: Account) {
    Filled(a.name) && Filled(a.kind) && Trimmed(a.name) && Trimmed(a.kind)
  }

  /** The save-time validation messages of one account. */
  function AccountErrors(a: Account): (r: seq<string>)
    ensures r == [] <==> (Filled(a.name) && Filled(a.kind))
    ensures |r| <= 2
  {
    (if a.name == "" then ["Account name is required"] else [])
    + (if a.kind == "" then ["Account type is required"] else [])
  }

  /** A cast account passes validation exactly when neither field is blank. */
  lemma CastAccountValid(id: Id, name: string, kind: string, balance: Cents)
    ensures ValidAccount(CastAccount(id, name, kind, balance)) <==> !AllWhite(name) && !AllWhite(kind)
    ensures AccountErrors(CastAccount(id, name, kind, balance)) == [] <==> ValidAccount(CastAccount(id, name, kind, balance))
  {
    TrimBlank(name);
    TrimBlank(kind);
  }

  // ---------------------------------------------------------------------------
  // Cards (User.js:26-57)
  // ---------------------------------------------------------------------------

  predicate IsCardKind(k: string) { k == "credit" || k == "debit" }

  predicate ValidCard(c: Card) {
    Filled(c.accountId) && IsCardKind(c.kind) && IsCardNumber(c.number) && IsExpiry(c.expiry)
  }

  function EnumMessage(v: string, path: string): string {
    "`" + v + "` is not a valid enum value for path `" + path + "`."
  }

  function CardErrors(c: Card): (r: seq<string>)
    ensures r == [] <==> ValidCard(c)
  {
    (if c.accountId == "" then ["Account ID is required"] else [])
    + (if c.kind == "" then ["Card type is required"]
       else if !IsCardKind(c.kind) then [EnumMessage(c.kind, "type")] else [])
    + (if c.number == "" then ["Card number is required"]
       else if !IsCardNumber(c.number)
       then [c.number + " is not a valid card number! Format should be: XXXX-XXXX-XXXX-XXXX"] else [])
    + (if c.expiry == "" then ["Expiry date is required"]
       else if !IsExpiry(c.expiry)
       then [c.expiry + " is not a valid expiry date! Format should be: MM/YY"] else [])
  }

  // ---------------------------------------------------------------------------
  // Transactions (User.js:60-90)
  // ---------------------------------------------------------------------------

  predicate IsTxKind(k: string) { k == "income" || k == "expense" }

  /** The transaction as stored: `category` and `description` trimmed on assignment. */
  function CastTransaction(
    id: Id, kind: string, amount: Cents, category: string,
    description: string, accountId: Id, date: Millis): (t: Transaction)
    ensures Trimmed(t.category) && Trimmed(t.description)
    ensures t.id == id && t.kind == kind && t.amount == amount && t.accountId == accountId && t.date == date
  {
    Transaction(id, kind, amount, Trim(category), Trim(description), accountId, date)
  }

  predicate ValidTransaction(t: Transaction) {
    IsTxKind(t.kind) && Filled(t.category) && Trimmed(t.category) && Trimmed(t.description)
    && Filled(t.accountId)
  }

  function TransactionErrors(t: Transaction): (r: seq<string>)
    ensures r == [] <==> (IsTxKind(t.kind) && Filled(t.category) && Filled(t.accountId))
  {
    (if t.kind == "" then ["Transaction type is required"]
     else if !IsTxKind(t.kind) then [EnumMessage(t.kind, "type")] else [])
    + (if t.category == "" then ["Category is required"] else [])
    + (if t.accountId == "" then ["Account ID is required"] else [])
  }

  /** A cast transaction is valid exactly when its type is in the enum, its category is not blank and it names an account. */
  lemma CastTransactionValid(
    id: Id, kind: string, amount: Cents, category: string,
    description: string, accountId: Id, date: Millis)
    ensures ValidTransaction(CastTransaction(id, kind, amount, category, description, accountId, date))
      <==> IsTxKind(kind) && !AllWhite(category) && accountId != ""
  {
    var t := CastTransaction(id, kind, amount, category, description, accountId, date);
    assert Trimmed(t.category) && Trimmed(t.description);
    TrimBlank(category);
    assert Filled(t.category) <==> !AllWhite(category);
  }

  /** Validation of a transaction that went through the schema's setters accepts exactly the valid ones. */
  lemma TransactionErrorsValid(t: Transaction)
    requires Trimmed(t.category) && Trimmed(t.description)
    ensures TransactionErrors(t) == [] <==> ValidTransaction(t)
  {
  }

  // ---------------------------------------------------------------------------
  // The whole document: save validates every embedded entry
  // ---------------------------------------------------------------------------

  function AllAccountErrors(xs: seq<Account>): (r: seq<string>)
    ensures r == [] <==> forall i :: 0 <= i < |xs| ==> AccountErrors(xs[i]) == []
  {
    if |xs| == 0 then [] else AllAccountErrors(xs[..|xs| - 1]) + AccountErrors(xs[|xs| - 1])
  }

  function AllCardErrors(xs: seq<Card>): (r: seq<string>)
    ensures r == [] <==> forall i :: 0 <= i < |xs| ==> ValidCard(xs[i])
  {
    if |xs| == 0 then [] else AllCardErrors(xs[..|xs| - 1]) + CardErrors(xs[|xs| - 1])
  }

  function AllTransactionErrors(xs: seq<Transaction>): (r: seq<string>)
    ensures r == [] <==> forall i :: 0 <= i < |xs| ==> TransactionErrors(xs[i]) == []
  {
    if |xs| == 0 then [] else AllTransactionErrors(xs[..|xs| - 1]) + TransactionErrors(xs[|xs| - 1])
  }

  /** Every message `save` would report for a document with these embedded arrays. */
  function DocumentErrors(accounts: seq<Account>, cards: seq<Card>, txs: seq<Transaction>): seq<string> {
    AllAccountErrors(accounts) + AllCardErrors(cards) + AllTransactionErrors(txs)
  }

  /** `save` reports nothing exactly when every embedded entry passes its validators. */
  lemma DocumentErrorsEmpty(accounts: seq<Account>, cards: seq<Card>, txs: seq<Transaction>)
    ensures DocumentErrors(accounts, cards, txs) == [] <==>
      (forall i :: 0 <= i < |accounts| ==> AccountErrors(accounts[i]) == [])
      && (forall i :: 0 <= i < |cards| ==> ValidCard(cards[i]))
      && (forall i :: 0 <= i < |txs| ==> TransactionErrors(txs[i]) == [])
  {
  }

  /** A document as `save` leaves it: unique subdocument ids and every entry as the schema stores and admits it. */
  ghost predicate ValidDocument(accounts: seq<Account>, cards: seq<Card>, txs: seq<Transaction>) {
    UniqueKeys(accounts, AccountKey) && UniqueKeys(cards, CardKey) && UniqueKeys(txs, TxKey)
    && (forall i :: 0 <= i < |accounts| ==> ValidAccount(accounts[i]))
    && (forall i :: 0 <= i < |cards| ==> ValidCard(cards[i]))
    && (forall i :: 0 <= i < |txs| ==> ValidTransaction(txs[i]))
  }

  /** The virtual `totalBalance`: the sum of the account balances. */
  function TotalBalance(accounts: seq<Account>): Cents {
    if |accounts| == 0 then 0 else TotalBalance(accounts[..|accounts| - 1]) + accounts[|accounts| - 1].balance
  }

  // ---------------------------------------------------------------------------
  // The user profile (User.js:93-118)
  // ---------------------------------------------------------------------------

  /** The stored user; `passwordHash` is what the pre-save hook wrote. */
  datatype Profile = Profile(id: Id, username: string, email: string, passwordHash: string)

  /** The username and email as stored: trimmed, and the email lower-cased. */
  function CastUsername(username: string): (r: string)
    ensures Trimmed(r)
  {
    Trim(username)
  }

  function CastEmail(email: string): (r: string)
    ensures Lower(r) == r
    ensures |r| == |Trim(email)|
  {
    LowerIdempotent(Trim(email));
    Lower(Trim(email))
  }

  /** The save-time messages for a new user, before the password is hashed. */
  function ProfileErrors(username: string, email: string, password: string): (r: seq<string>)
    ensures r == [] <==> |Trim(username)| >= 3 && IsEmail(Trim(email)) && |password| >= 6
  {
    EmailLower(Trim(email));
    var u := CastUsername(username);
    var e := CastEmail(email);
    (if u == "" then ["Username is required"]
     else if |u| < 3 then ["Username must be at least 3 characters long"] else [])
    + (if e == "" then ["Email is required"]
       else if !IsEmail(e) then [e + " is not a valid email address!"] else [])
    + (if password == "" then ["Password is required"]
       else if |password| < 6 then ["Password must be at least 6 characters long"] else [])
  }

  /** A stored email has no surrounding white space and no upper-case letter, so casting it again changes nothing. */
  lemma CastEmailStable(email: string)
    requires IsEmail(Trim(email))
    ensures CastEmail(CastEmail(email)) == CastEmail(email)
  {
    var e := CastEmail(email);
    EmailLower(Trim(email));
    EmailShape(e);
    TrimNoWhite(e);
  }
}
