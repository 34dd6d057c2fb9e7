// What client/src/components/MainDashboard.jsx computes from the lists it is
// given: the transactions and cards shown for the selected account, the
// "All Accounts" figure, the masked card number, and the prompt chains of
// the add-account and add-card buttons. A `prompt` answer is None when the
// user cancels it; alerts are the messages the chain ends with.

module MainDashboard {
  import opened Wrappers
  import opened Seqs
  import opened Text
  import opened UserSchema
  import opened Ledger

  // ---------------------------------------------------------------------------
  // The lists shown (MainDashboard.jsx:26-30, 205-206)
  // ---------------------------------------------------------------------------

  function Date(t: Transaction): int { t.date }

  /** `getCurrentTransactions`: the selected account's transactions (all when none is selected), newest first. */
  function CurrentTransactions(transactions: seq<Transaction>, activeAccount: Option<Id>): seq<Transaction> {
    SortDesc(OfSelection(transactions, TxOwner, activeAccount), Date)
  }

  /**
   * Exactly the selected account's transactions, each as often as it is
   * stored, ordered by date with the newest first; with no selection, every
   * transaction.
   */
  lemma CurrentTransactionsShown(transactions: seq<Transaction>, activeAccount: Option<Id>)
    ensures var r := CurrentTransactions(transactions, activeAccount);
      && (forall t :: t in r <==> t in transactions && (activeAccount.None? || t.accountId == activeAccount.value))
      && multiset(r) == multiset(OfSelection(transactions, TxOwner, activeAccount))
      && (activeAccount.None? ==> multiset(r) == multiset(transactions))
      && (forall i, j :: 0 <= i < j < |r| ==> r[i].date >= r[j].date)
  {
    var s := OfSelection(transactions, TxOwner, activeAccount);
    var r := CurrentTransactions(transactions, activeAccount);
    forall t ensures t in r <==> t in s {
      assert t in r <==> t in multiset(r);
      assert t in s <==> t in multiset(s);
    }
    forall i, j | 0 <= i < j < |r| ensures r[i].date >= r[j].date {
      assert Date(r[i]) >= Date(r[j]);
    }
  }

  /** The card list: the selected account's cards in stored order, or every card. */
  function CardsShown(cards: seq<Card>, activeAccount: Option<Id>): (r: seq<Card>)
    ensures forall c :: c in r <==> c in cards && (activeAccount.None? || c.accountId == activeAccount.value)
    ensures activeAccount.None? ==> r == cards
  {
    OfSelection(cards, CardOwner, activeAccount)
  }

  /** The cards not shown for a selection are exactly the other accounts' cards. */
  lemma CardsShownSplit(cards: seq<Card>, a: Id)
    ensures multiset(CardsShown(cards, Some(a))) + multiset(NotOwnedBy(cards, CardOwner, a)) == multiset(cards)
  {
    OwnedBySplit(cards, CardOwner, a);
  }

  // ---------------------------------------------------------------------------
  // The "All Accounts" figure (MainDashboard.jsx:152)
  // ---------------------------------------------------------------------------

  /** `acc.balance || 0`: a listed balance, None when the account carries none. */
  function ShownBalance(balance: Option<Cents>): Cents {
    if balance.Some? then balance.value else 0
  }

  /** `accounts.reduce((sum, acc) => sum + (acc.balance || 0), 0)`, over the listed balances in order. */
  function AllAccountsFigure(balances: seq<Option<Cents>>): Cents {
    if |balances| == 0 then 0
    else AllAccountsFigure(balances[..|balances| - 1]) + ShownBalance(balances[|balances| - 1])
  }

  /** The balances as they arrive from the server, where every stored account has one. */
  function ListedBalances(accounts: seq<Account>): (r: seq<Option<Cents>>)
    ensures |r| == |accounts|
    ensures forall k :: 0 <= k < |r| ==> r[k] == Some(accounts[k].balance)
  {
    seq(|accounts|, k requires 0 <= k < |accounts| => Some(accounts[k].balance))
  }

  /** For stored accounts the figure is the document's `totalBalance`. */
  lemma {:induction false} AllAccountsIsTotalBalance(accounts: seq<Account>)
    ensures AllAccountsFigure(ListedBalances(accounts)) == TotalBalance(accounts)
    decreases |accounts|
  {
    if |accounts| > 0 {
      var p := accounts[..|accounts| - 1];
      AllAccountsIsTotalBalance(p);
      assert ListedBalances(accounts)[..|accounts| - 1] == ListedBalances(p);
    }
  }

  /** An account with no balance adds nothing, wherever it is listed. */
  lemma {:induction false} MissingBalanceCountsZero(before: seq<Option<Cents>>, after: seq<Option<Cents>>)
    ensures AllAccountsFigure(before + [None] + after) == AllAccountsFigure(before + after)
    decreases |after|
  {
    if |after| == 0 {
      assert (before + [None] + after)[..|before|] == before;
      assert before + after == before;
    } else {
      var p := after[..|after| - 1];
      var last := after[|after| - 1];
      MissingBalanceCountsZero(before, p);
      assert (before + [None] + after)[..|before + [None] + after| - 1] == before + [None] + p;
      assert (before + after)[..|before + after| - 1] == before + p;
    }
  }

  // ---------------------------------------------------------------------------
  // The masked number (MainDashboard.jsx:220)
  // ---------------------------------------------------------------------------

  /** `card.number.slice(-4)`: the last four characters, or the whole number when it is shorter. */
  function LastFour(number: string): (r: string)
    ensures |r| == if |number| < 4 then |number| else 4
    ensures r == number[|number| - |r|..]
  {
    if |number| < 4 then number else number[|number| - 4..]
  }

  /** The line the card shows. */
  function Masked(number: string): string {
    "**** " + LastFour(number)
  }

  /** A stored card number shows its last group of four digits and nothing else of it. */
  lemma MaskedCardNumber(number: string)
    requires IsCardNumber(number)
    ensures LastFour(number) == number[15..19] && IsFourDigits(LastFour(number))
    ensures Masked(number) == "**** " + number[15..19]
  {
    CardNumberGroups(number);
  }

  /** Two numbers that end alike are masked alike: the first characters are never shown. */
  lemma MaskHidesPrefix(a: string, b: string, tail: string)
    requires |tail| == 4
    ensures Masked(a + tail) == Masked(b + tail)
  {
    assert LastFour(a + tail) == tail;
    assert LastFour(b + tail) == tail;
  }

  // ---------------------------------------------------------------------------
  // The prompt chains (MainDashboard.jsx:32-48, 68-118)
  // ---------------------------------------------------------------------------

  /** How a chain ends: cancelled silently, stopped by an alert, or handed to the dashboard. */
  datatype Prompted<T> = Cancelled | Alerted(message: string) | Submitted(request: T)

  datatype NewAccount = NewAccount(name: string, kind: string)

  datatype NewCard = NewCard(accountId: Id, kind: string, number: string, expiry: string)

  const AccountTypeAlert := "Please enter either \"checking\" or \"savings\""
  const AddAccountFailed := "Failed to add account. Please try again."

  predicate IsAccountTypeChoice(k: string) { k == "checking" || k == "savings" }

  /**
   * `handleAddAccount`: an empty or cancelled name stops silently; a
   * cancelled type prompt makes `toLowerCase` throw, which the catch turns
   * into the failure alert; a lower-cased type other than checking or
   * savings is alerted; otherwise the name and the lower-cased type go on.
   */
  function AddAccountPrompts(name: Option<string>, typed: Option<string>): (r: Prompted<NewAccount>)
    ensures r.Cancelled? <==> name.None? || name.value == ""
    ensures r.Submitted? <==>
      name.Some? && name.value != "" && typed.Some? && IsAccountTypeChoice(Lower(typed.value))
    ensures r.Submitted? ==> r.request == NewAccount(name.value, Lower(typed.value))
    ensures r.Alerted? ==> r.message == (if typed.None? then AddAccountFailed else AccountTypeAlert)
  {
    if name.None? || name.value == "" then Cancelled
    else if typed.None? then Alerted(AddAccountFailed)
    else
      var kind := Lower(typed.value);
      if kind == "" || !IsAccountTypeChoice(kind) then Alerted(AccountTypeAlert)
      else Submitted(NewAccount(name.value, kind))
  }

  /**
   * What the prompts let through, the route stores: a submitted account
   * whose name is not blank is saved with a 201, since its type is one of
   * two non-blank words.
   */
  lemma SubmittedAccountStored(d: Doc, name: Option<string>, typed: Option<string>, newId: Id)
    requires Valid(d)
    requires AddAccountPrompts(name, typed).Submitted? && !AllWhite(name.value)
    ensures var q := AddAccountPrompts(name, typed).request;
      PostAccount(d, q.name, q.kind, newId).reply.status == 201
  {
    var q := AddAccountPrompts(name, typed).request;
    PostAccountAccepted(d, q.name, q.kind, newId);
    assert !IsWhiteSpace(q.kind[0]);
  }

  const NoAccountAlert := "Please create an account first"
  const AccountNotFoundAlert := "Account not found. Please enter an exact account name."
  const CardTypeAlert := "Please enter either \"credit\" or \"debit\""
  const CardNumberAlert := "Please enter a valid card number in the format XXXX-XXXX-XXXX-XXXX"
  const ExpiryAlert := "Please enter a valid expiry date in the format MM/YY"

  /** `acc.name.toLowerCase() === selectedName.toLowerCase()`. */
  function NameMatches(selected: string): Account -> bool {
    (acc: Account) => Lower(acc.name) == Lower(selected)
  }

  /**
   * `handleAddCard`: no accounts is alerted before any prompt; then the
   * account name (the first account whose name matches ignoring case), the
   * type, the number and the expiry are asked for in that order, and the first
   * answer that fails ends the chain.
   */
  function AddCardPrompts(accounts: seq<Account>, selected: Option<string>, typed: Option<string>,
                          number: Option<string>, expiry: Option<string>): Prompted<NewCard>
  {
    if |accounts| == 0 then Alerted(NoAccountAlert)
    else if selected.None? || selected.value == "" then Cancelled
    else
      match IndexWhere(accounts, NameMatches(selected.value))
      case None => Alerted(AccountNotFoundAlert)
      case Some(i) =>
        if typed.None? || typed.value == "" || !IsCardKind(Lower(typed.value)) then Alerted(CardTypeAlert)
        else if number.None? || number.value == "" || !IsCardNumber(number.value) then Alerted(CardNumberAlert)
        else if expiry.None? || expiry.value == "" || !IsExpiry(expiry.value) then Alerted(ExpiryAlert)
        else Submitted(NewCard(accounts[i].id, Lower(typed.value), number.value, expiry.value))
  }

  /**
   * The chain's outcomes in order: each check is reached only when the
   * earlier ones pass, and a request goes out exactly when all pass, for the
   * first account whose name matches, with the type lower-cased and the
   * number and expiry as typed.
   */
  lemma AddCardOrder(accounts: seq<Account>, selected: Option<string>, typed: Option<string>,
                     number: Option<string>, expiry: Option<string>)
    ensures var r := AddCardPrompts(accounts, selected, typed, number, expiry);
      && (|accounts| == 0 ==> r == Alerted(NoAccountAlert))
      && (|accounts| > 0 && (selected.None? || selected.value == "") ==> r == Cancelled)
      && (|accounts| > 0 && selected.Some? && selected.value != ""
          && (forall k :: 0 <= k < |accounts| ==> Lower(accounts[k].name) != Lower(selected.value)) ==>
            r == Alerted(AccountNotFoundAlert))
      && (r.Submitted? <==>
            |accounts| > 0 && selected.Some? && selected.value != ""
            && (exists k :: 0 <= k < |accounts| && Lower(accounts[k].name) == Lower(selected.value))
            && typed.Some? && IsCardKind(Lower(typed.value))
            && number.Some? && IsCardNumber(number.value)
            && expiry.Some? && IsExpiry(expiry.value))
      && (r.Submitted? ==>
            exists i :: 0 <= i < |accounts| && Lower(accounts[i].name) == Lower(selected.value)
              && (forall j :: 0 <= j < i ==> Lower(accounts[j].name) != Lower(selected.value))
              && r.request == NewCard(accounts[i].id, Lower(typed.value), number.value, expiry.value))
  {
    var r := AddCardPrompts(accounts, selected, typed, number, expiry);
    if |accounts| > 0 && selected.Some? && selected.value != "" {
      var found := IndexWhere(accounts, NameMatches(selected.value));
      if found.Some? {
        var i := found.value;
        assert Lower(accounts[i].name) == Lower(selected.value);
        forall j | 0 <= j < i ensures Lower(accounts[j].name) != Lower(selected.value) {
          assert !NameMatches(selected.value)(accounts[j]);
        }
      } else {
        forall k | 0 <= k < |accounts| ensures Lower(accounts[k].name) != Lower(selected.value) {
          assert !NameMatches(selected.value)(accounts[k]);
        }
      }
      if typed.Some? && typed.value == "" {
        assert Lower(typed.value) == "";
      }
      if number.Some? && number.value == "" {
        assert !IsCardNumber(number.value);
      }
      if expiry.Some? && expiry.value == "" {
        assert !IsExpiry(expiry.value);
      }
    }
  }

  /**
   * The client's checks are the route's: when the dashboard lists the stored
   * accounts, a submitted card is saved with a 201.
   */
  lemma SubmittedCardStored(d: Doc, selected: Option<string>, typed: Option<string>,
                            number: Option<string>, expiry: Option<string>, newId: Id)
    requires Valid(d) && forall k :: 0 <= k < |d.accounts| ==> d.accounts[k].id != ""
    requires AddCardPrompts(d.accounts, selected, typed, number, expiry).Submitted?
    ensures var q := AddCardPrompts(d.accounts, selected, typed, number, expiry).request;
      PostCard(d, q.accountId, Some(q.kind), q.number, q.expiry, newId).reply.status == 201
  {
    var r := AddCardPrompts(d.accounts, selected, typed, number, expiry);
    var q := r.request;
    assert IsCardKind(Lower(q.kind)) && IsCardNumber(q.number) && IsExpiry(q.expiry)
      && q.accountId in KeySet(d.accounts, AccountKey) && q.accountId != "" by {
      var i := IndexWhere(d.accounts, NameMatches(selected.value)).value;
      assert q == NewCard(d.accounts[i].id, Lower(typed.value), number.value, expiry.value);
      assert d.accounts[i] in d.accounts;
      LowerIdempotent(typed.value);
    }
    PostCardAccepted(d, q.accountId, q.kind, q.number, q.expiry, newId);
  }
}
