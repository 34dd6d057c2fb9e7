// The form of client/src/components/TransactionModal.jsx: its state (the
// form fields, the submitting flag, the error shown) and the two handlers
// that change it. The stored token, `parseFloat`, the date conversion and the
// `fetch` with its JSON answer are parameters; `onClose` is the parent
// hiding the modal and `onSubmit` is recorded as the data it received.

module TransactionModal {
  import opened Wrappers
  import opened Text
  import opened UserSchema
  import Seqs
  import Ledger

  /** The two types the form's buttons can set. */
  datatype TxType = Expense | Income

  function TypeName(t: TxType): string {
    match t
    case Expense => "expense"
    case Income => "income"
  }

  /** `formData`: the amount is the text typed; the date is the date input's `YYYY-MM-DD` text. */
  datatype FormData = FormData(kind: TxType, amount: string, category: string, description: string,
                               accountId: string, date: string)

  /** `initialFormData`, rebuilt on every render with that day's date. */
  function InitialForm(today: string): FormData {
    FormData(Expense, "", "", "", "", today)
  }

  const IncomeCategories: seq<string> := ["Salary", "Investment", "Gift", "Other Income"]
  const ExpenseCategories: seq<string> := ["Food", "Transport", "Shopping", "Bills", "Entertainment", "Other"]

  /** `categories[formData.type]`: the options of the category select. */
  function Offered(t: TxType): seq<string> {
    if t == Income then IncomeCategories else ExpenseCategories
  }

  /**
   * Each type offers its own list; the two lists share no category, and no
   * offered category is blank, so the route's category check passes on all of
   * them.
   */
  lemma OfferedCategories(t: TxType)
    ensures Offered(t) == (if TypeName(t) == "income" then IncomeCategories else ExpenseCategories)
    ensures forall c :: c in IncomeCategories ==> c !in ExpenseCategories
    ensures forall c :: c in Offered(t) ==> !AllWhite(c) && Filled(c) && Trimmed(c)
    ensures IsTxKind(TypeName(t))
  {
    forall c | c in Offered(t) ensures !AllWhite(c) && Filled(c) && Trimmed(c) {
      assert !IsWhiteSpace(c[0]);
    }
  }

  /** `submissionData`: `amount` is `parseFloat`'s value, None for NaN (sent as `null`). */
  datatype Submission = Submission(kind: string, amount: Option<Cents>, category: string, description: string,
                                   accountId: string, date: string)

  /**
   * What `fetch` and `response.json()` give: an answer with its `ok` flag,
   * the `error` field of its data ("" when absent) and the data, or the
   * message of what they threw.
   */
  datatype FetchResult = Answer(ok: bool, error: string, data: Ledger.Body) | Thrown(message: string)

  const AccountMissing := "Please select an account"
  const AmountInvalid := "Please enter a valid amount"
  const CategoryMissing := "Please select a category"
  const TokenMissing := "Authentication token not found"
  const PostFailed := "Failed to add transaction"

  /** How one submit attempt ends: stopped before the request, failed after it, or answered with data. */
  datatype Attempt = Rejected(message: string) | Failed(sent: Submission, message: string)
                   | Accepted(sent: Submission, data: Ledger.Body)

  /** The first validation message (handleSubmit's three checks, in order), or None. */
  function Check(form: FormData, parse: string -> Option<Cents>): (r: Option<string>)
  {
    if form.accountId == "" then Some(AccountMissing)
    // `parseFloat(...) <= 0` is false for NaN, so only a number at or below zero is refused
    else if form.amount == "" || (parse(form.amount).Some? && parse(form.amount).value <= 0) then Some(AmountInvalid)
    else if form.category == "" then Some(CategoryMissing)
    else None
  }

  /** The body sent for a form that passed the checks. */
  function SubmissionOf(form: FormData, parse: string -> Option<Cents>, isoDate: string): Submission {
    Submission(TypeName(form.kind), parse(form.amount), form.category, Trim(form.description), form.accountId, isoDate)
  }

  /**
   * The `try` block of handleSubmit: the checks, the token, the date
   * conversion (`toISOString` throws on an invalid date), the request, and
   * an answer that is not `ok` turned into its error message.
   */
  function Submit(form: FormData, token: Option<string>, parse: string -> Option<Cents>,
                  toIso: string -> Option<string>, post: Submission -> FetchResult): Attempt
  {
    match Check(form, parse)
    case Some(message) => Rejected(message)
    case None =>
      if token.None? || token.value == "" then Rejected(TokenMissing)
      else if toIso(form.date).None? then Rejected(InvalidTimeValue)
      else
        var sent := SubmissionOf(form, parse, toIso(form.date).value);
        match post(sent)
        case Thrown(message) => Failed(sent, message)
        case Answer(ok, error, data) =>
          if !ok then Failed(sent, if error == "" then PostFailed else error)
          else Accepted(sent, data)
  }

  /** The RangeError message of `toISOString` on an invalid date. */
  const InvalidTimeValue := "Invalid time value"

  /**
   * The validation order: the account is checked first, then the amount
   * (empty, or a number not above zero), then the category; the first
   * failure is the message and no request is made. A request is made exactly
   * when the three checks, the token and the date pass.
   */
  lemma SubmitOrder(form: FormData, token: Option<string>, parse: string -> Option<Cents>,
                    toIso: string -> Option<string>, post: Submission -> FetchResult)
    ensures var r := Submit(form, token, parse, toIso, post);
      && (form.accountId == "" ==> r == Rejected(AccountMissing))
      && ((form.accountId != "" && (form.amount == "" || (parse(form.amount).Some? && parse(form.amount).value <= 0)))
          ==> r == Rejected(AmountInvalid))
      && ((form.accountId != "" && form.amount != "" && (parse(form.amount).None? || parse(form.amount).value > 0)
           && form.category == "") ==> r == Rejected(CategoryMissing))
      && (!r.Rejected? <==>
            form.accountId != "" && form.amount != "" && (parse(form.amount).None? || parse(form.amount).value > 0)
            && form.category != "" && token.Some? && token.value != "" && toIso(form.date).Some?)
  {
  }

  /**
   * What is sent: the form's type, account and category as chosen, the
   * description trimmed, and an amount that is either above zero or NaN.
   */
  lemma SentFields(form: FormData, token: Option<string>, parse: string -> Option<Cents>,
                   toIso: string -> Option<string>, post: Submission -> FetchResult)
    requires !Submit(form, token, parse, toIso, post).Rejected?
    ensures var s := Submit(form, token, parse, toIso, post).sent;
      && s.kind == TypeName(form.kind) && IsTxKind(s.kind)
      && s.accountId == form.accountId && s.accountId != ""
      && s.category == form.category && s.category != ""
      && s.description == Trim(form.description) && Trimmed(s.description)
      && s.amount == parse(form.amount) && (s.amount.None? || s.amount.value > 0)
      && s.date == toIso(form.date).value
  {
  }

  /** The route's reading of a submission; the date parse of the ISO string is a parameter. */
  function FieldsOf(s: Submission, date: Option<Millis>): Ledger.TxFields {
    Ledger.TxFields(s.kind, s.amount, s.category, s.description, s.accountId, date)
  }

  /**
   * Client and route agree: a submission with a number for one of the stored
   * accounts, whose category is one the form offers, is stored with a 201.
   */
  lemma SubmissionStored(d: Ledger.Doc, form: FormData, token: Option<string>, parse: string -> Option<Cents>,
                         toIso: string -> Option<string>, post: Submission -> FetchResult,
                         date: Option<Millis>, newId: Seqs.Id, now: Millis)
    requires Ledger.Valid(d) && form.category in Offered(form.kind)
    requires !Submit(form, token, parse, toIso, post).Rejected?
    requires form.accountId in Seqs.KeySet(d.accounts, AccountKey) && parse(form.amount).Some?
    ensures var f := FieldsOf(Submit(form, token, parse, toIso, post).sent, date);
      Ledger.PostTransaction(d, Ledger.Single(f), newId, now).reply.status == 201
  {
    var sent := Submit(form, token, parse, toIso, post).sent;
    SentFields(form, token, parse, toIso, post);
    OfferedCategories(form.kind);
    var f := FieldsOf(sent, date);
    assert f.kind == TypeName(form.kind) && f.category == form.category && f.accountId == form.accountId;
    Ledger.PostTransactionAccepted(d, f, newId, now);
  }

  class TransactionForm {
    var form: FormData
    var isSubmitting: bool
    var error: string
    /** Whether the parent still shows the modal; `onClose` clears it. */
    var open: bool
    /** The data each `onSubmit` call received, oldest first. */
    var delivered: seq<Ledger.Body>

    constructor (today: string)
      ensures form == InitialForm(today) && !isSubmitting && error == "" && open && delivered == []
    {
      form, isSubmitting, error, open, delivered := InitialForm(today), false, "", true, [];
    }

    /**
     * `handleSubmit`: ignored while a submit is in progress; otherwise the
     * error is cleared, the attempt runs, and the submitting flag is cleared
     * at the end whatever happened. On success the form is reset, the error
     * cleared and the modal closed before `onSubmit` gets the server's data;
     * on any failure the form is kept and its message shown.
     */
    method HandleSubmit(today: string, token: Option<string>, parse: string -> Option<Cents>,
                        toIso: string -> Option<string>, post: Submission -> FetchResult)
      modifies this
      ensures old(isSubmitting) ==>
        isSubmitting && form == old(form) && error == old(error) && open == old(open) && delivered == old(delivered)
      ensures !old(isSubmitting) ==> !isSubmitting
      ensures !old(isSubmitting) ==>
        match Submit(old(form), token, parse, toIso, post)
        case Accepted(_, data) =>
          form == InitialForm(today) && error == "" && !open && delivered == old(delivered) + [data]
        case Rejected(message) =>
          form == old(form) && error == message && open == old(open) && delivered == old(delivered)
        case Failed(_, message) =>
          form == old(form) && error == message && open == old(open) && delivered == old(delivered)
    {
      if isSubmitting {
        return;
      }
      error := "";
      isSubmitting := true;
      var attempt := Submit(form, token, parse, toIso, post);
      match attempt {
        case Accepted(_, data) =>
          form := InitialForm(today);
          error := "";
          open := false;
          delivered := delivered + [data];
        case Rejected(message) =>
          error := message;
        case Failed(_, message) =>
          error := message;
      }
      isSubmitting := false;
    }

    /** `handleClose`: the form, the error and the submitting flag go back to their initial values. */
    method HandleClose(today: string)
      modifies this
      ensures form == InitialForm(today) && error == "" && !isSubmitting && !open
      ensures delivered == old(delivered)
    {
      form := InitialForm(today);
      error := "";
      isSubmitting := false;
      open := false;
    }

    /** The type buttons: only the type changes; a category already chosen stays selected. */
    method SetType(t: TxType)
      modifies this
      ensures form == old(form).(kind := t)
      ensures isSubmitting == old(isSubmitting) && error == old(error) && open == old(open)
      ensures delivered == old(delivered)
    {
      form := form.(kind := t);
    }
  }

  /**
   * A type switch keeps a chosen category even though the other type never
   * offers it: the two category lists share no entry.
   */
  lemma SwitchKeepsForeignCategory(f: FormData, t: TxType)
    requires f.category in Offered(f.kind) && t != f.kind
    ensures f.(kind := t).category == f.category
    ensures f.(kind := t).category !in Offered(t)
  {
    OfferedCategories(f.kind);
    OfferedCategories(t);
  }
}
