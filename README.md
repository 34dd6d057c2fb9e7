# Personal-finance tracker: ledger, guards and dashboards in Dafny

This project models the core of a personal-finance web application. Each
user keeps accounts, cards and income/expense transactions in one stored
User document. Administrators can block users by email and device details
and can read the system logs. The model covers these parts:

- **Ledger routes.** The Express routes for transactions, accounts and cards
  change the embedded arrays of the signed-in user's document in place and
  commit them with `save`. `save` validates the whole document and stores
  nothing when validation fails. Each route is stated twice:
  - as a function from the stored document to an `Outcome`, which holds the
    reply and the document stored afterwards;
  - as a method of the class `Ledger.UserDoc`, which does the same steps in
    place and is proved to agree with the function.

  Two invariants are proved to be kept by every route:
  - `Valid`: the document as the schema admits it;
  - `InStep`: every account balance is the signed sum of the transactions
    still recorded against it.
- **The User schema.** The casts `trim` and `lowercase`, the `required` and
  `enum` checks, the regular expressions for card numbers, expiry dates and
  emails, and the `minlength` rules.
- **The two blocklist matchers.** One is the request-time middleware, which
  matches on email, IP, hardware id, or a GPU, resolution and core-count
  fingerprint. The other is the register-time matcher, which matches on
  email, user-agent, browser, or a shared network device. The module also
  covers the records that admin `/block-user` writes.
- **Sign-up and sessions.** `/register` and `/login`, and the bearer-token
  guard in front of the ledger routes.
- **The admin routes.** The `adminAuth` guard; login, which stamps
  `lastLogin`; block, which also deletes the user; unblock; user delete; and
  the log query, which the `/logs` route also serves.
- **The server's fallbacks.** The 404 handler and the error handler in
  `server.js`.
- **The client's logic.**
  - FinanceDashboard: the per-account statistics, the optimistic balance
    update, account creation, and the account-delete cascade the client
    drives through the API.
  - MainDashboard: the lists shown, the "All Accounts" figure, the masked
    card number, and the prompt chains.
  - TransactionModal: the form and its submit and close handlers.
  - StatisticsPage: the grouping and category reductions.

Modelling conventions:

- Money is held in integer cents.
- A request field that is absent is `""`; an optional value is an `Option`.
- A JavaScript `parseFloat` or `parseInt` that gives NaN is `None`.
- JWT signing and verification, bcrypt, fresh ObjectIds, the clock, the
  browser's `prompt`, `fetch` and the local calendar are function
  parameters.

The stored collections of users, blocked users and admins form the class
`Store.Database`. Its route methods are proved against the functions of
`AuthRoutes` and `AdminRoutes`.

Where the design text and the code disagree, the model follows the code:

- The server's `DELETE /api/accounts/:id` removes only the account. The
  deletion of the account's cards and transactions is done by the client
  (`FinanceDashboard.DeleteAccountCascade`). The server-side route leaves
  them behind (`Ledger.DeleteAccountReplies`).
- The amount of a transaction is not required to be positive. Any numeric
  amount is stored.
- Deleting a transaction, as written, never reverses its amount on the
  account. See "## Findings". The rest of the model uses the intended
  reversal.
- A transaction type other than `income` is reversed as an expense on
  deletion (`Balance.Reversal`). Such types cannot be stored, because the
  enum rejects them.

## Model

| member | source | states |
|---|---|---|
| Text.Lower | server/models/User.js:106 | lower-casing keeps the length, leaves no ASCII upper-case letter and changes exactly the upper-case positions |
| Text.LowerIdempotent | server/models/User.js:106 | lower-casing a lower-cased string changes nothing |
| Text.Trim | server/models/User.js:10 | trim never lengthens its input and its result neither starts nor ends with white space |
| Text.TrimShape | server/models/User.js:10 | trim keeps one contiguous piece of the input and removes only white space at the two ends |
| Text.TrimmedFixpoint | server/models/User.js:10 | trim leaves a string alone exactly when it has no white space at either end |
| Text.TrimIdempotent | server/models/User.js:10 | trimming twice is trimming once |
| Text.TrimNoWhite | server/models/User.js:10 | a string with no white space is its own trim |
| Text.TrimBlank | server/models/User.js:7-11 | trim gives "" exactly for all-white-space input, which is what `required` rejects |
| Text.RemoveFirst | server/middleware/auth.js:8 | the first-occurrence `replace` either leaves the string alone or removes exactly the pattern's length |
| Text.RemoveFirstPrefix | server/middleware/auth.js:8 | cutting "Bearer " from "Bearer " + t gives back t |
| Text.RemoveFirstAbsent | server/middleware/auth.js:8 | a header without the prefix is passed on unchanged |
| Text.CardNumberPositions | server/models/User.js:42 | the card-number pattern accepts exactly 19 characters with hyphens at offsets 4, 9 and 14 and digits elsewhere |
| Text.CardNumberGroups | server/models/User.js:42 | the same pattern read as four groups of four digits joined by hyphens |
| Text.ExpiryMonthRange | server/models/User.js:52 | an expiry is MM/YY with two-digit fields and a month from 1 to 12 |
| Text.EmailShape | server/models/User.js:109 | an accepted email has exactly one `@` and no white space |
| Text.EmailLower | server/models/User.js:106-109 | lower-casing never changes whether the email pattern accepts |
| UserSchema.CastAccount | server/models/User.js:6-16 | a stored account's name and type are trimmed; id and balance are kept |
| UserSchema.AccountErrors | server/models/User.js:7-16 | an account has no validation error exactly when name and type are filled; at most two messages |
| UserSchema.CastAccountValid | server/models/User.js:6-23 | a cast account is valid exactly when neither name nor type is blank |
| UserSchema.CardErrors | server/models/User.js:26-57 | a card has no validation error exactly when its type is in the enum and its number and expiry match their patterns |
| UserSchema.CastTransaction | server/models/User.js:60-90 | a stored transaction's category and description are trimmed and every other field is kept |
| UserSchema.TransactionErrors | server/models/User.js:60-90 | no validation error exactly when the type is income or expense, the category is filled and the account id is present |
| UserSchema.CastTransactionValid | server/models/User.js:60-90 | a cast transaction is valid exactly when its type is in the enum, its category is not blank and it names an account |
| UserSchema.TransactionErrorsValid | server/models/User.js:60-90 | for a transaction that went through the setters, validation accepts exactly the valid ones |
| UserSchema.AllAccountErrors | server/models/User.js:119 | the accounts array reports nothing exactly when every account passes |
| UserSchema.AllCardErrors | server/models/User.js:120 | the cards array reports nothing exactly when every card is valid |
| UserSchema.AllTransactionErrors | server/models/User.js:121 | the transactions array reports nothing exactly when every transaction passes |
| UserSchema.DocumentErrorsEmpty | server/models/User.js:119-121 | `save` reports nothing exactly when every embedded entry passes its validators |
| UserSchema.CastUsername | server/models/User.js:94-100 | a stored username is trimmed |
| UserSchema.CastEmail | server/models/User.js:101-106 | a stored email is lower-case and as long as the trimmed input |
| UserSchema.ProfileErrors | server/models/User.js:93-118 | a new user has no validation error exactly when the trimmed username has 3 or more characters, the trimmed email matches and the password has 6 or more |
| UserSchema.CastEmailStable | server/models/User.js:101-113 | casting a valid email a second time changes nothing |
| Balance.ReversalUndoesSigned | server/routes/transactions.js:73-80 | for a stored type, deleting a transaction takes back exactly what creating it added |
| Balance.CreateKeepsBalanced | server/routes/transactions.js:73-86 | recording a transaction and crediting its account keeps every balance in step |
| Balance.Unapply | server/routes/transactions.js:110-119 | the intended reversal keeps every account's id, name and type and moves the total balance by the reversal exactly when the account exists; with unique account ids, the named account's balance moves by the reversal and every other account is unchanged |
| Balance.UnapplyUndoesCredit | server/routes/transactions.js:73-119 | reversing a transaction of a stored type right after crediting it to its account gives back the accounts as they were |
| Balance.UnapplyRebalances | server/routes/transactions.js:110-125 | with unique ids, the intended reversal of a deleted transaction moves each account's balance by the change in the signed sum of its transactions from the list with it to the list without it |
| Balance.TotalBalanceCredit | server/models/User.js:157-159 | crediting one account moves `totalBalance` by the same amount |
| Balance.DeleteKeepsBalanced | server/routes/transactions.js:110-125 | the intended reversal plus the pull keeps every balance in step |
| Balance.DeleteKeepsOne | server/routes/transactions.js:110-125 | after the intended deletion each account's balance is the signed sum of the remaining transactions |
| Balance.DeleteAccountKeepsBalanced | server/routes/accounts.js:76-95 | splicing an account out keeps the other balances in step |
| Balance.NewAccountKeepsBalanced | server/routes/accounts.js:23-47 | a new account at balance 0 with no transactions keeps the balances in step |
| Balance.TotalBalanceGroups | server/models/User.js:157-159 | on an in-step document `totalBalance` is the sum over accounts of their transactions' signed sums |
| Balance.TotalBalanceIsSignedTotal | server/models/User.js:157-159 | when every transaction names a stored account, `totalBalance` is the signed total of all transactions |
| Balance.UnapplyAsWrittenIsIdentity | server/routes/transactions.js:111 | as written, the account lookup never succeeds, so no balance changes |
| Balance.AsWrittenLosesBalance | server/routes/transactions.js:110-125 | a concrete ledger that is in step before the deletion and out of step after it as written, while the intended reversal keeps it in step |
| Ledger.Picked | server/routes/transactions.js:30-32 | an array body contributes its first element, and an empty array contributes nothing |
| Ledger.Save | server/routes/transactions.js:83-89 | `save` stores either the changed document or nothing |
| Ledger.PostTransactionReplies | server/routes/transactions.js:24-95 | the early answers come in the handler's order: destructuring failure, unknown account 404, NaN amount 400; any failure stores nothing |
| Ledger.PostTransactionAccepted | server/routes/transactions.js:56-89 | on a valid document a known account with a numeric amount is stored exactly when the type is in the enum, the category is not blank and the account id is present; the reply echoes the fields |
| Ledger.PostTransactionRecords | server/routes/transactions.js:62-89 | a stored POST appends the cast transaction, moves only its account's balance by the signed amount, and moves `totalBalance` by the same |
| Ledger.PostTransactionKeepsValid | server/routes/transactions.js:24-95 | a POST with a fresh id keeps the document valid and the balances in step |
| Ledger.DeleteTransactionReplies | server/routes/transactions.js:98-130 | an unknown id answers 404; on a valid document a known id is always deleted; a failure stores nothing |
| Ledger.DeleteTransactionKeepsValid | server/routes/transactions.js:98-130 | deletion keeps the document valid and the balances in step |
| Ledger.DeleteTransactionRecords | server/routes/transactions.js:111-125 | a stored deletion removes every transaction with the id, keeps all others and the cards; with unique account ids, the owning account's balance moves by the reversal and every other account is unchanged; the signed amount leaves `totalBalance` |
| Ledger.DeleteTransactionRebalances | server/routes/transactions.js:98-130 | on a valid document a deletion moves every account's balance by the change in the signed sum of its transactions |
| Ledger.PostThenDeleteRestores | server/routes/transactions.js:24-130 | deleting a transaction right after a POST with a fresh id created it answers 200 and stores the document exactly as it was before the POST |
| Ledger.PostAccountAccepted | server/routes/accounts.js:23-47 | an account is stored exactly when neither name nor type is blank; the trimmed account with the fresh id and balance 0 is appended after the existing ones and the reply lists every account |
| Ledger.PostAccountKeepsValid | server/routes/accounts.js:23-47 | a new account keeps the document valid and the balances in step |
| Ledger.PutAccountReplies | server/routes/accounts.js:50-73 | an unknown id answers 404; a stored update changes only that account, which keeps its id, takes a non-empty name or type (trimmed) and a supplied balance and keeps the rest, and replies with it |
| Ledger.PutAccountAccepted | server/routes/accounts.js:60-68 | a known account is updated exactly when each supplied name or type is not blank |
| Ledger.PutAccountKeepsValid | server/routes/accounts.js:50-73 | an update keeps the document valid; without a new balance it keeps the balances in step |
| Ledger.DeleteAccountReplies | server/routes/accounts.js:76-95 | an unknown id answers 404; a known account is removed and only it; its cards and transactions stay; validity and balances are kept |
| Ledger.PostCardReplies | server/routes/cards.js:23-71 | unknown account 404, missing type 400, a failure stores nothing; a stored card is appended with its type lower-cased and the reply lists every card |
| Ledger.PostCardAccepted | server/routes/cards.js:36-66 | a card for a known account is stored exactly when its lower-cased type is credit or debit, its number reads XXXX-XXXX-XXXX-XXXX and its expiry MM/YY |
| Ledger.PostCardKeepsValid | server/routes/cards.js:23-71 | a new card keeps the document valid and the balances in step |
| Ledger.DeleteCardReplies | server/routes/cards.js:74-93 | an unknown id answers 404; a known card is removed and only it; validity and balances are kept |
| Ledger.ServeOrder | server/routes/transactions.js:34-40 | an empty-array POST fails before the user lookup; a missing user answers 404 and nothing is stored; the list routes send the stored arrays |
| Ledger.DispatchKeepsValid | server/routes/accounts.js:9-95 | every ledger route keeps a valid document valid |
| Ledger.DispatchKeepsInStep | server/routes/transactions.js:9-130 | every ledger route except a PUT that sets a balance keeps the balances in step |
| Ledger.ServeKeepsValid | server/routes/cards.js:9-93 | serving a stored user always leaves a valid document and, except for a balance-setting PUT, the balances in step |
| Ledger.UserDoc.constructor | server/models/User.js:119-121 | a new user starts with empty arrays, which are valid and in step |
| Ledger.UserDoc.Commit | server/routes/transactions.js:83-89 | the in-place `save` stores the changed arrays or restores the stored ones, as `Save` says |
| Ledger.UserDoc.Record | server/routes/transactions.js:73-86 | crediting the account in place, pushing and saving equals `Save` of the credited document |
| Ledger.UserDoc.CreateTransaction | server/routes/transactions.js:24-95 | the in-place POST gives the same reply and document as `PostTransaction` and keeps validity and balances |
| Ledger.UserDoc.RemoveTransaction | server/routes/transactions.js:98-130 | the in-place DELETE agrees with `DeleteTransaction` and keeps validity and balances |
| Ledger.UserDoc.CreateAccount | server/routes/accounts.js:23-47 | the in-place POST agrees with `PostAccount` and keeps validity and balances |
| Ledger.UserDoc.UpdateAccount | server/routes/accounts.js:50-73 | the in-place PUT agrees with `PutAccount`, keeps validity, and keeps balances without a new balance |
| Ledger.UserDoc.RemoveAccount | server/routes/accounts.js:76-95 | the in-place DELETE agrees with `DeleteAccount` and keeps validity and balances |
| Ledger.UserDoc.AddCard | server/routes/cards.js:23-71 | the in-place POST agrees with `PostCard` and keeps validity and balances |
| Ledger.UserDoc.RemoveCard | server/routes/cards.js:74-93 | the in-place DELETE agrees with `DeleteCard` and keeps validity and balances |
| Ledger.Handle | server/routes/transactions.js:9-130 | one request against a possibly missing user gives `Serve`'s reply and stored document |
| AuthMiddleware.Find | server/middleware/auth.js:31 | a token without a user id finds nobody; otherwise the lookup decides |
| AuthMiddleware.ExtractToken | server/middleware/auth.js:8 | no header gives no token; otherwise the token is the header with the first "Bearer " cut out |
| AuthMiddleware.ExtractBearer | server/middleware/auth.js:8 | a "Bearer t" header gives exactly t |
| AuthMiddleware.Authenticate | server/middleware/auth.js:5-52 | every refusal is a 401 |
| AuthMiddleware.AuthenticateOrder | server/middleware/auth.js:10-43 | no token, then a bad token, then an unknown user; admitted exactly when all pass, carrying the user and the token |
| AuthMiddleware.BearerAdmitted | server/middleware/auth.js:5-43 | a well-formed bearer header for a live user is admitted with that user |
| AuthMiddleware.AdminTokenDenied | server/middleware/auth.js:31-38 | an admin token, which has no user id, never passes the user guard |
| Blocklist.CheckDevice | server/middleware/checkBlocked.js:11-41 | the request passes exactly when no record matches; a refusal is a 403 |
| Blocklist.SingleCriterionBlocks | server/middleware/checkBlocked.js:13-15 | a record sharing the email, the IP or the hardware id alone blocks |
| Blocklist.FingerprintBlocks | server/middleware/checkBlocked.js:16-23 | a record matching GPU renderer, GPU vendor, resolution and core count all at once blocks |
| Blocklist.SplitFingerprintPasses | server/middleware/checkBlocked.js:16-23 | an example: a fingerprint split over two records does not block |
| Blocklist.EmptyListLetsThrough | server/middleware/checkBlocked.js:41 | an empty list lets every request through |
| Blocklist.DeviceBlockedMonotone | server/middleware/checkBlocked.js:11-25 | a list holding every record of another blocks whatever that one blocks |
| Blocklist.CheckRegistration | server/routes/auth.js:11-39 | registration passes exactly when no record matches; a refusal is a 403 |
| Blocklist.NoDevicesNoNetworkMatch | server/routes/auth.js:14-24 | without network devices only the email, user-agent and browser criteria can block |
| Blocklist.SharedDeviceBlocks | server/routes/auth.js:22 | one shared network device id blocks |
| Blocklist.RegisterBlockedMonotone | server/routes/auth.js:17-32 | a larger list blocks whatever a smaller one blocks |
| Blocklist.OrElse | server/routes/admin.js:108-109 | JavaScript `a \|\| b` on optional strings: a present non-empty `a`, else `b` |
| Blocklist.AdminRecord | server/routes/admin.js:101-113 | the saved record keeps email, IP and user-agent; the browser falls back to the user-agent and the OS to "Unknown"; the fields the schema does not declare are dropped |
| Blocklist.AdminRecordDeviceMatch | server/routes/admin.js:101-113 | a record made by `/block-user` blocks a request exactly on email or IP |
| AuthRoutes.Existing | server/routes/auth.js:49 | the found user has the cast username or the cast email; no user found means none has either |
| AuthRoutes.RegisterOrder | server/routes/auth.js:41-77 | blocklist, then missing fields, then an existing user, then the schema; 201 exactly when all pass, which appends the new user; nothing else is written |
| AuthRoutes.RegisterTakenField | server/routes/auth.js:49-56 | a collision reports "username" exactly when the found user has the username as sent |
| AuthRoutes.NewProfileStored | server/routes/auth.js:58-59 | a user that passes the schema is stored trimmed with a lower-case email |
| AuthRoutes.AddProfileValid | server/models/User.js:94-104 | appending a profile with new id, username and email keeps the unique indexes |
| AuthRoutes.RegisterKeepsValid | server/routes/auth.js:41-77 | registering keeps the users collection valid |
| AuthRoutes.FindByUsername | server/routes/auth.js:82 | the user found has the trimmed username; none found means no user has it |
| AuthRoutes.LoginOrder | server/routes/auth.js:79-120 | unknown user 401, blocked email 403 before the password is checked, wrong password 401; 200 exactly with a matching password for an unblocked user, whose session it returns |
| AuthRoutes.BlockedNeverLogsIn | server/routes/auth.js:89-96 | a blocked account cannot log in whatever password it offers |
| AdminRoutes.FindAdmin | server/routes/admin.js:20 | the admin found has the token's admin id; a token without one finds nobody |
| AdminRoutes.AdminAuthOrder | server/routes/admin.js:11-33 | no token, then a failed verification, then an unknown admin; passing exactly with a verified token naming a stored admin |
| AdminRoutes.UserTokenStopped | server/routes/admin.js:20-25 | a user token never passes the admin guard |
| AdminRoutes.FindAdminByUsername | server/routes/admin.js:38 | the admin found has the username as sent; none found means none has it |
| AdminRoutes.AdminLoginOutcome | server/routes/admin.js:35-68 | unknown username and wrong password give the same 401 and change nothing; a good login stamps only that admin's `lastLogin` and returns its identity |
| AdminRoutes.AdminLoginKeepsValid | server/routes/admin.js:45-46 | login keeps the admins' unique indexes |
| AdminRoutes.DeleteByEmail | server/routes/admin.js:114 | `findOneAndDelete` only removes users |
| AdminRoutes.DeleteByEmailRemoves | server/routes/admin.js:114 | with unique emails it removes exactly the users with the cast email |
| AdminRoutes.BlockUserOutcome | server/routes/admin.js:91-122 | an email already on the list is a 400; that, missing device details or a missing email change nothing and never answer 200; otherwise one record is appended and exactly the users with that email removed |
| AdminRoutes.BlockUserKeepsValid | server/routes/admin.js:101-114 | blocking keeps the blocked collection's unique emails and the users collection valid |
| AdminRoutes.RemoveKeysAllValid | server/routes/admin.js:82 | removing users by any key keeps the users collection valid |
| AdminRoutes.BlockedEmailStaysOut | server/routes/admin.js:95-113 | once blocked, an email cannot be blocked again and registration with it is refused |
| AdminRoutes.Unblock | server/routes/admin.js:134-143 | exactly the records with the id go and the reply is the same either way |
| AdminRoutes.UnblockKeepsValid | server/routes/admin.js:134-143 | unblocking keeps the blocked collection valid |
| AdminRoutes.UnblockLetsRegister | server/routes/admin.js:136 | once its only matching records are unblocked, a registration gets past the blocklist |
| AdminRoutes.DeleteUser | server/routes/admin.js:80-89 | exactly the users with the id go and the reply is the same either way |
| AdminRoutes.DeletedUserCannotLogIn | server/routes/admin.js:82 | a deleted user can no longer log in |
| AdminRoutes.DeleteUserKeepsValid | server/routes/admin.js:80-89 | deleting keeps the users collection valid |
| Store.Database.constructor | server/models/Admin.js:5-53 | empty users and blocked collections with the given admins are valid |
| Store.Database.Register | server/routes/auth.js:41-77 | the in-place registration agrees with `AuthRoutes.Register`, leaves the other collections alone and keeps validity |
| Store.Database.AdminLogin | server/routes/admin.js:35-68 | the in-place login agrees with `AdminRoutes.AdminLogin` and keeps validity |
| Store.Database.BlockUser | server/routes/admin.js:91-122 | the in-place block agrees with `AdminRoutes.BlockUser` and keeps validity |
| Store.Database.Unblock | server/routes/admin.js:134-143 | the in-place unblock agrees with `AdminRoutes.Unblock` and keeps validity |
| Store.Database.DeleteUser | server/routes/admin.js:80-89 | the in-place delete agrees with `AdminRoutes.DeleteUser` and keeps validity |
| Logs.BuildQuery | server/routes/logs.js:11-19 | the filter built selects exactly the entries the parameters ask for |
| Logs.Filter | server/routes/logs.js:21 | exactly the stored entries the filter selects, no more than stored |
| Logs.EffectiveLimit | server/routes/logs.js:23 | `parseInt(limit) \|\| 100`: NaN and 0 fall back to 100; a positive limit is kept |
| Logs.FindSound | server/routes/logs.js:21-23 | every entry returned is stored and asked for, newest first, at most the limit |
| Logs.FindKeepsNewest | server/routes/logs.js:21-23 | an entry asked for but left out means the limit was reached, and it is no newer than any entry returned |
| Logs.UnknownTypeFindsNothing | server/routes/admin.js:145-168 | a type outside the schema's enum matches no log |
| Logs.FindComplete | server/routes/logs.js:21-23 | when no more entries match than the limit, all of them are returned |
| ServerErrors.NotFound | server/server.js:97-103 | a 404 "Not Found" whose message embeds the requested URL |
| ServerErrors.HandleErrorOrder | server/server.js:106-146 | validation errors win over duplicate keys, a duplicate key names its first key, a bad token is 401, and exactly the unrecognised errors are a 500 with the message and request |
| ServerErrors.RecognisedIgnoresRequest | server/server.js:115-136 | the recognised errors answer the same on every route |
| FinanceDashboard.SignedIsIncomeMinusExpenses | client/src/components/FinanceDashboard.jsx:241-250 | income less expenses is the server's signed sum |
| FinanceDashboard.OwnedTotal | client/src/components/FinanceDashboard.jsx:237-239 | summing the account's own transactions is summing its group |
| FinanceDashboard.StatsBalanceIsLiveSum | client/src/components/FinanceDashboard.jsx:236-254 | the balance shown for an account is the signed sum of its transactions, and with no account the signed total |
| FinanceDashboard.StatsAgreeWithServer | client/src/components/FinanceDashboard.jsx:236-254 | on an in-step document the shown balance is the stored one and the unselected figure is `totalBalance` |
| FinanceDashboard.OtherKindsIgnored | client/src/components/FinanceDashboard.jsx:241-247 | a transaction of another type moves no figure |
| FinanceDashboard.AddedAccountsChanges | client/src/components/FinanceDashboard.jsx:80-90 | the optimistic updater changes only the named account's balance, up for income and down otherwise |
| FinanceDashboard.OptimisticMatchesServer | client/src/components/FinanceDashboard.jsx:76-93 | applied to the transaction the server echoes, the optimistic update is the server's new account list |
| FinanceDashboard.Dashboard.constructor | client/src/components/FinanceDashboard.jsx:12-17 | empty lists, no selection, over the stored document |
| FinanceDashboard.Dashboard.Refresh | client/src/components/FinanceDashboard.jsx:29-66 | the lists become the stored ones; the store and the selection are unchanged |
| FinanceDashboard.Dashboard.DeleteAccount | client/src/components/FinanceDashboard.jsx:128-168 | the account's listed cards and transactions and the account go from the store; every other account keeps its id, name and type and gives back the signed amounts of its deleted transactions; a known account reloads the lists and drops its selection; an unknown one leaves the screen as it was |
| FinanceDashboard.Dashboard.AddAccount | client/src/components/FinanceDashboard.jsx:102-126 | the store is `PostAccount`'s; on 201 the new account is last with balance 0 and the lists are reloaded; otherwise nothing changes |
| FinanceDashboard.DeleteAccountCascade | client/src/components/FinanceDashboard.jsx:133-160 | the three rounds remove exactly the listed cards and transactions and the account, leave every other account rebalanced by its deleted transactions, keep validity and balances, and report whether the account existed |
| FinanceDashboard.DeleteCardsOf | client/src/components/FinanceDashboard.jsx:133-140 | one card delete after another removes exactly the listed cards |
| FinanceDashboard.DeleteTransactionsOf | client/src/components/FinanceDashboard.jsx:142-149 | one transaction delete after another removes exactly the listed transactions, moves each account's balance by the change in the signed sum of its transactions, and keeps the balances in step |
| FinanceDashboard.DeleteCardSteps | server/routes/cards.js:74-93 | what one card delete does to a valid document |
| FinanceDashboard.DeleteTransactionSteps | server/routes/transactions.js:98-130 | what one transaction delete does to a valid document, its accounts rebalanced |
| FinanceDashboard.DeleteAccountSteps | server/routes/accounts.js:76-95 | what the account delete does to a valid document: the account list loses that id and nothing else |
| FinanceDashboard.CascadeOnFreshLists | client/src/components/FinanceDashboard.jsx:133-142 | with fresh lists the cascade removes exactly the account's cards and transactions and nothing of another account |
| MainDashboard.CurrentTransactionsShown | client/src/components/MainDashboard.jsx:26-30 | exactly the selected account's transactions, each as often as stored, newest first; all of them with no selection |
| MainDashboard.CardsShown | client/src/components/MainDashboard.jsx:205-206 | exactly the selected account's cards; all cards with no selection |
| MainDashboard.CardsShownSplit | client/src/components/MainDashboard.jsx:205-206 | the cards shown and the others' cards together are all cards |
| MainDashboard.ListedBalances | client/src/components/MainDashboard.jsx:152 | every listed account carries its stored balance |
| MainDashboard.AllAccountsIsTotalBalance | client/src/components/MainDashboard.jsx:152 | the "All Accounts" figure is `totalBalance` |
| MainDashboard.MissingBalanceCountsZero | client/src/components/MainDashboard.jsx:152 | an account without a balance adds nothing, wherever it is listed |
| MainDashboard.LastFour | client/src/components/MainDashboard.jsx:220 | the last four characters, or the whole number when shorter |
| MainDashboard.MaskedCardNumber | client/src/components/MainDashboard.jsx:220 | a stored number shows its last group of four digits |
| MainDashboard.MaskHidesPrefix | client/src/components/MainDashboard.jsx:220 | numbers that end alike are masked alike |
| MainDashboard.AddAccountPrompts | client/src/components/MainDashboard.jsx:32-48 | an empty or cancelled name stops silently; a cancelled type gives the failure alert; a submission happens exactly when the lower-cased type is checking or savings |
| MainDashboard.SubmittedAccountStored | client/src/components/MainDashboard.jsx:32-48 | a submitted account with a non-blank name is stored with a 201 |
| MainDashboard.AddCardOrder | client/src/components/MainDashboard.jsx:68-118 | the alerts come in the prompts' order; a card is submitted exactly when all pass, for the first account whose name matches ignoring case |
| MainDashboard.SubmittedCardStored | client/src/components/MainDashboard.jsx:68-118 | the client's checks are the route's: a submitted card is stored with a 201 |
| TransactionModal.OfferedCategories | client/src/components/TransactionModal.jsx:20-23 | each type offers its own list; the lists share nothing and no category is blank |
| TransactionModal.SubmitOrder | client/src/components/TransactionModal.jsx:25-61 | account, then amount, then category; a request is made exactly when these, the token and the date pass |
| TransactionModal.SentFields | client/src/components/TransactionModal.jsx:54-61 | the submission carries the type, account and category chosen, the description trimmed, and the parsed amount, which is above zero or NaN |
| TransactionModal.SubmissionStored | client/src/components/TransactionModal.jsx:54-76 | a numeric submission on a stored account with an offered category is stored by the route with a 201 |
| TransactionModal.TransactionForm.constructor | client/src/components/TransactionModal.jsx:7-18 | the initial form, not submitting, no error |
| TransactionModal.TransactionForm.HandleSubmit | client/src/components/TransactionModal.jsx:25-92 | ignored while submitting; on success the form resets and closes and `onSubmit` gets the data; on failure the form is kept and the message shown; the flag is cleared at the end |
| TransactionModal.TransactionForm.HandleClose | client/src/components/TransactionModal.jsx:94-100 | the form, the error and the flag go back to their initial values and the modal closes |
| TransactionModal.TransactionForm.SetType | client/src/components/TransactionModal.jsx:127-139 | only the type changes |
| TransactionModal.SwitchKeepsForeignCategory | client/src/components/TransactionModal.jsx:194 | for every form whose category its type offers, a switch to the other type keeps that category, which the new type never offers |
| StatisticsPage.Filtered | client/src/components/StatisticsPage.jsx:23-27 | every transaction for "all", else exactly those of the selected account |
| StatisticsPage.QuarterKeys | client/src/components/StatisticsPage.jsx:33 | the quarter key is Q1 to Q4 by month |
| StatisticsPage.FirstKeys | client/src/components/StatisticsPage.jsx:61 | the group keys are distinct and are exactly the keys of the transactions |
| StatisticsPage.AddToGroup | client/src/components/StatisticsPage.jsx:29-50 | one reduce step keeps the groups of the transactions seen so far |
| StatisticsPage.GroupTotals | client/src/components/StatisticsPage.jsx:29-51 | the keys in first-met order, each with its income and expense sums |
| StatisticsPage.AddToCategory | client/src/components/StatisticsPage.jsx:54-58 | one reduce step keeps the category sums of the transactions seen so far |
| StatisticsPage.CategoryTotals | client/src/components/StatisticsPage.jsx:53-59 | the categories in first-met order, each with its sum of absolute amounts |
| StatisticsPage.BalanceRows | client/src/components/StatisticsPage.jsx:61-66 | one row per group key |
| StatisticsPage.CategorySlices | client/src/components/StatisticsPage.jsx:68-71 | one slice per category |
| StatisticsPage.CalculateChartData | client/src/components/StatisticsPage.jsx:22-77 | one row per group with its income, expenses and their difference, and one slice per category with its absolute sum, in first-met order |
| StatisticsPage.GroupsPartition | client/src/components/StatisticsPage.jsx:29-51 | every transaction lands in exactly one group, so the groups' sums add up to the totals |
| StatisticsPage.CategoriesPartition | client/src/components/StatisticsPage.jsx:53-59 | every transaction lands in exactly one category |
| StatisticsPage.SharesSplitAbsolute | client/src/components/StatisticsPage.jsx:44-58 | with non-negative incomes the category total is the groups' income plus expenses |
| StatisticsPage.ExpensesNonNegative | client/src/components/StatisticsPage.jsx:46-48 | a group's expenses never go below zero |

## Left out

- Floating point: amounts and balances are integer cents, so `toFixed(2)`, `parseFloat` rounding and `Math.round(x * 100) / 100` are exact here.
- JWT signing and verification, bcrypt hashing and comparison, and fresh ObjectIds are parameters; token expiry is not modelled.
- Logging through `addLog` and the `console` output are left out; they do not change a reply.
- Device fingerprint collection in the browser and all rendering, styling and dark mode are outside the model.
- Dates and the local calendar are parameters (`StatisticsPage.Calendar`, `TransactionModal.Submit`'s `toIso`); invalid dates, which would make the group key read "QNaN" or similar, are not modelled.
- Mongo query semantics for `undefined` values: a criterion is taken to fire only when both sides are present.
- An id that is not a valid ObjectId, which makes some lookups throw, is treated as an id that is not found.
- A `deviceInfo` that is present but not an object is not modelled.
- The outer `catch` blocks answer 500 for database failures; only the errors the model raises itself (validation, destructuring, `toLowerCase` of nothing) are modelled.
- `ServerErrors.HandleErrorOrder`: a duplicate-key error without `keyValue` throws inside the handler; the model reports "undefined already exists" instead.
- Concurrency: `Promise.all` is modelled as requests run one after another, and React's batched state updates as sequential assignments.
- The dashboard state is held as one `Screen` record rather than separate hooks.
- `fetch` network failures in the dashboard handlers, the `fetchData` failure path, and the alerts of `handleAddCard` are left out.
- The `balance` field sent by `handleAddAccount` is ignored by the route, so the model does not carry it.
- The client's `handleDeleteCard` and `handleDeleteTransaction` are the Ledger routes followed by a reload; they are modelled through `Ledger.DeleteCard` and `Ledger.DeleteTransaction` and the cascade.
- `toLowerCase` is modelled on ASCII letters only, and `trim` on the white space characters listed in `Text.IsWhiteSpace`.
- `Object.entries` puts integer-like keys first; the model keeps first-met order for every key.
- A category named like an `Object.prototype` member (such as "constructor") is not modelled.
- NaN amounts typed into the modal are carried as `None`.
- The GET routes are plain reads of the stored arrays.
- `Logs.EffectiveLimit`: a negative limit is taken as its absolute value, as the driver does; that driver behaviour is not part of this model.
- `StatisticsPage.BalanceRows`: its own contract states only the number of rows; the contents of each row are stated by `StatisticsPage.CalculateChartData`.
- `StatisticsPage.CategorySlices`: its own contract states only the number of slices; their contents are stated by `StatisticsPage.CalculateChartData`.
- `AdminRoutes.DeleteByEmail`: its own contract states only that users are removed; `AdminRoutes.DeleteByEmailRemoves` states which.
- `Text.RemoveFirst`: its own contract states only the length; `Text.RemoveFirstPrefix` and `Text.RemoveFirstAbsent` state the two cases the guards meet.
- `Ledger.Save`: its own contract states only that one of the two documents is stored; each route's lemma states which.
- `AuthMiddleware.Authenticate`: its own contract states only that refusals are 401; `AuthMiddleware.AuthenticateOrder` states the rest.
- The GET `/users` and `/blocked-users` admin routes are plain reads and are not modelled.
- The log query's date strings are taken as already-parsed millisecond values.
- Stored subdocument ids are ObjectIds and never empty, but the model does not assume so. If a document did hold an account with id "", a transaction or card naming it would get the 400 of the required `accountId`; the running routes cannot reach that case.
- A PUT `balance` of `null` or of a value that is not a number is not modelled: the model's balance is an optional number of cents, and Mongoose's cast and its errors for other values are left out.

## Findings

| source | as written | input that shows it | evidently intended | confidence | as-written member | corrected member |
|---|---|---|---|---|---|---|
| server/routes/transactions.js:111 | the account is looked up with `acc._id.toString() === transaction.accountId`, a string compared with the stored ObjectId, which is never strictly equal, so deleting a transaction never reverses its amount | account a1 with balance 100.00 from one income of 100.00; deleting that income leaves the balance at 100.00 with no transaction left | compare the ids as strings, so the account's balance takes the amount back | not executed | Balance.AsWrittenLosesBalance | Balance.DeleteKeepsBalanced |
