# Shared-expense ledger: the transaction and user routes

The backend of a shared-expense application keeps three collections. The
model covers how its route handlers change them:

- **users**: each user has a balance, a list of events and a list of transactions;
- **events**: each event has a pool (`totalSum`), a total of shares
  (`shareAmount`), a guest list and a list of transactions;
- **transactions**: an append-only store.

The ledger routes in `routes/transactions.js`:

- **reload** credits a user.
- **payment** debits a user and links the transaction to an event.
- **refund** returns an event's pool to its guests in proportion to their shares, then zeroes the pool.
- **expense** debits an event's pool.
- **userTransactions** lists a user's transactions, most recent first.

The user routes in `routes/users.js`:

- **invite** and **signup** are upserts keyed by email.
- **login** replaces a user's session token; **logout** clears it.

The project has four modules:

- `Models` (models.dfy) holds the documents as datatypes and the JavaScript `Number` arithmetic the handlers compute with. A number is `Option<real>`, where `None` stands for `undefined` or `NaN`. The file also defines `findOne` as "the first document the filter accepts".
- `TransactionRules` (transaction_rules.dfy) and `UserRules` (user_rules.dfy) give each handler as a function. The function maps the database before a request to the database after it, together with the handler's answer. The properties of the handlers are proved about these functions.
- `Handlers` (handlers.dfy) holds the `Ledger` class, whose fields are the three collections. Its methods carry out the handlers step by step, changing the fields in place. Each method is proved to produce exactly what its rule function says. Each also keeps the invariant `Valid`: every transaction id that a user or event lists names a stored transaction.

Choices the model makes, following the code:

- A document id is the document's position in its collection. `findById` is an index check. `findOne` returns the first match in insertion order.
- Mongoose refuses to store `NaN` in a `Number` field, so such a save is rejected and the document stays as it was. This case arises for:
  - a user created by an invitation, which has no balance;
  - an event whose `totalSum` or `shareAmount` was never set.
- Payment debits the emitter but never adds to the event's pool (`routes/transactions.js:77`). No route checks the sign of `amount`. So an expense with a negative amount raises a pool that is set, and a payment with a negative amount credits the emitter.
- The four create routes (reload, payment, refund and expense) save the transaction record before they look anything up. So a request that fails a lookup or a funds check still leaves a stored record. No user or event lists that record, except after a payment whose event is missing: its emitter was already debited, saved and linked to the record.
- A `type` outside the schema's enum (`"refound"`, `"payment"`, `"reload"`, `"expense"`) makes that first save fail. After that nothing happens.
- Refund credits the guests in list order. When one credit cannot be stored, the model stores every other credit that can be stored, as if each guest's lookup and save ran to its end. The event is then neither zeroed nor linked, because `Promise.all` rejects.
- Refund sets the pool to 0 before it tests the pool for `NaN` (`routes/transactions.js:126-128`), so that test never fires.
- Invite does not check for duplicates: inviting a user twice to one event lists the event twice.
- Invite's body check asks only for the email. A request without an event id is accepted, and the missing id is listed as an absent entry.
- Login on a matched user without a password fails: bcrypt's compare throws on a missing hash.
- Logout runs no body check, so its token may be absent. The lookup then sends `null`, which finds the first user that has no token, such as an invited user. That user's token becomes `""`.

The handlers depend on some values that come from outside. Each becomes a parameter of the model:

- `bodyOk` is checkBody's verdict on the request body.
- `matches(pattern, email)` is the case-insensitive regular-expression match on emails.
- `hashed` is bcrypt's hash of the password.
- `compare(password, hash)` is bcrypt's compare.
- `token` is the value uid2 generated.

## Model

| member | source | states |
|---|---|---|
| Models.ParseType | models/transactions.js:7-10 | a type name is accepted exactly when it spells one of the four enum values, and then stands for that value |
| Models.FindFirst | routes/users.js:20 | `findOne` yields the first document the filter accepts, or none when no document is accepted |
| Models.FindFirstAlike | routes/users.js:20 | `findOne` gives the same answer on two collections whose documents the filter judges alike; so an update that leaves emails alone keeps the same user matched |
| Models.FindFirstAppended | routes/users.js:50-66 | a user appended when no user matched is the one a later lookup finds |
| TransactionRules.Record | routes/transactions.js:19-21 | the record is refused exactly when the type is set and is not one of the enum names; otherwise it copies the request's fields |
| TransactionRules.Reload | routes/transactions.js:13-40 | completes iff the emitter exists and its balance plus the amount is a non-negative number; the balance then becomes old + amount and the id is appended; it refuses with insufficient funds iff the sum is below 0; a rejected user is unchanged; a refused request leaves a record that no user or event lists; the events are untouched; the links invariant is kept; each other answer (invalid body, refused type, missing user, unstorable balance) is given exactly under its own condition |
| TransactionRules.Payment | routes/transactions.js:43-84 | rejects with insufficient funds iff the balance is below the amount; the emitter is debited by exactly the amount, and its list gains the id, iff it exists and its balance covers a numeric amount, and otherwise it is unchanged; the debit stays when the event is missing; no event's `totalSum` changes; only the recipient's list gains the id, and only on completion; each other answer (invalid body, refused type, missing user, unstorable balance) is given exactly under its own condition |
| TransactionRules.Expense | routes/transactions.js:141-168 | completes iff the event exists and its pool covers a numeric amount; the pool then drops by exactly the amount and the id is appended; it refuses with insufficient funds iff the pool is below the amount; users are untouched; non-negative pools stay non-negative; a rejected event is unchanged; each other answer (invalid body, refused type, missing event, unstorable pool) is given exactly under its own condition |
| TransactionRules.Refund | routes/transactions.js:87-138 | with `shareAmount == 0`, it fails with no user or event change; it completes iff no guest's credit is unstorable; on completion the users are the sequential guest credits, the pool is 0 (so the `NaN` test cannot fire) and the event lists the id; it fails with a rejected guest save iff some guest's credit is unstorable, and the users are then the sequential credits, so every storable credit stays; on any failure the event is unchanged; each other answer (invalid body, refused type, missing event) is given exactly under its own condition; the links invariant is kept |
| TransactionRules.CreditGuest | routes/transactions.js:110-121 | one guest's credit: a missing user is skipped; the step fails iff the new balance would not be a number, and then nothing changes; otherwise only that user changes, gaining `perShare * share` and the id |
| TransactionRules.CreditGuests | routes/transactions.js:109-123 | crediting the guest list keeps the number of users |
| TransactionRules.CreditGuestsFails | routes/transactions.js:121-125 | the guest credits report a failure exactly when some guest's credit cannot be stored |
| TransactionRules.CreditGuestsFrame | routes/transactions.js:116-119 | the credits change only balances and transaction lists; a balance that is a number stays one; a list gains no id but the refund's; a user no guest names is untouched |
| TransactionRules.CreditGuestsKeepsLinks | routes/transactions.js:119 | the credits keep every listed id pointing at a stored transaction |
| TransactionRules.CreditGuestConserves | routes/transactions.js:117 | one creditable guest's credit adds exactly `perShare * share` to the sum of the balances |
| TransactionRules.CreditsScaleShares | routes/transactions.js:107-117 | the credits handed out sum to `perShare` times the sum of the shares |
| TransactionRules.CreditGuestsConserves | routes/transactions.js:109-125 | when every guest is creditable, no credit fails and the sum of the balances grows by the sum of the credits |
| TransactionRules.RefundReturnsThePool | routes/transactions.js:107-134 | when `shareAmount` is the sum of the shares and no guest is skipped, the refund completes, the balances grow by exactly the old pool (`totalSum`, or 0 when unset), and the pool is 0 |
| TransactionRules.CreditReachesEachGuest | routes/transactions.js:109-121 | when no user is a guest twice, each existing guest's user receives exactly its own `perShare * share` and one link to the refund |
| UserRules.Invite | routes/users.js:12-40 | an invalid body changes nothing; with no match, exactly one user is appended: it has the email and `[eventId]` and no names, password, token or balance; with a match, only that user's events gain `eventId`, without a duplicate check; an absent event id is listed as an absent entry |
| UserRules.Signup | routes/users.js:42-86 | an invalid body changes nothing; with no match, exactly one user is appended, with balance 0, no events, the hash and the token; with a match, only the names, password and token change, and email, balance, events and transactions are kept |
| UserRules.Login | routes/users.js:88-112 | succeeds iff the body is valid, a user matches, it has a hash, and the compare accepts the password; on success only that user's token changes; otherwise nothing changes; an invalid body, a missing hash and bad credentials (no match, or a compare that refuses) are each answered exactly under their own condition |
| UserRules.Logout | routes/users.js:114-128 | succeeds iff some user holds the token, where an absent token finds a user without one; that user's token becomes `""` and nothing else changes; an unknown token is refused with no change |
| UserRules.InviteTwiceListsTwice | routes/users.js:32-37 | inviting a matched user to the same event twice lists the event twice |
| UserRules.LogoutWithoutTokenHitsInvited | routes/users.js:114-121 | after an invitation adds a new user, and when every earlier user holds a token, a logout without a token succeeds on the invited user and sets its token to `""`, leaving the others alone |
| UserRules.SignupThenLogin | routes/users.js:42-112 | after a signup, a login with the same email and password succeeds on the user the signup created or completed, and that user holds the login's token |
| Handlers.Ledger.Reload | routes/transactions.js:13-40 | the in-place handler leaves exactly the database and answer of `TransactionRules.Reload`, and keeps `Valid` |
| Handlers.Ledger.Payment | routes/transactions.js:43-84 | the in-place handler leaves exactly the database and answer of `TransactionRules.Payment`, and keeps `Valid` |
| Handlers.Ledger.Expense | routes/transactions.js:141-168 | the in-place handler leaves exactly the database and answer of `TransactionRules.Expense`, and keeps `Valid` |
| Handlers.Ledger.Refund | routes/transactions.js:87-138 | the guest loop, crediting one user at a time, leaves exactly the database and answer of `TransactionRules.Refund`, and keeps `Valid` |
| Handlers.Ledger.UserTransactions | routes/transactions.js:171-188 | answers iff some user holds the token; the answer has one transaction per id the user lists, last listed first; nothing is modified |
| Handlers.Ledger.Reverse | routes/transactions.js:181 | the array ends up holding its old elements, last first |
| Handlers.Ledger.Invite | routes/users.js:12-40 | the in-place handler leaves exactly the users and answer of `UserRules.Invite`; events and transactions are untouched; `Valid` is kept |
| Handlers.Ledger.Signup | routes/users.js:42-86 | the in-place handler leaves exactly the users and answer of `UserRules.Signup`; events and transactions are untouched; `Valid` is kept |
| Handlers.Ledger.Login | routes/users.js:88-112 | the in-place handler leaves exactly the users and answer of `UserRules.Login`; events and transactions are untouched; `Valid` is kept |
| Handlers.Ledger.Logout | routes/users.js:114-128 | the in-place handler leaves exactly the users and answer of `UserRules.Logout`; events and transactions are untouched; `Valid` is kept |

## Left out

- TransactionRules.Refund: assumes that the rejection from a guest save that cannot be stored leaves the server running. `Promise.all(...)` at `routes/transactions.js:125` has no rejection handler, and Node's default then stops the process. Credits whose user lookup had not yet returned would then not be stored. The model does not capture that loss.
- HTTP and persistence plumbing is not modelled: Express routing, status codes, response bodies, and the `.then` chains. Each handler is one sequential step with an explicit outcome.
- Concurrency is not modelled, so the model has no races between requests. The refund's `Promise.all` fan-out is modelled as crediting the guests in list order. When a user appears twice among the guests, the model credits it twice, one step after the other. The real handler would race on the same document.
- checkBody, bcrypt, uid2 and the email regular expression are parameters; `modules/checkBody` is not part of this model.
- `matches` decides the email lookups; how the regular expression built from the raw email behaves is not modelled.
- JavaScript floating-point rounding is not modelled: money is exact (`real`).
- Some request inputs are not modelled:
  - an amount string that `Number` turns into `NaN`;
  - ids that fail to cast to an ObjectId.
  
  A request's fields arrive already parsed, and an id that names no document is a failed lookup.
- The transaction fields `date` and `invoice` are not modelled.
- The event fields `eventUniqueId`, `eventDate`, `paymentDate` and `description` are not modelled.
- The second payment route (`routes/transactions.js:210-258`) is not modelled: it calls an unbound `findOne` and never completes.
- The transaction detail route (`routes/transactions.js:191-207`) is not modelled; it is a single lookup.
- `routes/events.js` and `app.js` are not part of this model.
- `Handlers.Ledger.UserTransactions` reads the stored transactions through the ids the user lists. The join that `populate` performs is modelled as indexing, which the `Valid` invariant makes safe.
