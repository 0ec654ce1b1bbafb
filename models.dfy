/**
 * The three collections of the shared-expense ledger (users, events and
 * transactions) as their Mongoose schemas declare them, and the JavaScript
 * number semantics the route handlers compute with.
 *
 * A collection is kept in insertion order and a document's id is its
 * position in it, so `findById` is an index check and `findOne` is the first
 * document, in that order, that its filter accepts.
 */
module Models {

  datatype Option<+T> = None | Some(value: T)

  /** A document id (a Mongo ObjectId): a position in its collection. */
  type Id = nat

  /**
   * A JavaScript `Number`. `None` is `undefined` in a stored field (one the
   * schema declares and no handler ever set) and `NaN` in a computed value.
   * Money is exact: floating-point rounding is not modelled.
   */
  type Num = Option<real>

  function Add(a: Num, b: Num): Num
  {
    if a.Some? && b.Some? then Some(a.value + b.value) else None
  }

  function Sub(a: Num, b: Num): Num
  {
    if a.Some? && b.Some? then Some(a.value - b.value) else None
  }

  function Mul(a: Num, b: Num): Num
  {
    if a.Some? && b.Some? then Some(a.value * b.value) else None
  }

  /** `a / b`, for a divisor the caller has already compared with `0` */
  function Div(a: Num, b: Num): Num
    requires b != Some(0.0)
  {
    if a.Some? && b.Some? then Some(a.value / b.value) else None
  }

  /** `a < b`: false as soon as one side is `undefined` or `NaN` */
  predicate Less(a: Num, b: Num)
  {
    a.Some? && b.Some? && a.value < b.value
  }

  /** `Number(a || 0)`: an `undefined` field reads as 0 */
  function OrZero(a: Num): real
  {
    if a.Some? then a.value else 0.0
  }

  /** The values of the transaction schema's `type` enum, spelled as the schema spells them. */
  datatype TxType = Refound | Payment | Reload | Expense

  function TypeName(t: TxType): (name: string)
  {
    match t
    case Refound => "refound"
    case Payment => "payment"
    case Reload => "reload"
    case Expense => "expense"
  }

  /** The enum check Mongoose runs on `save`: the type a name stands for, if any. */
  function ParseType(name: string): (r: Option<TxType>)
    ensures r.Some? ==> TypeName(r.value) == name
    ensures r.None? ==> forall t: TxType :: TypeName(t) != name
  {
    if name == "refound" then Some(Refound)
    else if name == "payment" then Some(Payment)
    else if name == "reload" then Some(Reload)
    else if name == "expense" then Some(Expense)
    else None
  }

  /** A stored transaction. `date` and `invoice` are not modelled. */
  datatype Transaction = Transaction(
    amount: Num,
    kind: Option<TxType>,
    emitter: Option<Id>,
    recipient: Option<Id>,
    name: Option<string>,
    category: Option<string>,
    eventId: Option<Id>)

  /** The body of a transaction request, once its fields are parsed; an absent field is `None`. */
  datatype TxRequest = TxRequest(
    amount: Num,
    kind: Option<string>,
    emitter: Option<Id>,
    recipient: Option<Id>,
    name: Option<string>,
    category: Option<string>,
    eventId: Option<Id>)

  /**
   * A user. An invited user has only an email and events: no names, no
   * password, no token and no balance. An entry of `events` is `None` when
   * the invitation that added it carried no event id.
   */
  datatype User = User(
    firstName: Option<string>,
    lastName: Option<string>,
    password: Option<string>,
    token: Option<string>,
    email: string,
    events: seq<Option<Id>>,
    balance: Num,
    transactions: seq<Id>)

  /** An entry of an event's guest list. */
  datatype Guest = Guest(userId: Id, email: string, share: Num, hasPaid: bool)

  /**
   * An event. Creating an event sets neither `totalSum` nor `shareAmount`,
   * so both may be `undefined`. `eventUniqueId`, the dates and the
   * description are not modelled.
   */
  datatype Event = Event(
    organizer: Id,
    name: string,
    guests: seq<Guest>,
    transactions: seq<Id>,
    totalSum: Num,
    shareAmount: Num)

  /** The database: the three collections. */
  datatype Db = Db(users: seq<User>, events: seq<Event>, txs: seq<Transaction>)

  /** What a handler reports when it does not complete. */
  datatype Error =
    | InvalidBody        // checkBody refused the request body
    | TxRejected         // the type is outside the enum: the transaction's save rejects
    | UserNotFound
    | EventNotFound
    | InsufficientFunds
    | NoGuests           // refund on an event whose shareAmount is 0
    | UserSaveRejected   // the user's new balance is NaN, which the schema refuses
    | EventSaveRejected  // the event's new totalSum is NaN, which the schema refuses
    | GuestSaveRejected  // a refund credit could not be stored, so Promise.all rejects
    | BadCredentials     // no user matches the email, or the password check fails
    | NoPasswordHash     // the matched user has no password: bcrypt's compare throws

  /** Every id of the list is below `n`. */
  ghost predicate Below(ids: seq<Id>, n: nat)
  {
    forall j :: 0 <= j < |ids| ==> ids[j] < n
  }

  /** Every transaction id a user or an event lists names a stored transaction. */
  ghost predicate Linked(db: Db)
  {
    && (forall i :: 0 <= i < |db.users| ==> Below(db.users[i].transactions, |db.txs|))
    && (forall i :: 0 <= i < |db.events| ==> Below(db.events[i].transactions, |db.txs|))
  }

  /** No user and no event lists transaction `t`. */
  ghost predicate Unreferenced(db: Db, t: Id)
  {
    && (forall u <- db.users :: t !in u.transactions)
    && (forall e <- db.events :: t !in e.transactions)
  }

  /** `findById` on the users */
  function UserAt(users: seq<User>, id: Option<Id>): Option<User>
  {
    if id.Some? && id.value < |users| then Some(users[id.value]) else None
  }

  /** `findById` on the events */
  function EventAt(events: seq<Event>, id: Option<Id>): Option<Event>
  {
    if id.Some? && id.value < |events| then Some(events[id.value]) else None
  }

  /** `findOne(filter)`: the position of the first document the filter accepts. */
  function FindFirst<T>(docs: seq<T>, accepts: T -> bool): (r: Option<Id>)
    ensures r.Some? ==> r.value < |docs| && accepts(docs[r.value])
    ensures r.Some? ==> forall j :: 0 <= j < r.value ==> !accepts(docs[j])
    ensures r.None? ==> forall j :: 0 <= j < |docs| ==> !accepts(docs[j])
  {
    if docs == [] then None
    else if accepts(docs[0]) then Some(0)
    else match FindFirst(docs[1..], accepts)
      case None => None
      case Some(i) => Some(i + 1)
  }

  /** `findOne` answers the same on two collections whose documents the filter judges alike. */
  lemma FindFirstAlike<T>(a: seq<T>, b: seq<T>, accepts: T -> bool)
    requires |a| == |b|
    requires forall j :: 0 <= j < |a| ==> accepts(a[j]) == accepts(b[j])
    ensures FindFirst(a, accepts) == FindFirst(b, accepts)
  {
  }

  /** A document appended to a collection where nothing matched is the one `findOne` finds. */
  lemma FindFirstAppended<T>(docs: seq<T>, d: T, accepts: T -> bool)
    requires FindFirst(docs, accepts).None?
    requires accepts(d)
    ensures FindFirst(docs + [d], accepts) == Some(|docs|)
  {
    assert (docs + [d])[|docs|] == d;
    assert forall j :: 0 <= j < |docs| ==> (docs + [d])[j] == docs[j];
  }

  /**
   * The filter `{ token }`: the first user whose token is `token`. An absent
   * token (`None`) is sent as `null`, which matches a user that has no token.
   */
  function TokenHolder(users: seq<User>, token: Option<string>): (r: Option<Id>)
  {
    FindFirst(users, (u: User) => u.token == token)
  }
}
