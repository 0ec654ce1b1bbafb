/**
 * What each ledger route of routes/transactions.js does to the database, as
 * one function per handler from the database before the request to the
 * database after it and the handler's outcome.
 *
 * Every handler first runs checkBody (given here as `bodyOk`), then saves the
 * transaction record, and only then looks up the user or event and checks the
 * funds. So a request that gets past checkBody and the enum check leaves a
 * stored record, whatever happens next.
 */
module TransactionRules {
  import opened Models

  datatype Outcome = Done(tx: Id) | Failed(error: Error)

  /** The database after a request, and what the handler answered. */
  datatype Step = Step(db: Db, out: Outcome)

  /** `new Transaction(req.body)`: None when the schema's enum refuses the type, so `save` rejects. */
  function Record(req: TxRequest): (r: Option<Transaction>)
    ensures r.Some? <==> req.kind.None? || exists t: TxType :: TypeName(t) == req.kind.value
    ensures r.Some? ==>
      && r.value.amount == req.amount
      && r.value.emitter == req.emitter
      && r.value.recipient == req.recipient
      && r.value.name == req.name
      && r.value.category == req.category
      && r.value.eventId == req.eventId
      && (r.value.kind.Some? <==> req.kind.Some?)
      && (r.value.kind.Some? ==> TypeName(r.value.kind.value) == req.kind.value)
  {
    var kind := if req.kind.Some? then ParseType(req.kind.value) else None;
    if req.kind.Some? && kind.None? then None
    else Some(Transaction(req.amount, kind, req.emitter, req.recipient, req.name, req.category, req.eventId))
  }

  /** The transaction collection once the request's record is saved (when it gets that far). */
  function Stored(db: Db, req: TxRequest, bodyOk: bool): seq<Transaction>
  {
    if bodyOk && Record(req).Some? then db.txs + [Record(req).value] else db.txs
  }

  /** `user` credited with `delta` and linked to transaction `t`; the balance must already be a number. */
  function Credited(user: User, delta: real, t: Id): User
    requires user.balance.Some?
  {
    user.(balance := Some(user.balance.value + delta), transactions := user.transactions + [t])
  }

  /**
   * POST /create/reload: credits the emitter with `amount`.
   * Completes exactly when the emitter exists and its new balance is a
   * non-negative number; a rejected user is not saved.
   */
  function Reload(db: Db, req: TxRequest, bodyOk: bool): (s: Step)
    ensures s.db.txs == Stored(db, req, bodyOk)
    ensures s.db.events == db.events
    ensures Linked(db) ==> Linked(s.db)
    ensures s.out.Done? <==>
      && bodyOk && Record(req).Some?
      && UserAt(db.users, req.emitter).Some?
      && UserAt(db.users, req.emitter).value.balance.Some?
      && req.amount.Some?
      && UserAt(db.users, req.emitter).value.balance.value + req.amount.value >= 0.0
    ensures s.out.Done? ==>
      && s.out.tx == |db.txs| == |s.db.txs| - 1
      && s.db.users == db.users[req.emitter.value := Credited(db.users[req.emitter.value], req.amount.value, |db.txs|)]
    ensures s.out == Failed(InsufficientFunds) <==>
      && bodyOk && Record(req).Some?
      && UserAt(db.users, req.emitter).Some?
      && Less(Add(UserAt(db.users, req.emitter).value.balance, req.amount), Some(0.0))
    ensures s.out == Failed(InvalidBody) <==> !bodyOk
    ensures s.out == Failed(TxRejected) <==> bodyOk && Record(req).None?
    ensures s.out == Failed(UserNotFound) <==>
      bodyOk && Record(req).Some? && UserAt(db.users, req.emitter).None?
    ensures s.out == Failed(UserSaveRejected) <==>
      && bodyOk && Record(req).Some?
      && UserAt(db.users, req.emitter).Some?
      && Add(UserAt(db.users, req.emitter).value.balance, req.amount).None?
    ensures s.out.Failed? ==> s.db.users == db.users
    ensures Linked(db) && s.out.Failed? && bodyOk && Record(req).Some? ==> Unreferenced(s.db, |db.txs|)
  {
    if !bodyOk then Step(db, Failed(InvalidBody))
    else if Record(req).None? then Step(db, Failed(TxRejected))
    else
      var t := |db.txs|;
      var saved := db.(txs := db.txs + [Record(req).value]);
      match UserAt(db.users, req.emitter)
      case None => Step(saved, Failed(UserNotFound))
      case Some(user) =>
        var balance := Add(user.balance, req.amount);
        if Less(balance, Some(0.0)) then Step(saved, Failed(InsufficientFunds))
        else if balance.None? then Step(saved, Failed(UserSaveRejected))
        else
          var user' := user.(balance := balance, transactions := user.transactions + [t]);
          Step(saved.(users := db.users[req.emitter.value := user']), Done(t))
  }

  /**
   * POST /create/payment: debits the emitter by `amount` after a funds check,
   * then links the transaction to the recipient event. The event's pool is
   * never credited. The user's debit is saved before the event is looked up,
   * so it stays when the event is missing.
   */
  function Payment(db: Db, req: TxRequest, bodyOk: bool): (s: Step)
    ensures s.db.txs == Stored(db, req, bodyOk)
    ensures s.out == Failed(InvalidBody) <==> !bodyOk
    ensures s.out == Failed(TxRejected) <==> bodyOk && Record(req).None?
    ensures s.out == Failed(UserNotFound) <==>
      bodyOk && Record(req).Some? && UserAt(db.users, req.emitter).None?
    ensures s.out == Failed(UserSaveRejected) <==>
      && bodyOk && Record(req).Some?
      && UserAt(db.users, req.emitter).Some?
      && !Less(UserAt(db.users, req.emitter).value.balance, req.amount)
      && Sub(UserAt(db.users, req.emitter).value.balance, req.amount).None?
    ensures Linked(db) ==> Linked(s.db)
    ensures |s.db.events| == |db.events|
    ensures forall k :: 0 <= k < |db.events| ==> s.db.events[k].totalSum == db.events[k].totalSum
    ensures s.out == Failed(InsufficientFunds) <==>
      && bodyOk && Record(req).Some?
      && UserAt(db.users, req.emitter).Some?
      && Less(UserAt(db.users, req.emitter).value.balance, req.amount)
    // the emitter is debited exactly when it exists and its balance covers a numeric amount
    ensures
      var debited :=
        && bodyOk && Record(req).Some?
        && UserAt(db.users, req.emitter).Some?
        && UserAt(db.users, req.emitter).value.balance.Some?
        && req.amount.Some?
        && UserAt(db.users, req.emitter).value.balance.value >= req.amount.value;
      && (debited ==> s.db.users == db.users[req.emitter.value := Credited(db.users[req.emitter.value], -req.amount.value, |db.txs|)])
      && (!debited ==> s.db.users == db.users && s.out.Failed?)
      && (s.out.Done? <==> debited && EventAt(db.events, req.recipient).Some?)
      && (s.out == Failed(EventNotFound) <==> debited && EventAt(db.events, req.recipient).None?)
    ensures s.out.Done? ==>
      && s.out.tx == |db.txs| == |s.db.txs| - 1
      && var ev := db.events[req.recipient.value];
         s.db.events == db.events[req.recipient.value := ev.(transactions := ev.transactions + [|db.txs|])]
    ensures s.out.Failed? ==> s.db.events == db.events
    ensures Linked(db) && s.out.Failed? && s.out != Failed(EventNotFound) && bodyOk && Record(req).Some? ==>
      Unreferenced(s.db, |db.txs|)
  {
    if !bodyOk then Step(db, Failed(InvalidBody))
    else if Record(req).None? then Step(db, Failed(TxRejected))
    else
      var t := |db.txs|;
      var saved := db.(txs := db.txs + [Record(req).value]);
      match UserAt(db.users, req.emitter)
      case None => Step(saved, Failed(UserNotFound))
      case Some(user) =>
        if Less(user.balance, req.amount) then Step(saved, Failed(InsufficientFunds))
        else
          var balance := Sub(user.balance, req.amount);
          if balance.None? then Step(saved, Failed(UserSaveRejected))
          else
            var user' := user.(balance := balance, transactions := user.transactions + [t]);
            var debited := saved.(users := db.users[req.emitter.value := user']);
            match EventAt(db.events, req.recipient)
            case None => Step(debited, Failed(EventNotFound))
            case Some(ev) =>
              var ev' := ev.(transactions := ev.transactions + [t]);
              Step(debited.(events := db.events[req.recipient.value := ev']), Done(t))
  }

  /** Every event's pool that is set is non-negative. */
  ghost predicate PoolsNonNegative(events: seq<Event>)
  {
    forall e <- events :: e.totalSum.Some? ==> e.totalSum.value >= 0.0
  }

  /**
   * POST /create/expense: debits the emitter event's pool by `amount` after a
   * funds check. A rejected event is not saved.
   */
  function Expense(db: Db, req: TxRequest, bodyOk: bool): (s: Step)
    ensures s.db.txs == Stored(db, req, bodyOk)
    ensures s.out == Failed(InvalidBody) <==> !bodyOk
    ensures s.out == Failed(TxRejected) <==> bodyOk && Record(req).None?
    ensures s.out == Failed(EventNotFound) <==>
      bodyOk && Record(req).Some? && EventAt(db.events, req.emitter).None?
    ensures s.out == Failed(EventSaveRejected) <==>
      && bodyOk && Record(req).Some?
      && EventAt(db.events, req.emitter).Some?
      && !Less(EventAt(db.events, req.emitter).value.totalSum, req.amount)
      && Sub(EventAt(db.events, req.emitter).value.totalSum, req.amount).None?
    ensures s.db.users == db.users
    ensures Linked(db) ==> Linked(s.db)
    ensures PoolsNonNegative(db.events) ==> PoolsNonNegative(s.db.events)
    ensures s.out.Done? <==>
      && bodyOk && Record(req).Some?
      && EventAt(db.events, req.emitter).Some?
      && EventAt(db.events, req.emitter).value.totalSum.Some?
      && req.amount.Some?
      && EventAt(db.events, req.emitter).value.totalSum.value >= req.amount.value
    ensures s.out == Failed(InsufficientFunds) <==>
      && bodyOk && Record(req).Some?
      && EventAt(db.events, req.emitter).Some?
      && Less(EventAt(db.events, req.emitter).value.totalSum, req.amount)
    ensures s.out.Done? ==>
      && s.out.tx == |db.txs| == |s.db.txs| - 1
      && var ev := db.events[req.emitter.value];
         s.db.events == db.events[req.emitter.value :=
           ev.(totalSum := Some(ev.totalSum.value - req.amount.value), transactions := ev.transactions + [|db.txs|])]
    ensures s.out.Failed? ==> s.db.events == db.events
    ensures Linked(db) && s.out.Failed? && bodyOk && Record(req).Some? ==> Unreferenced(s.db, |db.txs|)
  {
    if !bodyOk then Step(db, Failed(InvalidBody))
    else if Record(req).None? then Step(db, Failed(TxRejected))
    else
      var t := |db.txs|;
      var saved := db.(txs := db.txs + [Record(req).value]);
      match EventAt(db.events, req.emitter)
      case None => Step(saved, Failed(EventNotFound))
      case Some(ev) =>
        if Less(ev.totalSum, req.amount) then Step(saved, Failed(InsufficientFunds))
        else
          var sum := Sub(ev.totalSum, req.amount);
          if sum.None? then Step(saved, Failed(EventSaveRejected))
          else
            var ev' := ev.(totalSum := sum, transactions := ev.transactions + [t]);
            Step(saved.(events := db.events[req.emitter.value := ev']), Done(t))
  }

  /** `Number(event.totalSum || 0) / event.shareAmount`, the refund per unit of share */
  function PerShare(ev: Event): Num
    requires ev.shareAmount != Some(0.0)
  {
    Div(Some(OrZero(ev.totalSum)), ev.shareAmount)
  }

  /**
   * The refund credit of guest `g` cannot be stored: the guest's user exists
   * but its balance or the credit `perShare * g.share` is not a number.
   */
  predicate Unstorable(users: seq<User>, g: Guest, perShare: Num)
  {
    g.userId < |users| && (users[g.userId].balance.None? || Mul(perShare, g.share).None?)
  }

  /**
   * The refund of one guest: a missing user is skipped; a user whose new
   * balance would be NaN is not saved and the step reports the failure;
   * otherwise the user is credited and linked to transaction `t`.
   */
  function CreditGuest(users: seq<User>, g: Guest, perShare: Num, t: Id): (r: (seq<User>, bool))
    ensures |r.0| == |users|
    ensures r.1 <==> Unstorable(users, g, perShare)
    ensures forall i :: 0 <= i < |users| && i != g.userId ==> r.0[i] == users[i]
    ensures g.userId < |users| && !r.1 ==>
      r.0[g.userId] == Credited(users[g.userId], Mul(perShare, g.share).value, t)
    ensures r.1 ==> r.0 == users
  {
    if g.userId >= |users| then (users, false)
    else
      var user := users[g.userId];
      var balance := Add(user.balance, Mul(perShare, g.share));
      if balance.None? then (users, true)
      else (users[g.userId := user.(balance := balance, transactions := user.transactions + [t])], false)
  }

  /** The credit of each guest, in list order; the flag tells whether some credit could not be stored. */
  function CreditGuests(users: seq<User>, guests: seq<Guest>, perShare: Num, t: Id): (r: (seq<User>, bool))
    decreases |guests|
    ensures |r.0| == |users|
  {
    if guests == [] then (users, false)
    else
      var first := CreditGuest(users, guests[0], perShare, t);
      var rest := CreditGuests(first.0, guests[1..], perShare, t);
      (rest.0, first.1 || rest.1)
  }

  /** The refund reports a failed credit exactly when some guest's credit cannot be stored. */
  lemma {:induction false} CreditGuestsFails(users: seq<User>, guests: seq<Guest>, perShare: Num, t: Id)
    decreases |guests|
    ensures CreditGuests(users, guests, perShare, t).1 <==> exists g :: g in guests && Unstorable(users, g, perShare)
  {
    if guests != [] {
      var first := CreditGuest(users, guests[0], perShare, t);
      CreditGuestsFails(first.0, guests[1..], perShare, t);
      assert forall g :: Unstorable(first.0, g, perShare) == Unstorable(users, g, perShare);
      assert forall g :: g in guests <==> g == guests[0] || g in guests[1..];
    }
  }

  /**
   * The refund changes only balances and transaction lists; a balance stays
   * a number or stays unset; the only id a list gains is `t`; and a user no
   * guest names is untouched.
   */
  lemma {:induction false} CreditGuestsFrame(users: seq<User>, guests: seq<Guest>, perShare: Num, t: Id)
    decreases |guests|
    ensures var r := CreditGuests(users, guests, perShare, t).0;
      forall i :: 0 <= i < |users| ==>
        && r[i] == users[i].(balance := r[i].balance, transactions := r[i].transactions)
        && (r[i].balance.Some? <==> users[i].balance.Some?)
        && (forall x <- r[i].transactions :: x in users[i].transactions || x == t)
    ensures var r := CreditGuests(users, guests, perShare, t).0;
      forall i :: 0 <= i < |users| && (forall g <- guests :: g.userId != i) ==> r[i] == users[i]
  {
    if guests != [] {
      var first := CreditGuest(users, guests[0], perShare, t);
      CreditGuestsFrame(first.0, guests[1..], perShare, t);
      assert forall g :: g in guests <==> g == guests[0] || g in guests[1..];
    }
  }

  /** The refund keeps every id a user lists below `n` when the refund's own id is. */
  lemma CreditGuestsKeepsLinks(users: seq<User>, guests: seq<Guest>, perShare: Num, t: Id, n: nat)
    ensures var r := CreditGuests(users, guests, perShare, t).0;
      (forall i :: 0 <= i < |users| ==> Below(users[i].transactions, n)) && t < n ==>
      forall i :: 0 <= i < |r| ==> Below(r[i].transactions, n)
  {
    var r := CreditGuests(users, guests, perShare, t).0;
    CreditGuestsFrame(users, guests, perShare, t);
    forall i | 0 <= i < |r| && (forall i :: 0 <= i < |users| ==> Below(users[i].transactions, n)) && t < n
      ensures Below(r[i].transactions, n) {
      forall j | 0 <= j < |r[i].transactions| ensures r[i].transactions[j] < n {
        assert r[i].transactions[j] in r[i].transactions;
      }
    }
  }

  /**
   * POST /create/refund: returns the emitter event's pool to its guests in
   * proportion to their shares, then zeroes the pool. Guests whose user is
   * missing are skipped. If one credit cannot be stored the others stay
   * stored but the event is left as it was.
   */
  function Refund(db: Db, req: TxRequest, bodyOk: bool): (s: Step)
    ensures s.db.txs == Stored(db, req, bodyOk)
    ensures s.out == Failed(InvalidBody) <==> !bodyOk
    ensures s.out == Failed(TxRejected) <==> bodyOk && Record(req).None?
    ensures s.out == Failed(EventNotFound) <==>
      bodyOk && Record(req).Some? && EventAt(db.events, req.emitter).None?
    ensures s.out == Failed(GuestSaveRejected) <==>
      && bodyOk && Record(req).Some?
      && EventAt(db.events, req.emitter).Some?
      && var ev := EventAt(db.events, req.emitter).value;
         && ev.shareAmount != Some(0.0)
         && exists g :: g in ev.guests && Unstorable(db.users, g, PerShare(ev))
    ensures |s.db.users| == |db.users| && |s.db.events| == |db.events|
    ensures Linked(db) ==> Linked(s.db)
    ensures s.out == Failed(NoGuests) <==>
      && bodyOk && Record(req).Some?
      && EventAt(db.events, req.emitter).Some?
      && EventAt(db.events, req.emitter).value.shareAmount == Some(0.0)
    ensures s.out.Done? <==>
      && bodyOk && Record(req).Some?
      && EventAt(db.events, req.emitter).Some?
      && var ev := EventAt(db.events, req.emitter).value;
         && ev.shareAmount != Some(0.0)
         && !exists g :: g in ev.guests && Unstorable(db.users, g, PerShare(ev))
    ensures s.out.Done? || s.out == Failed(GuestSaveRejected) ==>
      && EventAt(db.events, req.emitter).Some?
      && var ev := EventAt(db.events, req.emitter).value;
         && ev.shareAmount != Some(0.0)
         && s.db.users == CreditGuests(db.users, ev.guests, PerShare(ev), |db.txs|).0
    ensures !(s.out.Done? || s.out == Failed(GuestSaveRejected)) ==> s.db.users == db.users
    ensures s.out.Done? ==>
      && s.out.tx == |db.txs| == |s.db.txs| - 1
      && var ev := db.events[req.emitter.value];
         s.db.events == db.events[req.emitter.value :=
           ev.(totalSum := Some(0.0), transactions := ev.transactions + [|db.txs|])]
    ensures !s.out.Done? ==> s.db.events == db.events
  {
    if !bodyOk then Step(db, Failed(InvalidBody))
    else if Record(req).None? then Step(db, Failed(TxRejected))
    else
      var t := |db.txs|;
      var saved := db.(txs := db.txs + [Record(req).value]);
      match EventAt(db.events, req.emitter)
      case None => Step(saved, Failed(EventNotFound))
      case Some(ev) =>
        if ev.shareAmount == Some(0.0) then Step(saved, Failed(NoGuests))
        else
          CreditGuestsFails(db.users, ev.guests, PerShare(ev), t);
          CreditGuestsFrame(db.users, ev.guests, PerShare(ev), t);
          CreditGuestsKeepsLinks(db.users, ev.guests, PerShare(ev), t, t + 1);
          var credits := CreditGuests(db.users, ev.guests, PerShare(ev), t);
          var credited := saved.(users := credits.0);
          if credits.1 then Step(credited, Failed(GuestSaveRejected))
          else
            var ev' := ev.(totalSum := Some(0.0), transactions := ev.transactions + [t]);
            Step(credited.(events := db.events[req.emitter.value := ev']), Done(t))
  }

  /** The money held in user balances; a balance that is not set counts as 0. */
  function TotalBalance(users: seq<User>): real
  {
    if users == [] then 0.0 else OrZero(users[0].balance) + TotalBalance(users[1..])
  }

  /** The sum of the guests' shares. */
  function TotalShares(guests: seq<Guest>): real
  {
    if guests == [] then 0.0 else OrZero(guests[0].share) + TotalShares(guests[1..])
  }

  lemma {:induction false} TotalBalanceUpdate(users: seq<User>, i: nat, u: User)
    requires i < |users|
    ensures TotalBalance(users[i := u]) == TotalBalance(users) - OrZero(users[i].balance) + OrZero(u.balance)
  {
    if i == 0 {
      assert users[i := u][1..] == users[1..];
    } else {
      TotalBalanceUpdate(users[1..], i - 1, u);
      assert users[i := u][1..] == users[1..][i - 1 := u];
    }
  }

  /** A guest whose refund credit can be stored: the user exists and both the balance and the share are numbers. */
  predicate Creditable(users: seq<User>, g: Guest)
  {
    g.userId < |users| && users[g.userId].balance.Some? && g.share.Some?
  }

  /** The credit of one creditable guest adds exactly its credit to the balances and keeps the others creditable. */
  lemma CreditGuestConserves(users: seq<User>, g: Guest, perShare: real, t: Id)
    requires Creditable(users, g)
    ensures var first := CreditGuest(users, g, Some(perShare), t);
      && !first.1
      && TotalBalance(first.0) == TotalBalance(users) + perShare * g.share.value
      && forall h :: Creditable(users, h) ==> Creditable(first.0, h)
  {
    var credited := Credited(users[g.userId], perShare * g.share.value, t);
    var first := CreditGuest(users, g, Some(perShare), t);
    assert Mul(Some(perShare), g.share).value == perShare * g.share.value;
    assert first.0 == users[g.userId := credited];
    TotalBalanceUpdate(users, g.userId, credited);
  }

  /** The refund credits `perShare * share` of the guests, summed. */
  function Credits(guests: seq<Guest>, perShare: real): real
  {
    if guests == [] then 0.0 else perShare * OrZero(guests[0].share) + Credits(guests[1..], perShare)
  }

  /** The credits add up to `perShare` times the sum of the shares. */
  lemma {:induction false} CreditsScaleShares(guests: seq<Guest>, perShare: real)
    ensures Credits(guests, perShare) == perShare * TotalShares(guests)
  {
    if guests != [] {
      CreditsScaleShares(guests[1..], perShare);
      var s, o := OrZero(guests[0].share), TotalShares(guests[1..]);
      assert perShare * (s + o) == perShare * s + perShare * o;
    }
  }

  /**
   * When every guest is creditable, no credit fails and the balances grow by
   * exactly the sum of the credits.
   */
  lemma {:induction false} CreditGuestsConserves(users: seq<User>, guests: seq<Guest>, perShare: real, t: Id)
    requires forall g <- guests :: Creditable(users, g)
    decreases |guests|
    ensures !CreditGuests(users, guests, Some(perShare), t).1
    ensures TotalBalance(CreditGuests(users, guests, Some(perShare), t).0)
      == TotalBalance(users) + Credits(guests, perShare)
  {
    if guests != [] {
      var g := guests[0];
      assert g in guests;
      var first := CreditGuest(users, g, Some(perShare), t);
      CreditGuestConserves(users, g, perShare, t);
      assert forall h <- guests[1..] :: h in guests;
      CreditGuestsConserves(first.0, guests[1..], perShare, t);
      var after := CreditGuests(first.0, guests[1..], Some(perShare), t).0;
      assert CreditGuests(users, guests, Some(perShare), t).0 == after;
      CreditsAdd(guests, perShare, TotalBalance(after), TotalBalance(first.0), TotalBalance(users));
    }
  }

  lemma CreditsAdd(guests: seq<Guest>, perShare: real, after: real, middle: real, before: real)
    requires guests != [] && guests[0].share.Some?
    requires middle == before + perShare * guests[0].share.value
    requires after == middle + Credits(guests[1..], perShare)
    ensures after == before + Credits(guests, perShare)
  {
  }

  /**
   * A refund of an event whose shareAmount is the sum of its guests' shares,
   * when no guest is skipped, completes, hands out exactly the old pool and
   * leaves the pool at 0.
   */
  lemma RefundReturnsThePool(db: Db, req: TxRequest)
    requires Record(req).Some?
    requires EventAt(db.events, req.emitter).Some?
    requires
      var ev := EventAt(db.events, req.emitter).value;
      && ev.shareAmount == Some(TotalShares(ev.guests))
      && TotalShares(ev.guests) != 0.0
      && forall g <- ev.guests :: Creditable(db.users, g)
    ensures
      var ev := EventAt(db.events, req.emitter).value;
      var s := Refund(db, req, true);
      && s.out.Done?
      && TotalBalance(s.db.users) == TotalBalance(db.users) + OrZero(ev.totalSum)
      && s.db.events[req.emitter.value].totalSum == Some(0.0)
  {
    var ev := EventAt(db.events, req.emitter).value;
    var total := TotalShares(ev.guests);
    var perShare := OrZero(ev.totalSum) / total;
    assert PerShare(ev) == Some(perShare);
    var t := |db.txs|;
    CreditGuestsConserves(db.users, ev.guests, perShare, t);
    var credits := CreditGuests(db.users, ev.guests, Some(perShare), t);
    var s := Refund(db, req, true);
    assert s.db.users == credits.0 && s.out == Done(t);
    CreditsScaleShares(ev.guests, perShare);
    QuotientTimesDivisor(OrZero(ev.totalSum), total);
  }

  lemma QuotientTimesDivisor(x: real, y: real)
    requires y != 0.0
    ensures x / y * y == x
  {
  }

  /**
   * When no user is listed twice among the guests, each listed user that
   * exists and whose credit can be stored receives exactly its own guest's
   * credit and one link to the refund.
   */
  lemma {:induction false} CreditReachesEachGuest(users: seq<User>, guests: seq<Guest>, perShare: Num, t: Id, k: nat)
    requires k < |guests| && guests[k].userId < |users|
    requires forall a, b :: 0 <= a < b < |guests| ==> guests[a].userId != guests[b].userId
    requires !Unstorable(users, guests[k], perShare)
    decreases |guests|
    ensures
      var id := guests[k].userId;
      CreditGuests(users, guests, perShare, t).0[id]
        == Credited(users[id], Mul(perShare, guests[k].share).value, t)
  {
    var id := guests[k].userId;
    var first := CreditGuest(users, guests[0], perShare, t);
    CreditGuestsFrame(first.0, guests[1..], perShare, t);
    if k == 0 {
      assert forall g <- guests[1..] :: g.userId != id by {
        forall g <- guests[1..] ensures g.userId != id {
          var j :| 0 <= j < |guests[1..]| && guests[1..][j] == g;
          assert guests[j + 1] == g;
        }
      }
    } else {
      assert guests[0].userId != id;
      assert guests[1..][k - 1] == guests[k];
      CreditReachesEachGuest(first.0, guests[1..], perShare, t, k - 1);
    }
  }
}
