/**
 * The route handlers as the server runs them: each request loads a document,
 * checks it, changes its fields in place and saves it, on a database whose
 * three collections are fields of one object. Each handler is proved to do
 * exactly what its rule in TransactionRules or UserRules says.
 */
module Handlers {
  import opened Models
  import TransactionRules
  import UserRules

  class Ledger {
    var users: seq<User>
    var events: seq<Event>
    var txs: seq<Transaction>

    function Snapshot(): Db
      reads this
    {
      Db(users, events, txs)
    }

    /** Every transaction id a document lists names a stored transaction. */
    ghost predicate Valid()
      reads this
    {
      Linked(Snapshot())
    }

    constructor (db: Db)
      requires Linked(db)
      ensures Valid() && Snapshot() == db
    {
      users, events, txs := db.users, db.events, db.txs;
    }

    /** routes/transactions.js, POST /create/reload */
    method Reload(req: TxRequest, bodyOk: bool) returns (out: TransactionRules.Outcome)
      requires Valid()
      modifies this
      ensures TransactionRules.Step(Snapshot(), out) == TransactionRules.Reload(old(Snapshot()), req, bodyOk)
      ensures Valid()
    {
      if !bodyOk {
        return TransactionRules.Failed(InvalidBody);
      }
      var record := TransactionRules.Record(req);
      if record.None? {
        return TransactionRules.Failed(TxRejected);
      }
      var t := |txs|;
      txs := txs + [record.value];
      var found := UserAt(users, req.emitter);
      if found.None? {
        return TransactionRules.Failed(UserNotFound);
      }
      var user := found.value;
      user := user.(balance := Add(user.balance, req.amount));
      if Less(user.balance, Some(0.0)) {
        return TransactionRules.Failed(InsufficientFunds);
      }
      user := user.(transactions := user.transactions + [t]);
      if user.balance.None? {
        return TransactionRules.Failed(UserSaveRejected);
      }
      users := users[req.emitter.value := user];
      out := TransactionRules.Done(t);
    }

    /** routes/transactions.js, POST /create/payment */
    method Payment(req: TxRequest, bodyOk: bool) returns (out: TransactionRules.Outcome)
      requires Valid()
      modifies this
      ensures TransactionRules.Step(Snapshot(), out) == TransactionRules.Payment(old(Snapshot()), req, bodyOk)
      ensures Valid()
    {
      if !bodyOk {
        return TransactionRules.Failed(InvalidBody);
      }
      var record := TransactionRules.Record(req);
      if record.None? {
        return TransactionRules.Failed(TxRejected);
      }
      var t := |txs|;
      txs := txs + [record.value];
      var found := UserAt(users, req.emitter);
      if found.None? {
        return TransactionRules.Failed(UserNotFound);
      }
      var user := found.value;
      if Less(user.balance, req.amount) {
        return TransactionRules.Failed(InsufficientFunds);
      }
      user := user.(balance := Sub(user.balance, req.amount), transactions := user.transactions + [t]);
      if user.balance.None? {
        return TransactionRules.Failed(UserSaveRejected);
      }
      users := users[req.emitter.value := user];
      var target := EventAt(events, req.recipient);
      if target.None? {
        return TransactionRules.Failed(EventNotFound);
      }
      var ev := target.value;
      ev := ev.(transactions := ev.transactions + [t]);
      events := events[req.recipient.value := ev];
      out := TransactionRules.Done(t);
    }

    /** routes/transactions.js, POST /create/expense */
    method Expense(req: TxRequest, bodyOk: bool) returns (out: TransactionRules.Outcome)
      requires Valid()
      modifies this
      ensures TransactionRules.Step(Snapshot(), out) == TransactionRules.Expense(old(Snapshot()), req, bodyOk)
      ensures Valid()
    {
      if !bodyOk {
        return TransactionRules.Failed(InvalidBody);
      }
      var record := TransactionRules.Record(req);
      if record.None? {
        return TransactionRules.Failed(TxRejected);
      }
      var t := |txs|;
      txs := txs + [record.value];
      var found := EventAt(events, req.emitter);
      if found.None? {
        return TransactionRules.Failed(EventNotFound);
      }
      var ev := found.value;
      if Less(ev.totalSum, req.amount) {
        return TransactionRules.Failed(InsufficientFunds);
      }
      ev := ev.(totalSum := Sub(ev.totalSum, req.amount), transactions := ev.transactions + [t]);
      if ev.totalSum.None? {
        return TransactionRules.Failed(EventSaveRejected);
      }
      events := events[req.emitter.value := ev];
      out := TransactionRules.Done(t);
    }

    /**
     * routes/transactions.js, POST /create/refund. The guests are credited one
     * after the other, in list order.
     */
    method Refund(req: TxRequest, bodyOk: bool) returns (out: TransactionRules.Outcome)
      requires Valid()
      modifies this
      ensures TransactionRules.Step(Snapshot(), out) == TransactionRules.Refund(old(Snapshot()), req, bodyOk)
      ensures Valid()
    {
      if !bodyOk {
        return TransactionRules.Failed(InvalidBody);
      }
      var record := TransactionRules.Record(req);
      if record.None? {
        return TransactionRules.Failed(TxRejected);
      }
      var t := |txs|;
      txs := txs + [record.value];
      var found := EventAt(events, req.emitter);
      if found.None? {
        return TransactionRules.Failed(EventNotFound);
      }
      var ev := found.value;
      if ev.shareAmount == Some(0.0) {
        return TransactionRules.Failed(NoGuests);
      }
      var perShare := TransactionRules.PerShare(ev);
      ghost var credits := TransactionRules.CreditGuests(users, ev.guests, perShare, t);
      var failed := false;
      var i := 0;
      while i < |ev.guests|
        invariant 0 <= i <= |ev.guests|
        invariant events == old(events) && txs == old(txs) + [record.value]
        invariant |users| == |old(users)|
        invariant
          var rest := TransactionRules.CreditGuests(users, ev.guests[i..], perShare, t);
          rest.0 == credits.0 && (failed || rest.1) == credits.1
      {
        var guest := ev.guests[i];
        assert ev.guests[i..][1..] == ev.guests[i + 1..];
        if guest.userId < |users| {
          var user := users[guest.userId];
          user := user.(balance := Add(user.balance, Mul(perShare, guest.share)));
          user := user.(transactions := user.transactions + [t]);
          if user.balance.None? {
            failed := true;
          } else {
            users := users[guest.userId := user];
          }
        }
        i := i + 1;
      }
      assert ev.guests[i..] == [];
      if failed {
        return TransactionRules.Failed(GuestSaveRejected);
      }
      ev := ev.(totalSum := Some(0.0), transactions := ev.transactions + [t]);
      events := events[req.emitter.value := ev];
      out := TransactionRules.Done(t);
    }

    /**
     * routes/transactions.js, GET /userTransactions/:token: the transactions of
     * the user holding the token, most recent first; None for an unknown
     * token. The list is reversed in place on a copy and nothing is saved.
     */
    method UserTransactions(token: string) returns (r: Option<seq<Transaction>>)
      requires Valid()
      ensures r.Some? <==> TokenHolder(users, Some(token)).Some?
      ensures r.Some? ==>
        var ids := users[TokenHolder(users, Some(token)).value].transactions;
        && |r.value| == |ids|
        && forall k :: 0 <= k < |ids| ==> r.value[k] == txs[ids[|ids| - 1 - k]]
    {
      var holder := TokenHolder(users, Some(token));
      if holder.None? {
        return None;
      }
      var ids := users[holder.value].transactions;
      var store := txs;
      assert Below(ids, |store|);
      // populate("transactions"): every id names a stored transaction
      var list := new Transaction[|ids|](k requires 0 <= k < |ids| => store[ids[k]]);
      assert forall k :: 0 <= k < |ids| ==> list[k] == store[ids[k]];
      Reverse(list);
      r := Some(list[..]);
    }

    /** `Array.prototype.reverse`: the elements of `a`, last first, in place. */
    static method Reverse<T>(a: array<T>)
      modifies a
      ensures forall k :: 0 <= k < a.Length ==> a[k] == old(a[a.Length - 1 - k])
    {
      var lo, hi := 0, a.Length - 1;
      while lo < hi
        invariant 0 <= lo <= a.Length && hi == a.Length - 1 - lo
        invariant forall k :: 0 <= k < lo ==> a[k] == old(a[a.Length - 1 - k]) && a[a.Length - 1 - k] == old(a[k])
        invariant forall k :: lo <= k <= hi ==> a[k] == old(a[k])
      {
        a[lo], a[hi] := a[hi], a[lo];
        lo, hi := lo + 1, hi - 1;
      }
    }

    /** routes/users.js, POST /invite */
    method Invite(bodyOk: bool, email: string, eventId: Option<Id>, matches: (string, string) -> bool)
      returns (reply: UserRules.Reply)
      requires Valid()
      modifies this
      ensures Valid() && events == old(events) && txs == old(txs)
      ensures UserRules.Step(users, reply) == UserRules.Invite(old(users), bodyOk, email, eventId, matches)
    {
      if !bodyOk {
        return UserRules.Refused(InvalidBody);
      }
      var data := UserRules.EmailHolder(users, email, matches);
      if data.None? {
        var newUser := User(None, None, None, None, email, [eventId], None, []);
        users := users + [newUser];
        reply := UserRules.Ok(|users| - 1);
      } else {
        var user := users[data.value];
        user := user.(events := user.events + [eventId]);
        users := users[data.value := user];
        reply := UserRules.Ok(data.value);
      }
    }

    /** routes/users.js, POST /signup */
    method Signup(bodyOk: bool, firstName: string, lastName: string, email: string,
                  hashed: string, token: string, matches: (string, string) -> bool)
      returns (reply: UserRules.Reply)
      requires Valid()
      modifies this
      ensures Valid() && events == old(events) && txs == old(txs)
      ensures UserRules.Step(users, reply)
        == UserRules.Signup(old(users), bodyOk, firstName, lastName, email, hashed, token, matches)
    {
      if !bodyOk {
        return UserRules.Refused(InvalidBody);
      }
      var data := UserRules.EmailHolder(users, email, matches);
      if data.None? {
        var newUser := User(Some(firstName), Some(lastName), Some(hashed), Some(token), email, [], Some(0.0), []);
        users := users + [newUser];
        reply := UserRules.Ok(|users| - 1);
      } else {
        var user := users[data.value];
        user := user.(firstName := Some(firstName), lastName := Some(lastName));
        user := user.(password := Some(hashed), token := Some(token));
        users := users[data.value := user];
        reply := UserRules.Ok(data.value);
      }
    }

    /** routes/users.js, POST /login */
    method Login(bodyOk: bool, email: string, password: string, token: string,
                 matches: (string, string) -> bool, compare: (string, string) -> bool)
      returns (reply: UserRules.Reply)
      requires Valid()
      modifies this
      ensures Valid() && events == old(events) && txs == old(txs)
      ensures UserRules.Step(users, reply)
        == UserRules.Login(old(users), bodyOk, email, password, token, matches, compare)
    {
      if !bodyOk {
        return UserRules.Refused(InvalidBody);
      }
      var data := UserRules.EmailHolder(users, email, matches);
      if data.None? {
        return UserRules.Refused(BadCredentials);
      }
      var user := users[data.value];
      if user.password.None? {
        return UserRules.Refused(NoPasswordHash);
      }
      if !compare(password, user.password.value) {
        return UserRules.Refused(BadCredentials);
      }
      users := users[data.value := user.(token := Some(token))];
      reply := UserRules.Ok(data.value);
    }

    /** routes/users.js, POST /logout */
    method Logout(token: Option<string>) returns (reply: UserRules.Reply)
      requires Valid()
      modifies this
      ensures Valid() && events == old(events) && txs == old(txs)
      ensures UserRules.Step(users, reply) == UserRules.Logout(old(users), token)
    {
      var data := TokenHolder(users, token);
      if data.None? {
        return UserRules.Refused(UserNotFound);
      }
      users := users[data.value := users[data.value].(token := Some(""))];
      reply := UserRules.Ok(data.value);
    }
  }
}
