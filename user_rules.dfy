/**
 * What each route of routes/users.js does to the user collection: an upsert
 * keyed by email for invite and signup, and token updates for login and
 * logout.
 *
 * The foreign helpers are parameters: `bodyOk` is checkBody's verdict,
 * `matches(pattern, email)` is the case-insensitive regular expression built
 * from the request's email, `hashed` is what bcrypt's hash returned,
 * `compare(password, hash)` is bcrypt's compare and `token` is what uid2
 * returned.
 */
module UserRules {
  import opened Models

  /** What a handler answered: the user it upserted or updated, or why it did not. */
  datatype Reply = Ok(user: Id) | Refused(error: Error)

  /** The user collection after a request, and the reply. */
  datatype Step = Step(users: seq<User>, reply: Reply)

  /** The filter `{ email: new RegExp(email, "i") }`: the first user whose email the pattern matches. */
  function EmailHolder(users: seq<User>, email: string, matches: (string, string) -> bool): Option<Id>
  {
    FindFirst(users, (u: User) => matches(email, u.email))
  }

  /**
   * POST /invite: attaches `eventId` to the user the email matches, or adds a
   * bare user with that email and that one event when none matches. The body
   * check asks only for the email, so `eventId` may be absent (`None`), and
   * then that absent id is what gets listed.
   */
  function Invite(users: seq<User>, bodyOk: bool, email: string, eventId: Option<Id>,
                  matches: (string, string) -> bool): (s: Step)
    ensures !bodyOk ==> s == Step(users, Refused(InvalidBody))
    // no match: exactly one new user, with the email and the event and nothing else
    ensures bodyOk && EmailHolder(users, email, matches).None? ==>
      && s.reply == Ok(|users|)
      && |s.users| == |users| + 1
      && s.users[..|users|] == users
      && s.users[|users|] == User(None, None, None, None, email, [eventId], None, [])
    // a match: the event is appended to that user's events, without a duplicate check
    ensures bodyOk && EmailHolder(users, email, matches).Some? ==>
      var i := EmailHolder(users, email, matches).value;
      && s.reply == Ok(i)
      && |s.users| == |users|
      && s.users[i] == users[i].(events := users[i].events + [eventId])
      && forall j :: 0 <= j < |users| && j != i ==> s.users[j] == users[j]
  {
    if !bodyOk then Step(users, Refused(InvalidBody))
    else match EmailHolder(users, email, matches)
      case None =>
        Step(users + [User(None, None, None, None, email, [eventId], None, [])], Ok(|users|))
      case Some(i) =>
        Step(users[i := users[i].(events := users[i].events + [eventId])], Ok(i))
  }

  /**
   * POST /signup: creates a user with a zero balance and no events, or
   * completes the user the email matches by overwriting its names, password
   * and token only.
   */
  function Signup(users: seq<User>, bodyOk: bool, firstName: string, lastName: string, email: string,
                  hashed: string, token: string, matches: (string, string) -> bool): (s: Step)
    ensures !bodyOk ==> s == Step(users, Refused(InvalidBody))
    ensures bodyOk && EmailHolder(users, email, matches).None? ==>
      && s.reply == Ok(|users|)
      && |s.users| == |users| + 1
      && s.users[..|users|] == users
      && s.users[|users|] == User(Some(firstName), Some(lastName), Some(hashed), Some(token), email, [], Some(0.0), [])
    ensures bodyOk && EmailHolder(users, email, matches).Some? ==>
      var i := EmailHolder(users, email, matches).value;
      && s.reply == Ok(i)
      && |s.users| == |users|
      && s.users[i].firstName == Some(firstName) && s.users[i].lastName == Some(lastName)
      && s.users[i].password == Some(hashed) && s.users[i].token == Some(token)
      && s.users[i].email == users[i].email && s.users[i].balance == users[i].balance
      && s.users[i].events == users[i].events && s.users[i].transactions == users[i].transactions
      && forall j :: 0 <= j < |users| && j != i ==> s.users[j] == users[j]
  {
    if !bodyOk then Step(users, Refused(InvalidBody))
    else match EmailHolder(users, email, matches)
      case None =>
        var user := User(Some(firstName), Some(lastName), Some(hashed), Some(token), email, [], Some(0.0), []);
        Step(users + [user], Ok(|users|))
      case Some(i) =>
        var user := users[i].(firstName := Some(firstName), lastName := Some(lastName),
                              password := Some(hashed), token := Some(token));
        Step(users[i := user], Ok(i))
  }

  /**
   * POST /login: gives the user the email matches a new token, when its
   * stored hash accepts the password. A user without a password makes
   * bcrypt throw, which also leaves everything as it was.
   */
  function Login(users: seq<User>, bodyOk: bool, email: string, password: string, token: string,
                 matches: (string, string) -> bool, compare: (string, string) -> bool): (s: Step)
    ensures s.reply.Ok? <==>
      && bodyOk
      && EmailHolder(users, email, matches).Some?
      && users[EmailHolder(users, email, matches).value].password.Some?
      && compare(password, users[EmailHolder(users, email, matches).value].password.value)
    ensures s.reply.Ok? ==>
      && s.reply.user == EmailHolder(users, email, matches).value
      && s.users == users[s.reply.user := users[s.reply.user].(token := Some(token))]
    ensures s.reply == Refused(InvalidBody) <==> !bodyOk
    ensures s.reply == Refused(NoPasswordHash) <==>
      && bodyOk
      && EmailHolder(users, email, matches).Some?
      && users[EmailHolder(users, email, matches).value].password.None?
    ensures s.reply == Refused(BadCredentials) <==>
      && bodyOk
      && (|| EmailHolder(users, email, matches).None?
          || (&& users[EmailHolder(users, email, matches).value].password.Some?
              && !compare(password, users[EmailHolder(users, email, matches).value].password.value)))
    ensures s.reply.Refused? ==> s.users == users
  {
    if !bodyOk then Step(users, Refused(InvalidBody))
    else match EmailHolder(users, email, matches)
      case None => Step(users, Refused(BadCredentials))
      case Some(i) =>
        if users[i].password.None? then Step(users, Refused(NoPasswordHash))
        else if compare(password, users[i].password.value) then
          Step(users[i := users[i].(token := Some(token))], Ok(i))
        else Step(users, Refused(BadCredentials))
  }

  /**
   * POST /logout: clears the token of the user that holds it. The route runs
   * no body check, so the token may be absent (`None`); the lookup then finds
   * the first user that has no token, such as an invited one.
   */
  function Logout(users: seq<User>, token: Option<string>): (s: Step)
    ensures s.reply.Ok? <==> TokenHolder(users, token).Some?
    ensures s.reply.Ok? ==>
      && s.reply.user == TokenHolder(users, token).value
      && users[s.reply.user].token == token
      && s.users == users[s.reply.user := users[s.reply.user].(token := Some(""))]
    ensures s.reply.Refused? ==> s.reply.error == UserNotFound && s.users == users
  {
    match TokenHolder(users, token)
    case None => Step(users, Refused(UserNotFound))
    case Some(i) => Step(users[i := users[i].(token := Some(""))], Ok(i))
  }

  /**
   * Inviting a matched user to the same event twice lists the event twice:
   * invite is not idempotent.
   */
  lemma InviteTwiceListsTwice(users: seq<User>, email: string, eventId: Option<Id>, matches: (string, string) -> bool)
    requires EmailHolder(users, email, matches).Some?
    ensures
      var i := EmailHolder(users, email, matches).value;
      var twice := Invite(Invite(users, true, email, eventId, matches).users, true, email, eventId, matches);
      && twice.reply == Ok(i)
      && twice.users[i].events == users[i].events + [eventId, eventId]
  {
  }

  /**
   * After a signup, logging in with the same email and password succeeds on
   * the user the signup created or completed, provided the email pattern
   * matches its own address and the stored hash accepts the password.
   */
  lemma SignupThenLogin(users: seq<User>, firstName: string, lastName: string, email: string,
                        password: string, hashed: string, token: string, token': string,
                        matches: (string, string) -> bool, compare: (string, string) -> bool)
    requires matches(email, email)
    requires compare(password, hashed)
    ensures
      var signedUp := Signup(users, true, firstName, lastName, email, hashed, token, matches);
      var loggedIn := Login(signedUp.users, true, email, password, token', matches, compare);
      && signedUp.reply.Ok?
      && loggedIn.reply == signedUp.reply
      && loggedIn.users[loggedIn.reply.user].token == Some(token')
  {
  }

  /**
   * A logout without a token, after an invitation that added a new user and
   * when every earlier user holds some token, succeeds on the invited user
   * and gives it the empty token.
   */
  lemma LogoutWithoutTokenHitsInvited(users: seq<User>, email: string, eventId: Option<Id>,
                                      matches: (string, string) -> bool)
    requires EmailHolder(users, email, matches).None?
    requires TokenHolder(users, None).None?
    ensures
      var invited := Invite(users, true, email, eventId, matches).users;
      var out := Logout(invited, None);
      && out.reply == Ok(|users|)
      && out.users[|users|].token == Some("")
      && out.users[..|users|] == users
  {
  }
}
