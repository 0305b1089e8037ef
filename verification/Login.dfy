// Signing in: password, ticket, session, enrolment.
module Login {
  import opened Common

  type User = nat
  type Token = nat
  type Sid = nat

  datatype Factor = TotpSecret | SecurityKey | SmsNumber
  datatype Method = Password | Totp | Webauthn | Otp
  datatype Account = Account(active: bool, factors: set<Factor>)
  datatype Ticket = Ticket(user: User, expires: int)

  /** `from` is the ticket a session was opened with; `proved` says that an enrolment was completed on it. */
  datatype Session = Session(user: User, how: Method, from: Option<Token>, proved: bool, revoked: bool, expires: int)

  /** `issued` remembers every ticket ever given out; tokens are random and never repeat. */
  datatype Store = Store(accounts: map<User, Account>, tickets: map<Token, Ticket>, issued: map<Token, User>,
                         sessions: map<Sid, Session>)

  datatype Failure = BadCredentials | Locked | PendingExpired | BadCode | NoSession
  datatype Outcome = Opened(sid: Sid, enrollmentOnly: bool) | SecondFactor(token: Token)
  datatype Reason = NoUser | BadPassword | Inactive | WhileLocked | Succeeded
  datatype Attempt = Attempt(user: Option<User>, reason: Reason)
  datatype Resolved = Resolved(sid: Sid, user: User, enrollmentOnly: bool)

  const TICKET_LIFE: int := 300

  predicate Active(s: Store, user: User) { user in s.accounts && s.accounts[user].active }

  predicate HasFactor(s: Store, user: User) { user in s.accounts && s.accounts[user].factors != {} }

  predicate Alive(c: Session, now: int) { !c.revoked && c.expires > now }

  predicate TicketGood(s: Store, token: Token, now: int)
  {
    token in s.tickets && s.tickets[token].expires > now && Active(s, s.tickets[token].user)
  }

  function MethodOf(f: Factor): Method
  {
    match f case TotpSecret => Totp case SecurityKey => Webauthn case SmsNumber => Otp
  }

  // ---------------------------------------------------------------- single writes

  function Issue(s: Store, token: Token, user: User, now: int): Store
  {
    s.(tickets := s.tickets[token := Ticket(user, now + TICKET_LIFE)], issued := s.issued[token := user])
  }

  function Open(s: Store, sid: Sid, user: User, how: Method, from: Option<Token>, expires: int): Store
  {
    s.(sessions := s.sessions[sid := Session(user, how, from, false, false, expires)])
  }

  function Consume(s: Store, token: Token): Store
  {
    s.(tickets := s.tickets - {token})
  }

  /** Another live session of the user that only knows the password. */
  predicate Outdated(c: Session, user: User) { c.user == user && c.how.Password? && !c.revoked }

  function OthersOf(s: Store, user: User, sid: Sid): set<Sid>
  {
    set x | x in s.sessions && x != sid && Outdated(s.sessions[x], user)
  }

  /** The session has proved the factor; the others named lose their standing. */
  function Prove(s: Store, sid: Sid, user: User, f: Factor, others: set<Sid>): Store
    requires sid in s.sessions && user in s.accounts
  {
    s.(accounts := s.accounts[user := s.accounts[user].(factors := s.accounts[user].factors + {f})],
       sessions := map x | x in s.sessions ::
         if x == sid then s.sessions[x].(how := MethodOf(f), proved := true)
         else if x in others then s.sessions[x].(revoked := true)
         else s.sessions[x])
  }

  /** An old session that knows only the password may not add a factor once there is one. */
  predicate MayEnroll(s: Store, user: User, sid: Sid, now: int)
  {
    && user in s.accounts && sid in s.sessions && s.sessions[sid].user == user && Alive(s.sessions[sid], now)
    && !(s.sessions[sid].how.Password? && HasFactor(s, user))
  }

  // ---------------------------------------------------------------- the tables, changed in place

  class AuthTables {
    var accounts: map<User, Account>
    var tickets: map<Token, Ticket>
    var issued: map<Token, User>
    var sessions: map<Sid, Session>
    var attempts: seq<Attempt>

    function Contents(): Store
      reads this
    {
      Store(accounts, tickets, issued, sessions)
    }

    method Record(user: Option<User>, reason: Reason)
      modifies this`attempts
      ensures attempts == old(attempts) + [Attempt(user, reason)]
    {
      attempts := attempts + [Attempt(user, reason)];
    }

    /**
     * `found` is the account of the name typed, `right` whether the password fits, `locked` and `policy` what the
     * database says of the account; `token` and `sid` are fresh.
     */
    method Login(found: Option<User>, right: bool, locked: bool, policy: bool, token: Token, sid: Sid, now: int,
                 expires: int)
      returns (r: Result<Outcome, Failure>)
      requires found.Some? ==> found.value in accounts
      modifies this
      ensures found.None? || !right || !Active(old(Contents()), found.value) ==>
                r == Err(BadCredentials) && Contents() == old(Contents())
      ensures found.Some? && right && Active(old(Contents()), found.value) && locked ==>
                r == Err(Locked) && Contents() == old(Contents())
      ensures found.Some? && right && Active(old(Contents()), found.value) && !locked ==>
                if HasFactor(old(Contents()), found.value) then
                  r == Ok(SecondFactor(token)) && Contents() == Issue(old(Contents()), token, found.value, now)
                else
                  && r == Ok(Opened(sid, policy))
                  && Contents() == Open(old(Contents()), sid, found.value, Password, None, expires)
      // in plain terms: the ticket is good for 300 seconds, the session is a live password session
      ensures r == Ok(SecondFactor(token)) ==>
        && tickets == old(tickets)[token := Ticket(found.value, now + 300)] && sessions == old(sessions)
        && forall later :: TicketGood(Contents(), token, later) <==> later < now + 300
      ensures r == Ok(Opened(sid, policy)) ==>
        && sessions == old(sessions)[sid := Session(found.value, Password, None, false, false, expires)]
        && tickets == old(tickets) && forall later :: Alive(sessions[sid], later) <==> later < expires
      ensures |attempts| == |old(attempts)| + 1 && attempts[..|old(attempts)|] == old(attempts)
      ensures attempts[|old(attempts)|].reason.Succeeded? <==> r.Ok?
      ensures accounts == old(accounts)
    {
      if found.None? || !right || !accounts[found.value].active {
        Record(found, if found.None? then NoUser else if !right then BadPassword else Inactive);
        return Err(BadCredentials);
      }
      var user := found.value;
      if locked {
        Record(found, WhileLocked);
        return Err(Locked);
      }
      Record(found, Succeeded);
      var needs := HasFactor(Contents(), user);
      if needs {
        tickets := tickets[token := Ticket(user, now + TICKET_LIFE)];
        issued := issued[token := user];
        return Ok(SecondFactor(token));
      }
      sessions := sessions[sid := Session(user, Password, None, false, false, expires)];
      r := Ok(Opened(sid, policy));
    }

    /** A wrong code leaves the ticket; the right one spends it whatever comes after. */
    method CompleteSecondFactor(token: Token, verified: bool, how: Method, sid: Sid, now: int, expires: int)
      returns (r: Result<Sid, Failure>)
      modifies this
      ensures !TicketGood(old(Contents()), token, now) || !verified ==> r.Err? && Contents() == old(Contents())
      ensures TicketGood(old(Contents()), token, now) && verified ==>
                && r == Ok(sid) && token !in tickets
                && Contents() == Open(Consume(old(Contents()), token), sid, old(tickets)[token].user, how,
                                      Some(token), expires)
      // in plain terms: a verified code opens a live session of the ticket's user exactly while the ticket lasts
      ensures r.Ok? <==>
        && verified && token in old(tickets) && now < old(tickets)[token].expires
        && old(tickets)[token].user in accounts && accounts[old(tickets)[token].user].active
      ensures r.Ok? ==>
        && tickets == old(tickets) - {token}
        && sessions == old(sessions)[sid := Session(old(tickets)[token].user, how, Some(token), false, false, expires)]
      ensures r.Err? ==>
        r.error == if token !in old(tickets) || now >= old(tickets)[token].expires then PendingExpired
                   else if !verified then BadCode else PendingExpired
      ensures attempts == old(attempts) && accounts == old(accounts)
    {
      if token !in tickets || tickets[token].expires <= now {
        return Err(PendingExpired);
      }
      if !verified {
        return Err(BadCode);
      }
      if !Active(Contents(), tickets[token].user) {
        return Err(PendingExpired);
      }
      var row := tickets[token];
      tickets := tickets - {token};
      sessions := sessions[sid := Session(row.user, how, Some(token), false, false, expires)];
      r := Ok(sid);
    }

    method Resolve(sid: Sid, policy: bool, now: int) returns (r: Option<Resolved>)
      ensures r.Some? <==>
        && sid in sessions && !sessions[sid].revoked && now < sessions[sid].expires
        && sessions[sid].user in accounts && accounts[sessions[sid].user].active
        && !(sessions[sid].how == Password && accounts[sessions[sid].user].factors != {})
      ensures r.Some? ==>
        r.value == Resolved(sid, sessions[sid].user, policy && !HasFactor(Contents(), sessions[sid].user))
    {
      if sid !in sessions || !Alive(sessions[sid], now) {
        return None;
      }
      var row := sessions[sid];
      if !Active(Contents(), row.user) {
        return None;
      }
      var needs := HasFactor(Contents(), row.user);
      if row.how == Password && needs {
        return None;
      }
      r := Some(Resolved(sid, row.user, policy && !needs));
    }

    method Enroll(user: User, sid: Sid, f: Factor, now: int) returns (r: Result<Sid, Failure>)
      modifies this
      ensures if MayEnroll(old(Contents()), user, sid, now)
              then r == Ok(sid)
                && Contents() == Prove(old(Contents()), sid, user, f, OthersOf(old(Contents()), user, sid))
                && HasFactor(Contents(), user)
                && forall x :: x in sessions && sessions[x].user == user && sessions[x].how.Password? ==> sessions[x].revoked
              else r == Err(NoSession) && Contents() == old(Contents())
      // in plain terms: on a live session of the user, which knows more than the password if there is a factor already
      ensures r.Ok? <==>
        && user in old(accounts) && sid in old(sessions) && old(sessions)[sid].user == user
        && !old(sessions)[sid].revoked && now < old(sessions)[sid].expires
        && !(old(sessions)[sid].how == Password && old(accounts)[user].factors != {})
      ensures r.Ok? ==>
        && accounts == old(accounts)[user := old(accounts)[user].(factors := old(accounts)[user].factors + {f})]
        && sessions.Keys == old(sessions).Keys && tickets == old(tickets)
        && sessions[sid] == old(sessions)[sid].(proved := true,
             how := match f case TotpSecret => Totp case SecurityKey => Webauthn case SmsNumber => Otp)
        && forall x :: x in sessions && x != sid ==>
             sessions[x] == if old(sessions)[x].user == user && old(sessions)[x].how == Password
                            then old(sessions)[x].(revoked := true) else old(sessions)[x]
    {
      if !MayEnroll(Contents(), user, sid, now) {
        return Err(NoSession);
      }
      var others := OthersOf(Contents(), user, sid);
      accounts := accounts[user := accounts[user].(factors := accounts[user].factors + {f})];
      sessions := map x | x in sessions ::
        if x == sid then sessions[x].(how := MethodOf(f), proved := true)
        else if x in others then sessions[x].(revoked := true)
        else sessions[x];
      assert f in accounts[user].factors;
      r := Ok(sid);
    }
  }
}
