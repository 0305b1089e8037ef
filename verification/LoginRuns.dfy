// Sign-ins, enrolments and requests, one statement at a time.
module LoginRuns {
  import opened Common
  import opened Login

  /**
   * Requests in flight: a sign-in past its password, one that has read whether a factor is needed, a second step that
   * has read its ticket, had its code verified or spent the ticket, a request that has read its session, or found its
   * user active, or been decided, and an enrolment holding the user's row.
   */
  datatype Proc =
    | Knocking(user: User)
    | Told(user: User, needs: bool)
    | Reading(token: Token, how: Method)
    | Verified(token: Token, how: Method)
    | Spent(token: Token, user: User, how: Method)
    | Resolving(sid: Sid, user: User, how: Method)
    | FoundActive(sid: Sid, user: User, how: Method)
    | Answered(sid: Sid, how: Method, admitted: bool)
    | Enrolling(user: User, sid: Sid, f: Factor, began: Method, others: Option<set<Sid>>)

  datatype System = System(store: Store, procs: map<nat, Proc>)

  datatype Event =
    | Knock(p: nat, user: User)
    | AskNeeds(p: nat)
    | GiveTicket(p: nat, token: Token, now: int)
    | OpenPassword(p: nat, sid: Sid, expires: int)
    | ReadTicket(p: nat, token: Token, how: Method, now: int)
    | Verify(p: nat)
    | Spend(p: nat, now: int)
    | OpenProved(p: nat, sid: Sid, expires: int)
    | ReadSession(p: nat, sid: Sid, now: int)
    | CheckActive(p: nat)
    | Decide(p: nat)
    | LockUser(p: nat, user: User, sid: Sid, f: Factor, now: int)
    | RevokeOthers(p: nat)
    | CommitEnroll(p: nat)
    | Drop(p: nat)
    | DropTicket(token: Token)
    | RemoveFactor(user: User, f: Factor)
    | Revoke(sid: Sid)
    | SetAccount(user: User, active: bool)

  // ---------------------------------------------------------------- steps

  predicate RowLocked(s: System, user: User)
  {
    exists p :: p in s.procs && s.procs[p].Enrolling? && s.procs[p].user == user
  }

  predicate Free(s: System, p: nat) { p !in s.procs }

  predicate Enabled(s: System, e: Event)
  {
    match e
    case Knock(p, user) => Free(s, p) && Active(s.store, user)
    case AskNeeds(p) => p in s.procs && s.procs[p].Knocking?
    case GiveTicket(p, token, _) => p in s.procs && s.procs[p].Told? && s.procs[p].needs && token !in s.store.issued
    case OpenPassword(p, sid, _) => p in s.procs && s.procs[p].Told? && !s.procs[p].needs && sid !in s.store.sessions
    case ReadTicket(p, token, how, now) =>
      Free(s, p) && how != Password && token in s.store.tickets && s.store.tickets[token].expires > now
    case Verify(p) => p in s.procs && s.procs[p].Reading?
    case Spend(p, now) => p in s.procs && s.procs[p].Verified? && TicketGood(s.store, s.procs[p].token, now)
    case OpenProved(p, sid, _) => p in s.procs && s.procs[p].Spent? && sid !in s.store.sessions
    case ReadSession(p, sid, now) => Free(s, p) && sid in s.store.sessions && Alive(s.store.sessions[sid], now)
    case CheckActive(p) => p in s.procs && s.procs[p].Resolving?
    case Decide(p) => p in s.procs && s.procs[p].FoundActive?
    case LockUser(p, user, sid, _, now) => Free(s, p) && !RowLocked(s, user) && MayEnroll(s.store, user, sid, now)
    case RevokeOthers(p) => p in s.procs && s.procs[p].Enrolling? && s.procs[p].others.None?
    case CommitEnroll(p) => p in s.procs && s.procs[p].Enrolling? && s.procs[p].others.Some?
    case Drop(p) => p in s.procs
    case DropTicket(_) => true
    case RemoveFactor(user, _) => user in s.store.accounts
    case Revoke(sid) => sid in s.store.sessions
    case SetAccount(_, _) => true
  }

  function With(s: System, p: nat, proc: Proc): System { s.(procs := s.procs[p := proc]) }

  function Without(s: System, p: nat, store: Store): System { System(store, s.procs - {p}) }

  function WithoutFactor(s: Store, user: User, f: Factor): Store
    requires user in s.accounts
  {
    s.(accounts := s.accounts[user := s.accounts[user].(factors := s.accounts[user].factors - {f})])
  }

  function Revoked(s: Store, sid: Sid): Store
    requires sid in s.sessions
  {
    s.(sessions := s.sessions[sid := s.sessions[sid].(revoked := true)])
  }

  function WithActive(s: Store, user: User, active: bool): Store
  {
    var account := if user in s.accounts then s.accounts[user].(active := active) else Account(active, {});
    s.(accounts := s.accounts[user := account])
  }

  /** The session's standing was read when the request arrived, the user's row after it; the factor is read now. */
  predicate Admits(s: Store, user: User, how: Method) { !(how.Password? && HasFactor(s, user)) }

  function Step(s: System, e: Event): System
    requires Enabled(s, e) && Grounded(s)
  {
    match e
    case Knock(p, user) => With(s, p, Knocking(user))
    case AskNeeds(p) => With(s, p, Told(s.procs[p].user, HasFactor(s.store, s.procs[p].user)))
    case GiveTicket(p, token, now) => Without(s, p, Issue(s.store, token, s.procs[p].user, now))
    case OpenPassword(p, sid, expires) => Without(s, p, Open(s.store, sid, s.procs[p].user, Password, None, expires))
    case ReadTicket(p, token, how, _) => With(s, p, Reading(token, how))
    case Verify(p) => With(s, p, Verified(s.procs[p].token, s.procs[p].how))
    case Spend(p, _) =>
      var t := s.procs[p].token;
      With(s, p, Spent(t, s.store.tickets[t].user, s.procs[p].how)).(store := Consume(s.store, t))
    case OpenProved(p, sid, expires) =>
      Without(s, p, Open(s.store, sid, s.procs[p].user, s.procs[p].how, Some(s.procs[p].token), expires))
    case ReadSession(p, sid, _) => With(s, p, Resolving(sid, s.store.sessions[sid].user, s.store.sessions[sid].how))
    case CheckActive(p) =>
      var w := s.procs[p];
      With(s, p, if Active(s.store, w.user) then FoundActive(w.sid, w.user, w.how) else Answered(w.sid, w.how, false))
    case Decide(p) =>
      With(s, p, Answered(s.procs[p].sid, s.procs[p].how, Admits(s.store, s.procs[p].user, s.procs[p].how)))
    case LockUser(p, user, sid, f, _) => With(s, p, Enrolling(user, sid, f, s.store.sessions[sid].how, None))
    case RevokeOthers(p) =>
      With(s, p, s.procs[p].(others := Some(OthersOf(s.store, s.procs[p].user, s.procs[p].sid))))
    case CommitEnroll(p) =>
      Without(s, p, Prove(s.store, s.procs[p].sid, s.procs[p].user, s.procs[p].f, s.procs[p].others.value))
    case Drop(p) => Without(s, p, s.store)
    case DropTicket(token) => s.(store := Consume(s.store, token))
    case RemoveFactor(user, f) => s.(store := WithoutFactor(s.store, user, f))
    case Revoke(sid) => s.(store := Revoked(s.store, sid))
    case SetAccount(user, active) => s.(store := WithActive(s.store, user, active))
  }

  // ---------------------------------------------------------------- what every state keeps

  /** Enrolments hold on to sessions and users that exist. */
  predicate ProcGrounded(s: Store, proc: Proc)
  {
    proc.Enrolling? ==> proc.sid in s.sessions && proc.user in s.accounts && s.sessions[proc.sid].user == proc.user
  }

  predicate Grounded(s: System)
  {
    forall p :: p in s.procs ==> ProcGrounded(s.store, s.procs[p])
  }

  /** A session opened with a ticket belongs to the user whose password bought it, and the ticket is gone. */
  predicate FromFine(s: Store, c: Session)
  {
    c.from.Some? ==>
      c.from.value in s.issued && s.issued[c.from.value] == c.user && c.from.value !in s.tickets && c.how != Password
  }

  /** More than a password stands behind a session only through a ticket or an enrolment. */
  predicate Earned(c: Session) { c.how.Password? || c.from.Some? || c.proved }

  ghost predicate TicketsIssued(s: Store)
  {
    forall t :: t in s.tickets ==> t in s.issued && s.issued[t] == s.tickets[t].user
  }

  ghost predicate SessionsFine(s: Store)
  {
    forall x :: x in s.sessions ==> FromFine(s, s.sessions[x]) && Earned(s.sessions[x])
  }

  /** No two sessions come from one ticket. */
  ghost predicate OncePerTicket(s: Store)
  {
    forall x, y :: x in s.sessions && y in s.sessions && x != y && s.sessions[x].from.Some? ==>
      s.sessions[x].from != s.sessions[y].from
  }

  ghost predicate StoreFine(s: Store) { TicketsIssued(s) && SessionsFine(s) && OncePerTicket(s) }

  /** Nobody else has the ticket a request has spent, and no session was opened with it yet. */
  ghost predicate SpentFine(s: Store, proc: Proc)
    requires proc.Spent?
  {
    && proc.token in s.issued && s.issued[proc.token] == proc.user && proc.token !in s.tickets && proc.how != Password
    && forall x :: x in s.sessions ==> s.sessions[x].from != Some(proc.token)
  }

  /** An enrolment that began with a password alone still finds no factor, and its session is still as it was. */
  predicate EnrollingFine(s: Store, proc: Proc)
    requires proc.Enrolling?
  {
    && ProcGrounded(s, proc) && (proc.began.Password? ==> !HasFactor(s, proc.user))
    && s.sessions[proc.sid].how == proc.began
  }

  ghost predicate ProcFine(s: Store, proc: Proc)
  {
    match proc
    case Reading(_, how) => how != Password
    case Verified(_, how) => how != Password
    case Spent(_, _, _) => SpentFine(s, proc)
    case Enrolling(_, _, _, _, _) => EnrollingFine(s, proc)
    case _ => true
  }

  predicate PairFine(a: Proc, b: Proc)
  {
    && (a.Spent? && b.Spent? ==> a.token != b.token)
    && (a.Enrolling? && b.Enrolling? ==> a.user != b.user)
  }

  ghost predicate Sound(s: System)
  {
    && StoreFine(s.store)
    && (forall p :: p in s.procs ==> ProcFine(s.store, s.procs[p]))
    && (forall p, q :: p in s.procs && q in s.procs && p != q ==> PairFine(s.procs[p], s.procs[q]))
  }

  lemma {:induction false} SoundGrounded(s: System)
    requires Sound(s)
    ensures Grounded(s)
  {
    hide SpentFine;
    forall p | p in s.procs ensures ProcGrounded(s.store, s.procs[p]) { assert ProcFine(s.store, s.procs[p]); }
  }

  // ---------------------------------------------------------------- the writes, one by one

  lemma {:induction false} IssueFine(s: Store, token: Token, user: User, now: int)
    requires StoreFine(s) && token !in s.issued
    ensures StoreFine(Issue(s, token, user, now))
  {}

  lemma {:induction false} IssueProc(s: Store, token: Token, user: User, now: int, proc: Proc)
    requires ProcFine(s, proc) && token !in s.issued
    ensures ProcFine(Issue(s, token, user, now), proc)
  {}

  lemma {:induction false} OpenFine(s: Store, sid: Sid, user: User, how: Method, from: Option<Token>, expires: int)
    requires StoreFine(s) && sid !in s.sessions && (how.Password? <==> from.None?)
    requires from.Some? ==> SpentFine(s, Spent(from.value, user, how))
    ensures StoreFine(Open(s, sid, user, how, from, expires))
  {}

  lemma {:induction false} OpenProc(s: Store, sid: Sid, user: User, how: Method, from: Option<Token>, expires: int,
                                    proc: Proc)
    requires ProcFine(s, proc) && sid !in s.sessions && (proc.Spent? ==> from != Some(proc.token))
    ensures ProcFine(Open(s, sid, user, how, from, expires), proc)
  {}

  lemma {:induction false} ConsumeFine(s: Store, token: Token)
    requires StoreFine(s)
    ensures StoreFine(Consume(s, token))
  {}

  lemma {:induction false} ConsumeProc(s: Store, token: Token, proc: Proc)
    requires ProcFine(s, proc)
    ensures ProcFine(Consume(s, token), proc)
  {}

  lemma {:induction false} ProveFine(s: Store, sid: Sid, user: User, f: Factor, others: set<Sid>)
    requires StoreFine(s) && sid in s.sessions && user in s.accounts
    ensures StoreFine(Prove(s, sid, user, f, others))
  {}

  lemma {:induction false} ProveProc(s: Store, sid: Sid, user: User, f: Factor, others: set<Sid>, proc: Proc)
    requires ProcFine(s, proc) && sid in s.sessions && user in s.accounts && s.sessions[sid].user == user
    requires proc.Enrolling? ==> proc.user != user
    ensures ProcFine(Prove(s, sid, user, f, others), proc)
  {}

  lemma {:induction false} RemoveFine(s: Store, user: User, f: Factor)
    requires StoreFine(s) && user in s.accounts
    ensures StoreFine(WithoutFactor(s, user, f))
  {}

  lemma {:induction false} RemoveProc(s: Store, user: User, f: Factor, proc: Proc)
    requires ProcFine(s, proc) && user in s.accounts
    ensures ProcFine(WithoutFactor(s, user, f), proc)
  {}

  lemma {:induction false} RevokeFine(s: Store, sid: Sid)
    requires StoreFine(s) && sid in s.sessions
    ensures StoreFine(Revoked(s, sid))
  {}

  lemma {:induction false} RevokeProc(s: Store, sid: Sid, proc: Proc)
    requires ProcFine(s, proc) && sid in s.sessions
    ensures ProcFine(Revoked(s, sid), proc)
  {}

  lemma {:induction false} AccountFine(s: Store, user: User, active: bool)
    requires StoreFine(s)
    ensures StoreFine(WithActive(s, user, active))
  {}

  lemma {:induction false} AccountProc(s: Store, user: User, active: bool, proc: Proc)
    requires ProcFine(s, proc)
    ensures ProcFine(WithActive(s, user, active), proc)
  {}

  // ---------------------------------------------------------------- the steps, one by one

  lemma {:induction false} SpendKeeps(s: System, p: nat, now: int)
    requires Sound(s) && Grounded(s) && Enabled(s, Spend(p, now))
    ensures Sound(Step(s, Spend(p, now)))
  {
    hide StoreFine, Grounded;
    var t := s.procs[p].token;
    var store := Consume(s.store, t);
    ConsumeFine(s.store, t);
    forall q | q in s.procs ensures ProcFine(store, s.procs[q]) { ConsumeProc(s.store, t, s.procs[q]); }
    var spent := Spent(t, s.store.tickets[t].user, s.procs[p].how);
    SpentAtLast(s.store, spent);
    assert ProcFine(s.store, s.procs[p]);
    forall q | q in s.procs && q != p ensures PairFine(spent, s.procs[q]) && PairFine(s.procs[q], spent) {
      assert ProcFine(s.store, s.procs[q]);
    }
  }

  lemma {:induction false} SpentAtLast(s: Store, proc: Proc)
    requires StoreFine(s) && proc.Spent? && proc.token in s.tickets && s.tickets[proc.token].user == proc.user
    requires proc.how != Password
    ensures SpentFine(Consume(s, proc.token), proc)
  {
    forall x | x in s.sessions ensures s.sessions[x].from != Some(proc.token) { assert FromFine(s, s.sessions[x]); }
  }

  lemma {:induction false} OpenProvedKeeps(s: System, p: nat, sid: Sid, expires: int)
    requires Sound(s) && Grounded(s) && Enabled(s, OpenProved(p, sid, expires))
    ensures Sound(Step(s, OpenProved(p, sid, expires)))
  {
    hide StoreFine, Grounded, SpentFine;
    var w := s.procs[p];
    assert ProcFine(s.store, w);
    assert w == Spent(w.token, w.user, w.how);
    SpentNotPassword(s.store, w);
    OpenFine(s.store, sid, w.user, w.how, Some(w.token), expires);
    var store := Open(s.store, sid, w.user, w.how, Some(w.token), expires);
    forall q | q in s.procs && q != p ensures ProcFine(store, s.procs[q]) {
      assert PairFine(w, s.procs[q]);
      OpenProc(s.store, sid, w.user, w.how, Some(w.token), expires, s.procs[q]);
    }
  }

  lemma {:induction false} SpentNotPassword(s: Store, proc: Proc)
    requires proc.Spent? && SpentFine(s, proc)
    ensures proc.how != Password
  {}

  lemma {:induction false} OpenPasswordKeeps(s: System, p: nat, sid: Sid, expires: int)
    requires Sound(s) && Grounded(s) && Enabled(s, OpenPassword(p, sid, expires))
    ensures Sound(Step(s, OpenPassword(p, sid, expires)))
  {
    hide StoreFine, Grounded, SpentFine, PairFine;
    var user := s.procs[p].user;
    OpenFine(s.store, sid, user, Password, None, expires);
    var store := Open(s.store, sid, user, Password, None, expires);
    forall q | q in s.procs ensures ProcFine(store, s.procs[q]) {
      OpenProc(s.store, sid, user, Password, None, expires, s.procs[q]);
    }
  }

  lemma {:induction false} GiveTicketKeeps(s: System, p: nat, token: Token, now: int)
    requires Sound(s) && Grounded(s) && Enabled(s, GiveTicket(p, token, now))
    ensures Sound(Step(s, GiveTicket(p, token, now)))
  {
    hide StoreFine, Grounded, ProcFine, PairFine;
    var user := s.procs[p].user;
    IssueFine(s.store, token, user, now);
    forall q | q in s.procs ensures ProcFine(Issue(s.store, token, user, now), s.procs[q]) {
      IssueProc(s.store, token, user, now, s.procs[q]);
    }
  }

  lemma {:induction false} CommitEnrollKeeps(s: System, p: nat)
    requires Sound(s) && Grounded(s) && Enabled(s, CommitEnroll(p))
    ensures Sound(Step(s, CommitEnroll(p)))
  {
    hide StoreFine, ProcFine;
    var w := s.procs[p];
    assert ProcGrounded(s.store, w);
    var store := Prove(s.store, w.sid, w.user, w.f, w.others.value);
    ProveFine(s.store, w.sid, w.user, w.f, w.others.value);
    forall q | q in s.procs && q != p ensures ProcFine(store, s.procs[q]) {
      assert PairFine(w, s.procs[q]);
      ProveProc(s.store, w.sid, w.user, w.f, w.others.value, s.procs[q]);
    }
  }

  lemma {:induction false} LockUserKeeps(s: System, p: nat, user: User, sid: Sid, f: Factor, now: int)
    requires Sound(s) && Grounded(s) && Enabled(s, LockUser(p, user, sid, f, now))
    ensures Sound(Step(s, LockUser(p, user, sid, f, now)))
  {
    hide StoreFine, Grounded;
    var proc := Enrolling(user, sid, f, s.store.sessions[sid].how, None);
    forall q | q in s.procs && q != p ensures PairFine(proc, s.procs[q]) && PairFine(s.procs[q], proc) {}
  }

  lemma {:induction false} RevokeOthersKeeps(s: System, p: nat)
    requires Sound(s) && Grounded(s) && Enabled(s, RevokeOthers(p))
    ensures Sound(Step(s, RevokeOthers(p)))
  {
    hide StoreFine, Grounded, OthersOf;
    var proc := s.procs[p].(others := Some(OthersOf(s.store, s.procs[p].user, s.procs[p].sid)));
    assert ProcFine(s.store, s.procs[p]);
    forall q | q in s.procs && q != p ensures PairFine(proc, s.procs[q]) && PairFine(s.procs[q], proc) {
      assert PairFine(s.procs[p], s.procs[q]);
    }
  }

  lemma {:induction false} OutsideKeeps(s: System, e: Event)
    requires Sound(s) && Grounded(s) && Enabled(s, e)
    requires e.DropTicket? || e.RemoveFactor? || e.Revoke? || e.SetAccount?
    ensures Sound(Step(s, e))
  {
    hide StoreFine, Grounded, ProcFine, PairFine, Consume, WithoutFactor, Revoked, WithActive;
    match e
    case DropTicket(token) =>
      ConsumeFine(s.store, token);
      forall q | q in s.procs ensures ProcFine(Consume(s.store, token), s.procs[q]) {
        ConsumeProc(s.store, token, s.procs[q]);
      }
    case RemoveFactor(user, f) =>
      RemoveFine(s.store, user, f);
      forall q | q in s.procs ensures ProcFine(WithoutFactor(s.store, user, f), s.procs[q]) {
        RemoveProc(s.store, user, f, s.procs[q]);
      }
    case Revoke(sid) =>
      RevokeFine(s.store, sid);
      forall q | q in s.procs ensures ProcFine(Revoked(s.store, sid), s.procs[q]) {
        RevokeProc(s.store, sid, s.procs[q]);
      }
    case SetAccount(user, active) =>
      AccountFine(s.store, user, active);
      forall q | q in s.procs ensures ProcFine(WithActive(s.store, user, active), s.procs[q]) {
        AccountProc(s.store, user, active, s.procs[q]);
      }
  }

  lemma {:induction false} ReadKeeps(s: System, e: Event)
    requires Sound(s) && Grounded(s) && Enabled(s, e)
    requires e.Knock? || e.AskNeeds? || e.ReadTicket? || e.Verify? || e.ReadSession? || e.CheckActive? || e.Decide?
    ensures Sound(Step(s, e))
  {
    hide StoreFine, Grounded, Admits, HasFactor, SpentFine, EnrollingFine;
    if e.Verify? { assert ProcFine(s.store, s.procs[e.p]); }
  }

  lemma {:induction false} StepKeeps(s: System, e: Event)
    requires Sound(s) && Grounded(s) && Enabled(s, e)
    ensures Sound(Step(s, e)) && Grounded(Step(s, e))
  {
    hide *;
    match e {
      case Spend(p, now) => SpendKeeps(s, p, now);
      case OpenProved(p, sid, expires) => OpenProvedKeeps(s, p, sid, expires);
      case OpenPassword(p, sid, expires) => OpenPasswordKeeps(s, p, sid, expires);
      case GiveTicket(p, token, now) => GiveTicketKeeps(s, p, token, now);
      case CommitEnroll(p) => CommitEnrollKeeps(s, p);
      case LockUser(p, user, sid, f, now) => LockUserKeeps(s, p, user, sid, f, now);
      case RevokeOthers(p) => RevokeOthersKeeps(s, p);
      case Drop(p) => DropKeeps(s, p);
      case DropTicket(_) => OutsideKeeps(s, e);
      case RemoveFactor(_, _) => OutsideKeeps(s, e);
      case Revoke(_) => OutsideKeeps(s, e);
      case SetAccount(_, _) => OutsideKeeps(s, e);
      case _ => ReadKeeps(s, e);
    }
    SoundGrounded(Step(s, e));
  }

  lemma {:induction false} DropKeeps(s: System, p: nat)
    requires Sound(s) && Grounded(s) && Enabled(s, Drop(p))
    ensures Sound(Step(s, Drop(p)))
  {
    hide StoreFine, Grounded, ProcFine, PairFine;
  }

  // ---------------------------------------------------------------- runs

  ghost predicate Good(s: System) { Sound(s) && Grounded(s) }

  ghost predicate Possible(s: System, run: seq<Event>)
    requires Good(s)
    decreases run
  {
    run == [] || (Enabled(s, run[0]) && (StepKeeps(s, run[0]); Possible(Step(s, run[0]), run[1..])))
  }

  ghost function Final(s: System, run: seq<Event>): (f: System)
    requires Good(s) && Possible(s, run)
    ensures Good(f)
    decreases run
  {
    if run == [] then s
    else
      StepKeeps(s, run[0]);
      Final(Step(s, run[0]), run[1..])
  }

  lemma {:induction false} EmptyGood()
    ensures Good(System(Store(map[], map[], map[], map[]), map[]))
  {}

  /**
   * In every run, whichever requests race: no two sessions come from one ticket, each belongs to the user whose
   * password bought it, and nothing but a ticket or an enrolment makes a session more than a password session.
   */
  lemma {:induction false} SessionsEarned(s: System, run: seq<Event>, x: Sid, y: Sid)
    requires Good(s) && Possible(s, run)
    requires x in Final(s, run).store.sessions && y in Final(s, run).store.sessions
    ensures var f := Final(s, run).store; var a, b := f.sessions[x], f.sessions[y];
      && (a.from.Some? && a.from == b.from ==> x == y)
      && (a.from.Some? ==> a.from.value in f.issued && f.issued[a.from.value] == a.user && a.how != Password)
      && (a.how != Password ==> a.from.Some? || a.proved)
  {
    hide Final, Possible, ProcFine, PairFine, TicketsIssued;
    var f := Final(s, run).store;
    assert FromFine(f, f.sessions[x]) && Earned(f.sessions[x]);
  }

  // ---------------------------------------------------------------- how often a ticket opens a session

  predicate OpensWith(s: System, e: Event, token: Token)
  {
    e.OpenProved? && e.p in s.procs && s.procs[e.p].Spent? && s.procs[e.p].token == token
  }

  ghost function OpensCount(s: System, run: seq<Event>, token: Token): nat
    requires Good(s) && Possible(s, run)
    decreases run
  {
    if run == [] then 0
    else
      StepKeeps(s, run[0]);
      (if OpensWith(s, run[0], token) then 1 else 0) + OpensCount(Step(s, run[0]), run[1..], token)
  }

  ghost predicate HasSession(s: Store, token: Token)
  {
    exists x :: x in s.sessions && s.sessions[x].from == Some(token)
  }

  /** Sessions never disappear, nor change hands or origin. */
  predicate Lasts(s: Store, t: Store)
  {
    forall x :: x in s.sessions ==>
      && x in t.sessions && t.sessions[x].user == s.sessions[x].user && t.sessions[x].from == s.sessions[x].from
      && (s.sessions[x].how != Password ==> t.sessions[x].how != Password)
  }

  /** What sessions an event adds, and with what ticket. */
  ghost predicate Adds(s: System, e: Event, t: Store)
  {
    && Lasts(s.store, t)
    && forall x :: x in t.sessions && x !in s.store.sessions && t.sessions[x].from.Some? ==>
         OpensWith(s, e, t.sessions[x].from.value)
  }

  lemma {:induction false} StepAdds(s: System, e: Event)
    requires Good(s) && Enabled(s, e)
    ensures Adds(s, e, Step(s, e).store)
  {
    hide Sound, Grounded, Admits, HasFactor, OthersOf, TicketGood, MayEnroll;
    assert e.CommitEnroll? ==> ProcGrounded(s.store, s.procs[e.p]) by { if e.CommitEnroll? { GroundedAt(s, e.p); } }
  }

  lemma {:induction false} GroundedAt(s: System, p: nat)
    requires Grounded(s) && p in s.procs
    ensures ProcGrounded(s.store, s.procs[p])
  {}

  lemma {:induction false} StepOpens(s: System, e: Event, token: Token)
    requires Good(s) && Enabled(s, e)
    ensures OpensWith(s, e, token) ==> !HasSession(s.store, token) && HasSession(Step(s, e).store, token)
    ensures !OpensWith(s, e, token) ==> (HasSession(s.store, token) <==> HasSession(Step(s, e).store, token))
  {
    hide Sound, Grounded;
    StepAdds(s, e);
    if OpensWith(s, e, token) {
      SpentUnopened(s, e.p);
      OpenedNow(s, e);
    } else {
      hide Enabled, Step;
      var t := Step(s, e).store;
      if x :| x in s.store.sessions && s.store.sessions[x].from == Some(token) {
        assert t.sessions[x].from == Some(token);
      }
      if x :| x in t.sessions && t.sessions[x].from == Some(token) {
        assert x in s.store.sessions;
      }
    }
  }

  lemma {:induction false} SpentUnopened(s: System, p: nat)
    requires Sound(s) && p in s.procs && s.procs[p].Spent?
    ensures !HasSession(s.store, s.procs[p].token)
  {
    hide StoreFine, PairFine;
    assert ProcFine(s.store, s.procs[p]);
  }

  lemma {:induction false} OpenedNow(s: System, e: Event)
    requires Grounded(s) && e.OpenProved? && Enabled(s, e)
    ensures HasSession(Step(s, e).store, s.procs[e.p].token)
  {
    var t := Step(s, e).store;
    assert t.sessions[e.sid].from == Some(s.procs[e.p].token);
  }

  function One(b: bool): nat { if b then 1 else 0 }

  /** However many second steps race for a ticket, it opens exactly one session or none. */
  lemma {:induction false} TicketOpensOne(s: System, run: seq<Event>, token: Token)
    requires Good(s) && Possible(s, run)
    ensures OpensCount(s, run, token) + One(HasSession(s.store, token)) == One(HasSession(Final(s, run).store, token))
    ensures OpensCount(s, run, token) <= 1
    decreases run
  {
    hide Sound, Grounded, Enabled, Step, HasSession, OpensWith;
    if run != [] {
      StepAgain(s, run[0]);
      StepOpens(s, run[0], token);
      TicketOpensOne(Step(s, run[0]), run[1..], token);
    }
  }

  lemma {:induction false} StepAgain(s: System, e: Event)
    requires Good(s) && Enabled(s, e)
    ensures Good(Step(s, e))
  {
    hide Sound, Grounded, Enabled;
    StepKeeps(s, e);
  }

  lemma {:induction false} LastsTransitive(s: Store, t: Store, u: Store)
    requires Lasts(s, t) && Lasts(t, u)
    ensures Lasts(s, u)
  {}

  lemma {:induction false} LastsItself(s: Store)
    ensures Lasts(s, s)
  {}

  /** A session that has proved more than a password never falls back to it. */
  lemma {:induction false} NeverDowngraded(s: System, run: seq<Event>)
    requires Good(s) && Possible(s, run)
    ensures Lasts(s.store, Final(s, run).store)
    decreases run
  {
    hide Sound, Grounded, Enabled, Step, Lasts;
    if run != [] {
      StepAgain(s, run[0]);
      StepAdds(s, run[0]);
      NeverDowngraded(Step(s, run[0]), run[1..]);
      LastsTransitive(s.store, Step(s, run[0]).store, Final(s, run).store);
    } else {
      LastsItself(s.store);
    }
  }

  // ---------------------------------------------------------------- a password alone, once there is a factor

  /** An enrolment on a session that knows only the password adds the user's first factor, whatever else happened. */
  lemma {:induction false} PasswordEnrollsFirstOnly(s: System, p: nat)
    requires Good(s) && Enabled(s, CommitEnroll(p))
    ensures s.procs[p].sid in s.store.sessions
    ensures s.store.sessions[s.procs[p].sid].how.Password? ==> !HasFactor(s.store, s.procs[p].user)
    ensures s.store.sessions[s.procs[p].sid].user == s.procs[p].user
  {
    hide StoreFine, PairFine, HasFactor;
    assert ProcFine(s.store, s.procs[p]);
  }

  /** The session is still a password session, and no request has been let in on it. */
  ghost predicate Powerless(s: System, sid: Sid)
  {
    && sid in s.store.sessions && s.store.sessions[sid].how.Password?
    && forall p :: p in s.procs ==> ProcPowerless(s.procs[p], sid, s.store.sessions[sid].user)
  }

  predicate ProcPowerless(proc: Proc, sid: Sid, user: User)
  {
    && ((proc.Resolving? || proc.FoundActive?) && proc.sid == sid ==> proc.how.Password? && proc.user == user)
    && (proc.Answered? && proc.sid == sid ==> !proc.admitted)
  }

  ghost predicate AlwaysFactor(s: System, run: seq<Event>, user: User)
    requires Good(s) && Possible(s, run)
    decreases run
  {
    HasFactor(s.store, user) && (run == [] || (StepKeeps(s, run[0]); AlwaysFactor(Step(s, run[0]), run[1..], user)))
  }

  lemma {:induction false} StillPassword(s: System, e: Event, sid: Sid)
    requires Good(s) && Enabled(s, e) && sid in s.store.sessions && s.store.sessions[sid].how.Password?
    requires HasFactor(s.store, s.store.sessions[sid].user)
    ensures var t := Step(s, e).store;
      sid in t.sessions && t.sessions[sid].how.Password? && t.sessions[sid].user == s.store.sessions[sid].user
  {
    if e.CommitEnroll? {
      hide HasFactor, Sound, Grounded;
      GroundedAt(s, e.p);
      PasswordEnrollsFirstOnly(s, e.p);
    } else {
      hide HasFactor, Sound, Admits, OthersOf, TicketGood, MayEnroll, Grounded;
    }
  }

  lemma {:induction false} ProcsStillPowerless(s: System, e: Event, sid: Sid, q: nat)
    requires Good(s) && Enabled(s, e) && Powerless(s, sid) && HasFactor(s.store, s.store.sessions[sid].user)
    requires q in Step(s, e).procs
    ensures ProcPowerless(Step(s, e).procs[q], sid, s.store.sessions[sid].user)
  {
    hide HasFactor, Sound, Grounded, OthersOf, TicketGood, MayEnroll, Prove, Active;
    if q in s.procs { assert ProcPowerless(s.procs[q], sid, s.store.sessions[sid].user); }
  }

  lemma {:induction false} StepPowerless(s: System, e: Event, sid: Sid)
    requires Good(s) && Enabled(s, e) && Powerless(s, sid) && HasFactor(s.store, s.store.sessions[sid].user)
    ensures Powerless(Step(s, e), sid)
  {
    hide HasFactor, Sound, Grounded, Enabled, Step, ProcPowerless;
    StillPassword(s, e, sid);
    forall q | q in Step(s, e).procs
      ensures ProcPowerless(Step(s, e).procs[q], sid, Step(s, e).store.sessions[sid].user)
    {
      ProcsStillPowerless(s, e, sid, q);
    }
  }

  /**
   * While its user has a second factor, a session opened with only a password lets no request in and can enrol
   * nothing, whichever sign-ins, enrolments and requests were already under way.
   */
  lemma {:induction false} PasswordSessionPowerless(s: System, run: seq<Event>, sid: Sid)
    requires Good(s) && Possible(s, run) && Powerless(s, sid) && AlwaysFactor(s, run, s.store.sessions[sid].user)
    ensures Powerless(Final(s, run), sid)
    decreases run
  {
    hide Sound, Grounded, Enabled, Step, HasFactor, ProcPowerless;
    if run != [] {
      StepAgain(s, run[0]);
      StepPowerless(s, run[0], sid);
      StillUser(s, run[0], sid);
      PasswordSessionPowerless(Step(s, run[0]), run[1..], sid);
    }
  }

  lemma {:induction false} StillUser(s: System, e: Event, sid: Sid)
    requires Good(s) && Enabled(s, e) && Powerless(s, sid) && HasFactor(s.store, s.store.sessions[sid].user)
    ensures sid in Step(s, e).store.sessions
    ensures Step(s, e).store.sessions[sid].user == s.store.sessions[sid].user
  {
    hide Sound, Grounded, Enabled, Step, HasFactor, ProcPowerless;
    StillPassword(s, e, sid);
  }
}
