// What a ticket is good for.
module LoginLaws {
  import opened Common
  import opened Login
  import opened LoginRuns
  import opened LoginLimits

  /** Given out at `now`, a ticket of an active user is good for 300 seconds and no longer. */
  lemma {:induction false} TicketIs(s: Store, token: Token, user: User, now: int, later: int)
    ensures TicketGood(Issue(s, token, user, now), token, later) <==> Active(s, user) && later < now + 300
  {}

  /** A session just opened is alive until it expires; what more than a password stands behind it is what was proved. */
  lemma {:induction false} OpenedIs(s: Store, sid: Sid, user: User, how: Method, from: Option<Token>, expires: int)
    ensures Open(s, sid, user, how, from, expires).sessions == s.sessions[sid := Session(user, how, from, false, false, expires)]
    ensures forall now :: Alive(Open(s, sid, user, how, from, expires).sessions[sid], now) <==> now < expires
  {}

  // ---------------------------------------------------------------- over runs

  /** The event uses the ticket up. */
  predicate UsesUp(s: System, e: Event, token: Token)
  {
    || (e.Spend? && e.p in s.procs && s.procs[e.p].Verified? && s.procs[e.p].token == token)
    || (e.DropTicket? && e.token == token)
  }

  lemma {:induction false} TicketStays(s: System, e: Event, token: Token)
    requires Good(s) && Enabled(s, e) && token in s.store.tickets
    ensures UsesUp(s, e, token) ==> token !in Step(s, e).store.tickets
    ensures !UsesUp(s, e, token) ==>
      token in Step(s, e).store.tickets && Step(s, e).store.tickets[token] == s.store.tickets[token]
  {
    IssuedAt(s, token);
    hide Sound, Grounded, HasFactor, Admits, OthersOf, MayEnroll, Active, Prove, WithActive, Open, MethodOf;
    if e.CommitEnroll? { ProveTickets(s, e.p); }
    if e.OpenPassword? || e.OpenProved? { OpenTickets(s, e); }
    if e.SetAccount? { ActiveTickets(s.store, e.user, e.active); }
  }

  lemma {:induction false} ProveTickets(s: System, p: nat)
    requires Good(s) && Enabled(s, CommitEnroll(p))
    ensures Step(s, CommitEnroll(p)).store.tickets == s.store.tickets
  {
    GroundedAt(s, p);
    hide Sound, Grounded;
  }

  lemma {:induction false} OpenTickets(s: System, e: Event)
    requires Good(s) && Enabled(s, e) && (e.OpenPassword? || e.OpenProved?)
    ensures Step(s, e).store.tickets == s.store.tickets
  {
    hide Sound, Grounded;
  }

  lemma {:induction false} ActiveTickets(s: Store, user: User, active: bool)
    ensures WithActive(s, user, active).tickets == s.tickets
  {}

  lemma {:induction false} IssuedAt(s: System, token: Token)
    requires Good(s) && token in s.store.tickets
    ensures token in s.store.issued
  {
    hide SessionsFine, OncePerTicket, ProcFine, PairFine, Grounded;
  }

  ghost predicate NeverUsedUp(s: System, run: seq<Event>, k: nat, n: nat, token: Token)
    requires Good(s) && Possible(s, run) && k <= n <= |run|
  {
    forall m :: k <= m < n ==> !UsesUp(At(s, run, m), run[m], token)
  }

  lemma {:induction false} TicketLasts(s: System, run: seq<Event>, k: nat, n: nat, token: Token)
    requires Good(s) && Possible(s, run) && k <= n <= |run|
    requires token in At(s, run, k).store.tickets && NeverUsedUp(s, run, k, n, token)
    ensures token in At(s, run, n).store.tickets
    ensures At(s, run, n).store.tickets[token] == At(s, run, k).store.tickets[token]
    decreases n
  {
    hide Sound, Grounded, Enabled, Step, Possible, At, UsesUp;
    if k < n {
      TicketLasts(s, run, k, n - 1, token);
      NextAt(s, run, n - 1);
      TicketStays(At(s, run, n - 1), run[n - 1], token);
    }
  }

  /** The sign-in's ticket, just given out. */
  lemma {:induction false} TicketGiven(s: System, e: Event)
    requires Good(s) && Enabled(s, e) && e.GiveTicket?
    ensures e.p in s.procs && s.procs[e.p].Told?
    ensures e.token in Step(s, e).store.tickets
    ensures Step(s, e).store.tickets[e.token] == Ticket(s.procs[e.p].user, e.now + 300)
  {
    hide Sound, Grounded;
  }

  /**
   * In every run, a ticket given out at one moment and neither spent nor dropped since can be spent by a verified second
   * step of whoever is active exactly until 300 seconds later.
   */
  lemma {:induction false} TicketSpendableIff(s: System, run: seq<Event>, k: nat, n: nat, p: nat, later: int)
    requires Good(s) && Possible(s, run) && k < n <= |run| && run[k].GiveTicket?
    requires NeverUsedUp(s, run, k + 1, n, run[k].token)
    requires p in At(s, run, n).procs && At(s, run, n).procs[p].Verified? && At(s, run, n).procs[p].token == run[k].token
    ensures run[k].p in At(s, run, k).procs && At(s, run, k).procs[run[k].p].Told?
    ensures Enabled(At(s, run, n), Spend(p, later)) <==>
            later < run[k].now + 300 && Active(At(s, run, n).store, At(s, run, k).procs[run[k].p].user)
  {
    hide Sound, Grounded, Step, Possible, At, NeverUsedUp, Active;
    NextAt(s, run, k);
    TicketGiven(At(s, run, k), run[k]);
    TicketLasts(s, run, k + 1, n, run[k].token);
  }

  /** Spending a ticket opens the way to a session of the ticket's user with the method that was verified. */
  lemma {:induction false} SpentThenOpened(s: System, p: nat, now: int)
    requires Good(s) && Enabled(s, Spend(p, now))
    ensures p in s.procs && s.procs[p].Verified? && s.procs[p].token in s.store.tickets
    ensures Step(s, Spend(p, now)).procs[p]
         == Spent(s.procs[p].token, s.store.tickets[s.procs[p].token].user, s.procs[p].how)
  {
    hide Sound, Grounded;
  }

  // ---------------------------------------------------------------- each request, with nobody else about

  lemma {:induction false} OneStep(s: System, e: Event)
    requires Good(s) && Enabled(s, e)
    ensures Possible(s, [e]) && Final(s, [e]) == Step(s, e)
  {
    hide Sound, Grounded, Enabled, Step;
    StepAgain(s, e);
    assert [e][1..] == [];
    assert Possible(Step(s, e), []) && Final(Step(s, e), []) == Step(s, e);
  }

  /** A sign-in after its password: a ticket if the user has a factor, else a password session. */
  lemma {:induction false} SignInAlone(s: System, p: nat, user: User, token: Token, sid: Sid, now: int, expires: int)
    requires Good(s) && p !in s.procs && Active(s.store, user) && token !in s.store.issued && sid !in s.store.sessions
    ensures var last := if HasFactor(s.store, user) then GiveTicket(p, token, now) else OpenPassword(p, sid, expires);
      var run := [Knock(p, user)] + [AskNeeds(p)] + [last];
      && Possible(s, run)
      && Final(s, run) == System(if HasFactor(s.store, user) then Issue(s.store, token, user, now)
                                 else Open(s.store, sid, user, Password, None, expires), s.procs)
  {
    hide Sound, Grounded, Possible, Final, HasFactor, Issue, Open, Active;
    var last := if HasFactor(s.store, user) then GiveTicket(p, token, now) else OpenPassword(p, sid, expires);
    OneStep(s, Knock(p, user));
    RunOn(s, [Knock(p, user)], AskNeeds(p));
    RunOn(s, [Knock(p, user)] + [AskNeeds(p)], last);
    assert s.procs[p := Knocking(user)][p := Told(user, HasFactor(s.store, user))] - {p} == s.procs;
  }

  /** A second step with a verified code: the ticket is gone and a session of its user is there. */
  lemma {:induction false} SecondStepAlone(s: System, p: nat, token: Token, how: Method, sid: Sid, now: int, expires: int)
    requires Good(s) && p !in s.procs && how != Password && TicketGood(s.store, token, now) && sid !in s.store.sessions
    ensures var run := [ReadTicket(p, token, how, now)] + [Verify(p)] + [Spend(p, now)] + [OpenProved(p, sid, expires)];
      && Possible(s, run)
      && Final(s, run) == System(Open(Consume(s.store, token), sid, s.store.tickets[token].user, how, Some(token), expires), s.procs)
  {
    hide Sound, Grounded, Possible, Final, Open, Active;
    var a, b, c, d := ReadTicket(p, token, how, now), Verify(p), Spend(p, now), OpenProved(p, sid, expires);
    OneStep(s, a);
    RunOn(s, [a], b);
    RunOn(s, [a] + [b], c);
    RunOn(s, [a] + [b] + [c], d);
    var user := s.store.tickets[token].user;
    assert s.procs[p := Reading(token, how)][p := Verified(token, how)][p := Spent(token, user, how)] - {p} == s.procs;
  }

  /** An enrolment: its session is raised, the factor is there, the user's other live password sessions are revoked. */
  lemma {:induction false} EnrollAlone(s: System, p: nat, user: User, sid: Sid, f: Factor, now: int)
    requires Good(s) && p !in s.procs && !RowLocked(s, user) && MayEnroll(s.store, user, sid, now)
    ensures var run := [LockUser(p, user, sid, f, now)] + [RevokeOthers(p)] + [CommitEnroll(p)];
      && Possible(s, run)
      && Final(s, run) == System(Prove(s.store, sid, user, f, OthersOf(s.store, user, sid)), s.procs)
  {
    hide Sound, Grounded, Possible, Final, Prove, OthersOf, Active, HasFactor;
    var a, b, c := LockUser(p, user, sid, f, now), RevokeOthers(p), CommitEnroll(p);
    var began, others := s.store.sessions[sid].how, OthersOf(s.store, user, sid);
    OneStep(s, a);
    RunOn(s, [a], b);
    RunOn(s, [a] + [b], c);
    assert s.procs[p := Enrolling(user, sid, f, began, None)][p := Enrolling(user, sid, f, began, Some(others))] - {p} == s.procs;
  }

  /** A request on a session: it is let in exactly when the session resolves. */
  lemma {:induction false} RequestAlone(s: System, p: nat, sid: Sid, now: int)
    requires Good(s) && p !in s.procs && sid in s.store.sessions && !s.store.sessions[sid].revoked
    requires now < s.store.sessions[sid].expires
    ensures var c := s.store.sessions[sid];
      var active := c.user in s.store.accounts && s.store.accounts[c.user].active;
      var run := [ReadSession(p, sid, now)] + [CheckActive(p)] + (if active then [Decide(p)] else []);
      && Possible(s, run) && Final(s, run).store == s.store
      && p in Final(s, run).procs
      && Final(s, run).procs[p] == Answered(sid, c.how, active && !(c.how == Password && s.store.accounts[c.user].factors != {}))
  {
    hide Sound, Grounded, Possible, Final;
    var c := s.store.sessions[sid];
    OneStep(s, ReadSession(p, sid, now));
    RunOn(s, [ReadSession(p, sid, now)], CheckActive(p));
    if Active(s.store, c.user) {
      RunOn(s, [ReadSession(p, sid, now)] + [CheckActive(p)], Decide(p));
    } else {
      assert [ReadSession(p, sid, now)] + [CheckActive(p)] + [] == [ReadSession(p, sid, now)] + [CheckActive(p)];
    }
  }
}
