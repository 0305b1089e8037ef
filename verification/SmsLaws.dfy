// What an SMS code is good for, and where every factor comes from.
module SmsLaws {
  import opened Common
  import opened SmsFactor
  import opened SmsRuns

  // ---------------------------------------------------------------- one challenge, in plain numbers

  predicate SixFigures(code: string) { |code| == 6 && forall i :: 0 <= i < 6 ==> '0' <= code[i] <= '9' }

  /** An Iranian mobile number: 09 and nine more digits. */
  lemma {:induction false} ValidMobileIs(mobile: string)
    ensures ValidMobile(mobile) <==>
      |mobile| == 11 && mobile[..2] == "09" && forall i :: 0 <= i < 11 ==> '0' <= mobile[i] <= '9'
  {}

  /** A new challenge stands beside the others; unused ones of its user and purpose are used up and lose their code. */
  lemma {:induction false} AskedIs(s: Store, user: User, purpose: Purpose, binding: nat, mobile: string, ip: Inet,
                                   secret: string, start: int, id: Id)
    requires id !in s.challenges
    ensures var t := Asked(s, user, purpose, binding, mobile, ip, secret, start, id);
      && t.factors == s.factors && t.challenges.Keys == s.challenges.Keys + {id}
      && t.challenges[id] == Challenge(user, purpose, binding, mobile, ip, secret, start, start + 120_000_000, 0,
                                       false, false, true)
      && forall i :: i in s.challenges ==>
           if s.challenges[i].user == user && s.challenges[i].purpose == purpose && !s.challenges[i].used
           then t.challenges[i] == s.challenges[i].(used := true, holdsCode := false)
           else t.challenges[i] == s.challenges[i]
  {}

  /** A request is over its quota when three challenges of its number, address or user are younger than 900 seconds. */
  lemma {:induction false} ExhaustedIs(t: map<Id, Challenge>, user: User, mobile: string, ip: Inet, now: int)
    ensures Exhausted(t, user, mobile, ip, now) <==>
      || |set id | id in t && t[id].mobile == mobile && t[id].created > now - 900_000_000| >= 3
      || |set id | id in t && t[id].ip == ip && t[id].created > now - 900_000_000| >= 3
      || |set id | id in t && t[id].user == user && t[id].created > now - 900_000_000| >= 3
  {
    var a := now - 900_000_000;
    assert Since(t, ByMobile(mobile), a) == set id | id in t && t[id].mobile == mobile && t[id].created > a;
    assert Since(t, ByIp(ip), a) == set id | id in t && t[id].ip == ip && t[id].created > a;
    assert Since(t, ByUser(user), a) == set id | id in t && t[id].user == user && t[id].created > a;
  }

  /** The challenge an answer is measured against is its user's, alive, delivered, tried less than three times, the newest. */
  lemma {:induction false} PickedIs(t: map<Id, Challenge>, user: User, purpose: Purpose, binding: nat, now: int, id: Id)
    requires Picks(t, user, purpose, binding, now, Some(id))
    ensures id in t && Answerable(t[id], user, purpose, binding, now)
    ensures forall j :: j in t && Answerable(t[j], user, purpose, binding, now) ==> t[j].created <= t[id].created
  {}

  predicate Answerable(c: Challenge, user: User, purpose: Purpose, binding: nat, now: int)
  {
    && c.user == user && c.purpose == purpose && c.binding == binding
    && !c.used && c.sent && now < c.expires && c.attempts < 3
  }

  /** A challenge that was asked for and delivered. */
  function Sent(s: Store, id: Id): Store { s.(challenges := Delivered(s.challenges, id)) }

  /**
   * For two minutes after it was asked for, and no longer, a delivered code is what an answer is measured against,
   * whatever other challenges there are; and it no longer lies on the table.
   */
  lemma {:induction false} CodeLastsTwoMinutes(s: Store, user: User, purpose: Purpose, binding: nat, mobile: string, ip: Inet,
                                               secret: string, start: int, id: Id, now: int)
    requires id !in s.challenges && OneUnused(s.challenges)
    ensures var t := Sent(Asked(s, user, purpose, binding, mobile, ip, secret, start, id), id);
      && (Picks(t.challenges, user, purpose, binding, now, Some(id)) <==> now < start + 120_000_000)
      && !t.challenges[id].holdsCode
  {}

  /** The right code then enrols the number it was sent to; any other answer enrols nothing. */
  lemma {:induction false} RightCodeEnrols(s: Store, user: User, id: Id, code: string)
    requires id in s.challenges
    ensures var f := Answered(s, user, Enroll, Some(id), code).factors;
      if SixFigures(code) && code == s.challenges[id].secret then f == s.factors[user := s.challenges[id].mobile]
      else f == s.factors
    ensures Answered(s, user, Login, Some(id), code).factors == s.factors
  {}

  /** The worker takes codes off dead challenges, and marks what it has delivered. */
  lemma {:induction false} WorkerIs(t: map<Id, Challenge>, now: int, id: Id)
    ensures forall i :: i in t ==>
      Wiped(t, now)[i] == if now >= t[i].expires || t[i].used then t[i].(holdsCode := false) else t[i]
    ensures id in t ==> Delivered(t, id) == t[id := t[id].(sent := true, holdsCode := false)]
  {}

  /** A request is let through by its locks' holder exactly as alone: a valid number, the factor for a login, and room. */
  lemma {:induction false} LookIsRequest(s: Store, job: Job, net: Net, now: int)
    requires job.Ask?
    ensures Sees(s, job, net, now, None) <==>
      && |job.mobile| == 11 && job.mobile[..2] == "09" && (forall i :: 0 <= i < 11 ==> '0' <= job.mobile[i] <= '9')
      && (job.purpose.Login? ==> job.user in s.factors && s.factors[job.user] == job.mobile)
      && |set id | id in s.challenges && s.challenges[id].mobile == job.mobile && s.challenges[id].created > job.start - 900_000_000| < 3
      && |set id | id in s.challenges && s.challenges[id].ip == net.inet(job.ip) && s.challenges[id].created > job.start - 900_000_000| < 3
      && |set id | id in s.challenges && s.challenges[id].user == job.user && s.challenges[id].created > job.start - 900_000_000| < 3
  {
    ValidMobileIs(job.mobile);
    ExhaustedIs(s.challenges, job.user, job.mobile, net.inet(job.ip), job.start);
    hide Exhausted, ValidMobile;
  }

  /** What is locked, in order: the user's row, an enrolment's session, the address's text, the number. */
  lemma {:induction false} PlanIs(user: User, purpose: Purpose, session: nat, binding: nat, mobile: string, ip: string,
                                  secret: string, start: int, id: Id, code: string)
    ensures Plan(Ask(user, Enroll, session, binding, mobile, ip, secret, start, id))
         == [UserRow(user), SessionRow(session), IpLock(ip), MobileLock(mobile)]
    ensures Plan(Ask(user, Login, session, binding, mobile, ip, secret, start, id)) == [UserRow(user), IpLock(ip), MobileLock(mobile)]
    ensures Plan(Answer(user, Enroll, session, binding, code)) == [UserRow(user), SessionRow(session)]
    ensures Plan(Answer(user, Login, session, binding, code)) == [UserRow(user)]
    ensures Plan(TurnOff(user, session)) == [UserRow(user), SessionRow(session)]
  {}

  /** What a commit writes: the new challenge, the answer measured, or no factor and every challenge used up. */
  lemma {:induction false} CommitIs(s: Store, w: Work, net: Net)
    requires CanWrite(s, w)
    ensures var job, t := w.job, Apply(s, w, net);
      && (job.Ask? ==> t == Asked(s, job.user, job.purpose, job.binding, job.mobile, net.inet(job.ip), job.secret, job.start, job.id))
      && (job.Answer? ==> t == Answered(s, job.user, job.purpose, w.picked, job.code))
      && (job.TurnOff? ==>
            && t.factors == s.factors - {job.user} && t.challenges.Keys == s.challenges.Keys
            && forall id :: id in s.challenges ==>
                 t.challenges[id] == if s.challenges[id].user == job.user && !s.challenges[id].used
                                     then s.challenges[id].(used := true, holdsCode := false) else s.challenges[id])
  {
    hide Asked, Answered;
    forall id | id in s.challenges ensures s.challenges[id].purpose in {Enroll, Login} { EitherPurpose(s.challenges[id].purpose); }
  }

  // ---------------------------------------------------------------- what every run has committed

  /** The transactions that committed, in the order of their commits. */
  function Commits(s: System, run: seq<Event>, net: Net): seq<Work>
    requires Possible(s, run, net)
    decreases run
  {
    if run == [] then []
    else Now(s, run[0]) + Commits(After(s, run[0], net), run[1..], net)
  }

  function Now(s: System, e: Event): seq<Work>
  {
    if e.Commit? && e.t in s.running then [s.running[e.t]] else []
  }

  /** The challenge is the one this transaction asked for; what may change of it is not compared. */
  predicate AskedBy(w: Work, id: Id, c: Challenge)
  {
    w.job.Ask? && w.job.id == id && w.job.user == c.user && w.job.purpose == c.purpose && w.job.mobile == c.mobile
    && w.job.secret == c.secret && w.job.binding == c.binding
  }

  ghost predicate ComesFromAsk(done: seq<Work>, id: Id, c: Challenge)
  {
    exists k :: 0 <= k < |done| && AskedBy(done[k], id, c)
  }

  /** An enrolment answered with the code of a request of this user for this number. */
  predicate Earns(ask: Work, answer: Work, user: User, mobile: string)
  {
    && ask.job.Ask? && ask.job.purpose.Enroll? && ask.job.user == user && ask.job.mobile == mobile
    && answer.job.Answer? && answer.job.purpose.Enroll? && answer.job.user == user
    && answer.picked == Some(ask.job.id) && SixFigures(answer.job.code) && answer.job.code == ask.job.secret
    && answer.job.binding == ask.job.binding
  }

  ghost predicate Earned(done: seq<Work>, user: User, mobile: string)
  {
    exists j, k :: 0 <= j < k < |done| && Earns(done[j], done[k], user, mobile)
  }

  /** A looked-up answer is measured against a challenge of its own purpose and session. */
  predicate PickFits(s: Store, w: Work)
  {
    w.looked && w.job.Answer? && w.picked.Some? ==>
      && w.picked.value in s.challenges && s.challenges[w.picked.value].purpose == w.job.purpose
      && s.challenges[w.picked.value].user == w.job.user && s.challenges[w.picked.value].binding == w.job.binding
  }

  ghost predicate Accounted(s: System, done: seq<Work>)
  {
    && (forall id :: id in s.store.challenges ==> ComesFromAsk(done, id, s.store.challenges[id]))
    && (forall user :: user in s.store.factors ==> Earned(done, user, s.store.factors[user]))
    && (forall t :: t in s.running ==> PickFits(s.store, s.running[t]))
  }

  predicate SameAsk(c: Challenge, d: Challenge)
  {
    c.user == d.user && c.purpose == d.purpose && c.mobile == d.mobile && c.secret == d.secret && c.binding == d.binding
  }

  /** Rows never lose what they were asked for; a new one comes from the transaction that asks. */
  lemma {:induction false} RowsLast(s: System, e: Event, net: Net, id: Id)
    requires Enabled(s, e, net)
    ensures var t := After(s, e, net).store.challenges;
      && (id in s.store.challenges ==> id in t && SameAsk(s.store.challenges[id], t[id]))
      && (id in t && id !in s.store.challenges ==> |Now(s, e)| == 1 && AskedBy(Now(s, e)[0], id, t[id]))
  {
    hide Taken, Sees, Plan, Exhausted, Right, Apply;
    if e.Commit? {
      CommitLasts(s.store, s.running[e.t], net, id);
    }
  }

  lemma {:induction false} CommitLasts(s: Store, w: Work, net: Net, id: Id)
    requires CanWrite(s, w)
    ensures var t := Apply(s, w, net).challenges;
      && (id in s.challenges ==> id in t && SameAsk(s.challenges[id], t[id]))
      && (id in t && id !in s.challenges ==> AskedBy(w, id, t[id]))
  {
    match w.job
    case Ask(_, _, _, _, _, _, _, _, _) => hide Right;
    case Answer(user, purpose, _, _, code) =>
      hide Right, SpendAll;
      if w.picked.Some? {
        var c := s.challenges[w.picked.value];
        SpendLasts(s.challenges[w.picked.value := Tried(c, Right(c, code))], user, id);
      }
    case TurnOff(user, _) => hide SpendAll; SpendLasts(s.challenges, user, id);
  }

  lemma {:induction false} SpendLasts(t: map<Id, Challenge>, user: User, id: Id)
    ensures id in t <==> id in SpendAll(t, user, {Enroll, Login})
    ensures id in t ==> SameAsk(t[id], SpendAll(t, user, {Enroll, Login})[id])
  {}

  lemma {:induction false} FactorCame(s: System, e: Event, net: Net, user: User)
    requires Enabled(s, e, net) && user in After(s, e, net).store.factors
    ensures var f := After(s, e, net).store.factors[user];
      || (user in s.store.factors && s.store.factors[user] == f)
      || (&& e.Commit? && e.t in s.running && s.running[e.t].looked
          && var w := s.running[e.t];
          && w.job.Answer? && w.job.purpose.Enroll? && w.job.user == user && w.picked.Some?
          && w.picked.value in s.store.challenges
          && var c := s.store.challenges[w.picked.value];
          && SixFigures(w.job.code) && w.job.code == c.secret && c.mobile == f)
  {
    hide Taken, Sees, Plan, Exhausted, SpendAll;
  }

  lemma {:induction false} PicksStillFit(s: System, e: Event, net: Net, t: nat)
    requires Enabled(s, e, net) && t in After(s, e, net).running
    requires forall u :: u in s.running ==> PickFits(s.store, s.running[u])
    ensures PickFits(After(s, e, net).store, After(s, e, net).running[t])
  {
    hide Taken, Plan, Exhausted, Apply, CanWrite, ValidMobile;
    var w := After(s, e, net).running[t];
    if w.picked.Some? { RowsLast(s, e, net, w.picked.value); }
  }

  lemma {:induction false} AskedLasts(w: Work, id: Id, c: Challenge, d: Challenge)
    requires AskedBy(w, id, c) && SameAsk(c, d)
    ensures AskedBy(w, id, d)
  {}

  lemma {:induction false} RowAccounted(s: System, done: seq<Work>, e: Event, net: Net, id: Id)
    requires Enabled(s, e, net) && id in After(s, e, net).store.challenges
    requires id in s.store.challenges ==> ComesFromAsk(done, id, s.store.challenges[id])
    ensures ComesFromAsk(done + Now(s, e), id, After(s, e, net).store.challenges[id])
  {
    hide Enabled, After, AskedBy, SameAsk, Now;
    var all, c := done + Now(s, e), After(s, e, net).store.challenges[id];
    RowsLast(s, e, net, id);
    if id in s.store.challenges {
      var k :| 0 <= k < |done| && AskedBy(done[k], id, s.store.challenges[id]);
      AskedLasts(done[k], id, s.store.challenges[id], c);
      assert all[k] == done[k];
    } else {
      assert all[|done|] == Now(s, e)[0];
    }
  }

  lemma {:induction false} FactorAccounted(s: System, done: seq<Work>, e: Event, net: Net, user: User)
    requires Accounted(s, done) && Enabled(s, e, net) && user in After(s, e, net).store.factors
    ensures Earned(done + Now(s, e), user, After(s, e, net).store.factors[user])
  {
    hide Enabled, After, Earns;
    var all, f := done + Now(s, e), After(s, e, net).store.factors[user];
    FactorCame(s, e, net, user);
    if user in s.store.factors && s.store.factors[user] == f {
      var j, k :| 0 <= j < k < |done| && Earns(done[j], done[k], user, f);
      assert all[j] == done[j] && all[k] == done[k];
    } else {
      var w := s.running[e.t];
      var id := w.picked.value;
      assert PickFits(s.store, w) && ComesFromAsk(done, id, s.store.challenges[id]);
      var j :| 0 <= j < |done| && AskedBy(done[j], id, s.store.challenges[id]);
      assert all[j] == done[j] && all[|done|] == w;
      EarnsNow(all[j], w, id, s.store.challenges[id], user, f);
    }
  }

  lemma {:induction false} EarnsNow(ask: Work, w: Work, id: Id, c: Challenge, user: User, mobile: string)
    requires AskedBy(ask, id, c) && w.job.Answer? && w.job.purpose.Enroll? && w.job.user == user && w.picked == Some(id)
    requires c.purpose == w.job.purpose && c.user == user && c.binding == w.job.binding
    requires SixFigures(w.job.code) && w.job.code == c.secret && c.mobile == mobile
    ensures Earns(ask, w, user, mobile)
  {}

  lemma {:induction false} EventAccounted(s: System, done: seq<Work>, e: Event, net: Net)
    requires Accounted(s, done) && Enabled(s, e, net)
    ensures Accounted(After(s, e, net), done + Now(s, e))
  {
    hide Enabled, After, ComesFromAsk, Earned, PickFits;
    var t := After(s, e, net);
    forall id | id in t.store.challenges ensures ComesFromAsk(done + Now(s, e), id, t.store.challenges[id]) {
      RowAccounted(s, done, e, net, id);
    }
    forall user | user in t.store.factors ensures Earned(done + Now(s, e), user, t.store.factors[user]) {
      FactorAccounted(s, done, e, net, user);
    }
    forall u | u in t.running ensures PickFits(t.store, t.running[u]) { PicksStillFit(s, e, net, u); }
  }

  lemma {:induction false} RunAccounted(s: System, done: seq<Work>, run: seq<Event>, net: Net)
    requires Accounted(s, done) && Possible(s, run, net)
    ensures Accounted(Final(s, run, net), done + Commits(s, run, net))
    decreases run
  {
    hide Enabled, After, Accounted;
    if run == [] {
      assert done + [] == done;
    } else {
      var next := After(s, run[0], net);
      EventAccounted(s, done, run[0], net);
      RunAccounted(next, done + Now(s, run[0]), run[1..], net);
      assert done + Now(s, run[0]) + Commits(next, run[1..], net) == done + (Now(s, run[0]) + Commits(next, run[1..], net));
    }
  }

  /**
   * In every run from empty tables, whoever has a number as factor has answered, with the very code sent to that number,
   * a challenge that they asked for to enrol it, in the same session.
   */
  lemma {:induction false} FactorEarned(run: seq<Event>, net: Net, user: User)
    requires Possible(System(Store(map[], map[]), map[]), run, net)
    ensures var s := System(Store(map[], map[]), map[]); var f := Final(s, run, net).store.factors;
      user in f ==> Earned(Commits(s, run, net), user, f[user])
  {
    hide Possible, Final, Commits, Earned;
    var s := System(Store(map[], map[]), map[]);
    RunAccounted(s, [], run, net);
    assert [] + Commits(s, run, net) == Commits(s, run, net);
  }

  function OfUser(t: map<Id, Challenge>, user: User, a: int): set<Id>
  {
    set id | id in t && t[id].user == user && a < t[id].created <= a + 900_000_000
  }

  function OfNumber(t: map<Id, Challenge>, mobile: string, a: int): set<Id>
  {
    set id | id in t && t[id].mobile == mobile && a < t[id].created <= a + 900_000_000
  }

  /** In plain numbers: in every run no user and no number has four challenges within 900 seconds. */
  lemma {:induction false} NeverFour(run: seq<Event>, net: Net, user: User, mobile: string, a: int)
    requires Possible(System(Store(map[], map[]), map[]), run, net)
    ensures var t := Final(System(Store(map[], map[]), map[]), run, net).store.challenges;
      |OfUser(t, user, a)| <= 3 && |OfNumber(t, mobile, a)| <= 3
  {
    hide Possible, Final, WorksFine;
    var s := System(Store(map[], map[]), map[]);
    EmptyFine(net);
    RunKeeps(s, run, net);
    var t := Final(s, run, net).store.challenges;
    assert Guarded(net, ByUser(user)) && Guarded(net, ByMobile(mobile));
    assert |Window(t, ByUser(user), a)| <= 3 && |Window(t, ByMobile(mobile), a)| <= 3;
    assert Window(t, ByUser(user), a) == OfUser(t, user, a) && Window(t, ByMobile(mobile), a) == OfNumber(t, mobile, a);
  }
}
