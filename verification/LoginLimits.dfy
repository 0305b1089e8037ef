// A password beside a second factor: when it gets through.
module LoginLimits {
  import opened Common
  import opened Login
  import opened LoginRuns

  // ---------------------------------------------------------------- the states a run goes through

  /** The state after n events. */
  ghost function At(s: System, run: seq<Event>, n: nat): (f: System)
    requires Good(s) && Possible(s, run) && n <= |run|
    ensures Good(f)
    decreases n
  {
    if n == 0 then s
    else
      StepKeeps(s, run[0]);
      At(Step(s, run[0]), run[1..], n - 1)
  }

  lemma {:induction false} NextAt(s: System, run: seq<Event>, n: nat)
    requires Good(s) && Possible(s, run) && n < |run|
    ensures Enabled(At(s, run, n), run[n]) && At(s, run, n + 1) == Step(At(s, run, n), run[n])
    decreases n
  {
    hide Sound, Grounded, Enabled, Step;
    if n > 0 {
      StepAgain(s, run[0]);
      NextAt(Step(s, run[0]), run[1..], n - 1);
    }
  }

  lemma {:induction false} LastAt(s: System, run: seq<Event>)
    requires Good(s) && Possible(s, run)
    ensures At(s, run, |run|) == Final(s, run)
    decreases run
  {
    hide Sound, Grounded, Enabled, Step;
    if run != [] {
      StepAgain(s, run[0]);
      LastAt(Step(s, run[0]), run[1..]);
    }
  }

  // ---------------------------------------------------------------- where a state comes from, one step

  lemma {:induction false} ToldCame(s: System, e: Event, p: nat)
    requires Good(s) && Enabled(s, e) && p in Step(s, e).procs && Step(s, e).procs[p].Told?
    ensures p in s.procs
    ensures s.procs[p] == Step(s, e).procs[p] ||
            (e == AskNeeds(p) && s.procs[p].Knocking? && s.procs[p].user == Step(s, e).procs[p].user
             && Step(s, e).procs[p].needs == HasFactor(s.store, s.procs[p].user))
  {
    hide Sound, Grounded, HasFactor, Admits, OthersOf, TicketGood, MayEnroll, Prove;
  }

  lemma {:induction false} AnsweredCame(s: System, e: Event, p: nat)
    requires Good(s) && Enabled(s, e) && p in Step(s, e).procs && Step(s, e).procs[p].Answered?
    ensures p in s.procs
    ensures s.procs[p] == Step(s, e).procs[p] ||
            Refuses(s, e, p, Step(s, e).procs[p]) || Decides(s, e, p, Step(s, e).procs[p])
  {
    hide Sound, Grounded, HasFactor, Active, Admits, OthersOf, TicketGood, MayEnroll, Prove;
  }

  /** The request is answered at once, since its user is not active. */
  predicate Refuses(s: System, e: Event, p: nat, a: Proc)
    requires a.Answered?
  {
    && e == CheckActive(p) && p in s.procs && s.procs[p].Resolving? && a.sid == s.procs[p].sid && a.how == s.procs[p].how
    && !Active(s.store, s.procs[p].user) && !a.admitted
  }

  /** The request of an active user is decided by the factor. */
  predicate Decides(s: System, e: Event, p: nat, a: Proc)
    requires a.Answered?
  {
    && e == Decide(p) && p in s.procs && s.procs[p].FoundActive? && a.sid == s.procs[p].sid && a.how == s.procs[p].how
    && a.admitted == Admits(s.store, s.procs[p].user, s.procs[p].how)
  }

  lemma {:induction false} FoundActiveCame(s: System, e: Event, p: nat)
    requires Good(s) && Enabled(s, e) && p in Step(s, e).procs && Step(s, e).procs[p].FoundActive?
    ensures p in s.procs
    ensures s.procs[p] == Step(s, e).procs[p] ||
            (e == CheckActive(p) && s.procs[p].Resolving? && Active(s.store, s.procs[p].user)
             && Step(s, e).procs[p] == FoundActive(s.procs[p].sid, s.procs[p].user, s.procs[p].how))
  {
    hide Sound, Grounded, HasFactor, Active, Admits, OthersOf, TicketGood, MayEnroll, Prove;
  }

  /** An enrolment that gives the user a first factor. */
  predicate FirstEnroll(s: System, e: Event, user: User)
  {
    e.CommitEnroll? && e.p in s.procs && s.procs[e.p].Enrolling? && s.procs[e.p].user == user && !HasFactor(s.store, user)
  }

  lemma {:induction false} FactorStep(s: System, e: Event, user: User)
    requires Good(s) && Enabled(s, e) && !HasFactor(s.store, user)
    ensures HasFactor(Step(s, e).store, user) <==> FirstEnroll(s, e, user)
  {
    hide Sound, Admits, OthersOf, TicketGood, MayEnroll, Grounded;
    if e.CommitEnroll? {
      GroundedAt(s, e.p);
      var proc := s.procs[e.p];
      assert proc.f in Step(s, e).store.accounts[proc.user].factors;
    }
  }

  lemma {:induction false} FactorStays(s: System, e: Event, user: User)
    requires Good(s) && Enabled(s, e) && HasFactor(s.store, user) && !(e.RemoveFactor? && e.user == user)
    ensures HasFactor(Step(s, e).store, user)
  {
    hide Sound, Admits, OthersOf, TicketGood, MayEnroll, Grounded;
    if e.CommitEnroll? {
      GroundedAt(s, e.p);
      var proc := s.procs[e.p];
      assert proc.f in Step(s, e).store.accounts[proc.user].factors;
    }
  }

  // ---------------------------------------------------------------- where a state comes from, over a run

  lemma {:induction false} ToldSince(s: System, run: seq<Event>, n: nat, p: nat) returns (k: nat)
    requires Good(s) && Possible(s, run) && n <= |run| && p !in s.procs
    requires p in At(s, run, n).procs && At(s, run, n).procs[p].Told?
    ensures k < n && run[k] == AskNeeds(p) && p in At(s, run, k).procs && At(s, run, k).procs[p].Knocking?
    ensures At(s, run, n).procs[p].user == At(s, run, k).procs[p].user
    ensures At(s, run, n).procs[p].needs == HasFactor(At(s, run, k).store, At(s, run, k).procs[p].user)
    decreases n
  {
    hide Sound, Grounded, Enabled, Step, HasFactor, Possible;
    if n == 0 {
      StartAt(s, run);
      assert false;
    } else {
      NextAt(s, run, n - 1);
      ToldCame(At(s, run, n - 1), run[n - 1], p);
      if At(s, run, n - 1).procs[p] == At(s, run, n).procs[p] {
        k := ToldSince(s, run, n - 1, p);
      } else {
        k := n - 1;
      }
    }
  }

  lemma {:induction false} StartAt(s: System, run: seq<Event>)
    requires Good(s) && Possible(s, run)
    ensures At(s, run, 0) == s
  {}

  lemma {:induction false} AnsweredSince(s: System, run: seq<Event>, n: nat, p: nat) returns (k: nat)
    requires Good(s) && Possible(s, run) && n <= |run| && p !in s.procs
    requires p in At(s, run, n).procs && At(s, run, n).procs[p].Answered?
    ensures k < n
    ensures var a := At(s, run, n).procs[p];
      Refuses(At(s, run, k), run[k], p, a) || Decides(At(s, run, k), run[k], p, a)
    decreases n
  {
    hide Sound, Grounded, Enabled, Step, HasFactor, Admits, Possible, Refuses, Decides;
    if n == 0 {
      StartAt(s, run);
      assert false;
    } else {
      NextAt(s, run, n - 1);
      AnsweredCame(At(s, run, n - 1), run[n - 1], p);
      if At(s, run, n - 1).procs[p] == At(s, run, n).procs[p] {
        k := AnsweredSince(s, run, n - 1, p);
      } else {
        k := n - 1;
      }
    }
  }

  lemma {:induction false} FoundActiveSince(s: System, run: seq<Event>, n: nat, p: nat) returns (j: nat)
    requires Good(s) && Possible(s, run) && n <= |run| && p !in s.procs
    requires p in At(s, run, n).procs && At(s, run, n).procs[p].FoundActive?
    ensures j < n && run[j] == CheckActive(p) && p in At(s, run, j).procs && At(s, run, j).procs[p].Resolving?
    ensures var r := At(s, run, j).procs[p];
      At(s, run, n).procs[p] == FoundActive(r.sid, r.user, r.how) && Active(At(s, run, j).store, r.user)
    decreases n
  {
    hide Sound, Grounded, Enabled, Step, HasFactor, Active, Possible;
    if n == 0 {
      StartAt(s, run);
      assert false;
    } else {
      NextAt(s, run, n - 1);
      FoundActiveCame(At(s, run, n - 1), run[n - 1], p);
      if At(s, run, n - 1).procs[p] == At(s, run, n).procs[p] {
        j := FoundActiveSince(s, run, n - 1, p);
      } else {
        j := n - 1;
      }
    }
  }

  ghost predicate FirstEnrolled(s: System, run: seq<Event>, k: nat, n: nat, user: User)
    requires Good(s) && Possible(s, run) && k <= n <= |run|
  {
    exists m :: k <= m < n && FirstEnroll(At(s, run, m), run[m], user)
  }

  predicate FactorsStay(run: seq<Event>, k: nat, n: nat, user: User)
    requires k <= n <= |run|
  {
    forall m :: k <= m < n ==> !(run[m].RemoveFactor? && run[m].user == user)
  }

  /** Where no factor is removed, a factor turns up exactly through a first enrolment. */
  lemma {:induction false} FactorCameIff(s: System, run: seq<Event>, k: nat, n: nat, user: User)
    requires Good(s) && Possible(s, run) && k <= n <= |run|
    ensures !HasFactor(At(s, run, k).store, user) && HasFactor(At(s, run, n).store, user) ==>
      FirstEnrolled(s, run, k, n, user)
    ensures FactorsStay(run, k, n, user) ==>
      (!HasFactor(At(s, run, k).store, user) && HasFactor(At(s, run, n).store, user)
       <==> FirstEnrolled(s, run, k, n, user))
    ensures FactorsStay(run, k, n, user) && HasFactor(At(s, run, k).store, user) ==> HasFactor(At(s, run, n).store, user)
    decreases n
  {
    hide Sound, Grounded, Enabled, Step, HasFactor, Possible, At, FirstEnroll;
    if k < n {
      FactorCameIff(s, run, k, n - 1, user);
      NextAt(s, run, n - 1);
      var before := At(s, run, n - 1);
      if HasFactor(before.store, user) {
        if !(run[n - 1].RemoveFactor? && run[n - 1].user == user) { FactorStays(before, run[n - 1], user); }
        NotFirst(before, run[n - 1], user);
      } else {
        FactorStep(before, run[n - 1], user);
      }
      assert FirstEnrolled(s, run, k, n, user) <==>
        FirstEnrolled(s, run, k, n - 1, user) || FirstEnroll(before, run[n - 1], user);
    }
  }

  lemma {:induction false} NotFirst(s: System, e: Event, user: User)
    requires HasFactor(s.store, user)
    ensures !FirstEnroll(s, e, user)
  {}

  // ---------------------------------------------------------------- exactly when a password gets through

  /**
   * A request on a password session is let in exactly when its user was active at the moment that was read and had no
   * factor at the moment that was read, j and k; it stands beside a factor only if a first enrolment committed since,
   * and if no factor is removed, exactly if.
   */
  lemma {:induction false} AdmittedBesideFactorIff(s: System, run: seq<Event>, n: nat, p: nat) returns (j: nat, k: nat)
    requires Good(s) && Possible(s, run) && n <= |run| && p !in s.procs && p in At(s, run, n).procs
    requires At(s, run, n).procs[p].Answered? && At(s, run, n).procs[p].how.Password?
    ensures j <= k < n && run[j] == CheckActive(p) && p in At(s, run, j).procs && At(s, run, j).procs[p].Resolving?
    ensures At(s, run, j).procs[p].sid == At(s, run, n).procs[p].sid
    ensures var user := At(s, run, j).procs[p].user;
      var active := Active(At(s, run, j).store, user);
      var admitted, after := At(s, run, n).procs[p].admitted, At(s, run, n).store;
      && (active ==> run[k] == Decide(p))
      && (admitted <==> active && !HasFactor(At(s, run, k).store, user))
      && (admitted && HasFactor(after, user) ==> FirstEnrolled(s, run, k, n, user))
      && (FactorsStay(run, k, n, user) ==>
           (admitted && HasFactor(after, user) <==> active && FirstEnrolled(s, run, k, n, user)))
  {
    hide Sound, Grounded, Enabled, Step, HasFactor, Active, Possible, At, FirstEnrolled, FactorsStay;
    k := AnsweredSince(s, run, n, p);
    var a := At(s, run, n).procs[p];
    if Decides(At(s, run, k), run[k], p, a) {
      j := FoundActiveSince(s, run, k, p);
    } else {
      j := k;
    }
    FactorCameIff(s, run, k, n, At(s, run, j).procs[p].user);
  }

  /**
   * A password session is opened only if its user had no factor when the policy was read; it is opened beside a factor
   * only if a first enrolment committed in between, and if no factor is removed, exactly if.
   */
  lemma {:induction false} OpenedBesideFactorIff(s: System, run: seq<Event>, n: nat, p: nat) returns (k: nat)
    requires Good(s) && Possible(s, run) && n < |run| && p !in s.procs && run[n].OpenPassword? && run[n].p == p
    ensures k < n && run[k] == AskNeeds(p) && p in At(s, run, k).procs && At(s, run, k).procs[p].Knocking?
    ensures var user, before, after := At(s, run, k).procs[p].user, At(s, run, k).store, At(s, run, n + 1).store;
      && run[n].sid in after.sessions
      && after.sessions[run[n].sid] == Session(user, Password, None, false, false, run[n].expires)
      && !HasFactor(before, user)
      && (HasFactor(after, user) ==> FirstEnrolled(s, run, k, n, user))
      && (FactorsStay(run, k, n, user) ==> (HasFactor(after, user) <==> FirstEnrolled(s, run, k, n, user)))
  {
    hide Sound, Grounded, HasFactor, Possible, At, FirstEnrolled, FactorsStay;
    NextAt(s, run, n);
    OpensNow(At(s, run, n), run[n]);
    hide Enabled, Step;
    k := ToldSince(s, run, n, p);
    FactorCameIff(s, run, k, n, At(s, run, k).procs[p].user);
  }

  lemma {:induction false} OpensNow(s: System, e: Event)
    requires Good(s) && e.OpenPassword? && Enabled(s, e)
    ensures e.p in s.procs && s.procs[e.p].Told? && !s.procs[e.p].needs
    ensures var t := Step(s, e).store; var user := s.procs[e.p].user;
      && e.sid in t.sessions && t.sessions[e.sid] == Session(user, Password, None, false, false, e.expires)
      && forall u :: HasFactor(t, u) <==> HasFactor(s.store, u)
  {
    hide Sound, Grounded;
  }

  // ---------------------------------------------------------------- two runs in which it does

  function Empty(): System { System(Store(map[], map[], map[], map[]), map[]) }

  lemma {:induction false} RunOn(s: System, run: seq<Event>, e: Event)
    requires Good(s) && Possible(s, run) && Enabled(Final(s, run), e)
    ensures Possible(s, run + [e]) && Final(s, run + [e]) == Step(Final(s, run), e)
    decreases run
  {
    hide Sound, Grounded, Enabled, Step;
    if run == [] {
      StepAgain(s, e);
      assert run + [e] == [e] && [e][1..] == [];
      assert Possible(Step(s, e), []) && Final(Step(s, e), []) == Step(s, e);
    } else {
      StepAgain(s, run[0]);
      RunOn(Step(s, run[0]), run[1..], e);
      assert (run + [e])[0] == run[0] && (run + [e])[1..] == run[1..] + [e];
    }
  }

  /** A first user signs in with a password. */
  function SignIn(): seq<Event> { [] + [SetAccount(1, true)] + [Knock(0, 1)] + [AskNeeds(0)] + [OpenPassword(0, 7, 100)] }

  function SignedIn(): Store
  {
    Store(map[1 := Account(true, {})], map[], map[], map[7 := Session(1, Password, None, false, false, 100)])
  }

  lemma {:induction false} SignInRun()
    ensures Good(Empty()) && Possible(Empty(), SignIn()) && Final(Empty(), SignIn()) == System(SignedIn(), map[])
  {
    EmptyGood();
    hide Sound, Grounded, Possible, Final;
    var accounts := map[1 := Account(true, {})];
    var store := Store(accounts, map[], map[], map[]);
    StartRun();
    RunOn(Empty(), [], SetAccount(1, true));
    assert Final(Empty(), [] + [SetAccount(1, true)]) == System(store, map[]);
    RunOn(Empty(), [] + [SetAccount(1, true)], Knock(0, 1));
    assert Final(Empty(), [] + [SetAccount(1, true)] + [Knock(0, 1)]) == System(store, map[0 := Knocking(1)]);
    RunOn(Empty(), [] + [SetAccount(1, true)] + [Knock(0, 1)], AskNeeds(0));
    var told := System(store, map[0 := Told(1, false)]);
    assert Final(Empty(), [] + [SetAccount(1, true)] + [Knock(0, 1)] + [AskNeeds(0)]) == told;
    RunOn(Empty(), [] + [SetAccount(1, true)] + [Knock(0, 1)] + [AskNeeds(0)], OpenPassword(0, 7, 100));
    assert told.procs - {0} == map[];
  }

  lemma {:induction false} StartRun()
    requires Good(Empty())
    ensures Possible(Empty(), []) && Final(Empty(), []) == Empty()
  {}

  /** The session is read; an enrolment starts; the request is decided; the enrolment commits. */
  function EnrollDuringRequest(): seq<Event>
  {
    SignIn() + [ReadSession(1, 7, 0)] + [LockUser(2, 1, 7, TotpSecret, 0)] + [RevokeOthers(2)] + [CheckActive(1)] + [Decide(1)]
    + [CommitEnroll(2)]
  }

  /** An enrolment that commits between a request's check and its answer comes too late for that request. */
  lemma {:induction false} EnrolledAfterTheCheck()
    ensures Good(Empty()) && Possible(Empty(), EnrollDuringRequest())
    ensures var f := Final(Empty(), EnrollDuringRequest());
      HasFactor(f.store, 1) && 1 in f.procs && f.procs[1] == Answered(7, Password, true)
  {
    SignInRun();
    hide Sound, Grounded, Possible, Final, SignIn;
    var run, store := SignIn(), SignedIn();
    RunOn(Empty(), run, ReadSession(1, 7, 0));
    run := run + [ReadSession(1, 7, 0)];
    RunOn(Empty(), run, LockUser(2, 1, 7, TotpSecret, 0));
    run := run + [LockUser(2, 1, 7, TotpSecret, 0)];
    var enrolling := Enrolling(1, 7, TotpSecret, Password, None);
    assert Final(Empty(), run) == System(store, map[1 := Resolving(7, 1, Password), 2 := enrolling]);
    RunOn(Empty(), run, RevokeOthers(2));
    run := run + [RevokeOthers(2)];
    RunOn(Empty(), run, CheckActive(1));
    run := run + [CheckActive(1)];
    RunOn(Empty(), run, Decide(1));
    run := run + [Decide(1)];
    var s := Final(Empty(), run);
    assert s.store == store && s.procs[1] == Answered(7, Password, true);
    RunOn(Empty(), run, CommitEnroll(2));
    assert TotpSecret in Step(s, CommitEnroll(2)).store.accounts[1].factors;
  }

  /** A second sign-in is told that no factor is needed; an enrolment on the first session commits; then it opens. */
  function EnrollDuringSignIn(): seq<Event>
  {
    SignIn() + [Knock(1, 1)] + [AskNeeds(1)] + [LockUser(2, 1, 7, TotpSecret, 0)] + [RevokeOthers(2)] + [CommitEnroll(2)]
    + [OpenPassword(1, 8, 100)]
  }

  /** A sign-in told that no factor is needed opens its session even if one was enrolled in between. */
  lemma {:induction false} SignedInPastTheCheck()
    ensures Good(Empty()) && Possible(Empty(), EnrollDuringSignIn())
    ensures var f := Final(Empty(), EnrollDuringSignIn()).store;
      HasFactor(f, 1) && 8 in f.sessions && f.sessions[8] == Session(1, Password, None, false, false, 100)
  {
    SignInRun();
    hide Sound, Grounded, Possible, Final, SignIn;
    var run, store := SignIn(), SignedIn();
    RunOn(Empty(), run, Knock(1, 1));
    run := run + [Knock(1, 1)];
    RunOn(Empty(), run, AskNeeds(1));
    run := run + [AskNeeds(1)];
    RunOn(Empty(), run, LockUser(2, 1, 7, TotpSecret, 0));
    run := run + [LockUser(2, 1, 7, TotpSecret, 0)];
    var enrolling := Enrolling(1, 7, TotpSecret, Password, None);
    assert Final(Empty(), run) == System(store, map[1 := Told(1, false), 2 := enrolling]);
    RunOn(Empty(), run, RevokeOthers(2));
    run := run + [RevokeOthers(2)];
    var s := Final(Empty(), run);
    RunOn(Empty(), run, CommitEnroll(2));
    run := run + [CommitEnroll(2)];
    var t := Final(Empty(), run);
    assert TotpSecret in t.store.accounts[1].factors;
    assert t.procs[1] == Told(1, false) && 8 !in t.store.sessions;
    RunOn(Empty(), run, OpenPassword(1, 8, 100));
  }
}
