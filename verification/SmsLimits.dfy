// Where the promise about SMS quotas ends.
module SmsLimits {
  import opened Common
  import opened SmsFactor
  import opened SmsRuns

  function Empty(): System { System(Store(map[], map[]), map[]) }

  // ---------------------------------------------------------------- one request after another

  lemma {:induction false} RunJoin(s: System, a: seq<Event>, b: seq<Event>, net: Net)
    requires Possible(s, a, net) && Possible(Final(s, a, net), b, net)
    ensures Possible(s, a + b, net) && Final(s, a + b, net) == Final(Final(s, a, net), b, net)
    decreases a
  {
    hide Enabled, After;
    if a == [] {
      assert a + b == b;
    } else {
      RunJoin(After(s, a[0], net), a[1..], b, net);
      assert (a + b)[0] == a[0] && (a + b)[1..] == a[1..] + b;
    }
  }

  lemma {:induction false} OneEvent(s: System, e: Event, net: Net)
    requires Enabled(s, e, net)
    ensures Possible(s, [e], net) && Final(s, [e], net) == After(s, e, net)
  {
    hide Enabled, After;
    assert [e][1..] == [];
    assert Possible(After(s, e, net), [], net) && Final(After(s, e, net), [], net) == After(s, e, net);
  }

  /** The run goes on with one more event. */
  lemma {:induction false} RunOn(s: System, run: seq<Event>, e: Event, net: Net)
    requires Possible(s, run, net) && Enabled(Final(s, run, net), e, net)
    ensures Possible(s, run + [e], net) && Final(s, run + [e], net) == After(Final(s, run, net), e, net)
  {
    hide Enabled, After, Final, Possible;
    OneEvent(Final(s, run, net), e, net);
    RunJoin(s, run, [e], net);
  }

  function Acquires(t: nat, n: nat): seq<Event>
  {
    if n == 0 then [] else Acquires(t, n - 1) + [Acquire(t)]
  }

  /** Everything a request does before it commits. */
  function Prepare(t: nat, job: Job): seq<Event>
  {
    [Begin(t, job)] + Acquires(t, |Plan(job)|) + [Look(t, 0, None)]
  }

  function With(s: System, t: nat, w: Work): System { s.(running := s.running[t := w]) }

  ghost predicate LocksFree(s: System, job: Job)
  {
    forall k :: 0 <= k < |Plan(job)| ==> !Taken(s, Plan(job)[k])
  }

  lemma {:induction false} PlanDistinct(job: Job, j: nat, k: nat)
    requires j < k < |Plan(job)|
    ensures Plan(job)[j] != Plan(job)[k]
  {}

  lemma {:induction false} NextLockFree(s: System, t: nat, job: Job, k: nat)
    requires t !in s.running && LocksFree(s, job) && k < |Plan(job)|
    ensures !Taken(With(s, t, Work(job, k, false, None)), Plan(job)[k])
  {
    hide Plan;
    var r, w := Plan(job)[k], Work(job, k, false, None);
    forall j | 0 <= j < k ensures Plan(job)[j] != r { PlanDistinct(job, j, k); }
    assert !HeldBy(w, r);
    forall u | u in With(s, t, w).running ensures !HeldBy(With(s, t, w).running[u], r) {
      if u != t { assert !Taken(s, r); }
    }
  }

  lemma {:induction false} Acquiring(s: System, t: nat, job: Job, n: nat, net: Net)
    requires t !in s.running && LocksFree(s, job) && n <= |Plan(job)|
    ensures Possible(With(s, t, Work(job, 0, false, None)), Acquires(t, n), net)
    ensures Final(With(s, t, Work(job, 0, false, None)), Acquires(t, n), net) == With(s, t, Work(job, n, false, None))
    decreases n
  {
    hide Plan, Taken, LocksFree;
    var first := With(s, t, Work(job, 0, false, None));
    if n > 0 {
      Acquiring(s, t, job, n - 1, net);
      NextLockFree(s, t, job, n - 1);
      var before := With(s, t, Work(job, n - 1, false, None));
      assert After(before, Acquire(t), net) == With(s, t, Work(job, n, false, None));
      RunOn(first, Acquires(t, n - 1), Acquire(t), net);
    }
  }

  /** A request whose locks are free and whose check passes gets as far as its commit. */
  lemma {:induction false} Prepared(s: System, t: nat, job: Job, net: Net)
    requires t !in s.running && LocksFree(s, job) && job.Ask? && job.ip in net.texts && Sees(s.store, job, net, 0, None)
    ensures Possible(s, Prepare(t, job), net)
    ensures Final(s, Prepare(t, job), net) == With(s, t, Work(job, |Plan(job)|, true, None))
  {
    hide Plan, Taken, LocksFree, Sees, Possible, Final, Acquires;
    var n := |Plan(job)|;
    OneEvent(s, Begin(t, job), net);
    Acquiring(s, t, job, n, net);
    RunJoin(s, [Begin(t, job)], Acquires(t, n), net);
    var all := With(s, t, Work(job, n, false, None));
    assert Enabled(all, Look(t, 0, None), net);
    assert After(all, Look(t, 0, None), net) == With(s, t, Work(job, n, true, None));
    RunOn(s, [Begin(t, job)] + Acquires(t, n), Look(t, 0, None), net);
  }

  function Ready(job: Job): Work { Work(job, |Plan(job)|, true, None) }

  /** A request with nobody else about. */
  function Solo(t: nat, job: Job): seq<Event> { Prepare(t, job) + [Commit(t)] }

  lemma {:induction false} NobodyHolds(s: System, job: Job)
    requires s.running == map[]
    ensures LocksFree(s, job)
  {
    hide Plan, HeldBy;
  }

  lemma {:induction false} SoloRun(store: Store, t: nat, job: Job, net: Net)
    requires job.Ask? && job.ip in net.texts && Sees(store, job, net, 0, None) && job.id !in store.challenges
    ensures CanWrite(store, Ready(job))
    ensures Possible(System(store, map[]), Solo(t, job), net)
    ensures Final(System(store, map[]), Solo(t, job), net) == System(Apply(store, Ready(job), net), map[])
  {
    hide Plan, Taken, LocksFree, Sees, Possible, Final, Prepare, Apply;
    var s := System(store, map[]);
    NobodyHolds(s, job);
    Prepared(s, t, job, net);
    var ready := With(s, t, Ready(job));
    assert ready.running - {t} == map[];
    RunOn(s, Prepare(t, job), Commit(t), net);
  }

  /** A run so far, and a request by itself after it. */
  lemma {:induction false} SoloNext(run: seq<Event>, t: nat, job: Job, net: Net)
    requires Possible(Empty(), run, net) && Final(Empty(), run, net).running == map[]
    requires job.Ask? && job.ip in net.texts && Sees(Final(Empty(), run, net).store, job, net, 0, None)
    requires job.id !in Final(Empty(), run, net).store.challenges
    ensures CanWrite(Final(Empty(), run, net).store, Ready(job)) && Possible(Empty(), run + Solo(t, job), net)
    ensures Final(Empty(), run + Solo(t, job), net)
         == System(Apply(Final(Empty(), run, net).store, Ready(job), net), map[])
  {
    hide Plan, Sees, Possible, Final, Solo, Apply;
    SoloRun(Final(Empty(), run, net).store, t, job, net);
    RunJoin(Empty(), run, Solo(t, job), net);
  }

  // ---------------------------------------------------------------- what one more challenge does to the counts

  function NewOf(job: Job, net: Net): Challenge
    requires job.Ask?
  {
    NewChallenge(job.user, job.purpose, job.binding, job.mobile, net.inet(job.ip), job.secret, job.start)
  }

  lemma {:induction false} AskAddsOne(s: Store, w: Work, net: Net, q: Quota, a: int)
    requires w.job.Ask? && CanWrite(s, w) && q == ByIp(net.inet(w.job.ip)) && a < w.job.start <= a + WINDOW
    ensures |Window(Apply(s, w, net).challenges, q, a)| == |Window(s.challenges, q, a)| + 1
    ensures Apply(s, w, net).challenges.Keys == s.challenges.Keys + {w.job.id}
  {
    hide Window, SpendAll;
    var t := SpendAll(s.challenges, w.job.user, {w.job.purpose});
    SpendKeepsStamps(s.challenges, w.job.user, {w.job.purpose});
    SameWindow(s.challenges, t, q, a);
    AddToWindow(t, w.job.id, NewOf(w.job, net), q, a);
  }

  lemma {:induction false} FewChallenges(t: map<Id, Challenge>, user: User, mobile: string, ip: Inet, now: int)
    requires |t.Keys| < QUOTA
    ensures !Exhausted(t, user, mobile, ip, now)
  {
    SubsetSmaller(Since(t, ByMobile(mobile), now - WINDOW), t.Keys);
    SubsetSmaller(Since(t, ByIp(ip), now - WINDOW), t.Keys);
    SubsetSmaller(Since(t, ByUser(user), now - WINDOW), t.Keys);
  }

  // ---------------------------------------------------------------- two texts for one address

  /** Two people, each with a number of their own. */
  function Person(k: nat): string { if k == 1 then "09120000001" else "09120000002" }

  lemma {:induction false} PersonsApart()
    ensures ValidMobile(Person(1)) && ValidMobile(Person(2)) && Person(1) != Person(2)
  {
    assert Person(1)[10] != Person(2)[10];
  }

  function Enrollment(k: nat, ip: string, id: Id): Job { Ask(k, Enroll, k, k, Person(k), ip, "", 0, id) }

  /** Two requests one after the other, then two more at once: both look before either commits. */
  function TwoAtOnce(a: string, b: string): seq<Event>
  {
    Solo(1, Enrollment(1, a, 1)) + Solo(2, Enrollment(2, a, 2))
    + Prepare(3, Enrollment(1, a, 3)) + Prepare(4, Enrollment(2, b, 4)) + [Commit(3)] + [Commit(4)]
  }

  ghost predicate CountedAll(s: Store, ip: Inet, ids: set<Id>)
  {
    s.challenges.Keys == ids && |Window(s.challenges, ByIp(ip), -WINDOW)| == |ids|
  }

  lemma {:induction false} AskedOnce(s: Store, job: Job, net: Net, ids: set<Id>)
    requires job.Ask? && job.start == 0 && job.id !in ids && CountedAll(s, net.inet(job.ip), ids)
    ensures CanWrite(s, Ready(job)) && CountedAll(Apply(s, Ready(job), net), net.inet(job.ip), ids + {job.id})
  {
    hide Plan, Window, Apply;
    AskAddsOne(s, Ready(job), net, ByIp(net.inet(job.ip)), -WINDOW);
    OneMore(ids, job.id);
  }

  lemma {:induction false} MaySee(s: Store, k: nat, ip: string, id: Id, net: Net)
    requires 1 <= k <= 2 && |s.challenges.Keys| < QUOTA
    ensures Sees(s, Enrollment(k, ip, id), net, 0, None)
  {
    hide Exhausted, ValidMobile;
    PersonsApart();
    FewChallenges(s.challenges, k, Person(k), net.inet(ip), 0);
  }

  lemma {:induction false} FirstTwo(a: string, net: Net)
    requires a in net.texts
    ensures Possible(Empty(), Solo(1, Enrollment(1, a, 1)) + Solo(2, Enrollment(2, a, 2)), net)
    ensures var f := Final(Empty(), Solo(1, Enrollment(1, a, 1)) + Solo(2, Enrollment(2, a, 2)), net);
      f.running == map[] && CountedAll(f.store, net.inet(a), {1, 2})
  {
    hide Possible, Final, Solo, Apply, Sees, Window, Ready;
    var s0 := Empty().store;
    var j1, j2 := Enrollment(1, a, 1), Enrollment(2, a, 2);
    NoWindow(ByIp(net.inet(a)));
    MaySee(s0, 1, a, 1, net);
    SoloRun(s0, 1, j1, net);
    AskedOnce(s0, j1, net, {});
    var s1 := Apply(s0, Ready(j1), net);
    assert {} + {1} == {1} && {1} + {2} == {1, 2};
    MaySee(s1, 2, a, 2, net);
    SoloNext(Solo(1, j1), 2, j2, net);
    AskedOnce(s1, j2, net, {1});
  }

  lemma {:induction false} NoWindow(q: Quota)
    ensures Window(map[], q, -WINDOW) == {}
  {}

  /** Locks of two people with two texts for their address do not meet. */
  lemma {:induction false} LocksApart(store: Store, a: string, b: string)
    requires a != b
    ensures LocksFree(With(System(store, map[]), 3, Ready(Enrollment(1, a, 3))), Enrollment(2, b, 4))
  {
    var v, j := Ready(Enrollment(1, a, 3)), Enrollment(2, b, 4);
    var s := With(System(store, map[]), 3, v);
    PersonsApart();
    hide Person;
    forall k | 0 <= k < |Plan(j)| ensures !Taken(s, Plan(j)[k]) {
      assert !HeldBy(v, Plan(j)[k]);
    }
  }

  lemma {:induction false} BothReady(run: seq<Event>, a: string, b: string, net: Net)
    requires a in net.texts && b in net.texts && a != b && Possible(Empty(), run, net)
    requires Final(Empty(), run, net).running == map[] && |Final(Empty(), run, net).store.challenges.Keys| < QUOTA
    ensures var more := run + Prepare(3, Enrollment(1, a, 3)) + Prepare(4, Enrollment(2, b, 4));
      && Possible(Empty(), more, net)
      && Final(Empty(), more, net) == System(Final(Empty(), run, net).store,
           map[3 := Ready(Enrollment(1, a, 3)), 4 := Ready(Enrollment(2, b, 4))])
  {
    hide Possible, Final, Prepare, Sees, Plan, LocksFree;
    var s := Final(Empty(), run, net);
    var j3, j4 := Enrollment(1, a, 3), Enrollment(2, b, 4);
    MaySee(s.store, 1, a, 3, net);
    NobodyHolds(s, j3);
    Prepared(s, 3, j3, net);
    RunJoin(Empty(), run, Prepare(3, j3), net);
    var s3 := With(s, 3, Ready(j3));
    MaySee(s.store, 2, b, 4, net);
    LocksApart(s.store, a, b);
    Prepared(s3, 4, j4, net);
    RunJoin(Empty(), run + Prepare(3, j3), Prepare(4, j4), net);
  }

  lemma {:induction false} BothCommit(run: seq<Event>, s: Store, v: Work, w: Work, net: Net)
    requires Possible(Empty(), run, net) && Final(Empty(), run, net) == System(s, map[3 := v, 4 := w])
    requires v.looked && w.looked && CanWrite(s, v) && CanWrite(Apply(s, v, net), w)
    ensures Possible(Empty(), run + [Commit(3)] + [Commit(4)], net)
    ensures Final(Empty(), run + [Commit(3)] + [Commit(4)], net).store == Apply(Apply(s, v, net), w, net)
  {
    hide Possible, Final, Apply, CanWrite;
    var all := System(s, map[3 := v, 4 := w]);
    RunOn(Empty(), run, Commit(3), net);
    assert all.running - {3} == map[4 := w];
    RunOn(Empty(), run + [Commit(3)], Commit(4), net);
  }

  /** With two texts for one address, the address is not locked: a run that gives it four challenges at one moment. */
  lemma {:induction false} TwoTextsBreakTheQuota(net: Net, a: string, b: string)
    requires a in net.texts && b in net.texts && a != b && net.inet(a) == net.inet(b)
    ensures Possible(Empty(), TwoAtOnce(a, b), net)
    ensures |Window(Final(Empty(), TwoAtOnce(a, b), net).store.challenges, ByIp(net.inet(a)), -WINDOW)| == 4
  {
    hide Possible, Final, Solo, Prepare, Apply, Window, Ready, Sees;
    var run := Solo(1, Enrollment(1, a, 1)) + Solo(2, Enrollment(2, a, 2));
    FirstTwo(a, net);
    BothReady(run, a, b, net);
    var s, j3, j4 := Final(Empty(), run, net).store, Enrollment(1, a, 3), Enrollment(2, b, 4);
    AskedOnce(s, j3, net, {1, 2});
    assert {1, 2} + {3} == {1, 2, 3} && {1, 2, 3} + {4} == {1, 2, 3, 4};
    AskedOnce(Apply(s, Ready(j3), net), j4, net, {1, 2, 3});
    ReadyLooked(j3);
    ReadyLooked(j4);
    BothCommit(run + Prepare(3, j3) + Prepare(4, j4), s, Ready(j3), Ready(j4), net);
  }

  lemma {:induction false} ReadyLooked(job: Job)
    ensures Ready(job).looked
  {}

  ghost predicate QuotaKept(t: map<Id, Challenge>, q: Quota)
  {
    forall a :: |Window(t, q, a)| <= QUOTA
  }

  /** A user's or a number's quota holds in every run; an address's exactly when the address has one text. */
  lemma {:induction false} QuotaKeptIff(net: Net, q: Quota)
    ensures (forall run :: Possible(Empty(), run, net) ==> QuotaKept(Final(Empty(), run, net).store.challenges, q))
       <==> q.ByUser? || q.ByMobile? || OneText(net, q.ip)
  {
    hide Possible, Final, TwoAtOnce, Window, WorksFine, Fine;
    if Guarded(net, q) {
      forall run | Possible(Empty(), run, net) ensures QuotaKept(Final(Empty(), run, net).store.challenges, q) {
        EmptyFine(net);
        RunKeeps(Empty(), run, net);
        FineKeepsQuota(Final(Empty(), run, net).store.challenges, net, q);
      }
    } else {
      var a, b :| a in net.texts && b in net.texts && net.inet(a) == q.ip && net.inet(b) == q.ip && a != b;
      TwoTextsBreakTheQuota(net, a, b);
      assert !QuotaKept(Final(Empty(), TwoAtOnce(a, b), net).store.challenges, q);
    }
  }

  lemma {:induction false} FineKeepsQuota(t: map<Id, Challenge>, net: Net, q: Quota)
    requires Fine(t, net) && Guarded(net, q)
    ensures QuotaKept(t, q)
  {
    hide RowsFine, OneUnused, Guarded, Window;
  }

  /** One text for every address. */
  ghost predicate Canonical(net: Net)
  {
    forall a, b :: a in net.texts && b in net.texts && net.inet(a) == net.inet(b) ==> a == b
  }

  ghost predicate AllQuotasKept(t: map<Id, Challenge>) { forall q :: QuotaKept(t, q) }

  /** All quotas hold in every run exactly when the server is handed one text for one address. */
  lemma {:induction false} QuotasKeptIff(net: Net)
    ensures (forall run :: Possible(Empty(), run, net) ==> AllQuotasKept(Final(Empty(), run, net).store.challenges))
       <==> Canonical(net)
  {
    hide Possible, Final, QuotaKept;
    if Canonical(net) {
      forall run | Possible(Empty(), run, net) ensures AllQuotasKept(Final(Empty(), run, net).store.challenges) {
        forall q ensures QuotaKept(Final(Empty(), run, net).store.challenges, q) { QuotaKeptIff(net, q); }
      }
    } else {
      var a, b :| a in net.texts && b in net.texts && net.inet(a) == net.inet(b) && a != b;
      QuotaKeptIff(net, ByIp(net.inet(a)));
    }
  }

  // ---------------------------------------------------------------- windows closed at both ends

  /** Challenges of one quota from a moment on, up to and with the moment fifteen minutes later. */
  function Closed(t: map<Id, Challenge>, q: Quota, a: int): set<Id>
  {
    set id | id in t && CountsFor(q, t[id]) && a <= t[id].created <= a + WINDOW
  }

  ghost predicate ClosedKept(t: map<Id, Challenge>)
  {
    forall q, a :: |Closed(t, q, a)| <= QUOTA
  }

  lemma {:induction false} UnionSmaller(a: set<Id>, b: set<Id>)
    ensures |a + b| <= |a| + |b|
  {
    assert a + b == a + (b - a);
    SubsetSmaller(b - a, b);
  }

  /** Such a window is two open ones, so it never holds more than six. */
  lemma {:induction false} ClosedAtMostSix(run: seq<Event>, net: Net, q: Quota, a: int)
    requires Guarded(net, q) && Possible(Empty(), run, net)
    ensures |Closed(Final(Empty(), run, net).store.challenges, q, a)| <= 2 * QUOTA
  {
    hide Possible, Final, WorksFine, CountsFor, Guarded;
    EmptyFine(net);
    RunKeeps(Empty(), run, net);
    var t := Final(Empty(), run, net).store.challenges;
    assert Closed(t, q, a) == Window(t, q, a - 1) + Window(t, q, a);
    UnionSmaller(Window(t, q, a - 1), Window(t, q, a));
  }

  /** The k-th of six requests by one person: three at one moment, three exactly fifteen minutes later. */
  function AtBothEnds(k: nat, ip: string): Job
  {
    Ask(1, Enroll, 1, 1, Person(1), ip, "", if k <= 3 then 0 else WINDOW, k)
  }

  function FirstAsks(n: nat, ip: string): seq<Event>
  {
    if n == 0 then [] else FirstAsks(n - 1, ip) + Solo(n, AtBothEnds(n, ip))
  }

  lemma {:induction false} AskAddsToClosed(s: Store, w: Work, net: Net, q: Quota, a: int)
    requires w.job.Ask? && CanWrite(s, w) && q == ByUser(w.job.user) && a <= w.job.start <= a + WINDOW
    ensures |Closed(Apply(s, w, net).challenges, q, a)| == |Closed(s.challenges, q, a)| + 1
  {
    var t := Apply(s, w, net).challenges;
    assert Closed(t, q, a) == Closed(s.challenges, q, a) + {w.job.id};
    OneMore(Closed(s.challenges, q, a), w.job.id);
  }

  /** The challenges so far are 1 to n, the first three made at one moment, the others fifteen minutes later. */
  ghost predicate Numbered(t: map<Id, Challenge>, n: nat)
  {
    && |t.Keys| == n && (forall k :: k in t ==> 1 <= k <= n)
    && forall k :: k in t ==> t[k].created == if k <= 3 then 0 else WINDOW
  }

  ghost predicate AfterFirst(s: System, n: nat)
  {
    s.running == map[] && Numbered(s.store.challenges, n) && |Closed(s.store.challenges, ByUser(1), 0)| == n
  }

  lemma {:induction false} StillRoom(s: System, n: nat, ip: string, net: Net)
    requires n < 6 && AfterFirst(s, n)
    ensures Sees(s.store, AtBothEnds(n + 1, ip), net, 0, None)
  {
    hide Exhausted, ValidMobile, Closed;
    PersonsApart();
    var t, inet := s.store.challenges, net.inet(ip);
    if n < 3 {
      FewChallenges(t, 1, Person(1), inet, 0);
    } else {
      LaterOnes(t, ByUser(1), n);
      LaterOnes(t, ByMobile(Person(1)), n);
      LaterOnes(t, ByIp(inet), n);
      NotExhausted(t, 1, Person(1), inet, WINDOW);
    }
  }

  lemma {:induction false} NotExhausted(t: map<Id, Challenge>, user: User, mobile: string, ip: Inet, now: int)
    requires |Since(t, ByMobile(mobile), now - WINDOW)| < QUOTA
    requires |Since(t, ByIp(ip), now - WINDOW)| < QUOTA && |Since(t, ByUser(user), now - WINDOW)| < QUOTA
    ensures !Exhausted(t, user, mobile, ip, now)
  {}

  lemma {:induction false} LaterOnes(t: map<Id, Challenge>, q: Quota, n: nat)
    requires 3 <= n < 6 && Numbered(t, n)
    ensures |Since(t, q, WINDOW - WINDOW)| < QUOTA
  {
    hide CountsFor;
    assert Since(t, q, 0) <= {4, 5};
    SubsetSmaller(Since(t, q, 0), {4, 5});
  }

  lemma {:induction false} SixFit(n: nat, ip: string, net: Net)
    requires n <= 6 && ip in net.texts
    ensures Possible(Empty(), FirstAsks(n, ip), net) && AfterFirst(Final(Empty(), FirstAsks(n, ip), net), n)
    decreases n
  {
    if n == 0 {
      assert Closed(map[], ByUser(1), 0) == {};
    } else {
      hide Possible, Final, Solo, Apply, Sees, Closed, Ready;
      SixFit(n - 1, ip, net);
      var s, job := Final(Empty(), FirstAsks(n - 1, ip), net), AtBothEnds(n, ip);
      StillRoom(s, n - 1, ip, net);
      SoloNext(FirstAsks(n - 1, ip), n, job, net);
      NextOfSix(s, n, ip, net);
    }
  }

  lemma {:induction false} NextOfSix(s: System, n: nat, ip: string, net: Net)
    requires 1 <= n <= 6 && AfterFirst(s, n - 1)
    ensures CanWrite(s.store, Ready(AtBothEnds(n, ip)))
    ensures AfterFirst(System(Apply(s.store, Ready(AtBothEnds(n, ip)), net), map[]), n)
  {
    hide Plan, Person, Closed, Apply, Numbered;
    var w := Ready(AtBothEnds(n, ip));
    NextNumbered(s.store, n, ip, net);
    AskAddsToClosed(s.store, w, net, ByUser(1), 0);
  }

  lemma {:induction false} NextNumbered(s: Store, n: nat, ip: string, net: Net)
    requires 1 <= n <= 6 && Numbered(s.challenges, n - 1)
    ensures CanWrite(s, Ready(AtBothEnds(n, ip)))
    ensures Numbered(Apply(s, Ready(AtBothEnds(n, ip)), net).challenges, n)
  {
    hide Plan, Person, SpendAll;
    var job := AtBothEnds(n, ip);
    var t := SpendAll(s.challenges, 1, {Enroll});
    SpendKeepsStamps(s.challenges, 1, {Enroll});
    NumberedOn(s.challenges, t, n, NewOf(job, net));
    assert Apply(s, Ready(job), net).challenges == t[n := NewOf(job, net)];
  }

  lemma {:induction false} NumberedOn(s: map<Id, Challenge>, t: map<Id, Challenge>, n: nat, c: Challenge)
    requires n >= 1 && Numbered(s, n - 1) && SameStamps(s, t) && c.created == if n <= 3 then 0 else WINDOW
    ensures n !in s && Numbered(t[n := c], n)
  {
    assert t[n := c].Keys == s.Keys + {n};
    OneMore(s.Keys, n);
  }

  /** And six can be reached, whatever the texts. */
  lemma {:induction false} ClosedWindowHoldsSix(ip: string, net: Net)
    requires ip in net.texts
    ensures Possible(Empty(), FirstAsks(6, ip), net)
    ensures |Closed(Final(Empty(), FirstAsks(6, ip), net).store.challenges, ByUser(1), 0)| == 2 * QUOTA
  {
    hide Possible, Final, FirstAsks, Closed;
    SixFit(6, ip, net);
  }

  // ---------------------------------------------------------------- the guard that keeps closed windows at three

  /** The count of the check with the instant exactly fifteen minutes back included. */
  function From(t: map<Id, Challenge>, q: Quota, first: int): set<Id>
  {
    set id | id in t && CountsFor(q, t[id]) && t[id].created >= first
  }

  ghost predicate Room(t: map<Id, Challenge>, c: Challenge)
  {
    forall q :: CountsFor(q, c) ==> |From(t, q, c.created - WINDOW)| < QUOTA
  }

  predicate Latest(t: map<Id, Challenge>, c: Challenge)
  {
    forall id :: id in t ==> t[id].created <= c.created
  }

  lemma {:induction false} AddToClosed(t: map<Id, Challenge>, id: Id, c: Challenge, q: Quota, a: int)
    requires id !in t
    ensures CountsFor(q, c) && a <= c.created <= a + WINDOW ==>
      Closed(t[id := c], q, a) == Closed(t, q, a) + {id} && |Closed(t[id := c], q, a)| == |Closed(t, q, a)| + 1
    ensures !(CountsFor(q, c) && a <= c.created <= a + WINDOW) ==> Closed(t[id := c], q, a) == Closed(t, q, a)
  {
    hide CountsFor;
    var u := t[id := c];
    if CountsFor(q, c) && a <= c.created <= a + WINDOW {
      forall x ensures x in Closed(u, q, a) <==> x in Closed(t, q, a) + {id} {}
      OneMore(Closed(t, q, a), id);
    } else {
      forall x ensures x in Closed(u, q, a) <==> x in Closed(t, q, a) {}
    }
  }

  lemma {:induction false} RoomKeepsClosed(t: map<Id, Challenge>, id: Id, c: Challenge)
    requires id !in t && ClosedKept(t) && Room(t, c)
    ensures ClosedKept(t[id := c])
  {
    hide CountsFor;
    var u := t[id := c];
    forall q, a ensures |Closed(u, q, a)| <= QUOTA {
      AddToClosed(t, id, c, q, a);
      if CountsFor(q, c) && a <= c.created <= a + WINDOW {
        SubsetSmaller(Closed(t, q, a), From(t, q, c.created - WINDOW));
      }
    }
  }

  lemma {:induction false} ClosedNeedsRoom(t: map<Id, Challenge>, id: Id, c: Challenge)
    requires id !in t && ClosedKept(t[id := c]) && Latest(t, c)
    ensures Room(t, c)
  {
    hide CountsFor;
    forall q | CountsFor(q, c) ensures |From(t, q, c.created - WINDOW)| < QUOTA {
      var a := c.created - WINDOW;
      AddToClosed(t, id, c, q, a);
      assert |Closed(t[id := c], q, a)| <= QUOTA;
      forall x ensures x in Closed(t, q, a) <==> x in From(t, q, a) {}
      assert Closed(t, q, a) == From(t, q, a);
    }
  }

  lemma {:induction false} SameClosed(t: map<Id, Challenge>, u: map<Id, Challenge>)
    requires SameStamps(t, u)
    ensures ClosedKept(t) <==> ClosedKept(u)
    ensures forall c :: Room(t, c) <==> Room(u, c)
    ensures forall c :: Latest(t, c) <==> Latest(u, c)
  {
    forall q, a ensures Closed(t, q, a) == Closed(u, q, a) && From(t, q, a) == From(u, q, a) {
      SameClosedAt(t, u, q, a);
    }
    hide Closed, From, CountsFor;
  }

  lemma {:induction false} SameClosedAt(t: map<Id, Challenge>, u: map<Id, Challenge>, q: Quota, a: int)
    requires SameStamps(t, u)
    ensures Closed(t, q, a) == Closed(u, q, a) && From(t, q, a) == From(u, q, a)
  {}

  predicate Asks(s: System, e: Event) { e.Commit? && e.t in s.running && s.running[e.t].job.Ask? }

  /** A request commits only if its quotas have room with the instant fifteen minutes back included. */
  ghost predicate Roomy(s: System, e: Event, net: Net)
  {
    Asks(s, e) ==> Room(s.store.challenges, NewOf(s.running[e.t].job, net))
  }

  /** No challenge on the table was started later than the one about to be committed. */
  predicate InTurn(s: System, e: Event, net: Net)
  {
    Asks(s, e) ==> Latest(s.store.challenges, NewOf(s.running[e.t].job, net))
  }

  lemma {:induction false} AskClosed(s: Store, w: Work, net: Net)
    requires w.job.Ask? && CanWrite(s, w) && ClosedKept(s.challenges)
    ensures Room(s.challenges, NewOf(w.job, net)) ==> ClosedKept(Apply(s, w, net).challenges)
    ensures Latest(s.challenges, NewOf(w.job, net)) && ClosedKept(Apply(s, w, net).challenges) ==>
      Room(s.challenges, NewOf(w.job, net))
  {
    hide ClosedKept, Room, Latest;
    var t, c := SpendAll(s.challenges, w.job.user, {w.job.purpose}), NewOf(w.job, net);
    SpendKeepsStamps(s.challenges, w.job.user, {w.job.purpose});
    SameClosed(s.challenges, t);
    assert Apply(s, w, net).challenges == t[w.job.id := c];
    if Room(t, c) { RoomKeepsClosed(t, w.job.id, c); }
    if Latest(t, c) && ClosedKept(t[w.job.id := c]) { ClosedNeedsRoom(t, w.job.id, c); }
  }

  /** Every other event leaves all counts alone. */
  lemma {:induction false} OtherStamps(s: System, e: Event, net: Net)
    requires Enabled(s, e, net) && !Asks(s, e)
    ensures SameStamps(s.store.challenges, After(s, e, net).store.challenges)
  {
    hide Apply, Plan, Taken, Sees;
    if e.Commit? { StampsAfter(s.store, s.running[e.t], net); }
  }

  lemma {:induction false} EventClosed(s: System, e: Event, net: Net)
    requires Enabled(s, e, net) && ClosedKept(s.store.challenges)
    ensures Roomy(s, e, net) ==> ClosedKept(After(s, e, net).store.challenges)
    ensures InTurn(s, e, net) && ClosedKept(After(s, e, net).store.challenges) ==> Roomy(s, e, net)
  {
    hide ClosedKept, Room, Latest, Apply, Plan, Taken, Sees;
    if Asks(s, e) {
      AskClosed(s.store, s.running[e.t], net);
    } else {
      OtherStamps(s, e, net);
      SameClosed(s.store.challenges, After(s, e, net).store.challenges);
    }
  }

  ghost predicate AlwaysRoomy(s: System, run: seq<Event>, net: Net)
    requires Possible(s, run, net)
    decreases run
  {
    run == [] || (Roomy(s, run[0], net) && AlwaysRoomy(After(s, run[0], net), run[1..], net))
  }

  predicate AlwaysInTurn(s: System, run: seq<Event>, net: Net)
    requires Possible(s, run, net)
    decreases run
  {
    run == [] || (InTurn(s, run[0], net) && AlwaysInTurn(After(s, run[0], net), run[1..], net))
  }

  ghost predicate AlwaysClosed(s: System, run: seq<Event>, net: Net)
    requires Possible(s, run, net)
    decreases run
  {
    ClosedKept(s.store.challenges) && (run == [] || AlwaysClosed(After(s, run[0], net), run[1..], net))
  }

  /**
   * In every run, windows closed at both ends stay at three at every moment if the check counts the instant fifteen
   * minutes back; if requests commit in the order in which they started, then exactly if.
   */
  lemma {:induction false} ClosedWindowsKeptIff(s: System, run: seq<Event>, net: Net)
    requires ClosedKept(s.store.challenges) && Possible(s, run, net)
    ensures AlwaysRoomy(s, run, net) ==> AlwaysClosed(s, run, net)
    ensures AlwaysInTurn(s, run, net) ==> (AlwaysRoomy(s, run, net) <==> AlwaysClosed(s, run, net))
    decreases run
  {
    hide ClosedKept, Enabled, After, Roomy, InTurn;
    if run != [] {
      EventClosed(s, run[0], net);
      var t := After(s, run[0], net);
      if ClosedKept(t.store.challenges) {
        ClosedWindowsKeptIff(t, run[1..], net);
      } else {
        assert !AlwaysClosed(t, run[1..], net);
      }
    }
  }
}
