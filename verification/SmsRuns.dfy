// SMS challenges asked for, answered and delivered side by side.
module SmsRuns {
  import opened Common
  import opened SmsFactor
  import LockOrder

  /** Row locks and the advisory locks, which know an address only by its text. */
  datatype Resource = UserRow(user: User) | SessionRow(session: nat) | IpLock(ip: string) | MobileLock(mobile: string)

  datatype Job =
    | Ask(user: User, purpose: Purpose, session: nat, binding: nat, mobile: string, ip: string, secret: string,
          start: int, id: Id)
    | Answer(user: User, purpose: Purpose, session: nat, binding: nat, code: string)
    | TurnOff(user: User, session: nat)

  datatype Work = Work(job: Job, held: nat, looked: bool, picked: Option<Id>)

  datatype System = System(store: Store, running: map<nat, Work>)

  /** A transaction's life, and the worker's two updates, which take no lock of their own. */
  datatype Event =
    | Begin(t: nat, job: Job) | Acquire(t: nat) | Look(t: nat, now: int, picked: Option<Id>) | Abort(t: nat)
    | Commit(t: nat) | Wipe(now: int) | Deliver(id: Id)

  /** How the database reads an address from its text, and the texts the server may be handed. */
  datatype Net = Net(inet: string -> Inet, texts: set<string>)

  // ---------------------------------------------------------------- one transaction

  function SessionLock(purpose: Purpose, session: nat): seq<Resource>
  {
    if purpose.Enroll? then [SessionRow(session)] else []
  }

  function Plan(job: Job): seq<Resource>
  {
    match job
    case Ask(user, purpose, session, _, mobile, ip, _, _, _) =>
      [UserRow(user)] + SessionLock(purpose, session) + [IpLock(ip), MobileLock(mobile)]
    case Answer(user, purpose, session, _, _) => [UserRow(user)] + SessionLock(purpose, session)
    case TurnOff(user, session) => [UserRow(user), SessionRow(session)]
  }

  /** What a transaction reads once it has its locks. */
  predicate Sees(s: Store, job: Job, net: Net, now: int, picked: Option<Id>)
  {
    match job
    case Ask(user, purpose, _, _, mobile, ip, _, start, _) =>
      && picked.None? && ValidMobile(mobile)
      && (purpose.Login? ==> user in s.factors && s.factors[user] == mobile)
      && !Exhausted(s.challenges, user, mobile, net.inet(ip), start)
    case Answer(user, purpose, _, binding, _) => Picks(s.challenges, user, purpose, binding, now, picked)
    case TurnOff(_, _) => picked.None?
  }

  predicate CanWrite(s: Store, w: Work)
  {
    match w.job
    case Ask(_, _, _, _, _, _, _, _, id) => id !in s.challenges
    case Answer(_, _, _, _, _) => w.picked.Some? ==> w.picked.value in s.challenges
    case TurnOff(_, _) => true
  }

  function Apply(s: Store, w: Work, net: Net): Store
    requires CanWrite(s, w)
  {
    match w.job
    case Ask(user, purpose, _, binding, mobile, ip, secret, start, id) =>
      Asked(s, user, purpose, binding, mobile, net.inet(ip), secret, start, id)
    case Answer(user, purpose, _, _, code) => Answered(s, user, purpose, w.picked, code)
    case TurnOff(user, _) => TurnedOff(s, user)
  }

  // ---------------------------------------------------------------- steps

  function ClaimOf(w: Work): LockOrder.Claim<Resource> { LockOrder.Claim(Plan(w.job), w.held) }

  function Claims(s: System): map<nat, LockOrder.Claim<Resource>>
  {
    map t | t in s.running :: ClaimOf(s.running[t])
  }

  predicate HeldBy(w: Work, r: Resource) { LockOrder.Holds(ClaimOf(w), r) }

  predicate Taken(s: System, r: Resource)
  {
    exists u :: u in s.running && HeldBy(s.running[u], r)
  }

  predicate Enabled(s: System, e: Event, net: Net)
  {
    match e
    case Begin(t, job) => t !in s.running && (job.Ask? ==> job.ip in net.texts)
    case Acquire(t) =>
      && t in s.running && s.running[t].held < |Plan(s.running[t].job)|
      && !Taken(s, Plan(s.running[t].job)[s.running[t].held])
    case Look(t, now, picked) =>
      && t in s.running && s.running[t].held == |Plan(s.running[t].job)| && !s.running[t].looked
      && Sees(s.store, s.running[t].job, net, now, picked)
    case Abort(t) => t in s.running
    case Commit(t) => t in s.running && s.running[t].looked && CanWrite(s.store, s.running[t])
    case Wipe(_) => true
    case Deliver(_) => true
  }

  function After(s: System, e: Event, net: Net): System
    requires Enabled(s, e, net)
  {
    match e
    case Begin(t, job) => s.(running := s.running[t := Work(job, 0, false, None)])
    case Acquire(t) => s.(running := s.running[t := s.running[t].(held := s.running[t].held + 1)])
    case Look(t, _, picked) => s.(running := s.running[t := s.running[t].(looked := true, picked := picked)])
    case Abort(t) => s.(running := s.running - {t})
    case Commit(t) => System(Apply(s.store, s.running[t], net), s.running - {t})
    case Wipe(now) => s.(store := s.store.(challenges := Wiped(s.store.challenges, now)))
    case Deliver(id) => s.(store := s.store.(challenges := Delivered(s.store.challenges, id)))
  }

  // ---------------------------------------------------------------- what every store keeps

  predicate RowFine(c: Challenge)
  {
    c.attempts <= 3 && (!c.used ==> c.attempts < 3) && (c.used ==> !c.holdsCode)
  }

  ghost predicate RowsFine(t: map<Id, Challenge>)
  {
    forall id :: id in t ==> RowFine(t[id])
  }

  /** At most one unused challenge for a user and purpose. */
  ghost predicate OneUnused(t: map<Id, Challenge>)
  {
    forall i, j :: i in t && j in t && !t[i].used && !t[j].used && t[i].user == t[j].user && t[i].purpose == t[j].purpose
      ==> i == j
  }

  /** Challenges of one quota made after a moment, up to and with the moment fifteen minutes later. */
  function Window(t: map<Id, Challenge>, q: Quota, a: int): set<Id>
  {
    set id | id in t && CountsFor(q, t[id]) && a < t[id].created <= a + WINDOW
  }

  /** One text for this address. */
  ghost predicate OneText(net: Net, ip: Inet)
  {
    forall a, b :: a in net.texts && b in net.texts && net.inet(a) == ip && net.inet(b) == ip ==> a == b
  }

  /** Users and numbers are locked as they are compared; an address is only if it has one text. */
  ghost predicate Guarded(net: Net, q: Quota) { q.ByIp? ==> OneText(net, q.ip) }

  ghost predicate QuotasKept(t: map<Id, Challenge>, net: Net)
  {
    forall q, a :: Guarded(net, q) ==> |Window(t, q, a)| <= QUOTA
  }

  predicate Concerns(q: Quota, user: User, mobile: string, ip: Inet)
  {
    q == ByUser(user) || q == ByMobile(mobile) || q == ByIp(ip)
  }

  /** The quotas of a request that its locks guard have room. */
  ghost predicate RoomLeft(t: map<Id, Challenge>, user: User, mobile: string, ip: Inet, start: int, net: Net)
  {
    forall q :: Guarded(net, q) && Concerns(q, user, mobile, ip) ==> |Since(t, q, start - WINDOW)| < QUOTA
  }

  predicate SameStamp(c: Challenge, d: Challenge)
  {
    c.user == d.user && c.purpose == d.purpose && c.mobile == d.mobile && c.ip == d.ip && c.created == d.created
  }

  /** Two tables with the same challenges, as far as quotas can tell. */
  ghost predicate SameStamps(t: map<Id, Challenge>, u: map<Id, Challenge>)
  {
    && t.Keys == u.Keys
    && forall id :: id in t ==> SameStamp(t[id], u[id])
  }

  lemma {:induction false} SameSince(t: map<Id, Challenge>, u: map<Id, Challenge>, q: Quota, after: int)
    requires SameStamps(t, u)
    ensures Since(t, q, after) == Since(u, q, after)
  {}

  lemma {:induction false} SameWindow(t: map<Id, Challenge>, u: map<Id, Challenge>, q: Quota, a: int)
    requires SameStamps(t, u)
    ensures Window(t, q, a) == Window(u, q, a)
  {}

  lemma {:induction false} SameQuotas(t: map<Id, Challenge>, u: map<Id, Challenge>, net: Net)
    requires SameStamps(t, u) && QuotasKept(t, net)
    ensures QuotasKept(u, net)
  {
    hide Window, Guarded;
    forall q, a | Guarded(net, q) ensures |Window(u, q, a)| <= QUOTA { SameWindow(t, u, q, a); }
  }

  lemma {:induction false} SameRoom(t: map<Id, Challenge>, u: map<Id, Challenge>, user: User, mobile: string, ip: Inet,
                                    start: int, net: Net)
    requires SameStamps(t, u) && RoomLeft(t, user, mobile, ip, start, net)
    ensures RoomLeft(u, user, mobile, ip, start, net)
  {
    hide Since, Guarded;
    forall q | Guarded(net, q) && Concerns(q, user, mobile, ip) ensures |Since(u, q, start - WINDOW)| < QUOTA {
      SameSince(t, u, q, start - WINDOW);
    }
  }

  lemma {:induction false} NotExhaustedLeavesRoom(t: map<Id, Challenge>, user: User, mobile: string, ip: Inet, start: int,
                                                  net: Net)
    requires !Exhausted(t, user, mobile, ip, start)
    ensures RoomLeft(t, user, mobile, ip, start, net)
  {
    hide Since, Guarded;
  }

  lemma {:induction false} SpendKeepsStamps(t: map<Id, Challenge>, user: User, purposes: set<Purpose>)
    ensures SameStamps(t, SpendAll(t, user, purposes))
  {}

  lemma {:induction false} SpendKeepsRows(t: map<Id, Challenge>, user: User, purposes: set<Purpose>)
    requires RowsFine(t) && OneUnused(t)
    ensures RowsFine(SpendAll(t, user, purposes)) && OneUnused(SpendAll(t, user, purposes))
  {}

  lemma {:induction false} SubsetSmaller(a: set<Id>, b: set<Id>)
    requires a <= b
    ensures |a| <= |b|
    decreases |a|
  {
    if x :| x in a {
      SubsetSmaller(a - {x}, b - {x});
    }
  }

  lemma {:induction false} OneMore(s: set<Id>, x: Id)
    requires x !in s
    ensures |s + {x}| == |s| + 1
  {}

  lemma {:induction false} AddToWindow(t: map<Id, Challenge>, id: Id, c: Challenge, q: Quota, a: int)
    requires id !in t && CountsFor(q, c) && a < c.created <= a + WINDOW
    ensures Window(t[id := c], q, a) == Window(t, q, a) + {id} && |Window(t[id := c], q, a)| == |Window(t, q, a)| + 1
  {
    hide CountsFor;
    forall x ensures x in Window(t[id := c], q, a) <==> x in Window(t, q, a) + {id} {}
    OneMore(Window(t, q, a), id);
  }

  /** The new challenge's own quota had room, so no window it falls into holds more than three. */
  lemma {:induction false} WindowWithNew(t: map<Id, Challenge>, id: Id, c: Challenge, q: Quota, a: int)
    requires id !in t && |Window(t, q, a)| <= QUOTA
    requires CountsFor(q, c) ==> |Since(t, q, c.created - WINDOW)| < QUOTA
    ensures |Window(t[id := c], q, a)| <= QUOTA
  {
    hide CountsFor;
    var u := t[id := c];
    if CountsFor(q, c) && a < c.created <= a + WINDOW {
      AddToWindow(t, id, c, q, a);
      assert Window(t, q, a) <= Since(t, q, c.created - WINDOW);
      SubsetSmaller(Window(t, q, a), Since(t, q, c.created - WINDOW));
    } else {
      assert Window(u, q, a) == Window(t, q, a);
    }
  }

  lemma {:induction false} QuotasWithNew(t: map<Id, Challenge>, id: Id, c: Challenge, net: Net)
    requires id !in t && QuotasKept(t, net) && RoomLeft(t, c.user, c.mobile, c.ip, c.created, net)
    ensures QuotasKept(t[id := c], net)
  {
    hide Window, Since, Guarded;
    var u := t[id := c];
    forall q, a | Guarded(net, q) ensures |Window(u, q, a)| <= QUOTA {
      assert CountsFor(q, c) ==> Concerns(q, c.user, c.mobile, c.ip);
      WindowWithNew(t, id, c, q, a);
    }
  }

  // ---------------------------------------------------------------- each change keeps it

  ghost predicate Fine(t: map<Id, Challenge>, net: Net) { RowsFine(t) && OneUnused(t) && QuotasKept(t, net) }

  lemma {:induction false} AskedKeeps(s: Store, user: User, purpose: Purpose, binding: nat, mobile: string, ip: Inet,
                                      secret: string, start: int, id: Id, net: Net)
    requires Fine(s.challenges, net) && id !in s.challenges && RoomLeft(s.challenges, user, mobile, ip, start, net)
    ensures Fine(Asked(s, user, purpose, binding, mobile, ip, secret, start, id).challenges, net)
  {
    hide RoomLeft, QuotasKept;
    var u := SpendAll(s.challenges, user, {purpose});
    var c := NewChallenge(user, purpose, binding, mobile, ip, secret, start);
    SpendKeepsStamps(s.challenges, user, {purpose});
    SpendKeepsRows(s.challenges, user, {purpose});
    SameQuotas(s.challenges, u, net);
    SameRoom(s.challenges, u, user, mobile, ip, start, net);
    QuotasWithNew(u, id, c, net);
    NewIsOnlyUnused(s.challenges, user, purpose, id, c);
  }

  lemma {:induction false} NewIsOnlyUnused(t: map<Id, Challenge>, user: User, purpose: Purpose, id: Id, c: Challenge)
    requires RowsFine(t) && OneUnused(t) && id !in t && c.user == user && c.purpose == purpose && RowFine(c)
    ensures RowsFine(SpendAll(t, user, {purpose})[id := c]) && OneUnused(SpendAll(t, user, {purpose})[id := c])
  {}

  lemma {:induction false} TriedKeeps(t: map<Id, Challenge>, id: Id, right: bool, net: Net)
    requires Fine(t, net) && id in t && !t[id].used
    ensures Fine(t[id := Tried(t[id], right)], net) && SameStamps(t, t[id := Tried(t[id], right)])
  {
    hide QuotasKept;
    SameQuotas(t, t[id := Tried(t[id], right)], net);
  }

  lemma {:induction false} SpendKeeps(t: map<Id, Challenge>, user: User, purposes: set<Purpose>, net: Net)
    requires Fine(t, net)
    ensures Fine(SpendAll(t, user, purposes), net) && SameStamps(t, SpendAll(t, user, purposes))
  {
    hide QuotasKept;
    SpendKeepsStamps(t, user, purposes);
    SpendKeepsRows(t, user, purposes);
    SameQuotas(t, SpendAll(t, user, purposes), net);
  }

  lemma {:induction false} AnsweredKeeps(s: Store, user: User, purpose: Purpose, picked: Option<Id>, code: string,
                                         net: Net)
    requires Fine(s.challenges, net)
    requires picked.Some? ==> picked.value in s.challenges && !s.challenges[picked.value].used
    ensures Fine(Answered(s, user, purpose, picked, code).challenges, net)
    ensures SameStamps(s.challenges, Answered(s, user, purpose, picked, code).challenges)
  {
    hide Fine, Tried, Right, SpendAll;
    if picked.Some? {
      var right := Right(s.challenges[picked.value], code);
      var t := s.challenges[picked.value := Tried(s.challenges[picked.value], right)];
      TriedKeeps(s.challenges, picked.value, right, net);
      SpendKeeps(t, user, {Enroll, Login}, net);
    }
  }

  lemma {:induction false} WipeKeeps(t: map<Id, Challenge>, now: int)
    requires RowsFine(t) && OneUnused(t)
    ensures RowsFine(Wiped(t, now)) && OneUnused(Wiped(t, now)) && SameStamps(t, Wiped(t, now))
  {}

  lemma {:induction false} DeliverKeeps(t: map<Id, Challenge>, id: Id)
    requires RowsFine(t) && OneUnused(t)
    ensures RowsFine(Delivered(t, id)) && OneUnused(Delivered(t, id)) && SameStamps(t, Delivered(t, id))
  {}

  lemma {:induction false} WorkerKeeps(t: map<Id, Challenge>, now: int, id: Id, net: Net)
    requires Fine(t, net)
    ensures Fine(Wiped(t, now), net) && SameStamps(t, Wiped(t, now))
    ensures Fine(Delivered(t, id), net) && SameStamps(t, Delivered(t, id))
  {
    hide QuotasKept;
    WipeKeeps(t, now);
    DeliverKeeps(t, id);
    SameQuotas(t, Wiped(t, now), net);
    SameQuotas(t, Delivered(t, id), net);
  }

  // ---------------------------------------------------------------- what holds while transactions run

  /** What a transaction saw is still so. */
  ghost predicate StillSees(s: Store, w: Work, net: Net)
  {
    && w.held == |Plan(w.job)|
    && match w.job
       case Ask(user, _, _, _, mobile, ip, _, start, _) => RoomLeft(s.challenges, user, mobile, net.inet(ip), start, net)
       case Answer(user, _, _, _, _) => w.picked.Some? ==>
         w.picked.value in s.challenges && !s.challenges[w.picked.value].used && s.challenges[w.picked.value].user == user
       case TurnOff(_, _) => true
  }

  ghost predicate WorkFine(s: Store, w: Work, net: Net)
  {
    && w.held <= |Plan(w.job)| && (w.looked ==> StillSees(s, w, net))
    && (w.job.Ask? ==> w.job.ip in net.texts)
  }

  ghost predicate Exclusive(v: Work, w: Work)
  {
    LockOrder.Exclusive(ClaimOf(v), ClaimOf(w))
  }

  ghost predicate WorksFine(s: System, net: Net)
  {
    && (forall t :: t in s.running ==> WorkFine(s.store, s.running[t], net))
    && (forall t, u :: t in s.running && u in s.running && t != u ==> Exclusive(s.running[t], s.running[u]))
  }

  lemma {:induction false} PlanHolds(job: Job)
    ensures UserRow(job.user) in Plan(job)
    ensures job.Ask? ==> MobileLock(job.mobile) in Plan(job) && IpLock(job.ip) in Plan(job)
  {
    assert Plan(job)[0] == UserRow(job.user);
    if job.Ask? {
      var n := |Plan(job)|;
      assert Plan(job)[n - 1] == MobileLock(job.mobile) && Plan(job)[n - 2] == IpLock(job.ip);
    }
  }

  /** Two transactions with all their locks share no user, no number, and no address that has one text. */
  lemma {:induction false} NothingShared(v: Work, w: Work, net: Net)
    requires Exclusive(v, w) && v.held == |Plan(v.job)| && w.held == |Plan(w.job)|
    requires (v.job.Ask? ==> v.job.ip in net.texts) && (w.job.Ask? ==> w.job.ip in net.texts)
    ensures v.job.user != w.job.user
    ensures v.job.Ask? && w.job.Ask? ==> v.job.mobile != w.job.mobile && v.job.ip != w.job.ip
    ensures v.job.Ask? && w.job.Ask? && OneText(net, net.inet(v.job.ip)) ==> net.inet(v.job.ip) != net.inet(w.job.ip)
  {
    hide Plan, HeldBy;
    PlanHolds(v.job);
    PlanHolds(w.job);
    LockOrder.AllHeld(ClaimOf(v), UserRow(v.job.user));
    LockOrder.AllHeld(ClaimOf(w), UserRow(v.job.user));
    if v.job.Ask? && w.job.Ask? {
      LockOrder.AllHeld(ClaimOf(v), MobileLock(v.job.mobile));
      LockOrder.AllHeld(ClaimOf(w), MobileLock(v.job.mobile));
      LockOrder.AllHeld(ClaimOf(v), IpLock(v.job.ip));
      LockOrder.AllHeld(ClaimOf(w), IpLock(v.job.ip));
    }
  }

  /** A commit leaves the rows of other users alone. */
  lemma {:induction false} OthersUntouched(s: Store, w: Work, net: Net, id: Id)
    requires CanWrite(s, w) && StillSees(s, w, net) && id in s.challenges && s.challenges[id].user != w.job.user
    ensures id in Apply(s, w, net).challenges && Apply(s, w, net).challenges[id] == s.challenges[id]
  {
    hide Exhausted, Plan, Tried, Right;
  }

  lemma {:induction false} StampsAfter(s: Store, w: Work, net: Net)
    requires CanWrite(s, w) && !w.job.Ask?
    ensures SameStamps(s.challenges, Apply(s, w, net).challenges)
  {
    hide Right;
  }

  lemma {:induction false} SinceAfterAsk(s: Store, w: Work, net: Net, q: Quota, after: int)
    requires CanWrite(s, w) && w.job.Ask?
    requires match q case ByUser(user) => user != w.job.user case ByMobile(m) => m != w.job.mobile
                     case ByIp(ip) => ip != net.inet(w.job.ip)
    ensures Since(Apply(s, w, net).challenges, q, after) == Since(s.challenges, q, after)
  {}

  lemma {:induction false} StillRoom(s: Store, v: Work, w: Work, net: Net)
    requires v.job.Ask? && CanWrite(s, w) && StillSees(s, v, net)
    requires v.job.user != w.job.user
    requires w.job.Ask? ==> v.job.mobile != w.job.mobile
    requires w.job.Ask? && OneText(net, net.inet(v.job.ip)) ==> net.inet(v.job.ip) != net.inet(w.job.ip)
    ensures RoomLeft(Apply(s, w, net).challenges, v.job.user, v.job.mobile, net.inet(v.job.ip), v.job.start, net)
  {
    hide Apply, Plan, CanWrite, Since, OneText;
    var t := Apply(s, w, net).challenges;
    var a := v.job.start - WINDOW;
    if w.job.Ask? {
      forall q | Guarded(net, q) && Concerns(q, v.job.user, v.job.mobile, net.inet(v.job.ip))
        ensures |Since(t, q, a)| < QUOTA
      {
        SinceAfterAsk(s, w, net, q, a);
      }
    } else {
      StampsAfter(s, w, net);
      SameRoom(s.challenges, t, v.job.user, v.job.mobile, net.inet(v.job.ip), v.job.start, net);
    }
  }

  /** What another transaction saw survives a commit. */
  lemma {:induction false} SeenSurvives(s: Store, v: Work, w: Work, net: Net)
    requires WorkFine(s, v, net) && WorkFine(s, w, net) && Exclusive(v, w)
    requires w.looked && CanWrite(s, w)
    ensures WorkFine(Apply(s, w, net), v, net)
  {
    hide Apply, Plan, CanWrite, RoomLeft, Exclusive, OneText;
    if v.looked {
      NothingShared(v, w, net);
      match v.job {
        case Ask(_, _, _, _, _, _, _, _, _) => StillRoom(s, v, w, net);
        case Answer(_, _, _, _, _) => if v.picked.Some? { OthersUntouched(s, w, net, v.picked.value); }
        case TurnOff(_, _) =>
      }
    }
  }

  lemma {:induction false} CommitKeeps(s: System, t: nat, net: Net)
    requires WorksFine(s, net) && Enabled(s, Commit(t), net)
    ensures WorksFine(After(s, Commit(t), net), net)
  {
    hide Apply, Plan, CanWrite, Exclusive, WorkFine;
    var w := s.running[t];
    forall u | u in s.running && u != t ensures WorkFine(Apply(s.store, w, net), s.running[u], net) {
      SeenSurvives(s.store, s.running[u], w, net);
    }
  }

  lemma {:induction false} CommitKeepsStore(s: System, t: nat, net: Net)
    requires WorksFine(s, net) && Fine(s.store.challenges, net) && Enabled(s, Commit(t), net)
    ensures Fine(After(s, Commit(t), net).store.challenges, net)
  {
    hide Fine, RoomLeft, Plan, Exclusive, Asked, Answered, SpendAll;
    var w := s.running[t];
    assert WorkFine(s.store, w, net);
    match w.job
    case Ask(user, purpose, _, binding, mobile, ip, secret, start, id) =>
      AskedKeeps(s.store, user, purpose, binding, mobile, net.inet(ip), secret, start, id, net);
    case Answer(user, purpose, _, _, code) => AnsweredKeeps(s.store, user, purpose, w.picked, code, net);
    case TurnOff(user, _) => SpendKeeps(s.store.challenges, user, {Enroll, Login}, net);
  }

  /** The worker's updates change nothing a transaction has looked at. */
  lemma {:induction false} WorkerSeen(s: Store, t: map<Id, Challenge>, w: Work, net: Net)
    requires WorkFine(s, w, net) && SameStamps(s.challenges, t)
    requires forall id :: id in s.challenges ==> t[id].used == s.challenges[id].used
    ensures WorkFine(s.(challenges := t), w, net)
  {
    hide RoomLeft, Plan;
    if w.job.Ask? && w.looked {
      SameRoom(s.challenges, t, w.job.user, w.job.mobile, net.inet(w.job.ip), w.job.start, net);
    }
  }

  lemma {:induction false} WorkerEvent(s: System, e: Event, net: Net)
    requires WorksFine(s, net) && Fine(s.store.challenges, net) && (e.Wipe? || e.Deliver?)
    ensures WorksFine(After(s, e, net), net) && Fine(After(s, e, net).store.challenges, net)
  {
    hide Fine, WorkFine, Exclusive;
    var t := After(s, e, net).store.challenges;
    if e.Wipe? { WorkerKeeps(s.store.challenges, e.now, 0, net); } else { WorkerKeeps(s.store.challenges, 0, e.id, net); }
    assert forall id :: id in s.store.challenges ==> t[id].used == s.store.challenges[id].used;
    forall u | u in s.running ensures WorkFine(s.store.(challenges := t), s.running[u], net) {
      WorkerSeen(s.store, t, s.running[u], net);
    }
  }

  lemma {:induction false} BeginKeeps(s: System, t: nat, job: Job, net: Net)
    requires WorksFine(s, net) && Enabled(s, Begin(t, job), net)
    ensures WorksFine(After(s, Begin(t, job), net), net)
  {
    hide Plan, StillSees;
    assert forall r :: !HeldBy(Work(job, 0, false, None), r);
  }

  lemma {:induction false} AcquireKeeps(s: System, t: nat, net: Net)
    requires WorksFine(s, net) && Enabled(s, Acquire(t), net)
    ensures WorksFine(After(s, Acquire(t), net), net)
  {
    hide Plan, Exhausted;
    var w := s.running[t];
    assert WorkFine(s.store, w, net);
    var v := w.(held := w.held + 1);
    forall u | u in s.running && u != t ensures Exclusive(v, s.running[u]) && Exclusive(s.running[u], v) {
      assert Exclusive(w, s.running[u]);
      assert !HeldBy(s.running[u], Plan(w.job)[w.held]);
      LockOrder.TakeFree(ClaimOf(w), ClaimOf(s.running[u]));
    }
  }

  lemma {:induction false} LookKeeps(s: System, t: nat, now: int, picked: Option<Id>, net: Net)
    requires WorksFine(s, net) && Enabled(s, Look(t, now, picked), net)
    ensures WorksFine(After(s, Look(t, now, picked), net), net)
  {
    hide Plan, Exhausted, ValidMobile, RoomLeft;
    var w := s.running[t];
    assert WorkFine(s.store, w, net);
    if w.job.Ask? {
      NotExhaustedLeavesRoom(s.store.challenges, w.job.user, w.job.mobile, net.inet(w.job.ip), w.job.start, net);
    }
    var v := w.(looked := true, picked := picked);
    assert forall r :: HeldBy(v, r) <==> HeldBy(w, r);
    forall u | u in s.running && u != t ensures Exclusive(v, s.running[u]) && Exclusive(s.running[u], v) {
      assert Exclusive(w, s.running[u]);
    }
  }

  lemma {:induction false} AbortKeeps(s: System, t: nat, net: Net)
    requires WorksFine(s, net) && Enabled(s, Abort(t), net)
    ensures WorksFine(After(s, Abort(t), net), net)
  {
    hide WorkFine, Exclusive;
  }

  lemma {:induction false} StepKeeps(s: System, e: Event, net: Net)
    requires WorksFine(s, net) && Fine(s.store.challenges, net) && Enabled(s, e, net)
    ensures WorksFine(After(s, e, net), net) && Fine(After(s, e, net).store.challenges, net)
  {
    hide WorksFine, Fine, Enabled;
    match e
    case Begin(t, job) => BeginKeeps(s, t, job, net);
    case Acquire(t) => AcquireKeeps(s, t, net);
    case Look(t, now, picked) => LookKeeps(s, t, now, picked, net);
    case Abort(t) => AbortKeeps(s, t, net);
    case Commit(t) => CommitKeeps(s, t, net); CommitKeepsStore(s, t, net);
    case Wipe(_) => WorkerEvent(s, e, net);
    case Deliver(_) => WorkerEvent(s, e, net);
  }

  // ---------------------------------------------------------------- runs

  predicate Possible(s: System, run: seq<Event>, net: Net)
    decreases run
  {
    run == [] || (Enabled(s, run[0], net) && Possible(After(s, run[0], net), run[1..], net))
  }

  function Final(s: System, run: seq<Event>, net: Net): System
    requires Possible(s, run, net)
    decreases run
  {
    if run == [] then s else Final(After(s, run[0], net), run[1..], net)
  }

  /**
   * Whatever interleaves, whenever transactions started and however addresses are written: no number and no user gets
   * more than three challenges in any fifteen minutes, and no address that has one text; a user has one unused
   * challenge for a purpose; and no used one holds its code.
   */
  lemma {:induction false} RunKeeps(s: System, run: seq<Event>, net: Net)
    requires WorksFine(s, net) && Fine(s.store.challenges, net) && Possible(s, run, net)
    ensures WorksFine(Final(s, run, net), net) && Fine(Final(s, run, net).store.challenges, net)
    decreases run
  {
    hide WorksFine, Fine, Enabled, After;
    if run != [] {
      StepKeeps(s, run[0], net);
      RunKeeps(After(s, run[0], net), run[1..], net);
    }
  }

  lemma {:induction false} EmptyFine(net: Net)
    ensures Fine(map[], net) && WorksFine(System(Store(map[], map[]), map[]), net)
  {
    forall q, a ensures |Window(map[], q, a)| <= QUOTA {
      assert Window(map[], q, a) == {};
    }
  }

  // ---------------------------------------------------------------- tries and successes

  /** The event commits an answer measured against this challenge. */
  predicate Tries(s: System, e: Event, id: Id)
  {
    e.Commit? && e.t in s.running && s.running[e.t].job.Answer? && s.running[e.t].picked == Some(id)
  }

  predicate Wins(s: System, e: Event, id: Id)
  {
    Tries(s, e, id) && id in s.store.challenges && Right(s.store.challenges[id], s.running[e.t].job.code)
  }

  function TriesCount(s: System, run: seq<Event>, net: Net, id: Id): nat
    requires Possible(s, run, net)
    decreases run
  {
    if run == [] then 0
    else (if Tries(s, run[0], id) then 1 else 0) + TriesCount(After(s, run[0], net), run[1..], net, id)
  }

  function WinsCount(s: System, run: seq<Event>, net: Net, id: Id): nat
    requires Possible(s, run, net)
    decreases run
  {
    if run == [] then 0
    else (if Wins(s, run[0], id) then 1 else 0) + WinsCount(After(s, run[0], net), run[1..], net, id)
  }

  function AttemptsOf(t: map<Id, Challenge>, id: Id): nat { if id in t then t[id].attempts else 0 }

  predicate UsedUp(t: map<Id, Challenge>, id: Id) { id in t && t[id].used }

  lemma {:induction false} AnswerCounts(s: Store, w: Work, net: Net, id: Id)
    requires w.job.Answer? && CanWrite(s, w) && StillSees(s, w, net)
    ensures var t := Apply(s, w, net).challenges;
      && AttemptsOf(t, id) == AttemptsOf(s.challenges, id) + (if w.picked == Some(id) then 1 else 0)
      && (UsedUp(s.challenges, id) ==> UsedUp(t, id) && w.picked != Some(id))
      && (w.picked == Some(id) && Right(s.challenges[id], w.job.code) ==> UsedUp(t, id))
  {
    hide Right, Plan;
  }

  lemma {:induction false} OtherCounts(s: Store, w: Work, net: Net, id: Id)
    requires !w.job.Answer? && CanWrite(s, w)
    ensures var t := Apply(s, w, net).challenges;
      && AttemptsOf(t, id) == AttemptsOf(s.challenges, id)
      && (UsedUp(s.challenges, id) ==> UsedUp(t, id))
  {}

  lemma {:induction false} CommitCounts(s: System, t: nat, net: Net, id: Id)
    requires WorksFine(s, net) && Enabled(s, Commit(t), net)
    ensures var e := Commit(t);
      var u := After(s, e, net).store.challenges;
      && AttemptsOf(u, id) == AttemptsOf(s.store.challenges, id) + (if Tries(s, e, id) then 1 else 0)
      && (UsedUp(s.store.challenges, id) ==> UsedUp(u, id) && !Tries(s, e, id))
      && (Wins(s, e, id) ==> UsedUp(u, id))
  {
    hide Apply, StillSees, Exclusive, CanWrite, Right, AttemptsOf, UsedUp, Plan;
    var w := s.running[t];
    assert WorkFine(s.store, w, net);
    if w.job.Answer? { AnswerCounts(s.store, w, net, id); } else { OtherCounts(s.store, w, net, id); }
  }

  lemma {:induction false} EventCounts(s: System, e: Event, net: Net, id: Id)
    requires WorksFine(s, net) && Enabled(s, e, net)
    ensures var u := After(s, e, net).store.challenges;
      && AttemptsOf(u, id) == AttemptsOf(s.store.challenges, id) + (if Tries(s, e, id) then 1 else 0)
      && (UsedUp(s.store.challenges, id) ==> UsedUp(u, id) && !Tries(s, e, id))
      && (Wins(s, e, id) ==> UsedUp(u, id))
  {
    if e.Commit? {
      hide *;
      CommitCounts(s, e.t, net, id);
    } else {
      hide Sees, Taken, Plan, Apply, CanWrite, WorksFine;
    }
  }

  lemma {:induction false} WinIsTry(s: System, e: Event, id: Id)
    ensures Wins(s, e, id) ==> Tries(s, e, id)
  {}

  /** The attempts column counts exactly the answers measured against a challenge; one of them at most is right. */
  lemma {:induction false} RunCounts(s: System, run: seq<Event>, net: Net, id: Id)
    requires WorksFine(s, net) && Fine(s.store.challenges, net) && Possible(s, run, net)
    ensures AttemptsOf(Final(s, run, net).store.challenges, id)
         == AttemptsOf(s.store.challenges, id) + TriesCount(s, run, net, id)
    ensures WinsCount(s, run, net, id) <= if UsedUp(s.store.challenges, id) then 0 else 1
    decreases run
  {
    hide WorksFine, Fine, Enabled, After, Tries, Wins, UsedUp, AttemptsOf;
    if run != [] {
      StepKeeps(s, run[0], net);
      EventCounts(s, run[0], net, id);
      WinIsTry(s, run[0], id);
      RunCounts(After(s, run[0], net), run[1..], net, id);
    }
  }

  lemma {:induction false} AttemptsBound(t: map<Id, Challenge>, id: Id, net: Net)
    requires Fine(t, net)
    ensures AttemptsOf(t, id) <= 3
  {
    hide QuotasKept, OneUnused;
  }

  /** In any run from an empty table a challenge is tried at most three times and succeeds at most once. */
  lemma {:induction false} TriedThriceWonOnce(run: seq<Event>, net: Net, id: Id)
    requires Possible(System(Store(map[], map[]), map[]), run, net)
    ensures TriesCount(System(Store(map[], map[]), map[]), run, net, id) <= 3
    ensures WinsCount(System(Store(map[], map[]), map[]), run, net, id) <= 1
  {
    hide Possible, Final, TriesCount, WinsCount, Fine, WorksFine;
    var s := System(Store(map[], map[]), map[]);
    EmptyFine(net);
    RunCounts(s, run, net, id);
    RunKeeps(s, run, net);
    AttemptsBound(Final(s, run, net).store.challenges, id, net);
  }

  // ---------------------------------------------------------------- no circle of waiting

  function RankOf(r: Resource): nat
  {
    match r
    case UserRow(_) => 0
    case SessionRow(_) => 1
    case IpLock(_) => 2
    case MobileLock(_) => 3
  }

  lemma {:induction false} PlansAscend(job: Job)
    ensures LockOrder.Ascending(Plan(job), RankOf)
  {}

  /** The plan's last two locks are taken in the order the sorted texts have. */
  lemma {:induction false} PlanIsSorted(job: Job)
    requires job.Ask?
    ensures var n := |Plan(job)|; n >= 2 && Plan(job)[n - 2] == IpLock(job.ip) && Plan(job)[n - 1] == MobileLock(job.mobile)
    ensures LockTexts(job.mobile, job.ip) == ["ip:" + job.ip, "mobile:" + job.mobile]
  {
    AddressFirst(job.mobile, job.ip);
  }

  /** Requests that share a number with one and an address with another never wait in a circle. */
  lemma {:induction false} NoDeadlock(s: System, net: Net, circle: seq<LockOrder.Claim<Resource>>)
    requires WorksFine(s, net) && circle != [] && forall c :: c in circle ==> c in Claims(s).Values
    ensures !(LockOrder.Chain(circle) && LockOrder.Waits(circle[|circle| - 1], circle[0]))
  {
    hide WorksFine, ClaimOf, LockOrder.Proper, LockOrder.Chain, LockOrder.Waits;
    forall t | t in s.running ensures LockOrder.Proper(Claims(s)[t], RankOf) { ClaimProper(s, net, t); }
    LockOrder.NoDeadlock(Claims(s), RankOf, circle);
  }

  lemma {:induction false} ClaimProper(s: System, net: Net, t: nat)
    requires WorksFine(s, net) && t in s.running
    ensures LockOrder.Proper(ClaimOf(s.running[t]), RankOf)
  {
    hide Plan, Exclusive, StillSees;
    assert WorkFine(s.store, s.running[t], net);
    PlansAscend(s.running[t].job);
  }

  /** However many operations run, one of them has all its locks or finds the next one free: somebody always goes on. */
  lemma {:induction false} SomebodyGoesOn(s: System, net: Net) returns (t: nat)
    requires WorksFine(s, net) && s.running.Keys != {}
    ensures t in s.running && LockOrder.Free(Claims(s), t)
  {
    hide WorksFine, ClaimOf, LockOrder.Proper, LockOrder.Free;
    forall t | t in s.running ensures LockOrder.Proper(Claims(s)[t], RankOf) { ClaimProper(s, net, t); }
    assert Claims(s).Keys == s.running.Keys;
    t := LockOrder.SomeoneProceeds(Claims(s), RankOf);
  }

}
