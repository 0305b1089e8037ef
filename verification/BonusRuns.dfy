// Bonus operations running side by side under row locks.
module BonusRuns {
  import opened Common
  import opened Bonus
  import LockOrder

  /** A row of the inbox or of the bonus table; inserting a row holds its unique key like a lock. */
  datatype Resource = KeyLock(key: Key) | RowLock(id: Id)

  /** A parsed operation; `ref` is the bonus decided on, or the new bonus or batch. */
  datatype Job = Job(key: Key, p: Payload, ref: Id, home: Branch, access: Access)

  datatype Work = Work(job: Job, held: nat)

  datatype System = System(ledger: Ledger, running: map<nat, Work>)

  datatype Event = Begin(t: nat, job: Job) | Acquire(t: nat) | Abort(t: nat) | Commit(t: nat)

  // ---------------------------------------------------------------- one operation

  function RowLocks(items: seq<Id>): (r: seq<Resource>)
    ensures |r| == |items| && forall k :: 0 <= k < |items| ==> r[k] == RowLock(items[k])
  {
    seq(|items|, k requires 0 <= k < |items| => RowLock(items[k]))
  }

  function Rows(job: Job): seq<Id>
  {
    if job.p.Settle? then job.p.items else [job.ref]
  }

  function Plan(job: Job): seq<Resource>
  {
    [KeyLock(job.key)] + RowLocks(Rows(job))
  }

  /** What the request schemas and the routes let through. */
  predicate WellFormed(job: Job)
  {
    !Malformed(job.p) && (job.p.Decide? ==> job.ref == job.p.id)
  }

  /** The operation as it runs: a selection picked in any order is sorted first. */
  function Prepared(job: Job): Job { job.(p := Normal(job.p)) }

  predicate Parsed(job: Job)
  {
    match job.p
    case Decide(_, id, _) => job.ref == id
    case Settle(_, items, _) => items != [] && Increasing(items)
    case _ => true
  }

  /** Checks that do not look at the bonus tables. */
  predicate Allowed(job: Job)
  {
    match job.p
    case Request(_, _, _) => true
    case Award(actor, owner, _, _) => owner != actor && job.access.manages && owner in job.access.staff
    case _ => job.access.manages
  }

  predicate RowCheck(l: Ledger, job: Job, id: Id)
  {
    match job.p
    case Request(_, _, _) => id !in l.heads
    case Award(_, _, _, _) => id !in l.heads
    case Decide(actor, _, _) => DecideError(l, actor, job.access, id).None?
    case Settle(actor, _, _) => ItemError(l, actor, job.access, id).None?
  }

  /** What the operation checks right after taking a lock, reading committed rows. */
  predicate Check(l: Ledger, job: Job, r: Resource)
  {
    match r
    case KeyLock(key) => key !in l.inbox && Allowed(job)
    case RowLock(id) => RowCheck(l, job, id)
  }

  function Apply(l: Ledger, job: Job): Ledger
  {
    Written(l, job.key, job.p, job.ref, job.home)
  }

  // ---------------------------------------------------------------- steps

  function ClaimOf(w: Work): LockOrder.Claim<Resource> { LockOrder.Claim(Plan(w.job), w.held) }

  function Claims(s: System): map<nat, LockOrder.Claim<Resource>>
  {
    map t | t in s.running :: ClaimOf(s.running[t])
  }

  predicate HeldBy(w: Work, r: Resource) { LockOrder.Holds(ClaimOf(w), r) }

  predicate Taken(s: System, r: Resource)
  {
    exists u :: u in s.running && HeldBy(s.running[u], r)
  }

  /** `randomUUID` gives a batch identifier nobody has. */
  predicate FreshBatch(s: System, batch: Id)
  {
    && BatchUnused(s.ledger, batch)
    && (forall key :: key in s.ledger.inbox && s.ledger.inbox[key].payload.Settle? ==> s.ledger.inbox[key].ref != batch)
    && (forall u :: u in s.running && s.running[u].job.p.Settle? ==> s.running[u].job.ref != batch)
  }

  predicate Enabled(s: System, e: Event)
  {
    match e
    case Begin(t, job) => t !in s.running && WellFormed(job) && (job.p.Settle? ==> FreshBatch(s, job.ref))
    case Acquire(t) =>
      && t in s.running && s.running[t].held < |Plan(s.running[t].job)|
      && var r := Plan(s.running[t].job)[s.running[t].held];
         !Taken(s, r) && Check(s.ledger, s.running[t].job, r)
    case Abort(t) => t in s.running
    case Commit(t) => t in s.running && s.running[t].held == |Plan(s.running[t].job)|
  }

  /** An operation may fail at any moment; only a commit is seen by the others. */
  function After(s: System, e: Event): System
    requires Enabled(s, e)
  {
    match e
    case Begin(t, job) => s.(running := s.running[t := Work(Prepared(job), 0)])
    case Acquire(t) => s.(running := s.running[t := s.running[t].(held := s.running[t].held + 1)])
    case Abort(t) => s.(running := s.running - {t})
    case Commit(t) => System(Apply(s.ledger, s.running[t].job), s.running - {t})
  }

  // ---------------------------------------------------------------- what every state keeps

  /** Everything checked under a lock still holds while the lock does. */
  ghost predicate ChecksHold(l: Ledger, w: Work)
  {
    && w.held <= |Plan(w.job)| && Parsed(w.job)
    && forall k :: 0 <= k < w.held ==> Check(l, w.job, Plan(w.job)[k])
  }

  ghost predicate Exclusive(v: Work, w: Work)
  {
    LockOrder.Exclusive(ClaimOf(v), ClaimOf(w))
  }

  ghost predicate BatchesApart(v: Work, w: Work)
  {
    v.job.p.Settle? && w.job.p.Settle? ==> v.job.ref != w.job.ref
  }

  ghost predicate BatchNew(l: Ledger, w: Work)
  {
    w.job.p.Settle? ==>
      && BatchUnused(l, w.job.ref)
      && forall key :: key in l.inbox && l.inbox[key].payload.Settle? ==> l.inbox[key].ref != w.job.ref
  }

  ghost predicate WorksFine(s: System)
  {
    && (forall t :: t in s.running ==> ChecksHold(s.ledger, s.running[t]) && BatchNew(s.ledger, s.running[t]))
    && (forall t, u :: t in s.running && u in s.running && t != u ==>
          Exclusive(s.running[t], s.running[u]) && BatchesApart(s.running[t], s.running[u]))
  }

  /** Two ledgers that agree on a resource. */
  predicate Same(l: Ledger, m: Ledger, r: Resource)
  {
    match r
    case KeyLock(key) => key in l.inbox <==> key in m.inbox
    case RowLock(id) =>
      && (id in l.heads <==> id in m.heads) && (id in l.heads ==> l.heads[id] == m.heads[id])
      && (id in l.decisions <==> id in m.decisions) && (id in l.decisions ==> l.decisions[id] == m.decisions[id])
      && (id in l.settlements <==> id in m.settlements) && (id in l.settlements ==> l.settlements[id] == m.settlements[id])
  }

  lemma {:induction false} CheckLocal(l: Ledger, m: Ledger, job: Job, r: Resource)
    requires Same(l, m, r)
    ensures Check(l, job, r) == Check(m, job, r)
  {}

  lemma {:induction false} PlanCovers(job: Job, id: Id)
    requires id in Rows(job)
    ensures RowLock(id) in Plan(job)
  {
    var k :| 0 <= k < |Rows(job)| && Rows(job)[k] == id;
    assert Plan(job)[k + 1] == RowLock(id);
  }

  /** A commit changes nothing but the rows and the key it holds. */
  lemma {:induction false} ApplyLocal(l: Ledger, job: Job, r: Resource)
    requires Parsed(job) && r !in Plan(job)
    ensures Same(l, Apply(l, job), r)
  {
    assert Plan(job)[0] == KeyLock(job.key);
    if r.RowLock? && r.id in Rows(job) { PlanCovers(job, r.id); }
  }

  /** Another operation's checks survive a commit. */
  lemma {:induction false} ChecksSurvive(l: Ledger, w: Work, other: Work)
    requires ChecksHold(l, w) && Exclusive(w, other) && other.held == |Plan(other.job)| && Parsed(other.job)
    ensures ChecksHold(Apply(l, other.job), w)
  {
    hide Check, Plan, Same, Apply, Parsed;
    forall k | 0 <= k < w.held ensures Check(Apply(l, other.job), w.job, Plan(w.job)[k]) {
      var r := Plan(w.job)[k];
      assert HeldBy(w, r);
      LockOrder.AllHeld(ClaimOf(other), r);
      ApplyLocal(l, other.job, r);
      CheckLocal(l, Apply(l, other.job), w.job, r);
    }
  }

  lemma {:induction false} BatchSurvives(l: Ledger, w: Work, other: Work)
    requires BatchNew(l, w) && BatchesApart(w, other)
    ensures BatchNew(Apply(l, other.job), w)
  {}

  lemma {:induction false} BeginKeeps(s: System, t: nat, job: Job)
    requires WorksFine(s) && Enabled(s, Begin(t, job))
    ensures WorksFine(After(s, Begin(t, job)))
  {
    hide Plan, Check, Parsed, WellFormed, Prepared;
    PreparedParsed(job);
    assert forall r :: !HeldBy(Work(Prepared(job), 0), r);
  }

  lemma {:induction false} PreparedParsed(job: Job)
    requires WellFormed(job)
    ensures Parsed(Prepared(job)) && Prepared(job).ref == job.ref && (Prepared(job).p.Settle? <==> job.p.Settle?)
  {
    hide Sorted, Increasing;
    if job.p.Settle? { assert job.p.items[0] in Sorted(job.p.items); }
  }

  lemma {:induction false} AcquireKeeps(s: System, t: nat)
    requires WorksFine(s) && Enabled(s, Acquire(t))
    ensures WorksFine(After(s, Acquire(t)))
  {
    hide Plan, Check, BatchUnused;
    var w := s.running[t];
    var v := w.(held := w.held + 1);
    forall u | u in s.running && u != t ensures Exclusive(v, s.running[u]) && Exclusive(s.running[u], v) {
      assert Exclusive(w, s.running[u]);
      assert !HeldBy(s.running[u], Plan(w.job)[w.held]);
      LockOrder.TakeFree(ClaimOf(w), ClaimOf(s.running[u]));
    }
  }

  lemma {:induction false} AbortKeeps(s: System, t: nat)
    requires WorksFine(s) && Enabled(s, Abort(t))
    ensures WorksFine(After(s, Abort(t)))
  {
    hide Plan, Check, BatchUnused, Exclusive, ChecksHold;
  }

  lemma {:induction false} CommitKeeps(s: System, t: nat)
    requires WorksFine(s) && Enabled(s, Commit(t))
    ensures WorksFine(After(s, Commit(t)))
  {
    hide Plan, Check, BatchUnused, Exclusive, ChecksHold, BatchNew, BatchesApart, Apply;
    var w, m := s.running[t], Apply(s.ledger, s.running[t].job);
    assert Parsed(w.job) by { ChecksParsed(s.ledger, w); }
    forall u | u in s.running && u != t ensures ChecksHold(m, s.running[u]) && BatchNew(m, s.running[u]) {
      ChecksSurvive(s.ledger, s.running[u], w);
      BatchSurvives(s.ledger, s.running[u], w);
    }
  }

  lemma {:induction false} ChecksParsed(l: Ledger, w: Work)
    requires ChecksHold(l, w)
    ensures Parsed(w.job)
  {
    hide Parsed, Check;
  }

  lemma {:induction false} StepKeeps(s: System, e: Event)
    requires WorksFine(s) && Enabled(s, e)
    ensures WorksFine(After(s, e))
  {
    hide WorksFine, Enabled, After;
    match e
    case Begin(t, job) => BeginKeeps(s, t, job);
    case Acquire(t) => AcquireKeeps(s, t);
    case Abort(t) => AbortKeeps(s, t);
    case Commit(t) => CommitKeeps(s, t);
  }

  // ---------------------------------------------------------------- a commit is the operation run alone

  lemma {:induction false} NoItemErrors(l: Ledger, actor: User, access: Access, items: seq<Id>)
    requires forall k :: 0 <= k < |items| ==> ItemError(l, actor, access, items[k]).None?
    ensures FirstError(l, actor, access, items).None?
    decreases items
  {
    hide ItemError;
    if items != [] {
      assert forall k :: 0 <= k < |items[1..]| ==> items[1..][k] == items[k + 1];
      NoItemErrors(l, actor, access, items[1..]);
    }
  }

  function PerformJob(l: Ledger, job: Job): Outcome
  {
    Perform(l, job.key, job.p, job.ref, job.home, job.access)
  }

  lemma {:induction false} ChecksNotRefused(l: Ledger, w: Work)
    requires ChecksHold(l, w) && BatchNew(l, w) && w.held == |Plan(w.job)|
    ensures w.job.key !in l.inbox && Refused(l, w.job.p, w.job.ref, w.job.access).None?
  {
    hide ItemError, DecideError, BatchUnused;
    var job := w.job;
    assert Plan(job)[0] == KeyLock(job.key);
    assert Check(l, job, Plan(job)[0]);
    forall k | 0 <= k < |Rows(job)| ensures RowCheck(l, job, Rows(job)[k]) {
      assert Plan(job)[k + 1] == RowLock(Rows(job)[k]);
      assert Check(l, job, Plan(job)[k + 1]);
    }
    RowsNotRefused(l, job);
  }

  lemma {:induction false} RowsNotRefused(l: Ledger, job: Job)
    requires Parsed(job) && Allowed(job) && (job.p.Settle? ==> BatchUnused(l, job.ref))
    requires forall k :: 0 <= k < |Rows(job)| ==> RowCheck(l, job, Rows(job)[k])
    ensures Refused(l, job.p, job.ref, job.access).None?
  {
    hide ItemError, DecideError, BatchUnused;
    assert job.p.Settle? || Rows(job)[0] == job.ref;
    if job.p.Settle? {
      forall k | 0 <= k < |job.p.items| ensures ItemError(l, job.p.actor, job.access, job.p.items[k]).None? {
        assert RowCheck(l, job, Rows(job)[k]);
      }
      NoItemErrors(l, job.p.actor, job.access, job.p.items);
    } else {
      assert RowCheck(l, job, Rows(job)[0]);
    }
  }

  lemma {:induction false} NotRefusedNotBarred(l: Ledger, job: Job)
    requires Refused(l, job.p, job.ref, job.access).None?
    ensures Barred(job.p, job.access).None?
  {}

  /** Whatever else is running, a commit does exactly what the operation alone would do to the committed tables. */
  lemma {:induction false} CommitIsSerial(s: System, t: nat)
    requires WorksFine(s) && Enabled(s, Commit(t))
    ensures PerformJob(s.ledger, s.running[t].job) == Done(After(s, Commit(t)).ledger)
  {
    hide Written, Plan, ChecksHold, BatchNew, Exclusive, BatchesApart, Refused;
    ChecksNotRefused(s.ledger, s.running[t]);
    NotRefusedNotBarred(s.ledger, s.running[t].job);
  }

  // ---------------------------------------------------------------- runs

  predicate Possible(s: System, run: seq<Event>)
    decreases run
  {
    run == [] || (Enabled(s, run[0]) && Possible(After(s, run[0]), run[1..]))
  }

  function Final(s: System, run: seq<Event>): System
    requires Possible(s, run)
    decreases run
  {
    if run == [] then s else Final(After(s, run[0]), run[1..])
  }

  /** The operations that committed, in the order of their commits. */
  function Committed(s: System, run: seq<Event>): seq<Job>
    requires Possible(s, run)
    decreases run
  {
    if run == [] then []
    else (if run[0].Commit? then [s.running[run[0].t].job] else []) + Committed(After(s, run[0]), run[1..])
  }

  /** Operations one after the other, each of which must succeed. */
  function Serial(l: Ledger, jobs: seq<Job>): Option<Ledger>
    decreases jobs
  {
    if jobs == [] then Some(l)
    else
      match PerformJob(l, jobs[0])
      case Done(m) => Serial(m, jobs[1..])
      case _ => None
  }

  function Started(l: Ledger): System { System(l, map[]) }

  lemma {:induction false} StepIsSerial(s: System, e: Event)
    requires WorksFine(s) && Enabled(s, e)
    ensures if e.Commit? then PerformJob(s.ledger, s.running[e.t].job) == Done(After(s, e).ledger)
            else After(s, e).ledger == s.ledger
  {
    hide WorksFine, PerformJob, Apply, Plan, Check, Taken, FreshBatch, Parsed;
    if e.Commit? { CommitIsSerial(s, e.t); }
  }

  /** Every interleaving leaves the tables as some one-after-the-other execution of its committed operations. */
  lemma {:induction false} RunIsSerial(s: System, run: seq<Event>)
    requires WorksFine(s) && Possible(s, run)
    ensures WorksFine(Final(s, run))
    ensures Serial(s.ledger, Committed(s, run)) == Some(Final(s, run).ledger)
    decreases run
  {
    hide WorksFine, Enabled, After, PerformJob;
    if run != [] {
      StepKeeps(s, run[0]);
      StepIsSerial(s, run[0]);
      var next := After(s, run[0]);
      RunIsSerial(next, run[1..]);
      var rest := Committed(next, run[1..]);
      if run[0].Commit? {
        CommitterRuns(s, run[0]);
        assert ([s.running[run[0].t].job] + rest)[1..] == rest;
      } else {
        assert [] + rest == rest;
      }
    }
  }

  lemma {:induction false} CommitterRuns(s: System, e: Event)
    requires Enabled(s, e) && e.Commit?
    ensures e.t in s.running
  {
    hide Plan;
  }

  // ---------------------------------------------------------------- no circle of waiting

  function RankOf(r: Resource): nat { if r.KeyLock? then 0 else 1 + r.id }

  lemma {:induction false} PlansAscend(job: Job)
    requires Parsed(job)
    ensures LockOrder.Ascending(Plan(job), RankOf)
  {
    var plan := Plan(job);
    forall i, j | 0 <= i < j < |plan| ensures RankOf(plan[i]) < RankOf(plan[j]) {
      assert plan[j] == RowLock(Rows(job)[j - 1]);
      if i > 0 { assert plan[i] == RowLock(Rows(job)[i - 1]); }
    }
  }

  lemma {:induction false} ClaimsProper(s: System, t: nat)
    requires WorksFine(s) && t in s.running
    ensures LockOrder.Proper(ClaimOf(s.running[t]), RankOf)
  {
    hide Plan, Check, Exclusive, BatchesApart, BatchNew;
    assert ChecksHold(s.ledger, s.running[t]);
    PlansAscend(s.running[t].job);
  }

  /** Overlapping batches and decisions never wait for each other in a circle. */
  lemma {:induction false} NoDeadlock(s: System, circle: seq<LockOrder.Claim<Resource>>)
    requires WorksFine(s) && circle != [] && forall c :: c in circle ==> c in Claims(s).Values
    ensures !(LockOrder.Chain(circle) && LockOrder.Waits(circle[|circle| - 1], circle[0]))
  {
    hide WorksFine, ClaimOf, LockOrder.Proper, LockOrder.Chain, LockOrder.Waits;
    forall t | t in s.running ensures LockOrder.Proper(Claims(s)[t], RankOf) { ClaimsProper(s, t); }
    LockOrder.NoDeadlock(Claims(s), RankOf, circle);
  }

  /** However many operations run, one of them has all its locks or finds the next one free: somebody always goes on. */
  lemma {:induction false} SomebodyGoesOn(s: System) returns (t: nat)
    requires WorksFine(s) && s.running.Keys != {}
    ensures t in s.running && LockOrder.Free(Claims(s), t)
  {
    hide WorksFine, ClaimOf, LockOrder.Proper, LockOrder.Free;
    forall t | t in s.running ensures LockOrder.Proper(Claims(s)[t], RankOf) { ClaimsProper(s, t); }
    assert Claims(s).Keys == s.running.Keys;
    t := LockOrder.SomeoneProceeds(Claims(s), RankOf);
  }

  // ---------------------------------------------------------------- what every reachable register keeps

  predicate HeadsFine(l: Ledger)
  {
    forall id :: id in l.heads ==> (l.heads[id].origin.Requested? <==> l.heads[id].createdBy == l.heads[id].owner)
  }

  /** Only requests are decided, never by their own beneficiary. */
  predicate DecisionsFine(l: Ledger)
  {
    forall id :: id in l.decisions ==>
      id in l.heads && l.heads[id].origin.Requested? && l.decisions[id].actor != l.heads[id].owner
  }

  /** Only approved requests and awards are settled, never by their own beneficiary. */
  predicate SettlementsFine(l: Ledger)
  {
    forall id :: id in l.settlements ==>
      && id in l.heads && l.settlements[id].actor != l.heads[id].owner
      && (l.heads[id].origin.Awarded? || (id in l.decisions && l.decisions[id].verdict.Approve?))
  }

  /** The operation under this key settled all its items in its batch, and nothing else is in that batch. */
  ghost predicate BatchWhole(l: Ledger, key: Key)
    requires key in l.inbox && l.inbox[key].payload.Settle?
  {
    var m := l.inbox[key];
    && m.payload.items != [] && Increasing(m.payload.items)
    && forall id :: id in m.payload.items <==> InBatch(l, id, m.ref)
  }

  predicate InBatch(l: Ledger, id: Id, batch: Id) { id in l.settlements && l.settlements[id].batch == batch }

  /** Every batch, all of it or nothing, belongs to one recorded operation. */
  ghost predicate BatchesFine(l: Ledger)
  {
    && (forall key :: key in l.inbox && l.inbox[key].payload.Settle? ==> BatchWhole(l, key))
    && (forall id :: id in l.settlements ==>
          exists key :: key in l.inbox && l.inbox[key].payload.Settle? && l.inbox[key].ref == l.settlements[id].batch)
  }

  ghost predicate Fine(l: Ledger)
  {
    HeadsFine(l) && DecisionsFine(l) && SettlementsFine(l) && BatchesFine(l)
  }

  /** Tables only grow, and no row of them ever changes. */
  predicate Extends(l: Ledger, m: Ledger)
  {
    && (forall id :: id in l.heads ==> id in m.heads && m.heads[id] == l.heads[id])
    && (forall id :: id in l.decisions ==> id in m.decisions && m.decisions[id] == l.decisions[id])
    && (forall id :: id in l.settlements ==> id in m.settlements && m.settlements[id] == l.settlements[id])
    && (forall key :: key in l.inbox ==> key in m.inbox && m.inbox[key] == l.inbox[key])
  }

  predicate MayBecome(before: Status, now: Status)
  {
    || before == now
    || (before.Pending? && (now.Approved? || now.Rejected? || now.Settled?))
    || (before.Approved? && now.Settled?)
  }

  lemma {:induction false} InsertKeeps(l: Ledger, job: Job)
    requires Fine(l) && (job.p.Request? || job.p.Award?) && job.key !in l.inbox
    requires Refused(l, job.p, job.ref, job.access).None?
    ensures Fine(Apply(l, job)) && Extends(l, Apply(l, job))
  {
    hide Increasing, BatchesFine;
    var m := Apply(l, job);
    SameBatches(l, m, job.key);
  }

  /** Nothing that leaves the settlements alone and records no settlement touches the batches. */
  lemma {:induction false} SameBatches(l: Ledger, m: Ledger, key: Key)
    requires BatchesFine(l) && m.settlements == l.settlements && key !in l.inbox
    requires key in m.inbox && m.inbox == l.inbox[key := m.inbox[key]] && !m.inbox[key].payload.Settle?
    ensures BatchesFine(m)
  {
    hide Increasing;
    forall k | k in m.inbox && m.inbox[k].payload.Settle? ensures BatchWhole(m, k) {
      assert BatchWhole(l, k);
      forall id ensures InBatch(l, id, m.inbox[k].ref) <==> InBatch(m, id, m.inbox[k].ref) {}
    }
    forall id | id in m.settlements
      ensures exists k :: k in m.inbox && m.inbox[k].payload.Settle? && m.inbox[k].ref == m.settlements[id].batch
    {
      var k :| k in l.inbox && l.inbox[k].payload.Settle? && l.inbox[k].ref == l.settlements[id].batch;
      assert k in m.inbox;
    }
  }

  lemma {:induction false} DecideKeeps(l: Ledger, job: Job)
    requires Fine(l) && job.p.Decide? && job.key !in l.inbox
    requires Refused(l, job.p, job.ref, job.access).None?
    ensures Fine(Apply(l, job)) && Extends(l, Apply(l, job))
  {
    hide Increasing, BatchesFine;
    var m := Apply(l, job);
    SameBatches(l, m, job.key);
  }

  lemma {:induction false} ItemsApproved(l: Ledger, job: Job, id: Id)
    requires job.p.Settle? && Refused(l, job.p, job.ref, job.access).None? && id in job.p.items
    ensures id in l.heads && l.heads[id].owner != job.p.actor && id !in l.settlements
    ensures l.heads[id].origin.Awarded? || (id in l.decisions && l.decisions[id].verdict.Approve?)
  {
    hide FirstError;
    NoErrorNoItemError(l, job.p.actor, job.access, job.p.items, id);
  }

  lemma {:induction false} SettleKeepsRows(l: Ledger, job: Job)
    requires SettlementsFine(l) && job.p.Settle? && Refused(l, job.p, job.ref, job.access).None? && job.key !in l.inbox
    ensures SettlementsFine(Apply(l, job)) && Extends(l, Apply(l, job))
  {
    hide Refused, Increasing;
    forall id | id in job.p.items
      ensures id in l.heads && l.heads[id].owner != job.p.actor && id !in l.settlements
      ensures l.heads[id].origin.Awarded? || (id in l.decisions && l.decisions[id].verdict.Approve?)
    {
      ItemsApproved(l, job, id);
    }
  }

  lemma {:induction false} OldBatchWhole(l: Ledger, job: Job, key: Key)
    requires BatchesFine(l) && job.p.Settle? && Refused(l, job.p, job.ref, job.access).None? && job.key !in l.inbox
    requires key in l.inbox && l.inbox[key].payload.Settle?
    ensures BatchWhole(Apply(l, job), key)
  {
    hide Increasing, FirstError;
    var m, b := Apply(l, job), l.inbox[key].ref;
    assert BatchWhole(l, key);
    assert InBatch(l, l.inbox[key].payload.items[0], b);
    assert b != job.ref;
    forall id ensures InBatch(l, id, b) <==> InBatch(m, id, b) {
      if id in job.p.items { ItemsApproved(l, job, id); }
    }
  }

  lemma {:induction false} NewBatchWhole(l: Ledger, job: Job)
    requires job.p.Settle? && Parsed(job) && Refused(l, job.p, job.ref, job.access).None?
    ensures BatchWhole(Apply(l, job), job.key)
  {
    hide Increasing, FirstError;
    var m := Apply(l, job);
    forall id ensures id in job.p.items <==> InBatch(m, id, job.ref) {}
  }

  lemma {:induction false} SettleKeepsBatches(l: Ledger, job: Job)
    requires BatchesFine(l) && job.p.Settle? && Parsed(job) && job.key !in l.inbox
    requires Refused(l, job.p, job.ref, job.access).None?
    ensures BatchesFine(Apply(l, job))
  {
    hide Increasing, Refused, BatchWhole;
    var m := Apply(l, job);
    forall key | key in m.inbox && m.inbox[key].payload.Settle? ensures BatchWhole(m, key) {
      if key == job.key { NewBatchWhole(l, job); } else { OldBatchWhole(l, job, key); }
    }
    forall id | id in m.settlements
      ensures exists key :: key in m.inbox && m.inbox[key].payload.Settle? && m.inbox[key].ref == m.settlements[id].batch
    {
      if id in job.p.items {
        assert job.key in m.inbox && m.inbox[job.key].ref == job.ref;
      } else {
        var key :| key in l.inbox && l.inbox[key].payload.Settle? && l.inbox[key].ref == l.settlements[id].batch;
        assert key in m.inbox;
      }
    }
  }

  /** An operation that succeeds keeps the register in order and only adds to it. */
  lemma {:induction false} DoneKeeps(l: Ledger, job: Job, m: Ledger)
    requires Fine(l) && Parsed(job) && PerformJob(l, job) == Done(m)
    ensures Fine(m) && Extends(l, m)
  {
    hide Fine, Extends, Refused, Parsed, Written;
    assert m == Apply(l, job);
    match job.p
    case Request(_, _, _) => InsertKeeps(l, job);
    case Award(_, _, _, _) => InsertKeeps(l, job);
    case Decide(_, _, _) => DecideKeeps(l, job);
    case Settle(_, _, _) => SettleAllKeeps(l, job);
  }

  lemma {:induction false} SettleAllKeeps(l: Ledger, job: Job)
    requires Fine(l) && job.p.Settle? && Parsed(job) && job.key !in l.inbox
    requires Refused(l, job.p, job.ref, job.access).None?
    ensures Fine(Apply(l, job)) && Extends(l, Apply(l, job))
  {
    hide Refused, BatchesFine, SettlementsFine, Extends;
    SettleKeepsRows(l, job);
    SettleKeepsBatches(l, job);
  }

  lemma {:induction false} EventKeeps(s: System, e: Event)
    requires WorksFine(s) && Fine(s.ledger) && Enabled(s, e)
    ensures Fine(After(s, e).ledger) && Extends(s.ledger, After(s, e).ledger)
  {
    hide Fine, PerformJob, Enabled, After, Parsed;
    StepIsSerial(s, e);
    if e.Commit? {
      CommitterRuns(s, e);
      CommitterParsed(s, e.t);
      DoneKeeps(s.ledger, s.running[e.t].job, After(s, e).ledger);
    }
  }

  lemma {:induction false} CommitterParsed(s: System, t: nat)
    requires WorksFine(s) && t in s.running
    ensures Parsed(s.running[t].job)
  {
    hide Exclusive, BatchesApart, BatchNew, Parsed, Check, Plan;
    assert ChecksHold(s.ledger, s.running[t]);
  }

  lemma {:induction false} ExtendsTransitive(l: Ledger, m: Ledger, n: Ledger)
    requires Extends(l, m) && Extends(m, n)
    ensures Extends(l, n)
  {}

  /** In every run, whatever interleaves, the register stays in order and no row is ever lost or changed. */
  lemma {:induction false} RunKeeps(s: System, run: seq<Event>)
    requires WorksFine(s) && Fine(s.ledger) && Possible(s, run)
    ensures Fine(Final(s, run).ledger) && Extends(s.ledger, Final(s, run).ledger)
    decreases run
  {
    hide Fine, WorksFine, Extends, Enabled, After;
    if run != [] {
      EventKeeps(s, run[0]);
      StepKeeps(s, run[0]);
      RunKeeps(After(s, run[0]), run[1..]);
      ExtendsTransitive(s.ledger, After(s, run[0]).ledger, Final(s, run).ledger);
    } else {
      ExtendsItself(s.ledger);
    }
  }

  lemma {:induction false} ExtendsItself(l: Ledger)
    ensures Extends(l, l)
  {}

  lemma {:induction false} EmptyFine()
    ensures var l := Ledger(map[], map[], map[], map[]); Fine(l) && WorksFine(Started(l))
  {}

  /** Between any two moments of a run, a status only moves forward: pending, then approved or rejected, then settled. */
  lemma {:induction false} StatusMovesForward(s: System, run: seq<Event>, id: Id)
    requires WorksFine(s) && Fine(s.ledger) && Possible(s, run) && id in s.ledger.heads
    ensures id in Final(s, run).ledger.heads
    ensures MayBecome(StatusOf(s.ledger, id), StatusOf(Final(s, run).ledger, id))
    ensures s.ledger.heads[id].origin.Awarded? ==> id !in Final(s, run).ledger.decisions
  {
    hide Possible, Final, WorksFine, BatchesFine, HeadsFine;
    RunKeeps(s, run);
  }

  // ---------------------------------------------------------------- how often

  function SettlesCount(jobs: seq<Job>, id: Id): nat
  {
    if jobs == [] then 0
    else (if jobs[0].p.Settle? && id in jobs[0].p.items then 1 else 0) + SettlesCount(jobs[1..], id)
  }

  function DecidesCount(jobs: seq<Job>, id: Id): nat
  {
    if jobs == [] then 0
    else (if jobs[0].p.Decide? && jobs[0].p.id == id then 1 else 0) + DecidesCount(jobs[1..], id)
  }

  function One(b: bool): nat { if b then 1 else 0 }

  lemma {:induction false} OneSettle(l: Ledger, job: Job, m: Ledger, id: Id)
    requires PerformJob(l, job) == Done(m)
    ensures One(id in m.settlements) == One(id in l.settlements) + One(job.p.Settle? && id in job.p.items)
  {
    hide FirstError, DecideError;
    if job.p.Settle? && id in job.p.items { ItemsApproved(l, job, id); }
  }

  lemma {:induction false} OneDecide(l: Ledger, job: Job, m: Ledger, id: Id)
    requires PerformJob(l, job) == Done(m)
    ensures One(id in m.decisions) == One(id in l.decisions) + One(job.p.Decide? && job.p.id == id)
  {
    hide FirstError;
  }

  /** Of all settlements that committed, exactly one held a bonus that is settled now and was not before: never two. */
  lemma {:induction false} SettledOnce(l: Ledger, jobs: seq<Job>, m: Ledger, id: Id)
    requires Serial(l, jobs) == Some(m)
    ensures One(id in m.settlements) == One(id in l.settlements) + SettlesCount(jobs, id)
    decreases jobs
  {
    hide PerformJob, One;
    if jobs != [] {
      var n := PerformJob(l, jobs[0]).ledger;
      OneSettle(l, jobs[0], n, id);
      SettledOnce(n, jobs[1..], m, id);
      OneValue(jobs[0].p.Settle? && id in jobs[0].p.items);
    }
  }

  lemma {:induction false} OneValue(b: bool)
    ensures One(b) == if b then 1 else 0
  {}

  /** Of all decisions that committed on a request, however many raced, exactly one is recorded. */
  lemma {:induction false} DecidedOnce(l: Ledger, jobs: seq<Job>, m: Ledger, id: Id)
    requires Serial(l, jobs) == Some(m)
    ensures One(id in m.decisions) == One(id in l.decisions) + DecidesCount(jobs, id)
    decreases jobs
  {
    hide PerformJob, One;
    if jobs != [] {
      var n := PerformJob(l, jobs[0]).ledger;
      OneDecide(l, jobs[0], n, id);
      DecidedOnce(n, jobs[1..], m, id);
      OneValue(jobs[0].p.Decide? && jobs[0].p.id == id);
    }
  }

  /** In any run from an empty register each bonus is settled, and each request decided, by at most one operation. */
  lemma {:induction false} RunSettlesOnce(run: seq<Event>, id: Id)
    requires Possible(Started(Ledger(map[], map[], map[], map[])), run)
    ensures var s := Started(Ledger(map[], map[], map[], map[]));
      var l := Final(s, run).ledger;
      && SettlesCount(Committed(s, run), id) == (if id in l.settlements then 1 else 0)
      && DecidesCount(Committed(s, run), id) == (if id in l.decisions then 1 else 0)
  {
    hide Possible, Final, Committed, Serial, SettlesCount, DecidesCount;
    var e := Ledger(map[], map[], map[], map[]);
    EmptyFine();
    RunIsSerial(Started(e), run);
    SettledOnce(e, Committed(Started(e), run), Final(Started(e), run).ledger, id);
    DecidedOnce(e, Committed(Started(e), run), Final(Started(e), run).ledger, id);
  }

  /** Whenever a recorded settlement is reported again, it is all its items and the sum of their amounts. */
  lemma {:induction false} ReportStays(l: Ledger, key: Key, access: Access)
    requires Fine(l) && key in l.inbox && l.inbox[key].payload.Settle?
    ensures var m := l.inbox[key]; var items := m.payload.items;
      ReportOn(l, m.ref, access) ==
        if exists id :: id in items && !RowInScope(l, access, id) then Err(NotFound)
        else Ok(Report(|items|, Total(l, items), items))
  {
    hide Ordered, Total, Increasing;
    var m := l.inbox[key];
    assert BatchWhole(l, key);
    forall id ensures id in Ordered(Members(l, m.ref)) <==> id in m.payload.items {
      assert InBatch(l, id, m.ref) <==> id in Members(l, m.ref);
    }
    IncreasingUnique(Ordered(Members(l, m.ref)), m.payload.items);
  }

  /** All rows of the operation lie in the sender's scope. */
  predicate StillSees(l: Ledger, job: Job, access: Access)
  {
    match job.p
    case Request(_, _, _) => true
    case Settle(_, items, _) => forall id :: id in items ==> RowInScope(l, access, id)
    case _ => RowInScope(l, access, job.ref)
  }

  /**
   * Sent again under its key at any later time, an operation that succeeded is answered as before and changes nothing,
   * exactly if the sender is still permitted and still has its rows in scope.
   */
  lemma {:induction false} RepeatReplays(l: Ledger, job: Job, m: Ledger, later: Ledger, again: Id, home: Branch,
                                         access: Access)
    requires Parsed(job) && PerformJob(l, job) == Done(m) && Extends(m, later) && Fine(later)
    ensures Perform(later, job.key, job.p, again, home, access) ==
      if Barred(job.p, access).Some? then Failed(Barred(job.p, access).value)
      else if StillSees(later, job, access) then Replayed(job.ref) else Failed(NotFound)
  {
    hide ReportOn, FirstError, Increasing, StatusOf, Fine, Total;
    Recorded(l, job, m, later);
    if job.p.Settle? { ReportStays(later, job.key, access); }
  }

  lemma {:induction false} Recorded(l: Ledger, job: Job, m: Ledger, later: Ledger)
    requires PerformJob(l, job) == Done(m) && Extends(m, later)
    ensures job.key in later.inbox && later.inbox[job.key] == Message(job.p, job.ref)
  {
    hide FirstError, DecideError, ReportOn;
  }

  /** The same sender with the same scope is answered, for rows once in scope stay so. */
  lemma {:induction false} SenderIsAnswered(l: Ledger, job: Job, m: Ledger, later: Ledger)
    requires Parsed(job) && PerformJob(l, job) == Done(m) && Extends(m, later)
    requires job.p.Award? ==> job.home in job.access.branches
    ensures Barred(job.p, job.access).None? && StillSees(later, job, job.access)
  {
    hide FirstError, Increasing;
    if job.p.Settle? {
      forall id | id in job.p.items ensures RowInScope(later, job.access, id) {
        NoErrorNoItemError(l, job.p.actor, job.access, job.p.items, id);
        AdmittedInScope(l, job.p.actor, job.access, id);
      }
    }
  }

  /** And a different request under that key is refused at any later time, whatever it asks and whoever asks it. */
  lemma {:induction false} KeyNotReused(l: Ledger, job: Job, m: Ledger, later: Ledger, other: Payload, ref: Id,
                                        home: Branch, access: Access)
    requires PerformJob(l, job) == Done(m) && Extends(m, later) && other != job.p
    ensures Perform(later, job.key, other, ref, home, access) ==
      Failed(if Barred(other, access).Some? then Barred(other, access).value else KeyReused)
  {
    hide PerformJob, Replay, Refused;
    Recorded(l, job, m, later);
  }

  /** A commit answers the request it came in as, in whatever order its items were picked. */
  lemma {:induction false} RequestIsPrepared(l: Ledger, job: Job)
    requires WellFormed(job)
    ensures Respond(l, job.key, job.p, job.ref, job.home, job.access) == PerformJob(l, Prepared(job))
  {
    hide Sorted, Replay, Refused, Written;
  }
}
