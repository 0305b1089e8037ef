// Where every row of the bonus register comes from.
module BonusLaws {
  import opened Common
  import opened Bonus
  import opened BonusRuns

  // ---------------------------------------------------------------- one operation adds only what it asks for

  /** The operation is the request or the award of this bonus. */
  predicate Makes(job: Job, id: Id, h: Head)
  {
    match job.p
    case Request(owner, amount, reason) =>
      job.ref == id && h == Head(owner, job.home, Requested, amount, reason, owner)
    case Award(actor, owner, amount, reason) =>
      job.ref == id && actor != owner && h == Head(owner, job.home, Awarded, amount, reason, actor)
    case _ => false
  }

  predicate DecidesAs(job: Job, id: Id, d: Decision)
  {
    job.p.Decide? && job.p.id == id && d == Decision(job.p.verdict, job.p.actor)
  }

  predicate SettlesAs(job: Job, id: Id, s: Settlement)
  {
    job.p.Settle? && id in job.p.items && s == Settlement(job.ref, job.p.actor, job.p.note)
  }

  lemma {:induction false} DoneAdds(l: Ledger, job: Job, m: Ledger, id: Id)
    requires PerformJob(l, job) == Done(m)
    ensures id in m.heads ==> (id in l.heads && l.heads[id] == m.heads[id]) || Makes(job, id, m.heads[id])
    ensures id in m.decisions ==> (id in l.decisions && l.decisions[id] == m.decisions[id]) || DecidesAs(job, id, m.decisions[id])
    ensures id in m.settlements ==>
      (id in l.settlements && l.settlements[id] == m.settlements[id]) || SettlesAs(job, id, m.settlements[id])
    ensures id in l.decisions ==> id in m.decisions && m.decisions[id] == l.decisions[id]
    ensures job.p.Decide? ==> job.p.id in m.decisions && DecidesAs(job, job.p.id, m.decisions[job.p.id])
  {
    hide FirstError, ReportOn;
  }

  // ---------------------------------------------------------------- over one operation after another

  ghost predicate Asked(jobs: seq<Job>, id: Id, h: Head) { exists k :: 0 <= k < |jobs| && Makes(jobs[k], id, h) }

  ghost predicate Decided(jobs: seq<Job>, id: Id, d: Decision) { exists k :: 0 <= k < |jobs| && DecidesAs(jobs[k], id, d) }

  ghost predicate Paid(jobs: seq<Job>, id: Id, s: Settlement) { exists k :: 0 <= k < |jobs| && SettlesAs(jobs[k], id, s) }

  /** Every row was there before, or is what one of the operations asked for. */
  lemma {:induction false} RowsAsAsked(l: Ledger, jobs: seq<Job>, m: Ledger, id: Id)
    requires Serial(l, jobs) == Some(m)
    ensures id in m.heads ==> (id in l.heads && l.heads[id] == m.heads[id]) || Asked(jobs, id, m.heads[id])
    ensures id in m.decisions ==> (id in l.decisions && l.decisions[id] == m.decisions[id]) || Decided(jobs, id, m.decisions[id])
    ensures id in m.settlements ==>
      (id in l.settlements && l.settlements[id] == m.settlements[id]) || Paid(jobs, id, m.settlements[id])
    decreases jobs
  {
    hide PerformJob, Makes, DecidesAs, SettlesAs;
    if jobs != [] {
      var n, rest := PerformJob(l, jobs[0]).ledger, jobs[1..];
      DoneAdds(l, jobs[0], n, id);
      RowsAsAsked(n, rest, m, id);
      forall k | 0 <= k < |rest| ensures jobs[k + 1] == rest[k] {}
      if id in m.heads && Asked(rest, id, m.heads[id]) {
        var k :| 0 <= k < |rest| && Makes(rest[k], id, m.heads[id]);
        assert Makes(jobs[k + 1], id, m.heads[id]);
      }
      if id in m.decisions && Decided(rest, id, m.decisions[id]) {
        var k :| 0 <= k < |rest| && DecidesAs(rest[k], id, m.decisions[id]);
        assert DecidesAs(jobs[k + 1], id, m.decisions[id]);
      }
      if id in m.settlements && Paid(rest, id, m.settlements[id]) {
        var k :| 0 <= k < |rest| && SettlesAs(rest[k], id, m.settlements[id]);
        assert SettlesAs(jobs[k + 1], id, m.settlements[id]);
      }
    }
  }

  lemma {:induction false} DecisionsStay(l: Ledger, jobs: seq<Job>, m: Ledger, id: Id)
    requires Serial(l, jobs) == Some(m) && id in l.decisions
    ensures id in m.decisions && m.decisions[id] == l.decisions[id]
    decreases jobs
  {
    hide PerformJob;
    if jobs != [] {
      DoneAdds(l, jobs[0], PerformJob(l, jobs[0]).ledger, id);
      DecisionsStay(PerformJob(l, jobs[0]).ledger, jobs[1..], m, id);
    }
  }

  /** What a decision that committed decided is what stays recorded. */
  lemma {:induction false} DecisionRecorded(l: Ledger, jobs: seq<Job>, m: Ledger, k: nat)
    requires Serial(l, jobs) == Some(m) && k < |jobs| && jobs[k].p.Decide?
    ensures jobs[k].p.id in m.decisions && m.decisions[jobs[k].p.id] == Decision(jobs[k].p.verdict, jobs[k].p.actor)
    decreases jobs
  {
    hide PerformJob;
    var n := PerformJob(l, jobs[0]).ledger;
    if k == 0 {
      DoneAdds(l, jobs[0], n, jobs[0].p.id);
      DecisionsStay(n, jobs[1..], m, jobs[0].p.id);
    } else {
      DecisionRecorded(n, jobs[1..], m, k - 1);
      assert jobs[1..][k - 1] == jobs[k];
    }
  }

  // ---------------------------------------------------------------- over every run

  function Empty(): Ledger { Ledger(map[], map[], map[], map[]) }

  /**
   * In every run from an empty register, each bonus, decision and settlement holds exactly what a committed operation
   * asked for: whose it is and how much, who decided what, who settled it in which batch with which note.
   */
  lemma {:induction false} RunRowsAsAsked(run: seq<Event>, id: Id)
    requires Possible(Started(Empty()), run)
    ensures var s := Started(Empty()); var l, jobs := Final(s, run).ledger, Committed(s, run);
      && (id in l.heads ==> Asked(jobs, id, l.heads[id]))
      && (id in l.decisions ==> Decided(jobs, id, l.decisions[id]))
      && (id in l.settlements ==> Paid(jobs, id, l.settlements[id]))
  {
    hide Possible, Final, Committed, Serial, WorksFine, Fine, Asked, Decided, Paid;
    EmptyFine();
    RunIsSerial(Started(Empty()), run);
    RowsAsAsked(Empty(), Committed(Started(Empty()), run), Final(Started(Empty()), run).ledger, id);
  }

  /** In every run, a committed decision is the one recorded; if it was a rejection, the bonus is never settled. */
  lemma {:induction false} RunDecisionStands(run: seq<Event>, k: nat)
    requires Possible(Started(Empty()), run)
    requires k < |Committed(Started(Empty()), run)| && Committed(Started(Empty()), run)[k].p.Decide?
    ensures var s := Started(Empty()); var l, p := Final(s, run).ledger, Committed(s, run)[k].p;
      && p.id in l.heads && p.id in l.decisions && l.decisions[p.id] == Decision(p.verdict, p.actor)
      && (p.verdict.Reject? ==> p.id !in l.settlements && StatusOf(l, p.id) == Rejected)
      && (p.verdict.Approve? ==> StatusOf(l, p.id) == if p.id in l.settlements then Settled else Approved)
  {
    hide Possible, Final, Committed, Serial, WorksFine, HeadsFine, BatchesFine;
    EmptyFine();
    RunIsSerial(Started(Empty()), run);
    RunKeeps(Started(Empty()), run);
    DecisionRecorded(Empty(), Committed(Started(Empty()), run), Final(Started(Empty()), run).ledger, k);
  }
}
